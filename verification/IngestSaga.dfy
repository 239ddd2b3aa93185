/** Adding evidence: ingest, extract, attach, each retried under its own idempotency key until the whole
    saga has succeeded. */
module IngestSaga {
  import opened Options

  datatype Artifact = Artifact(id: string, version: nat)

  datatype Target = Target(kind: string, id: string)

  type Source = string

  /** An artifact that the server created, and a binding that it made, each under a request's key. */
  datatype Created = Created(key: nat, source: Source, artifact: Artifact)
  datatype Bound = Bound(key: nat, artifact: Artifact, target: Target)

  /** What becomes of a request: it never arrives, its answer is lost, the server refuses it for a reason
      of its own, or it is answered. */
  datatype Fate = NeverArrives | AnswerLost | Refused | Answered

  predicate IsAnswered(fates: seq<Fate>, k: nat) { k < |fates| ==> fates[k].Answered? }

  function AfterRequests(fates: seq<Fate>, n: nat): seq<Fate> { if n <= |fates| then fates[n..] else [] }

  /** The store is idempotent by key: a known key replays its result for the same request, and is refused
      for another one. */
  class ArtifactService {
    var created: seq<Created>
    var bound: seq<Bound>
    var fates: seq<Fate>

    ghost predicate Valid()
      reads this
    {
      && (forall i, j | 0 <= i < j < |created| :: created[i].key != created[j].key)
      && (forall i, j | 0 <= i < j < |bound| :: bound[i].key != bound[j].key)
    }

    constructor (fates: seq<Fate>)
      ensures Valid() && created == [] && bound == []
    {
      created, bound, this.fates := [], [], fates;
    }

    method NextFate() returns (fate: Fate)
      modifies this`fates
      ensures fates == AfterRequests(old(fates), 1)
      ensures fate.Answered? <==> IsAnswered(old(fates), 0)
    {
      fate := if fates == [] then Answered else fates[0];
      fates := if fates == [] then [] else fates[1..];
    }

    function Find(key: nat): (r: Option<Created>)
      reads this
      ensures r.Some? ==> r.value in created && r.value.key == key
      ensures r.None? ==> forall c <- created :: c.key != key
    {
      FindIn(created, key)
    }

    function FindBound(key: nat): (r: Option<Bound>)
      reads this
      ensures r.Some? ==> r.value in bound && r.value.key == key
      ensures r.None? ==> forall b <- bound :: b.key != key
    {
      FindBoundIn(bound, key)
    }

    /** The answer names the artifact created under the key, for this source. */
    method Ingest(source: Source, artifact: Artifact, key: nat) returns (r: Option<Artifact>)
      requires Valid()
      modifies this
      ensures Valid() && bound == old(bound)
      ensures created == old(created) || ((forall c <- old(created) :: c.key != key)
                                          && created == old(created) + [Created(key, source, artifact)])
      ensures r.Some? ==> Created(key, source, r.value) in created
      ensures fates == AfterRequests(old(fates), 1)
      ensures r.Some? <==> IsAnswered(old(fates), 0) && forall c <- old(created) | c.key == key :: c.source == source
    {
      var fate := NextFate();
      r := None;
      if fate.NeverArrives? || fate.Refused? { return; }
      var known := Find(key);
      if known.None? {
        created := created + [Created(key, source, artifact)];
        if fate.Answered? { r := Some(artifact); }
      } else if known.value.source == source && fate.Answered? {
        r := Some(known.value.artifact);
      }
    }

    /** Representations only: nothing is created or bound. */
    method Extract(artifact: Artifact, key: nat) returns (ok: bool)
      modifies this`fates
      ensures fates == AfterRequests(old(fates), 1) && (ok <==> IsAnswered(old(fates), 0))
    {
      var fate := NextFate();
      ok := fate.Answered?;
    }

    method Attach(artifact: Artifact, target: Target, key: nat) returns (ok: bool)
      requires Valid()
      modifies this
      ensures Valid() && created == old(created)
      ensures bound == old(bound) || ((forall b <- old(bound) :: b.key != key)
                                      && bound == old(bound) + [Bound(key, artifact, target)])
      ensures ok ==> Bound(key, artifact, target) in bound
      ensures fates == AfterRequests(old(fates), 1)
      ensures ok <==> IsAnswered(old(fates), 0)
                      && forall b <- old(bound) | b.key == key :: b == Bound(key, artifact, target)
    {
      var fate := NextFate();
      ok := false;
      if fate.NeverArrives? || fate.Refused? { return; }
      var known := FindBound(key);
      if known.None? {
        bound := bound + [Bound(key, artifact, target)];
        ok := fate.Answered?;
      } else {
        ok := known.value == Bound(key, artifact, target) && fate.Answered?;
      }
    }
  }

  function FindIn(created: seq<Created>, key: nat): (r: Option<Created>)
    ensures r.Some? ==> r.value in created && r.value.key == key
    ensures r.None? ==> forall c <- created :: c.key != key
  {
    if created == [] then None else if created[0].key == key then Some(created[0]) else FindIn(created[1..], key)
  }

  function FindBoundIn(bound: seq<Bound>, key: nat): (r: Option<Bound>)
    ensures r.Some? ==> r.value in bound && r.value.key == key
    ensures r.None? ==> forall b <- bound :: b.key != key
  {
    if bound == [] then None else if bound[0].key == key then Some(bound[0]) else FindBoundIn(bound[1..], key)
  }

  /** What has been stored and is not yet attached, with the target the next attempts are locked to. */
  datatype Partial = Partial(artifact: Artifact, target: Target)

  /** One submit of the form: the target and source it holds, absent if they do not validate, and the
      identity the server would give a new artifact. */
  datatype Attempt = Attempt(target: Option<Target>, source: Option<Source>, artifact: Artifact)

  /** The dialog. Keys are random and never repeat: round n of the dialog draws key n for each step. */
  class IngestDialog {
    var partial: Option<Partial>
    var round: nat

    constructor ()
      ensures partial == None && round == 0
    {
      partial, round := None, 0;
    }

    /** In the current round: what is bound is the stored artifact, to the target it was stored for. */
    ghost predicate Consistent(service: ArtifactService)
      reads this, service
    {
      && service.Valid()
      && (forall c <- service.created :: c.key <= round)
      && (forall b <- service.bound ::
            b.key <= round && exists c <- service.created :: c.key == b.key && c.artifact == b.artifact)
      && (forall b <- service.bound | b.key == round :: partial == Some(Partial(b.artifact, b.target)))
      && (partial.Some? ==> exists c <- service.created :: c.key == round && c.artifact == partial.value.artifact)
    }

    /** One submit: at most one artifact and one binding come into being, both under the round's keys. The
        target is the one locked by the submit that saw the ingestion succeed, and the keys rotate only
        when the whole saga has succeeded. It succeeds exactly if what is stored, or the form, is valid, the
        requests to ingest and to attach are answered, and the round's key has not been used for another
        source; whether the extraction is answered does not matter. */
    method Submit(service: ArtifactService, attempt: Attempt) returns (done: bool)
      requires Consistent(service)
      modifies this, service
      ensures Consistent(service)
      ensures old(service.created) <= service.created && |service.created| <= |old(service.created)| + 1
      ensures old(service.bound) <= service.bound && |service.bound| <= |old(service.bound)| + 1
      ensures forall c <- service.created | c !in old(service.created) ::
              c.key == old(round) && Some(c.source) == attempt.source
      ensures forall b <- service.bound | b !in old(service.bound) ::
                && b.key == old(round)
                && Some(b.target) == if old(partial).Some? then Some(old(partial).value.target) else attempt.target
      ensures !done ==> round == old(round) && (old(partial).Some? ==> partial == old(partial))
      ensures !done && old(partial).None? && partial.Some? ==> Some(partial.value.target) == attempt.target
      ensures done ==>
                && round == old(round) + 1 && partial == None
                && IsBound(service.bound, old(round))
      ensures done <==>
                if old(partial).Some? then IsAnswered(old(service.fates), 1)
                else
                  && attempt.target.Some? && attempt.source.Some?
                  && IsAnswered(old(service.fates), 0) && IsAnswered(old(service.fates), 2)
                  && forall c <- old(service.created) | c.key == old(round) :: c.source == attempt.source.value
    {
      OneMoreRequest(service.fates, 1);
      if partial.None? {
        var stored := Store(service, attempt);
        if !stored { return false; }
      }
      done := Complete(service);
    }

    /** Stores the source and locks the target, unless the form does not hold, the request is not answered,
        or the key has been used for another source. */
    method Store(service: ArtifactService, attempt: Attempt) returns (stored: bool)
      requires Consistent(service) && partial.None?
      modifies `partial, service
      ensures Consistent(service) && service.bound == old(service.bound)
      ensures old(service.created) <= service.created && |service.created| <= |old(service.created)| + 1
      ensures forall c <- service.created | c !in old(service.created) ::
              c.key == round && Some(c.source) == attempt.source
      ensures stored <==> partial.Some?
      ensures stored ==> Some(partial.value.target) == attempt.target
      ensures stored <==>
                && attempt.target.Some? && attempt.source.Some? && IsAnswered(old(service.fates), 0)
                && forall c <- old(service.created) | c.key == round :: c.source == attempt.source.value
      ensures stored ==> service.fates == AfterRequests(old(service.fates), 1)
    {
      if attempt.target.None? || attempt.source.None? { return false; }
      var ingested := service.Ingest(attempt.source.value, attempt.artifact, round);
      if ingested.None? { return false; }
      partial := Some(Partial(ingested.value, attempt.target.value));
      stored := true;
    }

    /** Asks for the representations and attaches what is stored; the round ends if that is answered. */
    method Complete(service: ArtifactService) returns (done: bool)
      requires Consistent(service) && partial.Some?
      modifies this, service
      ensures Consistent(service) && service.created == old(service.created)
      ensures old(service.bound) <= service.bound && |service.bound| <= |old(service.bound)| + 1
      ensures forall b <- service.bound | b !in old(service.bound) ::
              b.key == old(round) && b.target == old(partial).value.target
      ensures !done ==> round == old(round) && partial == old(partial)
      ensures done ==> round == old(round) + 1 && partial == None && IsBound(service.bound, old(round))
      ensures done <==> IsAnswered(old(service.fates), 1)
    {
      var stored := partial.value;
      var extracted := service.Extract(stored.artifact, round);
      OneMoreRequest(old(service.fates), 0);
      done := service.Attach(stored.artifact, stored.target, round);
      if !done { return; }
      partial := None;
      round := round + 1;
    }

    static lemma {:induction false} OneMoreRequest(fates: seq<Fate>, k: nat)
      ensures IsAnswered(AfterRequests(fates, 1), k) <==> IsAnswered(fates, k + 1)
    {
    }

    /** Any sequence of failing and retried submits: while the round lasts, one artifact at most is created
        and one binding at most is made, however many submits there are. */
    method SubmitAll(service: ArtifactService, attempts: seq<Attempt>)
      requires Consistent(service) && partial == None
      requires (forall c <- service.created :: c.key < round) && forall b <- service.bound :: b.key < round
      modifies this, service
      ensures Consistent(service) && old(round) <= round <= old(round) + |attempts|
      ensures forall key: nat :: CreatedUnder(service.created, key) <= 1 && BoundUnder(service.bound, key) <= 1
      ensures forall key: nat | old(round) <= key < round ::
              CreatedUnder(service.created, key) == 1 && BoundUnder(service.bound, key) == 1
    {
      ghost var rounds := round;
      for i := 0 to |attempts|
        invariant Consistent(service) && rounds <= round <= rounds + i
        invariant forall key: nat | rounds <= key < round :: IsBound(service.bound, key)
      {
        ghost var bound := service.bound;
        var done := Submit(service, attempts[i]);
        forall key: nat | IsBound(bound, key) ensures IsBound(service.bound, key) {
          BoundStays(bound, service.bound, key);
        }
      }
      ghost var created, bound := service.created, service.bound;
      forall key: nat | IsBound(bound, key) ensures IsCreated(created, key) {
        var b :| b in bound && b.key == key;
        assert exists c <- created :: c.key == b.key && c.artifact == b.artifact;
      }
      forall key: nat
        ensures CreatedUnder(service.created, key) <= 1 && BoundUnder(service.bound, key) <= 1
        ensures rounds <= key < round ==> CreatedUnder(service.created, key) == 1 && BoundUnder(service.bound, key) == 1
      {
        CountCreated(service.created, key);
        CountBound(service.bound, key);
      }
    }
  }

  ghost predicate IsCreated(created: seq<Created>, key: nat) { exists c <- created :: c.key == key }

  ghost predicate IsBound(bound: seq<Bound>, key: nat) { exists b <- bound :: b.key == key }

  lemma {:induction false} BoundStays(before: seq<Bound>, after: seq<Bound>, key: nat)
    requires before <= after && IsBound(before, key)
    ensures IsBound(after, key)
  {
    var b :| b in before && b.key == key;
    assert b in after;
  }

  function CreatedUnder(created: seq<Created>, key: nat): nat {
    if created == [] then 0 else (if created[0].key == key then 1 else 0) + CreatedUnder(created[1..], key)
  }

  function BoundUnder(bound: seq<Bound>, key: nat): nat {
    if bound == [] then 0 else (if bound[0].key == key then 1 else 0) + BoundUnder(bound[1..], key)
  }

  lemma {:induction false} CountCreated(created: seq<Created>, key: nat)
    requires forall i, j | 0 <= i < j < |created| :: created[i].key != created[j].key
    ensures CreatedUnder(created, key) <= 1
    ensures CreatedUnder(created, key) == 1 <==> IsCreated(created, key)
  {
    if created != [] {
      CountCreated(created[1..], key);
      assert forall c <- created :: c == created[0] || c in created[1..];
      if created[0].key == key { assert forall c <- created[1..] :: c.key != key; }
    }
  }

  lemma {:induction false} CountBound(bound: seq<Bound>, key: nat)
    requires forall i, j | 0 <= i < j < |bound| :: bound[i].key != bound[j].key
    ensures BoundUnder(bound, key) <= 1
    ensures BoundUnder(bound, key) == 1 <==> IsBound(bound, key)
  {
    if bound != [] {
      CountBound(bound[1..], key);
      assert forall b <- bound :: b == bound[0] || b in bound[1..];
      if bound[0].key == key { assert forall b <- bound[1..] :: b.key != key; }
    }
  }
}
