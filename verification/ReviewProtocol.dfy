/** Every interleaving of polls, acknowledgements, failures and mutations of the review page: no
    decision binds a session that the reviewer has not accepted. */
module ReviewProtocol {
  import opened Options
  import opened ReviewPage

  datatype Kind = DecisionSent | FeedbackSetCreated | FeedbackSetSubmitted

  /** A request that went out: the decision it carries, if any, and the session it binds by identity,
      resource version, candidate and digests. With it stands what was on record at that moment: the
      session accepted last, whether a change had been seen since, and the digest of what was displayed. */
  datatype Sent = Sent(kind: Kind, decision: Option<Decision>, session: Session, accepted: Option<Session>,
                       changeSeen: bool, displayed: Option<string>)

  /** The page, and the record of what the reviewer accepted: the session of the first load, of an own
      result or of an acknowledgement, and what has been received since then. A mutation ends with a
      reload; after an own result that reload acknowledges what it fetches, though the reviewer has not. */
  datatype World = World(page: State, accepted: Option<Session>, since: seq<Session>, failures: bool, sent: seq<Sent>,
                         acknowledging: nat, reloadAcknowledges: bool)

  datatype Event =
    | Poll(exact: Session, all: map<nat, Artifact>, prior: Option<nat>) | PollFailed
    | Acknowledge | Acknowledged(exact: Session, all: map<nat, Artifact>, prior: Option<nat>) | AcknowledgeFailed
    | Show(view: View, requested: Option<nat>) | TextLoaded(text: Option<Text>) | DiffLoaded(diff: Option<Diff>)
    | SendDecision(decision: Decision, formValid: bool) | SendFeedback(formValid: bool)
    | Created | Result(result: Session) | Refused(conflict: bool)
    | Reloaded(exact: Session, all: map<nat, Artifact>, prior: Option<nat>) | ReloadFailed

  /** Independent of the page's own flag: something received since the last acceptance differs from what
      was accepted, or could not be received. */
  predicate ChangeSeen(w: World) {
    w.failures || w.accepted.None? || exists s <- w.since :: Changed(w.accepted.value, s)
  }

  /** The digest of the candidate as the reader shows it. */
  function Displayed(s: State): Option<string> {
    match s.view
    case CandidateView => if s.text.Some? then Some(s.text.value.artifactDigest) else None
    case PriorView => None
    case _ => if s.diff.Some? then Some(s.diff.value.toDigest) else None
  }

  // A load is accepted when it is the first, or acknowledged, and not superseded.
  function Load(w: World, exact: Session, all: map<nat, Artifact>, prior: Option<nat>, acknowledge: bool): World {
    var page := Loaded(w.page, exact, all, prior, acknowledge);
    if !ReviewPage.Verified(exact, all) then Fail(w)
    else if !exact.state.Superseded? && (acknowledge || w.page.session.None?)
    then w.(page := page, accepted := Some(exact), since := [], failures := false)
    else w.(page := page, since := w.since + [exact])
  }

  // The reload after an own result: the page takes what it fetches as acknowledged. What the reviewer
  // accepted is still the result.
  function Reload(w: World, exact: Session, all: map<nat, Artifact>, prior: Option<nat>): World {
    if !ReviewPage.Verified(exact, all) then Fail(w)
    else w.(page := Loaded(w.page, exact, all, prior, true), since := w.since + [exact],
            failures := w.failures && exact.state.Superseded?)
  }

  function Fail(w: World): World { w.(page := LoadFailed(w.page), failures := true) }

  function Record(w: World, kind: Kind, decision: Option<Decision>, session: Session): World {
    w.(sent := w.sent + [Sent(kind, decision, session, w.accepted, ChangeSeen(w), Displayed(w.page))])
  }

  function Step(w: World, approvalId: string, e: Event): World {
    match e
    case Poll(exact, all, prior) => Load(w, exact, all, prior, false)
    case PollFailed => Fail(w)
    case Acknowledge =>
      // the button is offered for a changed resource, not for a superseded candidate
      if w.page.freshness == Stale(false) then w.(acknowledging := w.acknowledging + 1) else w
    case Acknowledged(exact, all, prior) =>
      if w.acknowledging == 0 then w else Load(w.(acknowledging := w.acknowledging - 1), exact, all, prior, true)
    case AcknowledgeFailed => if w.acknowledging == 0 then w else Fail(w.(acknowledging := w.acknowledging - 1))
    case Show(view, requested) => w.(page := w.page.(view := view, requested := requested))
    case TextLoaded(text) => w.(page := w.page.(text := text))
    case DiffLoaded(diff) => w.(page := w.page.(diff := diff))
    case SendDecision(decision, formValid) =>
      var v := w.(page := Decide(w.page, approvalId, decision, formValid));
      if MayDecide(w.page, approvalId, decision, formValid)
      then Record(v, DecisionSent, Some(decision), w.page.session.value) else v
    case SendFeedback(formValid) =>
      var v := w.(page := Revise(w.page, approvalId, formValid));
      if MayRevise(w.page, approvalId, formValid)
      then Record(v, FeedbackSetCreated, None, w.page.session.value) else v
    case Created =>
      var v := w.(page := FeedbackCreated(w.page));
      if w.page.busy.Creating? then Record(v, FeedbackSetSubmitted, None, w.page.busy.held) else v
    case Result(result) =>
      if w.page.busy.Deciding? || w.page.busy.Submitting?
      then w.(page := Recorded(w.page, result), accepted := Some(result), since := [], failures := false,
              reloadAcknowledges := true)
      else w
    case Refused(conflict) =>
      if w.page.busy.Idle? || w.page.busy.Reloading? then w
      else w.(page := MutationFailed(w.page, conflict), failures := w.failures || conflict, reloadAcknowledges := false)
    case Reloaded(exact, all, prior) =>
      if !w.page.busy.Reloading? then w
      else
        var v := if w.reloadAcknowledges then Reload(w, exact, all, prior) else Load(w, exact, all, prior, false);
        v.(page := ReloadEnded(v.page))
    case ReloadFailed =>
      if !w.page.busy.Reloading? then w else var v := Fail(w); v.(page := ReloadEnded(v.page))
  }

  function Start(): World { World(Opened, None, [], false, [], 0, false) }

  function Run(w: World, approvalId: string, es: seq<Event>): World
    decreases |es|
  {
    if es == [] then w else Run(Step(w, approvalId, es[0]), approvalId, es[1..])
  }

  lemma {:induction false} RunThen(w: World, approvalId: string, es: seq<Event>, e: Event)
    ensures Run(w, approvalId, es + [e]) == Step(Run(w, approvalId, es), approvalId, e)
    decreases |es|
  {
    hide Step;
    if es == [] {
      assert Run(Step(w, approvalId, e), approvalId, []) == Step(w, approvalId, e);
      assert (es + [e])[1..] == [];
    } else {
      assert (es + [e])[1..] == es[1..] + [e];
      RunThen(Step(w, approvalId, es[0]), approvalId, es[1..], e);
    }
  }

  // ---------------------------------------------------------------- the handlers in these runs

  predicate IsLoad(e: Event) {
    e.Poll? || e.PollFailed? || e.Acknowledged? || e.AcknowledgeFailed? || e.Reloaded? || e.ReloadFailed?
  }

  predicate IsSend(e: Event) { e.SendDecision? || e.SendFeedback? || e.Created? }

  /** The handler of what a load brings, run on the page itself. */
  method HandleLoad(page: Page, w: World, e: Event) returns (v: World)
    requires page.Snapshot() == w.page && IsLoad(e)
    modifies page
    ensures v == Step(w, page.approvalId, e) && page.Snapshot() == v.page
  {
    hide Changed, ReviewPage.Verified;
    v := Step(w, page.approvalId, e);
    match e {
      case Poll(exact, all, prior) => page.OnLoaded(exact, all, prior, false);
      case PollFailed => page.OnLoadFailed();
      case Acknowledged(exact, all, prior) => if w.acknowledging > 0 { page.OnLoaded(exact, all, prior, true); }
      case AcknowledgeFailed => if w.acknowledging > 0 { page.OnLoadFailed(); }
      case Reloaded(exact, all, prior) =>
        if w.page.busy.Reloading? {
          page.OnLoaded(exact, all, prior, w.reloadAcknowledges);
          page.OnReloadEnded();
        }
      case ReloadFailed =>
        if w.page.busy.Reloading? {
          page.OnLoadFailed();
          page.OnReloadEnded();
        }
    }
  }

  /** The handlers that send: their requests are the ones on record. */
  method HandleSend(page: Page, w: World, e: Event) returns (v: World)
    requires page.Snapshot() == w.page && IsSend(e)
    modifies page
    ensures v == Step(w, page.approvalId, e) && page.Snapshot() == v.page
  {
    hide MutationAllowed, DisplayedText;
    v := Step(w, page.approvalId, e);
    match e {
      case SendDecision(decision, formValid) =>
        var sent := page.SendDecision(decision, formValid);
        assert Sends(w, v, DecisionSent, Some(decision), sent);
      case SendFeedback(formValid) =>
        var sent := page.SendFeedback(formValid);
        assert Sends(w, v, FeedbackSetCreated, None, sent);
      case Created =>
        var sent := page.OnFeedbackCreated();
        assert Sends(w, v, FeedbackSetSubmitted, None, sent);
    }
  }

  /** The handlers of the other events. */
  method HandleOther(page: Page, w: World, e: Event) returns (v: World)
    requires page.Snapshot() == w.page && !IsLoad(e) && !IsSend(e)
    modifies page
    ensures v == Step(w, page.approvalId, e) && page.Snapshot() == v.page
  {
    v := Step(w, page.approvalId, e);
    match e {
      case Acknowledge =>
      case Show(view, requested) => page.OnDisplay(view, requested, page.text, page.diff);
      case TextLoaded(text) => page.OnDisplay(page.view, page.requested, text, page.diff);
      case DiffLoaded(diff) => page.OnDisplay(page.view, page.requested, page.text, diff);
      case Result(result) => page.OnRecorded(result);
      case Refused(conflict) => page.OnMutationFailed(conflict);
    }
  }

  method Handle(page: Page, w: World, e: Event) returns (v: World)
    requires page.Snapshot() == w.page
    modifies page
    ensures v == Step(w, page.approvalId, e) && page.Snapshot() == v.page
  {
    hide Step;
    if IsLoad(e) {
      v := HandleLoad(page, w, e);
    } else if IsSend(e) {
      v := HandleSend(page, w, e);
    } else {
      v := HandleOther(page, w, e);
    }
  }

  /** The request that a handler sends is the one on record, for the session it binds. */
  predicate Sends(w: World, v: World, kind: Kind, decision: Option<Decision>, sent: Option<Session>) {
    v.sent == if sent.None? then w.sent
              else w.sent + [Sent(kind, decision, sent.value, w.accepted, ChangeSeen(w), Displayed(w.page))]
  }

  /** A whole run of the handlers is a run of the model, from opening the page on. */
  method HandleAll(approvalId: string, es: seq<Event>) returns (page: Page, w: World)
    ensures w == Run(Start(), approvalId, es) && page.Snapshot() == w.page
  {
    page := new Page(approvalId);
    w := Start();
    assert es[..0] == [];
    for i := 0 to |es|
      invariant page.approvalId == approvalId
      invariant w == Run(Start(), approvalId, es[..i]) && page.Snapshot() == w.page
    {
      RunThen(Start(), approvalId, es[..i], es[i]);
      assert es[..i] + [es[i]] == es[..i + 1];
      w := Handle(page, w, es[i]);
    }
    assert es[..|es|] == es;
  }

  // ---------------------------------------------------------------- the invariant

  /** Where the page's flag lets a mutation through, it is at least as careful as the record. */
  predicate Careful(w: World, approvalId: string) {
    w.page.freshness.Current? && w.page.session.Some?
    && w.page.session.value.id == approvalId && w.page.session.value.state.AwaitingHuman? ==>
      && !ChangeSeen(w) && !Changed(w.accepted.value, w.page.session.value)
  }

  /** The revisions shown are those of the session, unless a reload is under way or the page is stale. */
  predicate RevisionsMatch(s: State) {
    s.session.Some? && s.freshness.Current? && !s.busy.Reloading? ==> ReviewPage.Verified(s.session.value, s.revisions)
  }

  /** The same session in everything but the decisions it allows. */
  predicate SameBut(a: Session, b: Session) { a.(allowed := b.allowed) == b }

  /** Decisions and feedback sets bind the accepted session, with no change seen and its digest displayed. */
  predicate Binds(x: Sent) {
    x.kind != FeedbackSetSubmitted ==>
      && x.accepted.Some? && SameBut(x.accepted.value, x.session) && !x.changeSeen
      && x.displayed == Some(x.session.candidateDigest)
  }

  /** Feedback is submitted for the binding of the feedback set created last. */
  ghost predicate Follows(sent: seq<Sent>, k: nat)
    requires k < |sent|
  {
    sent[k].kind == FeedbackSetSubmitted ==>
      k > 0 && sent[k - 1].kind == FeedbackSetCreated && sent[k - 1].session == sent[k].session
  }

  /** A feedback set under creation is the last request. */
  ghost predicate Creation(w: World) {
    w.page.busy.Creating? ==>
      && w.sent != [] && w.sent[|w.sent| - 1].kind == FeedbackSetCreated
      && w.sent[|w.sent| - 1].session == w.page.busy.held
  }

  ghost predicate Inv(w: World, approvalId: string) {
    && Careful(w, approvalId) && RevisionsMatch(w.page) && Creation(w)
    && (w.page.busy.Reloading? && w.reloadAcknowledges ==> w.accepted.Some?)
    && (w.page.session.None? ==> w.accepted.None? && w.page.busy.Idle?)
    && (forall k | 0 <= k < |w.sent| :: Binds(w.sent[k]) && Follows(w.sent, k))
  }

  lemma {:induction false} LoadKeeps(w: World, approvalId: string, exact: Session, all: map<nat, Artifact>,
                                     prior: Option<nat>, acknowledge: bool)
    requires Inv(w, approvalId)
    ensures Inv(Load(w, exact, all, prior, acknowledge), approvalId)
  {
    FailKeeps(w, approvalId);
    var v := Load(w, exact, all, prior, acknowledge);
    assert v.sent == w.sent;
    hide Binds, Follows;
  }

  lemma {:induction false} FailKeeps(w: World, approvalId: string)
    requires Inv(w, approvalId)
    ensures Inv(Fail(w), approvalId)
  {
    assert Fail(w).sent == w.sent;
  }

  lemma {:induction false} Sending(w: World, x: Sent)
    requires forall k | 0 <= k < |w.sent| :: Binds(w.sent[k]) && Follows(w.sent, k)
    requires Binds(x) && (x.kind == FeedbackSetSubmitted ==>
                          w.sent != [] && w.sent[|w.sent| - 1].kind == FeedbackSetCreated
                                                               && w.sent[|w.sent| - 1].session == x.session)
    ensures forall k | 0 <= k < |w.sent| + 1 :: Binds((w.sent + [x])[k]) && Follows(w.sent + [x], k)
  {
    var sent := w.sent + [x];
    forall k | 0 <= k < |sent| ensures Binds(sent[k]) && Follows(sent, k) {
      if k < |w.sent| { assert Binds(w.sent[k]) && Follows(w.sent, k); }
    }
  }

  /** When the page allows a mutation, what it displays is the accepted session's candidate. */
  lemma {:induction false} AllowedDisplays(w: World, approvalId: string)
    requires Inv(w, approvalId) && MayMutate(w.page, approvalId)
    ensures w.accepted.Some? && SameBut(w.accepted.value, w.page.session.value) && !ChangeSeen(w)
    ensures Displayed(w.page) == Some(w.page.session.value.candidateDigest)
  {
  }

  lemma {:induction false} DecisionKeeps(w: World, approvalId: string, decision: Decision, formValid: bool)
    requires Inv(w, approvalId)
    ensures Inv(Step(w, approvalId, SendDecision(decision, formValid)), approvalId)
  {
    var v := Step(w, approvalId, SendDecision(decision, formValid));
    if MayDecide(w.page, approvalId, decision, formValid) {
      AllowedDisplays(w, approvalId);
      Sending(w, v.sent[|w.sent|]);
    }
  }

  lemma {:induction false} FeedbackKeeps(w: World, approvalId: string, formValid: bool)
    requires Inv(w, approvalId)
    ensures Inv(Step(w, approvalId, SendFeedback(formValid)), approvalId)
  {
    var v := Step(w, approvalId, SendFeedback(formValid));
    if MayRevise(w.page, approvalId, formValid) {
      AllowedDisplays(w, approvalId);
      Sending(w, v.sent[|w.sent|]);
    }
  }

  lemma {:induction false} SubmissionKeeps(w: World, approvalId: string)
    requires Inv(w, approvalId)
    ensures Inv(Step(w, approvalId, Created), approvalId)
  {
    var v := Step(w, approvalId, Created);
    if w.page.busy.Creating? { Sending(w, v.sent[|w.sent|]); }
  }

  lemma {:induction false} ResultKeeps(w: World, approvalId: string, e: Event)
    requires Inv(w, approvalId) && (e.Result? || e.Refused?)
    ensures Inv(Step(w, approvalId, e), approvalId)
  {
    assert Step(w, approvalId, e).sent == w.sent;
  }

  lemma {:induction false} DisplayKeeps(w: World, approvalId: string, e: Event)
    requires Inv(w, approvalId) && (e.Show? || e.TextLoaded? || e.DiffLoaded? || e.Acknowledge?)
    ensures Inv(Step(w, approvalId, e), approvalId)
  {
    assert Step(w, approvalId, e).sent == w.sent;
  }

  /** The reload after an own result brings, or has been preceded by, something that differs from that
      result, and the page takes it as acknowledged. */
  predicate Unnoticed(w: World, approvalId: string, e: Event) {
    && e.Reloaded? && w.page.busy.Reloading? && w.reloadAcknowledges && w.accepted.Some?
    && ReviewPage.Verified(e.exact, e.all) && e.exact.id == approvalId && e.exact.state.AwaitingHuman?
    && exists s <- w.since + [e.exact] :: Changed(w.accepted.value, s)
  }

  lemma {:induction false} ReloadKeeps(w: World, approvalId: string, e: Event)
    requires Inv(w, approvalId) && e.Reloaded? && w.page.busy.Reloading? && !Unnoticed(w, approvalId, e)
    ensures Inv(Step(w, approvalId, e), approvalId)
  {
    if w.reloadAcknowledges {
      FailKeeps(w, approvalId);
      var v := Step(w, approvalId, e);
      assert v.sent == w.sent;
      assert v.since == w.since || v.since == w.since + [e.exact];
    } else {
      LoadKeeps(w, approvalId, e.exact, e.all, e.prior, false);
      ReloadEnds(Load(w, e.exact, e.all, e.prior, false), approvalId, e.exact, e.all);
    }
  }

  lemma {:induction false} AcknowledgeKeeps(w: World, approvalId: string, e: Event)
    requires Inv(w, approvalId) && (e.Acknowledged? || e.AcknowledgeFailed?)
    ensures Inv(Step(w, approvalId, e), approvalId)
  {
    hide Inv;
    if w.acknowledging > 0 {
      var v := w.(acknowledging := w.acknowledging - 1);
      Acknowledging(w, approvalId);
      if e.Acknowledged? { LoadKeeps(v, approvalId, e.exact, e.all, e.prior, true); }
      else { FailKeeps(v, approvalId); }
    }
  }

  lemma {:induction false} Acknowledging(w: World, approvalId: string)
    requires Inv(w, approvalId) && w.acknowledging > 0
    ensures Inv(w.(acknowledging := w.acknowledging - 1), approvalId)
  {
  }

  // After a reload, the page is stale or shows the revisions of the session it loaded.
  lemma {:induction false} ReloadEnds(v: World, approvalId: string, exact: Session, all: map<nat, Artifact>)
    requires Inv(v, approvalId) && v.page.busy.Reloading?
    requires v.page.freshness.Stale? || v.page.session.None?
             || (v.page.session == Some(exact) && v.page.revisions == all && ReviewPage.Verified(exact, all))
    ensures Inv(v.(page := ReloadEnded(v.page)), approvalId)
  {
  }

  lemma {:induction false} ReloadFails(w: World, approvalId: string)
    requires Inv(w, approvalId)
    ensures Inv(Step(w, approvalId, ReloadFailed), approvalId)
  {
    FailKeeps(w, approvalId);
    assert Step(w, approvalId, ReloadFailed).sent == w.sent;
  }

  /** Every event but such a reload keeps the invariant. */
  lemma {:induction false} StepKeeps(w: World, approvalId: string, e: Event)
    requires Inv(w, approvalId) && !Unnoticed(w, approvalId, e)
    ensures Inv(Step(w, approvalId, e), approvalId)
  {
    hide Inv, Load, Fail, Reload;
    match e
    case Poll(exact, all, prior) => LoadKeeps(w, approvalId, exact, all, prior, false);
    case PollFailed => FailKeeps(w, approvalId);
    case SendDecision(decision, formValid) => DecisionKeeps(w, approvalId, decision, formValid);
    case SendFeedback(formValid) => FeedbackKeeps(w, approvalId, formValid);
    case Created => SubmissionKeeps(w, approvalId);
    case Result(result) => ResultKeeps(w, approvalId, e);
    case Refused(conflict) => ResultKeeps(w, approvalId, e);
    case Show(view, requested) => DisplayKeeps(w, approvalId, e);
    case TextLoaded(text) => DisplayKeeps(w, approvalId, e);
    case DiffLoaded(diff) => DisplayKeeps(w, approvalId, e);
    case Acknowledge => DisplayKeeps(w, approvalId, e);
    case Acknowledged(exact, all, prior) => AcknowledgeKeeps(w, approvalId, e);
    case AcknowledgeFailed => AcknowledgeKeeps(w, approvalId, e);
    case Reloaded(exact, all, prior) => if w.page.busy.Reloading? { ReloadKeeps(w, approvalId, e); }
    case ReloadFailed => ReloadFails(w, approvalId);
  }

  // ---------------------------------------------------------------- no unaccepted decision

  /** No reload of the run acknowledges, unnoticed, something that differs from an own result. */
  predicate Attentive(w: World, approvalId: string, es: seq<Event>)
    decreases |es|
  {
    es == [] || (!Unnoticed(w, approvalId, es[0]) && Attentive(Step(w, approvalId, es[0]), approvalId, es[1..]))
  }

  /** In every such run: each decision and each feedback set created binds the session accepted last,
      shown by its digest, and no change had been seen since; each submission repeats the binding of its
      set. */
  lemma {:induction false} NoUnacceptedDecision(w: World, approvalId: string, es: seq<Event>)
    requires Inv(w, approvalId) && Attentive(w, approvalId, es)
    ensures Inv(Run(w, approvalId, es), approvalId)
    ensures var sent := Run(w, approvalId, es).sent;
            forall k | 0 <= k < |sent| :: Binds(sent[k]) && Follows(sent, k)
    decreases |es|
  {
    hide Inv, Step, Unnoticed;
    if es != [] {
      StepKeeps(w, approvalId, es[0]);
      NoUnacceptedDecision(Step(w, approvalId, es[0]), approvalId, es[1..]);
    } else {
      AllBind(w, approvalId);
    }
  }

  lemma {:induction false} AllBind(w: World, approvalId: string)
    requires Inv(w, approvalId)
    ensures forall k | 0 <= k < |w.sent| :: Binds(w.sent[k]) && Follows(w.sent, k)
  {
  }

  /** A request on record does not bind what the reviewer accepted. */
  ghost predicate Unaccepted(w: World) { exists k | 0 <= k < |w.sent| :: !Binds(w.sent[k]) }

  /** Exactly: an event makes a request possible that does not bind the accepted session, if and only if
      it is the reload after an own result, with a session that can be decided, and that session or
      another one received since the result differs from the result. */
  lemma {:induction false} UnacceptedExactly(w: World, approvalId: string, e: Event)
    requires Inv(w, approvalId)
    ensures Unnoticed(w, approvalId, e) <==>
            exists es :: Attentive(Step(w, approvalId, e), approvalId, es)
              && Unaccepted(Run(Step(w, approvalId, e), approvalId, es))
  {
    hide Inv, Step, Run, Attentive, Unaccepted;
    var v := Step(w, approvalId, e);
    if Unnoticed(w, approvalId, e) {
      FeedbackAfter(w, approvalId, e);
      assert exists es :: Attentive(v, approvalId, es) && Unaccepted(Run(v, approvalId, es));
    } else {
      StepKeeps(w, approvalId, e);
      forall es | Attentive(v, approvalId, es) ensures !Unaccepted(Run(v, approvalId, es)) {
        NoUnacceptedDecision(v, approvalId, es);
        AllAccepted(Run(v, approvalId, es));
      }
    }
  }

  lemma {:induction false} AllAccepted(w: World)
    requires forall k | 0 <= k < |w.sent| :: Binds(w.sent[k])
    ensures !Unaccepted(w)
  {
  }

  // The page after such a reload: current, idle, and showing what it fetched.
  lemma {:induction false} AfterUnnoticed(w: World, approvalId: string, e: Event)
    requires Unnoticed(w, approvalId, e)
    ensures var v := Step(w, approvalId, e);
            && v.page.session == Some(e.exact) && v.page.revisions == e.all && v.page.freshness.Current?
            && v.page.busy.Idle? && ChangeSeen(v) && v.sent == w.sent
  {
    var v := Step(w, approvalId, e);
    assert v.since == w.since + [e.exact] && v.accepted == w.accepted;
  }

  // The candidate's text is shown and loaded, and feedback goes out.
  lemma {:induction false} FeedbackGoesOut(v: World, approvalId: string, exact: Session)
    requires v.page.session == Some(exact) && exact.id == approvalId && exact.state.AwaitingHuman?
    requires v.page.freshness.Current? && v.page.busy.Idle? && ChangeSeen(v)
    requires ReviewPage.Verified(exact, v.page.revisions)
    ensures var v1 := Step(v, approvalId, Show(CandidateView, None));
            var v2 := Step(v1, approvalId, TextLoaded(Some(Text(exact.candidate.version, exact.candidateDigest))));
            Unaccepted(Step(v2, approvalId, SendFeedback(true)))
  {
    var v1 := Step(v, approvalId, Show(CandidateView, None));
    var v2 := Step(v1, approvalId, TextLoaded(Some(Text(exact.candidate.version, exact.candidateDigest))));
    assert MayRevise(v2.page, approvalId, true) && ChangeSeen(v2);
    assert !Binds(Step(v2, approvalId, SendFeedback(true)).sent[|v.sent|]);
  }

  lemma {:induction false} FeedbackAfter(w: World, approvalId: string, e: Event)
    requires Unnoticed(w, approvalId, e)
    ensures exists es ::
              Attentive(Step(w, approvalId, e), approvalId, es)
              && Unaccepted(Run(Step(w, approvalId, e), approvalId, es))
  {
    AfterUnnoticed(w, approvalId, e);
    hide Step, Unaccepted, ChangeSeen;
    var exact := e.exact;
    var v := Step(w, approvalId, e);
    var load := TextLoaded(Some(Text(exact.candidate.version, exact.candidateDigest)));
    FeedbackGoesOut(v, approvalId, exact);
    ThreeSteps(v, approvalId, Show(CandidateView, None), load, SendFeedback(true));
  }

  lemma {:induction false} ThreeSteps(w: World, approvalId: string, a: Event, b: Event, c: Event)
    requires !a.Reloaded? && !b.Reloaded? && !c.Reloaded?
    ensures Run(w, approvalId, [a, b, c]) == Step(Step(Step(w, approvalId, a), approvalId, b), approvalId, c)
    ensures Attentive(w, approvalId, [a, b, c])
  {
    hide Step;
    var w1 := Step(w, approvalId, a);
    var w2 := Step(w1, approvalId, b);
    var w3 := Step(w2, approvalId, c);
    assert [a, b, c][1..] == [b, c] && [b, c][1..] == [c] && [c][1..] == [];
    assert Run(w3, approvalId, []) == w3 && Attentive(w3, approvalId, []);
    assert Run(w2, approvalId, [c]) == w3 && Attentive(w2, approvalId, [c]);
    assert Run(w1, approvalId, [b, c]) == w3 && Attentive(w1, approvalId, [b, c]);
  }

  /** It can happen: a decision is recorded, and the reload that follows brings a session that differs
      from the recorded one. The page does not say so, and feedback can be sent for it. */
  lemma {:induction false} UnacceptedRequest(first: Session, result: Session, next: Session, all: map<nat, Artifact>,
                                             later: map<nat, Artifact>)
    requires first.state.AwaitingHuman? && Approve in first.allowed && ReviewPage.Verified(first, all)
    requires next.state.AwaitingHuman? && next.id == first.id && ReviewPage.Verified(next, later)
             && Changed(result, next)
    ensures exists es :: Unaccepted(Run(Start(), first.id, es))
  {
    hide Run, Attentive, Unaccepted;
    var id := first.id;
    var load := TextLoaded(Some(Text(first.candidate.version, first.candidateDigest)));
    var w1 := Step(Start(), id, Poll(first, all, None));
    var w2 := Step(w1, id, load);
    var w3 := Step(w2, id, SendDecision(Approve, true));
    var w4 := Step(w3, id, Result(result));
    assert w3.page.busy.Deciding?;
    assert w4.accepted == Some(result) && w4.page.busy.Reloading? && w4.reloadAcknowledges && w4.since == [];
    var reload := Reloaded(next, later, None);
    assert next in w4.since + [next];
    assert Unnoticed(w4, id, reload);
    StartKeeps(first, all, result, load);
    UnacceptedExactly(w4, id, reload);
    var es :| Attentive(Step(w4, id, reload), id, es) && Unaccepted(Run(Step(w4, id, reload), id, es));
    RunFirst(w4, id, reload, es);
    RunFirst(w3, id, Result(result), [reload] + es);
    RunFirst(w2, id, SendDecision(Approve, true), [Result(result)] + ([reload] + es));
    RunFirst(w1, id, load, [SendDecision(Approve, true)] + ([Result(result)] + ([reload] + es)));
    RunFirst(Start(), id, Poll(first, all, None),
             [load] + ([SendDecision(Approve, true)] + ([Result(result)] + ([reload] + es))));
  }

  lemma {:induction false} StartKeeps(first: Session, all: map<nat, Artifact>, result: Session, load: Event)
    requires load.TextLoaded?
    ensures var w2 := Step(Step(Start(), first.id, Poll(first, all, None)), first.id, load);
            Inv(Step(Step(w2, first.id, SendDecision(Approve, true)), first.id, Result(result)), first.id)
  {
    hide Step;
    var id := first.id;
    assert Inv(Start(), id);
    hide Inv;
    StepKeeps(Start(), id, Poll(first, all, None));
    var w1 := Step(Start(), id, Poll(first, all, None));
    StepKeeps(w1, id, load);
    var w2 := Step(w1, id, load);
    StepKeeps(w2, id, SendDecision(Approve, true));
    StepKeeps(Step(w2, id, SendDecision(Approve, true)), id, Result(result));
  }

  lemma {:induction false} RunFirst(w: World, id: string, e: Event, es: seq<Event>)
    ensures Run(w, id, [e] + es) == Run(Step(w, id, e), id, es)
  {
    hide Step;
    assert ([e] + es)[1..] == es;
  }

  /** Exactly which requests can go out after a change has been seen: the second one of a feedback set. */
  lemma {:induction false} SentAfterChange(w: World, approvalId: string, e: Event)
    requires Inv(w, approvalId) && ChangeSeen(w)
    ensures |w.sent| < |Step(w, approvalId, e).sent| <==> e.Created? && w.page.busy.Creating?
  {
    if MayMutate(w.page, approvalId) { AllowedDisplays(w, approvalId); }
  }

  /** It does happen whenever a poll sees a changed session between the two requests: the second one
      still goes out, for the binding of the first. */
  lemma {:induction false} SubmissionAfterChange(w: World, approvalId: string, seen: Session, all: map<nat, Artifact>)
    requires Inv(w, approvalId) && w.page.busy.Creating? && w.accepted.Some? && Changed(w.accepted.value, seen)
             && ReviewPage.Verified(seen, all)
    ensures var u := Step(w, approvalId, Poll(seen, all, None));
            var v := Step(u, approvalId, Created);
            && ChangeSeen(u) && |v.sent| == |w.sent| + 1
            && v.sent[|w.sent|].kind == FeedbackSetSubmitted && v.sent[|w.sent|].changeSeen
            && v.sent[|w.sent|].session == w.page.busy.held
  {
    var u := Step(w, approvalId, Poll(seen, all, None));
    assert seen in u.since;
  }
}
