/** The artifact review page: loading the exact session, noticing changes, and sending decisions. */
module ReviewPage {
  import opened Options

  datatype Candidate = Candidate(artifactId: string, version: nat)

  datatype SessionState = AwaitingHuman | Superseded | Settled(name: string)

  datatype Decision = Approve | Reject

  /** A review session as the server returns it. */
  datatype Session = Session(id: string, revision: nat, resourceVersion: nat, state: SessionState, candidate: Candidate,
                             candidateDigest: string, scopeDigest: string, policyDigest: string, allowed: set<Decision>)

  /** Two sessions differ in what a decision would bind to. */
  predicate Changed(a: Session, b: Session) {
    || a.id != b.id || a.revision != b.revision || a.resourceVersion != b.resourceVersion || a.state != b.state
    || a.candidate != b.candidate || a.candidateDigest != b.candidateDigest
    || a.scopeDigest != b.scopeDigest || a.policyDigest != b.policyDigest
  }

  datatype Freshness = Current | Stale(superseded: bool)

  datatype View = CandidateView | PriorView | InlineView | SplitView

  datatype Artifact = Artifact(artifactId: string, digest: string)

  /** Safe text that has been loaded, and the artifact it was derived from. */
  datatype Text = Text(version: nat, artifactDigest: string)

  datatype Diff = Diff(artifactId: string, from: nat, to: nat, fromDigest: string, toDigest: string)

  /** What a mutation is waiting for; the session it started with stays the one it binds. */
  datatype Busy = Idle | Deciding(held: Session) | Creating(held: Session) | Submitting(held: Session) | Reloading

  datatype State = State(session: Option<Session>, revisions: map<nat, Artifact>, prior: Option<nat>,
                         freshness: Freshness, busy: Busy, view: View, requested: Option<nat>, text: Option<Text>,
                         diff: Option<Diff>)

  const Opened := State(None, map[], None, Current, Idle, CandidateView, None, None, None)

  // ---------------------------------------------------------------- loading

  /** The candidate is in the artifact's history, with the digest the session names. */
  predicate Verified(exact: Session, all: map<nat, Artifact>) {
    && exact.candidate.version in all
    && all[exact.candidate.version] == Artifact(exact.candidate.artifactId, exact.candidateDigest)
  }

  function LoadFailed(s: State): State {
    if s.session.Some? then s.(freshness := Stale(false)) else s
  }

  function Loaded(s: State, exact: Session, all: map<nat, Artifact>, prior: Option<nat>, acknowledge: bool): State {
    if !Verified(exact, all) then LoadFailed(s)
    else
      var freshness :=
        if exact.state.Superseded? then Stale(true)
        else if !acknowledge && s.session.Some? && Changed(s.session.value, exact) then Stale(false)
        else if acknowledge || s.session.None? then Current
        else s.freshness;
      s.(session := Some(exact), revisions := all, prior := prior, freshness := freshness)
  }

  // ---------------------------------------------------------------- what is displayed

  function ShownVersion(s: State): nat
    requires s.session.Some?
  {
    if s.requested.Some? && s.requested.value in s.revisions then s.requested.value
    else s.session.value.candidate.version
  }

  /** The comparison is the one of the prior and the candidate revision, digest by digest. */
  predicate ComparisonReady(s: State)
    requires s.session.Some?
  {
    var to := s.session.value.candidate.version;
    && s.diff.Some? && to in s.revisions && s.prior.Some? && s.prior.value in s.revisions
    && s.diff.value == Diff(s.revisions[to].artifactId, s.prior.value, to, s.revisions[s.prior.value].digest,
                            s.revisions[to].digest)
  }

  predicate ReadingExactCandidate(s: State)
    requires s.session.Some?
  {
    var exact := s.session.value;
    || (s.view.CandidateView? && ShownVersion(s) == exact.candidate.version
        && s.text == Some(Text(exact.candidate.version, exact.candidateDigest)))
    || ((s.view.InlineView? || s.view.SplitView?) && ComparisonReady(s))
  }

  predicate MutationAllowed(s: State)
    requires s.session.Some?
  {
    s.freshness.Current? && ReadingExactCandidate(s) && s.session.value.state.AwaitingHuman? && s.busy.Idle?
  }

  // ---------------------------------------------------------------- sending

  predicate MayMutate(s: State, approvalId: string) {
    s.session.Some? && s.session.value.id == approvalId && MutationAllowed(s)
  }

  /** A decision goes out if the form holds and the session still accepts it. */
  predicate MayDecide(s: State, approvalId: string, decision: Decision, formValid: bool) {
    MayMutate(s, approvalId) && formValid && decision in s.session.value.allowed
  }

  function Decide(s: State, approvalId: string, decision: Decision, formValid: bool): State {
    if MayDecide(s, approvalId, decision, formValid) then s.(busy := Deciding(s.session.value)) else s
  }

  /** The loaded text, if it is that of the shown revision and derived from its artifact. */
  function DisplayedText(s: State): Option<Text>
    requires s.session.Some?
  {
    var shown := ShownVersion(s);
    if s.text.Some? && s.text.value.version == shown && shown in s.revisions
       && s.text.value.artifactDigest == s.revisions[shown].digest
    then s.text else None
  }

  /** Feedback binds to the safe text that is displayed, and that must be the candidate's. */
  predicate MayRevise(s: State, approvalId: string, formValid: bool) {
    && MayMutate(s, approvalId) && formValid
    && DisplayedText(s) == Some(Text(s.session.value.candidate.version, s.session.value.candidateDigest))
  }

  function Revise(s: State, approvalId: string, formValid: bool): State {
    if MayRevise(s, approvalId, formValid) then s.(busy := Creating(s.session.value)) else s
  }

  function FeedbackCreated(s: State): State {
    if s.busy.Creating? then s.(busy := Submitting(s.busy.held)) else s
  }

  /** The server's answer to a decision or to submitted feedback becomes the session. */
  function Recorded(s: State, result: Session): State {
    if s.busy.Deciding? || s.busy.Submitting?
    then s.(session := Some(result), freshness := Current, busy := Reloading) else s
  }

  /** A conflict marks the page stale and reloads it; any other failure just ends the mutation. */
  function MutationFailed(s: State, conflict: bool): State {
    if s.busy.Idle? || s.busy.Reloading? then s
    else if conflict then s.(freshness := Stale(false), busy := Reloading)
    else s.(busy := Idle)
  }

  function ReloadEnded(s: State): State { if s.busy.Reloading? then s.(busy := Idle) else s }

  // ---------------------------------------------------------------- the handlers as they run

  class Page {
    const approvalId: string
    var session: Option<Session>
    var revisions: map<nat, Artifact>
    var prior: Option<nat>
    var freshness: Freshness
    var busy: Busy
    var view: View
    var requested: Option<nat>
    var text: Option<Text>
    var diff: Option<Diff>

    function Snapshot(): State
      reads this
    {
      State(session, revisions, prior, freshness, busy, view, requested, text, diff)
    }

    constructor (approvalId: string)
      ensures Snapshot() == Opened && this.approvalId == approvalId
    {
      this.approvalId := approvalId;
      session, revisions, prior, freshness, busy := None, map[], None, Current, Idle;
      view, requested, text, diff := CandidateView, None, None, None;
    }

    method OnLoaded(exact: Session, all: map<nat, Artifact>, nextPrior: Option<nat>, acknowledge: bool)
      modifies this
      ensures Snapshot() == Loaded(old(Snapshot()), exact, all, nextPrior, acknowledge)
    {
      if exact.candidate.version !in all
         || all[exact.candidate.version] != Artifact(exact.candidate.artifactId, exact.candidateDigest) {
        OnLoadFailed();
        return;
      }
      if exact.state.Superseded? {
        freshness := Stale(true);
      } else if !acknowledge && session.Some? && Changed(session.value, exact) {
        freshness := Stale(false);
      } else if acknowledge || session.None? {
        freshness := Current;
      }
      session, revisions, prior := Some(exact), all, nextPrior;
    }

    method OnLoadFailed()
      modifies this
      ensures Snapshot() == LoadFailed(old(Snapshot()))
    {
      if session.Some? { freshness := Stale(false); }
    }

    /** Approves or rejects: the session that the request binds, if one is sent. */
    method SendDecision(decision: Decision, formValid: bool) returns (sent: Option<Session>)
      modifies this
      ensures Snapshot() == Decide(old(Snapshot()), approvalId, decision, formValid)
      ensures sent == if MayDecide(old(Snapshot()), approvalId, decision, formValid) then old(session) else None
    {
      if session.None? || session.value.id != approvalId || !MutationAllowed(Snapshot()) { return None; }
      var exact := session.value;
      busy := Deciding(exact);
      if exact.state.AwaitingHuman? && decision in exact.allowed && formValid { return Some(exact); }
      busy := Idle;
      sent := None;
    }

    /** Asks for revisions: creating the feedback set is the first of two requests. */
    method SendFeedback(formValid: bool) returns (sent: Option<Session>)
      modifies this
      ensures Snapshot() == Revise(old(Snapshot()), approvalId, formValid)
      ensures sent == if MayRevise(old(Snapshot()), approvalId, formValid) then old(session) else None
    {
      if session.None? || session.value.id != approvalId || !MutationAllowed(Snapshot()) { return None; }
      var exact := session.value;
      busy := Creating(exact);
      var displayed := DisplayedText(Snapshot());
      if formValid && displayed.Some? && displayed.value.version == exact.candidate.version
         && displayed.value.artifactDigest == exact.candidateDigest {
        return Some(exact);
      }
      busy := Idle;
      sent := None;
    }

    /** The feedback set exists: it is submitted for the session it was created for. */
    method OnFeedbackCreated() returns (sent: Option<Session>)
      modifies this
      ensures Snapshot() == FeedbackCreated(old(Snapshot()))
      ensures sent == if old(busy).Creating? then Some(old(busy).held) else None
    {
      if !busy.Creating? { return None; }
      sent := Some(busy.held);
      busy := Submitting(busy.held);
    }

    method OnRecorded(result: Session)
      modifies this
      ensures Snapshot() == Recorded(old(Snapshot()), result)
    {
      if !busy.Deciding? && !busy.Submitting? { return; }
      session := Some(result);
      freshness := Current;
      busy := Reloading;
    }

    method OnReloadEnded()
      modifies this
      ensures Snapshot() == ReloadEnded(old(Snapshot()))
    {
      if busy.Reloading? { busy := Idle; }
    }

    /** Choosing a view or a revision, and what has been loaded for it. */
    method OnDisplay(view: View, requested: Option<nat>, text: Option<Text>, diff: Option<Diff>)
      modifies this
      ensures Snapshot() == old(Snapshot()).(view := view, requested := requested, text := text, diff := diff)
    {
      this.view, this.requested, this.text, this.diff := view, requested, text, diff;
    }

    method OnMutationFailed(conflict: bool)
      modifies this
      ensures Snapshot() == MutationFailed(old(Snapshot()), conflict)
    {
      if busy.Idle? || busy.Reloading? { return; }
      if conflict {
        freshness := Stale(false);
        busy := Reloading;
      } else {
        busy := Idle;
      }
    }
  }
}
