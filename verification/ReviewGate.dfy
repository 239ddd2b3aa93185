/** Exactly which requests the review page sends, and that a reviewer who may decide gets through. */
module ReviewGate {
  import opened Options
  import opened ReviewPage
  import opened ReviewProtocol

  // ---------------------------------------------------------------- what is sent

  /** The page shows the candidate itself, or its comparison with the prior revision, digest by digest. */
  predicate CandidateShown(s: State, x: Session) {
    var version := x.candidate.version;
    if s.view.CandidateView? then
      && (s.requested.None? || s.requested.value !in s.revisions || s.requested.value == version)
      && s.text.Some? && s.text.value.version == version && s.text.value.artifactDigest == x.candidateDigest
    else
      && !s.view.PriorView? && s.diff.Some? && s.prior.Some?
      && version in s.revisions && s.prior.value in s.revisions
      && s.diff.value.artifactId == s.revisions[version].artifactId
      && s.diff.value.from == s.prior.value && s.diff.value.fromDigest == s.revisions[s.prior.value].digest
      && s.diff.value.to == version && s.diff.value.toDigest == s.revisions[version].digest
  }

  /** The reviewed session is the page's, nothing has changed, nothing is under way, and the exact
      candidate is displayed. */
  predicate Ready(s: State, approvalId: string) {
    && s.session.Some? && s.session.value.id == approvalId && s.session.value.state == AwaitingHuman
    && s.freshness == Current && s.busy == Idle && CandidateShown(s, s.session.value)
  }

  lemma {:induction false} ReadyExactly(s: State, approvalId: string)
    ensures MayMutate(s, approvalId) <==> Ready(s, approvalId)
  {
  }

  /** A decision goes out exactly if the page is ready, the form holds, and the session allows the decision.
      It binds that session, and the page waits for the answer. */
  lemma {:induction false} DecisionSentExactly(w: World, approvalId: string, decision: Decision, formValid: bool)
    ensures var v, s := Step(w, approvalId, ReviewProtocol.SendDecision(decision, formValid)), w.page;
            v == if Ready(s, approvalId) && formValid && decision in s.session.value.allowed
                 then w.(page := s.(busy := Deciding(s.session.value)),
                         sent := w.sent + [Sent(DecisionSent, Some(decision), s.session.value, w.accepted,
                                                ChangeSeen(w), Displayed(s))])
                 else w
  {
    hide Ready, MayMutate;
    ReadyExactly(w.page, approvalId);
  }

  /** Feedback goes out exactly if the page is ready, the form holds, and the text that is displayed is the
      candidate's: it is loaded for the shown revision, which is the candidate. */
  lemma {:induction false} FeedbackSentExactly(w: World, approvalId: string, formValid: bool)
    ensures var v, s := Step(w, approvalId, ReviewProtocol.SendFeedback(formValid)), w.page;
            v == if && Ready(s, approvalId) && formValid
                    && var x, version := s.session.value, s.session.value.candidate.version;
                       && (s.requested.None? || s.requested.value !in s.revisions || s.requested.value == version)
                       && version in s.revisions && s.revisions[version].digest == x.candidateDigest
                       && s.text == Some(Text(version, x.candidateDigest))
                 then w.(page := s.(busy := Creating(s.session.value)),
                         sent := w.sent + [Sent(FeedbackSetCreated, None, s.session.value, w.accepted,
                                                ChangeSeen(w), Displayed(s))])
                 else w
  {
    hide Ready, MayMutate;
    ReadyExactly(w.page, approvalId);
  }

  /** The second request of a feedback set goes out exactly when the first has been answered. */
  lemma {:induction false} SubmissionSentExactly(w: World, approvalId: string)
    ensures var v, s := Step(w, approvalId, Created), w.page;
            v == if s.busy.Creating?
                 then w.(page := s.(busy := Submitting(s.busy.held)),
                         sent := w.sent + [Sent(FeedbackSetSubmitted, None, s.busy.held, w.accepted,
                                                ChangeSeen(w), Displayed(s))])
                 else w
  {
  }

  /** A request carries a decision exactly if it is one, and the session that it binds is the one under
      review, awaits a human, and allows the decision. */
  predicate Permitted(x: Sent, approvalId: string) {
    && (x.kind == DecisionSent <==> x.decision.Some?)
    && (x.kind != FeedbackSetSubmitted ==> x.session.id == approvalId && x.session.state == AwaitingHuman)
    && (x.decision.Some? ==> x.decision.value in x.session.allowed)
  }

  lemma {:induction false} PermittedStep(w: World, approvalId: string, e: Event)
    requires forall x <- w.sent :: Permitted(x, approvalId)
    ensures forall x <- Step(w, approvalId, e).sent :: Permitted(x, approvalId)
  {
    hide Permitted, Ready, ChangeSeen, Displayed;
    var v := Step(w, approvalId, e);
    match e {
      case SendDecision(decision, formValid) => DecisionSentExactly(w, approvalId, decision, formValid);
      case SendFeedback(formValid) => FeedbackSentExactly(w, approvalId, formValid);
      case Created => SubmissionSentExactly(w, approvalId);
      case _ => NothingSent(w, approvalId, e);
    }
    hide Step;
    forall x <- v.sent ensures Permitted(x, approvalId) {
      if x !in w.sent {
        assert x == v.sent[|w.sent|];
        RequestPermitted(w, approvalId, x, e);
      }
    }
  }

  lemma {:induction false} NothingSent(w: World, approvalId: string, e: Event)
    requires !e.SendDecision? && !e.SendFeedback? && !e.Created?
    ensures Step(w, approvalId, e).sent == w.sent
  {
    hide Loaded, LoadFailed, ChangeSeen, Displayed, ReviewPage.Verified;
  }

  // A request as it goes out is permitted.
  lemma {:induction false} RequestPermitted(w: World, approvalId: string, x: Sent, e: Event)
    requires x.kind == DecisionSent || x.kind == FeedbackSetCreated ==>
               Ready(w.page, approvalId) && w.page.session == Some(x.session)
    requires x.kind == DecisionSent ==> x.decision.Some? && x.decision.value in x.session.allowed
    requires x.kind != DecisionSent ==> x.decision.None?
    ensures Permitted(x, approvalId)
  {
  }

  /** In every run, whatever is received when: each decision that went out was allowed by the session that
      it binds. */
  lemma {:induction false} DecisionsPermitted(w: World, approvalId: string, es: seq<Event>)
    requires forall x <- w.sent :: Permitted(x, approvalId)
    ensures forall x <- Run(w, approvalId, es).sent :: Permitted(x, approvalId)
    decreases |es|
  {
    hide Step, Permitted;
    if es != [] {
      PermittedStep(w, approvalId, es[0]);
      DecisionsPermitted(Step(w, approvalId, es[0]), approvalId, es[1..]);
    }
  }

  // ---------------------------------------------------------------- what is current

  /** A session counts as changed exactly if it differs in more than the decisions it allows. */
  lemma {:induction false} ChangedExactly(a: Session, b: Session)
    ensures Changed(a, b) <==> !SameBut(a, b)
  {
  }

  /** The candidate is in the artifact's history with its digest. */
  predicate InHistory(x: Session, all: map<nat, Artifact>) {
    && x.candidate.version in all && all[x.candidate.version].artifactId == x.candidate.artifactId
    && all[x.candidate.version].digest == x.candidateDigest
  }

  /** A poll leaves the page current exactly if it brings the first session or the one that is shown, not
      superseded and with its candidate in the history. */
  lemma {:induction false} PollKeepsCurrent(w: World, approvalId: string, x: Session, all: map<nat, Artifact>,
                                            prior: Option<nat>)
    ensures var v, s := Step(w, approvalId, Poll(x, all, prior)), w.page;
            var stays := !x.state.Superseded?
                         && (s.session.None? || (s.freshness == Current && SameBut(s.session.value, x)));
            if InHistory(x, all)
            then && v.page.session == Some(x) && v.page.revisions == all && v.page.prior == prior
                 && (v.page.freshness == Current <==> stays)
                 && (v.page.freshness == Stale(true) <==>
                       x.state.Superseded? || (s.freshness == Stale(true) && s.session.Some?
                                               && SameBut(s.session.value, x)))
                 && v.page.busy == s.busy && v.page.text == s.text && v.page.diff == s.diff
            else v.page == if s.session.Some? then s.(freshness := Stale(false)) else s
  {
    hide Changed, SameBut;
    if w.page.session.Some? { ChangedExactly(w.page.session.value, x); }
  }

  /** The reviewer who is told of a change can acknowledge it, and then decide on what has been fetched. */
  lemma {:induction false} AcknowledgedIsCurrent(w: World, approvalId: string, x: Session, all: map<nat, Artifact>,
                                                 prior: Option<nat>)
    requires w.page.freshness == Stale(false) && InHistory(x, all) && !x.state.Superseded?
    ensures var v := Step(Step(w, approvalId, Acknowledge), approvalId, Acknowledged(x, all, prior));
            && v.page == w.page.(session := Some(x), revisions := all, prior := prior, freshness := Current)
            && v.accepted == Some(x) && v.since == [] && !v.failures
  {
  }

  // ---------------------------------------------------------------- what follows a request

  /** After a failure other than a conflict the page is as it was, so that the request can be repeated. A
      conflict makes it stale and loads it again. */
  lemma {:induction false} AfterRefusal(w: World, approvalId: string, e: Event, conflict: bool)
    requires e.SendDecision? || e.SendFeedback?
    requires |w.sent| < |Step(w, approvalId, e).sent|
    ensures var v := Step(Step(w, approvalId, e), approvalId, Refused(conflict));
            v.page == if conflict then w.page.(freshness := Stale(false), busy := Reloading) else w.page
  {
    hide ReadingExactCandidate, DisplayedText, ChangeSeen, Displayed;
  }

  /** An answered request makes the answer the session, and the reload after it ends the mutation. */
  lemma {:induction false} AfterResult(w: World, approvalId: string, result: Session, x: Session,
                                       all: map<nat, Artifact>, prior: Option<nat>)
    requires (w.page.busy.Deciding? || w.page.busy.Submitting?) && InHistory(x, all)
    ensures var u := Step(w, approvalId, Result(result));
            var v := Step(u, approvalId, Reloaded(x, all, prior));
            && u.page == w.page.(session := Some(result), freshness := Current, busy := Reloading)
            && v.page == w.page.(session := Some(x), revisions := all, prior := prior, busy := Idle,
                                 freshness := if x.state.Superseded? then Stale(true) else Current)
            && u.accepted == v.accepted == Some(result) && v.sent == w.sent
  {
  }

  // ---------------------------------------------------------------- every event

  /** An event that brings a session: a poll, an acknowledgement that was asked for, or the reload after a
      mutation. */
  predicate Brings(w: World, e: Event) {
    e.Poll? || (e.Acknowledged? && w.acknowledging > 0) || (e.Reloaded? && w.page.busy.Reloading?)
  }

  /** A load that fails, or brings a session whose candidate is not in the history. */
  predicate LoadFails(w: World, e: Event) {
    || e.PollFailed? || (e.AcknowledgeFailed? && w.acknowledging > 0)
    || (e.ReloadFailed? && w.page.busy.Reloading?) || (Brings(w, e) && !InHistory(e.exact, e.all))
  }

  /** A decision or feedback is under way, and no reload. */
  predicate Mutating(s: State) { s.busy.Deciding? || s.busy.Creating? || s.busy.Submitting? }

  /** The mutation that is under way. */
  lemma {:induction false} BusyAfter(w: World, approvalId: string, e: Event)
    ensures var v, b := Step(w, approvalId, e), w.page.busy;
            v.page.busy ==
            match e
            case SendDecision(_, _) =>
              if |w.sent| < |v.sent| && w.page.session.Some? then Deciding(w.page.session.value) else b
            case SendFeedback(_) =>
              if |w.sent| < |v.sent| && w.page.session.Some? then Creating(w.page.session.value) else b
            case Created => if b.Creating? then Submitting(b.held) else b
            case Result(_) => if b.Deciding? || b.Submitting? then Reloading else b
            case Refused(conflict) => if !Mutating(w.page) then b else if conflict then Reloading else Idle
            case Reloaded(_, _, _) => if b.Reloading? then Idle else b
            case ReloadFailed => if b.Reloading? then Idle else b
            case _ => b
  {
    hide ReadingExactCandidate, DisplayedText, ChangeSeen, Displayed, ReviewPage.Verified, Changed;
  }

  /** Whether the page is current. What an acknowledgement or the reload after an own result brings counts as
      seen by the reviewer. */
  lemma {:induction false} FreshnessAfter(w: World, approvalId: string, e: Event)
    ensures var s := w.page;
            Step(w, approvalId, e).page.freshness ==
            if LoadFails(w, e) then if s.session.Some? then Stale(false) else s.freshness
            else if Brings(w, e) then
              if e.exact.state.Superseded? then Stale(true)
              else if s.session.None? || e.Acknowledged? || (e.Reloaded? && w.reloadAcknowledges) then Current
              else if SameBut(s.session.value, e.exact) then s.freshness else Stale(false)
            else if e.Result? && (s.busy.Deciding? || s.busy.Submitting?) then Current
            else if e.Refused? && Mutating(s) && e.conflict then Stale(false)
            else s.freshness
  {
    hide Changed, SameBut, ChangeSeen, Displayed, ReadingExactCandidate, DisplayedText;
    if Brings(w, e) && w.page.session.Some? { ChangedExactly(w.page.session.value, e.exact); }
  }

  /** The record of what the reviewer has accepted, and of what has come since: the first session, one that
      was acknowledged, and an own result are accepted unless superseded; failures and conflicts count as
      changes, until something is accepted or fetched after an own result. */
  lemma {:induction false} RecordAfter(w: World, approvalId: string, e: Event)
    ensures var v := Step(w, approvalId, e);
            var loads := Brings(w, e) && !LoadFails(w, e);
            var own := e.Reloaded? && w.reloadAcknowledges;
            if loads && !e.exact.state.Superseded? && !own && (w.page.session.None? || e.Acknowledged?)
            then v.accepted == Some(e.exact) && v.since == [] && !v.failures
            else if e.Result? && (w.page.busy.Deciding? || w.page.busy.Submitting?)
            then v.accepted == Some(e.result) && v.since == [] && !v.failures
            else
              && v.accepted == w.accepted && v.since == w.since + (if loads then [e.exact] else [])
              && (v.failures <==>
                    || LoadFails(w, e) || (e.Refused? && Mutating(w.page) && e.conflict)
                    || (w.failures && !(loads && own && !e.exact.state.Superseded?)))
  {
    hide Changed, ChangeSeen, Displayed, ReadingExactCandidate, DisplayedText;
  }

  /** Which reloads acknowledge: those after an own result. */
  lemma {:induction false} ReloadKind(w: World, approvalId: string, e: Event)
    ensures var v, b := Step(w, approvalId, e), w.page.busy;
            && (v.page.busy.Reloading? && !b.Reloading? ==> (v.reloadAcknowledges <==> e.Result?))
            && (v.page.busy.Reloading? && b.Reloading? ==> v.reloadAcknowledges == w.reloadAcknowledges)
            && v.acknowledging == w.acknowledging
               + (if e.Acknowledge? && w.page.freshness == Stale(false) then 1 else 0)
               - (if (e.Acknowledged? || e.AcknowledgeFailed?) && w.acknowledging > 0 then 1 else 0)
  {
    hide Changed, ChangeSeen, Displayed, ReadingExactCandidate, DisplayedText, ReviewPage.Verified;
  }
}
