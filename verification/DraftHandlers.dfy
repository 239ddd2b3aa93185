/** What each event does to the user's work, and which answers are still heard: the document, the layout,
    the state of saving, and the two dialogs, event by event. */
module DraftHandlers {
  import opened Options
  import opened DraftEditor
  import opened DraftProtocol
  import opened DraftSafety

  /** Nothing that is under way, and no conflict, keeps the user from changing the workflow. */
  predicate Editable(s: State) { !s.persistence.Conflict? && !s.persistence.Saving? && !s.publish.Publishing? }

  /** A definition has come that a handler still wants: pinning needs the same draft without an edit since,
      an addition the very document that it started from. */
  predicate Wanted(w: World, k: nat) {
    && k < |w.waits| && w.waits[k].due
    && match w.waits[k].origin
       case Subworkflow =>
         && w.editor.draft.id == w.waits[k].render.draft.id
         && w.editor.generation == w.waits[k].render.generation
       case Addition => w.editor.assignments == w.waits[k].render.assignments
       case Definition => true
  }

  // ---------------------------------------------------------------- the user's work

  /** The document changes by an edit while the workflow is editable, by a definition that is still wanted if
      it was editable when the wait began, by taking the other side of a conflict, and by a draft that the
      chat has saved; by nothing else. */
  function DocumentAfter(w: World, e: Event): Document {
    if (e.Edit? || e.Rename? || e.Place?) && Editable(w.editor) then e.next
    else if e.Arrived? && Wanted(w, e.wait) && Editable(w.waits[e.wait].render) then e.next
    else if e.TakeRemote? && w.editor.persistence.Conflict? then w.editor.persistence.remote.document
    else if e.ChatSaved? && e.revision < |w.history| then w.history[e.revision].document
    else w.editor.document
  }

  /** The layout moves with the document, by itself while the workflow is editable, and with an added node
      even when it is not. */
  function LayoutAfter(w: World, e: Event): Layout {
    if (e.EditLayout? || e.Rename?) && Editable(w.editor) then e.layout
    else if e.Place? then e.layout
    else if e.Arrived? && Wanted(w, e.wait) && e.moved.Some? then e.moved.value
    else if e.TakeRemote? && w.editor.persistence.Conflict? then w.editor.persistence.remote.layout
    else if e.ChatSaved? && e.revision < |w.history| then w.history[e.revision].layout
    else w.editor.layout
  }

  /** The draft is the server's: it changes by the answer to the latest save, by taking the other side, and
      by a draft that the chat has saved. */
  function DraftAfter(w: World, e: Event): Draft {
    if e.Saved? && Heard(w, e.call) && MayAnswer(w, e.call, e.answer) then w.history[e.answer]
    else if e.TakeRemote? && w.editor.persistence.Conflict? then w.editor.persistence.remote
    else if e.ChatSaved? && e.revision < |w.history| then w.history[e.revision]
    else w.editor.draft
  }

  // ---------------------------------------------------------------- saving

  /** The request is the latest save and its response is due. */
  predicate Heard(w: World, k: nat) { k < |w.saves| && w.saves[k].due && w.saves[k].token == w.editor.saveToken }

  /** The other side of a conflict: the revision that a reload brought, if it did. */
  function OtherSide(w: World, seen: Option<nat>): Option<Draft> {
    match seen case Some(r) => if r < |w.history| then Some(w.history[r]) else None case None => None
  }

  /** The states of saving, and every way from one to another. */
  function PersistenceAfter(w: World, e: Event): Persistence {
    var p := w.editor.persistence;
    match e
    case Edit(_) => if Editable(w.editor) then Dirty(p.revision) else p
    case Rename(_, _) => if Editable(w.editor) then Dirty(p.revision) else p
    case Place(_, _) => if Editable(w.editor) then Dirty(p.revision) else p
    case EditLayout(_) => if Editable(w.editor) then Dirty(p.revision) else p
    case Arrived(k, _, _) =>
      if Wanted(w, k) && Editable(w.waits[k].render) then Dirty(w.waits[k].render.persistence.revision) else p
    case Autosave => if p.Dirty? then Saving(p.revision) else p
    case Saved(k, r) => if Heard(w, k) && MayAnswer(w, k, r) then Clean(r) else p
    case SaveConflict(k, seen) =>
      if !Heard(w, k) || !w.saves[k].outcome.Refused? then p
      else if OtherSide(w, seen).Some? then Conflict(w.saves[k].base, OtherSide(w, seen).value)
      else Failed(w.saves[k].base)
    case SaveLost(k, offline) =>
      if !Heard(w, k) then p else if offline then Offline(w.saves[k].base) else Failed(w.saves[k].base)
    case Online => if p.Offline? || p.Failed? then Dirty(p.revision) else p
    case TakeRemote => if p.Conflict? then Clean(p.remote.revision) else p
    case Keep => if p.Conflict? then Dirty(p.remote.revision) else p
    case PublishConflicted(k, seen) =>
      if k < |w.publishes| && Current(w, w.publishes[k]) && OtherSide(w, seen).Some?
      then Conflict(w.publishes[k].request.revision, OtherSide(w, seen).value) else p
    case ChatSaved(r) => if r < |w.history| then Clean(r) else p
    case ChatConflicted(r) => if r < |w.history| then Conflict(w.editor.draft.revision, w.history[r]) else p
    case _ => p
  }

  // ---------------------------------------------------------------- the dialogs

  /** The draft that a publish request or a validation is about. */
  predicate About(s: State, draftId: string, digest: Digest) {
    s.draft.id == draftId && DigestOf(s.draft.document) == digest
  }

  /** What a report means: findings make the draft invalid, and a valid one has a canonical digest. */
  function Meaning(e: Evidence, report: Report): Validation {
    if report.findings != 0 then Invalid(e)
    else match report.digest case Some(d) => Valid(e, d) case None => ValidationFailed(e)
  }

  /** What is shown of the validation. A change of the document forgets it. */
  function ValidationAfter(w: World, e: Event): Validation {
    var v, s := w.editor.validation, w.editor;
    if IsEdit(w, e) then NotRun
    else match e
      case Validate =>
        if s.persistence.Clean?
        then Checking(Evidence(s.draft.id, s.draft.revision, DigestOf(s.draft.document))) else v
      case Reported(k, report) =>
        if k >= |w.validates| || w.validates[k].token != s.validationToken
           || w.validates[k].evidence.draftId != s.draft.id then v
        else
          var x := w.validates[k].evidence;
          if report.draftId == x.draftId && report.revision == x.revision && report.documentDigest == x.documentDigest
          then Meaning(x, report) else ValidationFailed(x)
      case ReportLost(k) =>
        if k < |w.validates| && w.validates[k].token == s.validationToken
        then ValidationFailed(w.validates[k].evidence) else v
      case ChatReported(report) =>
        if About(s, report.draftId, report.documentDigest) && report.revision == s.draft.revision
        then Meaning(Evidence(s.draft.id, s.draft.revision, DigestOf(s.draft.document)), report) else v
      case ChatConflicted(r) => if r < |w.history| then NotRun else v
      case _ => v
  }

  /** What is shown of publishing, apart from sending a request and its result. */
  function DialogAfter(w: World, e: Event): Publish {
    var p, s := w.editor.publish, w.editor;
    if IsEdit(w, e) then Closed
    else match e
      case Open(version) =>
        if s.persistence.Clean? && s.validation.Valid?
           && About(s, s.validation.evidence.draftId, s.validation.evidence.documentDigest)
        then Confirm(Request(s.draft.id, s.draft.revision, DigestOf(s.draft.document), s.validation.semanticDigest,
                             version))
        else p
      case Version(version) =>
        (match p
         case Confirm(r) => Confirm(r.(version := version))
         case PublishConflict(r) => PublishConflict(r.(version := version))
         case PublishInvalid(r) => PublishInvalid(r.(version := version))
         case PublishError(r) => PublishError(r.(version := version))
         case _ => p)
      case Cancel => if p.Publishing? then p else Closed
      case PublishConflicted(k, _) =>
        if k < |w.publishes| && Current(w, w.publishes[k]) then PublishConflict(w.publishes[k].request) else p
      case PublishRejected(k, invalid) =>
        if k >= |w.publishes| || !Current(w, w.publishes[k]) then p
        else if invalid then PublishInvalid(w.publishes[k].request)
        else PublishError(w.publishes[k].request)
      case ChatConflicted(r) => if r < |w.history| then Closed else p
      case _ => p
  }

  // ---------------------------------------------------------------- event by event

  predicate IsAfter(w: World, e: Event, s: State) {
    && s.document == DocumentAfter(w, e) && s.layout == LayoutAfter(w, e) && s.draft == DraftAfter(w, e)
    && s.persistence == PersistenceAfter(w, e) && s.validation == ValidationAfter(w, e)
    && (!e.PublishDraft? && !e.PublishDone? ==> s.publish == DialogAfter(w, e))
  }

  lemma {:induction false} LocalAfter(w: World, e: Event)
    requires Known(w) && IsLocal(e)
    ensures IsAfter(w, e, LocalStep(w.editor, e))
  {
  }

  lemma {:induction false} SavedAfter(w: World, e: Event)
    requires Known(w) && e.Saved?
    ensures IsAfter(w, e, SavingStep(w, e).editor)
  {
  }

  lemma {:induction false} NotSavedAfter(w: World, e: Event)
    requires Known(w) && (e.SaveConflict? || e.SaveLost?)
    ensures IsAfter(w, e, SavingStep(w, e).editor)
  {
  }

  lemma {:induction false} SavingAfter(w: World, e: Event)
    requires Known(w) && (e.Autosave? || e.ForeignWrite? || e.Serve?)
    ensures IsAfter(w, e, SavingStep(w, e).editor)
  {
  }

  lemma {:induction false} PublishingAfter(w: World, e: Event)
    requires Known(w) && IsPublishing(e)
    ensures IsAfter(w, e, PublishingStep(w, e).editor)
  {
    hide MayPublish, Answers;
  }

  lemma {:induction false} ChatAfter(w: World, e: Event)
    requires Known(w) && (e.ChatSaved? || e.ChatReported? || e.ChatConflicted?)
    ensures IsAfter(w, e, OtherStep(w, e).editor)
  {
  }

  lemma {:induction false} OtherAfter(w: World, e: Event)
    requires Known(w) && !IsLocal(e) && !IsSaving(e) && !IsPublishing(e)
    requires !e.ChatSaved? && !e.ChatReported? && !e.ChatConflicted?
    ensures IsAfter(w, e, OtherStep(w, e).editor)
  {
  }

  // What the tables need of the invariant.
  predicate Known(w: World) {
    && w.history != [] && (forall r | 0 <= r < |w.history| :: w.history[r].revision == r)
    && (forall r | 0 <= r < |w.history| :: w.history[r].id == w.editor.draft.id)
    && (w.editor.persistence.Clean? ==> w.editor.draft.revision == w.editor.persistence.revision)
  }

  /** After any event the document, the layout, the draft, the state of saving, the validation and the dialog
      are what the tables say. */
  lemma {:induction false} EventAfter(w: World, e: Event)
    requires Core(w)
    ensures w.history != []
    ensures var s := Step(w, e).editor;
            && s.document == DocumentAfter(w, e) && s.layout == LayoutAfter(w, e) && s.draft == DraftAfter(w, e)
            && s.persistence == PersistenceAfter(w, e) && s.validation == ValidationAfter(w, e)
            && (!e.PublishDraft? && !e.PublishDone? ==> s.publish == DialogAfter(w, e))
  {
    CoreParts(w);
    assert Known(w);
    hide Core, LocalStep, SavingStep, PublishingStep, OtherStep, DocumentAfter, LayoutAfter, DraftAfter,
         PersistenceAfter, ValidationAfter, DialogAfter, Known;
    if IsLocal(e) {
      LocalAfter(w, e);
    } else if e.Saved? {
      SavedAfter(w, e);
    } else if e.SaveConflict? || e.SaveLost? {
      NotSavedAfter(w, e);
    } else if IsSaving(e) {
      SavingAfter(w, e);
    } else if IsPublishing(e) {
      PublishingAfter(w, e);
    } else if e.ChatSaved? || e.ChatReported? || e.ChatConflicted? {
      ChatAfter(w, e);
    } else {
      OtherAfter(w, e);
    }
  }

  // ---------------------------------------------------------------- answers that are no longer heard

  /** No request has a token that is yet to be given, and a handler that waits knows a document that was
      assigned no later than the current one. */
  ghost predicate Tokens(w: World) {
    && (forall k | 0 <= k < |w.validates| :: w.validates[k].token <= w.editor.validationToken)
    && (forall k | 0 <= k < |w.publishes| :: w.publishes[k].token <= w.editor.publishToken)
    && (forall k | 0 <= k < |w.saves| :: w.saves[k].token <= w.editor.saveToken)
    && (forall k | 0 <= k < |w.waits| :: KnowsDocument(w.waits[k].render, w.editor))
  }

  predicate KnowsDocument(render: State, s: State) {
    && render.assignments <= s.assignments
    && (render.assignments == s.assignments ==> render.document == s.document)
  }

  /** Requests and waits are only added, tokens only grow, and the document changes by an assignment. */
  predicate Grows(w: World, v: World) {
    && w.validates <= v.validates && w.publishes <= v.publishes
    && |w.saves| <= |v.saves| && (forall k | 0 <= k < |w.saves| :: v.saves[k].token == w.saves[k].token)
    && w.editor.validationToken <= v.editor.validationToken && w.editor.publishToken <= v.editor.publishToken
    && w.editor.saveToken <= v.editor.saveToken && KnowsDocument(w.editor, v.editor)
  }

  lemma {:induction false} StepGrows(w: World, e: Event)
    requires w.history != []
    ensures Grows(w, Step(w, e))
  {
    hide MayPublish, EvidenceOf, Matches, Verdict, Grows;
    if IsLocal(e) {
      LocalGrows(w, e);
    } else if IsSaving(e) {
      SavingGrows(w, e);
    } else if IsPublishing(e) {
      PublishingGrows(w, e);
    } else {
      OtherGrows(w, e);
    }
  }

  lemma {:induction false} LocalGrows(w: World, e: Event)
    requires IsLocal(e)
    ensures Grows(w, w.(editor := LocalStep(w.editor, e)))
  {
  }

  lemma {:induction false} SavingGrows(w: World, e: Event)
    requires w.history != [] && IsSaving(e)
    ensures Grows(w, SavingStep(w, e))
  {
  }

  lemma {:induction false} PublishingGrows(w: World, e: Event)
    requires w.history != [] && IsPublishing(e)
    ensures Grows(w, PublishingStep(w, e))
  {
    hide MayPublish, EvidenceOf, Matches, Answers;
  }

  lemma {:induction false} OtherGrows(w: World, e: Event)
    requires w.history != [] && !IsLocal(e) && !IsSaving(e) && !IsPublishing(e)
    ensures Grows(w, OtherStep(w, e))
  {
    hide EvidenceOf, Matches, Verdict;
  }

  lemma {:induction false} StepTokens(w: World, e: Event)
    requires w.history != [] && Tokens(w)
    ensures Tokens(Step(w, e))
  {
    StepGrows(w, e);
    NewTokens(w, e);
    hide Step;
    var v := Step(w, e);
    forall k | 0 <= k < |v.waits| ensures KnowsDocument(v.waits[k].render, v.editor) {
      if k < |w.waits| { assert KnowsDocument(w.waits[k].render, w.editor); }
    }
  }

  lemma {:induction false} NewTokens(w: World, e: Event)
    requires w.history != []
    ensures var v := Step(w, e);
            && (forall k | |w.validates| <= k < |v.validates| :: v.validates[k].token <= v.editor.validationToken)
            && (forall k | |w.publishes| <= k < |v.publishes| :: v.publishes[k].token <= v.editor.publishToken)
            && (forall k | |w.saves| <= k < |v.saves| :: v.saves[k].token <= v.editor.saveToken)
            && |w.waits| <= |v.waits| && (forall k | 0 <= k < |w.waits| :: v.waits[k].render == w.waits[k].render)
            && (forall k | |w.waits| <= k < |v.waits| :: v.waits[k].render == v.editor)
  {
    hide MayPublish, EvidenceOf, Matches, Verdict;
  }

  /** The answer to a validation or publish request, in any form. */
  predicate IsAnswer(e: Event) {
    e.Reported? || e.ReportLost? || e.PublishDone? || e.PublishConflicted? || e.PublishRejected?
  }

  predicate IsSaveAnswer(e: Event) { e.Saved? || e.SaveConflict? || e.SaveLost? }

  function RequestOf(e: Event): nat
    requires IsAnswer(e) || IsSaveAnswer(e)
  {
    e.call
  }

  /** An answer to a request with an old token leaves the editor as it is. */
  lemma {:induction false} OldAnswer(v: World, e: Event)
    requires v.history != [] && (IsAnswer(e) || IsSaveAnswer(e))
    requires (e.Reported? || e.ReportLost?) && RequestOf(e) < |v.validates| ==>
               v.validates[RequestOf(e)].token < v.editor.validationToken
    requires IsAnswer(e) && !e.Reported? && !e.ReportLost? && RequestOf(e) < |v.publishes| ==>
               v.publishes[RequestOf(e)].token < v.editor.publishToken
    requires IsSaveAnswer(e) && RequestOf(e) < |v.saves| ==> v.saves[RequestOf(e)].token < v.editor.saveToken
    ensures Step(v, e).editor == v.editor
  {
  }

  /** An event after which the answers to this kind of earlier request are not heard: an edit, for validating
      and publishing; a draft from the chat, for saving too; and another request of the kind. */
  predicate Retires(w: World, e: Event, late: Event) {
    || (IsEdit(w, e) && (IsAnswer(late) || (e.ChatSaved? && IsSaveAnswer(late))))
    || (e.Validate? && w.editor.persistence.Clean? && (late.Reported? || late.ReportLost?))
    || (e.PublishDraft? && MayPublish(w.editor) && IsAnswer(late) && !late.Reported? && !late.ReportLost?)
    || (e.Autosave? && w.editor.persistence.Dirty? && IsSaveAnswer(late))
  }

  lemma {:induction false} EventRetires(w: World, e: Event, late: Event)
    requires w.history != [] && Retires(w, e, late)
    ensures var v := Step(w, e);
            && (late.Reported? || late.ReportLost? ==> w.editor.validationToken < v.editor.validationToken)
            && (IsAnswer(late) && !late.Reported? && !late.ReportLost? ==>
                  w.editor.publishToken < v.editor.publishToken)
            && (IsSaveAnswer(late) ==> w.editor.saveToken < v.editor.saveToken)
  {
    hide EvidenceOf, Matches;
  }

  lemma {:induction false} RunGrows(w: World, es: seq<Event>)
    requires Core(w)
    ensures Grows(w, Run(w, es))
    decreases |es|
  {
    hide Core, Step, Grows;
    if es == [] {
      GrowsNot(w);
    } else {
      StepCore(w, es[0]);
      StepGrows(w, es[0]);
      RunGrows(Step(w, es[0]), es[1..]);
      GrowsOn(w, Step(w, es[0]), Run(w, es));
    }
  }

  lemma {:induction false} GrowsNot(w: World)
    ensures Grows(w, w)
  {
  }

  lemma {:induction false} GrowsOn(a: World, b: World, c: World)
    requires Grows(a, b) && Grows(b, c)
    ensures Grows(a, c)
  {
  }

  // A token that was given before the counter moved on.
  lemma {:induction false} StaleAnswer(w: World, u: World, v: World, late: Event)
    requires v.history != [] && Tokens(w) && Grows(w, u) && Grows(u, v) && (IsAnswer(late) || IsSaveAnswer(late))
    requires late.Reported? || late.ReportLost? ==>
               w.editor.validationToken < u.editor.validationToken && RequestOf(late) < |w.validates|
    requires IsSaveAnswer(late) ==> w.editor.saveToken < u.editor.saveToken && RequestOf(late) < |w.saves|
    requires IsAnswer(late) && !late.Reported? && !late.ReportLost? ==>
               w.editor.publishToken < u.editor.publishToken && RequestOf(late) < |w.publishes|
    ensures Step(v, late).editor == v.editor
  {
    hide Step;
    GrowsOn(w, u, v);
    OldAnswer(v, late);
  }

  /** However late it comes, the answer to an earlier request is not heard after an edit, a draft from the
      chat, or another request of its kind. */
  lemma {:induction false} EarlierAnswersIgnored(w: World, e: Event, es: seq<Event>, late: Event)
    requires Core(w) && Tokens(w) && (IsAnswer(late) || IsSaveAnswer(late)) && Retires(w, e, late)
    requires RequestOf(late) < if late.Reported? || late.ReportLost? then |w.validates|
                               else if IsSaveAnswer(late) then |w.saves| else |w.publishes|
    ensures Core(Step(w, e))
    ensures var v := Run(Step(w, e), es); Step(v, late).editor == v.editor
  {
    CoreHistory(w);
    hide Core, Step, Run, Retires, Grows;
    StepCore(w, e);
    EventRetires(w, e, late);
    StepGrows(w, e);
    RunGrows(Step(w, e), es);
    StaleAnswer(w, Step(w, e), Run(Step(w, e), es), late);
  }

  lemma {:induction false} TokensRun(w: World, es: seq<Event>)
    requires Core(w) && Tokens(w)
    ensures Tokens(Run(w, es))
    decreases |es|
  {
    hide Core, Step, Tokens;
    if es != [] {
      StepCore(w, es[0]);
      StepTokens(w, es[0]);
      TokensRun(Step(w, es[0]), es[1..]);
    }
  }

  /** In every run: what an addition adds its node to is the document that it started from. */
  lemma {:induction false} AdditionLands(d: Draft, history: seq<Draft>, es: seq<Event>, k: nat)
    requires History(history) && d.revision < |history| && history[d.revision] == d
    ensures Core(Start(d, history))
    ensures var w := Run(Start(d, history), es);
            k < |w.waits| && w.waits[k].origin.Addition? && Wanted(w, k) ==>
              w.editor.document == w.waits[k].render.document
  {
    StartCore(d, history);
    hide Core, Run, Gate, InSync;
    TokensRun(Start(d, history), es);
  }

  // ---------------------------------------------------------------- work that is retried

  /** A save that was lost is sent again, with the work as it is then, when the browser is online. */
  lemma {:induction false} LostSaveIsRetried(w: World)
    requires w.history != [] && (w.editor.persistence.Offline? || w.editor.persistence.Failed?)
    ensures var v := Step(Step(w, Online), Autosave);
            && v.saves == w.saves + [SaveCall(w.editor.saveToken + 1, w.editor.persistence.revision,
                                              w.editor.document, w.editor.layout, Sent, true)]
            && v.editor == w.editor.(saveToken := w.editor.saveToken + 1,
                                     persistence := Saving(w.editor.persistence.revision))
  {
  }

  /** Keeping the local work of a conflict saves it over the revision that was shown. */
  lemma {:induction false} KeptWorkIsSaved(w: World)
    requires w.history != [] && w.editor.persistence.Conflict?
    ensures var v := Step(Step(w, Keep), Autosave);
            v.saves == w.saves + [SaveCall(w.editor.saveToken + 1, w.editor.persistence.remote.revision,
                                           w.editor.document, w.editor.layout, Sent, true)]
  {
  }
}
