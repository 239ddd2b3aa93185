/** The draft editor against its server: a compare-and-swap store that other writers use too, and
    responses that arrive late, out of order or never. */
module DraftProtocol {
  import opened Options
  import opened DraftEditor

  /** What the server made of a save request. */
  datatype Outcome = Sent | Applied(revision: nat) | Refused

  /** A save request: what it carries, its fate on the server, and whether its response is still due. */
  datatype SaveCall = SaveCall(token: nat, base: nat, document: Document, layout: Layout, outcome: Outcome, due: bool)

  datatype ValidateCall = ValidateCall(token: nat, evidence: Evidence)

  datatype PublishCall = PublishCall(token: nat, generation: nat, request: Request, expected: Identity)

  /** A draft that the server has reported valid, and the canonical digest it gave. */
  datatype Verified = Verified(draftId: string, documentDigest: Digest, semanticDigest: string)

  /** A handler that waits for a definition, and the render it belongs to. */
  datatype Waiting = Waiting(origin: Origin, render: State, due: bool)

  /** The editor, the server's revisions of the draft, the requests made so far, and what the client
      has learnt: revisions whose content it received, those whose content it took into the editor,
      those it chose to overwrite, those that a save was answered with though it made another one, and
      the reports that found the draft valid. */
  datatype World = World(editor: State, history: seq<Draft>, saves: seq<SaveCall>, validates: seq<ValidateCall>,
                         publishes: seq<PublishCall>, waits: seq<Waiting>, received: set<nat>, adopted: set<nat>,
                         overridden: set<nat>, reread: set<nat>, verified: set<Verified>)

  datatype Event =
    // the user
    | Edit(next: Document) | EditLayout(layout: Layout) | Rename(next: Document, layout: Layout)
    | Place(next: Document, layout: Layout) | TakeRemote | Keep
    | Wait(origin: Origin) | Arrived(wait: nat, next: Document, moved: Option<Layout>)
    | Validate | Open(version: string) | Version(version: string) | Cancel | PublishDraft
    // the browser and the server
    | Autosave | Online | ForeignWrite(next: Document, layout: Layout) | Serve(call: nat)
    // responses, with the revision that they return, or that a reload after a conflict returns, if it returns
    | Saved(call: nat, answer: nat) | SaveConflict(call: nat, seen: Option<nat>) | SaveLost(call: nat, offline: bool)
    | Reported(call: nat, report: Report) | ReportLost(call: nat)
    | PublishDone(call: nat, result: Result) | PublishConflicted(call: nat, seen: Option<nat>)
      | PublishRejected(call: nat, invalid: bool)
    // the chat
    | ChatSaved(revision: nat) | ChatReported(report: Report) | ChatConflicted(revision: nat)

  function Head(w: World): nat
    requires w.history != []
  {
    |w.history| - 1
  }

  predicate SaveDue(w: World, k: nat) { k < |w.saves| && w.saves[k].due }

  function Remote(w: World, seen: Option<nat>): Option<Draft> {
    if seen.Some? && seen.value < |w.history| then Some(w.history[seen.value]) else None
  }

  function Seen(w: World, seen: Option<nat>): set<nat> {
    if seen.Some? && seen.value < |w.history| then {seen.value} else {}
  }

  function Answered(w: World, k: nat): seq<SaveCall>
    requires k < |w.saves|
  {
    w.saves[k := w.saves[k].(due := false)]
  }

  function Next(w: World, document: Document, layout: Layout): Draft
    requires w.history != []
  {
    w.history[Head(w)].(revision := |w.history|, document := document, layout := layout)
  }

  // ---------------------------------------------------------------- the steps

  function DoAutosave(w: World): World {
    if !w.editor.persistence.Dirty? then w
    else
      var s := StartSave(w.editor);
      w.(editor := s,
         saves := w.saves + [SaveCall(s.saveToken, w.editor.persistence.revision, s.document, s.layout, Sent, true)])
  }

  /** The server takes a save exactly when its base is still the latest revision. */
  function DoServe(w: World, k: nat): World
    requires w.history != []
  {
    if k >= |w.saves| || !w.saves[k].outcome.Sent? then w
    else if w.saves[k].base == Head(w) then
      w.(history := w.history + [Next(w, w.saves[k].document, w.saves[k].layout)],
         saves := w.saves[k := w.saves[k].(outcome := Applied(|w.history|))])
    else w.(saves := w.saves[k := w.saves[k].(outcome := Refused)])
  }

  function DoForeignWrite(w: World, document: Document, layout: Layout): World
    requires w.history != []
  {
    w.(history := w.history + [Next(w, document, layout)])
  }

  /** The server reads the draft again to answer a save it has taken, so the answer may be a later revision. */
  predicate MayAnswer(w: World, k: nat, r: nat) {
    SaveDue(w, k) && w.saves[k].outcome.Applied? && w.saves[k].outcome.revision <= r < |w.history|
  }

  function DoSaved(w: World, k: nat, r: nat): World {
    if !MayAnswer(w, k, r) then w
    else
      var token := w.saves[k].token;
      var learnt := if token == w.editor.saveToken then {r} else {};
      var own := r == w.saves[k].outcome.revision;
      w.(editor := SaveAccepted(w.editor, token, w.history[r]),
         saves := Answered(w, k), received := w.received + learnt,
         adopted := w.adopted + (if own then learnt else {}), reread := w.reread + (if own then {} else learnt))
  }

  function DoSaveConflict(w: World, k: nat, seen: Option<nat>): World {
    if !SaveDue(w, k) || !w.saves[k].outcome.Refused? then w
    else w.(editor := SaveRejected(w.editor, w.saves[k].token, w.saves[k].base, Remote(w, seen)),
            saves := Answered(w, k),
            received := w.received + if w.saves[k].token == w.editor.saveToken then Seen(w, seen) else {})
  }

  /** The response is lost, whatever the server did or will do. */
  function DoSaveLost(w: World, k: nat, offline: bool): World {
    if !SaveDue(w, k) then w
    else w.(editor := SaveFailed(w.editor, w.saves[k].token, w.saves[k].base, offline), saves := Answered(w, k))
  }

  function DoTakeRemote(w: World): World {
    if !w.editor.persistence.Conflict? then w
    else w.(editor := UseRemote(w.editor), adopted := w.adopted + {w.editor.persistence.remote.revision})
  }

  function DoKeep(w: World): World {
    if !w.editor.persistence.Conflict? then w
    else w.(editor := KeepLocal(w.editor), overridden := w.overridden + {w.editor.persistence.remote.revision})
  }

  function DoWait(w: World, origin: Origin): World { w.(waits := w.waits + [Waiting(origin, w.editor, true)]) }

  predicate WaitDue(w: World, k: nat) { k < |w.waits| && w.waits[k].due }

  function DoArrived(w: World, k: nat, next: Document, layout: Option<Layout>): World {
    if !WaitDue(w, k) then w
    else w.(editor := LateEdit(w.editor, w.waits[k].origin, w.waits[k].render, next, layout),
            waits := w.waits[k := w.waits[k].(due := false)])
  }

  function DoValidate(w: World): World {
    if !w.editor.persistence.Clean? then w
    else
      var s := StartValidation(w.editor);
      w.(editor := s, validates := w.validates + [ValidateCall(s.validationToken, EvidenceOf(w.editor))])
  }

  function Learn(report: Report): set<Verified> {
    if report.findings == 0 && report.digest.Some?
    then {Verified(report.draftId, report.documentDigest, report.digest.value)} else {}
  }

  function DoReported(w: World, k: nat, report: Report): World {
    if k >= |w.validates| then w
    else w.(editor := Validated(w.editor, w.validates[k].token, w.validates[k].evidence, report),
            verified := w.verified + Learn(report))
  }

  function DoPublish(w: World): World {
    var s := StartPublish(w.editor);
    if !MayPublish(w.editor) then w.(editor := s)
    else w.(editor := s,
            publishes := w.publishes + [PublishCall(s.publishToken, s.generation, s.publish.request,
                                                    ExpectedIdentity(s.draft, s.publish.request.version))])
  }

  predicate Current(w: World, c: PublishCall) {
    c.token == w.editor.publishToken && c.generation == w.editor.generation
  }

  function DoPublishConflicted(w: World, k: nat, seen: Option<nat>): World {
    if k >= |w.publishes| then w
    else
      var c := w.publishes[k];
      w.(editor := PublishRefused(w.editor, c.token, c.generation, c.request, RevisionChanged(Remote(w, seen))),
         received := w.received + if Current(w, c) then Seen(w, seen) else {})
  }

  function DoPublishRejected(w: World, k: nat, why: Refusal): World {
    if k >= |w.publishes| then w
    else
      var c := w.publishes[k];
      w.(editor := PublishRefused(w.editor, c.token, c.generation, c.request, why))
  }

  function DoPublishDone(w: World, k: nat, result: Result): World {
    if k >= |w.publishes| then w
    else
      var c := w.publishes[k];
      w.(editor := PublishAnswered(w.editor, c.token, c.generation, c.request, c.expected, result))
  }

  function DoChatSaved(w: World, r: nat): World {
    if r >= |w.history| then w
    else w.(editor := ChatDraft(w.editor, w.history[r]), received := w.received + {r}, adopted := w.adopted + {r})
  }

  function DoChatConflicted(w: World, r: nat): World {
    if r >= |w.history| then w
    else w.(editor := ChatConflict(w.editor, w.history[r]), received := w.received + {r})
  }

  /** Events that touch the editor alone. */
  predicate IsLocal(e: Event) {
    e.Edit? || e.EditLayout? || e.Rename? || e.Place? || e.Open? || e.Version? || e.Cancel? || e.Online?
  }

  function LocalStep(s: State, e: Event): State
    requires IsLocal(e)
  {
    match e
    case Edit(d) => ChangeDocument(s, d)
    case EditLayout(l) => ChangeLayout(s, l)
    case Rename(d, l) => RenameNode(s, d, l)
    case Place(d, l) => PlaceNode(s, d, l)
    case Open(v) => OpenPublish(s, v)
    case Version(v) => EditVersion(s, v)
    case Cancel => ClosePublish(s)
    case Online => WentOnline(s)
  }

  /** Saving, on both sides, and the other writers. */
  predicate IsSaving(e: Event) {
    e.Autosave? || e.ForeignWrite? || e.Serve? || e.Saved? || e.SaveConflict? || e.SaveLost?
  }

  function SavingStep(w: World, e: Event): World
    requires w.history != [] && IsSaving(e)
  {
    match e
    case Autosave => DoAutosave(w)
    case ForeignWrite(d, l) => DoForeignWrite(w, d, l)
    case Serve(k) => DoServe(w, k)
    case Saved(k, r) => DoSaved(w, k, r)
    case SaveConflict(k, seen) => DoSaveConflict(w, k, seen)
    case SaveLost(k, offline) => DoSaveLost(w, k, offline)
  }

  predicate IsPublishing(e: Event) { e.PublishDraft? || e.PublishDone? || e.PublishConflicted? || e.PublishRejected? }

  function PublishingStep(w: World, e: Event): World
    requires w.history != [] && IsPublishing(e)
  {
    match e
    case PublishDraft => DoPublish(w)
    case PublishDone(k, result) => DoPublishDone(w, k, result)
    case PublishConflicted(k, seen) => DoPublishConflicted(w, k, seen)
    case PublishRejected(k, invalid) => DoPublishRejected(w, k, if invalid then Rejected else OtherFailure)
  }

  function OtherStep(w: World, e: Event): World
    requires w.history != [] && !IsLocal(e) && !IsSaving(e) && !IsPublishing(e)
  {
    match e
    case TakeRemote => DoTakeRemote(w)
    case Keep => DoKeep(w)
    case Wait(origin) => DoWait(w, origin)
    case Arrived(k, next, layout) => DoArrived(w, k, next, layout)
    case Validate => DoValidate(w)
    case Reported(k, report) => DoReported(w, k, report)
    case ReportLost(k) =>
      if k >= |w.validates| then w
      else w.(editor := ValidationLost(w.editor, w.validates[k].token, w.validates[k].evidence))
    case ChatSaved(r) => DoChatSaved(w, r)
    case ChatReported(report) => w.(editor := ChatReport(w.editor, report), verified := w.verified + Learn(report))
    case ChatConflicted(r) => DoChatConflicted(w, r)
  }

  /** One event. An event that cannot happen in this world changes nothing. */
  function Step(w: World, e: Event): (v: World)
    requires w.history != []
    ensures v.history != []
  {
    if IsLocal(e) then w.(editor := LocalStep(w.editor, e))
    else if IsSaving(e) then SavingStep(w, e)
    else if IsPublishing(e) then PublishingStep(w, e)
    else OtherStep(w, e)
  }

  function Start(d: Draft, history: seq<Draft>): World
    requires d.revision < |history|
  {
    World(State(d, d.document, d.layout, Clean(d.revision), NotRun, Closed, 0, 0, 0, 0, 0),
          history, [], [], [], [], {d.revision}, {d.revision}, {}, {}, {})
  }

  // ---------------------------------------------------------------- the core invariant

  predicate Authentic(w: World, d: Draft) { d.revision < |w.history| && w.history[d.revision] == d }

  predicate Based(w: World, r: nat) { r in w.adopted || r in w.overridden || r in w.reread }

  predicate History(h: seq<Draft>) {
    h != [] && forall r | 0 <= r < |h| :: h[r].revision == r && h[r].id == h[0].id
  }

  predicate SaveInPlace(w: World, c: SaveCall) {
    && c.token <= w.editor.saveToken && Based(w, c.base) && c.base < |w.history|
    && (c.outcome.Applied? ==>
          var r := c.outcome.revision;
          c.base + 1 == r < |w.history| && w.history[r].document == c.document && w.history[r].layout == c.layout)
  }

  /** What holds in every run, whatever the order of the events. */
  ghost predicate Core(w: World) {
    && History(w.history)
    && w.adopted <= w.received && w.overridden <= w.received && w.reread <= w.received
    && (forall r <- w.received :: r < |w.history|)
    && Authentic(w, w.editor.draft) && Based(w, w.editor.draft.revision)
    && Based(w, w.editor.persistence.revision)
    && (w.editor.persistence.Conflict? ==>
          Authentic(w, w.editor.persistence.remote) && w.editor.persistence.remote.revision in w.received)
    && (w.editor.persistence.Clean? ==> w.editor.draft.revision == w.editor.persistence.revision)
    && (forall k | 0 <= k < |w.saves| :: SaveInPlace(w, w.saves[k]))
    && (forall j, k | 0 <= j < k < |w.saves| :: w.saves[j].token < w.saves[k].token)
    && (forall k | 0 <= k < |w.publishes| :: PublishInPlace(w, w.publishes[k]))
    && (forall k | 0 <= k < |w.waits| :: WaitInPlace(w, w.waits[k]))
  }

  /** A handler that waits will base its change on a revision that the client knew. */
  predicate WaitInPlace(w: World, c: Waiting) { Based(w, c.render.persistence.revision) }

  /** A publish request names a server revision, its content's digest and its identity. */
  predicate PublishInPlace(w: World, c: PublishCall) {
    var r := c.request.revision;
    && c.generation <= w.editor.generation && r < |w.history| && Based(w, r)
    && c.request.draftId == w.history[r].id && c.request.documentDigest == w.history[r].DocumentDigest()
    && c.expected == ExpectedIdentity(w.history[r], c.request.version)
  }

  /** The editor's part of the invariant, for a given state of the editor. */
  ghost predicate EditorInPlace(w: World, s: State) {
    && Authentic(w, s.draft) && Based(w, s.draft.revision)
    && Based(w, s.persistence.revision)
    && (s.persistence.Conflict? ==> Authentic(w, s.persistence.remote) && s.persistence.remote.revision in w.received)
    && (s.persistence.Clean? ==> s.draft.revision == s.persistence.revision)
    && w.editor.saveToken <= s.saveToken && w.editor.generation <= s.generation
  }

  lemma {:induction false} CoreEditor(w: World, s: State)
    requires Core(w) && EditorInPlace(w, s)
    ensures Core(w.(editor := s))
  {
    var v := w.(editor := s);
    forall k | 0 <= k < |v.saves| ensures SaveInPlace(v, v.saves[k]) { assert SaveInPlace(w, w.saves[k]); }
    forall k | 0 <= k < |v.publishes| ensures PublishInPlace(v, v.publishes[k]) {
      assert PublishInPlace(w, w.publishes[k]);
    }
    forall k | 0 <= k < |v.waits| ensures WaitInPlace(v, v.waits[k]) { assert WaitInPlace(w, w.waits[k]); }
  }

  /** Learning of more revisions, and recording more reports, keeps the invariant. */
  lemma {:induction false} CoreLearns(w: World, received: set<nat>, adopted: set<nat>, overridden: set<nat>,
                                      reread: set<nat>)
    requires Core(w) && w.received <= received && w.adopted <= adopted <= received
             && w.overridden <= overridden <= received
    requires w.reread <= reread <= received && forall r <- received :: r < |w.history|
    ensures Core(w.(received := received, adopted := adopted, overridden := overridden, reread := reread))
  {
    var v := w.(received := received, adopted := adopted, overridden := overridden, reread := reread);
    forall k | 0 <= k < |v.saves| ensures SaveInPlace(v, v.saves[k]) { assert SaveInPlace(w, w.saves[k]); }
    forall k | 0 <= k < |v.publishes| ensures PublishInPlace(v, v.publishes[k]) {
      assert PublishInPlace(w, w.publishes[k]);
    }
    forall k | 0 <= k < |v.waits| ensures WaitInPlace(v, v.waits[k]) { assert WaitInPlace(w, w.waits[k]); }
  }

  lemma {:induction false} CoreGrows(w: World, d: Draft)
    requires Core(w) && d.revision == |w.history| && d.id == w.history[0].id
    ensures Core(w.(history := w.history + [d]))
  {
    var v := w.(history := w.history + [d]);
    assert forall r | 0 <= r < |w.history| :: v.history[r] == w.history[r];
    forall k | 0 <= k < |v.saves| ensures SaveInPlace(v, v.saves[k]) { assert SaveInPlace(w, w.saves[k]); }
    forall k | 0 <= k < |v.publishes| ensures PublishInPlace(v, v.publishes[k]) {
      assert PublishInPlace(w, w.publishes[k]);
    }
    forall k | 0 <= k < |v.waits| ensures WaitInPlace(v, v.waits[k]) { assert WaitInPlace(w, w.waits[k]); }
  }

  lemma {:induction false} CoreAnswered(w: World, k: nat, c: SaveCall)
    requires Core(w) && k < |w.saves| && SaveInPlace(w, c) && c.token == w.saves[k].token
    ensures Core(w.(saves := w.saves[k := c]))
  {
    var v := w.(saves := w.saves[k := c]);
    forall j | 0 <= j < |v.saves| ensures SaveInPlace(v, v.saves[j]) { assert SaveInPlace(w, w.saves[j]); }
    forall j | 0 <= j < |v.publishes| ensures PublishInPlace(v, v.publishes[j]) {
      assert PublishInPlace(w, w.publishes[j]);
    }
    forall j | 0 <= j < |v.waits| ensures WaitInPlace(v, v.waits[j]) { assert WaitInPlace(w, w.waits[j]); }
  }

  lemma {:induction false} CoreVerifies(w: World, validates: seq<ValidateCall>, verified: set<Verified>)
    requires Core(w)
    ensures Core(w.(validates := validates, verified := verified))
  {
    var v := w.(validates := validates, verified := verified);
    forall k | 0 <= k < |v.saves| ensures SaveInPlace(v, v.saves[k]) { assert SaveInPlace(w, w.saves[k]); }
    forall k | 0 <= k < |v.publishes| ensures PublishInPlace(v, v.publishes[k]) {
      assert PublishInPlace(w, w.publishes[k]);
    }
    forall k | 0 <= k < |v.waits| ensures WaitInPlace(v, v.waits[k]) { assert WaitInPlace(w, w.waits[k]); }
  }

  lemma {:induction false} AutosaveCore(w: World)
    requires Core(w)
    ensures Core(DoAutosave(w))
  {
    if w.editor.persistence.Dirty? {
      var s := StartSave(w.editor);
      var c := SaveCall(s.saveToken, w.editor.persistence.revision, s.document, s.layout, Sent, true);
      var v := w.(editor := s);
      CoreEditor(w, s);
      var u := v.(saves := v.saves + [c]);
      forall k | 0 <= k < |u.saves| ensures SaveInPlace(u, u.saves[k])
        && (k < |v.saves| ==> u.saves[k].token < c.token) {
        if k < |v.saves| { assert SaveInPlace(w, w.saves[k]) && SaveInPlace(v, v.saves[k]); }
      }
      forall k | 0 <= k < |u.publishes| ensures PublishInPlace(u, u.publishes[k]) {
        assert PublishInPlace(v, v.publishes[k]);
      }
      forall k | 0 <= k < |u.waits| ensures WaitInPlace(u, u.waits[k]) { assert WaitInPlace(v, v.waits[k]); }
    }
  }

  lemma {:induction false} PublishCore(w: World)
    requires Core(w)
    ensures Core(DoPublish(w))
  {
    var s := StartPublish(w.editor);
    CoreEditor(w, s);
    if MayPublish(w.editor) {
      var v := w.(editor := s);
      var c := PublishCall(s.publishToken, s.generation, s.publish.request,
                           ExpectedIdentity(s.draft, s.publish.request.version));
      var u := v.(publishes := v.publishes + [c]);
      forall k | 0 <= k < |u.saves| ensures SaveInPlace(u, u.saves[k]) { assert SaveInPlace(v, v.saves[k]); }
      forall k | 0 <= k < |u.publishes| ensures PublishInPlace(u, u.publishes[k]) {
        if k < |v.publishes| { assert PublishInPlace(v, v.publishes[k]); }
      }
      forall k | 0 <= k < |u.waits| ensures WaitInPlace(u, u.waits[k]) { assert WaitInPlace(v, v.waits[k]); }
    }
  }

  lemma {:induction false} ServeCore(w: World, k: nat)
    requires Core(w)
    ensures Core(DoServe(w, k))
  {
    if k < |w.saves| && w.saves[k].outcome.Sent? {
      var c := w.saves[k];
      assert SaveInPlace(w, c);
      if c.base == Head(w) {
        var v := w.(history := w.history + [Next(w, c.document, c.layout)]);
        CoreGrows(w, Next(w, c.document, c.layout));
        assert SaveInPlace(v, c);
        CoreAnswered(v, k, c.(outcome := Applied(|w.history|)));
      } else {
        CoreAnswered(w, k, c.(outcome := Refused));
      }
    }
  }

  lemma {:induction false} SavedCore(w: World, k: nat, r: nat)
    requires Core(w)
    ensures Core(DoSaved(w, k, r))
  {
    hide Core;
    if MayAnswer(w, k, r) {
      var c := w.saves[k];
      CoreParts(w);
      assert SaveInPlace(w, c);
      CoreAnswered(w, k, c.(due := false));
      var v := w.(saves := Answered(w, k));
      var learnt := if c.token == w.editor.saveToken then {r} else {};
      var own := r == c.outcome.revision;
      var adopted, reread := v.adopted + (if own then learnt else {}), v.reread + (if own then {} else learnt);
      CoreParts(v);
      CoreLearns(v, v.received + learnt, adopted, v.overridden, reread);
      var u := v.(received := v.received + learnt, adopted := adopted, overridden := v.overridden, reread := reread);
      CoreParts(u);
      CoreEditor(u, SaveAccepted(u.editor, c.token, w.history[r]));
    }
  }

  /** What the other lemmas need to know of Core. */
  lemma {:induction false} CoreParts(w: World)
    requires Core(w)
    ensures History(w.history) && EditorInPlace(w, w.editor)
    ensures w.adopted <= w.received && w.overridden <= w.received && w.reread <= w.received
    ensures forall r <- w.received :: r < |w.history|
    ensures forall k | 0 <= k < |w.saves| :: SaveInPlace(w, w.saves[k])
    ensures forall k | 0 <= k < |w.publishes| :: PublishInPlace(w, w.publishes[k])
    ensures forall k | 0 <= k < |w.waits| :: WaitInPlace(w, w.waits[k])
    ensures forall j, k | 0 <= j < k < |w.saves| :: w.saves[j].token < w.saves[k].token
  {
  }

  lemma {:induction false} CoreWaits(w: World, waits: seq<Waiting>)
    requires Core(w) && forall k | 0 <= k < |waits| :: WaitInPlace(w, waits[k])
    ensures Core(w.(waits := waits))
  {
    var v := w.(waits := waits);
    forall k | 0 <= k < |v.saves| ensures SaveInPlace(v, v.saves[k]) { assert SaveInPlace(w, w.saves[k]); }
    forall k | 0 <= k < |v.publishes| ensures PublishInPlace(v, v.publishes[k]) {
      assert PublishInPlace(w, w.publishes[k]);
    }
    forall k | 0 <= k < |v.waits| ensures WaitInPlace(v, v.waits[k]) { assert WaitInPlace(w, waits[k]); }
  }

  lemma {:induction false} LateCore(w: World, origin: Origin, k: nat, next: Document, layout: Option<Layout>)
    requires Core(w)
    ensures Core(DoWait(w, origin)) && Core(DoArrived(w, k, next, layout))
  {
    hide Core;
    CoreParts(w);
    CoreWaits(w, w.waits + [Waiting(origin, w.editor, true)]);
    if WaitDue(w, k) {
      var c := w.waits[k];
      assert WaitInPlace(w, c);
      CoreEditor(w, LateEdit(w.editor, c.origin, c.render, next, layout));
      var v := w.(editor := LateEdit(w.editor, c.origin, c.render, next, layout));
      CoreParts(v);
      CoreWaits(v, v.waits[k := c.(due := false)]);
    }
  }

  lemma {:induction false} SaveConflictCore(w: World, k: nat, seen: Option<nat>)
    requires Core(w)
    ensures Core(DoSaveConflict(w, k, seen))
  {
    hide Core;
    if SaveDue(w, k) && w.saves[k].outcome.Refused? {
      var c := w.saves[k];
      CoreParts(w);
      assert SaveInPlace(w, c);
      CoreAnswered(w, k, c.(due := false));
      var v := w.(saves := Answered(w, k));
      var learnt := if c.token == w.editor.saveToken then Seen(w, seen) else {};
      CoreLearns(v, v.received + learnt, v.adopted, v.overridden, v.reread);
      var u := v.(received := v.received + learnt);
      CoreParts(u);
      CoreEditor(u, SaveRejected(u.editor, c.token, c.base, Remote(w, seen)));
    }
  }

  lemma {:induction false} SaveLostCore(w: World, k: nat, offline: bool)
    requires Core(w)
    ensures Core(DoSaveLost(w, k, offline))
  {
    hide Core;
    if SaveDue(w, k) {
      var c := w.saves[k];
      CoreParts(w);
      assert SaveInPlace(w, c);
      CoreAnswered(w, k, c.(due := false));
      var v := w.(saves := Answered(w, k));
      CoreParts(v);
      CoreEditor(v, SaveFailed(v.editor, c.token, c.base, offline));
    }
  }

  lemma {:induction false} RemoteCore(w: World)
    requires Core(w)
    ensures Core(DoTakeRemote(w)) && Core(DoKeep(w))
  {
    hide Core;
    if w.editor.persistence.Conflict? {
      CoreParts(w);
      var r := w.editor.persistence.remote.revision;
      CoreLearns(w, w.received, w.adopted + {r}, w.overridden, w.reread);
      var u := w.(adopted := w.adopted + {r});
      CoreParts(u);
      CoreEditor(u, UseRemote(u.editor));
      CoreLearns(w, w.received, w.adopted, w.overridden + {r}, w.reread);
      var v := w.(overridden := w.overridden + {r});
      CoreParts(v);
      CoreEditor(v, KeepLocal(v.editor));
    }
  }

  lemma {:induction false} PublishRefusedCore(w: World, k: nat, seen: Option<nat>, why: Refusal)
    requires Core(w) && !why.RevisionChanged?
    ensures Core(DoPublishConflicted(w, k, seen)) && Core(DoPublishRejected(w, k, why))
  {
    hide Core;
    if k < |w.publishes| {
      CoreParts(w);
      var c := w.publishes[k];
      assert PublishInPlace(w, c);
      CoreEditor(w, PublishRefused(w.editor, c.token, c.generation, c.request, why));
      var learnt := if Current(w, c) then Seen(w, seen) else {};
      CoreLearns(w, w.received + learnt, w.adopted, w.overridden, w.reread);
      var u := w.(received := w.received + learnt);
      CoreParts(u);
      CoreEditor(u, PublishRefused(u.editor, c.token, c.generation, c.request, RevisionChanged(Remote(w, seen))));
    }
  }

  lemma {:induction false} ChatCore(w: World, r: nat)
    requires Core(w)
    ensures Core(DoChatSaved(w, r)) && Core(DoChatConflicted(w, r))
  {
    hide Core;
    if r < |w.history| {
      CoreParts(w);
      CoreLearns(w, w.received + {r}, w.adopted + {r}, w.overridden, w.reread);
      var u := w.(received := w.received + {r}, adopted := w.adopted + {r});
      CoreParts(u);
      CoreEditor(u, ChatDraft(u.editor, w.history[r]));
      CoreLearns(w, w.received + {r}, w.adopted, w.overridden, w.reread);
      var v := w.(received := w.received + {r});
      CoreParts(v);
      CoreEditor(v, ChatConflict(v.editor, w.history[r]));
    }
  }

  lemma {:induction false} ValidateCore(w: World, k: nat)
    requires Core(w)
    ensures Core(DoValidate(w)) && Core(Step(w, ReportLost(k)))
  {
    hide Core;
    CoreParts(w);
    if k < |w.validates| { CoreEditor(w, ValidationLost(w.editor, w.validates[k].token, w.validates[k].evidence)); }
    var s := StartValidation(w.editor);
    var more := w.validates + [ValidateCall(s.validationToken, EvidenceOf(w.editor))];
    CoreVerifies(w, more, w.verified);
    var u := w.(validates := more);
    CoreParts(u);
    CoreEditor(u, s);
  }

  lemma {:induction false} ReportCore(w: World, k: nat, report: Report)
    requires Core(w)
    ensures Core(DoReported(w, k, report)) && Core(Step(w, ChatReported(report)))
  {
    hide Core;
    CoreVerifies(w, w.validates, w.verified + Learn(report));
    var v := w.(verified := w.verified + Learn(report));
    CoreParts(v);
    CoreEditor(v, ChatReport(v.editor, report));
    if k < |w.validates| {
      CoreEditor(v, Validated(v.editor, w.validates[k].token, w.validates[k].evidence, report));
    }
  }

  lemma {:induction false} LocalCore(w: World, e: Event)
    requires Core(w) && IsLocal(e)
    ensures Core(w.(editor := LocalStep(w.editor, e)))
  {
    hide Core;
    CoreParts(w);
    match e
    case Edit(d) => CoreEditor(w, ChangeDocument(w.editor, d));
    case EditLayout(l) => CoreEditor(w, ChangeLayout(w.editor, l));
    case Rename(d, l) => CoreEditor(w, RenameNode(w.editor, d, l));
    case Place(d, l) => CoreEditor(w, PlaceNode(w.editor, d, l));
    case Open(v) => CoreEditor(w, OpenPublish(w.editor, v));
    case Version(v) => CoreEditor(w, EditVersion(w.editor, v));
    case Cancel => CoreEditor(w, ClosePublish(w.editor));
    case Online => CoreEditor(w, WentOnline(w.editor));
  }

  lemma {:induction false} PublishDoneCore(w: World, k: nat, result: Result)
    requires Core(w)
    ensures Core(DoPublishDone(w, k, result))
  {
    hide Core;
    CoreParts(w);
    if k < |w.publishes| {
      var c := w.publishes[k];
      CoreEditor(w, PublishAnswered(w.editor, c.token, c.generation, c.request, c.expected, result));
    }
  }

  lemma {:induction false} WriteCore(w: World, next: Document, layout: Layout)
    requires Core(w)
    ensures w.history != [] && Core(DoForeignWrite(w, next, layout))
  {
    CoreGrows(w, Next(w, next, layout));
  }

  lemma {:induction false} CoreHistory(w: World)
    requires Core(w)
    ensures w.history != []
  {
  }

  lemma {:induction false} SavingCore(w: World, e: Event)
    requires Core(w) && IsSaving(e)
    ensures w.history != [] && Core(SavingStep(w, e))
  {
    CoreHistory(w);
    hide Core, DoAutosave, DoServe, DoSaved, DoSaveConflict, DoSaveLost, DoForeignWrite;
    match e
    case Autosave => AutosaveCore(w);
    case ForeignWrite(d, l) => WriteCore(w, d, l);
    case Serve(k) => ServeCore(w, k);
    case Saved(k, r) => SavedCore(w, k, r);
    case SaveConflict(k, seen) => SaveConflictCore(w, k, seen);
    case SaveLost(k, offline) => SaveLostCore(w, k, offline);
  }

  lemma {:induction false} PublishingCore(w: World, e: Event)
    requires Core(w) && IsPublishing(e)
    ensures w.history != [] && Core(PublishingStep(w, e))
  {
    CoreHistory(w);
    hide Core, DoPublish, DoPublishDone, DoPublishConflicted, DoPublishRejected;
    match e
    case PublishDraft => PublishCore(w);
    case PublishDone(k, result) => PublishDoneCore(w, k, result);
    case PublishConflicted(k, seen) => PublishRefusedCore(w, k, seen, Rejected);
    case PublishRejected(k, invalid) => PublishRefusedCore(w, k, None, if invalid then Rejected else OtherFailure);
  }

  lemma {:induction false} OtherCore(w: World, e: Event)
    requires Core(w) && !IsLocal(e) && !IsSaving(e) && !IsPublishing(e)
    ensures w.history != [] && Core(OtherStep(w, e))
  {
    CoreHistory(w);
    hide Core, DoTakeRemote, DoKeep, DoValidate, DoReported, DoChatSaved, DoChatConflicted, DoWait, DoArrived,
         ValidationLost, ChatReport, Learn;
    match e
    case TakeRemote => RemoteCore(w);
    case Keep => RemoteCore(w);
    case Wait(origin) => LateCore(w, origin, 0, "", None);
    case Arrived(k, next, layout) => LateCore(w, Definition, k, next, layout);
    case Validate => ValidateCore(w, 0);
    case Reported(k, report) => ReportCore(w, k, report);
    case ReportLost(k) => ValidateCore(w, k);
    case ChatSaved(r) => ChatCore(w, r);
    case ChatReported(report) => ReportCore(w, 0, report);
    case ChatConflicted(r) => ChatCore(w, r);
  }

  /** Every event keeps the invariant. */
  lemma {:induction false} StepCore(w: World, e: Event)
    requires Core(w)
    ensures w.history != [] && Core(Step(w, e))
  {
    CoreHistory(w);
    hide Core, LocalStep, SavingStep, PublishingStep, OtherStep;
    if IsLocal(e) {
      LocalCore(w, e);
    } else if IsSaving(e) {
      SavingCore(w, e);
    } else if IsPublishing(e) {
      PublishingCore(w, e);
    } else {
      OtherCore(w, e);
    }
  }

  // ---------------------------------------------------------------- runs

  /** The world after the events, in order. */
  function Run(w: World, es: seq<Event>): (v: World)
    requires Core(w)
    ensures v.history != [] && Core(v)
    decreases |es|
  {
    if es == [] then w else StepCore(w, es[0]); Run(Step(w, es[0]), es[1..])
  }

  lemma {:induction false} RunThen(w: World, es: seq<Event>, e: Event)
    requires Core(w)
    ensures w.history != [] && Run(w, es + [e]) == Step(Run(w, es), e)
    decreases |es|
  {
    hide Core, Step;
    StepCore(w, e);
    if es == [] {
      assert [] + [e] == [e] && [e][1..] == [];
      assert Run(Step(w, e), []) == Step(w, e);
    } else {
      StepCore(w, es[0]);
      assert (es + [e])[1..] == es[1..] + [e];
      RunThen(Step(w, es[0]), es[1..], e);
    }
  }

  // ---------------------------------------------------------------- the handlers in these runs

  /** The handler of a user's event that sends no request, run on the editor itself. */
  method HandleLocal(editor: Editor, w: World, e: Event) returns (v: World)
    requires w.history != [] && editor.View() == w.editor && IsLocal(e)
    modifies editor
    ensures v == Step(w, e) && editor.View() == v.editor
  {
    match e {
      case Edit(d) => editor.SetDocument(w.editor, d);
      case EditLayout(l) => editor.SetLayout(l);
      case Rename(d, l) => editor.Rename(d, l);
      case Place(d, l) => editor.Add(d, l);
      case Open(version) => editor.OpenDialog(version);
      case Version(version) => editor.SetVersion(version);
      case Cancel => editor.CloseDialog();
      case Online => editor.OnOnline();
    }
    v := w.(editor := editor.View());
  }

  /** The handlers that settle a conflict or start to wait. */
  method HandleChoice(editor: Editor, w: World, e: Event) returns (v: World)
    requires w.history != [] && editor.View() == w.editor && (e.TakeRemote? || e.Keep? || e.Wait?)
    modifies editor
    ensures v == Step(w, e) && editor.View() == v.editor
  {
    v := w;
    match e {
      case TakeRemote =>
        if w.editor.persistence.Conflict? { v := v.(adopted := w.adopted + {w.editor.persistence.remote.revision}); }
        editor.TakeRemote();
      case Keep =>
        if w.editor.persistence.Conflict? {
          v := v.(overridden := w.overridden + {w.editor.persistence.remote.revision});
        }
        editor.Keep();
      case Wait(origin) => v := v.(waits := w.waits + [Waiting(origin, editor.View(), true)]);
    }
    v := v.(editor := editor.View());
  }

  /** The handlers that send: their requests are the ones the world records. */
  method HandleRequest(editor: Editor, w: World, e: Event) returns (v: World)
    requires w.history != [] && editor.View() == w.editor && (e.Validate? || e.PublishDraft? || e.Autosave?)
    modifies editor
    ensures v == Step(w, e) && editor.View() == v.editor
  {
    hide MayPublish, EvidenceOf, ExpectedIdentity, Matches;
    match e {
      case Validate =>
        var sent := editor.Validate();
        var more := if sent.Some? then [ValidateCall(sent.value.0, sent.value.1)] else [];
        v := w.(editor := editor.View(), validates := w.validates + more);
      case PublishDraft =>
        var sent := editor.PublishDraft();
        var more := if sent.Some? then [PublishCall(sent.value.0, sent.value.1, sent.value.2, sent.value.3)] else [];
        v := w.(editor := editor.View(), publishes := w.publishes + more);
      case Autosave =>
        var sent := editor.Autosave();
        var more :=
          if sent.Some? then [SaveCall(sent.value.0, sent.value.1, sent.value.2, sent.value.3, Sent, true)] else [];
        v := w.(editor := editor.View(), saves := w.saves + more);
    }
  }

  /** The handler of a response to a save, or of a definition that has come. */
  method HandleAnswer(editor: Editor, w: World, e: Event) returns (v: World)
    requires w.history != [] && editor.View() == w.editor
    requires e.Saved? || e.SaveConflict? || e.SaveLost? || e.Arrived?
    modifies editor
    ensures v == Step(w, e) && editor.View() == v.editor
  {
    v := Step(w, e);
    match e {
      case Saved(k, r) => if MayAnswer(w, k, r) { editor.OnSaved(w.saves[k].token, w.history[r]); }
      case SaveConflict(k, seen) =>
        if SaveDue(w, k) && w.saves[k].outcome.Refused? {
          editor.OnSaveRejected(w.saves[k].token, w.saves[k].base, Remote(w, seen));
        }
      case SaveLost(k, offline) => if SaveDue(w, k) { editor.OnSaveFailed(w.saves[k].token, w.saves[k].base, offline); }
      case Arrived(k, next, moved) =>
        if WaitDue(w, k) { editor.OnDefinition(w.waits[k].origin, w.waits[k].render, next, moved); }
    }
  }

  /** The handler of a response to a publish request. */
  method HandlePublish(editor: Editor, w: World, e: Event) returns (v: World)
    requires w.history != [] && editor.View() == w.editor
    requires e.PublishDone? || e.PublishConflicted? || e.PublishRejected?
    modifies editor
    ensures v == Step(w, e) && editor.View() == v.editor
  {
    v := Step(w, e);
    match e {
      case PublishDone(k, result) =>
        if k < |w.publishes| {
          var c := w.publishes[k];
          editor.OnPublished(c.token, c.generation, c.request, c.expected, result);
        }
      case PublishConflicted(k, seen) =>
        if k < |w.publishes| {
          var c := w.publishes[k];
          editor.OnPublishRefused(c.token, c.generation, c.request, RevisionChanged(Remote(w, seen)));
        }
      case PublishRejected(k, invalid) =>
        if k < |w.publishes| {
          var c := w.publishes[k];
          editor.OnPublishRefused(c.token, c.generation, c.request, if invalid then Rejected else OtherFailure);
        }
    }
  }

  /** The handler of a report, or of a chat event. */
  method HandleReport(editor: Editor, w: World, e: Event) returns (v: World)
    requires w.history != [] && editor.View() == w.editor
    requires e.Reported? || e.ReportLost? || e.ChatSaved? || e.ChatReported? || e.ChatConflicted?
    modifies editor
    ensures v == Step(w, e) && editor.View() == v.editor
  {
    v := Step(w, e);
    match e {
      case Reported(k, report) =>
        if k < |w.validates| { editor.OnValidated(w.validates[k].token, w.validates[k].evidence, report); }
      case ReportLost(k) =>
        if k < |w.validates| { editor.OnValidationLost(w.validates[k].token, w.validates[k].evidence); }
      case ChatSaved(r) => if r < |w.history| { editor.OnChatDraft(w.history[r]); }
      case ChatReported(report) => editor.OnChatReport(report);
      case ChatConflicted(r) => if r < |w.history| { editor.OnChatConflict(w.history[r]); }
    }
  }

  // What happens on the server leaves the editor as it is.
  method OnServer(w: World, e: Event) returns (v: World)
    requires w.history != [] && (e.ForeignWrite? || e.Serve?)
    ensures v == Step(w, e) && v.editor == w.editor
  {
    v := Step(w, e);
  }

  /** The handler of any event. */
  method Handle(editor: Editor, w: World, e: Event) returns (v: World)
    requires w.history != [] && editor.View() == w.editor
    modifies editor
    ensures v == Step(w, e) && editor.View() == v.editor
  {
    hide Step;
    if IsLocal(e) {
      v := HandleLocal(editor, w, e);
    } else if e.TakeRemote? || e.Keep? || e.Wait? {
      v := HandleChoice(editor, w, e);
    } else if e.Validate? || e.PublishDraft? || e.Autosave? {
      v := HandleRequest(editor, w, e);
    } else if e.Saved? || e.SaveConflict? || e.SaveLost? || e.Arrived? {
      v := HandleAnswer(editor, w, e);
    } else if e.PublishDone? || e.PublishConflicted? || e.PublishRejected? {
      v := HandlePublish(editor, w, e);
    } else if e.ForeignWrite? || e.Serve? {
      v := OnServer(w, e);
    } else {
      v := HandleReport(editor, w, e);
    }
  }

  lemma {:induction false} RunNothing(w: World)
    requires Core(w)
    ensures Run(w, []) == w
  {
  }

  lemma {:induction false} StartIsCore(d: Draft, history: seq<Draft>)
    requires History(history) && d.revision < |history| && history[d.revision] == d
    ensures Core(Start(d, history)) && Run(Start(d, history), []) == Start(d, history)
  {
    assert Core(Start(d, history));
    RunNothing(Start(d, history));
  }

  /** A whole run of the handlers is a run of the model, from selecting the draft on. */
  method HandleAll(d: Draft, history: seq<Draft>, es: seq<Event>) returns (editor: Editor, w: World)
    requires History(history) && d.revision < |history| && history[d.revision] == d
    ensures Core(Start(d, history)) && w == Run(Start(d, history), es) && editor.View() == w.editor
  {
    StartIsCore(d, history);
    hide Core, Step, Run, History;
    editor := new Editor(d);
    w := Start(d, history);
    ghost var w0 := w;
    assert es[..0] == [];
    for i := 0 to |es|
      invariant Core(w0) && w == Run(w0, es[..i]) && editor.View() == w.editor
    {
      RunThen(w0, es[..i], es[i]);
      assert es[..i] + [es[i]] == es[..i + 1];
      w := Handle(editor, w, es[i]);
    }
    assert es[..|es|] == es;
  }
}
