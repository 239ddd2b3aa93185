/** What the draft protocol keeps over whole runs: no lost update, clean means saved and exactly when
    that fails, and the publish gate. */
module DraftSafety {
  import opened Options
  import opened DraftEditor
  import opened DraftProtocol

  lemma {:induction false} StartCore(d: Draft, history: seq<Draft>)
    requires History(history) && d.revision < |history| && history[d.revision] == d
    ensures Core(Start(d, history)) && InSync(Start(d, history)) && Gate(Start(d, history))
    ensures PublishKnown(Start(d, history))
  {
  }

  lemma {:induction false} RunConcat(w: World, a: seq<Event>, b: seq<Event>)
    requires Core(w)
    ensures Run(w, a + b) == Run(Run(w, a), b)
    decreases |a|
  {
    hide Step, Core;
    if a == [] {
      assert a + b == b;
    } else {
      StepCore(w, a[0]);
      assert (a + b)[1..] == a[1..] + b;
      RunConcat(Step(w, a[0]), a[1..], b);
    }
  }

  // ---------------------------------------------------------------- no lost update

  /** The server's revisions never change; one more appears when somebody else writes, or when it takes
      a save whose base is the revision it replaces, one the client had received: taken into the editor,
      chosen to be overwritten, or returned as the answer to a save. */
  lemma {:induction false} NoLostUpdate(w: World, e: Event)
    requires Core(w)
    ensures var v := Step(w, e);
            && w.history <= v.history && |v.history| <= |w.history| + 1
            && (|w.history| < |v.history| && !e.ForeignWrite? ==>
                  && e.Serve? && e.call < |w.saves| && w.saves[e.call].base == Head(w)
                  && v.history[|w.history|].document == w.saves[e.call].document
                  && Head(w) in w.received && Based(w, Head(w)))
  {
    hide Core, ChangeDocument, LateEdit, ChangeLayout, RenameNode, PlaceNode, OpenPublish, EditVersion, ClosePublish,
         StartPublish, WentOnline, StartSave, SaveAccepted, SaveRejected, SaveFailed, UseRemote, KeepLocal,
         StartValidation, Validated, ValidationLost, PublishAnswered, PublishRefused, ChatDraft, ChatReport,
         ChatConflict, MayPublish, Verdict;
    CoreParts(w);
    if e.Serve? && e.call < |w.saves| { assert SaveInPlace(w, w.saves[e.call]); }
  }

  /** The user keeps the local document while this revision is shown as a conflict. */
  predicate KeptHere(w: World, e: Event, r: nat) {
    e.Keep? && w.editor.persistence.Conflict? && w.editor.persistence.remote.revision == r
  }

  /** A save is answered with this revision, which is not the one that follows its base: the server read
      the draft again after somebody else had written it. */
  predicate RereadHere(w: World, e: Event, r: nat) {
    e.Saved? && e.answer == r && MayAnswer(w, e.call, r) && w.saves[e.call].token == w.editor.saveToken
    && r != w.saves[e.call].base + 1
  }

  predicate Opens(w: World, e: Event, r: nat) { KeptHere(w, e, r) || RereadHere(w, e, r) }

  /** A revision that never was the editor's content becomes overwritable in these two ways only. */
  lemma {:induction false} OverwritableStep(w: World, e: Event, r: nat)
    requires Core(w) && r !in w.overridden && r !in w.reread
    ensures w.history != []
    ensures r in Step(w, e).overridden ==> KeptHere(w, e, r)
    ensures r in Step(w, e).reread ==> RereadHere(w, e, r)
  {
    hide Core, ChangeDocument, LateEdit, ChangeLayout, RenameNode, PlaceNode, OpenPublish, EditVersion, ClosePublish,
         StartPublish, WentOnline, StartSave, SaveAccepted, SaveRejected, SaveFailed, UseRemote, KeepLocal,
         StartValidation, Validated, ValidationLost, PublishAnswered, PublishRefused, ChatDraft, ChatReport,
         ChatConflict, MayPublish, Verdict;
    CoreParts(w);
    if e.Saved? && e.call < |w.saves| { assert SaveInPlace(w, w.saves[e.call]); }
  }

  lemma {:induction false} Overwritable(w: World, es: seq<Event>, r: nat)
    requires Core(w) && r !in w.overridden && r !in w.reread
    requires r in Run(w, es).overridden || r in Run(w, es).reread
    ensures exists j | 0 <= j < |es| :: Opens(Run(w, es[..j]), es[j], r)
    decreases |es|
  {
    hide Core, Step, KeptHere, RereadHere;
    assert es != [];
    OverwritableStep(w, es[0], r);
    StepCore(w, es[0]);
    var v := Step(w, es[0]);
    if r in v.overridden || r in v.reread {
      assert Opens(Run(w, es[..0]), es[0], r);
    } else {
      Overwritable(v, es[1..], r);
      var j :| 0 <= j < |es[1..]| && Opens(Run(v, es[1..][..j]), es[1..][j], r);
      assert es[..j + 1][1..] == es[1..][..j];
      assert Opens(Run(w, es[..j + 1]), es[j + 1], r);
    }
  }

  /** Over a run: a save replaces a revision that the client had received. If that never was the content
      of the editor, then the user chose to overwrite it while it was shown as a conflict, or an earlier
      save was answered with it instead of the revision that save had made. */
  lemma {:induction false} ForeignNeedsKeep(d: Draft, history: seq<Draft>, es: seq<Event>, e: Event)
    requires History(history) && d.revision < |history| && history[d.revision] == d
    ensures Core(Start(d, history))
    ensures var w := Run(Start(d, history), es);
            |w.history| < |Step(w, e).history| && !e.ForeignWrite? ==>
              && Head(w) in w.received
              && (Head(w) !in w.adopted ==>
                    exists j | 0 <= j < |es| :: Opens(Run(Start(d, history), es[..j]), es[j], Head(w)))
  {
    hide Core, Step, Run, InSync, Gate, Opens;
    StartCore(d, history);
    var w := Run(Start(d, history), es);
    NoLostUpdate(w, e);
    if Head(w) in w.overridden || Head(w) in w.reread { Overwritable(Start(d, history), es, Head(w)); }
  }

  /** A publish request under way is the last one sent, and its response still counts. */
  predicate PublishKnown(w: World) {
    w.editor.publish.Publishing? ==> w.publishes != [] && Current(w, w.publishes[|w.publishes| - 1])
  }

  lemma {:induction false} KnownPublishing(w: World, e: Event)
    requires w.history != [] && PublishKnown(w) && IsPublishing(e)
    ensures PublishKnown(Step(w, e))
  {
  }

  lemma {:induction false} KnownSaving(w: World, e: Event)
    requires w.history != [] && PublishKnown(w) && (IsSaving(e) || IsLocal(e))
    ensures PublishKnown(Step(w, e))
  {
  }

  lemma {:induction false} KnownOther(w: World, e: Event)
    requires w.history != [] && PublishKnown(w) && !IsPublishing(e) && !IsSaving(e) && !IsLocal(e)
    ensures PublishKnown(Step(w, e))
  {
  }

  lemma {:induction false} KnownStep(w: World, e: Event)
    requires w.history != [] && PublishKnown(w)
    ensures PublishKnown(Step(w, e))
  {
    hide Step, PublishKnown;
    if IsPublishing(e) {
      KnownPublishing(w, e);
    } else if IsSaving(e) || IsLocal(e) {
      KnownSaving(w, e);
    } else {
      KnownOther(w, e);
    }
  }

  lemma {:induction false} KnownRuns(w: World, es: seq<Event>)
    requires Core(w) && PublishKnown(w)
    ensures PublishKnown(Run(w, es))
    decreases |es|
  {
    hide Core, Step, PublishKnown;
    if es != [] {
      StepCore(w, es[0]);
      KnownStep(w, es[0]);
      KnownRuns(Step(w, es[0]), es[1..]);
    }
  }

  /** Up to here, and through these events, the revision is neither the editor's content nor overridden by
      choice, and no save is answered with it. */
  ghost predicate Silent(w: World, es: seq<Event>, r: nat)
    requires Core(w)
    decreases |es|
  {
    && r !in w.adopted && r !in w.overridden
    && (es == [] || (!RereadHere(w, es[0], r) && (StepCore(w, es[0]); Silent(Step(w, es[0]), es[1..], r))))
  }

  /** The server can take a save of the client now, and it would replace this revision. */
  ghost predicate Replaces(w: World, r: nat)
    requires w.history != []
  {
    Head(w) == r && exists k :: |w.history| < |DoServe(w, k).history|
  }

  lemma {:induction false} SilentRun(w: World, es: seq<Event>, r: nat)
    requires Core(w) && Silent(w, es, r) && r !in w.reread
    ensures var v := Run(w, es); r !in v.adopted && r !in v.overridden && r !in v.reread
    decreases |es|
  {
    hide Core, Step, RereadHere, KeptHere;
    if es != [] {
      StepCore(w, es[0]);
      OverwritableStep(w, es[0], r);
      SilentRun(Step(w, es[0]), es[1..], r);
    }
  }

  lemma {:induction false} SilentKeeps(w: World, r: nat)
    requires Core(w) && r !in w.adopted && r !in w.overridden && r !in w.reread
    ensures !Replaces(w, r)
  {
    hide Core;
    CoreParts(w);
    forall k: nat ensures Head(w) == r ==> |DoServe(w, k).history| == |w.history| {
      NoLostUpdate(w, Serve(k));
    }
  }

  // From a clean editor at the latest revision: a publish request that is under way is refused, the user
  // types, and the autosave goes out.
  function TypingOn(w: World, next: Document): seq<Event> {
    [PublishRejected(if w.publishes == [] then 0 else |w.publishes| - 1, true)] + [Edit(next)] + [Autosave]
  }

  lemma {:induction false} Refused(w: World)
    requires w.history != [] && PublishKnown(w) && w.editor.persistence == Clean(Head(w))
    ensures var v := Step(w, TypingOn(w, "")[0]);
            && v.editor.persistence == Clean(Head(w)) && !v.editor.publish.Publishing?
            && v.history == w.history && v.saves == w.saves && v.overridden == w.overridden && v.adopted == w.adopted
  {
  }

  lemma {:induction false} TypingOverwrites(w: World, next: Document, r: nat)
    requires Core(w) && PublishKnown(w) && w.editor.persistence == Clean(Head(w))
    requires r == Head(w) && r !in w.adopted && r !in w.overridden
    ensures Silent(w, TypingOn(w, next), r) && Replaces(Run(w, TypingOn(w, next)), r)
  {
    Refused(w);
    var refused := TypingOn(w, next)[0];
    hide Core, Step, Run;
    var w1 := Step(w, refused);
    StepCore(w, refused);
    Edited(w1, next);
    var w2 := Step(w1, Edit(next));
    StepCore(w1, Edit(next));
    AutosaveServed(w2);
    var w3 := Step(w2, Autosave);
    StepCore(w2, Autosave);
    ThreeSteps(w, refused, Edit(next), Autosave, r);
    assert Step(w3, Serve(|w2.saves|)) == DoServe(w3, |w2.saves|) by { ServeStep(w3, |w2.saves|); }
  }

  lemma {:induction false} ServeStep(w: World, k: nat)
    requires w.history != []
    ensures Step(w, Serve(k)) == DoServe(w, k)
  {
  }

  lemma {:induction false} ThreeSteps(w: World, a: Event, b: Event, c: Event, r: nat)
    requires Core(w) && !a.Saved? && !b.Saved? && !c.Saved?
    ensures Core(Step(w, a)) && Core(Step(Step(w, a), b))
    ensures Run(w, [a] + [b] + [c]) == Step(Step(Step(w, a), b), c)
    ensures (forall u <- [w, Step(w, a), Step(Step(w, a), b), Step(Step(Step(w, a), b), c)] ::
               r !in u.adopted && r !in u.overridden) ==> Silent(w, [a] + [b] + [c], r)
  {
    hide Core, Step;
    StepCore(w, a);
    var w1 := Step(w, a);
    StepCore(w1, b);
    var w2 := Step(w1, b);
    StepCore(w2, c);
    var w3 := Step(w2, c);
    assert ([a] + [b] + [c])[1..] == [b] + [c] && ([b] + [c])[1..] == [c] && [c][1..] == [];
    assert Run(w3, []) == w3;
    assert Run(w2, [c]) == w3;
    assert Run(w1, [b] + [c]) == w3;
    var us := [w, w1, w2, w3];
    if forall u <- us :: r !in u.adopted && r !in u.overridden {
      assert w in us && w1 in us && w2 in us && w3 in us;
      assert Silent(w3, [], r);
      assert Silent(w2, [c], r);
      assert Silent(w1, [b] + [c], r);
    }
  }

  lemma {:induction false} AfterReread(w: World, k: nat)
    requires Core(w) && RereadHere(w, Saved(k, Head(w)), Head(w))
    ensures var v := Step(w, Saved(k, Head(w)));
            && v.history == w.history && v.editor.persistence == Clean(Head(w))
            && v.overridden == w.overridden && v.adopted == w.adopted
  {
    hide Core;
    CoreParts(w);
    assert SaveInPlace(w, w.saves[k]);
    var id := w.history[0].id;
    assert w.history[Head(w)].id == id;
  }

  /** Exactly: while the latest revision is one that the client neither took into the editor nor chose to
      overwrite, an event lets the client's autosave replace it without either, if and only if it is the
      answer to a save and carries that revision instead of its own. */
  lemma {:induction false} OverwriteExactly(w: World, e: Event, r: nat)
    requires Core(w) && PublishKnown(w) && r == Head(w)
    requires r !in w.adopted && r !in w.overridden && r !in w.reread
    ensures Core(Step(w, e))
    ensures RereadHere(w, e, r) <==>
            exists es :: Silent(Step(w, e), es, r) && Replaces(Run(Step(w, e), es), r)
  {
    hide Core, Step, Run, Silent, Replaces;
    StepCore(w, e);
    var u := Step(w, e);
    if RereadHere(w, e, r) {
      assert e == Saved(e.call, r);
      AfterReread(w, e.call);
      KnownStep(w, e);
      TypingOverwrites(u, "", r);
      assert Silent(u, TypingOn(u, ""), r);
    } else {
      OverwritableStep(w, e, r);
      forall es | Silent(u, es, r) ensures !Replaces(Run(u, es), r) {
        SilentRun(u, es, r);
        SilentKeeps(Run(u, es), r);
      }
    }
  }

  // An autosave that goes out from the latest revision, and that the server takes.
  lemma {:induction false} AutosaveServed(w: World)
    requires w.history != [] && w.editor.persistence == Dirty(Head(w))
    ensures var v, c := Step(Step(w, Autosave), Serve(|w.saves|)), |w.saves|;
            && Awaited(v, c) && v.saves[c].outcome == Applied(|w.history|) && v.saves[c].document == w.editor.document
            && |v.history| == |w.history| + 1 && v.history[|w.history|].id == w.history[Head(w)].id
            && v.history[|w.history|].document == w.editor.document && v.waits == w.waits
            && v.editor == StartSave(w.editor) && v.overridden == w.overridden && v.adopted == w.adopted
  {
  }

  lemma {:induction false} Edited(w: World, next: Document)
    requires w.history != [] && w.editor.persistence == Clean(Head(w)) && !w.editor.publish.Publishing?
    ensures var v := Step(w, Edit(next));
            && v.editor.persistence == Dirty(Head(w)) && v.editor.publish.Closed? && v.editor.document == next
            && v.history == w.history && v.saves == w.saves && v.waits == w.waits && v.editor.draft == w.editor.draft
            && v.overridden == w.overridden && v.adopted == w.adopted
  {
  }

  // ---------------------------------------------------------------- clean means saved

  /** The response still due cannot make the editor clean: the server refused the save, or will. */
  predicate Hopeless(w: World, c: SaveCall)
    requires w.history != []
  {
    c.outcome.Refused? || (c.outcome.Sent? && c.base < Head(w))
  }

  /** Request k is a save whose response the editor still waits for, and which may have been taken. */
  predicate Awaited(w: World, k: nat)
    requires w.history != []
  {
    SaveDue(w, k) && w.saves[k].token == w.editor.saveToken && !Hopeless(w, w.saves[k])
  }

  predicate Exposed(w: World)
    requires w.history != []
  {
    exists k | 0 <= k < |w.saves| :: Awaited(w, k)
  }

  /** Clean means saved, and while a save is awaited the editor stays as it was sent. */
  ghost predicate InSync(w: World)
    requires w.history != []
  {
    && (w.editor.persistence.Clean? ==> w.editor.draft.document == w.editor.document)
    && (forall k: nat | Awaited(w, k) ::
          w.editor.persistence == Saving(w.saves[k].base) && w.editor.document == w.saves[k].document)
  }

  /** What clean promises: the document is the server's document of that revision. */
  ghost predicate CleanIsSaved(w: World) {
    w.editor.persistence.Clean? ==>
      var r := w.editor.persistence.revision;
      r < |w.history| && w.history[r].document == w.editor.document
  }

  lemma {:induction false} InSyncIsSaved(w: World)
    requires Core(w) && InSync(w)
    ensures CleanIsSaved(w)
  {
  }

  /** A handler of an earlier render changes the document. */
  predicate ChangesLate(w: World, e: Event) {
    e.Arrived? && WaitDue(w, e.wait)
    && Lands(w.editor, w.waits[e.wait].origin, w.waits[e.wait].render) && !Blocked(w.waits[e.wait].render)
  }

  /** While a save is awaited, the chat or a refused publish puts a conflict on the screen, or a handler
      of an earlier render changes the document. */
  predicate Disturbs(w: World, e: Event)
    requires w.history != []
  {
    Exposed(w) && (((e.ChatConflicted? || e.PublishConflicted?) && Step(w, e).editor.persistence.Conflict?)
                   || ChangesLate(w, e))
  }

  /** The awaited save is answered with a document that is not the one it sent. */
  predicate AnswersOther(w: World, e: Event) {
    e.Saved? && MayAnswer(w, e.call, e.answer) && w.saves[e.call].token == w.editor.saveToken
    && w.history[e.answer].document != w.saves[e.call].document
  }

  predicate Interrupts(w: World, e: Event)
    requires w.history != []
  {
    Disturbs(w, e) || AnswersOther(w, e)
  }

  lemma {:induction false} LocalSync(w: World, e: Event)
    requires Core(w) && InSync(w) && IsLocal(e)
    ensures InSync(Step(w, e))
  {
    hide Core;
    CoreParts(w);
    var v := Step(w, e);
    forall k: nat | Awaited(v, k)
      ensures v.editor.persistence == Saving(v.saves[k].base) && v.editor.document == v.saves[k].document
    {
      assert Awaited(w, k);
    }
  }

  lemma {:induction false} AutosaveSync(w: World)
    requires Core(w) && InSync(w)
    ensures InSync(DoAutosave(w))
  {
    hide Core;
    CoreParts(w);
    var v := DoAutosave(w);
    forall k: nat | Awaited(v, k)
      ensures v.editor.persistence == Saving(v.saves[k].base) && v.editor.document == v.saves[k].document
    {
      if k < |w.saves| {
        assert SaveInPlace(w, w.saves[k]);
        assert Awaited(w, k);
      }
    }
  }

  lemma {:induction false} ServerSync(w: World, k: nat, next: Document, layout: Layout)
    requires Core(w) && InSync(w)
    ensures InSync(DoServe(w, k)) && InSync(DoForeignWrite(w, next, layout))
  {
    hide Core;
    CoreParts(w);
    var u, v := DoServe(w, k), DoForeignWrite(w, next, layout);
    forall j: nat | Awaited(v, j)
      ensures v.editor.persistence == Saving(v.saves[j].base) && v.editor.document == v.saves[j].document
    {
      assert SaveInPlace(w, w.saves[j]);
      assert Awaited(w, j);
    }
    forall j: nat | Awaited(u, j)
      ensures u.editor.persistence == Saving(u.saves[j].base) && u.editor.document == u.saves[j].document
    {
      assert SaveInPlace(w, w.saves[j]);
      assert Awaited(w, j);
    }
  }

  // After a response, the only request that could still be awaited has been answered.
  lemma {:induction false} AnsweredSync(w: World, k: nat, s: State)
    requires Core(w) && InSync(w) && SaveDue(w, k) && s.saveToken == w.editor.saveToken
    requires w.saves[k].token == w.editor.saveToken || s == w.editor
    requires s.persistence.Clean? ==> s.draft.document == s.document
    ensures InSync(w.(editor := s, saves := Answered(w, k)))
  {
    hide Core;
    CoreParts(w);
    var v := w.(editor := s, saves := Answered(w, k));
    forall j: nat | Awaited(v, j)
      ensures v.editor.persistence == Saving(v.saves[j].base) && v.editor.document == v.saves[j].document
    {
      assert j != k && w.saves[j].token != w.saves[k].token;
      assert Awaited(w, j);
    }
  }

  lemma {:induction false} LearningSync(w: World, received: set<nat>, adopted: set<nat>, overridden: set<nat>,
                                        reread: set<nat>)
    requires w.history != [] && InSync(w)
    ensures InSync(w.(received := received, adopted := adopted, overridden := overridden, reread := reread))
  {
    var v := w.(received := received, adopted := adopted, overridden := overridden, reread := reread);
    forall k: nat | Awaited(v, k)
      ensures v.editor.persistence == Saving(v.saves[k].base) && v.editor.document == v.saves[k].document
    {
      assert Awaited(w, k);
    }
  }

  lemma {:induction false} SavedSync(w: World, k: nat, r: nat)
    requires Core(w) && InSync(w) && !AnswersOther(w, Saved(k, r))
    ensures InSync(DoSaved(w, k, r))
  {
    hide Core, InSync;
    CoreParts(w);
    if MayAnswer(w, k, r) {
      var c := w.saves[k];
      assert SaveInPlace(w, c);
      var s := SaveAccepted(w.editor, c.token, w.history[r]);
      SavedMatches(w, k, r);
      AnsweredSync(w, k, s);
      var v, u := w.(editor := s, saves := Answered(w, k)), DoSaved(w, k, r);
      LearningSync(v, u.received, u.adopted, u.overridden, u.reread);
    }
  }

  lemma {:induction false} SavedMatches(w: World, k: nat, r: nat)
    requires Core(w) && InSync(w) && MayAnswer(w, k, r) && !AnswersOther(w, Saved(k, r))
    ensures var s := SaveAccepted(w.editor, w.saves[k].token, w.history[r]);
            s.persistence.Clean? ==> s.draft.document == s.document
  {
    hide Core;
    CoreParts(w);
    assert SaveInPlace(w, w.saves[k]);
    if w.saves[k].token == w.editor.saveToken { assert Awaited(w, k); }
  }

  lemma {:induction false} SaveFailedSync(w: World, k: nat, seen: Option<nat>, offline: bool)
    requires Core(w) && InSync(w)
    ensures InSync(DoSaveConflict(w, k, seen)) && InSync(DoSaveLost(w, k, offline))
  {
    hide Core, InSync;
    CoreParts(w);
    SyncParts(w);
    if SaveDue(w, k) {
      var c := w.saves[k];
      AnsweredSync(w, k, SaveFailed(w.editor, c.token, c.base, offline));
      if c.outcome.Refused? {
        var s := SaveRejected(w.editor, c.token, c.base, Remote(w, seen));
        AnsweredSync(w, k, s);
        LearningSync(w.(editor := s, saves := Answered(w, k)),
                     w.received + (if c.token == w.editor.saveToken then Seen(w, seen) else {}),
                     w.adopted, w.overridden, w.reread);
      }
    }
  }

  lemma {:induction false} SyncParts(w: World)
    requires w.history != [] && InSync(w)
    ensures w.editor.persistence.Clean? ==> w.editor.draft.document == w.editor.document
    ensures forall k: nat | Awaited(w, k) :: w.editor.persistence.Saving?
  {
  }

  /** Replacing the editor's state when no save is awaited, or when the awaited one keeps its place. */
  lemma {:induction false} EditorSync(w: World, s: State)
    requires Core(w) && InSync(w)
    requires s.persistence.Clean? ==> s.draft.document == s.document
    requires || s.saveToken > w.editor.saveToken
             || (s.saveToken == w.editor.saveToken && !Exposed(w))
             || (s.saveToken == w.editor.saveToken && s.persistence == w.editor.persistence
                 && s.document == w.editor.document)
    ensures InSync(w.(editor := s))
  {
    hide Core;
    CoreParts(w);
    var v := w.(editor := s);
    forall k: nat | Awaited(v, k)
      ensures v.editor.persistence == Saving(v.saves[k].base) && v.editor.document == v.saves[k].document
    {
      assert SaveInPlace(w, w.saves[k]);
      assert Awaited(w, k);
    }
  }

  lemma {:induction false} RemoteSync(w: World)
    requires Core(w) && InSync(w)
    ensures InSync(DoTakeRemote(w)) && InSync(DoKeep(w))
  {
    hide Core, InSync;
    CoreParts(w);
    SyncParts(w);
    if w.editor.persistence.Conflict? {
      assert !Exposed(w);
      EditorSync(w, UseRemote(w.editor));
      EditorSync(w, KeepLocal(w.editor));
      var r := w.editor.persistence.remote.revision;
      LearningSync(w.(editor := UseRemote(w.editor)), w.received, w.adopted + {r}, w.overridden, w.reread);
      LearningSync(w.(editor := KeepLocal(w.editor)), w.received, w.adopted, w.overridden + {r}, w.reread);
    }
  }

  lemma {:induction false} RequestsSync(w: World, validates: seq<ValidateCall>, publishes: seq<PublishCall>,
                                        waits: seq<Waiting>, verified: set<Verified>)
    requires w.history != [] && InSync(w)
    ensures InSync(w.(validates := validates, publishes := publishes, waits := waits, verified := verified))
  {
    var v := w.(validates := validates, publishes := publishes, waits := waits, verified := verified);
    forall k: nat | Awaited(v, k)
      ensures v.editor.persistence == Saving(v.saves[k].base) && v.editor.document == v.saves[k].document
    {
      assert Awaited(w, k);
    }
  }

  lemma {:induction false} LateSync(w: World, e: Event)
    requires Core(w) && InSync(w) && (e.Wait? || e.Arrived?) && !Interrupts(w, e)
    ensures InSync(Step(w, e))
  {
    hide Core, InSync;
    CoreParts(w);
    SyncParts(w);
    var v := Step(w, e);
    EditorSync(w, v.editor);
    RequestsSync(w.(editor := v.editor), v.validates, v.publishes, v.waits, v.verified);
  }

  // Validating and publishing leave alone what is saved and what is awaited.
  predicate LeavesSaves(w: World, v: World) {
    && v == w.(editor := v.editor, validates := v.validates, publishes := v.publishes, verified := v.verified)
    && v.editor.saveToken == w.editor.saveToken && v.editor.persistence == w.editor.persistence
    && v.editor.document == w.editor.document && v.editor.draft == w.editor.draft
  }

  lemma {:induction false} GateLeaves(w: World, e: Event)
    requires w.history != []
    requires e.Validate? || e.PublishDraft? || e.Reported? || e.ReportLost? || e.PublishDone? || e.PublishRejected?
             || e.ChatReported?
    ensures LeavesSaves(w, Step(w, e))
  {
    hide Step, LeavesSaves;
    if IsPublishing(e) { PublishingLeaves(w, e); } else { ReportLeaves(w, e); }
  }

  lemma {:induction false} PublishingLeaves(w: World, e: Event)
    requires w.history != [] && (e.PublishDraft? || e.PublishDone? || e.PublishRejected?)
    ensures LeavesSaves(w, Step(w, e))
  {
  }

  lemma {:induction false} ReportLeaves(w: World, e: Event)
    requires w.history != [] && (e.Validate? || e.Reported? || e.ReportLost? || e.ChatReported?)
    ensures LeavesSaves(w, Step(w, e))
  {
  }

  lemma {:induction false} GateSync(w: World, e: Event)
    requires Core(w) && InSync(w)
    requires e.Validate? || e.PublishDraft? || e.Reported? || e.ReportLost? || e.PublishDone? || e.PublishRejected?
             || e.ChatReported?
    ensures InSync(Step(w, e))
  {
    CoreHistory(w);
    SyncParts(w);
    GateLeaves(w, e);
    hide Core, InSync, Step;
    var v := Step(w, e);
    EditorSync(w, v.editor);
    RequestsSync(w.(editor := v.editor), v.validates, v.publishes, v.waits, v.verified);
  }

  lemma {:induction false} ConflictSync(w: World, e: Event)
    requires Core(w) && InSync(w) && (e.ChatConflicted? || e.PublishConflicted?) && !Interrupts(w, e)
    ensures InSync(Step(w, e))
  {
    hide Core, InSync;
    CoreParts(w);
    SyncParts(w);
    var v := Step(w, e);
    EditorSync(w, v.editor);
    LearningSync(w.(editor := v.editor), v.received, v.adopted, v.overridden, v.reread);
  }

  lemma {:induction false} ChatSavedSync(w: World, r: nat)
    requires Core(w) && InSync(w)
    ensures InSync(DoChatSaved(w, r))
  {
    hide Core, InSync;
    CoreParts(w);
    SyncParts(w);
    var v := DoChatSaved(w, r);
    EditorSync(w, v.editor);
    LearningSync(w.(editor := v.editor), v.received, v.adopted, v.overridden, v.reread);
  }

  /** Every event but such an interruption keeps the editor in step with what was sent. */
  lemma {:induction false} StepSync(w: World, e: Event)
    requires Core(w) && InSync(w) && !Interrupts(w, e)
    ensures Step(w, e).history != [] && InSync(Step(w, e))
  {
    StepCore(w, e);
    if IsLocal(e) {
      LocalSync(w, e);
      return;
    }
    if e.ChatConflicted? || e.PublishConflicted? {
      ConflictSync(w, e);
      return;
    }
    if e.Wait? || e.Arrived? {
      LateSync(w, e);
      return;
    }
    if e.Validate? || e.PublishDraft? || e.Reported? || e.ReportLost? || e.PublishDone? || e.PublishRejected?
       || e.ChatReported? {
      GateSync(w, e);
      return;
    }
    hide Core, InSync, DoAutosave, DoServe, DoSaved, DoSaveConflict, DoSaveLost, DoTakeRemote, DoKeep, DoForeignWrite,
         DoChatSaved;
    match e
    case TakeRemote => RemoteSync(w);
    case Keep => RemoteSync(w);
    case Autosave => AutosaveSync(w);
    case ForeignWrite(d, l) => ServerSync(w, 0, d, l);
    case Serve(k) => ServerSync(w, k, "", "");
    case Saved(k, r) => SavedSync(w, k, r);
    case SaveConflict(k, seen) => SaveFailedSync(w, k, seen, false);
    case SaveLost(k, offline) => SaveFailedSync(w, k, None, offline);
    case ChatSaved(r) => ChatSavedSync(w, r);
  }

  /** No event of the run interrupts a save. */
  ghost predicate Quiet(w: World, es: seq<Event>)
    requires Core(w)
    decreases |es|
  {
    es == [] || (!Interrupts(w, es[0]) && (StepCore(w, es[0]); Quiet(Step(w, es[0]), es[1..])))
  }

  /** In every run without such an interruption, clean means saved, from beginning to end. */
  lemma {:induction false} QuietRuns(w: World, es: seq<Event>)
    requires Core(w) && InSync(w) && Quiet(w, es)
    ensures InSync(Run(w, es)) && CleanIsSaved(Run(w, es))
    decreases |es|
  {
    hide Core, InSync, Step, CleanIsSaved, Interrupts;
    if es == [] {
      InSyncIsSaved(w);
    } else {
      StepCore(w, es[0]);
      StepSync(w, es[0]);
      QuietRuns(Step(w, es[0]), es[1..]);
    }
  }

  // The revision that a save makes, or has made.
  function Made(w: World, k: nat): nat
    requires k < |w.saves|
  {
    if w.saves[k].outcome.Applied? then w.saves[k].outcome.revision else |w.history|
  }

  // The late response of a save that was interrupted and then edited over.
  lemma {:induction false} LateSave(w: World, k: nat)
    requires Core(w) && Awaited(w, k) && w.editor.document != w.saves[k].document
    ensures var v := Step(w, Serve(k));
            !CleanIsSaved(Step(v, Saved(k, Made(w, k)))) && !AnswersOther(v, Saved(k, Made(w, k)))
  {
    var v := DoServe(w, k);
    ServeCore(w, k);
    assert SaveInPlace(v, v.saves[k]);
    CoreParts(v);
    assert v.saves[k].outcome == Applied(Made(w, k));
  }

  // What an interruption leaves: the awaited save, and a document that can be edited, at once or once the
  // user keeps it.
  predicate Editable(w: World, v: World) {
    && v.saves == w.saves && v.history == w.history && v.editor.saveToken == w.editor.saveToken
    && (Blocked(v.editor) ==> v.editor.persistence.Conflict? && !v.editor.publish.Publishing?)
  }

  lemma {:induction false} AfterConflict(w: World, e: Event)
    requires w.history != [] && w.editor.persistence.Saving? && (e.ChatConflicted? || e.PublishConflicted?)
    requires Step(w, e).editor.persistence.Conflict?
    ensures Editable(w, Step(w, e))
  {
  }

  lemma {:induction false} AfterLate(w: World, e: Event)
    requires w.history != [] && ChangesLate(w, e)
    ensures Editable(w, Step(w, e))
  {
  }

  lemma {:induction false} AfterInterrupt(w: World, e: Event, k: nat)
    requires Core(w) && InSync(w) && Disturbs(w, e) && Awaited(w, k)
    ensures var v := Step(w, e);
            && Awaited(v, k) && v.saves == w.saves && v.history == w.history
            && (Blocked(v.editor) ==> v.editor.persistence.Conflict? && !v.editor.publish.Publishing?)
  {
    CoreHistory(w);
    SyncParts(w);
    hide Core, InSync, Step, ChangesLate, Blocked;
    if ChangesLate(w, e) { AfterLate(w, e); } else { AfterConflict(w, e); }
  }

  lemma {:induction false} AfterKeep(w: World, k: nat)
    requires w.history != [] && Awaited(w, k)
             && (Blocked(w.editor) ==> w.editor.persistence.Conflict? && !w.editor.publish.Publishing?)
    ensures var v := Step(w, Keep); Awaited(v, k) && v.saves == w.saves && v.history == w.history && !Blocked(v.editor)
  {
  }

  lemma {:induction false} AfterEdit(w: World, k: nat, next: Document)
    requires w.history != [] && Awaited(w, k) && !Blocked(w.editor)
    ensures var v := Step(w, Edit(next));
            Awaited(v, k) && v.saves == w.saves && v.editor.document == next && v.history == w.history
  {
  }

  /** Editing on before the awaited response arrives, after keeping the local document if need be. */
  lemma {:induction false} DisturbedRunLies(w: World, e: Event, k: nat)
    requires Core(w) && InSync(w) && Disturbs(w, e) && Awaited(w, k)
    ensures Core(Step(w, e))
    ensures var next := if w.saves[k].document == "" then "x" else "";
            var es := [Keep, Edit(next), Serve(k), Saved(k, Made(w, k))];
            Quiet(Step(w, e), es) && !CleanIsSaved(Run(Step(w, e), es))
  {
    hide Core, InSync, Made;
    hide Step, AnswersOther;
    var next := if w.saves[k].document == "" then "x" else "";
    StepCore(w, e);
    AfterInterrupt(w, e, k);
    var w1 := Step(w, e);
    StepCore(w1, Keep);
    AfterKeep(w1, k);
    var w2 := Step(w1, Keep);
    StepCore(w2, Edit(next));
    AfterEdit(w2, k, next);
    var w3 := Step(w2, Edit(next));
    LateSave(w3, k);
    var r := Made(w, k);
    assert Made(w3, k) == r by { MadeSame(w, w3, k); }
    FourSteps(w1, Keep, Edit(next), Serve(k), Saved(k, r));
  }

  lemma {:induction false} MadeSame(w: World, v: World, k: nat)
    requires k < |w.saves| && v.saves == w.saves && v.history == w.history
    ensures Made(v, k) == Made(w, k)
  {
  }

  lemma {:induction false} FourSteps(w: World, a: Event, b: Event, c: Event, d: Event)
    requires Core(w) && forall e <- [a, b, c, d] :: !e.ChatConflicted? && !e.PublishConflicted? && !e.Arrived?
    requires !a.Saved? && !b.Saved? && !c.Saved?
    ensures Run(w, [a, b, c, d]) == Step(Step(Step(Step(w, a), b), c), d)
    ensures !AnswersOther(Step(Step(Step(w, a), b), c), d) ==> Quiet(w, [a, b, c, d])
  {
    hide Core, Step;
    StepCore(w, a);
    var w1 := Step(w, a);
    StepCore(w1, b);
    var w2 := Step(w1, b);
    StepCore(w2, c);
    var w3 := Step(w2, c);
    StepCore(w3, d);
    var w4 := Step(w3, d);
    assert [a, b, c, d][1..] == [b, c, d] && [b, c, d][1..] == [c, d] && [c, d][1..] == [d] && [d][1..] == [];
    assert a in [a, b, c, d] && b in [a, b, c, d] && c in [a, b, c, d] && d in [a, b, c, d];
    assert Run(w4, []) == w4 && Quiet(w4, []);
    assert Run(w3, [d]) == w4;
    assert Run(w2, [c, d]) == w4;
    assert Run(w1, [b, c, d]) == w4;
    if !AnswersOther(w3, d) {
      assert Quiet(w3, [d]);
      assert Quiet(w2, [c, d]);
      assert Quiet(w1, [b, c, d]);
    }
  }

  /** Exactly: an event lets the editor call unsaved work clean, now or later, if and only if, while the
      response of a save that the server may have taken is still due, it shows a conflict or is the late
      change of a handler that had to wait, or it is that response and carries another document. */
  lemma {:induction false} CleanFailsExactly(w: World, e: Event)
    requires Core(w) && InSync(w)
    ensures Core(Step(w, e))
    ensures Interrupts(w, e) <==> exists es :: Quiet(Step(w, e), es) && !CleanIsSaved(Run(Step(w, e), es))
  {
    hide Core, InSync, Step, CleanIsSaved, Run, Quiet, AnswersOther;
    StepCore(w, e);
    if Disturbs(w, e) {
      var k: nat :| k < |w.saves| && Awaited(w, k);
      DisturbedRunLies(w, e, k);
      assert exists es :: Quiet(Step(w, e), es) && !CleanIsSaved(Run(Step(w, e), es));
    } else if AnswersOther(w, e) {
      OtherAnswerLies(w, e);
      QuietNow(Step(w, e));
      assert Quiet(Step(w, e), []) && !CleanIsSaved(Run(Step(w, e), []));
    } else {
      StepSync(w, e);
      forall es | Quiet(Step(w, e), es) ensures CleanIsSaved(Run(Step(w, e), es)) { QuietRuns(Step(w, e), es); }
    }
  }

  lemma {:induction false} QuietNow(w: World)
    requires Core(w)
    ensures Quiet(w, []) && Run(w, []) == w
  {
  }

  lemma {:induction false} OtherAnswerLies(w: World, e: Event)
    requires Core(w) && InSync(w) && AnswersOther(w, e)
    ensures !CleanIsSaved(Step(w, e))
  {
    CoreParts(w);
    assert SaveInPlace(w, w.saves[e.call]);
    assert Awaited(w, e.call);
  }

  predicate SameUpTo(h: seq<Draft>, g: seq<Draft>, n: nat) { |h| == |g| && n <= |h| && h[..n] == g[..n] && History(g) }

  /** What the client can tell from an answer: if it carries the revision that follows the base of the
      save, clean is right whatever the server holds beyond that; if it carries any other revision, it
      is what others wrote that decides. */
  lemma {:induction false} RevisionDecides(w: World, k: nat, r: nat)
    requires Core(w) && InSync(w) && MayAnswer(w, k, r) && w.saves[k].token == w.editor.saveToken
    ensures r == w.saves[k].base + 1 <==>
            forall h | SameUpTo(w.history, h, w.saves[k].base + 2) :: CleanIsSaved(DoSaved(w.(history := h), k, r))
  {
    CoreParts(w);
    var c := w.saves[k];
    assert SaveInPlace(w, c);
    assert Awaited(w, k);
    if r == c.base + 1 {
      forall h | SameUpTo(w.history, h, c.base + 2) ensures CleanIsSaved(DoSaved(w.(history := h), k, r)) {
        assert h[r] == h[..c.base + 2][r];
      }
    } else {
      var h := w.history[r := w.history[r].(document := if c.document == "" then "x" else "")];
      assert SameUpTo(w.history, h, c.base + 2);
      assert !CleanIsSaved(DoSaved(w.(history := h), k, r));
    }
  }

  // ---------------------------------------------------------------- runs that end clean with unsaved work

  const FRESH := Draft("draft", 0, "a", "", "w", "user", "local-user")

  /** The run so far leaves the editor in step, and the event interrupts it. */
  ghost predicate Caught(es: seq<Event>, e: Event) {
    Core(Start(FRESH, [FRESH])) && InSync(Run(Start(FRESH, [FRESH]), es))
      && Interrupts(Run(Start(FRESH, [FRESH]), es), e)
  }

  ghost predicate EndsLying(es: seq<Event>, e: Event) {
    Core(Start(FRESH, [FRESH])) && exists more :: !CleanIsSaved(Run(Start(FRESH, [FRESH]), es + [e] + more))
  }

  lemma {:induction false} CaughtLies(es: seq<Event>, e: Event)
    requires Caught(es, e)
    ensures EndsLying(es, e)
  {
    hide Core, InSync, Step, Run, Quiet, CleanIsSaved, Interrupts;
    var w0 := Start(FRESH, [FRESH]);
    var w := Run(w0, es);
    CleanFailsExactly(w, e);
    var more :| Quiet(Step(w, e), more) && !CleanIsSaved(Run(Step(w, e), more));
    RunConcat(w0, es, [e] + more);
    RunFirst(w, e, more);
    assert es + [e] + more == es + ([e] + more);
  }

  lemma {:induction false} RunFirst(w: World, e: Event, es: seq<Event>)
    requires Core(w)
    ensures Core(Step(w, e)) && Run(w, [e] + es) == Run(Step(w, e), es)
  {
    StepCore(w, e);
    assert ([e] + es)[1..] == es;
  }

  /** Each of the three happens. The chat meets the revision that the editor's own autosave has just made,
      and the user keeps the local document and types on. A sub-workflow's definition, asked for before
      the autosave, arrives after it has started. Somebody else writes between the server's taking a
      save and its answer. */
  lemma {:induction false} CleanCanLie(next: Document, other: Document)
    requires next != other
    ensures EndsLying([Edit(next)] + [Autosave, Serve(0)], ChatConflicted(1))
    ensures EndsLying([Edit(next)] + [Wait(Subworkflow)] + [Autosave, Serve(0)], Arrived(0, other, None))
    ensures EndsLying([Edit(next)] + [Autosave, Serve(0)] + [ForeignWrite(other, "")], Saved(0, 2))
  {
    hide Core, InSync, Step, Run, Interrupts, Caught;
    StartCore(FRESH, [FRESH]);
    ConflictCaught(next);
    LateEditCaught(next, other);
    OtherAnswerCaught(next, other);
    CaughtLies([Edit(next)] + [Autosave, Serve(0)], ChatConflicted(1));
    CaughtLies([Edit(next)] + [Wait(Subworkflow)] + [Autosave, Serve(0)], Arrived(0, other, None));
    CaughtLies([Edit(next)] + [Autosave, Serve(0)] + [ForeignWrite(other, "")], Saved(0, 2));
  }

  // The first edit, and the state in which a save of it awaits its response.
  lemma {:induction false} FirstEdit(next: Document) returns (w: World)
    ensures Core(Start(FRESH, [FRESH])) && Run(Start(FRESH, [FRESH]), [Edit(next)]) == w && Core(w) && InSync(w)
    ensures w.editor.persistence == Dirty(Head(w)) && w.editor.publish.Closed? && w.editor.document == next
    ensures w.history == [FRESH] && w.saves == [] && w.waits == [] && w.editor.draft == FRESH
  {
    hide Core, InSync, Gate, Run, Step;
    var w0 := Start(FRESH, [FRESH]);
    StartCore(FRESH, [FRESH]);
    RunNothing(w0);
    Edited(w0, next);
    assert [] + [Edit(next)] == [Edit(next)];
    w := QuietStep(w0, [], Edit(next));
  }

  lemma {:induction false} FirstSave(es: seq<Event>, w: World) returns (v: World)
    requires Core(Start(FRESH, [FRESH])) && Run(Start(FRESH, [FRESH]), es) == w && InSync(w)
    requires w.history == [FRESH] && w.editor.persistence == Dirty(0) && w.saves == []
    ensures Run(Start(FRESH, [FRESH]), es + [Autosave, Serve(0)]) == v && Core(v) && InSync(v)
    ensures Awaited(v, 0) && v.saves[0].outcome == Applied(1) && v.saves[0].document == w.editor.document
    ensures |v.history| == 2 && v.history[1].id == FRESH.id && v.waits == w.waits && v.editor == StartSave(w.editor)
  {
    hide Core, InSync, Run, Step, Awaited;
    var w0 := Start(FRESH, [FRESH]);
    AutosaveServed(w);
    var u := QuietStep(w0, es, Autosave);
    v := QuietStep(w0, es + [Autosave], Serve(0));
    assert es + [Autosave] + [Serve(0)] == es + [Autosave, Serve(0)];
  }

  lemma {:induction false} ConflictCaught(next: Document)
    ensures Caught([Edit(next)] + [Autosave, Serve(0)], ChatConflicted(1))
  {
    hide Core, InSync, Run, Step, Exposed, Awaited, Interrupts;
    var w1 := FirstEdit(next);
    var w := FirstSave([Edit(next)], w1);
    AwaitedExposes(w, 0);
    ConflictDisturbs(w, 1);
  }

  lemma {:induction false} AwaitedExposes(w: World, k: nat)
    requires w.history != [] && Awaited(w, k)
    ensures Exposed(w)
  {
  }

  lemma {:induction false} ConflictDisturbs(w: World, r: nat)
    requires w.history != [] && Exposed(w) && r < |w.history| && w.history[r].id == w.editor.draft.id
    ensures Interrupts(w, ChatConflicted(r))
  {
  }

  lemma {:induction false} LateEditCaught(next: Document, other: Document)
    ensures Caught([Edit(next)] + [Wait(Subworkflow)] + [Autosave, Serve(0)], Arrived(0, other, None))
  {
    hide Core, InSync, Run, Step, Exposed, Awaited, Interrupts;
    var w1 := FirstEdit(next);
    Waits(w1);
    var w2 := QuietStep(Start(FRESH, [FRESH]), [Edit(next)], Wait(Subworkflow));
    var w := FirstSave([Edit(next)] + [Wait(Subworkflow)], w2);
    AwaitedExposes(w, 0);
    LateDisturbs(w, 0, other);
  }

  lemma {:induction false} LateDisturbs(w: World, k: nat, next: Document)
    requires w.history != [] && Exposed(w) && WaitDue(w, k) && w.waits[k].origin.Subworkflow?
    requires w.editor.draft.id == w.waits[k].render.draft.id && w.editor.generation == w.waits[k].render.generation
    requires !Blocked(w.waits[k].render)
    ensures Interrupts(w, Arrived(k, next, None))
  {
  }

  lemma {:induction false} Waits(w: World)
    requires w.history != []
    ensures Step(w, Wait(Subworkflow)) == w.(waits := w.waits + [Waiting(Subworkflow, w.editor, true)])
  {
  }

  lemma {:induction false} OtherAnswerCaught(next: Document, other: Document)
    requires next != other
    ensures Caught([Edit(next)] + [Autosave, Serve(0)] + [ForeignWrite(other, "")], Saved(0, 2))
  {
    hide Core, InSync, Run, Step, Interrupts;
    var w1 := FirstEdit(next);
    var w2 := FirstSave([Edit(next)], w1);
    Written(w2, other, "");
    var w := QuietStep(Start(FRESH, [FRESH]), [Edit(next)] + [Autosave, Serve(0)], ForeignWrite(other, ""));
    OtherInterrupts(w, Saved(0, 2));
  }

  lemma {:induction false} OtherInterrupts(w: World, e: Event)
    requires w.history != [] && AnswersOther(w, e)
    ensures Interrupts(w, e)
  {
  }

  lemma {:induction false} Written(w: World, next: Document, layout: Layout)
    requires w.history != []
    ensures Step(w, ForeignWrite(next, layout)) == w.(history := w.history + [Next(w, next, layout)])
  {
  }

  // One more quiet step of a run.
  lemma {:induction false} QuietStep(w0: World, es: seq<Event>, e: Event) returns (v: World)
    requires Core(w0) && InSync(Run(w0, es)) && !e.ChatConflicted? && !e.PublishConflicted? && !e.Arrived? && !e.Saved?
    ensures v == Step(Run(w0, es), e) && Run(w0, es + [e]) == v && InSync(v) && Core(v)
  {
    hide Core, InSync, Step, Run, Exposed;
    var w := Run(w0, es);
    StepCore(w, e);
    v := Step(w, e);
    StepSync(w, e);
    RunConcat(w0, es, [e]);
    RunFirst(w, e, []);
    RunNothing(v);
    assert [e] + [] == [e];
  }

  // ---------------------------------------------------------------- the publish gate

  predicate Backed(w: World, r: Request) { Verified(r.draftId, r.documentDigest, r.semanticDigest) in w.verified }

  predicate HasRequest(p: Publish) { ShowsRequest(p) || p.Publishing? }

  /** What the editor shows as valid, offers to publish or has sent is what a report found valid. */
  predicate Shown(w: World, s: State) {
    && (s.validation.Valid? ==>
          var v := s.validation;
          Verified(v.evidence.draftId, v.evidence.documentDigest, v.semanticDigest) in w.verified)
    && (HasRequest(s.publish) ==> Backed(w, s.publish.request))
  }

  /** The published workflow answers a request made since the last edit. */
  ghost predicate PublishedInPlace(w: World, s: State) {
    s.publish.Published? ==>
      exists k | 0 <= k < |w.publishes| :: Names(w.publishes[k], s)
  }

  predicate Names(c: PublishCall, s: State) {
    s.publish.Published? && Answers(s.publish.result, c.request, c.expected) && c.generation == s.generation
  }

  ghost predicate Gate(w: World) {
    && Shown(w, w.editor) && PublishedInPlace(w, w.editor)
    && forall k | 0 <= k < |w.publishes| :: Backed(w, w.publishes[k].request)
  }

  lemma {:induction false} GateStep(w: World, e: Event)
    requires Core(w) && Gate(w)
    ensures Gate(Step(w, e))
  {
    hide Core;
    CoreParts(w);
    var v := Step(w, e);
    GrowingLogs(w, e);
    EditorGate(w, e);
    forall k | 0 <= k < |v.publishes| ensures Backed(v, v.publishes[k].request) {
      if k < |w.publishes| { assert v.publishes[k] == w.publishes[k]; }
    }
  }

  /** Reports and publish requests are only ever added. A request is sent only from a clean editor, for
      the saved document's digest. */
  lemma {:induction false} GrowingLogs(w: World, e: Event)
    requires Core(w)
    ensures var v := Step(w, e);
            && w.verified <= v.verified && w.publishes <= v.publishes && |v.publishes| <= |w.publishes| + 1
            && (|w.publishes| < |v.publishes| ==>
                  var r := v.publishes[|w.publishes|].request;
                  && e.PublishDraft? && w.editor.persistence == Clean(r.revision)
                  && Matches(w.editor.validation, EvidenceOf(w.editor))
                  && HasRequest(v.editor.publish) && r == v.editor.publish.request
                  && r.draftId == w.editor.draft.id && r.documentDigest == w.editor.draft.DocumentDigest())
  {
    hide Core;
  }

  lemma {:induction false} EditorGate(w: World, e: Event)
    requires Core(w) && Gate(w)
    ensures Shown(Step(w, e), Step(w, e).editor) && PublishedInPlace(Step(w, e), Step(w, e).editor)
  {
    CoreParts(w);
    hide Core, Step, Gate, Shown, PublishedInPlace;
    if IsLocal(e) {
      LocalGate(w, e);
    } else if e.Reported? || e.ReportLost? || e.ChatReported? || e.Validate? {
      ReportGate(w, e);
    } else if e.PublishDraft? || e.PublishDone? || e.PublishConflicted? || e.PublishRejected? {
      PublishGate(w, e);
    } else {
      SaveGate(w, e);
    }
  }

  lemma {:induction false} LocalGate(w: World, e: Event)
    requires Gate(w) && IsLocal(e) && w.history != []
    ensures Shown(Step(w, e), Step(w, e).editor) && PublishedInPlace(Step(w, e), Step(w, e).editor)
  {
  }

  lemma {:induction false} ReportGate(w: World, e: Event)
    requires Gate(w) && w.history != [] && (e.Reported? || e.ReportLost? || e.ChatReported? || e.Validate?)
    ensures Shown(Step(w, e), Step(w, e).editor) && PublishedInPlace(Step(w, e), Step(w, e).editor)
  {
  }

  lemma {:induction false} PublishGate(w: World, e: Event)
    requires Gate(w) && w.history != []
    requires e.PublishDraft? || e.PublishDone? || e.PublishConflicted? || e.PublishRejected?
    ensures Shown(Step(w, e), Step(w, e).editor) && PublishedInPlace(Step(w, e), Step(w, e).editor)
  {
    if e.PublishDone? && e.call < |w.publishes| {
      var v := Step(w, e);
      assert v.publishes == w.publishes && Backed(w, w.publishes[e.call].request);
      if v.editor.publish != w.editor.publish && v.editor.publish.Published? {
        assert Names(w.publishes[e.call], v.editor);
      }
    }
  }

  // What a save, a conflict or a chat event does to the dialogs is to close them.
  lemma {:induction false} SaveGate(w: World, e: Event)
    requires Gate(w) && w.history != [] && !IsLocal(e)
    requires !e.Reported? && !e.ReportLost? && !e.ChatReported? && !e.Validate?
    requires !e.PublishDraft? && !e.PublishDone? && !e.PublishConflicted? && !e.PublishRejected?
    ensures Shown(Step(w, e), Step(w, e).editor) && PublishedInPlace(Step(w, e), Step(w, e).editor)
  {
    var v := Step(w, e);
    assert v.verified == w.verified && v.publishes == w.publishes;
    assert (v.editor.validation == w.editor.validation && v.editor.publish == w.editor.publish
            && v.editor.generation == w.editor.generation)
           || (v.editor.validation == NotRun && v.editor.publish == Closed);
  }

  lemma {:induction false} GateRuns(w: World, es: seq<Event>)
    requires Core(w) && Gate(w)
    ensures Gate(Run(w, es))
    decreases |es|
  {
    hide Core, Gate, Step;
    if es != [] {
      StepCore(w, es[0]);
      GateStep(w, es[0]);
      GateRuns(Step(w, es[0]), es[1..]);
    }
  }

  /** In every run: a publish request is sent only from a clean editor, it names a revision of the server
      with the digest of that revision's document, and a report found exactly that document valid. When
      clean means saved, the document in the editor is the one that was found valid. */
  lemma {:induction false} PublishOnlyVerified(d: Draft, history: seq<Draft>, es: seq<Event>, e: Event)
    requires History(history) && d.revision < |history| && history[d.revision] == d
    ensures Core(Start(d, history))
    ensures var w := Run(Start(d, history), es);
            var v := Step(w, e);
            |w.publishes| < |v.publishes| ==>
              var r := v.publishes[|w.publishes|].request;
              && w.editor.persistence == Clean(r.revision) && r.revision < |w.history|
              && r.documentDigest == DigestOf(w.history[r.revision].document)
              && Verified(r.draftId, r.documentDigest, r.semanticDigest) in w.verified
              && (CleanIsSaved(w) ==> r.documentDigest == DigestOf(w.editor.document))
  {
    hide Core, Step, Run, InSync, Gate;
    StartCore(d, history);
    GateRuns(Start(d, history), es);
    PublishStep(Run(Start(d, history), es), e);
  }

  lemma {:induction false} PublishStep(w: World, e: Event)
    requires Core(w) && Gate(w)
    ensures w.history != []
    ensures var v := Step(w, e);
            |w.publishes| < |v.publishes| ==>
              var r := v.publishes[|w.publishes|].request;
              && w.editor.persistence == Clean(r.revision) && r.revision < |w.history|
              && r.documentDigest == DigestOf(w.history[r.revision].document)
              && Verified(r.draftId, r.documentDigest, r.semanticDigest) in w.verified
              && (CleanIsSaved(w) ==> r.documentDigest == DigestOf(w.editor.document))
  {
    hide Core;
    CoreParts(w);
    GrowingLogs(w, e);
    GateStep(w, e);
    if e.PublishDraft? { assert Step(w, e).verified == w.verified; }
    hide Step;
    var v := Step(w, e);
    if |w.publishes| < |v.publishes| { assert Backed(v, v.publishes[|w.publishes|].request); }
  }

  /** The document changes by an edit or by a draft from the chat. */
  predicate IsEdit(w: World, e: Event) {
    || ((e.Edit? || e.Rename? || e.Place?) && !Blocked(w.editor)) || ChangesLate(w, e)
    || (e.ChatSaved? && e.revision < |w.history|)
  }

  ghost function Edits(w: World, es: seq<Event>): nat
    requires Core(w)
    decreases |es|
  {
    if es == [] then 0
    else StepCore(w, es[0]); (if IsEdit(w, es[0]) then 1 else 0) + Edits(Step(w, es[0]), es[1..])
  }

  // The document and the count of its changes stay, or the document is replaced by the remote one.
  predicate CountsEdit(w: World, e: Event, v: World) {
    && v.editor.generation == w.editor.generation + (if IsEdit(w, e) then 1 else 0)
    && (!IsEdit(w, e) && v.editor.document != w.editor.document ==>
          e.TakeRemote? && w.editor.persistence.Conflict?)
  }

  lemma {:induction false} LocalCounts(w: World, e: Event)
    requires w.history != [] && (IsLocal(e) || IsSaving(e))
    ensures CountsEdit(w, e, Step(w, e))
  {
  }

  lemma {:induction false} OtherCounts(w: World, e: Event)
    requires w.history != [] && !IsLocal(e) && !IsSaving(e)
    ensures CountsEdit(w, e, Step(w, e))
  {
  }

  lemma {:induction false} GenerationStep(w: World, e: Event)
    requires Core(w)
    ensures w.history != []
    ensures Step(w, e).editor.generation == w.editor.generation + if IsEdit(w, e) then 1 else 0
    ensures !IsEdit(w, e) && Step(w, e).editor.document != w.editor.document ==>
            e.TakeRemote? && w.editor.persistence.Conflict?
  {
    CoreHistory(w);
    hide Core, Step, IsEdit;
    if IsLocal(e) || IsSaving(e) { LocalCounts(w, e); } else { OtherCounts(w, e); }
  }

  lemma {:induction false} GenerationCounts(w: World, es: seq<Event>)
    requires Core(w)
    ensures Run(w, es).editor.generation == w.editor.generation + Edits(w, es)
    decreases |es|
  {
    hide Core, Step, IsEdit;
    if es != [] {
      StepCore(w, es[0]);
      GenerationStep(w, es[0]);
      GenerationCounts(Step(w, es[0]), es[1..]);
    }
  }

  /** In every run that ends with the editor showing a published workflow: the result answers a request
      that was sent, field by field, and if the request had been sent before some point of the run,
      then no edit was made after that point. */
  lemma {:induction false} PublishedAnswers(w: World, es: seq<Event>)
    requires Core(w) && Gate(w)
    ensures var v := Run(w, es);
            v.editor.publish.Published? ==>
              exists k | 0 <= k < |v.publishes| ::
                && Names(v.publishes[k], v.editor) && Backed(v, v.publishes[k].request)
                && PublishInPlace(v, v.publishes[k])
                && (k < |w.publishes| && w.publishes[k] == v.publishes[k] ==> Edits(w, es) == 0)
  {
    hide Core, Gate, Run, PublishInPlace;
    var v := Run(w, es);
    GateRuns(w, es);
    GenerationCounts(w, es);
    if v.editor.publish.Published? {
      PublishedByGate(v);
      var k :| 0 <= k < |v.publishes| && Names(v.publishes[k], v.editor) && Backed(v, v.publishes[k].request);
      CoreParts(v);
      CoreParts(w);
      assert PublishInPlace(v, v.publishes[k]);
      if k < |w.publishes| && w.publishes[k] == v.publishes[k] { SentBefore(w, k); }
    }
  }

  lemma {:induction false} PublishedByGate(w: World)
    requires Gate(w) && w.editor.publish.Published?
    ensures exists k | 0 <= k < |w.publishes| :: Names(w.publishes[k], w.editor) && Backed(w, w.publishes[k].request)
  {
    var k :| 0 <= k < |w.publishes| && Names(w.publishes[k], w.editor);
    assert Backed(w, w.publishes[k].request);
  }

  lemma {:induction false} SentBefore(w: World, k: nat)
    requires Core(w) && k < |w.publishes|
    ensures w.publishes[k].generation <= w.editor.generation
  {
    assert PublishInPlace(w, w.publishes[k]);
  }
}
