/** How often a draft takes effect, and runs in which what is applied is not what was previewed. */
module SettingsSafety {
  import opened Options
  import opened SettingsEditor
  import opened SettingsProtocol

  // ---------------------------------------------------------------- at most once

  function EffectsOf(effects: seq<Effect>, key: nat): nat {
    if effects == [] then 0 else (if effects[0].key == key then 1 else 0) + EffectsOf(effects[1..], key)
  }

  lemma {:induction false} DistinctKeys(effects: seq<Effect>, key: nat)
    requires forall j, k | 0 <= j < k < |effects| :: effects[j].key != effects[k].key
    ensures EffectsOf(effects, key) <= 1
    ensures EffectsOf(effects, key) == 0 <==> forall x <- effects :: x.key != key
  {
    if effects != [] {
      DistinctKeys(effects[1..], key);
      assert forall x <- effects :: x == effects[0] || x in effects[1..];
      if effects[0].key == key {
        assert forall x <- effects[1..] :: x.key != key;
      }
    }
  }

  lemma {:induction false} MoreEffects(a: seq<Effect>, b: seq<Effect>, key: nat)
    requires a <= b
    ensures EffectsOf(a, key) <= EffectsOf(b, key)
  {
    if a != [] { MoreEffects(a[1..], b[1..], key); }
  }

  /** The draft on the screen is given up: changed, discarded, or applied and shown as applied. */
  predicate EndsDraft(w: World, t: Target, e: Event) {
    || e.UserOpens? || e.UserEdits? || e.UserCloses?
    || (e.Answered? && CallDue(w, e.call) && w.calls[e.call].answer.Some? && w.calls[e.call].answer.value.Accepted?
        && Read(w, t, e.seen).Some?)
  }

  /** Through these events the draft stays, and its editor stays mounted. */
  predicate Steady(w: World, t: Target, es: seq<Event>)
    requires w.history != []
    decreases |es|
  {
    es == [] || (!EndsDraft(w, t, es[0]) && !es[0].Remounted? && Steady(Step(w, t, es[0]), t, es[1..]))
  }

  /** No response is due to a request for any other draft. */
  predicate OneDraft(w: World) {
    && !w.editor.phase.Closed?
    && (forall k | 0 <= k < |w.previews| && w.previews[k].due :: w.previews[k].draft == w.editor.phase.draft)
    && (forall k | 0 <= k < |w.calls| && w.calls[k].due :: w.calls[k].change == w.editor.phase.draft)
  }

  /** The draft's editor is still there with its key, and whatever it has sent since carries that key. */
  predicate Continues(w: World, v: World) {
    && !v.editor.phase.Closed? && v.editor.key == w.editor.key && |w.calls| <= |v.calls| && w.effects <= v.effects
    && (forall k | 0 <= k < |w.calls| ::
          v.calls[k].key == w.calls[k].key && v.calls[k].change == w.calls[k].change)
    && (forall k | |w.calls| <= k < |v.calls| ::
          v.calls[k].key == w.editor.key && v.calls[k].change == v.editor.phase.draft)
    && (OneDraft(w) ==> OneDraft(v) && v.editor.phase.draft == w.editor.phase.draft)
  }

  lemma {:induction false} SteadyUser(w: World, t: Target, e: Event)
    requires w.history != [] && !w.editor.phase.Closed?
    requires e.UserPreviews? || e.UserApplies? || e.ForeignWrite? || e.Refreshed? || e.Serve?
    ensures Continues(w, Step(w, t, e))
  {
    hide Own, Mutate;
  }

  lemma {:induction false} SteadyAnswer(w: World, t: Target, e: Event)
    requires w.history != [] && !w.editor.phase.Closed? && !EndsDraft(w, t, e)
    requires e.PreviewAnswered? || e.PreviewRejected? || e.Answered? || e.Lost?
    ensures Continues(w, Step(w, t, e))
  {
    hide Own, PreviewOf, InOrder;
  }

  lemma {:induction false} SteadyStep(w: World, t: Target, e: Event)
    requires w.history != [] && !w.editor.phase.Closed? && !EndsDraft(w, t, e) && !e.Remounted?
    ensures Continues(w, Step(w, t, e))
  {
    hide Step, Continues;
    if e.PreviewAnswered? || e.PreviewRejected? || e.Answered? || e.Lost? {
      SteadyAnswer(w, t, e);
    } else {
      SteadyUser(w, t, e);
    }
  }

  lemma {:induction false} SteadyRun(w: World, t: Target, es: seq<Event>)
    requires w.history != [] && !w.editor.phase.Closed? && Steady(w, t, es)
    ensures var v := Run(w, t, es);
            && !v.editor.phase.Closed? && v.editor.key == w.editor.key && |w.calls| <= |v.calls|
            && w.effects <= v.effects
            && (forall k | 0 <= k < |w.calls| ::
                  v.calls[k].key == w.calls[k].key && v.calls[k].change == w.calls[k].change)
            && (forall k | |w.calls| <= k < |v.calls| :: v.calls[k].key == w.editor.key)
            && (OneDraft(w) ==> forall k | |w.calls| <= k < |v.calls| :: v.calls[k].change == w.editor.phase.draft)
    decreases |es|
  {
    hide Step, OneDraft, EndsDraft;
    if es != [] {
      SteadyStep(w, t, es[0]);
      SteadyRun(Step(w, t, es[0]), t, es[1..]);
    }
  }

  /** Any part of any run in which the draft is not changed, discarded, shown as applied or mounted
      again: whatever is lost or retried, all its applies carry the key with which the part began, and
      together they take effect at most once. They carry the same change, unless a response to a
      request for another draft is still due when the part begins. */
  lemma {:induction false} UnchangedDraftAtMostOnce(t: Target, files: Files, before: seq<Event>, after: seq<Event>)
    requires !Run(Start(t, files), t, before).editor.phase.Closed? && Steady(Run(Start(t, files), t, before), t, after)
    ensures var w := Run(Start(t, files), t, before);
            var v := Run(w, t, after);
            && |w.calls| <= |v.calls|
            && (forall k | |w.calls| <= k < |v.calls| :: v.calls[k].key == w.editor.key)
            && EffectsOf(v.effects, w.editor.key) <= 1
            && (OneDraft(w) ==> forall k | |w.calls| <= k < |v.calls| :: v.calls[k].change == w.editor.phase.draft)
  {
    hide Step, Run, EffectsOf, Steady, OneDraft;
    RunKeeps(Start(t, files), t, before);
    var w := Run(Start(t, files), t, before);
    SteadyRun(w, t, after);
    RunKeeps(w, t, after);
    DistinctKeys(Run(w, t, after).effects, w.editor.key);
  }

  /** An apply of the draft of the first of these worlds, sent since then, has had an effect. */
  ghost predicate Applies(w: World, v: World) {
    !w.editor.phase.Closed?
    && exists k | |w.calls| <= k < |v.calls| ::
         v.calls[k].change == w.editor.phase.draft
         && EffectsOf(v.effects, v.calls[k].key) > EffectsOf(w.effects, v.calls[k].key)
  }

  /** A request is shown as under way only while a response to a request for the draft is due. */
  ghost predicate Attended(w: World) {
    && (w.editor.phase.Previewing? ==>
          exists k: nat :: PreviewDue(w, k) && w.previews[k].draft == w.editor.phase.draft)
    && (w.editor.phase.Applying? ==>
          exists k: nat :: CallDue(w, k) && w.calls[k].change == w.editor.phase.draft)
  }

  lemma {:induction false} AttendedStep(w: World, t: Target, e: Event)
    requires w.history != [] && Attended(w)
    ensures Attended(Step(w, t, e))
  {
    hide Own, PreviewOf, InOrder, Mutate;
    var v := Step(w, t, e);
    if v.editor.phase.Previewing? {
      if w.editor.phase.Previewing? {
        var k: nat :| PreviewDue(w, k) && w.previews[k].draft == w.editor.phase.draft;
        assert PreviewDue(v, k) && v.previews[k].draft == v.editor.phase.draft;
      } else {
        assert PreviewDue(v, |w.previews|) && v.previews[|w.previews|].draft == v.editor.phase.draft;
      }
    }
    if v.editor.phase.Applying? {
      if w.editor.phase.Applying? {
        var k: nat :| CallDue(w, k) && w.calls[k].change == w.editor.phase.draft;
        assert CallDue(v, k) && v.calls[k].change == v.editor.phase.draft;
      } else {
        assert CallDue(v, |w.calls|) && v.calls[|w.calls|].change == v.editor.phase.draft;
      }
    }
  }

  lemma {:induction false} AttendedRun(w: World, t: Target, es: seq<Event>)
    requires w.history != [] && Attended(w)
    ensures Attended(Run(w, t, es))
    decreases |es|
  {
    hide Step, Attended;
    if es != [] {
      AttendedStep(w, t, es[0]);
      AttendedRun(Step(w, t, es[0]), t, es[1..]);
    }
  }

  // The steps of one successful round of preview and apply, for the draft on the screen.
  function Round(w: World, t: Target): seq<Event>
    requires w.history != []
  {
    var now := |w.history| - 1;
    [UserPreviews(true), PreviewAnswered(|w.previews|, Reads(now, now, now, now, now), true), Refreshed(now),
     UserApplies(true), Serve(|w.calls|)]
  }

  lemma {:induction false} RoundApplies(w: World, t: Target)
    requires w.history != [] && !w.editor.phase.Closed? && !Busy(w.editor.phase) && w.editor.key !in w.receipts
    ensures Steady(w, t, Round(w, t))
    ensures var v := Run(w, t, Round(w, t));
            && |v.calls| == |w.calls| + 1 && v.calls[|w.calls|].key == w.editor.key
            && v.calls[|w.calls|].change == w.editor.phase.draft
            && v.editor.key == w.editor.key && v.editor.phase.Applying? && v.editor.phase.draft == w.editor.phase.draft
            && v.calls[|w.calls|].due
            && |v.effects| == |w.effects| + 1 && w.effects == v.effects[..|w.effects|]
            && v.effects[|w.effects|].key == w.editor.key
  {
    RoundSteps(w, t);
  }

  // Up to the last step of a round, an apply of the latest content goes out.
  lemma {:induction false} RoundSteps(w: World, t: Target)
    requires w.history != [] && !w.editor.phase.Closed? && !Busy(w.editor.phase)
    ensures Steady(w, t, Round(w, t))
    ensures exists u: World :: SentNow(w, t, u) && Run(w, t, Round(w, t)) == DoServe(u, t, |w.calls|)
  {
    var es := Round(w, t);
    var w1 := Step(w, t, es[0]);
    var w2 := Step(w1, t, es[1]);
    var w3 := Step(w2, t, es[2]);
    var w4 := Step(w3, t, es[3]);
    assert SentNow(w, t, w4);
    FiveSteps(w, t, es);
  }

  predicate SentNow(w: World, t: Target, u: World)
    requires w.history != []
  {
    && u.history == w.history && u.receipts == w.receipts && u.effects == w.effects
    && u.editor.key == w.editor.key && u.editor.phase.Applying? && !w.editor.phase.Closed?
    && u.editor.phase.draft == w.editor.phase.draft
    && |u.calls| == |w.calls| + 1
    && var c := u.calls[|w.calls|];
       c.key == w.editor.key && c.change == w.editor.phase.draft && c.answer.None? && c.due
       && c.preview.before == Own(t, w.history[|w.history| - 1])
  }

  lemma {:induction false} FiveSteps(w: World, t: Target, es: seq<Event>)
    requires w.history != [] && |es| == 5
    ensures var u := Step(Step(Step(w, t, es[0]), t, es[1]), t, es[2]);
            Run(w, t, es) == Step(Step(u, t, es[3]), t, es[4])
    ensures (forall e <- es :: !e.UserOpens? && !e.UserEdits? && !e.UserCloses? && !e.Answered? && !e.Remounted?) ==>
            Steady(w, t, es)
  {
    hide Step;
    var w1 := Step(w, t, es[0]);
    var w2 := Step(w1, t, es[1]);
    var w3 := Step(w2, t, es[2]);
    var w4 := Step(w3, t, es[3]);
    var w5 := Step(w4, t, es[4]);
    assert es[4..][1..] == [] && es[3..][1..] == es[4..] && es[2..][1..] == es[3..] && es[1..][1..] == es[2..];
    assert es[0] in es && es[1] in es && es[2] in es && es[3] in es && es[4] in es;
    assert Run(w4, t, es[4..]) == w5 by { assert Run(w5, t, []) == w5; }
    assert Run(w3, t, es[3..]) == Run(w4, t, es[4..]);
    assert Run(w2, t, es[2..]) == Run(w3, t, es[3..]);
    assert Run(w1, t, es[1..]) == Run(w2, t, es[2..]);
    if forall e <- es :: !e.UserOpens? && !e.UserEdits? && !e.UserCloses? && !e.Answered? && !e.Remounted? {
      assert Steady(w5, t, []);
      assert Steady(w4, t, es[4..]);
      assert Steady(w3, t, es[3..]);
      assert Steady(w2, t, es[2..]);
      assert Steady(w1, t, es[1..]);
    }
  }

  lemma {:induction false} SteadyConcat(w: World, t: Target, a: seq<Event>, b: seq<Event>)
    requires w.history != [] && Steady(w, t, a) && Steady(Run(w, t, a), t, b)
    ensures Steady(w, t, a + b)
    decreases |a|
  {
    hide Step, EndsDraft;
    if a == [] {
      assert a + b == b;
    } else {
      assert (a + b)[1..] == a[1..] + b;
      SteadyConcat(Step(w, t, a[0]), t, a[1..], b);
    }
  }

  lemma {:induction false} OneStep(w: World, t: Target, e: Event)
    requires w.history != []
    ensures Run(w, t, [e]) == Step(w, t, e)
    ensures !EndsDraft(w, t, e) && !e.Remounted? ==> Steady(w, t, [e])
  {
    hide Step, EndsDraft;
    assert [e][1..] == [];
  }

  // If a request is under way, its response fails, and the editor can be used again.
  lemma {:induction false} Released(w: World, t: Target) returns (es: seq<Event>)
    requires w.history != [] && Attended(w) && !w.editor.phase.Closed?
    ensures Steady(w, t, es)
    ensures var v := Run(w, t, es);
            && !v.editor.phase.Closed? && !Busy(v.editor.phase) && v.editor.phase.draft == w.editor.phase.draft
            && v.editor.key == w.editor.key && v.receipts == w.receipts && v.effects == w.effects
            && |v.calls| == |w.calls|
  {
    es := [];
    if w.editor.phase.Previewing? {
      var k: nat :| PreviewDue(w, k) && w.previews[k].draft == w.editor.phase.draft;
      OneStep(w, t, PreviewRejected(k, false, None));
      es := [PreviewRejected(k, false, None)];
    } else if w.editor.phase.Applying? {
      var k: nat :| CallDue(w, k) && w.calls[k].change == w.editor.phase.draft;
      OneStep(w, t, Lost(k));
      es := [Lost(k)];
    }
  }

  lemma {:induction false} CanApply(w: World, t: Target)
    requires Inv(w, t) && Attended(w) && !w.editor.phase.Closed? && w.editor.key !in w.receipts
    ensures w.history != [] && exists es :: Steady(w, t, es) && Applies(w, Run(w, t, es))
  {
    hide Inv, Step, Run, EffectsOf, Steady, Attended, Round;
    RunKeeps(w, t, []);
    var first := Released(w, t);
    RunKeeps(w, t, first);
    var v := Run(w, t, first);
    RoundApplies(v, t);
    var es := first + Round(v, t);
    SteadyConcat(w, t, first, Round(v, t));
    RunConcat(w, t, first, Round(v, t));
    NewEffect(w, Run(v, t, Round(v, t)), w.editor.key);
    assert Steady(w, t, es) && Applies(w, Run(w, t, es));
  }

  lemma {:induction false} ReceiptStays(w: World, t: Target, es: seq<Event>, key: nat)
    requires w.history != [] && key in w.receipts
    ensures var v := Run(w, t, es); key in v.receipts && v.receipts[key] == w.receipts[key]
    decreases |es|
  {
    hide Step;
    if es != [] {
      ReceiptStep(w, t, es[0], key);
      ReceiptStays(Step(w, t, es[0]), t, es[1..], key);
    }
  }

  lemma {:induction false} ReceiptStep(w: World, t: Target, e: Event, key: nat)
    requires w.history != [] && key in w.receipts
    ensures var v := Step(w, t, e); key in v.receipts && v.receipts[key] == w.receipts[key]
  {
  }

  // The effects under a key that has a receipt: one if it is an acceptance, and none otherwise.
  lemma {:induction false} EffectsByReceipt(w: World, t: Target, key: nat)
    requires Inv(w, t) && key in w.receipts
    ensures EffectsOf(w.effects, key) == if TookEffect(w, key) then 1 else 0
  {
    DistinctKeys(w.effects, key);
    assert ReceiptInPlace(w, t, key);
  }

  /** Exactly: while the draft stays as it is and its editor mounted, an apply of it can take effect if and
      only if the server has no receipt for its key. With any receipt, that of a revision conflict
      included, it cannot. */
  lemma {:induction false} KeyDecides(w: World, t: Target)
    requires Inv(w, t) && Attended(w) && !w.editor.phase.Closed?
    ensures w.history != []
    ensures w.editor.key !in w.receipts <==> exists es :: Steady(w, t, es) && Applies(w, Run(w, t, es))
  {
    hide Inv, Step, Run, EffectsOf, Steady, Attended, TookEffect;
    RunKeeps(w, t, []);
    if w.editor.key !in w.receipts {
      CanApply(w, t);
    } else {
      forall es | Steady(w, t, es) ensures !Applies(w, Run(w, t, es)) { ReceiptStops(w, t, es); }
    }
  }

  lemma {:induction false} ReceiptStops(w: World, t: Target, es: seq<Event>)
    requires Inv(w, t) && !w.editor.phase.Closed? && w.editor.key in w.receipts
    requires w.history != [] && Steady(w, t, es)
    ensures !Applies(w, Run(w, t, es))
  {
    hide Inv, Step, Run, EffectsOf, Steady;
    var v := Run(w, t, es);
    SteadyRun(w, t, es);
    RunKeeps(w, t, es);
    ReceiptStays(w, t, es, w.editor.key);
    EffectsByReceipt(w, t, w.editor.key);
    EffectsByReceipt(v, t, w.editor.key);
  }

  /** After a revision conflict, previewing the unchanged draft again does not help: its next apply carries
      another revision under the same key, and is refused for that. */
  lemma {:induction false} PreviewAgainRefused(w: World, t: Target)
    requires Inv(w, t) && !w.editor.phase.Closed? && !Busy(w.editor.phase) && w.editor.key in w.receipts
    requires w.history != [] && w.receipts[w.editor.key].body.expected != Own(t, w.history[|w.history| - 1])
    ensures var v := Run(w, t, Round(w, t));
            && |v.calls| == |w.calls| + 1 && v.calls[|w.calls|].change == w.editor.phase.draft
            && v.calls[|w.calls|].answer == Some(KeyReused) && v.history == w.history
  {
    hide Inv, Resolve, Mutate;
    RoundSteps(w, t);
  }

  /** Exactly: once an apply of the draft on the screen has taken effect, an event that leaves the draft
      alone makes it possible that the same draft takes effect again, if and only if the event mounts the
      editor anew. */
  lemma {:induction false} RemountExactly(w: World, t: Target, e: Event)
    requires Inv(w, t) && Attended(w) && !w.editor.phase.Closed? && TookEffect(w, w.editor.key)
    requires !EndsDraft(w, t, e)
    ensures w.history != []
    ensures e.Remounted? <==> exists es :: Steady(Step(w, t, e), t, es) && Applies(w, Run(Step(w, t, e), t, es))
  {
    hide Inv, Step, Run, EffectsOf, Steady, EndsDraft, Attended;
    StepKeeps(w, t, e);
    var u := Step(w, t, e);
    if e.Remounted? {
      AfterRemount(w, t);
      AttendedStep(w, t, e);
      CanApply(u, t);
      var es :| Steady(u, t, es) && Applies(u, Run(u, t, es));
      assert Applies(w, Run(u, t, es));
    } else {
      OneStep(w, t, e);
      forall es | Steady(u, t, es) ensures !Applies(w, Run(u, t, es)) {
        SteadyConcat(w, t, [e], es);
        RunConcat(w, t, [e], es);
        ReceiptStops(w, t, [e] + es);
      }
    }
  }

  lemma {:induction false} AfterRemount(w: World, t: Target)
    requires Inv(w, t) && !w.editor.phase.Closed?
    ensures w.history != []
    ensures var u := Step(w, t, Remounted);
            && u.editor.phase == w.editor.phase && u.calls == w.calls && u.effects == w.effects
            && u.editor.key == w.editor.key + 1 && u.editor.key !in u.receipts
  {
    forall key <- w.receipts ensures key <= w.editor.key { assert ReceiptInPlace(w, t, key); }
  }

  lemma {:induction false} NewEffect(w: World, v: World, key: nat)
    requires |v.calls| == |w.calls| + 1 && v.calls[|w.calls|].key == key
    requires |v.effects| == |w.effects| + 1 && w.effects == v.effects[..|w.effects|]
             && v.effects[|w.effects|].key == key
    requires !w.editor.phase.Closed? && v.calls[|w.calls|].change == w.editor.phase.draft
    ensures Applies(w, v)
  {
    assert v.effects == w.effects + [v.effects[|w.effects|]];
    OneMore(w.effects, v.effects[|w.effects|]);
    assert EffectsOf(v.effects, v.calls[|w.calls|].key) > EffectsOf(w.effects, v.calls[|w.calls|].key);
  }

  lemma {:induction false} OneMore(effects: seq<Effect>, x: Effect)
    ensures EffectsOf(effects + [x], x.key) == EffectsOf(effects, x.key) + 1
  {
    if effects == [] {
      assert (effects + [x])[1..] == [];
    } else {
      assert (effects + [x])[1..] == effects[1..] + [x];
      OneMore(effects[1..], x);
    }
  }

  /** Nobody opens, changes, discards or remounts, and no answer arrives. */
  predicate Untouched(es: seq<Event>) {
    forall e <- es :: !e.UserOpens? && !e.UserEdits? && !e.UserCloses? && !e.Answered? && !e.Remounted?
  }

  /** It can happen: an apply takes effect, its response is lost, the user searches and clears the search,
      previews again and applies. Nothing but the search happened to the draft, and it took effect twice. */
  lemma {:induction false} RemountAppliesTwice(t: Target, files: Files, draft: Change)
    ensures exists before, after :: Untouched(before) && Untouched(after)
              && TwoEffects(Run(Start(t, files), t, [UserOpens(draft)] + before + [Remounted] + after), draft)
  {
    hide Run, Inv, Round, Steady;
    var w0 := Start(t, files);
    var w1 := Step(w0, t, UserOpens(draft));
    StartInv(t, files);
    StepKeeps(w0, t, UserOpens(draft));
    RoundApplies(w1, t);
    RoundUntouched(w1, t);
    var first := Round(w1, t);
    var w2 := Run(w1, t, first);
    RunKeeps(w1, t, first);
    var w3 := Step(w2, t, Lost(0));
    StepKeeps(w2, t, Lost(0));
    AfterRemount(w3, t);
    var u := Step(w3, t, Remounted);
    StepKeeps(w3, t, Remounted);
    RoundApplies(u, t);
    RoundUntouched(u, t);
    var after := Round(u, t);
    RunThen(w1, t, first, Lost(0));
    assert [UserOpens(draft)] == [] + [UserOpens(draft)] && Run(w0, t, []) == w0 by { RunNothing(w0, t); }
    RunThen(w0, t, [], UserOpens(draft));
    var before := first + [Lost(0)];
    RunConcat(w0, t, [UserOpens(draft)], before);
    RunThen(w0, t, [UserOpens(draft)] + before, Remounted);
    RunConcat(w0, t, [UserOpens(draft)] + before + [Remounted], after);
    assert u.calls[0].change == draft && u.effects[0].key == u.calls[0].key;
    KeepsCalls(u, t, after);
    assert Untouched(before) && Untouched(after);
  }

  predicate TwoEffects(w: World, draft: Change) {
    && |w.calls| == 2 && |w.effects| == 2
    && forall k | 0 <= k < 2 :: w.calls[k].change == draft && w.effects[k].key == w.calls[k].key
  }

  lemma {:induction false} RunNothing(w: World, t: Target)
    requires w.history != []
    ensures Run(w, t, []) == w
  {
  }

  lemma {:induction false} StartInv(t: Target, files: Files)
    ensures Inv(Start(t, files), t)
  {
  }

  lemma {:induction false} RoundUntouched(w: World, t: Target)
    requires w.history != []
    ensures Untouched(Round(w, t))
  {
  }

  lemma {:induction false} KeepsCalls(w: World, t: Target, es: seq<Event>)
    requires w.history != [] && !w.editor.phase.Closed? && Steady(w, t, es)
    ensures var v := Run(w, t, es);
            && |w.calls| <= |v.calls|
            && forall k | 0 <= k < |w.calls| ::
                 v.calls[k].key == w.calls[k].key && v.calls[k].change == w.calls[k].change
  {
    SteadyRun(w, t, es);
  }

  // ---------------------------------------------------------------- what is shown and what results

  ghost predicate AcceptedOther(t: Target, w: World, k: nat) {
    && k < |w.calls| && w.calls[k].answer.Some? && w.calls[k].answer.value.Accepted?
    && Own(t, w.calls[k].answer.value.effect.after) != w.calls[k].preview.after
  }

  ghost predicate ResultsOther(t: Target, w: World, k: nat) {
    && k < |w.calls| && w.calls[k].answer.Some? && w.calls[k].answer.value.Accepted?
    && Resolve(t, w.calls[k].answer.value.effect.after) != w.calls[k].preview.shownAfter
  }

  // A preview and an apply while others write these states of the files, one after the other.
  function Interleaved(draft: Change, first: Files, second: Files, times: Reads, third: Files): seq<Event> {
    [UserOpens(draft), UserPreviews(true)] + [ForeignWrite(first), ForeignWrite(second)]
    + [PreviewAnswered(0, times, true), UserApplies(true)] + [ForeignWrite(third), Serve(0)]
  }

  lemma {:induction false} InterleavedRun(t: Target, files: Files, draft: Change, first: Files, second: Files,
                                          times: Reads, third: Files)
    requires times.user == times.project == 0 && times.candidate <= times.userAgain <= times.projectAgain <= 2
    requires Own(t, third) == Own(t, files)
    ensures var h := [files, first, second];
            var p := PreviewOf(t, h, times, draft, true);
            var x := Effect(1, third, WithOwn(t, third, Mutate(Own(t, third), t.setting, draft)));
            Run(Start(t, files), t, Interleaved(draft, first, second, times, third)).calls
              == [Call(1, draft, p, Some(Accepted(x)), true)]
  {
    hide Mutate, Resolve;
    var w0 := Start(t, files);
    RunPairs(w0, t, UserOpens(draft), UserPreviews(true), ForeignWrite(first), ForeignWrite(second),
             PreviewAnswered(0, times, true), UserApplies(true), ForeignWrite(third), Serve(0));
    var w2 := Step(Step(w0, t, UserOpens(draft)), t, UserPreviews(true));
    var w4 := Step(Step(w2, t, ForeignWrite(first)), t, ForeignWrite(second));
    assert w4.history == [files, first, second];
    var w6 := Step(Step(w4, t, PreviewAnswered(0, times, true)), t, UserApplies(true));
    assert w6.calls == [Call(1, draft, PreviewOf(t, w4.history, times, draft, true), None, true)];
  }

  lemma {:induction false} RunPairs(w: World, t: Target, a: Event, b: Event, c: Event, d: Event, e: Event, f: Event,
                                    g: Event, i: Event)
    requires w.history != []
    ensures var u := Step(Step(Step(Step(w, t, a), t, b), t, c), t, d);
            Run(w, t, [a, b] + [c, d] + [e, f] + [g, i]) == Step(Step(Step(Step(u, t, e), t, f), t, g), t, i)
  {
    hide Step;
    RunTwo(w, t, [], a, b);
    RunTwo(w, t, [a, b], c, d);
    RunTwo(w, t, [a, b] + [c, d], e, f);
    RunTwo(w, t, [a, b] + [c, d] + [e, f], g, i);
    assert [] + [a, b] == [a, b];
  }

  lemma {:induction false} RunTwo(w: World, t: Target, es: seq<Event>, a: Event, b: Event)
    requires w.history != []
    ensures Run(w, t, es + [a, b]) == Step(Step(Run(w, t, es), t, a), t, b)
  {
    hide Step;
    RunThen(w, t, es, a);
    RunThen(w, t, es + [a], b);
    assert es + [a] + [b] == es + [a, b];
  }

  /** Another writer changes some other setting between the two reads of a preview and takes it back: the
      apply is accepted, and what it leaves is not what the preview promised. */
  lemma {:induction false} TornPreviewApplied(t: Target, files: Files, draft: Change, other: string, value: string)
    requires other != t.setting && (other in Own(t, files) ==> Own(t, files)[other] != value)
    ensures exists es :: AcceptedOther(t, Run(Start(t, files), t, es), 0)
  {
    hide Run;
    var first := WithOwn(t, files, Own(t, files)[other := value]);
    var times := Reads(0, 0, 1, 2, 2);
    InterleavedRun(t, files, draft, first, files, times, files);
    var p := PreviewOf(t, [files, first, files], times, draft, true);
    assert other in p.after && p.after[other] == value;
    assert AcceptedOther(t, Run(Start(t, files), t, Interleaved(draft, first, files, times, files)), 0);
  }

  /** The project's file gains the setting after a preview for the user's file: the apply is accepted,
      and the value that wins is not the one that was shown. */
  lemma {:induction false} OtherFileDecides(setting: string, shipped: string, files: Files, draft: Change,
                                            value: string)
    requires setting !in files.project
    ensures var t := Target(UserScope, setting, shipped);
            exists es :: ResultsOther(t, Run(Start(t, files), t, es), 0)
  {
    hide Run;
    var t := Target(UserScope, setting, shipped);
    var third := files.(project := files.project[setting := value]);
    var times := Reads(0, 0, 0, 0, 0);
    InterleavedRun(t, files, draft, files, files, times, third);
    assert ResultsOther(t, Run(Start(t, files), t, Interleaved(draft, files, files, times, third)), 0);
  }
}
