/** What each event of the configuration editor changes: the phase, what is on display, the key, and what
    goes to the server and comes back. */
module SettingsHandlers {
  import opened Options
  import opened SettingsEditor
  import opened SettingsProtocol

  // ---------------------------------------------------------------- the editor

  /** A draft is on the screen, and no request of the editor is under way. */
  predicate Idle(p: Phase) { p.Editing? || p.Previewed? || p.Outdated? || p.Failed? }

  /** The preview that is shown may be applied: it is valid, and of the content on display. */
  predicate Applicable(s: State) {
    s.phase.Previewed? && s.phase.preview.valid && s.shown == s.phase.preview.before
  }

  /** The response of preview k, or of apply k, is still due. */
  predicate Awaits(w: World, k: nat) { k < |w.previews| && w.previews[k].due }

  predicate AwaitsCall(w: World, k: nat) { k < |w.calls| && w.calls[k].due }

  /** The phases, and every way from one to another. An answer shows the draft of its own request. */
  lemma {:induction false} PhaseAfter(w: World, t: Target, e: Event)
    requires w.history != []
    ensures var p := w.editor.phase;
            Step(w, t, e).editor.phase ==
            match e
            case UserOpens(draft) => Editing(draft)
            case UserEdits(draft) => if Idle(p) then Editing(draft) else p
            case UserCloses => Closed
            case UserPreviews(formValid) =>
              if !Idle(p) then p else if formValid then Previewing(p.draft) else Failed(p.draft)
            case UserApplies(formValid) =>
              if !p.Previewed? || !p.preview.valid then p
              else if !Applicable(w.editor) then Outdated(p.draft)
              else if formValid then Applying(p.draft, p.preview) else Failed(p.draft)
            case PreviewAnswered(k, times, valid) =>
              if Awaits(w, k) && InOrder(times, |w.history|)
              then Previewed(w.previews[k].draft, PreviewOf(t, w.history, times, w.previews[k].draft, valid)) else p
            case PreviewRejected(k, conflict, _) =>
              if !Awaits(w, k) then p
              else if conflict then Outdated(w.previews[k].draft) else Failed(w.previews[k].draft)
            case Answered(k, at) =>
              if !AwaitsCall(w, k) || w.calls[k].answer.None? then p
              else if w.calls[k].answer.value.Conflict? then Outdated(w.calls[k].change)
              else if w.calls[k].answer.value.Accepted? && Read(w, t, at).Some? then Closed
              else Failed(w.calls[k].change)
            case Lost(k) => if AwaitsCall(w, k) then Failed(w.calls[k].change) else p
            case _ => p
  {
    hide Mutate, Resolve, Own;
  }

  /** What is displayed of the scope's file: a refresh, and the reload after a conflict or a receipt. */
  lemma {:induction false} ShownAfter(w: World, t: Target, e: Event)
    requires w.history != []
    ensures var reread :=
              match e
              case Refreshed(at) => Some(at)
              case PreviewRejected(k, conflict, at) => if Awaits(w, k) && conflict then at else None
              case Answered(k, at) =>
                if AwaitsCall(w, k) && w.calls[k].answer.Some? && !w.calls[k].answer.value.KeyReused? then at else None
              case _ => None;
            Step(w, t, e).editor.shown ==
            if reread.Some? && reread.value < |w.history|
            then if t.scope.UserScope? then w.history[reread.value].user else w.history[reread.value].project
            else w.editor.shown
  {
    hide Mutate, Resolve, PreviewOf;
  }

  /** When a key is drawn: for a new draft, for a completed one, and whenever the editor is mounted, by a
      remount or because something is shown in it that was closed. */
  lemma {:induction false} KeyAfter(w: World, t: Target, e: Event)
    requires w.history != []
    ensures var v, p := Step(w, t, e), w.editor.phase;
            var mounted := p.Closed? && !v.editor.phase.Closed?;
            var renewed := match e
                           case UserEdits(_) => Idle(p)
                           case Remounted => !p.Closed?
                           case Answered(k, at) =>
                             AwaitsCall(w, k) && w.calls[k].answer.Some? && w.calls[k].answer.value.Accepted?
                             && Read(w, t, at).Some?
                           case _ => false;
            v.editor.key == w.editor.key + if mounted || renewed then 1 else 0
  {
    hide Mutate, Resolve, PreviewOf, Own;
  }

  // ---------------------------------------------------------------- the requests

  /** An apply goes out exactly for a valid preview of the content on display whose form holds, with the
      editor's key, the draft, and the preview. */
  lemma {:induction false} AppliesExactly(w: World, t: Target, formValid: bool)
    requires w.history != []
    ensures var p := w.editor.phase;
            Step(w, t, UserApplies(formValid)).calls ==
            if Applicable(w.editor) && formValid then w.calls + [Call(w.editor.key, p.draft, p.preview, None, true)]
            else w.calls
  {
  }

  /** A preview is asked for exactly for a draft that holds while nothing is under way. */
  lemma {:induction false} PreviewsExactly(w: World, t: Target, formValid: bool)
    requires w.history != []
    ensures var p := w.editor.phase;
            Step(w, t, UserPreviews(formValid)).previews ==
            if Idle(p) && formValid then w.previews + [PreviewCall(p.draft, true)] else w.previews
  {
  }

  /** Which answers are due: each request is answered or lost once. */
  lemma {:induction false} DueAfter(w: World, t: Target, e: Event, k: nat)
    requires w.history != []
    ensures var v := Step(w, t, e);
            && (Awaits(v, k) <==>
                  || (k == |w.previews| && |w.previews| < |v.previews|)
                  || (Awaits(w, k) && !(e.PreviewRejected? && e.call == k)
                      && !(e.PreviewAnswered? && e.call == k && InOrder(e.times, |w.history|))))
            && (AwaitsCall(v, k) <==>
                  || (k == |w.calls| && |w.calls| < |v.calls|)
                  || (AwaitsCall(w, k) && !(e.Lost? && e.call == k)
                      && !(e.Answered? && e.call == k && w.calls[k].answer.Some?)))
  {
    hide Mutate, Resolve, Own, PreviewOf;
  }

  // ---------------------------------------------------------------- the server

  /** The setting has this value, or none, after the change; the others are as they were. */
  predicate Changes(before: Config, after: Config, setting: string, change: Change) {
    && (setting in after <==> change.Set?) && (change.Set? ==> after[setting] == change.value)
    && (forall s <- before :: s != setting ==> s in after && after[s] == before[s])
    && (forall s <- after :: s != setting ==> s in before)
  }

  lemma {:induction false} MutateChanges(before: Config, setting: string, change: Change, after: Config)
    ensures after == Mutate(before, setting, change) <==> Changes(before, after, setting, change)
  {
    var x := Mutate(before, setting, change);
    if Changes(before, after, setting, change) {
      forall s | s in x || s in after ensures s in x && s in after && x[s] == after[s] {
        if s != setting { assert s in before; }
      }
    }
  }

  /** The value that wins: the project's, or else the user's, or else the shipped one. */
  predicate Wins(f: Files, t: Target, e: Effective) {
    match e.source
    case ProjectFile => t.setting in f.project && e.value == f.project[t.setting]
    case UserFile => t.setting !in f.project && t.setting in f.user && e.value == f.user[t.setting]
    case ShippedDefault => t.setting !in f.project && t.setting !in f.user && e.value == t.shipped
  }

  lemma {:induction false} ResolveWins(f: Files, t: Target, e: Effective)
    ensures e == Resolve(t, f) <==> Wins(f, t, e)
  {
  }

  /** What a preview shows, by the times at which the files were read: the scope's file before, that file
      with the change made to its second reading, and the values that win without and with the change. */
  lemma {:induction false} PreviewShows(t: Target, h: seq<Files>, r: Reads, change: Change, valid: bool)
    requires InOrder(r, |h|)
    ensures var p, user := PreviewOf(t, h, r, change, valid), t.scope.UserScope?;
            && p.valid == valid
            && p.before == (if user then h[r.user].user else h[r.project].project)
            && Changes(if user then h[r.candidate].user else h[r.candidate].project, p.after, t.setting, change)
            && Wins(Files(h[r.user].user, h[r.project].project), t, p.shownBefore)
            && Wins(if user then Files(p.after, h[r.projectAgain].project) else Files(h[r.userAgain].user, p.after),
                    t, p.shownAfter)
  {
    hide Mutate, Resolve;
    var p := PreviewOf(t, h, r, change, valid);
    MutateChanges(Own(t, h[r.candidate]), t.setting, change, p.after);
    ResolveWins(Files(h[r.user].user, h[r.project].project), t, p.shownBefore);
    ResolveWins(WithOwn(t, Rest(h, r), p.after), t, p.shownAfter);
  }

  /** What the server does with an apply that it has not answered: it repeats the outcome of the key for the
      same request and refuses another one; it refuses a new key if the file has changed since; or else it
      makes the change in the scope's file, and in nothing else, and remembers the outcome. */
  lemma {:induction false} ServesExactly(w: World, t: Target, k: nat)
    requires w.history != [] && k < |w.calls| && w.calls[k].answer.None?
    ensures var v, c, now := Step(w, t, Serve(k)), w.calls[k], w.history[|w.history| - 1];
            var own := if t.scope.UserScope? then now.user else now.project;
            && v.calls[k].answer.Some? && v.calls == w.calls[k := c.(answer := v.calls[k].answer)]
            && v.editor == w.editor
            && var o := v.calls[k].answer.value;
               if c.key in w.receipts then
                 && v == w.(calls := v.calls)
                 && o == if w.receipts[c.key].body == Body(c.change, c.preview.before)
                         then w.receipts[c.key].outcome else KeyReused
               else
                 && v.receipts == w.receipts[c.key := Receipt(Body(c.change, c.preview.before), o)]
                 && if own != c.preview.before
                    then o.Conflict? && v.history == w.history && v.effects == w.effects
                    else
                      && o.Accepted? && o.effect.key == c.key && o.effect.before == now
                      && v.history == w.history + [o.effect.after] && v.effects == w.effects + [o.effect]
                      && var after := o.effect.after;
                         if t.scope.UserScope?
                         then after.project == now.project && Changes(now.user, after.user, t.setting, c.change)
                         else after.user == now.user && Changes(now.project, after.project, t.setting, c.change)
  {
    hide Mutate, Changes;
    var c, now := w.calls[k], w.history[|w.history| - 1];
    MutateChanges(Own(t, now), t.setting, c.change, Mutate(Own(t, now), t.setting, c.change));
  }
}
