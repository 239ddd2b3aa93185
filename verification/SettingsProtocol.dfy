/** The configuration editor against its server: two files in layers, other writers of both, a preview
    that is read in five steps, and apply requests whose responses are late or lost. */
module SettingsProtocol {
  import opened Options
  import opened SettingsEditor

  datatype Scope = UserScope | ProjectScope

  /** What is edited: the scope's own file, the setting, and its shipped default. */
  datatype Target = Target(scope: Scope, setting: string, shipped: string)

  /** The two files that hold settings. The project's values win over the user's. */
  datatype Files = Files(user: Config, project: Config)

  function Own(t: Target, f: Files): Config { if t.scope.UserScope? then f.user else f.project }

  function Other(t: Target, f: Files): Config { if t.scope.UserScope? then f.project else f.user }

  function WithOwn(t: Target, f: Files, own: Config): Files {
    if t.scope.UserScope? then f.(user := own) else f.(project := own)
  }

  function Resolve(t: Target, f: Files): Effective {
    if t.setting in f.project then Effective(f.project[t.setting], ProjectFile)
    else if t.setting in f.user then Effective(f.user[t.setting], UserFile)
    else Effective(t.shipped, ShippedDefault)
  }

  /** When each of the five reads of a preview happens: both files, the file to be changed, both again. */
  datatype Reads = Reads(user: nat, project: nat, candidate: nat, userAgain: nat, projectAgain: nat)

  predicate InOrder(r: Reads, length: nat) {
    r.user <= r.project <= r.candidate <= r.userAgain <= r.projectAgain < length
  }

  /** The layers under and over the change, as the second reading of the files finds them. */
  function Rest(h: seq<Files>, r: Reads): Files
    requires InOrder(r, |h|)
  {
    Files(h[r.userAgain].user, h[r.projectAgain].project)
  }

  /** The server's answer. It compares no revision. */
  function PreviewOf(t: Target, h: seq<Files>, r: Reads, change: Change, valid: bool): Preview
    requires InOrder(r, |h|)
  {
    var before := Files(h[r.user].user, h[r.project].project);
    var after := Mutate(Own(t, h[r.candidate]), t.setting, change);
    Preview(Own(t, before), after, Resolve(t, before), Resolve(t, WithOwn(t, Rest(h, r), after)), valid)
  }

  datatype PreviewCall = PreviewCall(draft: Change, due: bool)

  datatype Body = Body(change: Change, expected: Config)

  /** A change that the server really made, under a key. */
  datatype Effect = Effect(key: nat, before: Files, after: Files)

  datatype Outcome = Accepted(effect: Effect) | Conflict | KeyReused

  /** An apply request, the preview the user saw, the server's answer once there is one, and whether
      the response is still due. */
  datatype Call = Call(key: nat, change: Change, preview: Preview, answer: Option<Outcome>, due: bool)

  function BodyOf(c: Call): Body { Body(c.change, c.preview.before) }

  datatype Receipt = Receipt(body: Body, outcome: Outcome)

  /** The editor, the files over time, the requests, and the server's first outcome for every key. */
  datatype World = World(editor: State, history: seq<Files>, previews: seq<PreviewCall>, calls: seq<Call>,
                         receipts: map<nat, Receipt>, effects: seq<Effect>)

  datatype Event =
    | UserOpens(draft: Change) | UserEdits(draft: Change) | UserCloses | Remounted
    | UserPreviews(formValid: bool) | UserApplies(formValid: bool)
    | ForeignWrite(files: Files) | Refreshed(at: nat)
    | PreviewAnswered(call: nat, times: Reads, valid: bool)
      | PreviewRejected(call: nat, conflict: bool, seen: Option<nat>)
    | Serve(call: nat) | Answered(call: nat, seen: Option<nat>) | Lost(call: nat)

  function Read(w: World, t: Target, at: Option<nat>): Option<Config> {
    if at.Some? && at.value < |w.history| then Some(Own(t, w.history[at.value])) else None
  }

  predicate PreviewDue(w: World, k: nat) { k < |w.previews| && w.previews[k].due }

  predicate CallDue(w: World, k: nat) { k < |w.calls| && w.calls[k].due }

  function DoPreview(w: World, formValid: bool): World {
    var s := StartPreview(w.editor, formValid);
    if w.editor.phase.Closed? || Busy(w.editor.phase) || !formValid then w.(editor := s)
    else w.(editor := s, previews := w.previews + [PreviewCall(w.editor.phase.draft, true)])
  }

  function DoPreviewed(w: World, t: Target, k: nat, times: Reads, valid: bool): World {
    if !PreviewDue(w, k) || !InOrder(times, |w.history|) then w
    else
      var draft := w.previews[k].draft;
      w.(editor := PreviewDone(w.editor, draft, PreviewOf(t, w.history, times, draft, valid)),
         previews := w.previews[k := PreviewCall(draft, false)])
  }

  function DoPreviewRejected(w: World, t: Target, k: nat, conflict: bool, at: Option<nat>): World {
    if !PreviewDue(w, k) then w
    else
      var draft := w.previews[k].draft;
      w.(editor := Rejected(w.editor, draft, conflict, Read(w, t, at)),
         previews := w.previews[k := PreviewCall(draft, false)])
  }

  function DoApply(w: World, formValid: bool): World {
    var s := StartApply(w.editor, formValid);
    if !MayApply(w.editor, formValid) then w.(editor := s)
    else w.(editor := s, calls := w.calls + [Call(s.key, s.phase.draft, s.phase.preview, None, true)])
  }

  /** A known key replays its outcome for the same request and is refused for any other. */
  function DoServe(w: World, t: Target, k: nat): World
    requires w.history != []
  {
    if k >= |w.calls| || w.calls[k].answer.Some? then w
    else
      var c, now := w.calls[k], w.history[|w.history| - 1];
      if c.key in w.receipts then
        var outcome := if w.receipts[c.key].body == BodyOf(c) then w.receipts[c.key].outcome else KeyReused;
        w.(calls := w.calls[k := c.(answer := Some(outcome))])
      else if Own(t, now) != c.preview.before then
        w.(calls := w.calls[k := c.(answer := Some(Conflict))],
           receipts := w.receipts[c.key := Receipt(BodyOf(c), Conflict)])
      else
        var x := Effect(c.key, now, WithOwn(t, now, Mutate(Own(t, now), t.setting, c.change)));
        w.(calls := w.calls[k := c.(answer := Some(Accepted(x)))], history := w.history + [x.after],
           receipts := w.receipts[c.key := Receipt(BodyOf(c), Accepted(x))], effects := w.effects + [x])
  }

  /** Only a revision conflict reloads; a reused key is reported like any other failure. */
  function DoAnswered(w: World, t: Target, k: nat, at: Option<nat>): World {
    if !CallDue(w, k) || w.calls[k].answer.None? then w
    else
      var c := w.calls[k];
      var s := match c.answer.value
        case Accepted(_) => Applied(w.editor, c.change, Read(w, t, at))
        case Conflict => Rejected(w.editor, c.change, true, Read(w, t, at))
        case KeyReused => Rejected(w.editor, c.change, false, None);
      w.(editor := s, calls := w.calls[k := c.(due := false)])
  }

  function DoLost(w: World, k: nat): World {
    if !CallDue(w, k) then w
    else w.(editor := Rejected(w.editor, w.calls[k].change, false, None),
            calls := w.calls[k := w.calls[k].(due := false)])
  }

  /** One event. An event that cannot happen in this world changes nothing. */
  function Step(w: World, t: Target, e: Event): (v: World)
    requires w.history != []
    ensures v.history != []
  {
    match e
    case UserOpens(draft) => w.(editor := Open(w.editor, draft))
    case UserEdits(draft) => w.(editor := UpdateDraft(w.editor, draft))
    case UserCloses => w.(editor := Close(w.editor))
    case Remounted => w.(editor := Remount(w.editor))
    case UserPreviews(formValid) => DoPreview(w, formValid)
    case UserApplies(formValid) => DoApply(w, formValid)
    case ForeignWrite(files) => w.(history := w.history + [files])
    case Refreshed(at) => if at < |w.history| then w.(editor := w.editor.(shown := Own(t, w.history[at]))) else w
    case PreviewAnswered(k, times, valid) => DoPreviewed(w, t, k, times, valid)
    case PreviewRejected(k, conflict, at) => DoPreviewRejected(w, t, k, conflict, at)
    case Serve(k) => DoServe(w, t, k)
    case Answered(k, at) => DoAnswered(w, t, k, at)
    case Lost(k) => DoLost(w, k)
  }

  function Run(w: World, t: Target, es: seq<Event>): (v: World)
    requires w.history != []
    ensures v.history != []
    decreases |es|
  {
    if es == [] then w else Run(Step(w, t, es[0]), t, es[1..])
  }

  lemma {:induction false} RunConcat(w: World, t: Target, a: seq<Event>, b: seq<Event>)
    requires w.history != []
    ensures Run(w, t, a + b) == Run(Run(w, t, a), t, b)
    decreases |a|
  {
    hide Step;
    if a == [] {
      assert a + b == b;
    } else {
      assert (a + b)[1..] == a[1..] + b;
      RunConcat(Step(w, t, a[0]), t, a[1..], b);
    }
  }

  lemma {:induction false} RunThen(w: World, t: Target, es: seq<Event>, e: Event)
    requires w.history != []
    ensures Run(w, t, es + [e]) == Step(Run(w, t, es), t, e)
  {
    RunConcat(w, t, es, [e]);
    assert Run(Run(w, t, es), t, [e]) == Run(Step(Run(w, t, es), t, e), t, []) by { assert [e][1..] == []; }
  }

  function Start(t: Target, files: Files): World { World(State(Closed, Own(t, files), 0), [files], [], [], map[], []) }

  // ---------------------------------------------------------------- the handlers in these runs

  /** The handler of one event, run on the editor itself: its requests are the ones the world records. */
  method Handle(editor: ConfigurationEditor, w: World, t: Target, e: Event) returns (v: World)
    requires w.history != [] && editor.View() == w.editor
    modifies editor
    ensures v == Step(w, t, e) && editor.View() == v.editor
  {
    v := w;
    match e {
      case UserOpens(draft) => editor.Display(Editing(draft));
      case UserEdits(draft) => editor.Update(draft);
      case UserCloses => editor.Display(Closed);
      case Remounted => editor.Unmount();
      case UserPreviews(formValid) =>
        var sent := editor.BeginPreview(formValid);
        if sent.Some? { v := v.(previews := v.previews + [PreviewCall(sent.value, true)]); }
      case UserApplies(formValid) =>
        var sent := editor.Apply(formValid);
        if sent.Some? { v := v.(calls := v.calls + [Call(sent.value.0, sent.value.1, sent.value.2, None, true)]); }
      case Refreshed(at) => if at < |w.history| { editor.Refresh(Own(t, w.history[at])); }
      case PreviewAnswered(k, times, valid) =>
        if PreviewDue(w, k) && InOrder(times, |w.history|) {
          var draft := w.previews[k].draft;
          editor.OnPreview(draft, PreviewOf(t, w.history, times, draft, valid));
          v := v.(previews := w.previews[k := PreviewCall(draft, false)]);
        }
      case PreviewRejected(k, conflict, at) =>
        if PreviewDue(w, k) {
          var draft := w.previews[k].draft;
          editor.OnRejected(draft, conflict, Read(w, t, at));
          v := v.(previews := w.previews[k := PreviewCall(draft, false)]);
        }
      case Answered(k, at) =>
        if CallDue(w, k) && w.calls[k].answer.Some? {
          var c := w.calls[k];
          match c.answer.value {
            case Accepted(_) => editor.OnApplied(c.change, Read(w, t, at));
            case Conflict => editor.OnRejected(c.change, true, Read(w, t, at));
            case KeyReused => editor.OnRejected(c.change, false, None);
          }
          v := v.(calls := w.calls[k := c.(due := false)]);
        }
      case Lost(k) =>
        if CallDue(w, k) {
          editor.OnRejected(w.calls[k].change, false, None);
          v := v.(calls := w.calls[k := w.calls[k].(due := false)]);
        }
      case _ => v := Step(w, t, e);
    }
    v := v.(editor := editor.View());
  }

  /** A whole run of the handlers is a run of the model, from mounting the page on. */
  method HandleAll(t: Target, files: Files, es: seq<Event>) returns (editor: ConfigurationEditor, w: World)
    ensures w == Run(Start(t, files), t, es) && editor.View() == w.editor
  {
    editor := new ConfigurationEditor(Own(t, files));
    w := Start(t, files);
    assert es[..0] == [];
    for i := 0 to |es|
      invariant w == Run(Start(t, files), t, es[..i]) && editor.View() == w.editor
    {
      RunThen(Start(t, files), t, es[..i], es[i]);
      assert es[..i] + [es[i]] == es[..i + 1];
      w := Handle(editor, w, t, es[i]);
    }
    assert es[..|es|] == es;
  }

  // ---------------------------------------------------------------- the invariant

  /** This preview of the change was made from these reads. */
  predicate From(h: seq<Files>, t: Target, change: Change, p: Preview, r: Reads, valid: bool) {
    InOrder(r, |h|) && p == PreviewOf(t, h, r, change, valid)
  }

  ghost predicate Taken(h: seq<Files>, t: Target, change: Change, p: Preview) {
    exists r, valid :: From(h, t, change, p, r, valid)
  }

  /** The change of this body and no other, made from the content it names, in the scope's own file. */
  predicate Makes(t: Target, x: Effect, body: Body) {
    Own(t, x.before) == body.expected && x.after == WithOwn(t, x.before, Mutate(body.expected, t.setting, body.change))
  }

  predicate OutcomeInPlace(w: World, t: Target, key: nat, body: Body, o: Outcome) {
    o.Accepted? ==> o.effect in w.effects && o.effect.key == key && Makes(t, o.effect, body)
  }

  ghost predicate CallInPlace(w: World, t: Target, c: Call) {
    && c.key <= w.editor.key && Taken(w.history, t, c.change, c.preview)
    && (c.answer.Some? ==> OutcomeInPlace(w, t, c.key, BodyOf(c), c.answer.value))
  }

  predicate ReceiptInPlace(w: World, t: Target, key: nat)
    requires key in w.receipts
  {
    key <= w.editor.key && OutcomeInPlace(w, t, key, w.receipts[key].body, w.receipts[key].outcome)
  }

  /** The receipt of this key is an acceptance. */
  predicate TookEffect(w: World, key: nat) { key in w.receipts && w.receipts[key].outcome.Accepted? }

  ghost predicate Inv(w: World, t: Target) {
    && w.history != []
    && (w.editor.phase.Previewed? ==> Taken(w.history, t, w.editor.phase.draft, w.editor.phase.preview))
    && (forall k | 0 <= k < |w.calls| :: CallInPlace(w, t, w.calls[k]))
    && (forall key <- w.receipts :: ReceiptInPlace(w, t, key))
    && (forall k | 0 <= k < |w.effects| :: TookEffect(w, w.effects[k].key))
    && (forall j, k | 0 <= j < k < |w.effects| :: w.effects[j].key != w.effects[k].key)
  }

  lemma {:induction false} TakenGrows(h: seq<Files>, g: seq<Files>, t: Target, change: Change, p: Preview)
    requires Taken(h, t, change, p) && h <= g
    ensures Taken(g, t, change, p)
  {
    var r, valid :| From(h, t, change, p, r, valid);
    assert From(g, t, change, p, r, valid);
  }

  // What an event that does not reach the server must keep.
  lemma {:induction false} ClientKeeps(w: World, v: World, t: Target)
    requires Inv(w, t) && w.history <= v.history && w.editor.key <= v.editor.key
    requires v.receipts == w.receipts && v.effects == w.effects && |w.calls| <= |v.calls|
    requires forall k | 0 <= k < |w.calls| :: v.calls[k].(due := true) == w.calls[k].(due := true)
    requires forall k | |w.calls| <= k < |v.calls| ::
      v.calls[k].answer.None? && v.calls[k].key <= v.editor.key
        && Taken(v.history, t, v.calls[k].change, v.calls[k].preview)
    requires v.editor.phase.Previewed? ==> Taken(v.history, t, v.editor.phase.draft, v.editor.phase.preview)
    ensures Inv(v, t)
  {
    forall k | 0 <= k < |v.calls| ensures CallInPlace(v, t, v.calls[k]) {
      if k < |w.calls| {
        assert CallInPlace(w, t, w.calls[k]);
        assert v.calls[k] == w.calls[k].(due := v.calls[k].due);
        TakenGrows(w.history, v.history, t, w.calls[k].change, w.calls[k].preview);
      }
    }
    forall key <- v.receipts ensures ReceiptInPlace(v, t, key) { assert ReceiptInPlace(w, t, key); }
  }

  lemma {:induction false} PreviewKeeps(w: World, t: Target, k: nat, times: Reads, valid: bool)
    requires Inv(w, t)
    ensures Inv(DoPreviewed(w, t, k, times, valid), t)
  {
    var v := DoPreviewed(w, t, k, times, valid);
    if PreviewDue(w, k) && InOrder(times, |w.history|) {
      assert From(w.history, t, w.previews[k].draft, v.editor.phase.preview, times, valid);
    }
    ClientKeeps(w, v, t);
  }

  lemma {:induction false} WriteKeeps(w: World, t: Target, files: Files)
    requires Inv(w, t)
    ensures Inv(w.(history := w.history + [files]), t)
  {
    var v := w.(history := w.history + [files]);
    if w.editor.phase.Previewed? { TakenGrows(w.history, v.history, t, w.editor.phase.draft, w.editor.phase.preview); }
    ClientKeeps(w, v, t);
  }

  lemma {:induction false} ServeKeeps(w: World, t: Target, k: nat)
    requires Inv(w, t)
    ensures Inv(DoServe(w, t, k), t)
  {
    hide Taken, Mutate;
    if k < |w.calls| && w.calls[k].answer.None? {
      var v, c := DoServe(w, t, k), w.calls[k];
      assert CallInPlace(w, t, c);
      assert w.effects <= v.effects && w.history <= v.history;
      if c.key in w.receipts { assert ReceiptInPlace(w, t, c.key); }
      forall x <- w.effects ensures x in v.effects { }
      if v.editor.phase.Previewed? {
        TakenGrows(w.history, v.history, t, w.editor.phase.draft, w.editor.phase.preview);
      }
      forall j | 0 <= j < |v.calls| ensures CallInPlace(v, t, v.calls[j]) {
        assert CallInPlace(w, t, w.calls[j]);
        TakenGrows(w.history, v.history, t, w.calls[j].change, w.calls[j].preview);
      }
      forall key <- v.receipts ensures ReceiptInPlace(v, t, key) {
        if key in w.receipts { assert ReceiptInPlace(w, t, key); }
      }
    }
  }

  lemma {:induction false} InvParts(w: World, t: Target)
    requires Inv(w, t)
    ensures w.history != []
    ensures w.editor.phase.Previewed? ==> Taken(w.history, t, w.editor.phase.draft, w.editor.phase.preview)
  {
  }

  lemma {:induction false} StepKeeps(w: World, t: Target, e: Event)
    requires Inv(w, t)
    ensures w.history != [] && Inv(Step(w, t, e), t)
  {
    hide Inv, Taken, CallInPlace, ReceiptInPlace, OutcomeInPlace, Own, PreviewOf, DoServe, DoPreviewed;
    InvParts(w, t);
    match e
    case Serve(k) => ServeKeeps(w, t, k);
    case PreviewAnswered(k, times, valid) => PreviewKeeps(w, t, k, times, valid);
    case ForeignWrite(files) => WriteKeeps(w, t, files);
    case _ => ClientKeeps(w, Step(w, t, e), t);
  }

  lemma {:induction false} RunKeeps(w: World, t: Target, es: seq<Event>)
    requires Inv(w, t)
    ensures w.history != [] && Inv(Run(w, t, es), t)
    decreases |es|
  {
    hide Inv, Step;
    StepKeeps(w, t, Remounted);
    if es != [] {
      StepKeeps(w, t, es[0]);
      RunKeeps(Step(w, t, es[0]), t, es[1..]);
    }
  }

  // ---------------------------------------------------------------- applied equals previewed

  /** Two contents differ at most in this setting. */
  predicate SameElsewhere(a: Config, b: Config, setting: string) { a - {setting} == b - {setting} }

  predicate SameAt(a: Config, b: Config, setting: string) {
    (setting in a <==> setting in b) && (setting in a ==> a[setting] == b[setting])
  }

  lemma {:induction false} MutateAgrees(a: Config, b: Config, setting: string, change: Change)
    ensures Mutate(a, setting, change) == Mutate(b, setting, change) <==> SameElsewhere(a, b, setting)
    ensures SameElsewhere(Mutate(a, setting, change), a, setting)
  {
    var x, y := Mutate(a, setting, change), Mutate(b, setting, change);
    assert x - {setting} == a - {setting} && y - {setting} == b - {setting};
    if SameElsewhere(a, b, setting) {
      forall s | s in x || s in y ensures s in x && s in y && x[s] == y[s] {
        if s != setting { assert s in a - {setting} || s in b - {setting}; }
      }
    }
  }

  /** A change in one layer shows the same over two states of the other exactly if the change is a value
      of the winning layer, or the other layer has the same to say about the setting. */
  lemma {:induction false} OverlayAgrees(t: Target, f: Files, g: Files, a: Config, b: Config, change: Change)
    ensures Resolve(t, WithOwn(t, f, Mutate(a, t.setting, change)))
            == Resolve(t, WithOwn(t, g, Mutate(b, t.setting, change)))
            <==> (t.scope.ProjectScope? && change.Set?) || SameAt(Other(t, f), Other(t, g), t.setting)
  {
  }

  /** What the write of an apply and the preview it was confirmed by have in common. */
  ghost predicate Matches(h: seq<Files>, t: Target, c: Call, x: Effect, r: Reads, valid: bool) {
    && From(h, t, c.change, c.preview, r, valid)
    && (Own(t, x.after) == c.preview.after <==>
          SameElsewhere(Own(t, Files(h[r.user].user, h[r.project].project)), Own(t, h[r.candidate]), t.setting))
    && (Resolve(t, x.after) == c.preview.shownAfter <==>
          (t.scope.ProjectScope? && c.change.Set?) || SameAt(Other(t, x.before), Other(t, Rest(h, r)), t.setting))
  }

  lemma {:induction false} EffectMatches(h: seq<Files>, t: Target, c: Call, x: Effect, r: Reads, valid: bool)
    requires From(h, t, c.change, c.preview, r, valid) && Makes(t, x, BodyOf(c))
    ensures Matches(h, t, c, x, r, valid)
    ensures Own(t, x.after) == c.preview.after <==> SameElsewhere(c.preview.before, c.preview.after, t.setting)
  {
    hide Mutate, SameElsewhere, SameAt, Resolve;
    MutateAgrees(Own(t, x.before), Own(t, h[r.candidate]), t.setting, c.change);
    OverlayAgrees(t, x.before, Rest(h, r), Own(t, x.before), Own(t, h[r.candidate]), c.change);
    MutateAgrees(c.preview.before, Own(t, h[r.candidate]), t.setting, c.change);
    Elsewhere(c.preview.before, Own(t, h[r.candidate]), c.preview.after, t.setting, c.change);
  }

  lemma {:induction false} Elsewhere(a: Config, b: Config, after: Config, setting: string, change: Change)
    requires after == Mutate(b, setting, change)
    ensures SameElsewhere(a, b, setting) <==> SameElsewhere(a, after, setting)
  {
    MutateAgrees(b, b, setting, change);
  }

  /** In every run with concurrent writers of both files: an accepted apply made its change, from the
      content that the preview showed as before, and changed nothing else. What it left is the content
      that the preview promised exactly if the preview's own before and after differ in the setting
      alone, which means that its two reads of the file agreed on everything else; and the effective
      value that the panel promised is the one that resulted exactly if the change is a value set for a
      project, or the other file said the same of the setting at the write as it did at the preview. */
  lemma {:induction false} AppliedEqualsPreviewed(t: Target, files: Files, es: seq<Event>, k: nat)
    ensures var w := Run(Start(t, files), t, es);
            k < |w.calls| && w.calls[k].answer.Some? && w.calls[k].answer.value.Accepted? ==>
              var c, x := w.calls[k], w.calls[k].answer.value.effect;
              && x in w.effects && x.key == c.key && Makes(t, x, BodyOf(c))
              && (Own(t, x.after) == c.preview.after <==> SameElsewhere(c.preview.before, c.preview.after, t.setting))
              && exists r, valid :: Matches(w.history, t, c, x, r, valid)
  {
    hide Step, Run, Matches, SameElsewhere, From;
    RunKeeps(Start(t, files), t, es);
    var w := Run(Start(t, files), t, es);
    if k < |w.calls| && w.calls[k].answer.Some? && w.calls[k].answer.value.Accepted? {
      assert CallInPlace(w, t, w.calls[k]);
      var r, valid :| From(w.history, t, w.calls[k].change, w.calls[k].preview, r, valid);
      EffectMatches(w.history, t, w.calls[k], w.calls[k].answer.value.effect, r, valid);
    }
  }
}
