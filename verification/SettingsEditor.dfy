/** The configuration editor: preview, then apply under revision compare, with an idempotency key that
    its component draws when it is mounted and whenever the draft changes. */
module SettingsEditor {
  import opened Options

  // A revision is the digest of a file's content, so comparing revisions compares content.
  type Config = map<string, string>

  datatype Change = Set(value: string) | Unset

  function Mutate(before: Config, setting: string, change: Change): Config {
    match change
    case Set(value) => before[setting := value]
    case Unset => before - {setting}
  }

  datatype Source = ProjectFile | UserFile | ShippedDefault

  /** The value of a setting that wins, and the layer it comes from. */
  datatype Effective = Effective(value: string, source: Source)

  /** What the server answers about a change: the content of the scope's file before and after, and the
      effective value of the setting before and after, which is what the panel shows. */
  datatype Preview = Preview(before: Config, after: Config, shownBefore: Effective, shownAfter: Effective, valid: bool)

  datatype Phase =
    | Closed
    | Editing(draft: Change)
    | Previewing(draft: Change)
    | Previewed(draft: Change, preview: Preview)
    | Applying(draft: Change, preview: Preview)
    | Outdated(draft: Change)
    | Failed(draft: Change)

  /** The phase and the content on display belong to the page; the key belongs to the editor component,
      which is mounted while the phase is not closed. Keys never repeat: they are numbered as drawn. */
  datatype State = State(phase: Phase, shown: Config, key: nat)

  predicate Busy(p: Phase) { p.Previewing? || p.Applying? }

  /** Showing a phase mounts the component if it was closed. */
  function Show(s: State, phase: Phase): State {
    s.(phase := phase, key := if s.phase.Closed? && !phase.Closed? then s.key + 1 else s.key)
  }

  /** The controls are disabled while a request is under way. */
  function UpdateDraft(s: State, draft: Change): State {
    if s.phase.Closed? || Busy(s.phase) then s else s.(phase := Editing(draft), key := s.key + 1)
  }

  /** The setting's Edit button works in every phase, and starts from the current value. */
  function Open(s: State, draft: Change): State { Show(s, Editing(draft)) }

  /** Discarding the draft, or leaving for another tab or scope, which works in every phase too. */
  function Close(s: State): State { s.(phase := Closed) }

  /** A search that hides the setting, or a refresh that fails, unmounts the component; the draft stays. */
  function Remount(s: State): State { if s.phase.Closed? then s else s.(key := s.key + 1) }

  function StartPreview(s: State, formValid: bool): State {
    if s.phase.Closed? || Busy(s.phase) then s
    else s.(phase := if formValid then Previewing(s.phase.draft) else Failed(s.phase.draft))
  }

  /** A response is shown with the draft of its request, whatever the editor shows by then. */
  function PreviewDone(s: State, draft: Change, preview: Preview): State { Show(s, Previewed(draft, preview)) }

  /** A conflict reloads the authoritative state, if it can; other failures keep what is shown. */
  function Rejected(s: State, draft: Change, conflict: bool, reloaded: Option<Config>): State {
    if conflict then Show(s.(shown := if reloaded.Some? then reloaded.value else s.shown), Outdated(draft))
    else Show(s, Failed(draft))
  }

  predicate MayApply(s: State, formValid: bool) {
    s.phase.Previewed? && s.phase.preview.valid && s.shown == s.phase.preview.before && formValid
  }

  function StartApply(s: State, formValid: bool): State {
    if !s.phase.Previewed? || !s.phase.preview.valid then s
    else if s.shown != s.phase.preview.before then s.(phase := Outdated(s.phase.draft))
    else if !formValid then s.(phase := Failed(s.phase.draft))
    else s.(phase := Applying(s.phase.draft, s.phase.preview))
  }

  /** The receipt has come. Without a reload the key stays. */
  function Applied(s: State, draft: Change, reloaded: Option<Config>): State {
    if reloaded.Some? then s.(phase := Closed, shown := reloaded.value, key := s.key + 1)
    else Show(s, Failed(draft))
  }

  // ---------------------------------------------------------------- the editor as it runs

  class ConfigurationEditor {
    var phase: Phase
    var shown: Config
    var key: nat

    function View(): State
      reads this
    {
      State(phase, shown, key)
    }

    constructor (shown: Config)
      ensures View() == State(Closed, shown, 0)
    {
      this.phase, this.shown, this.key := Closed, shown, 0;
    }

    method Display(next: Phase)
      modifies this
      ensures View() == Show(old(View()), next)
    {
      if phase.Closed? && !next.Closed? { key := key + 1; }
      phase := next;
    }

    method Update(draft: Change)
      modifies this
      ensures View() == UpdateDraft(old(View()), draft)
    {
      if phase.Closed? || phase.Previewing? || phase.Applying? { return; }
      key := key + 1;
      phase := Editing(draft);
    }

    method Unmount()
      modifies this
      ensures View() == Remount(old(View()))
    {
      if !phase.Closed? { key := key + 1; }
    }

    method Refresh(current: Config)
      modifies this
      ensures View() == old(View()).(shown := current)
    {
      shown := current;
    }

    /** The draft of the preview request, if one goes out. */
    method BeginPreview(formValid: bool) returns (sent: Option<Change>)
      modifies this
      ensures View() == StartPreview(old(View()), formValid)
      ensures sent.Some? <==> !old(phase).Closed? && !Busy(old(phase)) && formValid
      ensures sent.Some? ==> phase == Previewing(sent.value)
    {
      if phase.Closed? || phase.Previewing? || phase.Applying? { return None; }
      if !formValid {
        phase := Failed(phase.draft);
        return None;
      }
      phase := Previewing(phase.draft);
      sent := Some(phase.draft);
    }

    method OnPreview(draft: Change, preview: Preview)
      modifies this
      ensures View() == PreviewDone(old(View()), draft, preview)
    {
      Display(Previewed(draft, preview));
    }

    method OnRejected(draft: Change, conflict: bool, reloaded: Option<Config>)
      modifies this
      ensures View() == Rejected(old(View()), draft, conflict, reloaded)
    {
      if conflict {
        if reloaded.Some? { shown := reloaded.value; }
        Display(Outdated(draft));
      } else {
        Display(Failed(draft));
      }
    }

    /** The apply request, if one goes out: its key, its change, and the preview with the revision it replaces. */
    method Apply(formValid: bool) returns (sent: Option<(nat, Change, Preview)>)
      modifies this
      ensures View() == StartApply(old(View()), formValid)
      ensures sent.Some? <==> MayApply(old(View()), formValid)
      ensures sent.Some? ==> phase == Applying(sent.value.1, sent.value.2) && sent.value.0 == key
    {
      if !phase.Previewed? || !phase.preview.valid { return None; }
      var draft, preview := phase.draft, phase.preview;
      if shown != preview.before {
        phase := Outdated(draft);
        return None;
      }
      if !formValid {
        phase := Failed(draft);
        return None;
      }
      phase := Applying(draft, preview);
      sent := Some((key, draft, preview));
    }

    method OnApplied(draft: Change, reloaded: Option<Config>)
      modifies this
      ensures View() == Applied(old(View()), draft, reloaded)
    {
      if reloaded.None? {
        Display(Failed(draft));
        return;
      }
      shown := reloaded.value;
      key := key + 1;
      phase := Closed;
    }
  }
}
