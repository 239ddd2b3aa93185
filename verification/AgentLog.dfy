/** The bounded window over an agent's append-only log, and the reader that keeps it up to date. */
module AgentLog {
  import opened Options

  newtype byte = x: int | 0 <= x < 256

  const WINDOW_BYTES: nat := 256 * 1024
  const PAGE_BYTES: nat := 64 * 1024
  const MAX_SAFE := 0x1F_FFFF_FFFF_FFFF

  /** A page as the server returned it; its numbers are not to be trusted yet. */
  datatype Page = Page(offset: int, nextOffset: int, size: int, complete: bool, bytes: seq<byte>)

  datatype Window = Window(offset: int, nextOffset: int, size: int, complete: bool, bytes: seq<byte>,
                           omittedBefore: bool)

  datatype Error = InvalidNumber | InconsistentCursor | InvalidLimit | InvalidSize | Unavailable

  datatype Result<+T> = Ok(value: T) | Err(error: Error)

  predicate IsSafe(n: int) { 0 <= n <= MAX_SAFE }

  function ValidateLogPage(page: Page): (r: Result<()>) {
    if !IsSafe(page.offset) || !IsSafe(page.nextOffset) || !IsSafe(page.size) then Err(InvalidNumber)
    else if page.nextOffset != page.offset + |page.bytes| || page.nextOffset > page.size then Err(InconsistentCursor)
    else Ok(())
  }

  function LogTailOffset(size: int, limit: int): (r: Result<int>) {
    if !IsSafe(size) then Err(InvalidSize) else Ok(if size - limit > 0 then size - limit else 0)
  }

  /** The page continues the window it is merged into. */
  predicate Continues(current: Window, page: Page) {
    current.offset <= page.offset <= current.nextOffset && page.size >= current.nextOffset
  }

  /** The last bytes that fit. */
  function Trimmed(page: Page, offset: int, bytes: seq<byte>, limit: nat): Window {
    var trim := if |bytes| > limit then |bytes| - limit else 0;
    Window(offset + trim, page.nextOffset, page.size, page.complete, bytes[trim..], offset + trim > 0)
  }

  function Joined(current: Window, page: Page): seq<byte>
    requires Continues(current, page)
  {
    var overlap := current.nextOffset - page.offset;
    current.bytes + if overlap >= |page.bytes| then [] else page.bytes[overlap..]
  }

  function Merge(current: Option<Window>, page: Page, limit: int): Result<Window> {
    match ValidateLogPage(page)
    case Err(e) => Err(e)
    case Ok(_) =>
      if !(1 <= limit <= MAX_SAFE) then Err(InvalidLimit)
      else if current.Some? && Continues(current.value, page)
      then Ok(Trimmed(page, current.value.offset, Joined(current.value, page), limit))
      else Ok(Trimmed(page, page.offset, page.bytes, limit))
  }

  method ConcatBytes(left: seq<byte>, right: seq<byte>) returns (value: array<byte>)
    ensures fresh(value) && value[..] == left + right
  {
    value := new byte[|left| + |right|];
    for i := 0 to |left|
      invariant value[..i] == left[..i]
    {
      value[i] := left[i];
    }
    for j := 0 to |right|
      invariant value[..|left| + j] == left + right[..j]
    {
      value[|left| + j] := right[j];
    }
    assert value[..] == value[..|left| + |right|];
  }

  method MergeAgentLogWindow(current: Option<Window>, page: Page, limit: int) returns (r: Result<Window>)
    ensures r == Merge(current, page, limit)
  {
    var valid := ValidateLogPage(page);
    if valid.Err? { return Err(valid.error); }
    if !(1 <= limit <= MAX_SAFE) { return Err(InvalidLimit); }
    var offset, bytes := page.offset, page.bytes;
    if current.Some? && page.offset >= current.value.offset && page.offset <= current.value.nextOffset
       && page.size >= current.value.nextOffset {
      var overlap := current.value.nextOffset - page.offset;
      var suffix := if overlap >= |page.bytes| then [] else page.bytes[overlap..];
      var buffer := ConcatBytes(current.value.bytes, suffix);
      bytes := buffer[..];
      offset := current.value.offset;
    }
    if |bytes| > limit {
      var trim := |bytes| - limit;
      bytes := bytes[trim..];
      offset := offset + trim;
    }
    r := Ok(Window(offset, page.nextOffset, page.size, page.complete, bytes, offset > 0));
  }

  // ---------------------------------------------------------------- the window refines the log

  /** A page of the log, read when the log was page.size bytes long; it may have grown since. */
  ghost predicate PageOf(page: Page, log: seq<byte>) {
    && 0 <= page.offset <= page.nextOffset <= page.size <= |log| && page.size <= MAX_SAFE
    && page.bytes == log[page.offset..page.nextOffset]
    && (page.complete <==> page.nextOffset == page.size)
  }

  ghost predicate WindowOf(w: Window, log: seq<byte>, limit: nat) {
    && 0 <= w.offset <= w.nextOffset <= w.size <= |log|
    && w.bytes == log[w.offset..w.nextOffset]
    && |w.bytes| <= limit
    && (w.omittedBefore <==> w.offset > 0)
    && (w.complete <==> w.nextOffset == w.size)
  }

  function Max(a: int, b: int): int { if a < b then b else a }

  function Min(a: int, b: int): int { if a < b then a else b }

  lemma {:induction false} SliceTwice<T>(s: seq<T>, a: nat, b: nat, c: nat)
    requires a <= b <= |s| && c <= b - a
    ensures s[a..b][c..] == s[a + c..b]
  {
  }

  lemma {:induction false} Adjoin<T>(s: seq<T>, a: nat, b: nat, c: nat)
    requires a <= b <= c <= |s|
    ensures s[a..b] + s[b..c] == s[a..c]
  {
  }

  /** Numbers that are safe, a cursor that fits the bytes, and a positive limit are all that is asked of a
      page; the first that fails names the error. The window then has the page's end, size and flag. */
  lemma {:induction false} MergeAccepts(current: Option<Window>, page: Page, limit: int)
    ensures var r := Merge(current, page, limit);
            if exists n <- [page.offset, page.nextOffset, page.size] :: n < 0 || n > MAX_SAFE
            then r == Err(InvalidNumber)
            else if page.nextOffset - page.offset != |page.bytes| || page.size < page.nextOffset
            then r == Err(InconsistentCursor)
            else if limit < 1 || limit > MAX_SAFE then r == Err(InvalidLimit)
            else
              && r.Ok? && r.value.nextOffset == page.nextOffset && r.value.size == page.size
              && r.value.complete == page.complete && |r.value.bytes| <= limit
              && (r.value.omittedBefore <==> r.value.offset > 0)
  {
    var ns := [page.offset, page.nextOffset, page.size];
    assert ns[0] in ns && ns[1] in ns && ns[2] in ns;
  }

  /** Exactly when a merge keeps the window a slice of the log: unless the page continues the window and
      ends before the window does. Otherwise the window holds the last bytes of what it now covers. */
  lemma {:induction false} MergeRefines(current: Option<Window>, page: Page, limit: nat, log: seq<byte>)
    requires 1 <= limit <= MAX_SAFE && PageOf(page, log)
    requires current.Some? ==> WindowOf(current.value, log, limit)
    ensures Merge(current, page, limit).Ok?
    ensures var continues := current.Some? && current.value.offset <= page.offset <= current.value.nextOffset
                             && current.value.nextOffset <= page.size;
            var start := if continues then current.value.offset else page.offset;
            var w := Merge(current, page, limit).value;
            && (WindowOf(w, log, limit) <==> (continues ==> page.nextOffset >= current.value.nextOffset))
            && (WindowOf(w, log, limit) ==>
                  w.nextOffset == page.nextOffset && w.offset == Max(start, page.nextOffset - limit))
  {
    hide Trimmed, Joined, PageOf, WindowOf;
    MergeOf(current, page, limit, log);
    if current.Some? && Continues(current.value, page) {
      ContinuedRefines(current.value, page, limit, log);
    } else {
      FreshRefines(page, limit, log);
    }
  }

  lemma {:induction false} MergeOf(current: Option<Window>, page: Page, limit: nat, log: seq<byte>)
    requires 1 <= limit <= MAX_SAFE && PageOf(page, log)
    ensures Merge(current, page, limit) ==
            if current.Some? && Continues(current.value, page)
            then Ok(Trimmed(page, current.value.offset, Joined(current.value, page), limit))
            else Ok(Trimmed(page, page.offset, page.bytes, limit))
  {
    hide Trimmed, Joined;
  }

  lemma {:induction false} FreshRefines(page: Page, limit: nat, log: seq<byte>)
    requires PageOf(page, log)
    ensures var w := Trimmed(page, page.offset, page.bytes, limit);
            WindowOf(w, log, limit) && w.nextOffset == page.nextOffset
              && w.offset == Max(page.offset, page.nextOffset - limit)
  {
    hide Trimmed;
    TrimmedRefines(page, page.offset, limit, log);
    TrimmedEnd(page, page.offset, page.bytes, limit);
  }

  lemma {:induction false} TrimmedEnd(page: Page, offset: int, bytes: seq<byte>, limit: nat)
    ensures var w := Trimmed(page, offset, bytes, limit);
            w.nextOffset == page.nextOffset && w.offset + |w.bytes| == offset + |bytes|
  {
  }

  lemma {:induction false} ContinuedRefines(c: Window, page: Page, limit: nat, log: seq<byte>)
    requires PageOf(page, log) && WindowOf(c, log, limit) && Continues(c, page)
    ensures var w := Trimmed(page, c.offset, Joined(c, page), limit);
            && (WindowOf(w, log, limit) <==> page.nextOffset >= c.nextOffset)
            && (WindowOf(w, log, limit) ==>
                  w.nextOffset == page.nextOffset && w.offset == Max(c.offset, page.nextOffset - limit))
  {
    hide Trimmed;
    TrimmedEnd(page, c.offset, Joined(c, page), limit);
    if page.nextOffset >= c.nextOffset {
      JoinedBytes(c, page, limit, log);
      TrimmedRefines(page, c.offset, limit, log);
    } else {
      assert Joined(c, page) == c.bytes + [];
    }
  }

  lemma {:induction false} JoinedBytes(c: Window, page: Page, limit: nat, log: seq<byte>)
    requires PageOf(page, log) && WindowOf(c, log, limit) && Continues(c, page) && page.nextOffset >= c.nextOffset
    ensures Joined(c, page) == log[c.offset..page.nextOffset]
  {
    var overlap := c.nextOffset - page.offset;
    SliceTwice(log, page.offset, page.nextOffset, overlap);
    Adjoin(log, c.offset, c.nextOffset, page.nextOffset);
    assert page.bytes[overlap..] == log[c.nextOffset..page.nextOffset];
    if overlap == |page.bytes| { assert page.bytes[overlap..] == []; }
  }

  lemma {:induction false} TrimmedRefines(page: Page, offset: nat, limit: nat, log: seq<byte>)
    requires PageOf(page, log) && offset <= page.nextOffset
    ensures var w := Trimmed(page, offset, log[offset..page.nextOffset], limit);
            WindowOf(w, log, limit) && w.offset == Max(offset, page.nextOffset - limit)
  {
    var n := page.nextOffset - offset;
    SliceTwice(log, offset, page.nextOffset, if n > limit then n - limit else 0);
  }

  /** A page that lies inside the window makes it claim an end before its bytes. */
  lemma {:induction false} InsidePageExample()
    ensures exists current, page, log ::
              WindowOf(current, log, 4) && PageOf(page, log) && Merge(Some(current), page, 4).Ok?
              && !WindowOf(Merge(Some(current), page, 4).value, log, 4)
  {
    var log: seq<byte> := [1, 2, 3];
    var current := Window(0, 3, 3, true, log, false);
    var page := Page(0, 1, 3, false, [1]);
    assert log[0..3] == log && log[0..1] == [1];
    MergeRefines(Some(current), page, 4, log);
    assert WindowOf(current, log, 4) && PageOf(page, log) && Merge(Some(current), page, 4).Ok?;
  }

  lemma {:induction false} Grown(w: Window, log: seq<byte>, more: seq<byte>, limit: nat)
    requires WindowOf(w, log, limit)
    ensures WindowOf(w, log + more, limit)
  {
    assert (log + more)[w.offset..w.nextOffset] == log[w.offset..w.nextOffset];
  }

  // ---------------------------------------------------------------- any sequence of pages

  function MergeAll(current: Option<Window>, pages: seq<Page>, limit: int): Result<Option<Window>>
    decreases |pages|
  {
    if pages == [] then Ok(current)
    else match Merge(current, pages[0], limit)
      case Err(e) => Err(e)
      case Ok(w) => MergeAll(Some(w), pages[1..], limit)
  }

  /** Pages of a growing log, none of which ends inside the window it continues. */
  ghost predicate Orderly(current: Option<Window>, pages: seq<Page>, logs: seq<seq<byte>>, limit: nat)
    requires 1 <= limit
    decreases |pages|
  {
    |pages| == |logs| &&
    (pages == [] ||
     (&& PageOf(pages[0], logs[0])
      && (current.Some? && Continues(current.value, pages[0]) ==> pages[0].nextOffset >= current.value.nextOffset)
      && (|logs| > 1 ==> logs[0] <= logs[1])
      && (Merge(current, pages[0], limit).Ok? ==>
          Orderly(Some(Merge(current, pages[0], limit).value), pages[1..], logs[1..], limit))))
  }

  /** After any such sequence the window is a slice of the log as it is then. */
  lemma {:induction false} MergeAllRefines(current: Option<Window>, pages: seq<Page>, logs: seq<seq<byte>>, limit: nat)
    requires 1 <= limit <= MAX_SAFE && Orderly(current, pages, logs, limit) && pages != []
    requires current.Some? ==> WindowOf(current.value, logs[0], limit)
    ensures var r := MergeAll(current, pages, limit);
            r.Ok? && r.value.Some? && WindowOf(r.value.value, logs[|logs| - 1], limit)
    decreases |pages|
  {
    hide WindowOf, PageOf, Merge;
    MergeRefines(current, pages[0], limit, logs[0]);
    var w := Merge(current, pages[0], limit).value;
    if |pages| > 1 {
      Grown(w, logs[0], logs[1][|logs[0]|..], limit);
      assert logs[0] + logs[1][|logs[0]|..] == logs[1];
      MergeAllRefines(Some(w), pages[1..], logs[1..], limit);
    } else {
      assert MergeAll(Some(w), pages[1..], limit) == Ok(Some(w));
    }
  }

  /** Pages that split log[from..to) into consecutive pieces. */
  ghost predicate Splits(pages: seq<Page>, log: seq<byte>, from: nat, to: nat) {
    if pages == [] then from == to
    else PageOf(pages[0], log) && pages[0].offset == from && Splits(pages[1..], log, pages[0].nextOffset, to)
  }

  /** The window over the last bytes of log[from..to). */
  ghost predicate Tail(w: Window, log: seq<byte>, from: nat, to: nat, limit: nat) {
    WindowOf(w, log, limit) && w.nextOffset == to && w.offset == Max(from, to - limit)
  }

  /** Trimming after each piece of any split is trimming once: the window that remains is the last
      min(limit, length) bytes, and its offset and bytes are those of merging the range as one page. */
  lemma {:induction false} TrimmingOnce(pages: seq<Page>, whole: Page, log: seq<byte>, limit: nat)
    requires 1 <= limit <= MAX_SAFE && pages != [] && PageOf(whole, log)
    requires Splits(pages, log, whole.offset, whole.nextOffset)
    ensures exists w: Window, once: Window ::
              && MergeAll(None, pages, limit) == Ok(Some(w)) && Merge(None, whole, limit) == Ok(once)
              && w.offset == once.offset && w.nextOffset == once.nextOffset && w.bytes == once.bytes
              && w.omittedBefore == once.omittedBefore
              && w.bytes == log[Max(whole.offset, whole.nextOffset - limit)..whole.nextOffset]
  {
    hide Merge, WindowOf;
    MergeRefines(None, pages[0], limit, log);
    MergeRefines(None, whole, limit, log);
    var first, once := Merge(None, pages[0], limit).value, Merge(None, whole, limit).value;
    TrimmingOn(first, pages[1..], log, whole.offset, whole.nextOffset, limit);
    var w :| MergeAll(Some(first), pages[1..], limit) == Ok(Some(w))
             && Tail(w, log, whole.offset, whole.nextOffset, limit);
    TailBytes(w, log, whole.offset, whole.nextOffset, limit);
    TailBytes(once, log, whole.offset, whole.nextOffset, limit);
    assert MergeAll(None, pages, limit) == Ok(Some(w)) && Merge(None, whole, limit) == Ok(once);
  }

  lemma {:induction false} TailBytes(w: Window, log: seq<byte>, from: nat, to: nat, limit: nat)
    requires Tail(w, log, from, to, limit)
    ensures w.offset >= 0 && to <= |log| && w.bytes == log[w.offset..to] && (w.omittedBefore <==> w.offset > 0)
  {
  }

  lemma {:induction false} TrimmingOn(w: Window, pages: seq<Page>, log: seq<byte>, from: nat, to: nat, limit: nat)
    requires 1 <= limit <= MAX_SAFE && w.nextOffset >= from && Tail(w, log, from, w.nextOffset, limit)
    requires Splits(pages, log, w.nextOffset, to)
    ensures exists x :: MergeAll(Some(w), pages, limit) == Ok(Some(x)) && Tail(x, log, from, to, limit)
    decreases |pages|
  {
    hide Merge, WindowOf;
    if pages == [] {
      assert MergeAll(Some(w), pages, limit) == Ok(Some(w));
    } else {
      MergeRefines(Some(w), pages[0], limit, log);
      TrimmingOn(Merge(Some(w), pages[0], limit).value, pages[1..], log, from, to, limit);
    }
  }

  // ---------------------------------------------------------------- the reader

  /** What happens when a page is asked for: the request fails, or the log has grown by some bytes. */
  datatype Turn = Fails | Grows(more: seq<byte>)

  /** One of the first n turns of the script fails. */
  predicate FailsWithin(script: seq<Turn>, n: nat) { exists k | 0 <= k < |script| :: k < n && script[k].Fails? }

  function AfterTurns(script: seq<Turn>, n: nat): seq<Turn> { if n <= |script| then script[n..] else [] }

  predicate FailsFirst(script: seq<Turn>) { script != [] && script[0].Fails? }

  lemma {:induction false} OneMoreTurn(script: seq<Turn>, n: nat)
    ensures AfterTurns(AfterTurns(script, n), 1) == AfterTurns(script, n + 1)
    ensures FailsWithin(script, n + 1) <==> FailsWithin(script, n) || FailsFirst(AfterTurns(script, n))
    ensures AfterTurns(script, 0) == script && !FailsWithin(script, 0)
  {
    if FailsFirst(AfterTurns(script, n)) { assert script[n].Fails?; }
  }

  /** The server's log of one attempt; every script of turns is possible. */
  class LogService {
    const attemptId: string
    var log: seq<byte>
    var script: seq<Turn>
    var requests: nat

    constructor (attemptId: string, log: seq<byte>, script: seq<Turn>)
      ensures this.attemptId == attemptId && this.log == log && this.script == script && requests == 0
    {
      this.attemptId, this.log, this.script, this.requests := attemptId, log, script, 0;
    }

    function Growth(): seq<byte>
      reads this
    {
      if script == [] || script[0].Fails? then [] else script[0].more
    }

    /** Full pages from the cursor, with the size at the time of reading. It fails exactly if the turn does,
        the cursor is outside the log, or the log is too long for its size to be a safe number. */
    method ReadAgentLog(after: int, limit: nat) returns (r: Result<Page>)
      requires limit > 0
      modifies this
      ensures log == old(log) + old(Growth())
      ensures script == AfterTurns(old(script), 1) && requests == old(requests) + 1
      ensures r.Err? <==> FailsFirst(old(script)) || !(0 <= after <= |log|) || |log| > MAX_SAFE
      ensures r.Ok? ==> PageOf(r.value, log) && r.value.offset == after && r.value.size == |log|
                        && r.value.nextOffset == if after + limit < |log| then after + limit else |log|
    {
      var turn := if script == [] then Grows([]) else script[0];
      script := if script == [] then [] else script[1..];
      requests := requests + 1;
      if turn.Fails? { return Err(Unavailable); }
      log := log + turn.more;
      if !(0 <= after <= |log|) || |log| > MAX_SAFE { return Err(Unavailable); }
      var next := if after + limit < |log| then after + limit else |log|;
      r := Ok(Page(after, next, |log|, next == |log|, log[after..next]));
    }
  }

  class LogReader {
    var window: Option<Window>
    var attempt: string

    constructor ()
      ensures window == None
    {
      window, attempt := None, "";
    }

    /** What the reader shows for the attempt is a slice of its log. */
    ghost predicate Shows(service: LogService)
      reads this, service
    {
      window.Some? && attempt == service.attemptId ==> WindowOf(window.value, service.log, WINDOW_BYTES)
    }

    /** Some request since then has failed, or the log has become too long. */
    ghost predicate Failed(service: LogService, script: seq<Turn>, requests: nat)
      reads service
    {
      (requests <= service.requests && FailsWithin(script, service.requests - requests)) || |service.log| > MAX_SAFE
    }

    /** Opens the log at its tail, or reads the next page. A failure leaves the window as it was. It fails
        exactly if one of its own requests does, or the log is too long. */
    method ReadLog(service: LogService, hasLog: bool, reset: bool) returns (done: bool, ghost probed: nat)
      requires Shows(service)
      modifies this, service
      ensures Shows(service) && old(service.log) <= service.log
      ensures old(service.requests) <= service.requests <= old(service.requests) + 5
      ensures done <==> !hasLog || !Failed(service, old(service.script), old(service.requests))
      ensures !done ==> window == old(window) && attempt == old(attempt)
      ensures done && !hasLog ==> window == None && service.requests == old(service.requests)
      ensures done && hasLog ==> window.Some? && attempt == service.attemptId
      ensures done && hasLog && !reset && old(attempt == service.attemptId && window.Some?) ==>
                && window.value.nextOffset == Min(old(window.value.nextOffset) + 65_536, |service.log|)
                && window.value.offset == Max(old(window.value.offset), window.value.nextOffset - 262_144)
                && window.value.size == |service.log|
      ensures done && hasLog && (reset || old(attempt != service.attemptId || window.None?)) ==>
                && old(|service.log|) <= probed <= window.value.nextOffset
                && window.value.offset == Max(0, window.value.nextOffset - 262_144)
    {
      probed := 0;
      if !hasLog {
        window, attempt := None, service.attemptId;
        return true, 0;
      }
      if reset || attempt != service.attemptId || window.None? {
        var tail: Result<Window>;
        tail, probed := OpenTail(service);
        if tail.Err? { return false, probed; }
        window, attempt := Some(tail.value), service.attemptId;
        return true, probed;
      }
      var merged := ReadPage(service, window, window.value.nextOffset);
      if merged.Err? { return false, 0; }
      window := Some(merged.value);
      done := true;
    }

    /** One full page from the cursor, merged into the window. */
    method ReadPage(service: LogService, current: Option<Window>, after: int) returns (r: Result<Window>)
      requires current.Some? ==> WindowOf(current.value, service.log, WINDOW_BYTES) && current.value.nextOffset == after
      modifies service
      ensures old(service.log) <= service.log && service.requests == old(service.requests) + 1
      ensures service.script == AfterTurns(old(service.script), 1)
      ensures current.Some? ==> WindowOf(current.value, service.log, WINDOW_BYTES)
      ensures r.Err? <==> FailsFirst(old(service.script)) || !(0 <= after <= |service.log|) || |service.log| > MAX_SAFE
      ensures r.Ok? ==>
                && WindowOf(r.value, service.log, WINDOW_BYTES) && r.value.size == |service.log|
                && r.value.nextOffset == Min(after + PAGE_BYTES, |service.log|)
                && (r.value.complete <==> r.value.nextOffset == |service.log|)
                && r.value.offset == Max(if current.Some? then current.value.offset else after,
                                         r.value.nextOffset - WINDOW_BYTES)
    {
      hide WindowOf, Merge;
      ghost var before := service.log;
      var page := service.ReadAgentLog(after, PAGE_BYTES);
      if current.Some? {
        Grown(current.value, before, service.log[|before|..], WINDOW_BYTES);
        assert before + service.log[|before|..] == service.log;
      }
      if page.Err? { return Err(page.error); }
      r := MergeAgentLogWindow(current, page.value, WINDOW_BYTES);
      MergeRefines(current, page.value, WINDOW_BYTES, service.log);
      MergedSize(current, page.value, WINDOW_BYTES);
    }

    lemma {:induction false} MergedSize(current: Option<Window>, page: Page, limit: nat)
      requires Merge(current, page, limit).Ok?
      ensures var w := Merge(current, page, limit).value;
              w.size == page.size && w.nextOffset == page.nextOffset && w.complete == page.complete
    {
    }

    /** The probe and at most four pages: the window then ends at or past the size the probe saw, and holds
        all the last bytes that fit. */
    method OpenTail(service: LogService) returns (r: Result<Window>, ghost probed: nat)
      modifies service
      ensures old(service.log) <= service.log
      ensures old(service.requests) <= service.requests <= old(service.requests) + 5
      ensures r.Err? <==> Failed(service, old(service.script), old(service.requests))
      ensures r.Ok? ==>
                && WindowOf(r.value, service.log, WINDOW_BYTES) && old(|service.log|) <= probed <= r.value.nextOffset
                && r.value.offset == Max(0, r.value.nextOffset - WINDOW_BYTES)
    {
      hide FailsWithin, AfterTurns, FailsFirst, Merge, WindowOf;
      probed := 0;
      OneMoreTurn(service.script, 0);
      var probe := service.ReadAgentLog(0, 1);
      if probe.Err? { return Err(probe.error), 0; }
      probed := probe.value.size;
      var tail := LogTailOffset(probe.value.size, WINDOW_BYTES);
      if tail.Err? { return Err(tail.error), probed; }
      var current: Option<Window> := None;
      var after := tail.value;
      MergeRefines(None, probe.value, WINDOW_BYTES, service.log);
      if tail.value == 0 {
        var first := MergeAgentLogWindow(None, probe.value, WINDOW_BYTES);
        if first.Err? { return Err(first.error), probed; }
        MergedSize(None, probe.value, WINDOW_BYTES);
        current := Some(first.value);
        after := probe.value.nextOffset;
      }
      var index := 0;
      while index < 4 && (current.None? || !current.value.complete)
        invariant index <= 4 && 0 <= after <= |service.log|
        invariant old(service.log) <= service.log && service.requests == old(service.requests) + 1 + index
        invariant old(|service.log|) <= probed <= |service.log| <= MAX_SAFE
        invariant service.script == AfterTurns(old(service.script), 1 + index)
        invariant !FailsWithin(old(service.script), 1 + index)
        invariant current.Some? ==>
                    WindowOf(current.value, service.log, WINDOW_BYTES) && current.value.nextOffset == after
        invariant current.None? ==> index == 0 && after == tail.value
        invariant current.Some? ==> current.value.offset == Max(tail.value, after - WINDOW_BYTES)
        invariant after >= probed || after >= tail.value + index * PAGE_BYTES
        invariant current.Some? && current.value.complete ==> after >= probed
      {
        OneMoreTurn(old(service.script), 1 + index);
        var merged := ReadPage(service, current, after);
        if merged.Err? { return Err(merged.error), probed; }
        current := Some(merged.value);
        if current.value.nextOffset == after { break; }
        after := current.value.nextOffset;
        index := index + 1;
      }
      r := Ok(current.value);
    }
  }
}
