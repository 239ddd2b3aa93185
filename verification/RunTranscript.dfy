/** Resumable polling of a run's transcript: pages from a cursor, appended without repetition. */
module RunTranscript {
  datatype Event = Event(position: nat, data: string)

  datatype Page = Page(events: seq<Event>, next: nat, hasMore: bool)

  const PAGE_LIMIT: nat := 1000

  predicate Ascending(es: seq<Event>) {
    && (forall i | 0 <= i < |es| :: es[i].position > 0)
    && (forall i, j | 0 <= i < j < |es| :: es[i].position < es[j].position)
  }

  function Last(es: seq<Event>): nat { if es == [] then 0 else es[|es| - 1].position }

  /** How many events stand at or before a position. */
  function Upto(log: seq<Event>, position: nat): (n: nat)
    ensures n <= |log|
    ensures forall i | 0 <= i < n :: log[i].position <= position
    ensures n < |log| ==> log[n].position > position
  {
    if log == [] || log[0].position > position then 0 else 1 + Upto(log[1..], position)
  }

  /** The server's page: up to `limit` events after the cursor. */
  function PageAfter(log: seq<Event>, after: nat, limit: nat): Page {
    var from := Upto(log, after);
    var to := if from + limit < |log| then from + limit else |log|;
    Page(log[from..to], if from < to then log[to - 1].position else after, to - from == limit)
  }

  function After(es: seq<Event>, position: nat): seq<Event> {
    if es == [] then []
    else (if es[0].position > position then [es[0]] else []) + After(es[1..], position)
  }

  /** Appends what is newer than the last event shown; the first page is taken whole. */
  function Append(current: seq<Event>, page: seq<Event>): seq<Event> {
    current + if current == [] then page else After(page, Last(current))
  }

  lemma {:induction false} AfterSplit(es: seq<Event>, position: nat, n: nat)
    requires n <= |es| && (forall i | 0 <= i < n :: es[i].position <= position)
    requires forall i | n <= i < |es| :: es[i].position > position
    ensures After(es, position) == es[n..]
  {
    if es != [] {
      if n > 0 {
        AfterSplit(es[1..], position, n - 1);
      } else {
        AfterSplit(es[1..], position, 0);
        assert es[0..] == [es[0]] + es[1..];
      }
    }
  }

  /** What is shown is the log's prefix up to the cursor. */
  ghost predicate Shows(events: seq<Event>, cursor: nat, log: seq<Event>) {
    Ascending(log) && events <= log && cursor == Last(events)
  }

  lemma {:induction false} Ordered(log: seq<Event>)
    requires Ascending(log)
    ensures forall i, j | 0 <= i <= j < |log| :: log[i].position <= log[j].position
  {
  }

  lemma {:induction false} UptoPrefix(log: seq<Event>, n: nat)
    requires Ascending(log) && n <= |log|
    ensures Upto(log, if n == 0 then 0 else log[n - 1].position) == n
  {
    Ordered(log);
    UptoUnique(log, if n == 0 then 0 else log[n - 1].position, n);
  }

  lemma {:induction false} UptoUnique(log: seq<Event>, position: nat, n: nat)
    requires n <= |log| && (forall i | 0 <= i < n :: log[i].position <= position)
    requires n < |log| ==> log[n].position > position
    ensures Upto(log, position) == n
  {
    if n > 0 { UptoUnique(log[1..], position, n - 1); }
  }

  /** Appending a stretch that starts at or before the end of what is shown. */
  lemma {:induction false} AppendPrefix(log: seq<Event>, n: nat, from: nat, to: nat)
    requires Ascending(log) && from <= n <= |log| && from <= to <= |log|
    ensures Append(log[..n], log[from..to]) == log[..if n < to then to else n]
  {
    hide After, Ascending;
    var page := log[from..to];
    if n == 0 {
      assert log[..0] == [];
    } else {
      var known := (if n < to then n else to) - from;
      assert Last(log[..n]) == log[n - 1].position;
      Positions(log, n, from, to);
      AfterSplit(page, log[n - 1].position, known);
      if n < to { assert page[known..] == log[n..to] && log[..n] + log[n..to] == log[..to]; }
      else { assert page[known..] == []; }
    }
  }

  lemma {:induction false} Positions(log: seq<Event>, n: nat, from: nat, to: nat)
    requires Ascending(log) && 0 < n <= |log| && from <= n && from <= to <= |log|
    ensures var page := log[from..to];
            && (forall i | 0 <= i < |page| && from + i < n :: page[i].position <= log[n - 1].position)
            && (forall i | 0 <= i < |page| && from + i >= n :: page[i].position > log[n - 1].position)
  {
    Ordered(log);
  }

  /** Any page of the log, even one asked for at an earlier cursor and answered again, keeps what is shown
      the log's prefix: events already shown are not repeated, and none is skipped. */
  lemma {:induction false} PageExtends(events: seq<Event>, cursor: nat, log: seq<Event>, after: nat, limit: nat)
    requires Shows(events, cursor, log) && after <= cursor && limit > 0
    ensures var page := PageAfter(log, after, limit);
            Shows(Append(events, page.events), if page.next > cursor then page.next else cursor, log)
            && |events| <= |Append(events, page.events)|
    ensures var page := PageAfter(log, after, limit);
            after == cursor ==>
              && page.next >= cursor
              && (page.events != [] ==> page.next > cursor && |events| < |Append(events, page.events)|)
              && (page.hasMore ==> page.events != [])
              && (!page.hasMore ==> Append(events, page.events) == log)
  {
    hide Append, Ascending, Upto;
    var page := PageAfter(log, after, limit);
    var n := |events|;
    var position := if n == 0 then 0 else log[n - 1].position;
    assert log[..n] == events && cursor == position;
    UptoPrefix(log, n);
    UptoGrows(log, after, cursor);
    var from := Upto(log, after);
    var to := from + |page.events|;
    AppendPrefix(log, n, from, to);
    Ordered(log);
    LastOf(log, if n < to then to else n);
  }

  lemma {:induction false} LastOf(log: seq<Event>, n: nat)
    requires n <= |log|
    ensures Last(log[..n]) == if n == 0 then 0 else log[n - 1].position
  {
  }

  lemma {:induction false} UptoGrows(log: seq<Event>, a: nat, b: nat)
    requires a <= b
    ensures Upto(log, a) <= Upto(log, b)
  {
    if log != [] && log[0].position <= a { UptoGrows(log[1..], a, b); }
  }

  // ---------------------------------------------------------------- polling

  datatype Turn = Fails | Grows(more: seq<Event>)

  /** One of the first n turns of the script fails. */
  predicate FailsWithin(script: seq<Turn>, n: nat) { exists k | 0 <= k < |script| :: k < n && script[k].Fails? }

  predicate FailsFirst(script: seq<Turn>) { script != [] && script[0].Fails? }

  /** The run's log; before each request it may have grown, and the request may fail. */
  class TranscriptService {
    var log: seq<Event>
    var script: seq<Turn>

    ghost predicate Valid()
      reads this
    {
      Ascending(log) && ScriptFits(Last(log), script)
    }

    // Later events have later positions.
    static ghost predicate ScriptFits(last: nat, script: seq<Turn>)
      decreases |script|
    {
      script == [] ||
      match script[0]
      case Fails => ScriptFits(last, script[1..])
      case Grows(more) => Ascending(more) && (more != [] ==> more[0].position > last)
                          && ScriptFits(if more == [] then last else Last(more), script[1..])
    }

    constructor (log: seq<Event>, script: seq<Turn>)
      requires Ascending(log) && ScriptFits(Last(log), script)
      ensures Valid() && this.log == log
    {
      this.log, this.script := log, script;
    }

    function Growth(): seq<Event>
      reads this
    {
      if script == [] || script[0].Fails? then [] else script[0].more
    }

    /** It fails exactly if its turn does. */
    method GetRunTranscript(after: nat, limit: nat) returns (ok: bool, page: Page)
      requires Valid()
      modifies this
      ensures Valid() && log == old(log) + old(Growth())
      ensures ok <==> !FailsFirst(old(script))
      ensures ok ==> page == PageAfter(log, after, limit)
      ensures script == if old(script) == [] then [] else old(script)[1..]
    {
      page := Page([], after, false);
      ok := true;
      if script != [] {
        var turn := script[0];
        script := script[1..];
        if turn.Fails? { return false, page; }
        GrowthAscends(log, turn.more);
        log := log + turn.more;
      }
      page := PageAfter(log, after, limit);
    }

    static lemma {:induction false} GrowthAscends(log: seq<Event>, more: seq<Event>)
      requires Ascending(log) && Ascending(more) && (more != [] ==> more[0].position > Last(log))
      ensures Ascending(log + more) && Last(log + more) == (if more == [] then Last(log) else Last(more))
    {
      var all := log + more;
      forall i, j | 0 <= i < j < |all| ensures all[i].position < all[j].position {
        if i < |log| <= j {
          assert all[i].position <= Last(log) < more[0].position <= all[j].position;
        }
      }
      if more == [] { assert all == log; }
    }
  }

  lemma {:induction false} NextTurn(script: seq<Turn>, n: nat)
    requires n <= |script|
    ensures n < |script| ==> script[n..][1..] == script[n + 1..]
    ensures FailsWithin(script, n + 1) <==> FailsWithin(script, n) || FailsFirst(script[n..])
    ensures script[0..] == script && !FailsWithin(script, 0) && !FailsFirst([])
    ensures n == |script| ==> (FailsWithin(script, n + 1) <==> FailsWithin(script, n))
  {
    if FailsFirst(script[n..]) { assert script[n].Fails?; }
  }

  /** The live view of one run. */
  class LiveTranscript {
    var events: seq<Event>
    var cursor: nat

    constructor ()
      ensures events == [] && cursor == 0
    {
      events, cursor := [], 0;
    }

    /** One poll: pages until there are no more. Failing half-way keeps what was read; the next poll goes on
        from there. It fails exactly if one of its own requests does. A poll that ends well shows the whole
        log as of its last request. */
    method Poll(service: TranscriptService) returns (ok: bool)
      requires service.Valid() && Shows(events, cursor, service.log)
      modifies this, service
      ensures service.Valid() && Shows(events, cursor, service.log)
      ensures old(events) <= events && old(service.log) <= service.log
      ensures |service.script| <= |old(service.script)|
      ensures ok <==> !FailsWithin(old(service.script), |old(service.script)| - |service.script|)
      ensures ok ==> events == service.log
    {
      hide FailsWithin, FailsFirst, Ascending, Last, TranscriptService.ScriptFits;
      ghost var script, n: nat := service.script, 0;
      NextTurn(script, 0);
      var more := true;
      while more
        invariant service.Valid() && Shows(events, cursor, service.log)
        invariant old(events) <= events && old(service.log) <= service.log
        invariant !more ==> events == service.log
        invariant n <= |script| && service.script == script[n..] && !FailsWithin(script, n)
        decreases |service.script|, |service.log| - |events|, more
      {
        NextTurn(script, n);
        if n < |script| { n := n + 1; }
        var got: bool;
        got, more := NextPage(service);
        if !got { return false; }
      }
      ok := true;
    }

    /** The next page is read and appended; there are more as long as pages are full and move the cursor. */
    method NextPage(service: TranscriptService) returns (got: bool, more: bool)
      requires service.Valid() && Shows(events, cursor, service.log)
      modifies this, service
      ensures service.Valid() && Shows(events, cursor, service.log)
      ensures old(events) <= events && service.log == old(service.log) + old(service.Growth())
      ensures service.script == if old(service.script) == [] then [] else old(service.script)[1..]
      ensures got <==> !FailsFirst(old(service.script))
      ensures got && !more ==> events == service.log
      ensures got && more ==> |old(events)| < |events|
    {
      hide FailsFirst, Ascending, PageAfter, Last, TranscriptService.ScriptFits;
      more := false;
      var page: Page;
      got, page := service.GetRunTranscript(cursor, PAGE_LIMIT);
      Later(events, cursor, old(service.log), service.log);
      if !got { return; }
      PageExtends(events, cursor, service.log, cursor, PAGE_LIMIT);
      AppendNothing(events);
      if |page.events| > 0 { events := Append(events, page.events); }
      more := page.hasMore && page.next > cursor;
      cursor := page.next;
    }
  }

  lemma {:induction false} AppendNothing(events: seq<Event>)
    ensures Append(events, []) == events
  {
  }

  lemma {:induction false} Later(events: seq<Event>, cursor: nat, log: seq<Event>, more: seq<Event>)
    requires Shows(events, cursor, log) && log <= more && Ascending(more)
    ensures Shows(events, cursor, more)
  {
  }
}
