/** The file-system side of a run (`FileMonitor` and `_on_address_found`).
    The watcher's callbacks are modelled as a fold over the sequence of
    events it delivers; each event carries the outcome of reading the file
    and the clock value the callback would record. */
module Watcher {
  import opened Strings

  datatype EventKind = Created | Modified

  /** What `open(...).read()` produced for the event's path. */
  datatype ReadResult = Content(text: string) | ReadFailed(reason: string)

  datatype FsEvent = FsEvent(kind: EventKind, isDirectory: bool, path: string, read: ReadResult, at: int)

  /** `received_time`, `received_file` and `received_content` of the monitor:
      unset, or set together by the callback. */
  datatype Receipt = NoReceipt | Receipt(time: int, file: string, content: string)

  /** `FileMonitor.found` together with the monitor's receipt fields. */
  datatype WatchState = WatchState(found: bool, receipt: Receipt)

  const Initial := WatchState(false, NoReceipt)

  /** A file's content matches when the lower-cased target is a substring of
      the lower-cased content. */
  predicate Matches(target: string, content: string) {
    Contains(Lower(content), Lower(target))
  }

  /** The event makes `_check_file` call the callback. */
  predicate Triggers(target: string, e: FsEvent) {
    !e.isDirectory && e.read.Content? && Matches(target, e.read.text)
  }

  /** `_check_file` followed by `_on_address_found` on a match; a failed read
      is logged and leaves everything as it was. */
  function CheckFile(target: string, s: WatchState, e: FsEvent): WatchState {
    match e.read
    case ReadFailed(_) => s
    case Content(text) =>
      if Matches(target, text) then WatchState(true, Receipt(e.at, e.path, text)) else s
  }

  /** `on_created` and `on_modified`: both ignore directories and check files. */
  function OnEvent(target: string, s: WatchState, e: FsEvent): (s': WatchState)
    ensures Triggers(target, e) ==> s' == WatchState(true, Receipt(e.at, e.path, e.read.text))
    ensures !Triggers(target, e) ==> s' == s
  {
    match e.kind
    case Created => if !e.isDirectory then CheckFile(target, s, e) else s
    case Modified => if !e.isDirectory then CheckFile(target, s, e) else s
  }

  /** The state after the watcher has delivered `events` in order. Once set,
      `found` stays set; a changed receipt implies a match; while nothing
      matched, nothing changed. */
  function Observe(target: string, s: WatchState, events: seq<FsEvent>): (r: WatchState)
    ensures s.found ==> r.found
    ensures r.receipt != s.receipt ==> r.found
    ensures !r.found ==> r == s
    decreases |events|
  {
    if |events| == 0 then s else Observe(target, OnEvent(target, s, events[0]), events[1..])
  }

  // ---------------------------------------------------------------------------
  // Properties

  /** Matching ignores case on both sides and is plain substring search. */
  lemma MatchesIff(target: string, content: string)
    ensures Matches(target, content) <==> exists i :: OccursAt(Lower(content), Lower(target), i)
    ensures Matches(target, content) <==> Matches(Lower(target), content)
    ensures Matches(target, content) <==> Matches(target, Lower(content))
  {
    ContainsIff(Lower(content), Lower(target));
    LowerIdempotent(target);
    LowerIdempotent(content);
  }

  /** With no triggering event (directories only, failed reads, no match) nothing changes. */
  lemma {:induction false} NoMatchNoChange(target: string, s: WatchState, events: seq<FsEvent>)
    requires forall j :: 0 <= j < |events| ==> !Triggers(target, events[j])
    ensures Observe(target, s, events) == s
    decreases |events|
  {
    if |events| > 0 {
      NoMatchNoChange(target, s, events[1..]);
    }
  }

  /** The recorded receipt is that of the LAST triggering event: every match
      calls the callback again and overwrites the previous one. */
  lemma {:induction false} LastMatchWins(target: string, s: WatchState, events: seq<FsEvent>, k: int)
    requires 0 <= k < |events| && Triggers(target, events[k])
    requires forall j :: k < j < |events| ==> !Triggers(target, events[j])
    ensures Observe(target, s, events)
              == WatchState(true, Receipt(events[k].at, events[k].path, events[k].read.text))
    decreases |events|
  {
    var s1 := OnEvent(target, s, events[0]);
    if k == 0 {
      NoMatchNoChange(target, s1, events[1..]);
    } else {
      LastMatchWins(target, s1, events[1..], k - 1);
    }
  }

  /** `found` is set exactly when some event triggered (or it was already set). */
  lemma {:induction false} FoundIff(target: string, s: WatchState, events: seq<FsEvent>)
    ensures Observe(target, s, events).found <==>
              (s.found || exists j :: 0 <= j < |events| && Triggers(target, events[j]))
    decreases |events|
  {
    if |events| > 0 {
      var s1 := OnEvent(target, s, events[0]);
      FoundIff(target, s1, events[1..]);
      if exists j :: 0 <= j < |events[1..]| && Triggers(target, events[1..][j]) {
        var j :| 0 <= j < |events[1..]| && Triggers(target, events[1..][j]);
        assert Triggers(target, events[j + 1]);
      }
      if exists j :: 0 <= j < |events| && Triggers(target, events[j]) {
        var j :| 0 <= j < |events| && Triggers(target, events[j]);
        if j > 0 {
          assert Triggers(target, events[1..][j - 1]);
        }
      }
    }
  }

  /** A previous match does not suppress a later one: `found` is never consulted. */
  lemma FoundDoesNotSuppress(target: string, s: WatchState, e: FsEvent)
    requires s.found && Triggers(target, e)
    ensures OnEvent(target, s, e).receipt == Receipt(e.at, e.path, e.read.text)
  {
  }

  /** Delivering `a` and then `b` is delivering `a + b`. */
  lemma {:induction false} ObserveAppend(target: string, s: WatchState, a: seq<FsEvent>, b: seq<FsEvent>)
    ensures Observe(target, s, a + b) == Observe(target, Observe(target, s, a), b)
    decreases |a|
  {
    if |a| > 0 {
      assert (a + b)[0] == a[0];
      assert (a + b)[1..] == a[1..] + b;
      ObserveAppend(target, OnEvent(target, s, a[0]), a[1..], b);
    } else {
      assert a + b == b;
    }
  }

  /** The receipt after a sequence of events is the one before it or was
      recorded by one of the triggering events, with that event's clock value. */
  lemma {:induction false} ReceiptFromSomeEvent(target: string, s: WatchState, events: seq<FsEvent>)
    ensures var r := Observe(target, s, events).receipt;
            || r == s.receipt
            || exists j :: 0 <= j < |events| && Triggers(target, events[j]) && r == Receipt(events[j].at, events[j].path, events[j].read.text)
    decreases |events|
  {
    if |events| > 0 {
      var s1 := OnEvent(target, s, events[0]);
      ReceiptFromSomeEvent(target, s1, events[1..]);
      var r := Observe(target, s, events).receipt;
      if r != s1.receipt {
        var j :| 0 <= j < |events[1..]| && Triggers(target, events[1..][j])
                 && r == Receipt(events[1..][j].at, events[1..][j].path, events[1..][j].read.text);
        assert events[1..][j] == events[j + 1];
      } else if r != s.receipt {
        assert Triggers(target, events[0]);
      }
    }
  }
}
