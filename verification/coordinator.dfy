/** One latency test (`wait_for_receipt`, `run_single_test`): start the
    watcher, send the order, poll for the receipt under a timeout, then
    report and save. Time, the watcher thread and the exchange are inputs:
    each poll records the clock value it read and how many watcher events
    had been delivered by then. */
module Coordinator {
  import opened Common
  import opened Json
  import opened Watcher
  import opened Dispatch
  import opened Reports
  import opened ResultStore

  /** One iteration of the waiting loop: the clock value read by the loop
      condition and the number of watcher events delivered when
      `received_time` is checked. */
  datatype Poll = Poll(now: int, delivered: nat)

  /** The receipt the monitor holds when poll `p` looks at it. */
  function ReceiptAt(target: string, events: seq<FsEvent>, p: Poll): Receipt {
    var n := if p.delivered <= |events| then p.delivered else |events|;
    Observe(target, Initial, events[..n]).receipt
  }

  /** The loop condition `time.time() - start_time < timeout`. Clock values
      are milliseconds while the timeout (`MONITOR_TIMEOUT` or the argument)
      is in seconds. */
  predicate InTime(start: int, timeoutSeconds: int, p: Poll) {
    p.now - start < timeoutSeconds * 1000
  }

  predicate Seen(target: string, events: seq<FsEvent>, p: Poll) {
    HasReceipt(ReceiptAt(target, events, p))
  }

  /** Some poll saw the receipt while every poll up to it was within the timeout. */
  ghost predicate ReceivedInTime(target: string, events: seq<FsEvent>, start: int, timeout: int, polls: seq<Poll>) {
    exists k :: 0 <= k < |polls| && Seen(target, events, polls[k])
      && forall j :: 0 <= j <= k ==> InTime(start, timeout, polls[j])
  }

  /** `wait_for_receipt`. A timeout of `None` means the configured
      `MONITOR_TIMEOUT`; both are in seconds. The clock eventually passes the
      deadline: the last poll is past it. */
  method WaitForReceipt(target: string, events: seq<FsEvent>, start: int,
                        timeout: Option<int>, configured: int, polls: seq<Poll>)
    returns (received: bool)
    requires |polls| > 0 && !InTime(start, timeout.GetOr(configured), polls[|polls| - 1])
    ensures timeout.Some? ==> (received <==> ReceivedInTime(target, events, start, timeout.value, polls))
    ensures timeout.None? ==> (received <==> ReceivedInTime(target, events, start, configured, polls))
  {
    var seconds := if timeout.Some? then timeout.value else configured;
    var i := 0;
    while InTime(start, seconds, polls[i])
      invariant 0 <= i < |polls|
      invariant forall j :: 0 <= j < i ==> InTime(start, seconds, polls[j]) && !Seen(target, events, polls[j])
      decreases |polls| - i
    {
      if Seen(target, events, polls[i]) {
        return true;
      }
      i := i + 1;
    }
    return false;
  }

  /** The steps `run_single_test` goes through, in order. */
  datatype Step = StartMonitoring | SendOrder | Wait | BuildReport | PrintReport | Save | Cleanup

  /** The configuration a run reads; `monitorTimeout` is in seconds. */
  datatype RunSettings = RunSettings(ctx: RunContext, monitorTimeout: int, saveResults: bool)

  /** What the outside world does during one run. */
  datatype World = World(
    monitorStarts: bool,       // `start_file_monitoring` does not raise
    call: MarketOpen,          // what `market_open` did
    sendTime: int,             // clock before the order is sent
    waitStart: int,            // clock when waiting begins
    polls: seq<Poll>,          // the waiting loop's observations
    events: seq<FsEvent>,      // watcher events delivered before the report is built
    now: int,                  // clock when the report is built
    writeOk: bool)             // the results file can be written

  /** `run_single_test`. Returns whether the run passed, the report built
      (none when monitoring failed to start or the wait timed out), the
      results file afterwards, and the steps taken. */
  method RunSingleTest(settings: RunSettings, world: World, file: ResultsFile)
    returns (passed: bool, report: Option<Report>, file': ResultsFile, trace: seq<Step>)
    requires |world.polls| > 0
    requires !InTime(world.waitStart, settings.monitorTimeout, world.polls[|world.polls| - 1])
    ensures |trace| >= 2 && trace[0] == StartMonitoring && trace[|trace| - 1] == Cleanup
    ensures !world.monitorStarts ==> !passed && report.None? && file' == file && trace == [StartMonitoring, Cleanup]
    ensures world.monitorStarts ==> |trace| >= 4 && trace[..3] == [StartMonitoring, SendOrder, Wait]
    ensures (&& world.monitorStarts
             && !ReceivedInTime(settings.ctx.wallet, world.events, world.waitStart, settings.monitorTimeout, world.polls))
            ==> !passed && report.None? && file' == file && Save !in trace
    ensures (&& world.monitorStarts
             && ReceivedInTime(settings.ctx.wallet, world.events, world.waitStart, settings.monitorTimeout, world.polls))
            ==> && report.Some?
                  && report.value == GenerateReport(SendMarketOrder(world.call, settings.ctx.wallet, world.sendTime).0,
                                                    world.sendTime,
                                                    Observe(settings.ctx.wallet, Initial, world.events).receipt,
                                                    settings.ctx, world.now)
                  && file' == SaveResults(settings.saveResults, file, report.value, world.writeOk)
                  && (passed <==> report.value.Succeeded?)
                  && Save in trace
  {
    trace := [StartMonitoring];
    if !world.monitorStarts {
      passed, report, file' := false, None, file;
      trace := trace + [Cleanup];
      return;
    }
    var sent := SendMarketOrder(world.call, settings.ctx.wallet, world.sendTime);
    trace := trace + [SendOrder, Wait];
    var received := WaitForReceipt(settings.ctx.wallet, world.events, world.waitStart,
                                   None, settings.monitorTimeout, world.polls);
    if !received {
      passed, report, file' := false, None, file;
      trace := trace + [Cleanup];
      return;
    }
    var built := GenerateReport(sent.0, sent.1, Observe(settings.ctx.wallet, Initial, world.events).receipt,
                                settings.ctx, world.now);
    file' := SaveResults(settings.saveResults, file, built, world.writeOk);
    trace := trace + [BuildReport, PrintReport, Save, Cleanup];
    StatusField(built);
    passed := Get(ReportJson(built).entries, "status") == Some(Str("success"));
    report := Some(built);
  }

  /** A receipt seen by a poll is still there when the report is built,
      provided no event carries the clock value zero: later matches only
      overwrite it with another event's time. */
  lemma {:induction false} ReceiptPersists(target: string, events: seq<FsEvent>, p: Poll)
    requires forall j :: 0 <= j < |events| ==> events[j].at != 0
    requires Seen(target, events, p)
    ensures HasReceipt(Observe(target, Initial, events).receipt)
  {
    var n := if p.delivered <= |events| then p.delivered else |events|;
    var mid := Observe(target, Initial, events[..n]);
    assert events == events[..n] + events[n..];
    ObserveAppend(target, Initial, events[..n], events[n..]);
    ReceiptFromSomeEvent(target, mid, events[n..]);
    var r := Observe(target, Initial, events).receipt;
    if r != mid.receipt {
      var j :| 0 <= j < |events[n..]| && Triggers(target, events[n..][j])
               && r == Receipt(events[n..][j].at, events[n..][j].path, events[n..][j].read.text);
      assert events[n..][j] == events[n + j];
    }
  }

  /** A run whose wait succeeded reports success (clock values being non-zero). */
  lemma WaitedRunSucceeds(settings: RunSettings, world: World)
    requires forall j :: 0 <= j < |world.events| ==> world.events[j].at != 0
    requires ReceivedInTime(settings.ctx.wallet, world.events, world.waitStart, settings.monitorTimeout, world.polls)
    ensures GenerateReport(SendMarketOrder(world.call, settings.ctx.wallet, world.sendTime).0,
                           world.sendTime,
                           Observe(settings.ctx.wallet, Initial, world.events).receipt,
                           settings.ctx, world.now).Succeeded?
  {
    var k :| 0 <= k < |world.polls| && Seen(settings.ctx.wallet, world.events, world.polls[k])
             && forall j :: 0 <= j <= k ==> InTime(world.waitStart, settings.monitorTimeout, world.polls[j]);
    ReceiptPersists(settings.ctx.wallet, world.events, world.polls[k]);
  }
}
