/** Latency computation and the single-run report (`calculate_latency`,
    `generate_report`). Clock values are integer milliseconds; the
    date-time strings and rounding of the report are not modelled. */
module Reports {
  import opened Common
  import opened Json
  import opened Watcher

  /** The run parameters copied into a report. */
  datatype RunContext = RunContext(wallet: string, symbol: string, side: string, size: real, network: string)

  datatype Report =
    | Failed(error: string)
    | Succeeded(
        txHash: Value,
        sendTime: int,
        receivedTime: int,
        latencyMs: int,
        receivedFile: string,
        wallet: string,
        symbol: string,
        side: string,
        size: real,
        network: string,
        timestamp: int)

  /** The error text of a report without a receipt ("no confirmation received"). */
  const NoReceiptError := "未收到确认"

  /** `if not self.received_time`: the receipt is present and its clock value
      is truthy (a time of exactly zero counts as absent). */
  predicate HasReceipt(r: Receipt) {
    r.Receipt? && r.time != 0
  }

  /** `calculate_latency`: received minus sent, with no clamping. */
  function CalculateLatency(receipt: Receipt, sendTime: int): (r: Option<int>)
    ensures r.Some? <==> HasReceipt(receipt)
    ensures r.Some? ==> sendTime + r.value == receipt.time
  {
    if !HasReceipt(receipt) then None else Some(receipt.time - sendTime)
  }

  /** `generate_report`. The latency pair returned by `calculate_latency` is a
      non-empty tuple and so always truthy: a zero latency still succeeds. */
  function GenerateReport(txHash: Value, sendTime: int, receipt: Receipt, ctx: RunContext, now: int): (r: Report)
    ensures r.Succeeded? <==> HasReceipt(receipt)
    ensures r.Failed? ==> r.error == NoReceiptError
    ensures r.Succeeded? ==>
              && r.txHash == txHash && r.sendTime == sendTime
              && r.receivedTime == receipt.time && r.receivedFile == receipt.file
              && r.sendTime + r.latencyMs == r.receivedTime
              && r.wallet == ctx.wallet && r.symbol == ctx.symbol && r.side == ctx.side
              && r.size == ctx.size && r.network == ctx.network && r.timestamp == now
  {
    match CalculateLatency(receipt, sendTime)
    case None => Failed(NoReceiptError)
    case Some(latency) =>
      Succeeded(txHash, sendTime, receipt.time, latency, receipt.file,
                ctx.wallet, ctx.symbol, ctx.side, ctx.size, ctx.network, now)
  }

  /** A receipt stamped before the send time gives a negative latency, which
      the report carries unchanged. */
  lemma LatencyNotClamped(txHash: Value, ctx: RunContext, now: int)
    ensures GenerateReport(txHash, 1000, Receipt(900, "f", "c"), ctx, now).latencyMs == -100
  {
  }

  /** The alert `print_report` adds: a successful report whose latency is
      strictly above the threshold (a latency equal to it raises no alert). */
  predicate LatencyAlert(r: Report, threshold: int) {
    r.Succeeded? && r.latencyMs > threshold
  }

  /** A run alerts exactly when the receipt arrived more than `threshold`
      milliseconds after the send. */
  lemma AlertIffSlow(txHash: Value, sendTime: int, receipt: Receipt, ctx: RunContext, now: int, threshold: int)
    ensures (LatencyAlert(GenerateReport(txHash, sendTime, receipt, ctx, now), threshold)
             <==> HasReceipt(receipt) && receipt.time - sendTime > threshold)
  {
  }

  /** The report as the JSON object written to the results file: a dict
      with two entries for a failure and thirteen for a success, `status`
      first. */
  function ReportJson(r: Report): (j: Value)
    ensures j.Dict? && |j.entries| == if r.Succeeded? then 13 else 2
    ensures j.entries[0].0 == "status"
  {
    match r
    case Failed(error) => Dict([("status", Str("failed")), ("error", Str(error))])
    case Succeeded(txHash, sendTime, receivedTime, latencyMs, receivedFile,
                   wallet, symbol, side, size, network, timestamp) =>
      Dict([
        ("status", Str("success")),
        ("tx_hash", txHash),
        ("send_time", Int(sendTime)),
        ("received_time", Int(receivedTime)),
        ("latency_seconds", Float(latencyMs as real / 1000.0)),
        ("latency_ms", Int(latencyMs)),
        ("received_file", Str(receivedFile)),
        ("wallet_address", Str(wallet)),
        ("symbol", Str(symbol)),
        ("side", Str(side)),
        ("size", Float(size)),
        ("network", Str(network)),
        ("timestamp", Int(timestamp))
      ])
  }

  /** No key of the report's JSON object appears twice. */
  lemma ReportJsonDistinct(r: Report)
    ensures DistinctKeys(ReportJson(r).entries)
  {
  }

  /** Reading any key of the written report finds exactly the entry stored
      under it, so every field can be read back by name. */
  lemma {:induction false} ReportJsonLookup(r: Report, key: string, v: Value)
    ensures Get(ReportJson(r).entries, key) == Some(v) <==> (key, v) in ReportJson(r).entries
  {
    ReportJsonDistinct(r);
    GetDistinct(ReportJson(r).entries, key, v);
  }

  /** `report["status"] == "success"` reads back which kind of report it is. */
  lemma StatusField(r: Report)
    ensures Get(ReportJson(r).entries, "status") == Some(Str(if r.Succeeded? then "success" else "failed"))
    ensures r.Failed? ==> Get(ReportJson(r).entries, "error") == Some(Str(r.error))
  {
  }

  /** The report's status is "success" exactly when a receipt was recorded. */
  lemma {:induction false} SuccessIffReceipt(txHash: Value, sendTime: int, receipt: Receipt, ctx: RunContext, now: int)
    ensures (Get(ReportJson(GenerateReport(txHash, sendTime, receipt, ctx, now)).entries, "status")
               == Some(Str("success"))) <==> HasReceipt(receipt)
  {
    StatusField(GenerateReport(txHash, sendTime, receipt, ctx, now));
  }
}
