/** `save_results`: read the JSON results file (absent means empty), append
    the report, write the whole list back. Every failure is logged and
    swallowed, leaving the file as it was. */
module ResultStore {
  import opened Common
  import opened Json
  import opened Reports

  /** The results file as `json.load` would see it. */
  datatype ResultsFile = Missing | Stored(doc: Value) | Unreadable

  /** The list the report is appended to, or the error that aborts saving:
      an unparsable file, or a document that is not a list (`.append` fails). */
  function Existing(file: ResultsFile): Result<seq<Value>, string> {
    match file
    case Missing => Ok([])
    case Unreadable => Err("json.load failed")
    case Stored(doc) => if doc.List? then Ok(doc.items) else Err("document has no append")
  }

  /** `save_results(report)` with the `SAVE_RESULTS` switch and the outcome of
      the final write as inputs. */
  function SaveResults(enabled: bool, file: ResultsFile, report: Report, writeOk: bool): (r: ResultsFile)
    ensures !enabled || !writeOk ==> r == file
    ensures enabled && writeOk && file.Missing? ==> r == Stored(List([ReportJson(report)]))
    ensures enabled && writeOk && file.Stored? && file.doc.List? ==>
              r == Stored(List(file.doc.items + [ReportJson(report)]))
    ensures file.Unreadable? || (file.Stored? && !file.doc.List?) ==> r == file
  {
    if !enabled then file
    else match Existing(file)
      case Err(_) => file
      case Ok(items) =>
        assert [] + [ReportJson(report)] == [ReportJson(report)];
        if writeOk then Stored(List(items + [ReportJson(report)])) else file
  }

  /** Saving several reports in turn, every save enabled and every write succeeding. */
  function SaveAll(file: ResultsFile, reports: seq<Report>): ResultsFile
    decreases |reports|
  {
    if |reports| == 0 then file
    else SaveAll(SaveResults(true, file, reports[0], true), reports[1..])
  }

  function Encoded(reports: seq<Report>): (r: seq<Value>)
    ensures |r| == |reports|
    ensures forall k :: 0 <= k < |reports| ==> r[k] == ReportJson(reports[k])
  {
    seq(|reports|, k requires 0 <= k < |reports| => ReportJson(reports[k]))
  }

  /** Appending N reports to an existing list yields that list followed by
      exactly the N reports in the order they were saved. */
  lemma {:induction false} SaveAllAppends(items: seq<Value>, reports: seq<Report>)
    ensures SaveAll(Stored(List(items)), reports) == Stored(List(items + Encoded(reports)))
    decreases |reports|
  {
    if |reports| == 0 {
      assert items + Encoded(reports) == items;
    } else {
      var items' := items + [ReportJson(reports[0])];
      SaveAllAppends(items', reports[1..]);
      assert items' + Encoded(reports[1..]) == items + Encoded(reports);
    }
  }

  /** Starting without a results file, N successful saves leave a list of exactly N entries. */
  lemma {:induction false} FromMissing(reports: seq<Report>)
    requires |reports| > 0
    ensures SaveAll(Missing, reports) == Stored(List(Encoded(reports)))
  {
    var first := SaveResults(true, Missing, reports[0], true);
    assert first == Stored(List([ReportJson(reports[0])]));
    assert SaveAll(Missing, reports) == SaveAll(first, reports[1..]);
    SaveAllAppends([ReportJson(reports[0])], reports[1..]);
    assert [ReportJson(reports[0])] + Encoded(reports[1..]) == Encoded(reports);
  }
}
