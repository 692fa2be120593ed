/** The seed-peer table generator (`hack/update_table.py`). The CSV file is
    given as its records (lists of fields) after tokenising; the first record
    is the header, as `csv.DictReader` reads it. */
module Table {
  import opened Common
  import opened Strings

  datatype Peer = Peer(operator: string, ip: string, location: string)

  /** The three columns the CSV must have. */
  predicate HasRequiredColumns(header: seq<string>) {
    "operator" in header && "ip" in header && "location" in header
  }
  /** The table's column headings. */
  const OperatorHeading := "Operator"
  const IpHeading := "Root IP"
  const LocationHeading := "Location"

  /** The last index at which `name` appears in the header, if any. */
  function LastIndex(header: seq<string>, name: string): (r: Option<nat>)
    ensures r.Some? ==> (&& r.value < |header|
                         && header[r.value] == name
                         && forall j :: r.value < j < |header| ==> header[j] != name)
    ensures r.None? ==> name !in header
  {
    if |header| == 0 then None
    else if header[|header| - 1] == name then Some(|header| - 1)
    else LastIndex(header[..|header| - 1], name)
  }

  /** `row[name]` in the dict `DictReader` builds: the field under the last
      header cell with that name, or `None` when the row is too short for it
      (a missing column is filled with `None`). */
  function Field(header: seq<string>, row: seq<string>, name: string): Option<string>
    requires name in header
  {
    var j := LastIndex(header, name).value;
    if j < |row| then Some(row[j]) else None
  }

  /** The message of the `AttributeError` that `.strip()` on `None` raises. */
  const NoneStripError := "'NoneType' object has no attribute 'strip'"

  /** One CSV record as a peer, stripped; a `None` field makes `.strip()` raise. */
  function ParsePeer(header: seq<string>, row: seq<string>): (r: Result<Peer, string>)
    requires HasRequiredColumns(header)
    ensures r.Ok? <==> (&& Field(header, row, "operator").Some?
                        && Field(header, row, "ip").Some?
                        && Field(header, row, "location").Some?)
    ensures r.Ok? ==> (&& r.value.operator == Strip(Field(header, row, "operator").value)
                       && r.value.ip == Strip(Field(header, row, "ip").value)
                       && r.value.location == Strip(Field(header, row, "location").value))
  {
    match (Field(header, row, "operator"), Field(header, row, "ip"), Field(header, row, "location"))
    case (Some(op), Some(ip), Some(loc)) => Ok(Peer(Strip(op), Strip(ip), Strip(loc)))
    case _ => Err(NoneStripError)
  }

  /** The peers of the data records in input order (no sorting); blank
      records are skipped, as `DictReader` does. */
  function ParsePeers(header: seq<string>, rows: seq<seq<string>>): (r: Result<seq<Peer>, string>)
    requires HasRequiredColumns(header)
    ensures r.Ok? ==> |r.value| <= |rows|
    ensures r.Err? ==> r.error == NoneStripError
    ensures (forall k :: 0 <= k < |rows| ==> |rows[k]| == 0) ==> r == Ok([])
    decreases |rows|
  {
    if |rows| == 0 then Ok([])
    else if |rows[0]| == 0 then ParsePeers(header, rows[1..])
    else match ParsePeer(header, rows[0])
      case Err(e) => Err(e)
      case Ok(p) =>
        match ParsePeers(header, rows[1..])
        case Err(e) => Err(e)
        case Ok(ps) => Ok([p] + ps)
  }

  /** The non-blank records, in order. */
  function NonBlank(rows: seq<seq<string>>): (r: seq<seq<string>>)
    ensures |r| <= |rows|
  {
    if |rows| == 0 then []
    else (if |rows[0]| == 0 then [] else [rows[0]]) + NonBlank(rows[1..])
  }

  /** A non-blank record too short for one of the required columns. */
  predicate BadRecord(header: seq<string>, row: seq<string>)
    requires HasRequiredColumns(header)
  {
    |row| > 0 && ParsePeer(header, row).Err?
  }

  /** Parsing fails exactly when some non-blank record is too short for a
      required column. */
  lemma {:induction false} ParsePeersFails(header: seq<string>, rows: seq<seq<string>>)
    requires HasRequiredColumns(header)
    ensures ParsePeers(header, rows).Err? <==> exists k :: 0 <= k < |rows| && BadRecord(header, rows[k])
    decreases |rows|
  {
    if |rows| > 0 {
      ParsePeersFails(header, rows[1..]);
      ParsePeersStep(header, rows);
      BadShift(header, rows);
    }
  }

  /** One record further: parsing fails when this record is bad or the rest fails. */
  lemma ParsePeersStep(header: seq<string>, rows: seq<seq<string>>)
    requires HasRequiredColumns(header) && |rows| > 0
    ensures ParsePeers(header, rows).Err? <==> BadRecord(header, rows[0]) || ParsePeers(header, rows[1..]).Err?
  {
  }

  /** A bad record is the first one or among the rest. */
  lemma BadShift(header: seq<string>, rows: seq<seq<string>>)
    requires HasRequiredColumns(header) && |rows| > 0
    ensures (exists k :: 0 <= k < |rows| && BadRecord(header, rows[k]))
            <==> BadRecord(header, rows[0]) || exists k :: 0 <= k < |rows[1..]| && BadRecord(header, rows[1..][k])
  {
    if exists k :: 0 <= k < |rows| && BadRecord(header, rows[k]) {
      var k :| 0 <= k < |rows| && BadRecord(header, rows[k]);
      if k > 0 {
        assert rows[1..][k - 1] == rows[k];
      }
    }
    if exists k :: 0 <= k < |rows[1..]| && BadRecord(header, rows[1..][k]) {
      var k :| 0 <= k < |rows[1..]| && BadRecord(header, rows[1..][k]);
      assert rows[k + 1] == rows[1..][k];
    }
  }

  /** A successful parse yields one peer per non-blank record, in input order:
      the k-th peer is the k-th non-blank record, stripped. */
  lemma {:induction false} ParsePeersKeepsOrder(header: seq<string>, rows: seq<seq<string>>)
    requires HasRequiredColumns(header)
    requires ParsePeers(header, rows).Ok?
    ensures |ParsePeers(header, rows).value| == |NonBlank(rows)|
    ensures forall k :: 0 <= k < |NonBlank(rows)| ==>
              ParsePeer(header, NonBlank(rows)[k]) == Ok(ParsePeers(header, rows).value[k])
    decreases |rows|
  {
    if |rows| > 0 {
      ParsePeersKeepsOrder(header, rows[1..]);
      if |rows[0]| == 0 {
        BlankStep(header, rows);
      } else {
        RecordStep(header, rows);
        PrependAligned(header, rows[0], NonBlank(rows[1..]), ParsePeer(header, rows[0]).value,
                       ParsePeers(header, rows[1..]).value);
      }
    }
  }

  /** A blank record adds nothing. */
  lemma BlankStep(header: seq<string>, rows: seq<seq<string>>)
    requires HasRequiredColumns(header) && |rows| > 0 && |rows[0]| == 0
    ensures NonBlank(rows) == NonBlank(rows[1..])
    ensures ParsePeers(header, rows) == ParsePeers(header, rows[1..])
  {
    assert NonBlank(rows) == [] + NonBlank(rows[1..]);
  }

  /** A non-blank record adds its peer in front. */
  lemma RecordStep(header: seq<string>, rows: seq<seq<string>>)
    requires HasRequiredColumns(header) && |rows| > 0 && |rows[0]| > 0
    requires ParsePeers(header, rows).Ok?
    ensures ParsePeer(header, rows[0]).Ok? && ParsePeers(header, rows[1..]).Ok?
    ensures NonBlank(rows) == [rows[0]] + NonBlank(rows[1..])
    ensures ParsePeers(header, rows).value
              == [ParsePeer(header, rows[0]).value] + ParsePeers(header, rows[1..]).value
  {
  }

  /** Records and peers that correspond index by index still do with one more
      pair in front. */
  lemma PrependAligned(header: seq<string>, row: seq<string>, rows: seq<seq<string>>, p: Peer, ps: seq<Peer>)
    requires HasRequiredColumns(header)
    requires ParsePeer(header, row) == Ok(p)
    requires |ps| == |rows|
    requires forall k :: 0 <= k < |rows| ==> ParsePeer(header, rows[k]) == Ok(ps[k])
    ensures forall k :: 0 <= k < |rows| + 1 ==> ParsePeer(header, ([row] + rows)[k]) == Ok(([p] + ps)[k])
  {
    forall k | 0 <= k < |rows| + 1
      ensures ParsePeer(header, ([row] + rows)[k]) == Ok(([p] + ps)[k])
    {
      if k > 0 {
        assert ([row] + rows)[k] == rows[k - 1];
        assert ([p] + ps)[k] == ps[k - 1];
      }
    }
  }

  /** Column widths: the header length or the longest field, whichever is larger. */
  datatype Widths = Widths(operator: nat, ip: nat, location: nat)

  function ColumnWidths(peers: seq<Peer>): (w: Widths)
    ensures w.operator >= |OperatorHeading| && w.ip >= |IpHeading| && w.location >= |LocationHeading|
    ensures forall k :: 0 <= k < |peers| ==>
              && |peers[k].operator| <= w.operator
              && |peers[k].ip| <= w.ip
              && |peers[k].location| <= w.location
    ensures w.operator == |OperatorHeading| || exists k :: 0 <= k < |peers| && |peers[k].operator| == w.operator
    ensures w.ip == |IpHeading| || exists k :: 0 <= k < |peers| && |peers[k].ip| == w.ip
    ensures w.location == |LocationHeading| || exists k :: 0 <= k < |peers| && |peers[k].location| == w.location
    decreases |peers|
  {
    if |peers| == 0 then Widths(|OperatorHeading|, |IpHeading|, |LocationHeading|)
    else
      var w := ColumnWidths(peers[..|peers| - 1]);
      var p := peers[|peers| - 1];
      assert forall k :: 0 <= k < |peers| - 1 ==> peers[k] == peers[..|peers| - 1][k];
      Widths(Max(w.operator, |p.operator|), Max(w.ip, |p.ip|), Max(w.location, |p.location|))
  }

  /** `format_row`: each cell left-justified to its column's width. */
  function FormatRow(w: Widths, a: string, b: string, c: string): string {
    "| " + LJust(a, w.operator) + " | " + LJust(b, w.ip) + " | " + LJust(c, w.location) + " |"
  }

  function SeparatorRow(w: Widths): string {
    "| " + Repeat('-', w.operator) + " | " + Repeat('-', w.ip) + " | " + Repeat('-', w.location) + " |"
  }

  function TableLines(peers: seq<Peer>): (lines: seq<string>)
    ensures |lines| == 2 + |peers|
  {
    var w := ColumnWidths(peers);
    [FormatRow(w, OperatorHeading, IpHeading, LocationHeading), SeparatorRow(w)]
      + seq(|peers|, k requires 0 <= k < |peers| => FormatRow(w, peers[k].operator, peers[k].ip, peers[k].location))
  }

  /** `generate_markdown_table`: fails unless the header names all three required columns. */
  function GenerateMarkdownTable(records: seq<seq<string>>): (r: Result<string, string>)
    ensures r.Ok? ==> |records| > 0 && HasRequiredColumns(records[0])
    ensures (&& r.Err? && |records| > 0 && HasRequiredColumns(records[0]))
            ==> exists k :: 0 <= k < |records[1..]| && BadRecord(records[0], records[1..][k])
  {
    if |records| == 0 || !HasRequiredColumns(records[0]) then
      Err("CSV must have columns: operator, ip, location")
    else
      ParsePeersFails(records[0], records[1..]);
      match ParsePeers(records[0], records[1..])
      case Err(e) => Err(e)
      case Ok(peers) => Ok(JoinLines(TableLines(peers)))
  }

  // ---------------------------------------------------------------------------
  // Layout properties

  /** A row cell by cell: where each field sits, padded with spaces to its width. */
  lemma RowLayout(w: Widths, a: string, b: string, c: string)
    requires |a| <= w.operator && |b| <= w.ip && |c| <= w.location
    ensures var row := FormatRow(w, a, b, c);
            && |row| == w.operator + w.ip + w.location + 10
            && row[..2] == "| "
            && row[2..2 + w.operator] == LJust(a, w.operator)
            && row[2 + w.operator..5 + w.operator] == " | "
            && row[5 + w.operator..5 + w.operator + w.ip] == LJust(b, w.ip)
            && row[5 + w.operator + w.ip..8 + w.operator + w.ip] == " | "
            && row[8 + w.operator + w.ip..8 + w.operator + w.ip + w.location] == LJust(c, w.location)
            && row[|row| - 2..] == " |"
  {
  }

  /** Line 1 is the header, line 2 the dashes, line `k + 3` the k-th peer, in input order. */
  lemma LinesLayout(peers: seq<Peer>)
    ensures var w := ColumnWidths(peers);
            && TableLines(peers)[0] == FormatRow(w, OperatorHeading, IpHeading, LocationHeading)
            && TableLines(peers)[1] == SeparatorRow(w)
    ensures forall k :: 0 <= k < |peers| ==> TableLines(peers)[k + 2] == PeerRow(peers, k)
  {
    forall k | 0 <= k < |peers|
      ensures TableLines(peers)[k + 2] == PeerRow(peers, k)
    {
      PeerLine(peers, k);
    }
  }

  /** The row the k-th peer becomes. */
  function PeerRow(peers: seq<Peer>, k: nat): string
    requires k < |peers|
  {
    FormatRow(ColumnWidths(peers), peers[k].operator, peers[k].ip, peers[k].location)
  }

  lemma PeerLine(peers: seq<Peer>, k: nat)
    requires k < |peers|
    ensures TableLines(peers)[k + 2] == PeerRow(peers, k)
  {
  }

  /** Every line, header and separator included, is `w1 + w2 + w3 + 10` long. */
  lemma {:induction false} LinesWidth(peers: seq<Peer>)
    ensures var w := ColumnWidths(peers);
            forall k :: 0 <= k < |TableLines(peers)| ==> |TableLines(peers)[k]| == w.operator + w.ip + w.location + 10
  {
    var w := ColumnWidths(peers);
    var lines := TableLines(peers);
    forall k | 0 <= k < |lines|
      ensures |lines[k]| == w.operator + w.ip + w.location + 10
    {
      if k == 0 {
        RowLayout(w, OperatorHeading, IpHeading, LocationHeading);
      } else if k >= 2 {
        var p := peers[k - 2];
        RowLayout(w, p.operator, p.ip, p.location);
      }
    }
  }

  /** The table text is `2 + |peers|` lines of equal length joined by single
      newlines, with no trailing newline. */
  lemma {:induction false} TableLength(peers: seq<Peer>)
    ensures var w := ColumnWidths(peers);
            |JoinLines(TableLines(peers))| == (2 + |peers|) * (w.operator + w.ip + w.location + 11) - 1
  {
    var w := ColumnWidths(peers);
    var lines := TableLines(peers);
    var width := w.operator + w.ip + w.location + 10;
    LinesWidth(peers);
    JoinLength(lines, width);
    assert |lines| == 2 + |peers|;
  }

  /** When no field holds a newline, splitting the table text at newlines
      gives back exactly its lines. */
  lemma {:induction false} TableSplits(peers: seq<Peer>)
    requires forall k :: 0 <= k < |peers| ==>
               NoNewline(peers[k].operator) && NoNewline(peers[k].ip) && NoNewline(peers[k].location)
    ensures SplitLines(JoinLines(TableLines(peers))) == TableLines(peers)
  {
    var lines := TableLines(peers);
    forall k | 0 <= k < |lines|
      ensures NoNewline(lines[k])
    {
      LineNoNewline(peers, k);
    }
    SplitJoin(lines);
  }

  lemma LineNoNewline(peers: seq<Peer>, k: nat)
    requires forall k :: 0 <= k < |peers| ==>
               NoNewline(peers[k].operator) && NoNewline(peers[k].ip) && NoNewline(peers[k].location)
    requires k < 2 + |peers|
    ensures NoNewline(TableLines(peers)[k])
  {
    var w := ColumnWidths(peers);
    if k == 0 {
      assert TableLines(peers)[0] == FormatRow(w, OperatorHeading, IpHeading, LocationHeading);
      RowNoNewline(w, OperatorHeading, IpHeading, LocationHeading);
    } else if k == 1 {
      assert TableLines(peers)[1] == SeparatorRow(w);
      SeparatorNoNewline(w);
    } else {
      PeerLine(peers, k - 2);
      var p := peers[k - 2];
      RowNoNewline(w, p.operator, p.ip, p.location);
    }
  }

  lemma SeparatorNoNewline(w: Widths)
    ensures NoNewline(SeparatorRow(w))
  {
  }

  lemma RowNoNewline(w: Widths, a: string, b: string, c: string)
    requires NoNewline(a) && NoNewline(b) && NoNewline(c)
    ensures NoNewline(FormatRow(w, a, b, c))
  {
    var la, lb, lc := LJust(a, w.operator), LJust(b, w.ip), LJust(c, w.location);
    assert NoNewline(la) by {
      forall i | 0 <= i < |la| ensures la[i] != '\n' {
        if i < |a| { assert la[i] == la[..|a|][i]; }
      }
    }
    assert NoNewline(lb) by {
      forall i | 0 <= i < |lb| ensures lb[i] != '\n' {
        if i < |b| { assert lb[i] == lb[..|b|][i]; }
      }
    }
    assert NoNewline(lc) by {
      forall i | 0 <= i < |lc| ensures lc[i] != '\n' {
        if i < |c| { assert lc[i] == lc[..|c|][i]; }
      }
    }
  }

  /** The CSV check: generation fails exactly when some required column is
      missing from the header (or the file is empty), or a data record is too
      short for one of them; otherwise the text is the table of the parsed peers. */
  lemma MissingColumnFails(records: seq<seq<string>>)
    ensures GenerateMarkdownTable(records).Err? <==>
              || |records| == 0 || !HasRequiredColumns(records[0])
              || exists k :: 0 <= k < |records[1..]| && BadRecord(records[0], records[1..][k])
    ensures (&& |records| > 0
             && HasRequiredColumns(records[0])
             && ParsePeers(records[0], records[1..]).Ok?)
              ==> GenerateMarkdownTable(records) == Ok(JoinLines(TableLines(ParsePeers(records[0], records[1..]).value)))
  {
    if |records| > 0 && HasRequiredColumns(records[0]) {
      ParsePeersFails(records[0], records[1..]);
    }
  }

  // ---------------------------------------------------------------------------
  // update_readme_table

  const SectionHeading := "## Mainnet Non-Validator Seed Peers"

  /** `update_readme_table`, with the text after the regular-expression
      substitution as an input. Returns whether it succeeded and what it wrote. */
  function UpdateReadme(content: string, substituted: string): (r: (bool, Option<string>))
    ensures r.0 <==> r.1.Some?
    ensures r.0 <==> (exists i :: OccursAt(content, SectionHeading, i)) && substituted != content
    ensures r.0 ==> r.1.value == substituted
  {
    ContainsIff(content, SectionHeading);
    if !Contains(content, SectionHeading) then (false, None)
    else if substituted == content then (false, None)
    else (true, Some(substituted))
  }
}
