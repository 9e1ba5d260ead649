/** The document pipeline shared by the two PDF scrapers: the download
    parameters (`{"method": "printDocument", "name": ..., **extra_params}`),
    table extraction with one cp1252 retry, `pd.concat` of the page tables and
    the carriage-return repair. The table extractor and the download are
    passed in as functions; what they do inside is not modelled. */
module PdfPipeline {
  import opened PyValues
  import opened Text

  /** The documents the registrar serves, with the `name` each is requested by. */
  datatype PdfType = Schedule | Final | Requirements
  {
    function Value(): string
    {
      match this
      case Schedule => "school_schedule_by_term"
      case Final => "final_exams_schedule"
      case Requirements => "course_requirements"
    }
  }

  lemma PdfTypeValuesDistinct(a: PdfType, b: PdfType)
    requires a.Value() == b.Value()
    ensures a == b
  {
  }

  /** Query parameters as a dict; None values are kept as they were built. */
  type Params = map<string, Arg>

  /** What a caller passed as `extra_params`. */
  datatype Extra =
    | NoExtra               // None, the default
    | DictExtra(d: Params)  // a dict
    | OtherMapping(m: Params)  // a mapping that is not a dict: `**` accepts it
    | NotMapping            // anything else: `**` rejects it

  /** `{"method": "printDocument", "name": t.value, **extra_params}`. */
  function MergeParams(t: PdfType, extra: Extra): (r: Outcome<Params>)
    ensures (extra.NoExtra? || extra.NotMapping?) <==> r == Raise(TypeError)
    ensures r.Ok? ==> (var m := if extra.DictExtra? then extra.d else extra.m;
      && r.value.Keys == m.Keys + {"method", "name"}
      && (forall key :: key in m ==> r.value[key] == m[key])
      && ("method" !in m ==> r.value["method"] == Str("printDocument"))
      && ("name" !in m ==> r.value["name"] == Str(t.Value())))
  {
    match extra
    case NoExtra => Raise(TypeError)
    case NotMapping => Raise(TypeError)
    case DictExtra(d) => Ok(map["method" := Str("printDocument"), "name" := Str(t.Value())] + d)
    case OtherMapping(m) => Ok(map["method" := Str("printDocument"), "name" := Str(t.Value())] + m)
  }

  /** The `extra_params` of the schedule and requirements wrappers. */
  function TermParams(semester: Arg, level: Arg, school: Arg): (p: Params)
    ensures p.Keys == {"termid", "academiclevel", "schoolid"}
    ensures "method" !in p && "name" !in p
  {
    map["termid" := semester, "academiclevel" := level, "schoolid" := school]
  }

  /** The `extra_params` of the final exams wrapper. */
  function FinalsParams(semester: Arg, school: Arg): (p: Params)
    ensures p.Keys == {"termid", "schoolid", "type"} && p["type"] == Str("pdf")
    ensures "method" !in p && "name" !in p
  {
    map["termid" := semester, "schoolid" := school, "type" := Str("pdf")]
  }

  /** The wrappers' requests: the document's own name and exactly their three
      parameters, none of which overrides `method` or `name`. */
  lemma MergedTermParams(t: PdfType, semester: Arg, level: Arg, school: Arg)
    ensures MergeParams(t, DictExtra(TermParams(semester, level, school))) ==
      Ok(map["method" := Str("printDocument"), "name" := Str(t.Value()),
             "termid" := semester, "academiclevel" := level, "schoolid" := school])
  {
    var extra := TermParams(semester, level, school);
    var m := map["method" := Str("printDocument"), "name" := Str(t.Value())] + extra;
    assert MergeParams(t, DictExtra(extra)) == Ok(m);
    var expected := map["method" := Str("printDocument"), "name" := Str(t.Value()),
                        "termid" := semester, "academiclevel" := level, "schoolid" := school];
    assert m.Keys == expected.Keys;
    assert m["method"] == expected["method"] && m["name"] == expected["name"];
    assert m["termid"] == expected["termid"] && m["academiclevel"] == expected["academiclevel"];
    assert m["schoolid"] == expected["schoolid"];
    assert forall key :: key in m ==> m[key] == expected[key];
    assert m == expected;
  }

  lemma MergedFinalsParams(semester: Arg, school: Arg)
    ensures MergeParams(Final, DictExtra(FinalsParams(semester, school))) ==
      Ok(map["method" := Str("printDocument"), "name" := Str("final_exams_schedule"),
             "termid" := semester, "schoolid" := school, "type" := Str("pdf")])
  {
    var extra := FinalsParams(semester, school);
    var m := map["method" := Str("printDocument"), "name" := Str("final_exams_schedule")] + extra;
    assert MergeParams(Final, DictExtra(extra)) == Ok(m);
    var expected := map["method" := Str("printDocument"), "name" := Str("final_exams_schedule"),
                        "termid" := semester, "schoolid" := school, "type" := Str("pdf")];
    assert m.Keys == expected.Keys;
    assert m["method"] == expected["method"] && m["name"] == expected["name"];
    assert m["termid"] == expected["termid"] && m["schoolid"] == expected["schoolid"];
    assert m["type"] == expected["type"];
    assert forall key :: key in m ==> m[key] == expected[key];
    assert m == expected;
  }

  type Bytes = seq<bv8>

  /** What the GET of a document comes back with; a failed request raises. */
  datatype Download = DownloadFailed | Downloaded(content: Bytes)

  /** A table cell as the extractor produces it: text, a number, or missing (NaN). */
  datatype Cell = Text(s: string) | Number(n: int) | Missing
  type Row = seq<Cell>
  type Table = seq<Row>

  datatype Encoding = Utf8 | Cp1252

  /** One run of the extractor over the whole document (`pages="all"`, lattice). */
  datatype Extraction =
    | Pages(tables: seq<Table>)  // one table per page, in page order
    | DecodeFailed               // UnicodeDecodeError
    | ExtractFailed              // any other error of the extractor

  function ExtractionError(e: Extraction): Exc
    requires !e.Pages?
  {
    if e.DecodeFailed? then UnicodeDecodeError else ExtractorError
  }

  /** The encodings the extractor was run with, in order, and what came of it. */
  datatype ReadLog = ReadLog(attempts: seq<Encoding>, result: Outcome<seq<Table>>)

  /** `read_pdf` with the default encoding; after a UnicodeDecodeError, and
      only then, once more with cp1252, whose failure is not caught. */
  function ReadWithFallback(content: Bytes, read: (Bytes, Encoding) -> Extraction): (r: ReadLog)
    ensures r.attempts == if read(content, Utf8).DecodeFailed? then [Utf8, Cp1252] else [Utf8]
    ensures var last := read(content, r.attempts[|r.attempts| - 1]);
      && (r.result.Ok? <==> last.Pages?)
      && (r.result.Ok? ==> r.result.value == last.tables)
      && (r.result.Raise? ==> r.result.exc == ExtractionError(last))
  {
    match read(content, Utf8)
    case Pages(tables) => ReadLog([Utf8], Ok(tables))
    case ExtractFailed => ReadLog([Utf8], Raise(ExtractorError))
    case DecodeFailed =>
      match read(content, Cp1252)
      case Pages(tables) => ReadLog([Utf8, Cp1252], Ok(tables))
      case DecodeFailed => ReadLog([Utf8, Cp1252], Raise(UnicodeDecodeError))
      case ExtractFailed => ReadLog([Utf8, Cp1252], Raise(ExtractorError))
  }

  /** The number of rows over all pages. */
  function TotalRows(pages: seq<Table>): nat
  {
    if pages == [] then 0 else |pages[0]| + TotalRows(pages[1..])
  }

  /** The rows of all pages, page after page. */
  function Flatten(pages: seq<Table>): (t: Table)
    ensures |t| == TotalRows(pages)
  {
    if pages == [] then [] else pages[0] + Flatten(pages[1..])
  }

  /** `pd.concat(pages, ignore_index=True)`: an empty list raises ValueError
      ("No objects to concatenate"). */
  function ConcatPages(pages: seq<Table>): (r: Outcome<Table>)
    ensures pages == [] <==> r == Raise(ValueError)
    ensures r.Ok? ==> r.value == Flatten(pages)
  {
    if pages == [] then Raise(ValueError) else Ok(Flatten(pages))
  }

  /** Concatenation keeps every row, in page order and in row order within a
      page: row `i` of page `p` is row `TotalRows(pages[..p]) + i` of the result. */
  lemma {:induction false} FlattenRowAt(pages: seq<Table>, p: int, i: int)
    requires 0 <= p < |pages| && 0 <= i < |pages[p]|
    ensures |Flatten(pages)| == TotalRows(pages)
    ensures TotalRows(pages[..p]) + i < |Flatten(pages)|
    ensures Flatten(pages)[TotalRows(pages[..p]) + i] == pages[p][i]
  {
    if p == 0 {
      assert pages[..0] == [];
    } else {
      FlattenRowAt(pages[1..], p - 1, i);
      assert pages[..p][1..] == pages[1..][..p - 1];
      assert pages[..p][0] == pages[0];
    }
  }

  /** Every row of the result comes from some page. */
  lemma {:induction false} FlattenRowFrom(pages: seq<Table>, n: int)
    requires 0 <= n < |Flatten(pages)|
    ensures exists p, i :: 0 <= p < |pages| && 0 <= i < |pages[p]| && Flatten(pages)[n] == pages[p][i]
  {
    if n < |pages[0]| {
      assert Flatten(pages)[n] == pages[0][n];
    } else {
      FlattenRowFrom(pages[1..], n - |pages[0]|);
      var p, i :| 0 <= p < |pages[1..]| && 0 <= i < |pages[1..][p]| &&
        Flatten(pages[1..])[n - |pages[0]|] == pages[1..][p][i];
      assert pages[p + 1] == pages[1..][p];
    }
  }

  /** N single-row pages give N rows, in page order. */
  lemma SingleRowPages(pages: seq<Table>)
    requires forall p :: 0 <= p < |pages| ==> |pages[p]| == 1
    ensures |Flatten(pages)| == |pages|
    ensures forall p :: 0 <= p < |pages| ==> Flatten(pages)[p] == pages[p][0]
  {
    forall p | 0 <= p < |pages| ensures Flatten(pages)[p] == pages[p][0] {
      FlattenRowAt(pages, p, 0);
      SingleRowPrefix(pages, p);
    }
  }

  lemma {:induction false} SingleRowPrefix(pages: seq<Table>, p: int)
    requires forall q :: 0 <= q < |pages| ==> |pages[q]| == 1
    requires 0 <= p <= |pages|
    ensures TotalRows(pages[..p]) == p
  {
    if p > 0 {
      SingleRowPrefix(pages[1..], p - 1);
      assert pages[..p][1..] == pages[1..][..p - 1];
    }
  }

  /** `.replace(r"\r", r" ", regex=True)` on one cell: only text cells change. */
  function RepairCell(c: Cell): (r: Cell)
    ensures c.Text? <==> r.Text?
    ensures c.Text? ==> r.s == RepairText(c.s)
    ensures !c.Text? ==> r == c
  {
    if c.Text? then Text(RepairText(c.s)) else c
  }

  function RepairRow(row: Row): (r: Row)
    ensures |r| == |row| && forall j :: 0 <= j < |row| ==> r[j] == RepairCell(row[j])
  {
    if row == [] then [] else [RepairCell(row[0])] + RepairRow(row[1..])
  }

  /** The repair over a whole table: same shape, each cell repaired. */
  function RepairTable(t: Table): (r: Table)
    ensures |r| == |t| && forall i :: 0 <= i < |t| ==> r[i] == RepairRow(t[i])
  {
    if t == [] then [] else [RepairRow(t[0])] + RepairTable(t[1..])
  }

  /** After the repair no text cell holds a carriage return, and every cell
      without one is as it was. */
  lemma RepairTableSpec(t: Table, i: int, j: int)
    requires 0 <= i < |t| && 0 <= j < |t[i]|
    ensures |RepairTable(t)[i]| == |t[i]|
    ensures RepairTable(t)[i][j].Text? ==> '\r' !in RepairTable(t)[i][j].s
    ensures !(t[i][j].Text? && '\r' in t[i][j].s) ==> RepairTable(t)[i][j] == t[i][j]
  {
    if t[i][j].Text? {
      RepairTextRemovesCR(t[i][j].s);
      RepairTextIdempotent(t[i][j].s);
    }
  }

  /** The two-page example: `[["A","B"]]` and `[["C\rD","E"]]` become
      `[["A","B"],["C D","E"]]`. */
  lemma TwoPageExample()
    ensures ConcatPages([[[Text("A"), Text("B")]], [[Text("C\rD"), Text("E")]]]).Ok?
    ensures RepairTable(ConcatPages([[[Text("A"), Text("B")]], [[Text("C\rD"), Text("E")]]]).value)
      == [[Text("A"), Text("B")], [Text("C D"), Text("E")]]
  {
    var pages := [[[Text("A"), Text("B")]], [[Text("C\rD"), Text("E")]]];
    assert pages[1..][1..] == [];
    assert Flatten(pages) == [[Text("A"), Text("B")], [Text("C\rD"), Text("E")]];
    assert RepairText("C\rD") == "C D";
    assert RepairText("A") == "A" && RepairText("B") == "B" && RepairText("E") == "E";
    var t := Flatten(pages);
    assert RepairRow(t[0]) == [Text("A"), Text("B")];
    assert RepairRow(t[1]) == [Text("C D"), Text("E")];
  }

  /** The JSON the client returns: which `to_json` layout was chosen, whether the
      index is written, and the table serialised. (The layouts themselves are
      pandas' and are not modelled.) */
  datatype Serialized = Serialized(orient: string, index: bool, table: Table)

  /** Extraction, concatenation and repair, as both scrapers run them after the
      download: the extraction log and the repaired table. */
  function ExtractTable(content: Bytes, read: (Bytes, Encoding) -> Extraction): (r: Outcome<Table>)
    ensures r.Raise? ==> r.exc in {ValueError, UnicodeDecodeError, ExtractorError}
    ensures var log := ReadWithFallback(content, read);
      && (log.result.Raise? ==> r == Raise(log.result.exc))
      && (log.result.Ok? ==> r == (if log.result.value == [] then Raise(ValueError)
                                   else Ok(RepairTable(Flatten(log.result.value)))))
  {
    var pages :- ReadWithFallback(content, read).result;
    var t :- ConcatPages(pages);
    Ok(RepairTable(t))
  }
}
