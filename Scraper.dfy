/** nuregi/scraper.py: the last published semester, read off the course
    schedules page, and the registrar's PDF documents turned into JSON. The
    page and document downloads are passed in: `page` is what the GET of the
    schedules page gave (its text, or the exception), `get` answers a GET of
    the document endpoint with the given query parameters. */
module NuregiScraper {
  import opened PyValues
  import opened Text
  import opened PdfPipeline

  /** The start of the first download link on the schedules page. */
  const AnchorPrefix: string := "<a href=\"https://registrar.nu.edu.kz/registrar_downloads/json?method=printDocument"

  /** The positions the four `str.index` calls find: the anchor `a`, the first
      `</a>` at or after it (`e`), `termid=` within the element `text[a..e]`
      (`t`), and the first quote after the value begins (`q`). */
  ghost predicate AnchorAt(text: string, a: int, e: int, t: int, q: int)
  {
    && IsFirstAt(text, AnchorPrefix, 0, a)
    && IsFirstAt(text, "</a>", a, e)
    && IsFirstAt(text[a..e], "termid=", 0, t)
    && IsFirstAt(text[a..e], "\"", t + 7, q)
  }

  /** The semester the four positions describe: the ID between `termid=` and
      the quote, the NAME from two characters after the quote to the element's end. */
  function SemesterAt(text: string, a: int, e: int, t: int, q: int): (r: Entity)
    requires 0 <= a <= e <= |text| && 0 <= t && t + 7 <= q <= e - a
    ensures r.Keys == {"ID", "NAME"}
    ensures r["ID"] == text[a + t + 7..a + q]
    ensures r["NAME"] == if a + q + 2 <= e then text[a + q + 2..e] else ""
  {
    var element := text[a..e];
    var id, whole := element[t + 7..q], text[a + t + 7..a + q];
    assert forall k :: 0 <= k < |id| ==> id[k] == whole[k];
    map["ID" := element[t + 7..q], "NAME" := SliceFrom(element, q + 2)]
  }

  /** The parse of `get_last_published_semester`; a search that misses raises
      ValueError, and a partial result is never returned. */
  function ParseSemester(text: string): (r: Outcome<Entity>)
    ensures r.Ok? ==> exists a, e, t, q :: AnchorAt(text, a, e, t, q) && r.value == SemesterAt(text, a, e, t, q)
    ensures r.Raise? ==> r.exc == ValueError
  {
    match IndexOf(text, AnchorPrefix, 0)
    case None => Raise(ValueError)
    case Some(a) =>
      match IndexOf(text, "</a>", a)
      case None => Raise(ValueError)
      case Some(e) =>
        var element := text[a..e];
        match IndexOf(element, "termid=", 0)
        case None => Raise(ValueError)
        case Some(t) =>
          match IndexOf(element, "\"", t + 7)
          case None => Raise(ValueError)
          case Some(q) =>
            assert AnchorAt(text, a, e, t, q);
            Ok(SemesterAt(text, a, e, t, q))
  }

  /** Whenever the page has the four positions, the parse succeeds with them,
      so `ParseSemester` raises exactly when one of the searches misses. */
  lemma ParseSemesterComplete(text: string, a: int, e: int, t: int, q: int)
    requires AnchorAt(text, a, e, t, q)
    ensures ParseSemester(text) == Ok(SemesterAt(text, a, e, t, q))
  {
    IndexOfIsFirst(text, AnchorPrefix, 0, a);
    IndexOfIsFirst(text, "</a>", a, e);
    IndexOfIsFirst(text[a..e], "termid=", 0, t);
    IndexOfIsFirst(text[a..e], "\"", t + 7, q);
  }

  /** The parsed ID holds no quote, and neither the scanned element nor the
      NAME taken from it holds a `</a>`. */
  lemma ParsedSemesterClean(text: string, a: int, e: int, t: int, q: int)
    requires AnchorAt(text, a, e, t, q)
    ensures '"' !in SemesterAt(text, a, e, t, q)["ID"]
    ensures forall j :: !OccursAt(text[a..e], "</a>", j)
    ensures forall j :: !OccursAt(SemesterAt(text, a, e, t, q)["NAME"], "</a>", j)
  {
    var element := text[a..e];
    var id := element[t + 7..q];
    forall k | 0 <= k < |id| ensures id[k] != '"' {
      assert !OccursAt(element, "\"", t + 7 + k);
      assert element[t + 7 + k..t + 7 + k + 1] == [id[k]];
    }
    forall j | OccursAt(element, "</a>", j) ensures false {
      OccursInSlice(text, a, e, "</a>", j);
    }
    var name := SliceFrom(element, q + 2);
    if q + 2 <= |element| {
      assert name == element[q + 2..|element|];
      forall j | OccursAt(name, "</a>", j) ensures false {
        OccursInSlice(element, q + 2, |element|, "</a>", j);
      }
    }
  }

  /** An occurrence inside a slice is an occurrence in the whole string. */
  lemma OccursInSlice(s: string, lo: int, hi: int, sub: string, j: int)
    requires 0 <= lo <= hi <= |s| && OccursAt(s[lo..hi], sub, j)
    ensures OccursAt(s, sub, lo + j)
  {
    var inner := s[lo..hi];
    var found, whole := inner[j..j + |sub|], s[lo + j..lo + j + |sub|];
    forall k | 0 <= k < |sub| ensures found[k] == whole[k] {
      assert inner[j + k] == s[lo + j + k];
    }
    assert found == whole;
  }

  /** `get_last_published_semester()`: a failed page request propagates, a
      page is parsed. */
  function GetLastPublishedSemester(page: Outcome<string>): (r: Outcome<Entity>)
    ensures page.Raise? ==> r == Raise(page.exc)
    ensures page.Ok? ==> r == ParseSemester(page.value)
  {
    var text :- page;
    ParseSemester(text)
  }

  /** What `get_pdf` returns: the raw download, or the table as JSON. */
  datatype PdfResult = RawContent(content: Bytes) | JsonDocument(doc: Serialized)

  /** `get_pdf(pdf_type, as_json, extra_params)`: build and merge the
      parameters, download, and unless `as_json` is false extract, concatenate
      and repair, then serialise with `orient="table", index=False`. */
  function GetPdf(t: PdfType, asJson: bool, extra: Extra, get: Params -> Download,
                  read: (Bytes, Encoding) -> Extraction): (r: Outcome<PdfResult>)
    ensures MergeParams(t, extra).Raise? ==> r == Raise(TypeError)
    ensures MergeParams(t, extra).Ok? ==> var d := get(MergeParams(t, extra).value);
      && (d.DownloadFailed? ==> r == Raise(RequestError))
      && (d.Downloaded? && !asJson ==> r == Ok(RawContent(d.content)))
      && (d.Downloaded? && asJson ==>
            var x := ExtractTable(d.content, read);
            && (x.Raise? ==> r == Raise(x.exc))
            && (x.Ok? ==> r == Ok(JsonDocument(Serialized("table", false, x.value)))))
  {
    var params :- MergeParams(t, extra);
    match get(params)
    case DownloadFailed => Raise(RequestError)
    case Downloaded(content) =>
      if !asJson then Ok(RawContent(content))
      else
        var table :- ExtractTable(content, read);
        Ok(JsonDocument(Serialized("table", false, table)))
  }

  /** With `as_json=False` the extractor is never consulted. */
  lemma RawSkipsExtraction(t: PdfType, extra: Extra, get: Params -> Download,
                           read: (Bytes, Encoding) -> Extraction, read': (Bytes, Encoding) -> Extraction)
    ensures GetPdf(t, false, extra, get, read) == GetPdf(t, false, extra, get, read')
    ensures GetPdf(t, false, extra, get, read).Ok? ==> GetPdf(t, false, extra, get, read).value.RawContent?
  {
  }

  /** `get_course_schedule`, `get_course_requirements` and `get_finals_schedule`. */
  function GetCourseSchedule(semester: Arg, level: Arg, school: Arg, get: Params -> Download,
                             read: (Bytes, Encoding) -> Extraction): (r: Outcome<PdfResult>)
    ensures r.Ok? ==> r.value.JsonDocument?
  {
    GetPdf(Schedule, true, DictExtra(TermParams(semester, level, school)), get, read)
  }

  function GetCourseRequirements(semester: Arg, level: Arg, school: Arg, get: Params -> Download,
                                 read: (Bytes, Encoding) -> Extraction): (r: Outcome<PdfResult>)
    ensures r.Ok? ==> r.value.JsonDocument?
  {
    GetPdf(Requirements, true, DictExtra(TermParams(semester, level, school)), get, read)
  }

  function GetFinalsSchedule(semester: Arg, school: Arg, get: Params -> Download,
                             read: (Bytes, Encoding) -> Extraction): (r: Outcome<PdfResult>)
    ensures r.Ok? ==> r.value.JsonDocument?
  {
    GetPdf(Final, true, DictExtra(FinalsParams(semester, school)), get, read)
  }

  /** Each wrapper downloads with exactly its own parameters and serialises
      what the pipeline extracts; only the download can raise RequestError. */
  lemma CourseScheduleRequest(semester: Arg, level: Arg, school: Arg, get: Params -> Download,
                              read: (Bytes, Encoding) -> Extraction)
    ensures var params := map["method" := Str("printDocument"), "name" := Str("school_schedule_by_term"),
                              "termid" := semester, "academiclevel" := level, "schoolid" := school];
      DownloadedAs(GetCourseSchedule(semester, level, school, get, read), get(params), read)
  {
    MergedTermParams(Schedule, semester, level, school);
  }

  lemma CourseRequirementsRequest(semester: Arg, level: Arg, school: Arg, get: Params -> Download,
                                  read: (Bytes, Encoding) -> Extraction)
    ensures var params := map["method" := Str("printDocument"), "name" := Str("course_requirements"),
                              "termid" := semester, "academiclevel" := level, "schoolid" := school];
      DownloadedAs(GetCourseRequirements(semester, level, school, get, read), get(params), read)
  {
    MergedTermParams(Requirements, semester, level, school);
  }

  lemma FinalsScheduleRequest(semester: Arg, school: Arg, get: Params -> Download,
                              read: (Bytes, Encoding) -> Extraction)
    ensures var params := map["method" := Str("printDocument"), "name" := Str("final_exams_schedule"),
                              "termid" := semester, "schoolid" := school, "type" := Str("pdf")];
      DownloadedAs(GetFinalsSchedule(semester, school, get, read), get(params), read)
  {
    MergedFinalsParams(semester, school);
  }

  /** `r` is what `get_pdf(..., as_json=True)` makes of the download `d`. */
  predicate DownloadedAs(r: Outcome<PdfResult>, d: Download, read: (Bytes, Encoding) -> Extraction)
  {
    && (d.DownloadFailed? <==> r == Raise(RequestError))
    && (d.Downloaded? ==>
          (ExtractTable(d.content, read).Raise? ==> r == Raise(ExtractTable(d.content, read).exc))
          && (ExtractTable(d.content, read).Ok? ==>
                r == Ok(JsonDocument(Serialized("table", false, ExtractTable(d.content, read).value)))))
  }
}
