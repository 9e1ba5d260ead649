/** pdfscraper/csbs.py: the course schedule by schools document as a table.
    The semester comes from the catalog (`post`), the document from `open`
    (urllib's `urlopen` of a URL), and the tables from the extractor `read`. */
module Csbs {
  import opened PyValues
  import opened PdfPipeline
  import opened Catalog

  /** What opening the document URL gives. */
  datatype UrlReply = HttpFailed | UrlFailed | Opened(content: Bytes)

  const RequestUrl: string := "http://registrar.nu.edu.kz/registrar_downloads/json"
  const QueryHead: string := "?method=printDocument&name=school_schedule_by_term&termid="
  const QueryTail: string := "&academiclevel=1"

  /** The document URL for a semester code: level 1, whatever was asked for. */
  function CsbsUrl(code: string): (url: string)
    ensures |url| == |RequestUrl| + |QueryHead| + |code| + |QueryTail|
  {
    RequestUrl + QueryHead + code + QueryTail
  }

  /** The code can be read back from the URL, so distinct codes make distinct URLs. */
  lemma CsbsUrlCode(code: string)
    ensures var url := CsbsUrl(code);
      && url[..|RequestUrl| + |QueryHead|] == RequestUrl + QueryHead
      && url[|RequestUrl| + |QueryHead|..|url| - |QueryTail|] == code
      && url[|url| - |QueryTail|..] == QueryTail
  {
    var url := CsbsUrl(code);
    var n := |RequestUrl| + |QueryHead|;
    assert url == (RequestUrl + QueryHead) + code + QueryTail;
    assert url[..n] == RequestUrl + QueryHead;
    assert url[n..|url| - |QueryTail|] == code;
  }

  lemma CsbsUrlInjective(a: string, b: string)
    requires CsbsUrl(a) == CsbsUrl(b)
    ensures a == b
  {
    CsbsUrlCode(a);
    CsbsUrlCode(b);
  }

  /** The `with urlopen(...)` block: HTTPError and URLError give None; the
      document is read once with the default encoding (there is no cp1252
      retry here), and an extraction error propagates. */
  function FetchTable(url: string, open: string -> UrlReply, read: (Bytes, Encoding) -> Extraction): (r: Outcome<Option<Table>>)
    ensures !open(url).Opened? ==> r == Ok(None)
    ensures open(url).Opened? ==> var x := read(open(url).content, Utf8);
      && (x.DecodeFailed? ==> r == Raise(UnicodeDecodeError))
      && (x.ExtractFailed? ==> r == Raise(ExtractorError))
      && (x.Pages? && x.tables == [] ==> r == Raise(ValueError))
      && (x.Pages? && x.tables != [] ==> r == Ok(Some(RepairTable(Flatten(x.tables)))))
  {
    match open(url)
    case HttpFailed => Ok(None)
    case UrlFailed => Ok(None)
    case Opened(content) =>
      match read(content, Utf8)
      case DecodeFailed => Raise(UnicodeDecodeError)
      case ExtractFailed => Raise(ExtractorError)
      case Pages(tables) =>
        var table :- ConcatPages(tables);
        Ok(Some(RepairTable(table)))
  }

  /** `get_dataframe(semester_code, academic_level, school_code)`. No semester
      (None or an empty object) gives None before any URL is built; a falsy
      code is replaced by the semester's ID; the log line reads the semester's
      NAME, so a semester without one raises KeyError, as does a missing ID
      when it is needed. */
  function GetDataframe(semesterCode: Arg, academicLevel: Arg, schoolCode: Arg, post: Form -> Reply,
                        open: string -> UrlReply, read: (Bytes, Encoding) -> Extraction): (r: Outcome<Option<Table>>)
    ensures var s := GetSemester(semesterCode, post);
      && (s.Raise? ==> r == Raise(s.exc))
      && (s.Ok? && (s.value.None? || |s.value.value| == 0) ==> r == Ok(None))
      && (s.Ok? && s.value.Some? && |s.value.value| > 0 ==>
            var sem := s.value.value;
            && ((!Truthy(semesterCode) && "ID" !in sem) || "NAME" !in sem ==> r == Raise(KeyError))
            && (Truthy(semesterCode) && "NAME" in sem ==>
                  r == FetchTable(CsbsUrl(PyStr(semesterCode)), open, read))
            && (!Truthy(semesterCode) && "ID" in sem && "NAME" in sem ==>
                  r == FetchTable(CsbsUrl(sem["ID"]), open, read)))
  {
    var found :- GetSemester(semesterCode, post);
    if found.None? || |found.value| == 0 then Ok(None)
    else
      var sem := found.value;
      if !Truthy(semesterCode) && "ID" !in sem then Raise(KeyError)
      else
        var code := if Truthy(semesterCode) then PyStr(semesterCode) else sem["ID"];
        if "NAME" !in sem then Raise(KeyError)
        else FetchTable(CsbsUrl(code), open, read)
  }

  /** `academic_level` and `school_code` change nothing. */
  lemma LevelAndSchoolIgnored(semesterCode: Arg, level: Arg, school: Arg, level': Arg, school': Arg,
                              post: Form -> Reply, open: string -> UrlReply, read: (Bytes, Encoding) -> Extraction)
    ensures GetDataframe(semesterCode, level, school, post, open, read) ==
            GetDataframe(semesterCode, level', school', post, open, read)
  {
  }

  /** Without a semester nothing is opened: the result does not depend on `open`. */
  lemma NoSemesterNoRequest(semesterCode: Arg, level: Arg, school: Arg, post: Form -> Reply,
                            open: string -> UrlReply, open': string -> UrlReply,
                            read: (Bytes, Encoding) -> Extraction)
    requires GetSemester(semesterCode, post) == Ok(None)
    ensures GetDataframe(semesterCode, level, school, post, open, read) == Ok(None)
    ensures GetDataframe(semesterCode, level, school, post, open', read) == Ok(None)
  {
  }

  /** A table comes back only from a document that opened and whose pages the
      extractor read with the default encoding; it is those pages, concatenated
      in order and repaired. */
  lemma DataframeFromPages(semesterCode: Arg, level: Arg, school: Arg, post: Form -> Reply,
                           open: string -> UrlReply, read: (Bytes, Encoding) -> Extraction)
    requires GetDataframe(semesterCode, level, school, post, open, read).Ok?
    requires GetDataframe(semesterCode, level, school, post, open, read).value.Some?
    ensures exists url :: (open(url).Opened? && read(open(url).content, Utf8).Pages? &&
      read(open(url).content, Utf8).tables != [] &&
      GetDataframe(semesterCode, level, school, post, open, read).value.value ==
        RepairTable(Flatten(read(open(url).content, Utf8).tables)))
  {
    var sem := GetSemester(semesterCode, post).value.value;
    var url := CsbsUrl(if Truthy(semesterCode) then PyStr(semesterCode) else sem["ID"]);
    assert open(url).Opened?;
  }
}
