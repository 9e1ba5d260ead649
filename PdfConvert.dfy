/** scraper/pdf/pdf.py: the registrar's PDF documents converted to JSON in a
    caller-chosen layout. The document download is passed in as `get`. */
module ScraperPdf {
  import opened PyValues
  import opened PdfPipeline

  /** The two `to_json` layouts the converter accepts. */
  predicate ValidFormat(dataFormat: string)
    ensures ValidFormat(dataFormat) <==> dataFormat in {"table", "columns"}
  {
    dataFormat == "table" || dataFormat == "columns"
  }

  /** `r` is what the conversion makes of the download `d` in layout `dataFormat`:
      the download's failure, the pipeline's failure, or the repaired table
      serialised with the index written exactly for "columns". */
  predicate ConvertedAs(r: Outcome<Serialized>, dataFormat: string, d: Download,
                        read: (Bytes, Encoding) -> Extraction)
  {
    && (d.DownloadFailed? <==> r == Raise(RequestError))
    && (d.Downloaded? ==>
          (ExtractTable(d.content, read).Raise? ==> r == Raise(ExtractTable(d.content, read).exc))
          && (ExtractTable(d.content, read).Ok? ==>
                r == Ok(Serialized(dataFormat, dataFormat == "columns", ExtractTable(d.content, read).value))))
  }

  /** `convert_pdf_to_json(pdf_type, data_format, extra_params)`. The `**` merge
      comes first, so a missing or non-mapping `extra_params` raises TypeError
      before either check; then an unknown layout and a mapping that is not a
      dict raise ValidationError, both before the download. */
  function ConvertPdfToJson(t: PdfType, dataFormat: string, extra: Extra, get: Params -> Download,
                            read: (Bytes, Encoding) -> Extraction): (r: Outcome<Serialized>)
    ensures MergeParams(t, extra).Raise? ==> r == Raise(TypeError)
    ensures MergeParams(t, extra).Ok? && !ValidFormat(dataFormat) ==> r == Raise(ValidationError)
    ensures MergeParams(t, extra).Ok? && extra.OtherMapping? ==> r == Raise(ValidationError)
    ensures MergeParams(t, extra).Ok? && ValidFormat(dataFormat) && extra.DictExtra? ==>
      ConvertedAs(r, dataFormat, get(MergeParams(t, extra).value), read)
    ensures r.Ok? ==> (ValidFormat(dataFormat) && extra.DictExtra? &&
      r.value.orient == dataFormat && (r.value.index <==> dataFormat == "columns"))
  {
    var params :- MergeParams(t, extra);
    if !ValidFormat(dataFormat) then Raise(ValidationError)
    else if !extra.DictExtra? then Raise(ValidationError)
    else
      match get(params)
      case DownloadFailed => Raise(RequestError)
      case Downloaded(content) =>
        var table :- ExtractTable(content, read);
        Ok(Serialized(dataFormat, dataFormat == "columns", table))
  }

  /** `extra_params=None` (the default) never reaches the `is not None` check:
      the merge raises TypeError whatever the layout. */
  lemma NoExtraParamsRaises(t: PdfType, dataFormat: string, get: Params -> Download,
                            read: (Bytes, Encoding) -> Extraction)
    ensures ConvertPdfToJson(t, dataFormat, NoExtra, get, read) == Raise(TypeError)
  {
  }

  /** An invalid layout or a non-dict mapping is rejected before any request:
      the result does not depend on what the download would give. */
  lemma RejectedBeforeRequest(t: PdfType, dataFormat: string, extra: Extra,
                              get: Params -> Download, get': Params -> Download,
                              read: (Bytes, Encoding) -> Extraction)
    requires !ValidFormat(dataFormat) || !extra.DictExtra?
    ensures ConvertPdfToJson(t, dataFormat, extra, get, read) == ConvertPdfToJson(t, dataFormat, extra, get', read)
    ensures ConvertPdfToJson(t, dataFormat, extra, get, read).Raise?
  {
  }

  /** `get_schedule`, `get_final_schedule` and `get_requirements`. */
  function GetSchedule(dataFormat: string, semester: Arg, level: Arg, school: Arg,
                       get: Params -> Download, read: (Bytes, Encoding) -> Extraction): (r: Outcome<Serialized>)
    ensures !ValidFormat(dataFormat) ==> r == Raise(ValidationError)
  {
    ConvertPdfToJson(Schedule, dataFormat, DictExtra(TermParams(semester, level, school)), get, read)
  }

  function GetFinalSchedule(dataFormat: string, semester: Arg, school: Arg,
                            get: Params -> Download, read: (Bytes, Encoding) -> Extraction): (r: Outcome<Serialized>)
    ensures !ValidFormat(dataFormat) ==> r == Raise(ValidationError)
  {
    ConvertPdfToJson(Final, dataFormat, DictExtra(FinalsParams(semester, school)), get, read)
  }

  function GetRequirements(dataFormat: string, semester: Arg, level: Arg, school: Arg,
                           get: Params -> Download, read: (Bytes, Encoding) -> Extraction): (r: Outcome<Serialized>)
    ensures !ValidFormat(dataFormat) ==> r == Raise(ValidationError)
  {
    ConvertPdfToJson(Requirements, dataFormat, DictExtra(TermParams(semester, level, school)), get, read)
  }

  /** With a valid layout each wrapper downloads with exactly its own parameters. */
  lemma ScheduleRequest(dataFormat: string, semester: Arg, level: Arg, school: Arg,
                        get: Params -> Download, read: (Bytes, Encoding) -> Extraction)
    requires ValidFormat(dataFormat)
    ensures var params := map["method" := Str("printDocument"), "name" := Str("school_schedule_by_term"),
                              "termid" := semester, "academiclevel" := level, "schoolid" := school];
      ConvertedAs(GetSchedule(dataFormat, semester, level, school, get, read), dataFormat, get(params), read)
  {
    MergedTermParams(Schedule, semester, level, school);
  }

  lemma FinalScheduleRequest(dataFormat: string, semester: Arg, school: Arg,
                             get: Params -> Download, read: (Bytes, Encoding) -> Extraction)
    requires ValidFormat(dataFormat)
    ensures var params := map["method" := Str("printDocument"), "name" := Str("final_exams_schedule"),
                              "termid" := semester, "schoolid" := school, "type" := Str("pdf")];
      ConvertedAs(GetFinalSchedule(dataFormat, semester, school, get, read), dataFormat, get(params), read)
  {
    MergedFinalsParams(semester, school);
  }

  lemma RequirementsRequest(dataFormat: string, semester: Arg, level: Arg, school: Arg,
                            get: Params -> Download, read: (Bytes, Encoding) -> Extraction)
    requires ValidFormat(dataFormat)
    ensures var params := map["method" := Str("printDocument"), "name" := Str("course_requirements"),
                              "termid" := semester, "academiclevel" := level, "schoolid" := school];
      ConvertedAs(GetRequirements(dataFormat, semester, level, school, get, read), dataFormat, get(params), read)
  {
    MergedTermParams(Requirements, semester, level, school);
  }
}
