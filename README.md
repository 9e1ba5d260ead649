# nuregi in Dafny

A model of the deterministic core of `nuregi`, a client for the Nazarbayev
University registrar. The model covers:

- the Public Course Catalog JSON endpoint, in three client variants:
  - `nuregi/api/api.py` raises;
  - `public_course_catalog/helpers.py` and `public_course_catalog/__init__.py` log and return None;
- the schedules page scrape;
- the three copies of the PDF-to-table pipeline:
  - `nuregi/scraper.py`;
  - `scraper/pdf/pdf.py`;
  - `pdfscraper/csbs.py`.

All network traffic and the PDF table extractor are parameters of the model:

| parameter | stands for | what it returns |
|---|---|---|
| `post: Form -> Reply` | `requests.post` of a form | a timeout, another request exception, or a parsed JSON body (None when the body does not parse) |
| `get: Params -> Download` | `requests.get` of the document endpoint with a parameter dict | the content, or a failure |
| `open: string -> UrlReply` | urllib's `urlopen` | HTTPError, URLError or the content |
| `read: (Bytes, Encoding) -> Extraction` | tabula's `read_pdf` over all pages | a table per page, a UnicodeDecodeError or another error |
| `page: Outcome<string>` | the schedules page fetch | its text, or the exception |

A Python exception is a value: `Outcome<T>` is either `Ok(value)` or `Raise(exc)`, where `exc` is an `Exc`. Python's truthiness of optional arguments is `Truthy` over `Arg = Nothing | Int(i) | Str(s)`.

Modules, one per source file, plus three shared ones:

| module | file | models |
|---|---|---|
| `PyValues` | `PyValues.dfy` | options, arguments, exceptions, `str(int)`, the JSON shapes and the `next(...)` ID scan |
| `Sorting` | `Sorting.dfy` | `sorted(..., key=lambda x: x[k])`, proved ordered, a permutation, stable and unique |
| `Text` | `Text.dfy` | `str.index`, slicing and the `\r` repair |
| `PdfPipeline` | `PdfPipeline.dfy` | what the three PDF scrapers share: document types, the `**` merge, the cp1252 retry, `pd.concat` and the repair |
| `NuregiApi` | `Api.dfy` | nuregi/api/api.py |
| `NuregiScraper` | `Scraper.dfy` | nuregi/scraper.py |
| `ScraperPdf` | `PdfConvert.dfy` | scraper/pdf/pdf.py |
| `CatalogHelpers` | `CatalogHelpers.dfy` | public_course_catalog/helpers.py |
| `Catalog` | `Catalog.dfy` | public_course_catalog/__init__.py |
| `Csbs` | `Csbs.dfy` | pdfscraper/csbs.py |

`get_course_list` rewrites its `args` and `brackets` lists in place. It is therefore a method over two arrays, `NuregiApi.MarkArgs`, with a loop invariant, and that method is proved against the pure `SearchPayload`. Everything else in the core is expressions and early returns, so it is modelled as functions.

Where the code and its documentation differ, the model follows the code:

- **An optional filter of integer 0.** It counts as absent only for the `[]` suffix. Its value is still sent as `"0"` (`OptionalFilterFields`).
- **`get_item` and `get_semester` can raise.** Both are meant to return None on failure, but they fail in different ways:
  - `get_item`: an object without an `ID` makes the silent sort fallback keep the list in server order, and the ID scan then raises KeyError (`GetItemCanRaise`, `FindInList`). A non-empty dict answer that is not an error envelope escapes `get_data` as TypeError from the sort (`GetData`).
  - `get_semester` neither sorts nor checks for an error envelope. An entry without an `ID` before the match raises KeyError in the scan (`GetSemesterCanRaise`). Any non-empty dict answer, an error envelope included, raises KeyError at `semesters_list[0]` for a falsy code and TypeError in the scan for a truthy one (`GetSemesterOnDict`, `FindById`).
- **`get_subject` returns None.** It drops the lookup result (`Getter`).
- **`extra_params=None` fails.** In both `get_pdf` and `convert_pdf_to_json` it raises TypeError at the `**` merge. So the `extra_params is not None` branch of the dict check is dead (`NoExtraParamsRaises`).
- **`csbs.get_dataframe` differs from the other two copies of the pipeline:**
  - it ignores the academic level and school it is given;
  - it has no cp1252 retry;
  - it evaluates `semester["NAME"]` for a log line, so a semester without a NAME raises KeyError (`GetDataframe`).

## Model

| member | source | states |
|---|---|---|
| PyValues.Truthy | nuregi/api/api.py:156-165 | None, 0 and '' are the only falsy arguments |
| PyValues.IntToStr | nuregi/api/api.py:72 | `str(i)` is non-empty, starts with '-' exactly when `i` is negative, and is digits after that |
| PyValues.PyStr | nuregi/api/api.py:72 | `str()` of a lookup ID: a string unchanged, an int as `IntToStr` |
| PyValues.IntToStrRoundTrip | nuregi/api/api.py:72 | reading back the digits `str(i)` writes gives `i`, for negative `i` too |
| PyValues.IntToStrInjective | nuregi/api/api.py:72 | `str` on ints is injective, so comparing IDs after `str()` identifies the int |
| PyValues.StringifyInt | public_course_catalog/helpers.py:61-62 | an int becomes its text, which is always truthy; anything else is unchanged |
| PyValues.Lower | public_course_catalog/helpers.py:67 | `str.lower()`: same length, each character lower-cased |
| PyValues.Subscript | public_course_catalog/helpers.py:66-70 | a non-empty list is indexed (negative from the end); a dict raises KeyError |
| PyValues.FindInList | public_course_catalog/helpers.py:75 | the result is the first object with the ID, provided every object before it has an ID; None when no object matches; KeyError exactly at an object without an ID that comes before any match |
| PyValues.FindById | public_course_catalog/__init__.py:58 | a list is scanned; an empty dict gives None; a non-empty dict raises TypeError |
| PyValues.FindInListTotal | nuregi/api/api.py:75 | when every object has an ID the scan never raises, and it finds something exactly when the ID occurs |
| Sorting.StrLeTotal | public_course_catalog/helpers.py:39 | `str` comparison is total |
| Sorting.StrLeTransitive | public_course_catalog/helpers.py:39 | `str` comparison is transitive |
| Sorting.StrLeAntisymmetric | public_course_catalog/helpers.py:39 | `str` comparison is antisymmetric |
| Sorting.SortByKey | nuregi/api/api.py:52 | the model of `sorted(items, key=lambda x: x[k])`: every object keeps the key and the length is kept; `SortByKeyCorrect` states the rest |
| Sorting.SortByKeyCorrect | nuregi/api/api.py:52 | the sort is ordered by key, is a permutation (same multiset), and keeps the input order among equal keys |
| Sorting.StableSortUnique | nuregi/api/api.py:52 | two ordered lists that agree on the objects of every key value are equal |
| Sorting.SortByKeyIsSorted | nuregi/api/api.py:52 | any ordered, stable rearrangement of the input equals `SortByKey`, so the model is Python's `sorted` |
| Sorting.PermutationKeepsValues | nuregi/api/api.py:75 | a rearrangement has an object with a key value exactly when the original has one |
| Sorting.SortKeepsValues | nuregi/api/api.py:52-75 | sorting neither adds nor loses a key value |
| Sorting.SortJson | nuregi/api/api.py:52 | a list with the key everywhere is sorted stably; a missing key raises KeyError; an empty dict gives `[]`; a non-empty dict raises TypeError |
| Text.IndexOf | nuregi/scraper.py:54-60 | `str.index` gives the first occurrence at or after the start, or nothing when there is none |
| Text.SliceFrom | nuregi/scraper.py:62 | `s[i:]` clamps a start past the end to '' |
| Text.RepairText | nuregi/scraper.py:114-116 | each `\r` becomes one space and every other character stays put |
| Text.RepairTextRemovesCR | nuregi/scraper.py:114-116 | the repaired text holds no `\r` |
| Text.RepairTextIdempotent | nuregi/scraper.py:114-116 | the repair is idempotent and leaves text without `\r` alone |
| PdfPipeline.PdfTypeValuesDistinct | nuregi/scraper.py:18-25 | the three document names are distinct |
| PdfPipeline.MergeParams | nuregi/scraper.py:75-79 | the merge raises TypeError exactly for None or a non-mapping; otherwise the keys are the caller's plus method and name, the caller's values win, and method/name default to printDocument and the type's name |
| PdfPipeline.TermParams | nuregi/scraper.py:127-131 | the schedule and requirements `extra_params` hold exactly termid, academiclevel and schoolid, so they never override method or name |
| PdfPipeline.FinalsParams | nuregi/scraper.py:158-162 | the finals `extra_params` hold exactly termid, schoolid and type=pdf, so they never override method or name |
| PdfPipeline.MergedTermParams | nuregi/scraper.py:127-133 | the schedule and requirements requests are exactly method, name, termid, academiclevel and schoolid |
| PdfPipeline.MergedFinalsParams | nuregi/scraper.py:158-164 | the finals request is exactly method, name=final_exams_schedule, termid, schoolid, type=pdf |
| PdfPipeline.ReadWithFallback | nuregi/scraper.py:100-112 | the default encoding is tried first; cp1252 is tried once, only after a UnicodeDecodeError; the result is the last attempt's, its failure propagated |
| PdfPipeline.Flatten | nuregi/scraper.py:114 | the pages' rows one after another; the row count is the sum of the page row counts |
| PdfPipeline.ConcatPages | nuregi/scraper.py:114 | no pages raises ValueError; otherwise the pages are concatenated |
| PdfPipeline.FlattenRowAt | nuregi/scraper.py:114 | row `i` of page `p` is row `TotalRows(pages[..p]) + i` of the result, and the result has as many rows as all pages together |
| PdfPipeline.FlattenRowFrom | nuregi/scraper.py:114 | every row of the result is a row of some page |
| PdfPipeline.SingleRowPages | nuregi/scraper.py:114 | N one-row pages give N rows in page order |
| PdfPipeline.RepairCell | nuregi/scraper.py:114-116 | only text cells change, and they are repaired |
| PdfPipeline.RepairRow | nuregi/scraper.py:114-116 | a row keeps its length, and each cell is repaired |
| PdfPipeline.RepairTable | nuregi/scraper.py:114-116 | a table keeps its shape, and each row is repaired |
| PdfPipeline.RepairTableSpec | nuregi/scraper.py:114-116 | after the repair no text cell holds `\r`, and every cell that held none is unchanged |
| PdfPipeline.TwoPageExample | nuregi/scraper.py:114-116 | the pages `[["A","B"]]` and `[["C\rD","E"]]` become `[["A","B"],["C D","E"]]` |
| PdfPipeline.ExtractTable | nuregi/scraper.py:100-116 | an extraction failure propagates, no pages raises ValueError, and otherwise the result is the repaired concatenation; only those three exceptions occur |
| NuregiApi.PostRequest | nuregi/api/api.py:26-56 | a transport failure raises RequestError and an unparseable body ValueError; an error envelope raises APIError; without `sort_by` the data is returned as is; with it, a list is stably sorted and a missing key raises ValidationError; a successful sorted result is ordered |
| NuregiApi.LookupRequest | nuregi/api/api.py:67 | a one-field form `method` whose value is `get` + the object word + `s`, from which the word can be read back |
| NuregiApi.GetRegistrarObject | nuregi/api/api.py:59-78 | errors propagate; None returns everything; otherwise the result is the first object with ID `str(object_id)`, and ValidationError is raised exactly when no object has it |
| NuregiApi.GetRegistrarObjectFinds | nuregi/api/api.py:67-78 | on a response where every object has an ID, the lookup succeeds exactly when the ID occurs in the response, with the first match in ID order |
| NuregiApi.IdLookupSorted | nuregi/api/api.py:67 | the scanned objects are the response sorted by ID |
| NuregiApi.GetRegistrarObjectAll | nuregi/api/api.py:69-70 | `object_id=None` returns the whole ID-sorted list |
| NuregiApi.ZeroIdIsLookedUp | nuregi/api/api.py:69-72 | the int 0 is looked up as "0" |
| NuregiApi.Getter | nuregi/api/api.py:81-148 | each public getter raises what the lookup raises; `get_subject` always yields None; the others return the lookup |
| NuregiApi.MarkArgs | nuregi/api/api.py:161-168 | after the loop each argument is its wire text and its bracket is `[]` exactly when it was truthy |
| NuregiApi.SearchPayload | nuregi/api/api.py:153-188 | the reference search form: 17 fields, `method=getSearchData` first, every other name under `searchParams[` |
| NuregiApi.RequestData | nuregi/api/api.py:170-188 | the `request_data` literal: 17 fields, `method=getSearchData` first, and limit, page, semester and the six filters read from `args[0..9]` in order |
| NuregiApi.GetCourseList | nuregi/api/api.py:150-191 | the posted form is `SearchPayload` of the arguments, and the answer is `post_request` of it, unsorted |
| NuregiApi.RequestDataIsSearchPayload | nuregi/api/api.py:170-188 | the literal filled with the rewritten lists is the search form |
| NuregiApi.PayloadHasSeventeenFields | nuregi/api/api.py:170-188 | the form has 17 fields with pairwise distinct names |
| NuregiApi.PayloadConstants | nuregi/api/api.py:170-188 | the eight constant fields are always present with their fixed values |
| NuregiApi.OptionalFilterFields | nuregi/api/api.py:162-185 | a truthy filter is sent under the `[]` name with its text; a falsy one under the plain name, with '' for None or '' and "0" for the int 0 |
| NuregiApi.OnlyLimit | nuregi/api/api.py:153-188 | with only `limit`: page "1", semester "-1", six unbracketed empty filters, and limit as its text |
| NuregiApi.ZeroOffsetAndSemester | nuregi/api/api.py:156-160 | offset 0 becomes page "1" and semester 0 becomes "-1" |
| NuregiApi.TruthyOffsetAndSemester | nuregi/api/api.py:156-168 | a truthy offset or semester is sent as its text |
| NuregiApi.TimeoutNotSent | nuregi/api/api.py:170-188 | the timeout does not affect the form |
| NuregiScraper.SemesterAt | nuregi/scraper.py:58-62 | the semester at the four positions has exactly ID and NAME: ID is the page text from `termid=` to the quote, NAME the text from two past the quote to the element's end, or '' |
| NuregiScraper.ParseSemester | nuregi/scraper.py:54-67 | a result is the ID and NAME at the first anchor, the first `</a>` after it, the first `termid=` in the element and the next quote; any miss raises ValueError |
| NuregiScraper.ParseSemesterComplete | nuregi/scraper.py:54-62 | when all four positions exist the parse succeeds with exactly them, so it fails only when a search misses |
| NuregiScraper.ParsedSemesterClean | nuregi/scraper.py:57-62 | the ID holds no quote; neither the scanned element nor the NAME holds `</a>` |
| NuregiScraper.OccursInSlice | nuregi/scraper.py:58 | an occurrence in `text[start:end]` is one in `text` |
| NuregiScraper.GetLastPublishedSemester | nuregi/scraper.py:37-67 | a failed page request propagates; otherwise the page is parsed |
| NuregiScraper.GetPdf | nuregi/scraper.py:69-117 | a merge TypeError and a download failure propagate; without `as_json` the raw content is returned; with it, the pipeline's table serialised as orient "table" without index |
| NuregiScraper.RawSkipsExtraction | nuregi/scraper.py:97-98 | with `as_json=False` the result does not depend on the extractor and is the raw content |
| NuregiScraper.GetCourseSchedule | nuregi/scraper.py:119-133 | the schedule wrapper only ever returns JSON |
| NuregiScraper.GetCourseRequirements | nuregi/scraper.py:135-149 | the requirements wrapper only ever returns JSON |
| NuregiScraper.GetFinalsSchedule | nuregi/scraper.py:151-164 | the finals wrapper only ever returns JSON |
| NuregiScraper.CourseScheduleRequest | nuregi/scraper.py:127-133 | the schedule wrapper downloads with exactly its five parameters, and fails with RequestError exactly when that download fails |
| NuregiScraper.CourseRequirementsRequest | nuregi/scraper.py:143-149 | the same for requirements, with name course_requirements |
| NuregiScraper.FinalsScheduleRequest | nuregi/scraper.py:158-164 | the same for finals, with termid, schoolid and type=pdf |
| ScraperPdf.ValidFormat | scraper/pdf/pdf.py:42 | the accepted layouts are exactly "table" and "columns" |
| ScraperPdf.ConvertPdfToJson | scraper/pdf/pdf.py:26-63 | the order is: the merge's TypeError, then an invalid layout and a non-dict mapping as ValidationError, then the download and the pipeline; a result has the requested layout and an index exactly for "columns" |
| ScraperPdf.NoExtraParamsRaises | scraper/pdf/pdf.py:36-46 | `extra_params=None` raises TypeError whatever the layout |
| ScraperPdf.RejectedBeforeRequest | scraper/pdf/pdf.py:42-48 | an invalid layout or a non-dict mapping fails whatever the download would give |
| ScraperPdf.GetSchedule | scraper/pdf/pdf.py:66-83 | an invalid layout raises ValidationError |
| ScraperPdf.GetFinalSchedule | scraper/pdf/pdf.py:86-102 | an invalid layout raises ValidationError |
| ScraperPdf.GetRequirements | scraper/pdf/pdf.py:105-122 | an invalid layout raises ValidationError |
| ScraperPdf.ScheduleRequest | scraper/pdf/pdf.py:77-83 | with a valid layout the schedule is downloaded with exactly its five parameters and converted |
| ScraperPdf.FinalScheduleRequest | scraper/pdf/pdf.py:96-102 | the same for the final schedule, with termid, schoolid and type=pdf |
| ScraperPdf.RequirementsRequest | scraper/pdf/pdf.py:116-122 | the same for requirements |
| CatalogHelpers.GetData | public_course_catalog/helpers.py:10-48 | transport failures, unparseable bodies and error envelopes give None; without a key the data passes through; with one, a list is sorted when every object has the key and left in order otherwise; a non-empty dict raises TypeError |
| CatalogHelpers.GetDataSorted | public_course_catalog/helpers.py:35-41 | with the key everywhere the result is ordered, a permutation and stable |
| CatalogHelpers.ItemRequest | public_course_catalog/helpers.py:52 | a one-field form `method` whose value is `get` + the item type + `s`, from which the type can be read back |
| CatalogHelpers.IsSemesterType | public_course_catalog/helpers.py:67 | the type is 'semester' in any ASCII letter case: eight characters that lower-case to it |
| CatalogHelpers.GetItem | public_course_catalog/helpers.py:51-77 | no items gives None; 'all' gives the whole list; a falsy code gives the last item of a semester list and the first of any other; otherwise the ID scan decides |
| CatalogHelpers.GetItemByCode | public_course_catalog/helpers.py:75-77 | with IDs everywhere a code never raises, gives None exactly when no object has it, and otherwise the first match in ID order |
| CatalogHelpers.GetItemDefault | public_course_catalog/helpers.py:64-70 | a falsy code gives the last sorted semester, or the first sorted item of another type |
| CatalogHelpers.ZeroCodeIsLookedUp | public_course_catalog/helpers.py:61-64 | the int 0 is looked up as "0" |
| CatalogHelpers.GetItemCanRaise | public_course_catalog/helpers.py:38-41 | `[{}, {"ID": "1"}]` with code "1" raises KeyError |
| Catalog.GetSemesters | public_course_catalog/__init__.py:10-36 | the parsed body is returned unsorted, and None exactly when the request failed or the body does not parse |
| Catalog.GetSemester | public_course_catalog/__init__.py:39-60 | no semesters gives None; a falsy code gives the first entry; otherwise the ID scan decides |
| Catalog.GetSemesterByCode | public_course_catalog/__init__.py:58-60 | with IDs everywhere a code gives the first match in server order, or None exactly when there is none |
| Catalog.GetSemesterDefault | public_course_catalog/__init__.py:50-53 | a falsy code gives the first semester as listed |
| Catalog.GetSemesterOnDict | public_course_catalog/__init__.py:50-58 | a non-empty dict answer, an error envelope included, raises KeyError for a falsy code and TypeError for a truthy one |
| Catalog.GetSemesterCanRaise | public_course_catalog/__init__.py:58 | `[{}, {"ID": "1"}]` with code "1" raises KeyError |
| Catalog.ZeroSemesterCodeIsLookedUp | public_course_catalog/__init__.py:47-48 | the int 0 is looked up as "0" |
| Csbs.CsbsUrl | pdfscraper/csbs.py:30-32 | the document URL is the endpoint, the query head, the code and the query tail, whose lengths add up |
| Csbs.CsbsUrlCode | pdfscraper/csbs.py:30-32 | the URL splits back into head, code and tail |
| Csbs.CsbsUrlInjective | pdfscraper/csbs.py:30-32 | distinct codes give distinct URLs |
| Csbs.FetchTable | pdfscraper/csbs.py:34-49 | HTTPError and URLError give None; one default-encoding read; its errors and an empty page list propagate; otherwise the repaired concatenation |
| Csbs.GetDataframe | pdfscraper/csbs.py:16-49 | the ordinary paths:<br>– no semester gives None;<br>– the code, or the semester's ID when the code is falsy, selects the URL;<br>– a missing NAME, or a missing ID when it is needed, raises KeyError;<br>– semester errors propagate |
| Csbs.LevelAndSchoolIgnored | pdfscraper/csbs.py:16-32 | the academic level and school do not affect the result |
| Csbs.NoSemesterNoRequest | pdfscraper/csbs.py:18-21 | without a semester nothing is opened and the result is None |
| Csbs.DataframeFromPages | pdfscraper/csbs.py:34-41 | a table comes only from an opened document, and is its default-encoding pages concatenated and repaired |

## Left out

- **HTTP transport.** This covers:
  - `requests.post`, `requests.get` and `urllib.request.urlopen`;
  - the `verify=False` retry after an SSLError, and the APIError it raises when `ignore_ssl` is off;
  - `raise_for_status`;
  - timeouts.

  All of it is folded into the transport parameters.
- **The `Scraper` fields `timeout` and `ignore_ssl`.** They only feed the transport. `Scraper` is therefore not a class, and its methods are functions.
- **requests dropping None query parameters.** The parameter dicts are modelled as built, None values included.
- **tabula's `read_pdf`.** It is the `read` parameter. The stream position of the `BytesIO` on the retry is not modelled.
- **pandas `to_json`.** The model keeps only the `orient` and `index` arguments chosen (`Serialized`), not pandas' JSON layouts. Column alignment of `pd.concat` across pages with different widths is not modelled either.
- **Logging and `print`**, except where evaluating a log line raises (csbs `semester["NAME"]`).
- **Kept out of this model:**
  - `csbs.get_json` and `get_json_as_table`, which serialise a possibly-None value;
  - `pdfscraper/__init__.py`, which calls `get_dataframe` with keyword arguments it does not accept;
  - `nuregi/__init__.py`, which only re-exports;
  - setup.py.
- **nuregi/exceptions.py.** Its classes are the `APIError` and `ValidationError` variants of `Exc`.
- **The order of query parameters.** `Params` is a map, so the order in which requests writes the GET query (method, name, then the caller's keys) is not modelled.
- **pandas' float cells.** A numeric table cell is `Number(n)` with an integer `n`, not a float. The repair only touches text cells.
- **Python types outside the model.** Arguments are None, `int` or `str`; `bool` arguments and other types are not modelled. JSON answers are a list of string-valued objects or a string-valued dict. Non-object list items, nested values and scalar bodies are not modelled.
- **Other exceptions escaping the transport.** `Reply` and `Download` do not model them.
- PyValues.Lower: lower-cases ASCII letters only, unlike Python's Unicode `str.lower`.
- Csbs.FetchTable: any other exception of `urlopen`, such as a socket timeout not wrapped in URLError, is not modelled.
