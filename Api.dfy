/** nuregi/api/api.py: the registrar catalog client that raises on failure.
    The POST itself is a function passed in (`post`), from the form sent to
    what came back. */
module NuregiApi {
  import opened PyValues
  import opened Sorting

  /** The kinds of registrar objects and the word each is requested by. */
  datatype RegistrarObject = Semester | School | AcademicLevel | Department | Subject | Instructor | Breadth
  {
    function Value(): string
    {
      match this
      case Semester => "semester"
      case School => "school"
      case AcademicLevel => "level"
      case Department => "department"
      case Subject => "subject"
      case Instructor => "instructor"
      case Breadth => "breadth"
    }
  }

  /** `post_request(request_data, sort_by)`: transport errors and invalid JSON
      propagate, an error envelope raises APIError, and with a truthy `sort_by`
      the data is sorted, a missing key raising ValidationError. */
  function PostRequest(request: Form, sortBy: Option<string>, post: Form -> Reply): (r: Outcome<Json>)
    ensures (post(request).TimedOut? || post(request).RequestFailed?) ==> r == Raise(RequestError)
    ensures post(request) == Answered(None) ==> r == Raise(ValueError)
    ensures post(request).Answered? && post(request).body.Some? ==>
      var data := post(request).body.value;
      && (IsErrorEnvelope(data) ==> r == Raise(APIError))
      && (!IsErrorEnvelope(data) && (sortBy.None? || sortBy.value == "") ==> r == Ok(data))
      && (!IsErrorEnvelope(data) && sortBy.Some? && sortBy.value != "" ==>
            && (data.JList? && !HasKey(data.items, sortBy.value) ==> r == Raise(ValidationError))
            && (data.JList? && HasKey(data.items, sortBy.value) ==>
                  r.Ok? && r.value.JList? && r.value.items == SortByKey(data.items, sortBy.value)))
    ensures r.Ok? && sortBy.Some? && sortBy.value != "" ==>
      r.value.JList? && HasKey(r.value.items, sortBy.value) && SortedBy(r.value.items, sortBy.value)
  {
    match post(request)
    case TimedOut => Raise(RequestError)
    case RequestFailed => Raise(RequestError)
    case Answered(body) =>
      if body.None? then Raise(ValueError)
      else if IsErrorEnvelope(body.value) then Raise(APIError)
      else if sortBy.Some? && sortBy.value != "" then
        match SortJson(body.value, sortBy.value)
        case Ok(sorted) => Ok(sorted)
        case Raise(e) => Raise(if e == KeyError then ValidationError else e)
      else Ok(body.value)
  }

  /** `{"method": f"get{object_type.value}s"}`. */
  function LookupRequest(kind: RegistrarObject): (f: Form)
    ensures |f| == 1 && f[0].0 == "method"
    ensures |f[0].1| == |kind.Value()| + 4 && f[0].1[3..|f[0].1| - 1] == kind.Value()
  {
    [("method", "get" + kind.Value() + "s")]
  }

  /** `get_registrar_object(object_type, object_id)`: all objects sorted by ID, and,
      unless `object_id is None`, the first whose ID is `str(object_id)`, or
      ValidationError. */
  function GetRegistrarObject(kind: RegistrarObject, objectId: Arg, post: Form -> Reply): (r: Outcome<Lookup>)
    ensures var objects := PostRequest(LookupRequest(kind), Some("ID"), post);
      && (objects.Raise? ==> r == Raise(objects.exc))
      && (objects.Ok? && objectId.Nothing? ==> r == Ok(Whole(objects.value)))
      && (objects.Ok? && !objectId.Nothing? ==>
            && objects.value.JList?
            && (r.Ok? ==> (r.value.Single? &&
                  exists k :: FirstWithId(objects.value.items, PyStr(objectId), k) &&
                              r.value.item == objects.value.items[k]))
            && (r.Raise? <==> forall j :: 0 <= j < |objects.value.items| ==>
                                 objects.value.items[j]["ID"] != PyStr(objectId))
            && (r.Raise? ==> r.exc == ValidationError))
  {
    var objects :- PostRequest(LookupRequest(kind), Some("ID"), post);
    if objectId.Nothing? then Ok(Whole(objects))
    else
      var id := PyStr(objectId);
      var found := FindById(objects, id);
      FindInListTotal(objects.items, id);
      if found.Ok? && found.value.Some? then Ok(Single(found.value.value)) else Raise(ValidationError)
  }

  /** For an ID the lookup returns the first object with that ID in ID order,
      or raises ValidationError when no object has it. */
  lemma GetRegistrarObjectFinds(kind: RegistrarObject, objectId: Arg, post: Form -> Reply, items: seq<Entity>)
    requires post(LookupRequest(kind)) == Answered(Some(JList(items)))
    requires HasKey(items, "ID") && !objectId.Nothing?
    ensures var sorted := SortByKey(items, "ID");
      && (GetRegistrarObject(kind, objectId, post).Ok? <==>
            exists j :: 0 <= j < |items| && items[j]["ID"] == PyStr(objectId))
      && (GetRegistrarObject(kind, objectId, post).Ok? ==>
            exists k :: FirstWithId(sorted, PyStr(objectId), k) &&
                        GetRegistrarObject(kind, objectId, post) == Ok(Single(sorted[k])))
  {
    var sorted := SortByKey(items, "ID");
    var id := PyStr(objectId);
    IdLookupSorted(kind, post, items);
    SortKeepsValues(items, "ID", id);
    var r := GetRegistrarObject(kind, objectId, post);
    if r.Ok? {
      var k :| FirstWithId(sorted, id, k) && r.value.item == sorted[k];
      assert "ID" in sorted[k] && sorted[k]["ID"] == id;
    } else {
      assert forall j :: 0 <= j < |sorted| ==> sorted[j]["ID"] != id;
    }
  }

  /** The objects the lookup scans are the response sorted by ID. */
  lemma IdLookupSorted(kind: RegistrarObject, post: Form -> Reply, items: seq<Entity>)
    requires post(LookupRequest(kind)) == Answered(Some(JList(items)))
    requires HasKey(items, "ID")
    ensures PostRequest(LookupRequest(kind), Some("ID"), post) == Ok(JList(SortByKey(items, "ID")))
  {
  }

  /** Without an ID the lookup returns every object, sorted by ID. */
  lemma GetRegistrarObjectAll(kind: RegistrarObject, post: Form -> Reply, items: seq<Entity>)
    requires post(LookupRequest(kind)) == Answered(Some(JList(items)))
    requires HasKey(items, "ID")
    ensures GetRegistrarObject(kind, Nothing, post) == Ok(Whole(JList(SortByKey(items, "ID"))))
  {
  }

  /** The test is `object_id is None`, so the integer 0 is looked up as "0". */
  lemma ZeroIdIsLookedUp(kind: RegistrarObject, post: Form -> Reply)
    ensures GetRegistrarObject(kind, Int(0), post) == GetRegistrarObject(kind, Str("0"), post)
  {
    assert IntToStr(0) == "0";
  }

  /** The seven public getters `get_semester` … `get_breadth`: each looks up its
      own kind and returns the result, except `get_subject`, which drops it and
      always returns None (exceptions still propagate). */
  function Getter(kind: RegistrarObject, objectId: Arg, post: Form -> Reply): (r: Outcome<Option<Lookup>>)
    ensures var g := GetRegistrarObject(kind, objectId, post);
      && (g.Raise? <==> r.Raise?)
      && (r.Raise? ==> r.exc == g.exc)
      && (kind == Subject && r.Ok? ==> r.value.None?)
      && (kind != Subject && r.Ok? ==> r.value == Some(g.value))
  {
    var g :- GetRegistrarObject(kind, objectId, post);
    if kind == Subject then Ok(None) else Ok(Some(g))
  }

  // ---------------------------------------------------------------------
  // get_course_list

  /** The arguments of `get_course_list`, in declaration order. */
  datatype CourseQuery = CourseQuery(
    limit: Arg, offset: Arg, semesterId: Arg, schoolId: Arg, departmentId: Arg,
    levelId: Arg, subjectId: Arg, instructorId: Arg, breadthId: Arg, timeout: Arg)

  /** `list(locals().values())` at the top of `get_course_list`. */
  function Locals(q: CourseQuery): (ls: seq<Arg>)
    ensures |ls| == 10 && ls[0] == q.limit && ls[9] == q.timeout
  {
    [q.limit, q.offset, q.semesterId, q.schoolId, q.departmentId,
     q.levelId, q.subjectId, q.instructorId, q.breadthId, q.timeout]
  }

  /** A falsy argument replaced by a default string. */
  function Defaulted(a: Arg, d: string): Arg
  {
    if Truthy(a) then a else Str(d)
  }

  /** The wire text of an argument: ints by `str`, strings as they are,
      None as ''. A falsy int still becomes its digits. */
  function WireValue(a: Arg): string
  {
    match a
    case Nothing => ""
    case Int(i) => IntToStr(i)
    case Str(s) => s
  }

  /** The `[]` suffix a truthy filter puts on its field name. */
  function Suffix(a: Arg): string
  {
    if Truthy(a) then "[]" else ""
  }

  /** The search form, field by field, as the registrar expects it: `limit` as
      text, `page` defaulting to "1" and `semester` to "-1" when falsy, each of
      the six optional filters under a `[]`-suffixed name when it is truthy,
      and eight constant fields. */
  function SearchPayload(q: CourseQuery): (f: Form)
    ensures |f| == 17 && f[0] == ("method", "getSearchData")
    ensures forall i :: 1 <= i < |f| ==> |f[i].0| > 13 && f[i].0[..13] == "searchParams["
  {
    [("method", "getSearchData"),
     ("searchParams[formSimple]", "false"),
     ("searchParams[limit]", WireValue(q.limit)),
     ("searchParams[page]", WireValue(Defaulted(q.offset, "1"))),
     ("searchParams[start]", "0"),
     ("searchParams[quickSearch]", ""),
     ("searchParams[sortField]", "-1"),
     ("searchParams[sortDescending]", "-1"),
     ("searchParams[semester]", WireValue(Defaulted(q.semesterId, "-1"))),
     ("searchParams[schools]" + Suffix(q.schoolId), WireValue(q.schoolId)),
     ("searchParams[departments]" + Suffix(q.departmentId), WireValue(q.departmentId)),
     ("searchParams[levels]" + Suffix(q.levelId), WireValue(q.levelId)),
     ("searchParams[subjects]" + Suffix(q.subjectId), WireValue(q.subjectId)),
     ("searchParams[instructors]" + Suffix(q.instructorId), WireValue(q.instructorId)),
     ("searchParams[breadths]" + Suffix(q.breadthId), WireValue(q.breadthId)),
     ("searchParams[abbrNum]", ""),
     ("searchParams[credit]", "")]
  }

  /** The `request_data` literal over the rewritten `args` and `brackets`. */
  function RequestData(args: seq<string>, brackets: seq<string>): (f: Form)
    requires |args| == 10 && |brackets| == 10
    ensures |f| == 17 && f[0] == ("method", "getSearchData")
    ensures f[2].1 == args[0] && f[3].1 == args[1] && f[8].1 == args[2]
    ensures forall i :: 3 <= i < 9 ==> f[i + 6].1 == args[i]
  {
    [("method", "getSearchData"),
     ("searchParams[formSimple]", "false"),
     ("searchParams[limit]", args[0]),
     ("searchParams[page]", args[1]),
     ("searchParams[start]", "0"),
     ("searchParams[quickSearch]", ""),
     ("searchParams[sortField]", "-1"),
     ("searchParams[sortDescending]", "-1"),
     ("searchParams[semester]", args[2]),
     ("searchParams[schools]" + brackets[3], args[3]),
     ("searchParams[departments]" + brackets[4], args[4]),
     ("searchParams[levels]" + brackets[5], args[5]),
     ("searchParams[subjects]" + brackets[6], args[6]),
     ("searchParams[instructors]" + brackets[7], args[7]),
     ("searchParams[breadths]" + brackets[8], args[8]),
     ("searchParams[abbrNum]", ""),
     ("searchParams[credit]", "")]
  }

  /** The arguments after the `page` and `semester` defaults are applied. */
  function Prepared(q: CourseQuery): (ps: seq<Arg>)
    ensures |ps| == 10
  {
    [q.limit, Defaulted(q.offset, "1"), Defaulted(q.semesterId, "-1"), q.schoolId, q.departmentId,
     q.levelId, q.subjectId, q.instructorId, q.breadthId, q.timeout]
  }

  /** Filling the literal with the texts and suffixes of the prepared
      arguments gives the search form. */
  lemma RequestDataIsSearchPayload(q: CourseQuery, args: seq<string>, brackets: seq<string>)
    requires |args| == 10 && |brackets| == 10
    requires forall i :: 0 <= i < 10 ==> args[i] == WireValue(Prepared(q)[i]) && brackets[i] == Suffix(Prepared(q)[i])
    ensures RequestData(args, brackets) == SearchPayload(q)
  {
    var ps := Prepared(q);
    assert args[0] == WireValue(q.limit) && args[1] == WireValue(ps[1]) && args[2] == WireValue(ps[2]);
    assert args[3] == WireValue(q.schoolId) && brackets[3] == Suffix(q.schoolId);
    assert args[4] == WireValue(q.departmentId) && brackets[4] == Suffix(q.departmentId);
    assert args[5] == WireValue(q.levelId) && brackets[5] == Suffix(q.levelId);
    assert args[6] == WireValue(q.subjectId) && brackets[6] == Suffix(q.subjectId);
    assert args[7] == WireValue(q.instructorId) && brackets[7] == Suffix(q.instructorId);
    assert args[8] == WireValue(q.breadthId) && brackets[8] == Suffix(q.breadthId);
  }

  /** The `for index, arg in enumerate(args)` loop: a truthy argument gets the
      `[]` suffix, a falsy one becomes '' and an int (falsy or not) its digits. */
  method MarkArgs(args: array<Arg>, brackets: array<string>)
    requires args.Length == brackets.Length
    requires forall i :: 0 <= i < brackets.Length ==> brackets[i] == ""
    modifies args, brackets
    ensures forall i :: 0 <= i < args.Length ==>
      args[i] == Str(WireValue(old(args[i]))) && brackets[i] == Suffix(old(args[i]))
  {
    for index := 0 to args.Length
      invariant forall i :: 0 <= i < index ==>
        args[i] == Str(WireValue(old(args[i]))) && brackets[i] == Suffix(old(args[i]))
      invariant forall i :: index <= i < args.Length ==> args[i] == old(args[i]) && brackets[i] == ""
    {
      var arg := args[index];
      if Truthy(arg) {
        brackets[index] := "[]";
      }
      if !Truthy(arg) {
        args[index] := Str("");
      }
      if arg.Int? {
        args[index] := Str(IntToStr(arg.i));
      }
    }
  }

  /** `get_course_list(...)`: the `args`/`brackets` lists are rewritten in place,
      the form is built from them and posted, and the answer is returned unsorted. */
  method GetCourseList(q: CourseQuery, post: Form -> Reply) returns (payload: Form, r: Outcome<Json>)
    ensures payload == SearchPayload(q)
    ensures r == PostRequest(payload, None, post)
  {
    var locals := Locals(q);
    var args := new Arg[10](i requires 0 <= i < 10 => locals[i]);
    var brackets := new string[10](_ => "");

    if !Truthy(args[1]) {
      args[1] := Str("1");
    }
    if !Truthy(args[2]) {
      args[2] := Str("-1");
    }
    assert args[..] == Prepared(q);
    MarkArgs(args, brackets);

    var text := seq(10, i requires 0 <= i < 10 reads args => WireValue(args[i]));
    RequestDataIsSearchPayload(q, text, brackets[..]);
    payload := RequestData(text, brackets[..]);
    r := PostRequest(payload, None, post);
  }

  /** Characters 13, 14 and 17 of a field name: they tell the names after
      "method" apart, whatever suffix a name carries. */
  function Tag(key: string): (char, char, char)
  {
    if |key| >= 18 then (key[13], key[14], key[17]) else ('m', 'm', 'm')
  }

  function PayloadTags(q: CourseQuery): seq<(char, char, char)>
  {
    var p := SearchPayload(q);
    [Tag(p[0].0), Tag(p[1].0), Tag(p[2].0), Tag(p[3].0), Tag(p[4].0), Tag(p[5].0),
     Tag(p[6].0), Tag(p[7].0), Tag(p[8].0), Tag(p[9].0), Tag(p[10].0), Tag(p[11].0),
     Tag(p[12].0), Tag(p[13].0), Tag(p[14].0), Tag(p[15].0), Tag(p[16].0)]
  }

  lemma PayloadTagsValue(q: CourseQuery)
    ensures PayloadTags(q) == [
        ('m', 'm', 'm'), ('f', 'o', 'S'), ('l', 'i', 't'), ('p', 'a', ']'), ('s', 't', 't'),
        ('q', 'u', 'k'), ('s', 'o', 'F'), ('s', 'o', 'D'), ('s', 'e', 's'), ('s', 'c', 'o'),
        ('d', 'e', 'r'), ('l', 'e', 'l'), ('s', 'u', 'e'), ('i', 'n', 'r'), ('b', 'r', 'd'),
        ('a', 'b', 'N'), ('c', 'r', 'i')]
  {
  }

  lemma TagsDistinct(tags: seq<(char, char, char)>)
    requires tags == [
        ('m', 'm', 'm'), ('f', 'o', 'S'), ('l', 'i', 't'), ('p', 'a', ']'), ('s', 't', 't'),
        ('q', 'u', 'k'), ('s', 'o', 'F'), ('s', 'o', 'D'), ('s', 'e', 's'), ('s', 'c', 'o'),
        ('d', 'e', 'r'), ('l', 'e', 'l'), ('s', 'u', 'e'), ('i', 'n', 'r'), ('b', 'r', 'd'),
        ('a', 'b', 'N'), ('c', 'r', 'i')]
    ensures forall i, j :: 0 <= i < j < 17 ==> tags[i] != tags[j]
  {
  }

  /** The payload is a dict of exactly 17 distinct fields. */
  lemma PayloadHasSeventeenFields(q: CourseQuery)
    ensures |SearchPayload(q)| == 17
    ensures forall i, j :: 0 <= i < j < 17 ==> SearchPayload(q)[i].0 != SearchPayload(q)[j].0
  {
    var p := SearchPayload(q);
    var tags := PayloadTags(q);
    PayloadTagsValue(q);
    TagsDistinct(tags);
    forall i, j | 0 <= i < j < 17 ensures p[i].0 != p[j].0 {
      assert tags[i] == Tag(p[i].0) && tags[j] == Tag(p[j].0);
    }
  }

  /** The eight constant fields are always sent with their fixed values. */
  lemma PayloadConstants(q: CourseQuery)
    ensures var p := SearchPayload(q);
      && p[0] == ("method", "getSearchData")
      && p[1] == ("searchParams[formSimple]", "false")
      && p[4] == ("searchParams[start]", "0")
      && p[5] == ("searchParams[quickSearch]", "")
      && p[6] == ("searchParams[sortField]", "-1")
      && p[7] == ("searchParams[sortDescending]", "-1")
      && p[15] == ("searchParams[abbrNum]", "")
      && p[16] == ("searchParams[credit]", "")
  {
  }

  /** How one optional filter is sent: a truthy ID (non-empty string, nonzero
      int) under the `[]` name with its text; a falsy one under the plain name,
      with '' for None and '', and with the digits for the int 0. */
  predicate FilterFieldRule(field: (string, string), name: string, f: Arg)
  {
    && (Truthy(f) ==> field == (name + "[]", PyStr(f)))
    && (!Truthy(f) ==> field.0 == name)
    && (f.Nothing? || f == Str("") ==> field.1 == "")
    && (f == Int(0) ==> field.1 == "0")
  }

  lemma OptionalFilterFields(q: CourseQuery)
    ensures var p := SearchPayload(q);
      && FilterFieldRule(p[9], "searchParams[schools]", q.schoolId)
      && FilterFieldRule(p[10], "searchParams[departments]", q.departmentId)
      && FilterFieldRule(p[11], "searchParams[levels]", q.levelId)
      && FilterFieldRule(p[12], "searchParams[subjects]", q.subjectId)
      && FilterFieldRule(p[13], "searchParams[instructors]", q.instructorId)
      && FilterFieldRule(p[14], "searchParams[breadths]", q.breadthId)
  {
    assert IntToStr(0) == "0";
  }

  /** With only `limit` given: page "1", semester "-1", every optional field
      unbracketed and empty, and `limit` as its text. */
  lemma OnlyLimit(limit: int)
    ensures SearchPayload(CourseQuery(Int(limit), Nothing, Nothing, Nothing, Nothing, Nothing, Nothing, Nothing, Nothing, Nothing)) ==
      [("method", "getSearchData"),
       ("searchParams[formSimple]", "false"),
       ("searchParams[limit]", IntToStr(limit)),
       ("searchParams[page]", "1"),
       ("searchParams[start]", "0"),
       ("searchParams[quickSearch]", ""),
       ("searchParams[sortField]", "-1"),
       ("searchParams[sortDescending]", "-1"),
       ("searchParams[semester]", "-1"),
       ("searchParams[schools]", ""),
       ("searchParams[departments]", ""),
       ("searchParams[levels]", ""),
       ("searchParams[subjects]", ""),
       ("searchParams[instructors]", ""),
       ("searchParams[breadths]", ""),
       ("searchParams[abbrNum]", ""),
       ("searchParams[credit]", "")]
  {
    assert forall name: string :: name + Suffix(Nothing) == name;
  }

  /** The falsy-zero quirk: offset 0 is sent as page "1", semester 0 as "-1". */
  lemma ZeroOffsetAndSemester(q: CourseQuery)
    requires q.offset == Int(0) && q.semesterId == Int(0)
    ensures SearchPayload(q)[3] == ("searchParams[page]", "1")
    ensures SearchPayload(q)[8] == ("searchParams[semester]", "-1")
  {
  }

  /** A truthy offset or semester is sent as its text. */
  lemma TruthyOffsetAndSemester(q: CourseQuery)
    requires Truthy(q.offset) && Truthy(q.semesterId)
    ensures SearchPayload(q)[3] == ("searchParams[page]", PyStr(q.offset))
    ensures SearchPayload(q)[8] == ("searchParams[semester]", PyStr(q.semesterId))
  {
  }

  /** `timeout` goes nowhere in the form. */
  lemma TimeoutNotSent(q: CourseQuery, t: Arg)
    ensures SearchPayload(q.(timeout := t)) == SearchPayload(q)
  {
  }
}
