/** public_course_catalog/__init__.py: the list of semesters and one semester
    out of it, with failures turned into None. The POST is passed in (`post`). */
module Catalog {
  import opened PyValues

  /** `{'method': 'getSemesters'}`. */
  const SemestersRequest: Form := [("method", "getSemesters")]

  /** `get_semesters()`: the parsed body as it came, unsorted and unchecked, or
      None when the request failed or the body does not parse. */
  function GetSemesters(post: Form -> Reply): (r: Option<Json>)
    ensures r.Some? <==> post(SemestersRequest).Answered? && post(SemestersRequest).body.Some?
    ensures r.Some? ==> r.value == post(SemestersRequest).body.value
  {
    match post(SemestersRequest)
    case Answered(body) => body
    case _ => None
  }

  /** `get_semester(semester_code)`: None when there are no semesters; for a
      falsy code (after `str` of an int) the first entry as the server sent it;
      otherwise the first entry with that ID, or None. */
  function GetSemester(semesterCode: Arg, post: Form -> Reply): (r: Outcome<Option<Entity>>)
    ensures var list := GetSemesters(post);
      var code := StringifyInt(semesterCode);
      && (list.None? || !JsonTruthy(list.value) ==> r == Ok(None))
      && (list.Some? && JsonTruthy(list.value) ==>
            && (!Truthy(code) && list.value.JList? ==> r == Ok(Some(list.value.items[0])))
            && (!Truthy(code) && list.value.JDict? ==> r == Raise(KeyError))
            && (Truthy(code) ==> r == FindById(list.value, code.s)))
  {
    var list := GetSemesters(post);
    if list.None? || !JsonTruthy(list.value) then Ok(None)
    else
      var code := StringifyInt(semesterCode);
      if !Truthy(code) then
        var first :- Subscript(list.value, 0);
        Ok(Some(first))
      else FindById(list.value, code.s)
  }

  /** On a list in which every semester has an ID, a truthy code finds the first
      semester with that ID in the server's order, or None exactly when there is
      none; nothing is raised. */
  lemma GetSemesterByCode(semesterCode: Arg, post: Form -> Reply, items: seq<Entity>)
    requires post(SemestersRequest) == Answered(Some(JList(items)))
    requires |items| > 0 && forall j :: 0 <= j < |items| ==> "ID" in items[j]
    requires Truthy(StringifyInt(semesterCode))
    ensures var r := GetSemester(semesterCode, post);
      var id := PyStr(semesterCode);
      && r.Ok?
      && (r.value.None? <==> forall j :: 0 <= j < |items| ==> items[j]["ID"] != id)
      && (r.value.Some? ==> exists k :: FirstWithId(items, id, k) && r.value.value == items[k])
  {
    FindInListTotal(items, PyStr(semesterCode));
  }

  /** A falsy code returns the first semester the server listed, not the last
      after sorting as the helpers module does. */
  lemma GetSemesterDefault(semesterCode: Arg, post: Form -> Reply, items: seq<Entity>)
    requires post(SemestersRequest) == Answered(Some(JList(items)))
    requires |items| > 0 && !Truthy(StringifyInt(semesterCode))
    ensures GetSemester(semesterCode, post) == Ok(Some(items[0]))
  {
  }

  /** A non-empty dict answer, such as an error envelope, is not caught: a falsy
      code fails at `semesters_list[0]` with KeyError, and a truthy one fails in
      the scan, which iterates the dict's keys, with TypeError. */
  lemma GetSemesterOnDict(semesterCode: Arg, post: Form -> Reply, fields: map<string, string>)
    requires post(SemestersRequest) == Answered(Some(JDict(fields))) && fields != map[]
    ensures !Truthy(StringifyInt(semesterCode)) ==> GetSemester(semesterCode, post) == Raise(KeyError)
    ensures Truthy(StringifyInt(semesterCode)) ==> GetSemester(semesterCode, post) == Raise(TypeError)
  {
  }

  /** An entry without an ID before any match makes the scan raise KeyError:
      `[{}, {"ID": "1"}]` with code "1". */
  lemma GetSemesterCanRaise(post: Form -> Reply)
    requires post(SemestersRequest) == Answered(Some(JList([map[], map["ID" := "1"]])))
    ensures GetSemester(Str("1"), post) == Raise(KeyError)
  {
    var items: seq<Entity> := [map[], map["ID" := "1"]];
    assert items[0] == map[] && "ID" !in items[0];
  }

  /** The integer 0 is looked up as "0". */
  lemma ZeroSemesterCodeIsLookedUp(post: Form -> Reply)
    ensures GetSemester(Int(0), post) == GetSemester(Str("0"), post)
  {
    assert IntToStr(0) == "0";
  }
}
