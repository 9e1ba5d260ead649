/** public_course_catalog/helpers.py: the catalog client that logs and returns
    None instead of raising. The POST is a function passed in (`post`). */
module CatalogHelpers {
  import opened PyValues
  import opened Sorting

  /** `get_data(request_data, sort_key)`. A failed request, an unparseable body
      and an error envelope give None. With a truthy `sort_key` the data is
      sorted, but a missing key leaves it as it was; only the TypeError of
      sorting a non-empty dict escapes. */
  function GetData(request: Form, sortKey: Option<string>, post: Form -> Reply): (r: Outcome<Option<Json>>)
    ensures !(post(request).Answered? && post(request).body.Some?) ==> r == Ok(None)
    ensures post(request).Answered? && post(request).body.Some? ==>
      var data := post(request).body.value;
      && (IsErrorEnvelope(data) ==> r == Ok(None))
      && (!IsErrorEnvelope(data) && (sortKey.None? || sortKey.value == "") ==> r == Ok(Some(data)))
      && (!IsErrorEnvelope(data) && sortKey.Some? && sortKey.value != "" ==>
            && (data.JList? && HasKey(data.items, sortKey.value) ==>
                  r == Ok(Some(JList(SortByKey(data.items, sortKey.value)))))
            && (data.JList? && !HasKey(data.items, sortKey.value) ==> r == Ok(Some(data)))
            && (data.JDict? ==> r == if |data.fields| == 0 then Ok(Some(JList([]))) else Raise(TypeError)))
    ensures r.Ok? && r.value.Some? ==> !IsErrorEnvelope(r.value.value)
  {
    match post(request)
    case TimedOut => Ok(None)
    case RequestFailed => Ok(None)
    case Answered(body) =>
      if body.None? || IsErrorEnvelope(body.value) then Ok(None)
      else if sortKey.None? || sortKey.value == "" then Ok(Some(body.value))
      else
        match SortJson(body.value, sortKey.value)
        case Ok(sorted) => Ok(Some(sorted))
        case Raise(e) => if e == KeyError then Ok(Some(body.value)) else Raise(e)
  }

  /** When every object has the key, the result is ordered by it and is a stable
      rearrangement of the response. */
  lemma GetDataSorted(request: Form, k: string, post: Form -> Reply, items: seq<Entity>)
    requires post(request) == Answered(Some(JList(items))) && k != "" && HasKey(items, k)
    ensures GetData(request, Some(k), post).Ok? && GetData(request, Some(k), post).value.Some?
    ensures var res := GetData(request, Some(k), post).value.value;
      && res.JList? && HasKey(res.items, k) && SortedBy(res.items, k)
      && multiset(res.items) == multiset(items)
      && forall v :: WithKey(res.items, k, v) == WithKey(items, k, v)
  {
    SortByKeyCorrect(items, k);
  }

  /** `{'method': f'get{item_type}s'}`. */
  function ItemRequest(itemType: string): (f: Form)
    ensures |f| == 1 && f[0].0 == "method"
    ensures |f[0].1| == |itemType| + 4 && f[0].1[3..|f[0].1| - 1] == itemType
  {
    [("method", "get" + itemType + "s")]
  }

  /** `item_type.lower() == 'semester'`. */
  predicate IsSemesterType(itemType: string)
    ensures IsSemesterType(itemType) <==>
      |itemType| == 8 && forall k :: 0 <= k < 8 ==> LowerChar(itemType[k]) == "semester"[k]
  {
    Lower(itemType) == "semester"
  }

  /** `get_item(item_type, item_code)` on the ID-sorted items: None when there
      are none; the whole list for 'all'; for a falsy code (after `str` of an
      int) the last item of a semester list and the first of any other; else
      the first item with that ID, or None. */
  function GetItem(itemType: string, itemCode: Arg, post: Form -> Reply): (r: Outcome<Option<Lookup>>)
    ensures var d := GetData(ItemRequest(itemType), Some("ID"), post);
      && (d.Raise? ==> r == Raise(d.exc))
      && (d.Ok? && (d.value.None? || !JsonTruthy(d.value.value)) ==> r == Ok(None))
      && (d.Ok? && d.value.Some? && JsonTruthy(d.value.value) ==>
            var items := d.value.value;
            var code := StringifyInt(itemCode);
            && (itemCode == Str("all") ==> r == Ok(Some(Whole(items))))
            && (itemCode != Str("all") && !Truthy(code) && items.JList? ==>
                  r == Ok(Some(Single(if IsSemesterType(itemType) then items.items[|items.items| - 1]
                                      else items.items[0]))))
            && (itemCode != Str("all") && !Truthy(code) && items.JDict? ==> r == Raise(KeyError))
            && (itemCode != Str("all") && Truthy(code) ==>
                  (match FindById(items, code.s)
                   case Ok(found) => r == Ok(if found.Some? then Some(Single(found.value)) else None)
                   case Raise(e) => r == Raise(e))))
  {
    var fetched :- GetData(ItemRequest(itemType), Some("ID"), post);
    if fetched.None? || !JsonTruthy(fetched.value) then Ok(None)
    else
      var items := fetched.value;
      if itemCode == Str("all") then Ok(Some(Whole(items)))
      else
        var code := StringifyInt(itemCode);
        if !Truthy(code) then
          var item :- Subscript(items, if IsSemesterType(itemType) then -1 else 0);
          Ok(Some(Single(item)))
        else
          var found :- FindById(items, code.s);
          if found.Some? then Ok(Some(Single(found.value))) else Ok(None)
  }

  /** On a response in which every object has an ID, `get_item` never raises, and
      a truthy code yields the first object with that ID in ID order, or None
      exactly when no object has it. */
  lemma GetItemByCode(itemType: string, itemCode: Arg, post: Form -> Reply, items: seq<Entity>)
    requires post(ItemRequest(itemType)) == Answered(Some(JList(items)))
    requires HasKey(items, "ID") && |items| > 0
    requires itemCode != Str("all") && Truthy(StringifyInt(itemCode))
    ensures var r := GetItem(itemType, itemCode, post);
      var sorted := SortByKey(items, "ID");
      var id := PyStr(itemCode);
      && r.Ok?
      && (r.value.None? <==> forall j :: 0 <= j < |items| ==> items[j]["ID"] != id)
      && (r.value.Some? ==> exists k :: FirstWithId(sorted, id, k) && r.value.value == Single(sorted[k]))
  {
    var sorted := SortByKey(items, "ID");
    SortByKeyCorrect(items, "ID");
    assert GetData(ItemRequest(itemType), Some("ID"), post) == Ok(Some(JList(sorted)));
    SortKeepsValues(items, "ID", PyStr(itemCode));
  }

  /** A falsy code picks the last of the sorted semesters and the first item of
      any other type; `Semester` in any letter case counts as the semester type. */
  lemma GetItemDefault(itemType: string, itemCode: Arg, post: Form -> Reply, items: seq<Entity>)
    requires post(ItemRequest(itemType)) == Answered(Some(JList(items)))
    requires HasKey(items, "ID") && |items| > 0
    requires !Truthy(StringifyInt(itemCode))
    ensures var sorted := SortByKey(items, "ID");
      GetItem(itemType, itemCode, post) ==
        Ok(Some(Single(if IsSemesterType(itemType) then sorted[|sorted| - 1] else sorted[0])))
  {
    SortByKeyCorrect(items, "ID");
  }

  /** The integer 0 is stringified before the falsiness test, so it is looked
      up as "0" rather than taken as "no code". */
  lemma ZeroCodeIsLookedUp(itemType: string, post: Form -> Reply)
    ensures GetItem(itemType, Int(0), post) == GetItem(itemType, Str("0"), post)
  {
    assert IntToStr(0) == "0";
  }

  /** An object without an ID makes the sort fall back to the response order,
      and the scan then raises KeyError on it: `get_item` is not free of
      exceptions. */
  lemma GetItemCanRaise(post: Form -> Reply)
    requires post(ItemRequest("semester")) == Answered(Some(JList([map[], map["ID" := "1"]])))
    ensures GetItem("semester", Str("1"), post) == Raise(KeyError)
  {
    var items: seq<Entity> := [map[], map["ID" := "1"]];
    assert items[0] == map[] && "ID" !in items[0];
  }
}
