/** Python values and conventions that the registrar client relies on:
    truthiness of optional arguments, `str()` of an integer, exceptions as
    values, the JSON shapes the registrar answers with, and the generator
    lookup `next(obj for obj in data if obj['ID'] == id)`. */
module PyValues {

  datatype Option<+T> = None | Some(value: T)

  /** An optional argument as callers pass it: `None`, an `int` or a `str`. */
  datatype Arg = Nothing | Int(i: int) | Str(s: string)

  /** Python truthiness: `None`, `0` and `''` are falsy, everything else is truthy. */
  predicate Truthy(a: Arg)
    ensures Truthy(a) <==> a != Nothing && a != Int(0) && a != Str("")
  {
    match a
    case Nothing => false
    case Int(i) => i != 0
    case Str(s) => s != ""
  }

  /** The exceptions the modelled code raises or lets through. */
  datatype Exc =
    | APIError          // nuregi.exceptions.APIError
    | ValidationError   // nuregi.exceptions.ValidationError / scraper ValidationError
    | TypeError
    | KeyError
    | ValueError        // includes str.index misses and invalid JSON bodies
    | UnicodeDecodeError
    | RequestError      // any requests.exceptions.RequestException (timeout, HTTP status, connection)
    | ExtractorError    // any other failure of the PDF table extractor

  /** A call either returns a value or raises. */
  datatype Outcome<+T> = Ok(value: T) | Raise(exc: Exc)
  {
    predicate IsFailure() { Raise? }
    function PropagateFailure<U>(): Outcome<U>
      requires Raise?
    {
      Raise(exc)
    }
    function Extract(): T
      requires Ok?
    {
      value
    }
  }

  // ---------------------------------------------------------------------
  // str(int)

  function DigitChar(d: int): (c: char)
    requires 0 <= d < 10
    ensures '0' <= c <= '9' && c as int - '0' as int == d
  {
    "0123456789"[d]
  }

  function NatToStr(n: nat): (s: string)
    ensures |s| > 0
    ensures forall k :: 0 <= k < |s| ==> '0' <= s[k] <= '9'
    decreases n
  {
    if n < 10 then [DigitChar(n)] else NatToStr(n / 10) + [DigitChar(n % 10)]
  }

  /** `str(i)` for a Python int: decimal digits, with a leading '-' when negative. */
  function IntToStr(i: int): (s: string)
    ensures |s| > 0
    ensures s[0] == '-' <==> i < 0
    ensures forall k :: 1 <= k < |s| ==> '0' <= s[k] <= '9'
  {
    if i < 0 then "-" + NatToStr(-i) else NatToStr(i)
  }

  /** The value of a string of decimal digits, read left to right. */
  function DigitsValue(s: string): int
  {
    if s == [] then 0 else DigitsValue(s[..|s| - 1]) * 10 + (s[|s| - 1] as int - '0' as int)
  }

  /** Reading back the digits `str` writes gives the number again. */
  lemma {:induction false} NatToStrRoundTrip(n: nat)
    ensures DigitsValue(NatToStr(n)) == n
  {
    if n >= 10 {
      NatToStrRoundTrip(n / 10);
      var s := NatToStr(n / 10) + [DigitChar(n % 10)];
      assert s[..|s| - 1] == NatToStr(n / 10);
    }
  }

  /** `int(s)` for the text `str` produces: an optional '-' and decimal digits. */
  function StrToInt(s: string): int
  {
    if |s| > 0 && s[0] == '-' then -DigitsValue(s[1..]) else DigitsValue(s)
  }

  /** `int(str(i)) == i`: the text of an int determines it. */
  lemma IntToStrRoundTrip(i: int)
    ensures StrToInt(IntToStr(i)) == i
  {
    if i < 0 {
      var a := NatToStr(-i);
      assert ("-" + a)[1..] == a;
      NatToStrRoundTrip(-i);
    } else {
      var a := NatToStr(i);
      assert a[0] != '-';
      NatToStrRoundTrip(i);
    }
  }

  /** Hence `str` of an int is injective, so comparing IDs after `str()` loses nothing. */
  lemma IntToStrInjective(i: int, j: int)
    requires IntToStr(i) == IntToStr(j)
    ensures i == j
  {
    IntToStrRoundTrip(i);
    IntToStrRoundTrip(j);
  }

  /** `str(arg)` as applied to a lookup ID that is known not to be None. */
  function PyStr(a: Arg): (s: string)
    ensures a.Str? ==> s == a.s
    ensures a.Int? ==> s == IntToStr(a.i)
  {
    match a
    case Nothing => "None"
    case Int(i) => IntToStr(i)
    case Str(s) => s
  }

  /** `if isinstance(code, int): code = str(code)`. */
  function StringifyInt(a: Arg): (r: Arg)
    ensures !r.Int?
    ensures a.Int? ==> r == Str(IntToStr(a.i)) && Truthy(r)
    ensures !a.Int? ==> r == a
  {
    if a.Int? then Str(IntToStr(a.i)) else a
  }

  // ---------------------------------------------------------------------
  // ASCII lower-casing, for `item_type.lower() == 'semester'`

  function LowerChar(c: char): char
  {
    if 'A' <= c <= 'Z' then (c as int + 32) as char else c
  }

  function Lower(s: string): (r: string)
    ensures |r| == |s|
    ensures forall k :: 0 <= k < |s| ==> r[k] == LowerChar(s[k])
  {
    if s == [] then [] else [LowerChar(s[0])] + Lower(s[1..])
  }

  // ---------------------------------------------------------------------
  // The registrar's JSON answers

  /** A registrar object such as a semester: a JSON object with string fields. */
  type Entity = map<string, string>

  /** A JSON response: an array of objects, or a single object (an error envelope,
      or anything else the server sends as an object). */
  datatype Json = JList(items: seq<Entity>) | JDict(fields: map<string, string>)

  /** Python truthiness of a parsed JSON value: an empty list or dict is falsy. */
  predicate JsonTruthy(j: Json)
  {
    match j
    case JList(items) => |items| > 0
    case JDict(fields) => |fields| > 0
  }

  /** `data.get("status") == "error"` on a dict. */
  predicate IsErrorEnvelope(j: Json)
  {
    j.JDict? && "status" in j.fields && j.fields["status"] == "error"
  }

  /** What a lookup returns: the whole list, or one object of it. */
  datatype Lookup = Whole(data: Json) | Single(item: Entity)

  /** What a POST to the catalog endpoint comes back with. */
  datatype Reply =
    | TimedOut                      // requests.exceptions.Timeout
    | RequestFailed                 // any other RequestException, HTTP status errors included
    | Answered(body: Option<Json>)  // None: the body is not valid JSON

  /** A form body as posted: field names and values, in order. */
  type Form = seq<(string, string)>

  /** `data[index]` for a JSON value already known to be non-empty: a list is indexed
      (negative from the end); a dict has only string keys, so an int raises KeyError. */
  function Subscript(j: Json, index: int): (r: Outcome<Entity>)
    requires JsonTruthy(j)
    requires j.JList? ==> -|j.items| <= index < |j.items|
    ensures j.JDict? ==> r == Raise(KeyError)
    ensures j.JList? && index >= 0 ==> r == Ok(j.items[index])
    ensures j.JList? && index < 0 ==> r == Ok(j.items[|j.items| + index])
  {
    match j
    case JList(items) => Ok(if index >= 0 then items[index] else items[|items| + index])
    case JDict(_) => Raise(KeyError)
  }

  /** `items` has an object with ID `id` before any object without an ID. */
  ghost predicate FirstWithId(items: seq<Entity>, id: string, k: int)
  {
    0 <= k < |items| && "ID" in items[k] && items[k]["ID"] == id &&
    forall j :: 0 <= j < k ==> "ID" in items[j] && items[j]["ID"] != id
  }

  /** The generator scan over a list's objects: `obj['ID']` raises KeyError on an
      object that has no ID; the first match is returned; the end gives None. */
  function FindInList(items: seq<Entity>, id: string): (r: Outcome<Option<Entity>>)
    ensures r.Ok? && r.value.Some? ==> exists k :: FirstWithId(items, id, k) && r.value.value == items[k]
    ensures r.Ok? && r.value.None? ==> forall j :: 0 <= j < |items| ==> "ID" in items[j] && items[j]["ID"] != id
    ensures r.Raise? ==> (r.exc == KeyError &&
      exists k :: 0 <= k < |items| && "ID" !in items[k] &&
        forall j :: 0 <= j < k ==> "ID" in items[j] && items[j]["ID"] != id)
  {
    if items == [] then Ok(None)
    else if "ID" !in items[0] then Raise(KeyError)
    else if items[0]["ID"] == id then (assert FirstWithId(items, id, 0); Ok(Some(items[0])))
    else
      var rest := FindInList(items[1..], id);
      assert forall k :: FirstWithId(items[1..], id, k) ==> FirstWithId(items, id, k + 1);
      assert forall j :: 0 <= j < |items[1..]| ==> items[1..][j] == items[j + 1];
      rest
  }

  /** `next((obj for obj in data if obj['ID'] == id), None)`. Iterating a dict yields
      its (string) keys, and a string indexed by 'ID' raises TypeError. */
  function FindById(data: Json, id: string): (r: Outcome<Option<Entity>>)
    ensures data.JList? ==> r == FindInList(data.items, id)
    ensures data.JDict? ==> r == if |data.fields| == 0 then Ok(None) else Raise(TypeError)
  {
    match data
    case JList(items) => FindInList(items, id)
    case JDict(fields) => if |fields| == 0 then Ok(None) else Raise(TypeError)
  }

  /** When every object has an ID the scan never raises, and it finds exactly the
      IDs that occur. */
  lemma FindInListTotal(items: seq<Entity>, id: string)
    requires forall j :: 0 <= j < |items| ==> "ID" in items[j]
    ensures FindInList(items, id).Ok?
    ensures FindInList(items, id).value.Some? <==> exists j :: 0 <= j < |items| && items[j]["ID"] == id
  {
  }
}
