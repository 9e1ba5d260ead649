/** `sorted(objects, key=lambda x: x[k])` on string-valued keys.

    Python's `sorted` is stable and compares `str` keys lexicographically by
    code point. The model sorts by insertion, and the lemmas below show that the
    result is ordered by key, is a permutation of the input, keeps the input
    order among objects with equal keys, and is the only list with those
    properties, so it is the list Python's `sorted` returns. */
module Sorting {
  import opened PyValues

  /** Python's `a <= b` on `str`. */
  predicate StrLe(a: string, b: string)
  {
    a == [] || (b != [] && (a[0] < b[0] || (a[0] == b[0] && StrLe(a[1..], b[1..]))))
  }

  lemma StrLeReflexive(a: string)
    ensures StrLe(a, a)
  {
  }

  lemma {:induction false} StrLeTotal(a: string, b: string)
    ensures StrLe(a, b) || StrLe(b, a)
  {
    if a != [] && b != [] && a[0] == b[0] {
      StrLeTotal(a[1..], b[1..]);
    }
  }

  lemma {:induction false} StrLeTransitive(a: string, b: string, c: string)
    requires StrLe(a, b) && StrLe(b, c)
    ensures StrLe(a, c)
  {
    if a != [] && b != [] && c != [] && a[0] == b[0] == c[0] {
      StrLeTransitive(a[1..], b[1..], c[1..]);
    }
  }

  lemma {:induction false} StrLeAntisymmetric(a: string, b: string)
    requires StrLe(a, b) && StrLe(b, a)
    ensures a == b
  {
    if a != [] && b != [] {
      StrLeAntisymmetric(a[1..], b[1..]);
      assert a == [a[0]] + a[1..] && b == [b[0]] + b[1..];
    }
  }

  /** Every object has the sort key, so `x[k]` raises no KeyError. */
  predicate HasKey(items: seq<Entity>, k: string)
  {
    forall j :: 0 <= j < |items| ==> k in items[j]
  }

  ghost predicate SortedBy(items: seq<Entity>, k: string)
    requires HasKey(items, k)
  {
    forall i, j :: 0 <= i < j < |items| ==> StrLe(items[i][k], items[j][k])
  }

  /** The objects whose key is `v`, in their order. Two lists agree on every
      `WithKey` exactly when one is a stable rearrangement of the other. */
  function WithKey(items: seq<Entity>, k: string, v: string): seq<Entity>
    requires HasKey(items, k)
  {
    if items == [] then []
    else (if items[0][k] == v then [items[0]] else []) + WithKey(items[1..], k, v)
  }

  /** Insert `x` before the first object whose key is not smaller than its own. */
  function Insert(x: Entity, items: seq<Entity>, k: string): (r: seq<Entity>)
    requires k in x && HasKey(items, k)
    ensures HasKey(r, k) && |r| == |items| + 1
  {
    if items == [] || StrLe(x[k], items[0][k]) then [x] + items
    else [items[0]] + Insert(x, items[1..], k)
  }

  function SortByKey(items: seq<Entity>, k: string): (r: seq<Entity>)
    requires HasKey(items, k)
    ensures HasKey(r, k) && |r| == |items|
  {
    if items == [] then [] else Insert(items[0], SortByKey(items[1..], k), k)
  }

  lemma {:induction false} InsertPermutes(x: Entity, items: seq<Entity>, k: string)
    requires k in x && HasKey(items, k)
    ensures multiset(Insert(x, items, k)) == multiset(items) + multiset{x}
  {
    if items != [] && !StrLe(x[k], items[0][k]) {
      InsertPermutes(x, items[1..], k);
      assert items == [items[0]] + items[1..];
    }
  }

  lemma {:induction false} InsertSorted(x: Entity, items: seq<Entity>, k: string)
    requires k in x && HasKey(items, k) && SortedBy(items, k)
    ensures SortedBy(Insert(x, items, k), k)
  {
    var r := Insert(x, items, k);
    if items == [] {
    } else if StrLe(x[k], items[0][k]) {
      forall i, j | 0 <= i < j < |r| ensures StrLe(r[i][k], r[j][k]) {
        if i == 0 && j > 1 {
          StrLeTransitive(x[k], items[0][k], items[j - 1][k]);
        }
      }
    } else {
      StrLeTotal(x[k], items[0][k]);
      var tail := items[1..];
      var r' := Insert(x, tail, k);
      InsertSorted(x, tail, k);
      InsertPermutes(x, tail, k);
      forall j | 0 <= j < |r'| ensures StrLe(items[0][k], r'[j][k]) {
        assert r'[j] in multiset(r');
        if r'[j] != x {
          assert r'[j] in multiset(tail);
          var m :| 0 <= m < |tail| && tail[m] == r'[j];
          assert tail[m] == items[m + 1];
        }
      }
      assert r == [items[0]] + r';
    }
  }

  lemma {:induction false} InsertStable(x: Entity, items: seq<Entity>, k: string, v: string)
    requires k in x && HasKey(items, k)
    ensures WithKey(Insert(x, items, k), k, v) == WithKey([x] + items, k, v)
  {
    if items != [] && !StrLe(x[k], items[0][k]) {
      var tail := items[1..];
      InsertStable(x, tail, k, v);
      if x[k] == v && items[0][k] == v {
        StrLeReflexive(v);
      }
      assert ([x] + items)[1..] == items;
      assert ([x] + tail)[1..] == tail;
      assert ([items[0]] + Insert(x, tail, k))[1..] == Insert(x, tail, k);
    } else {
      assert ([x] + items)[1..] == items;
    }
  }

  /** The sorted list is ordered by key, a permutation of the input, and stable:
      among the objects with any one key value it keeps their input order. */
  lemma {:induction false} SortByKeyCorrect(items: seq<Entity>, k: string)
    requires HasKey(items, k)
    ensures SortedBy(SortByKey(items, k), k)
    ensures multiset(SortByKey(items, k)) == multiset(items)
    ensures forall v :: WithKey(SortByKey(items, k), k, v) == WithKey(items, k, v)
  {
    if items != [] {
      var tail := items[1..];
      var st := SortByKey(tail, k);
      SortByKeyCorrect(tail, k);
      InsertSorted(items[0], st, k);
      InsertPermutes(items[0], st, k);
      assert items == [items[0]] + tail;
      forall v ensures WithKey(SortByKey(items, k), k, v) == WithKey(items, k, v) {
        InsertStable(items[0], st, k, v);
        assert ([items[0]] + st)[1..] == st;
      }
    }
  }

  lemma {:induction false} WithKeyHas(items: seq<Entity>, k: string, j: int)
    requires HasKey(items, k) && 0 <= j < |items|
    ensures |WithKey(items, k, items[j][k])| > 0
  {
    if j > 0 {
      WithKeyHas(items[1..], k, j - 1);
    }
  }

  lemma {:induction false} WithKeyMember(items: seq<Entity>, k: string, v: string)
    requires HasKey(items, k) && |WithKey(items, k, v)| > 0
    ensures exists j :: 0 <= j < |items| && items[j][k] == v
  {
    if items[0][k] != v {
      WithKeyMember(items[1..], k, v);
      var j :| 0 <= j < |items[1..]| && items[1..][j][k] == v;
      assert items[j + 1] == items[1..][j];
    }
  }

  /** A list ordered by key that agrees with another one on every key value is
      that list: a stable sort has exactly one possible result. */
  lemma {:induction false} StableSortUnique(a: seq<Entity>, b: seq<Entity>, k: string)
    requires HasKey(a, k) && HasKey(b, k) && SortedBy(a, k) && SortedBy(b, k)
    requires forall v :: WithKey(a, k, v) == WithKey(b, k, v)
    ensures a == b
  {
    if a == [] && b != [] {
      WithKeyHas(b, k, 0);
    } else if a != [] && b == [] {
      WithKeyHas(a, k, 0);
    } else if a != [] {
      var va, vb := a[0][k], b[0][k];
      assert WithKey(a, k, va) == WithKey(b, k, va);
      assert WithKey(a, k, vb) == WithKey(b, k, vb);
      WithKeyHas(a, k, 0);
      WithKeyHas(b, k, 0);
      WithKeyMember(b, k, va);
      WithKeyMember(a, k, vb);
      var jb :| 0 <= jb < |b| && b[jb][k] == va;
      var ja :| 0 <= ja < |a| && a[ja][k] == vb;
      if jb == 0 { StrLeReflexive(va); }
      if ja == 0 { StrLeReflexive(vb); }
      StrLeAntisymmetric(va, vb);
      assert a[0] == WithKey(a, k, va)[0] == WithKey(b, k, va)[0] == b[0];
      forall v ensures WithKey(a[1..], k, v) == WithKey(b[1..], k, v) {
        assert WithKey(a, k, v) == WithKey(b, k, v);
        if a[0][k] == v {
          assert WithKey(a, k, v) == [a[0]] + WithKey(a[1..], k, v);
          assert WithKey(b, k, v) == [a[0]] + WithKey(b[1..], k, v);
          assert WithKey(a[1..], k, v) == WithKey(a, k, v)[1..];
          assert WithKey(b[1..], k, v) == WithKey(b, k, v)[1..];
        } else {
          assert WithKey(a, k, v) == WithKey(a[1..], k, v);
          assert WithKey(b, k, v) == WithKey(b[1..], k, v);
        }
      }
      StableSortUnique(a[1..], b[1..], k);
      assert a == [a[0]] + a[1..] && b == [b[0]] + b[1..];
    }
  }

  /** Any ordered, stable rearrangement of the input — in particular the list
      Python's `sorted` builds — equals `SortByKey`. */
  lemma SortByKeyIsSorted(items: seq<Entity>, k: string, r: seq<Entity>)
    requires HasKey(items, k) && HasKey(r, k) && SortedBy(r, k)
    requires forall v :: WithKey(r, k, v) == WithKey(items, k, v)
    ensures r == SortByKey(items, k)
  {
    SortByKeyCorrect(items, k);
    StableSortUnique(r, SortByKey(items, k), k);
  }

  /** A rearrangement has an object with key value `v` exactly when the
      original has one. */
  lemma PermutationKeepsValues(a: seq<Entity>, b: seq<Entity>, k: string, v: string)
    requires HasKey(a, k) && multiset(a) == multiset(b)
    ensures (exists i :: 0 <= i < |a| && a[i][k] == v) <==> (exists j :: 0 <= j < |b| && k in b[j] && b[j][k] == v)
  {
    if i :| 0 <= i < |a| && a[i][k] == v {
      assert a[i] in multiset(b);
      var j :| 0 <= j < |b| && b[j] == a[i];
    }
    if j :| 0 <= j < |b| && k in b[j] && b[j][k] == v {
      assert b[j] in multiset(a);
      var i :| 0 <= i < |a| && a[i] == b[j];
    }
  }

  /** Sorting neither adds nor loses a key value. */
  lemma SortKeepsValues(items: seq<Entity>, k: string, v: string)
    requires HasKey(items, k)
    ensures (exists i :: 0 <= i < |items| && items[i][k] == v) <==>
            (exists j :: 0 <= j < |SortByKey(items, k)| && k in SortByKey(items, k)[j] && SortByKey(items, k)[j][k] == v)
  {
    SortByKeyCorrect(items, k);
    PermutationKeepsValues(items, SortByKey(items, k), k, v);
  }

  /** `sorted(data, key=lambda x: x[k])` on a parsed JSON response. A list of
      objects is sorted, and raises KeyError when one lacks the key; iterating a
      dict yields its string keys, which cannot be indexed by a string, so a
      non-empty dict raises TypeError and an empty one sorts to `[]`. */
  function SortJson(data: Json, k: string): (r: Outcome<Json>)
    ensures r.Ok? ==> r.value.JList? && HasKey(r.value.items, k) && SortedBy(r.value.items, k)
    ensures data.JList? && HasKey(data.items, k) ==>
      && r.Ok?
      && multiset(r.value.items) == multiset(data.items)
      && (forall v :: WithKey(r.value.items, k, v) == WithKey(data.items, k, v))
      && r.value.items == SortByKey(data.items, k)
    ensures data.JList? && !HasKey(data.items, k) ==> r == Raise(KeyError)
    ensures data.JDict? ==> r == if |data.fields| == 0 then Ok(JList([])) else Raise(TypeError)
  {
    match data
    case JList(items) =>
      if HasKey(items, k) then SortByKeyCorrect(items, k); Ok(JList(SortByKey(items, k)))
      else Raise(KeyError)
    case JDict(fields) => if |fields| == 0 then Ok(JList([])) else Raise(TypeError)
  }
}
