/** String operations the scraper uses: `str.index(sub, start)`, slicing with
    Python's clamping, and the carriage-return repair applied to table cells. */
module Text {
  import opened PyValues

  /** `sub` occurs in `s` starting at position `i`. */
  predicate OccursAt(s: string, sub: string, i: int)
  {
    0 <= i && i + |sub| <= |s| && s[i..i + |sub|] == sub
  }

  /** `s` contains `sub` somewhere at or after `from`. */
  ghost predicate OccursFrom(s: string, sub: string, from: int)
  {
    exists i :: from <= i && OccursAt(s, sub, i)
  }

  /** `i` is the first position at or after `from` where `sub` occurs. */
  ghost predicate IsFirstAt(s: string, sub: string, from: int, i: int)
  {
    from <= i && OccursAt(s, sub, i) && forall j :: from <= j < i ==> !OccursAt(s, sub, j)
  }

  /** `s.index(sub, from)`: the lowest position at or after `from` where `sub`
      occurs, or None where Python raises ValueError. */
  function IndexOf(s: string, sub: string, from: nat): (r: Option<nat>)
    ensures r.Some? ==> IsFirstAt(s, sub, from, r.value)
    ensures r.None? ==> forall j :: from <= j ==> !OccursAt(s, sub, j)
    decreases |s| - from
  {
    if from + |sub| > |s| then None
    else if s[from..from + |sub|] == sub then Some(from)
    else IndexOf(s, sub, from + 1)
  }

  /** The first occurrence is unique, so `IndexOf` is the only answer. */
  lemma IndexOfIsFirst(s: string, sub: string, from: nat, i: int)
    requires IsFirstAt(s, sub, from, i)
    ensures IndexOf(s, sub, from) == Some(i)
  {
  }

  /** `s[i:]`: Python clamps a start past the end to the empty string. */
  function SliceFrom(s: string, i: nat): (r: string)
    ensures i <= |s| ==> r == s[i..]
    ensures i > |s| ==> r == ""
  {
    if i <= |s| then s[i..] else ""
  }

  /** `re.sub(r"\r", " ", s)`: every carriage return becomes one space. */
  function RepairText(s: string): (r: string)
    ensures |r| == |s|
    ensures forall k :: 0 <= k < |s| ==> r[k] == (if s[k] == '\r' then ' ' else s[k])
  {
    if s == [] then [] else [if s[0] == '\r' then ' ' else s[0]] + RepairText(s[1..])
  }

  lemma RepairTextRemovesCR(s: string)
    ensures '\r' !in RepairText(s)
  {
  }

  /** The repair is idempotent and leaves text without carriage returns alone. */
  lemma RepairTextIdempotent(s: string)
    ensures RepairText(RepairText(s)) == RepairText(s)
    ensures '\r' !in s ==> RepairText(s) == s
  {
  }
}
