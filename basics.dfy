/** Values shared by every layer: optional values, the not-found errors the
    services throw, timestamps, and the string operations the search filters use. */
module Basics {

  /** An optional field (`x?: T` in the source) or a value that may be missing. */
  datatype Option<+T> = None | Some(value: T)

  /** The three not-found conditions the repositories and services signal. */
  datatype NotFound =
    | MetricNotFound(metricId: string)
    | DashboardNotFound(dashboardId: string)
    | WidgetNotFound(widgetId: string)

  /** An operation that either returns a value or throws a not-found error. */
  datatype Result<+T> = Ok(value: T) | Err(error: NotFound)

  /** A JavaScript Date, as the number of milliseconds it compares by. */
  type Time = int

  /** `Math.abs`. */
  function Abs(x: real): (r: real)
    ensures r >= 0.0 && (r == x || r == -x)
  {
    if x < 0.0 then -x else x
  }

  /** `Map.get` followed by a presence test. */
  function Lookup<K, V>(m: map<K, V>, k: K): (r: Option<V>)
    ensures r.Some? <==> k in m
    ensures r.Some? ==> r.value == m[k]
  {
    if k in m then Some(m[k]) else None
  }

  /** `toLowerCase` on one character; only the ASCII letters are mapped. */
  function LowerChar(c: char): (r: char)
    ensures 'A' <= c <= 'Z' ==> r as int == c as int + 32
    ensures !('A' <= c <= 'Z') ==> r == c
    ensures !('A' <= r <= 'Z')
  {
    if 'A' <= c <= 'Z' then (c as int + 32) as char else c
  }

  function ToLower(s: string): (r: string)
    ensures |r| == |s|
    ensures forall i :: 0 <= i < |s| ==> r[i] == LowerChar(s[i])
  {
    seq(|s|, i requires 0 <= i < |s| => LowerChar(s[i]))
  }

  predicate IsPrefix(p: string, s: string)
  {
    |p| <= |s| && s[..|p|] == p
  }

  /** `String.prototype.includes`: `needle` occurs in `s` at some position. */
  predicate Includes(s: string, needle: string)
    decreases |s|
  {
    IsPrefix(needle, s) || (|s| > 0 && Includes(s[1..], needle))
  }

  /** `needle` occurs in `s` starting at index `i`. */
  predicate OccursAt(s: string, needle: string, i: int)
  {
    0 <= i && i + |needle| <= |s| && s[i..i + |needle|] == needle
  }

  /** `Includes` is the existence of an occurrence: both directions. */
  lemma {:induction false} IncludesAt(s: string, needle: string)
    ensures Includes(s, needle) <==> exists i :: OccursAt(s, needle, i)
    decreases |s|
  {
    if Includes(s, needle) {
      if IsPrefix(needle, s) {
        assert OccursAt(s, needle, 0);
      } else {
        IncludesAt(s[1..], needle);
        var i :| OccursAt(s[1..], needle, i);
        assert s[i + 1..i + 1 + |needle|] == s[1..][i..i + |needle|];
        assert OccursAt(s, needle, i + 1);
      }
    }
    if exists i :: OccursAt(s, needle, i) {
      var i :| OccursAt(s, needle, i);
      if i == 0 {
        assert IsPrefix(needle, s);
      } else {
        assert s[1..][i - 1..i - 1 + |needle|] == s[i..i + |needle|];
        assert OccursAt(s[1..], needle, i - 1);
        IncludesAt(s[1..], needle);
      }
    }
  }

  /** A case-insensitive substring test, as the search filters perform it. */
  predicate IncludesIgnoringCase(s: string, needle: string)
  {
    Includes(ToLower(s), ToLower(needle))
  }
}
