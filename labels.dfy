/**
 * The string primitives the gateway uses to take a host name apart and put
 * it back together: Rust's `str::rsplit` on a single character, reversing a
 * vector in place, and `[&str]::join`.
 */
module Labels {
  import opened Wrappers

  /** Position of the right-most `c` in `s`, if there is one. */
  function LastIndexOf(s: string, c: char): (r: Option<nat>)
    ensures r.Some? ==> r.value < |s| && s[r.value] == c
    ensures r.Some? ==> forall j :: r.value < j < |s| ==> s[j] != c
    ensures r.None? <==> c !in s
  {
    if |s| == 0 then None
    else if s[|s| - 1] == c then Some(|s| - 1)
    else
      assert s == s[..|s| - 1] + [s[|s| - 1]];
      LastIndexOf(s[..|s| - 1], c)
  }

  /**
   * The pieces of `s` between occurrences of `sep`, right-most piece first,
   * as `s.rsplit(sep)` yields them. There is always at least one piece
   * (the empty string gives one empty piece), and no piece holds `sep`.
   */
  function RSplit(s: string, sep: char): (r: seq<string>)
    ensures |r| >= 1
    ensures forall i :: 0 <= i < |r| ==> sep !in r[i]
    decreases |s|
  {
    match LastIndexOf(s, sep)
    case None => [s]
    case Some(k) =>
      [s[k + 1..]] + RSplit(s[..k], sep)
  }

  /** The elements of `s` in the opposite order (`Vec::reverse`). */
  function Reverse<T>(s: seq<T>): (r: seq<T>)
    ensures |r| == |s|
    ensures forall i :: 0 <= i < |s| ==> r[i] == s[|s| - 1 - i]
  {
    if s == [] then [] else [s[|s| - 1]] + Reverse(s[..|s| - 1])
  }

  /** The pieces in order with `sep` between neighbours (`parts.join(sep)`). */
  function Join(parts: seq<string>, sep: char): string
  {
    if |parts| == 0 then ""
    else if |parts| == 1 then parts[0]
    else Join(parts[..|parts| - 1], sep) + [sep] + parts[|parts| - 1]
  }

  /** Joining a non-empty list with one more piece appends a separator and that piece. */
  lemma JoinSnoc(parts: seq<string>, last: string, sep: char)
    requires |parts| >= 1
    ensures Join(parts + [last], sep) == Join(parts, sep) + [sep] + last
  {
    assert (parts + [last])[..|parts|] == parts;
  }

  /**
   * Splitting from the right and re-joining the pieces in textual order
   * restores the original text: no character is lost or reordered.
   */
  lemma {:induction false} JoinRSplit(s: string, sep: char)
    ensures Join(Reverse(RSplit(s, sep)), sep) == s
    decreases |s|
  {
    match LastIndexOf(s, sep)
    case None =>
    case Some(k) =>
      var rest := RSplit(s[..k], sep);
      assert RSplit(s, sep) == [s[k + 1..]] + rest;
      assert Reverse([s[k + 1..]] + rest) == Reverse(rest) + [s[k + 1..]];
      JoinSnoc(Reverse(rest), s[k + 1..], sep);
      JoinRSplit(s[..k], sep);
      assert s == s[..k] + [sep] + s[k + 1..];
  }

  /**
   * Conversely, splitting a join of separator-free pieces from the right
   * yields exactly those pieces, right-most first.
   */
  lemma {:induction false} RSplitJoin(parts: seq<string>, sep: char)
    requires |parts| >= 1
    requires forall i :: 0 <= i < |parts| ==> sep !in parts[i]
    ensures RSplit(Join(parts, sep), sep) == Reverse(parts)
    decreases |parts|
  {
    if |parts| > 1 {
      var init, last := parts[..|parts| - 1], parts[|parts| - 1];
      var head := Join(init, sep);
      var s := head + [sep] + last;
      assert Join(parts, sep) == s;
      assert s[|head|] == sep;
      assert forall j :: |head| < j < |s| ==> s[j] == last[j - |head| - 1];
      assert LastIndexOf(s, sep) == Some(|head|);
      assert s[..|head|] == head && s[|head| + 1..] == last;
      RSplitJoin(init, sep);
      assert RSplit(s, sep) == [last] + Reverse(init);
    }
  }
}
