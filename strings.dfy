/**
 * Joining a list of strings with a separator, as Rust's `[String]::join` does,
 * and the inverse splitting for the `", "` separator the query builder uses.
 */
module Strings {

  /** The separator used for IN lists and GROUP BY field lists. */
  const ListSeparator: string := ", "

  /** `xs[0] + sep + xs[1] + sep + ... + xs[n-1]`; the empty list joins to "". */
  function Join(xs: seq<string>, sep: string): (r: string)
    ensures |xs| >= 1 ==> xs[0] <= r
    decreases |xs|
  {
    if |xs| == 0 then ""
    else if |xs| == 1 then xs[0]
    else xs[0] + sep + Join(xs[1..], sep)
  }

  /** Splits a string at every `", "`; a string without separators is one piece. */
  function SplitList(s: string): (r: seq<string>)
    ensures |r| >= 1
    decreases |s|
  {
    if |s| == 0 then [""]
    else if |s| >= 2 && s[0] == ',' && s[1] == ' ' then [""] + SplitList(s[2..])
    else
      var rest := SplitList(s[1..]);
      [[s[0]] + rest[0]] + rest[1..]
  }

  /** A comma-free prefix is glued onto the first piece of what follows it. */
  lemma {:induction false} SplitListPrefix(x: string, t: string)
    requires ',' !in x
    ensures SplitList(x + t) == [x + SplitList(t)[0]] + SplitList(t)[1..]
    decreases |x|
  {
    if x == [] {
      var r := SplitList(t);
      assert x + t == t;
      assert x + r[0] == r[0];
      assert r == [r[0]] + r[1..];
    } else {
      assert x + t == [x[0]] + (x[1..] + t);
      SplitListPrefix(x[1..], t);
      assert (x + t)[1..] == x[1..] + t;
      assert [x[0]] + (x[1..] + SplitList(t)[0]) == x + SplitList(t)[0];
    }
  }

  /**
   * Joining with `", "` loses nothing: a non-empty list of comma-free strings
   * is recovered from its joined text, in order.
   */
  lemma {:induction false} SplitJoinRoundTrip(xs: seq<string>)
    requires |xs| >= 1
    requires forall i :: 0 <= i < |xs| ==> ',' !in xs[i]
    ensures SplitList(Join(xs, ListSeparator)) == xs
    decreases |xs|
  {
    if |xs| == 1 {
      SplitListPrefix(xs[0], "");
      assert xs[0] + "" == xs[0];
    } else {
      var rest := Join(xs[1..], ListSeparator);
      SplitJoinRoundTrip(xs[1..]);
      assert Join(xs, ListSeparator) == xs[0] + (ListSeparator + rest);
      SplitListPrefix(xs[0], ListSeparator + rest);
      assert (ListSeparator + rest)[2..] == rest;
      var tail := SplitList(ListSeparator + rest);
      assert tail == [""] + xs[1..];
      assert xs[0] + tail[0] == xs[0];
      assert xs == [xs[0]] + xs[1..];
    }
  }

  /** A character found neither in the pieces nor in the separator is not in the joined text. */
  lemma {:induction false} JoinAvoids(xs: seq<string>, sep: string, ch: char)
    requires ch !in sep
    requires forall i :: 0 <= i < |xs| ==> ch !in xs[i]
    ensures ch !in Join(xs, sep)
    decreases |xs|
  {
    if |xs| > 1 {
      JoinAvoids(xs[1..], sep, ch);
    }
  }

  /** Number of occurrences of `ch` in `s`. */
  function Count(s: string, ch: char): nat
    decreases |s|
  {
    if s == [] then 0 else (if s[0] == ch then 1 else 0) + Count(s[1..], ch)
  }

  lemma {:induction false} CountAppend(a: string, b: string, ch: char)
    ensures Count(a + b, ch) == Count(a, ch) + Count(b, ch)
    decreases |a|
  {
    if a == [] {
      assert a + b == b;
    } else {
      assert (a + b)[1..] == a[1..] + b;
      CountAppend(a[1..], b, ch);
    }
  }

  lemma {:induction false} CountAbsent(s: string, ch: char)
    requires ch !in s
    ensures Count(s, ch) == 0
    decreases |s|
  {
    if s != [] {
      CountAbsent(s[1..], ch);
    }
  }
}
