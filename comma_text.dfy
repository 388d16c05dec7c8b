/**
 The string work on an attendee's Items text: Python's `str.split` with a
 one-character separator, and `str.join`.
 */
module CommaText {

  /** `s.split(sep)` in Python: the pieces of `s` between occurrences of
      `sep`, kept exactly as written (no trimming). The empty string gives one
      empty piece. */
  function Split(s: string, sep: char): (pieces: seq<string>)
    ensures |pieces| == multiset(s)[sep] + 1
    ensures forall i :: 0 <= i < |pieces| ==> sep !in pieces[i]
    decreases |s|
  {
    if s == [] then [""]
    else
      var rest := Split(s[1..], sep);
      assert s == [s[0]] + s[1..];
      if s[0] == sep then [""] + rest
      else [[s[0]] + rest[0]] + rest[1..]
  }

  /** `sep.join(parts)` in Python. */
  function Join(parts: seq<string>, sep: string): string
  {
    if |parts| == 0 then ""
    else if |parts| == 1 then parts[0]
    else parts[0] + sep + Join(parts[1..], sep)
  }

  /** Every part with `prefix` put in front of it. */
  function Prefixed(parts: seq<string>, prefix: string): (r: seq<string>)
    ensures |r| == |parts|
    ensures forall i :: 0 <= i < |parts| ==> r[i] == prefix + parts[i]
  {
    if parts == [] then [] else [prefix + parts[0]] + Prefixed(parts[1..], prefix)
  }

  /** Text put in front of the first part ends up in front of the joined text
      (by unfolding Join). */
  lemma {:induction false} JoinPrefixFirst(b: string, x: string, rest: seq<string>, sep: string)
    ensures Join([b + x] + rest, sep) == b + Join([x] + rest, sep)
  {
  }

  /** Splitting and joining back with the same separator gives the text back. */
  lemma {:induction false} SplitThenJoin(s: string, sep: char)
    ensures Join(Split(s, sep), [sep]) == s
    decreases |s|
  {
    if s != [] {
      SplitThenJoin(s[1..], sep);
      JoinFirstStep(s, sep);
    }
  }

  /** One step of SplitThenJoin, by unfolding: the first character goes back in front. */
  lemma JoinFirstStep(s: string, sep: char)
    requires s != []
    ensures Join(Split(s, sep), [sep]) == [s[0]] + Join(Split(s[1..], sep), [sep])
  {
  }

  /** Text without the separator splits into itself alone. */
  lemma {:induction false} SplitWithoutSeparator(x: string, sep: char)
    requires sep !in x
    ensures Split(x, sep) == [x]
    decreases |x|
  {
    if x != [] {
      SplitWithoutSeparator(x[1..], sep);
      assert x == [x[0]] + x[1..];
    }
  }

  /** A separator-free first piece is split off exactly. */
  lemma {:induction false} SplitAfterPiece(x: string, sep: char, y: string)
    requires sep !in x
    ensures Split(x + [sep] + y, sep) == [x] + Split(y, sep)
    decreases |x|
  {
    var s := x + [sep] + y;
    if x == [] {
      assert s[1..] == y;
    } else {
      assert s[0] == x[0];
      assert s[1..] == x[1..] + [sep] + y;
      SplitAfterPiece(x[1..], sep, y);
      assert [x[0]] + x[1..] == x;
    }
  }

  /** Joining separator-free parts and splitting again gives the parts back. */
  lemma {:induction false} JoinThenSplit(parts: seq<string>, sep: char)
    requires |parts| >= 1
    requires forall i :: 0 <= i < |parts| ==> sep !in parts[i]
    ensures Split(Join(parts, [sep]), sep) == parts
  {
    if |parts| == 1 {
      SplitWithoutSeparator(parts[0], sep);
    } else {
      JoinThenSplit(parts[1..], sep);
      SplitAfterPiece(parts[0], sep, Join(parts[1..], [sep]));
      assert [parts[0]] + parts[1..] == parts;
    }
  }

  /** Joining with a two-part separator `a + b` is joining with `a` after
      putting `b` in front of every part but the first. */
  lemma {:induction false} JoinWiderSeparator(parts: seq<string>, a: string, b: string)
    requires |parts| >= 1
    ensures Join(parts, a + b) == Join([parts[0]] + Prefixed(parts[1..], b), a)
  {
    if |parts| > 1 {
      JoinWiderSeparator(parts[1..], a, b);
      assert parts[1..][1..] == parts[2..];
      assert Prefixed(parts[1..], b) == [b + parts[1]] + Prefixed(parts[2..], b);
      JoinPrefixFirst(b, parts[1], Prefixed(parts[2..], b), a);
      assert ([parts[0]] + Prefixed(parts[1..], b))[1..] == Prefixed(parts[1..], b);
    }
  }
}
