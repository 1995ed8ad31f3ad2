/** Sequence and string helpers that the argument parser relies on: membership
    in a slice, joining with a separator, and (as the reference partner of the
    join) splitting on a separator character. */
module Strings {

  /** Linear scan for an element equal to `x`, front to back, as a slice's
      `contains` does. */
  function Contains<T(==)>(xs: seq<T>, x: T): (r: bool)
    ensures r <==> exists i :: 0 <= i < |xs| && xs[i] == x
    ensures r <==> x in xs
  {
    if |xs| == 0 then false
    else if xs[0] == x then true
    else Contains(xs[1..], x)
  }

  /** Total length of all parts. */
  function TotalLength(parts: seq<string>): nat
  {
    if |parts| == 0 then 0 else |parts[0]| + TotalLength(parts[1..])
  }

  /** The parts in order, with `sep` between each two neighbours and nowhere
      else, as a slice's `join` does. */
  function Join(parts: seq<string>, sep: string): (r: string)
    ensures |r| == TotalLength(parts) + (if |parts| == 0 then 0 else (|parts| - 1) * |sep|)
  {
    if |parts| == 0 then ""
    else if |parts| == 1 then parts[0]
    else parts[0] + sep + Join(parts[1..], sep)
  }

  /** The pieces of `s` between occurrences of `sep`, empty pieces kept, so
      that there is always one piece more than there are separators. */
  function Split(s: string, sep: char): (r: seq<string>)
    ensures |r| >= 1
  {
    if |s| == 0 then [""]
    else if s[0] == sep then [""] + Split(s[1..], sep)
    else
      var rest := Split(s[1..], sep);
      [[s[0]] + rest[0]] + rest[1..]
  }

  /** A string without the separator splits into itself alone. */
  lemma {:induction false} SplitWithoutSeparator(s: string, sep: char)
    requires sep !in s
    ensures Split(s, sep) == [s]
  {
    if |s| > 0 {
      SplitWithoutSeparator(s[1..], sep);
      assert [s[0]] + s[1..] == s;
    }
  }

  /** Splitting at the first separator: the piece before it, then the
      pieces of the rest. */
  lemma {:induction false} SplitAtSeparator(a: string, sep: char, b: string)
    requires sep !in a
    ensures Split(a + [sep] + b, sep) == [a] + Split(b, sep)
  {
    var s := a + [sep] + b;
    if |a| == 0 {
      assert s[0] == sep && s[1..] == b;
    } else {
      assert s[0] == a[0];
      assert s[1..] == a[1..] + [sep] + b;
      SplitAtSeparator(a[1..], sep, b);
      assert [a[0]] + a[1..] == a;
    }
  }

  /** Splitting one part at a separator-sized gap into two parts does not
      change the joined string. */
  lemma {:induction false} JoinSplitPart(pre: seq<string>, x: string, y: string, post: seq<string>, sep: string)
    ensures Join(pre + [x + sep + y] + post, sep) == Join(pre + [x, y] + post, sep)
  {
    if |pre| == 0 {
      assert pre + [x + sep + y] + post == [x + sep + y] + post;
      assert pre + [x, y] + post == [x] + ([y] + post);
      assert ([x] + ([y] + post))[1..] == [y] + post;
      if |post| > 0 {
        assert ([x + sep + y] + post)[1..] == post;
        assert ([y] + post)[1..] == post;
      }
    } else {
      JoinSplitPart(pre[1..], x, y, post, sep);
      assert (pre + [x + sep + y] + post)[1..] == pre[1..] + [x + sep + y] + post;
      assert (pre + [x, y] + post)[1..] == pre[1..] + [x, y] + post;
    }
  }

  /** Joining parts that do not contain the separator character is undone
      by splitting on it: no part is lost, merged or reordered. */
  lemma {:induction false} SplitJoin(parts: seq<string>, sep: char)
    requires |parts| >= 1
    requires forall i :: 0 <= i < |parts| ==> sep !in parts[i]
    ensures Split(Join(parts, [sep]), sep) == parts
  {
    if |parts| == 1 {
      SplitWithoutSeparator(parts[0], sep);
    } else {
      SplitJoin(parts[1..], sep);
      SplitAtSeparator(parts[0], sep, Join(parts[1..], [sep]));
      assert [parts[0]] + parts[1..] == parts;
    }
  }
}
