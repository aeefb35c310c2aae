/** JavaScript's `String.prototype.split` for a one-character separator, and
    the array indexing `parts[i]` that yields `undefined` past the end.
    The role wizard uses both to derive a resource-filter key from the
    second `:`-separated segment of a permission string. */
module ColonSplit {
  import opened Options

  /** `s.split(sep)`: the maximal separator-free pieces of `s`, in order.
      There is always one more piece than there are separators, so an
      empty string splits into `[""]`. */
  function Split(s: string, sep: char): (parts: seq<string>)
    ensures |parts| == multiset(s)[sep] + 1
    ensures forall i :: 0 <= i < |parts| ==> sep !in parts[i]
    decreases |s|
  {
    if |s| == 0 then [""]
    else
      assert s == [s[0]] + s[1..];
      var rest := Split(s[1..], sep);
      if s[0] == sep then [""] + rest
      else [[s[0]] + rest[0]] + rest[1..]
  }

  /** `parts.join(sep)`, the inverse of `Split`. */
  function Join(parts: seq<string>, sep: char): string
    requires |parts| >= 1
  {
    if |parts| == 1 then parts[0] else parts[0] + [sep] + Join(parts[1..], sep)
  }

  /** `parts[i]` on a JavaScript array: `undefined` past the end. */
  function Segment(parts: seq<string>, i: nat): (r: Option<string>)
    ensures r.Some? <==> i < |parts|
    ensures r.Some? ==> r.value == parts[i]
  {
    if i < |parts| then Some(parts[i]) else None
  }

  /** The text a template literal `${s.split(sep)[i]}` produces: the segment,
      or the word `undefined` when there is no such segment. */
  function SegmentText(s: string, sep: char, i: nat): (t: string)
    ensures i < multiset(s)[sep] + 1 ==> t == Split(s, sep)[i]
    ensures i > multiset(s)[sep] ==> t == "undefined"
  {
    Segment(Split(s, sep), i).GetOr("undefined")
  }

  /** Joining the pieces of a split gives back the original string. */
  lemma {:induction false} JoinSplit(s: string, sep: char)
    ensures Join(Split(s, sep), sep) == s
    decreases |s|
  {
    if |s| > 0 {
      var rest := Split(s[1..], sep);
      JoinSplit(s[1..], sep);
      if s[0] == sep {
        assert Split(s, sep)[1..] == rest;
      } else if |rest| > 1 {
        assert Split(s, sep)[1..] == rest[1..];
        assert Join(rest, sep) == rest[0] + [sep] + Join(rest[1..], sep);
      }
    }
  }

  /** A separator-free string is a single piece. */
  lemma {:induction false} SplitNoSeparator(s: string, sep: char)
    requires sep !in s
    ensures Split(s, sep) == [s]
    decreases |s|
  {
    if |s| > 0 {
      SplitNoSeparator(s[1..], sep);
      assert [s[0]] + s[1..] == s;
    }
  }

  /** A separator-free prefix followed by a separator is split off as the
      first piece. */
  lemma {:induction false} SplitAfterPrefix(a: string, sep: char, t: string)
    requires sep !in a
    ensures Split(a + [sep] + t, sep) == [a] + Split(t, sep)
    decreases |a|
  {
    var s := a + [sep] + t;
    if |a| == 0 {
      assert s[1..] == t;
    } else {
      assert s[1..] == a[1..] + [sep] + t;
      SplitAfterPrefix(a[1..], sep, t);
      assert [a[0]] + a[1..] == a;
    }
  }

  /** Splitting a join of separator-free pieces gives back the pieces. */
  lemma {:induction false} SplitJoin(parts: seq<string>, sep: char)
    requires |parts| >= 1
    requires forall i :: 0 <= i < |parts| ==> sep !in parts[i]
    ensures Split(Join(parts, sep), sep) == parts
    decreases |parts|
  {
    if |parts| == 1 {
      SplitNoSeparator(parts[0], sep);
    } else {
      SplitJoin(parts[1..], sep);
      SplitAfterPrefix(parts[0], sep, Join(parts[1..], sep));
      assert [parts[0]] + parts[1..] == parts;
    }
  }

  /** The second segment of `a:b` and of `a:b:rest` is `b` when `a` and `b`
      are separator-free. */
  lemma SecondSegment(a: string, b: string, sep: char, tail: string)
    requires sep !in a && sep !in b
    requires tail == [] || tail[0] == sep
    ensures SegmentText(a + [sep] + b + tail, sep, 1) == b
  {
    SplitAfterPrefix(a, sep, b + tail);
    assert a + [sep] + b + tail == a + [sep] + (b + tail);
    if tail == [] {
      assert b + tail == b;
      SplitNoSeparator(b, sep);
    } else {
      assert b + tail == b + [sep] + tail[1..];
      SplitAfterPrefix(b, sep, tail[1..]);
    }
  }

  /** A string without a separator has no second segment. */
  lemma NoSecondSegment(s: string, sep: char)
    requires sep !in s
    ensures SegmentText(s, sep, 1) == "undefined"
  {
    assert multiset(s)[sep] == 0;
  }
}
