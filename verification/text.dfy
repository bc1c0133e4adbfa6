/**
 * `Array.prototype.join` and `String.prototype.split` on a one-character separator,
 * the string operations the CSV export is built from.
 */
module Text {

  /** The number of occurrences of `c` in `s`. */
  function Count(s: string, c: char): nat {
    if s == [] then 0 else (if s[0] == c then 1 else 0) + Count(s[1..], c)
  }

  /** `parts.join(sep)`: the parts with one separator between neighbours; `""` for no parts. */
  function Join(parts: seq<string>, sep: char): string {
    if |parts| == 0 then ""
    else if |parts| == 1 then parts[0]
    else parts[0] + [sep] + Join(parts[1..], sep)
  }

  /**
   * `s.split(sep)`: the maximal pieces of `s` between separators. There is always at
   * least one piece; the empty string splits into one empty piece.
   */
  function Split(s: string, sep: char): (parts: seq<string>)
    ensures |parts| >= 1
  {
    if s == [] then [""]
    else
      var rest := Split(s[1..], sep);
      if s[0] == sep then [""] + rest
      else [[s[0]] + rest[0]] + rest[1..]
  }

  /** Counting distributes over concatenation. */
  lemma {:induction false} CountAppend(a: string, b: string, c: char)
    ensures Count(a + b, c) == Count(a, c) + Count(b, c)
  {
    if a != [] {
      assert (a + b)[1..] == a[1..] + b;
      CountAppend(a[1..], b, c);
    } else {
      assert a + b == b;
    }
  }

  /** A string without the character counts none of it. */
  lemma {:induction false} CountAbsent(s: string, c: char)
    ensures c !in s <==> Count(s, c) == 0
  {
    if s != [] {
      CountAbsent(s[1..], c);
      assert s == [s[0]] + s[1..];
    }
  }

  /** A string splits into one piece more than it has separators. */
  lemma {:induction false} SplitCount(s: string, sep: char)
    ensures |Split(s, sep)| == Count(s, sep) + 1
  {
    if s != [] {
      SplitCount(s[1..], sep);
    }
  }

  /** A string without the separator is a single piece. */
  lemma {:induction false} SplitNoSep(s: string, sep: char)
    requires sep !in s
    ensures Split(s, sep) == [s]
  {
    if s != [] {
      assert sep !in s[1..];
      SplitNoSep(s[1..], sep);
      assert [s[0]] + s[1..] == s;
    }
  }

  /** A separator after a piece without separators ends that piece. */
  lemma {:induction false} SplitAtSep(a: string, b: string, sep: char)
    requires sep !in a
    ensures Split(a + [sep] + b, sep) == [a] + Split(b, sep)
  {
    if a == [] {
      assert a + [sep] + b == [sep] + b;
      assert ([sep] + b)[1..] == b;
    } else {
      assert (a + [sep] + b)[0] == a[0];
      assert (a + [sep] + b)[1..] == a[1..] + [sep] + b;
      assert sep !in a[1..];
      SplitAtSep(a[1..], b, sep);
      assert [a[0]] + a[1..] == a;
    }
  }

  /** Splitting undoes joining, when no part holds the separator. */
  lemma {:induction false} SplitJoin(parts: seq<string>, sep: char)
    requires parts != []
    requires forall i :: 0 <= i < |parts| ==> sep !in parts[i]
    ensures Split(Join(parts, sep), sep) == parts
  {
    if |parts| == 1 {
      SplitNoSep(parts[0], sep);
    } else {
      SplitJoin(parts[1..], sep);
      SplitAtSep(parts[0], Join(parts[1..], sep), sep);
      assert [parts[0]] + parts[1..] == parts;
    }
  }

  /** The separators inside all the parts together. */
  function SumCounts(parts: seq<string>, sep: char): nat {
    if parts == [] then 0 else Count(parts[0], sep) + SumCounts(parts[1..], sep)
  }

  /**
   * The occurrences of `c` in a join: those inside the parts, plus one between
   * neighbours when `c` is the separator.
   */
  lemma {:induction false} CountJoin(parts: seq<string>, sep: char, c: char)
    requires parts != []
    ensures Count(Join(parts, sep), c) == SumCounts(parts, c) + if c == sep then |parts| - 1 else 0
  {
    if |parts| > 1 {
      CountJoin(parts[1..], sep, c);
      CountAppend(parts[0] + [sep], Join(parts[1..], sep), c);
      CountAppend(parts[0], [sep], c);
    }
  }

  /** A join holds a character other than the separator only where some part holds it. */
  lemma {:induction false} JoinWithout(parts: seq<string>, sep: char, c: char)
    requires c != sep
    requires forall i :: 0 <= i < |parts| ==> c !in parts[i]
    ensures c !in Join(parts, sep)
  {
    if |parts| > 1 {
      JoinWithout(parts[1..], sep, c);
      assert parts[0] + [sep] + Join(parts[1..], sep) == Join(parts, sep);
    }
  }

  /** A string ending in the separator splits with an empty last piece. */
  lemma {:induction false} SplitTrailingSep(s: string, sep: char)
    requires s != [] && s[|s| - 1] == sep
    ensures Split(s, sep)[|Split(s, sep)| - 1] == []
  {
    var tail := s[1..];
    var rest := Split(tail, sep);
    if tail == [] {
      assert rest == [""];
    } else {
      assert tail[|tail| - 1] == sep;
      SplitTrailingSep(tail, sep);
      assert |rest| >= 2 by {
        SplitCount(tail, sep);
        CountAbsent(tail, sep);
      }
      var r := Split(s, sep);
      assert r[|r| - 1] == rest[|rest| - 1];
    }
  }

  /** Joining parts without separators, the last one non-empty, never ends in a separator. */
  lemma JoinNoTrailingSep(parts: seq<string>, sep: char)
    requires parts != [] && parts[|parts| - 1] != []
    requires forall i :: 0 <= i < |parts| ==> sep !in parts[i]
    ensures Join(parts, sep) != [] && Join(parts, sep)[|Join(parts, sep)| - 1] != sep
  {
    var s := Join(parts, sep);
    SplitJoin(parts, sep);
    if s != [] && s[|s| - 1] == sep {
      SplitTrailingSep(s, sep);
    }
  }
}
