/**
 * The operations of Python's `str` and `list` that the mapping engine relies
 * on: `s.split(sep)` and `sep.join(xs)` for a one-character separator,
 * `s.splitlines()` and indexing with a possibly negative position.
 */
module Text {
  import opened Wrappers

  /**
   * Python's `xs[i]`: a negative `i` counts from the end, and a position
   * outside `-|xs| .. |xs| - 1` raises `IndexError` (here `None`).
   */
  function PyIndex<T>(xs: seq<T>, i: int): Option<T>
  {
    if 0 <= i < |xs| then Some(xs[i])
    else if -|xs| <= i < 0 then Some(xs[|xs| + i])
    else None
  }

  /**
   * A position `i` of `xs` and `i - |xs|` name the same element, and every
   * other position raises.
   */
  lemma PyIndexFromEnd<T>(xs: seq<T>, i: int)
    ensures PyIndex(xs, i).Some? <==> -|xs| <= i < |xs|
    ensures 0 <= i < |xs| ==> PyIndex(xs, i - |xs|) == PyIndex(xs, i) == Some(xs[i])
  {
  }

  /** The position of the first `sep` in `s`, or `|s|` when `s` has none. */
  function FirstIndex(s: string, sep: char): (i: nat)
    ensures i <= |s|
    ensures forall k :: 0 <= k < i ==> s[k] != sep
    ensures i < |s| ==> s[i] == sep
  {
    if s == [] then 0
    else if s[0] == sep then 0
    else 1 + FirstIndex(s[1..], sep)
  }

  /** The number of occurrences of `c` in `s` (Python's `s.count(c)`). */
  function Count(s: string, c: char): nat
  {
    if s == [] then 0
    else (if s[0] == c then 1 else 0) + Count(s[1..], c)
  }

  /**
   * Python's `s.split(sep)`: the maximal `sep`-free pieces between the
   * occurrences of `sep`, so that an empty `s` gives one empty piece.
   */
  function Split(s: string, sep: char): (pieces: seq<string>)
    ensures |pieces| >= 1
    ensures forall k :: 0 <= k < |pieces| ==> sep !in pieces[k]
    decreases |s|
  {
    var i := FirstIndex(s, sep);
    if i == |s| then [s]
    else [s[..i]] + Split(s[i + 1..], sep)
  }

  /** Python's `sep.join(xs)`. */
  function Join(xs: seq<string>, sep: char): string
  {
    if xs == [] then ""
    else if |xs| == 1 then xs[0]
    else xs[0] + [sep] + Join(xs[1..], sep)
  }

  lemma {:induction false} CountAppend(a: string, b: string, c: char)
    ensures Count(a + b, c) == Count(a, c) + Count(b, c)
  {
    if a == [] {
      assert a + b == b;
    } else {
      assert (a + b)[1..] == a[1..] + b;
      CountAppend(a[1..], b, c);
    }
  }

  lemma {:induction false} CountAbsent(s: string, c: char)
    requires c !in s
    ensures Count(s, c) == 0
  {
    if s != [] {
      CountAbsent(s[1..], c);
    }
  }

  /** Splitting a joined list gives the list back when no piece contains the separator. */
  lemma {:induction false} SplitJoin(xs: seq<string>, sep: char)
    requires |xs| >= 1
    requires forall k :: 0 <= k < |xs| ==> sep !in xs[k]
    ensures Split(Join(xs, sep), sep) == xs
    decreases |xs|
  {
    var s := Join(xs, sep);
    if |xs| == 1 {
      assert FirstIndex(s, sep) == |s|;
    } else {
      var head, rest := xs[0], Join(xs[1..], sep);
      assert s == head + [sep] + rest;
      var i := FirstIndex(s, sep);
      assert i == |head| by {
        assert s[|head|] == sep;
      }
      assert s[..i] == head;
      assert s[i + 1..] == rest;
      SplitJoin(xs[1..], sep);
    }
  }

  /** A character other than the separator is in a joined list only if it is in one of the pieces. */
  lemma {:induction false} JoinAbsent(xs: seq<string>, sep: char, c: char)
    requires c != sep
    requires forall k :: 0 <= k < |xs| ==> c !in xs[k]
    ensures c !in Join(xs, sep)
    decreases |xs|
  {
    if |xs| > 1 {
      JoinAbsent(xs[1..], sep, c);
      assert Join(xs, sep) == xs[0] + [sep] + Join(xs[1..], sep);
    }
  }

  /** A list that starts with `acc + [x]`: `x` sits right after `acc`, and the rest follows it. */
  lemma SnocPrefix<T>(out: seq<T>, acc: seq<T>, x: T)
    requires |out| > |acc| && out[..|acc| + 1] == acc + [x]
    ensures out[..|acc|] == acc && out[|acc|] == x && out[|acc|..] == [x] + out[|acc| + 1..]
  {
    assert out[..|acc| + 1][..|acc|] == out[..|acc|];
    assert out[..|acc| + 1][|acc|] == out[|acc|];
  }

  /** Appending `x` to the last row of `before + [row]`. */
  lemma SnocLast<T>(before: seq<seq<T>>, row: seq<T>, x: T, more: seq<T>)
    ensures (before + [row])[|before| := (before + [row])[|before|] + [x]] == before + [row + [x]]
    ensures (row + [x]) + more == row + ([x] + more)
  {
    assert (before + [row])[|before|] == row;
  }

  /** Joining the pieces of a split with the same separator rebuilds the string. */
  lemma {:induction false} JoinSplit(s: string, sep: char)
    ensures Join(Split(s, sep), sep) == s
    decreases |s|
  {
    var i := FirstIndex(s, sep);
    if i < |s| {
      var rest := Split(s[i + 1..], sep);
      JoinSplit(s[i + 1..], sep);
      var pieces := [s[..i]] + rest;
      assert Split(s, sep) == pieces;
      assert pieces[0] == s[..i] && pieces[1..] == rest;
      assert Join(pieces, sep) == s[..i] + [sep] + Join(rest, sep);
      assert s == s[..i] + [sep] + s[i + 1..];
    }
  }

  /** `s.split(sep)` has one more piece than `s` has separators. */
  lemma {:induction false} SplitCount(s: string, sep: char)
    ensures |Split(s, sep)| == Count(s, sep) + 1
    decreases |s|
  {
    var i := FirstIndex(s, sep);
    assert sep !in s[..i];
    CountAbsent(s[..i], sep);
    if i == |s| {
      assert s[..i] == s;
    } else {
      SplitCount(s[i + 1..], sep);
      assert s == s[..i] + ([sep] + s[i + 1..]);
      CountAppend(s[..i], [sep] + s[i + 1..], sep);
      CountAppend([sep], s[i + 1..], sep);
    }
  }

  /**
   * The line boundaries of Python's `str.splitlines()`: line feed, vertical
   * tab, form feed, carriage return, the file, group and record separators,
   * next line, line separator and paragraph separator.
   */
  predicate IsLineBreak(c: char)
  {
    var n := c as int;
    n == 0x0A || n == 0x0B || n == 0x0C || n == 0x0D || n == 0x1C || n == 0x1D
    || n == 0x1E || n == 0x85 || n == 0x2028 || n == 0x2029
  }

  predicate NoLineBreak(line: string)
  {
    forall k :: 0 <= k < |line| ==> !IsLineBreak(line[k])
  }

  /** The position of the first line boundary in `s`, or `|s|` when there is none. */
  function FirstBreak(s: string): (i: nat)
    ensures i <= |s|
    ensures NoLineBreak(s[..i])
    ensures i < |s| ==> IsLineBreak(s[i])
  {
    if s == [] then 0
    else if IsLineBreak(s[0]) then 0
    else
      var i := 1 + FirstBreak(s[1..]);
      assert s[..i] == [s[0]] + s[1..][..i - 1];
      i
  }

  /**
   * Python's `s.splitlines()`: the lines of `s` without their terminators,
   * where "\r\n" is one terminator and a final terminator does not open an
   * empty last line.
   */
  function SplitLines(s: string): (lines: seq<string>)
    ensures forall k :: 0 <= k < |lines| ==> NoLineBreak(lines[k])
    decreases |s|
  {
    if s == [] then []
    else
      var i := FirstBreak(s);
      if i == |s| then [s]
      else
        var next := if s[i] == '\r' && i + 1 < |s| && s[i + 1] == '\n' then i + 2 else i + 1;
        [s[..i]] + SplitLines(s[next..])
  }

  /**
   * Lines joined by line feeds split back into the same lines, provided no
   * line holds a boundary and the last line is not empty.
   */
  lemma {:induction false} SplitLinesJoin(lines: seq<string>)
    requires |lines| >= 1 && lines[|lines| - 1] != []
    requires forall k :: 0 <= k < |lines| ==> NoLineBreak(lines[k])
    ensures SplitLines(Join(lines, '\n')) == lines
    decreases |lines|
  {
    var s := Join(lines, '\n');
    if |lines| == 1 {
      assert FirstBreak(s) == |s|;
    } else {
      var head, rest := lines[0], Join(lines[1..], '\n');
      assert s == head + ['\n'] + rest;
      var i := FirstBreak(s);
      assert i == |head| by {
        assert IsLineBreak(s[|head|]);
      }
      assert s[..i] == head;
      assert s[i + 1..] == rest;
      SplitLinesJoin(lines[1..]);
    }
  }
}
