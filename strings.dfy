/** Joining lines with a newline separator, and splitting them back. */
module Strings {

  /** The total length of the lines. */
  function TotalLength(lines: seq<string>): nat
  {
    if lines == [] then 0 else |lines[0]| + TotalLength(lines[1..])
  }

  /** The lines `lines` joined with "\n" between consecutive ones: the empty
      list gives the empty string, and otherwise the join holds every
      character of the lines and one separator per consecutive pair. */
  function Join(lines: seq<string>): (joined: string)
    ensures |lines| == 0 ==> joined == ""
    ensures |lines| >= 1 ==> |joined| == TotalLength(lines) + |lines| - 1
  {
    if |lines| == 0 then ""
    else if |lines| == 1 then lines[0]
    else lines[0] + "\n" + Join(lines[1..])
  }

  /** The pieces of `s` between newlines, as splitting on "\n" gives them:
      always at least one piece, and a piece never holds a newline. */
  function Split(s: string): (r: seq<string>)
    ensures |r| >= 1
    ensures forall i :: 0 <= i < |r| ==> '\n' !in r[i]
  {
    if |s| == 0 then [""]
    else
      var rest := Split(s[1..]);
      if s[0] == '\n' then [""] + rest
      else [[s[0]] + rest[0]] + rest[1..]
  }

  /** Joining the pieces of a split gives back the string. */
  lemma {:induction false} JoinSplit(s: string)
    ensures Join(Split(s)) == s
  {
    if |s| > 0 {
      var rest := Split(s[1..]);
      JoinSplit(s[1..]);
      if s[0] == '\n' {
        assert Split(s) == [""] + rest;
        assert ([""] + rest)[1..] == rest;
        assert s == [s[0]] + s[1..];
      } else {
        var r := [[s[0]] + rest[0]] + rest[1..];
        assert Split(s) == r;
        if |rest| == 1 {
          assert Join(r) == [s[0]] + rest[0];
        } else {
          assert r[1..] == rest[1..];
          assert Join(rest) == rest[0] + "\n" + Join(rest[1..]);
          assert Join(r) == [s[0]] + rest[0] + "\n" + Join(rest[1..]);
        }
        assert s == [s[0]] + s[1..];
      }
    }
  }

  /** A line without newlines splits to itself. */
  lemma {:induction false} SplitLine(line: string)
    requires '\n' !in line
    ensures Split(line) == [line]
  {
    if |line| > 0 {
      SplitLine(line[1..]);
      assert line == [line[0]] + line[1..];
    }
  }

  /** A newline after a line without newlines ends the first piece. */
  lemma {:induction false} SplitLineThen(line: string, rest: string)
    requires '\n' !in line
    ensures Split(line + "\n" + rest) == [line] + Split(rest)
  {
    var s := line + "\n" + rest;
    if |line| == 0 {
      assert s == "\n" + rest;
      assert s[1..] == rest;
    } else {
      assert s[1..] == line[1..] + "\n" + rest;
      SplitLineThen(line[1..], rest);
      assert line == [line[0]] + line[1..];
    }
  }

  /** Splitting a non-empty join of newline-free lines gives back the lines. */
  lemma {:induction false} SplitJoin(lines: seq<string>)
    requires |lines| >= 1
    requires forall i :: 0 <= i < |lines| ==> '\n' !in lines[i]
    ensures Split(Join(lines)) == lines
  {
    if |lines| == 1 {
      SplitLine(lines[0]);
    } else {
      SplitJoin(lines[1..]);
      SplitLineThen(lines[0], Join(lines[1..]));
      assert lines == [lines[0]] + lines[1..];
    }
  }

  /** Every line occurs in the join, between a prefix and a suffix. */
  lemma {:induction false} JoinContains(lines: seq<string>, i: nat)
    requires i < |lines|
    ensures exists pre, post :: Join(lines) == pre + lines[i] + post
  {
    if |lines| == 1 {
      assert Join(lines) == "" + lines[0] + "";
    } else if i == 0 {
      assert Join(lines) == "" + lines[0] + ("\n" + Join(lines[1..]));
    } else {
      JoinContains(lines[1..], i - 1);
      var pre, post :| Join(lines[1..]) == pre + lines[1..][i - 1] + post;
      assert Join(lines) == (lines[0] + "\n" + pre) + lines[i] + post;
    }
  }

  /** A piece of `middle` is still a piece once `middle` is wrapped between
      other strings. */
  lemma Wrapped(before: string, middle: string, after1: string, after2: string, piece: string)
    requires exists pre, post :: middle == pre + piece + post
    ensures exists pre, post :: before + middle + after1 + after2 == pre + piece + post
  {
    var pre, post :| middle == pre + piece + post;
    assert before + middle + after1 + after2 == (before + pre) + piece + (post + after1 + after2);
  }
}
