/** Pure view of line-oriented text: how a character sequence falls apart into lines when it is
    read with `std::getline` and the delimiter '\n', and how the lines join back together. */
module Text {

  /** A line as a reader hands it out: it never holds the delimiter. */
  predicate NoNewline(line: string) {
    '\n' !in line
  }

  /** Index of the first '\n' of `s`, or |s| when `s` holds none. */
  function LineEnd(s: string): (k: nat)
    ensures k <= |s|
    ensures NoNewline(s[..k])
    ensures k < |s| ==> s[k] == '\n'
  {
    if s == [] || s[0] == '\n' then 0
    else
      var k := 1 + LineEnd(s[1..]);
      assert s[..k] == [s[0]] + s[1..][..k - 1];
      k
  }

  /** The pieces of `s` between its '\n' characters, in order. An empty text is one empty piece,
      and a text that ends in '\n' ends in an empty piece. */
  function SplitLines(s: string): (r: seq<string>)
    ensures |r| >= 1
    decreases |s|
  {
    var k := LineEnd(s);
    if k == |s| then [s] else [s[..k]] + SplitLines(s[k + 1..])
  }

  /** The pieces put back together, one '\n' between each two. */
  function JoinLines(lines: seq<string>): string
  {
    if |lines| == 0 then ""
    else if |lines| == 1 then lines[0]
    else lines[0] + "\n" + JoinLines(lines[1..])
  }

  /** `s` without its final '\n', if it has one. */
  function StripFinalNewline(s: string): string
  {
    if |s| > 0 && s[|s| - 1] == '\n' then s[..|s| - 1] else s
  }

  /** The lines a line range that suppresses a trailing empty line yields: the pieces of
      `SplitLines(s)` without the empty piece after a final '\n' (an empty text has none). */
  function Lines(s: string): seq<string>
  {
    DropEmptyLast(SplitLines(s))
  }

  /** `p` without its last piece when that piece is empty. */
  function DropEmptyLast(p: seq<string>): seq<string>
    requires |p| >= 1
  {
    if |p[|p| - 1]| == 0 then p[..|p| - 1] else p
  }

  /** `LineEnd` is the only index with its two properties. */
  lemma {:induction false} LineEndUnique(s: string, k: nat)
    requires k <= |s| && NoNewline(s[..k])
    requires k < |s| ==> s[k] == '\n'
    ensures LineEnd(s) == k
    decreases |s|
  {
    assert k > 0 ==> s[..k][0] in s[..k];
    if s != [] && s[0] != '\n' {
      assert s[1..][..k - 1] == s[..k][1..];
      LineEndUnique(s[1..], k - 1);
    }
  }

  /** The first '\n' of `a + "\n" + b` is the one after `a` when `a` holds none. */
  lemma LineEndAfter(a: string, b: string)
    requires NoNewline(a)
    ensures LineEnd(a + "\n" + b) == |a|
    ensures (a + "\n" + b)[|a| + 1..] == b
  {
    var s := a + "\n" + b;
    assert s[..|a|] == a;
    LineEndUnique(s, |a|);
  }

  /** No piece holds a '\n'. */
  lemma {:induction false} SplitLinesNoNewline(s: string)
    ensures forall i :: 0 <= i < |SplitLines(s)| ==> NoNewline(SplitLines(s)[i])
    decreases |s|
  {
    var k := LineEnd(s);
    if k < |s| {
      var p := SplitLines(s[k + 1..]);
      SplitLinesNoNewline(s[k + 1..]);
      assert SplitLines(s) == [s[..k]] + p;
      forall i | 0 <= i < |SplitLines(s)|
        ensures NoNewline(SplitLines(s)[i])
      {
        if i > 0 {
          assert SplitLines(s)[i] == p[i - 1];
        }
      }
    }
  }

  /** Joining a line in front of at least one more puts one '\n' after it. */
  lemma JoinCons(a: string, p: seq<string>)
    requires |p| >= 1
    ensures JoinLines([a] + p) == a + "\n" + JoinLines(p)
  {
    assert ([a] + p)[0] == a;
    assert ([a] + p)[1..] == p;
  }

  /** A text falls apart around any '\n' it holds. */
  lemma CutAtNewline(s: string, k: nat)
    requires k < |s| && s[k] == '\n'
    ensures s == s[..k] + "\n" + s[k + 1..]
  {
  }

  /** Splitting undoes joining. */
  lemma {:induction false} JoinSplit(s: string)
    ensures JoinLines(SplitLines(s)) == s
    decreases |s|
  {
    var k := LineEnd(s);
    if k < |s| {
      var a, b := s[..k], s[k + 1..];
      calc {
        JoinLines(SplitLines(s));
        JoinLines([a] + SplitLines(b));
        { JoinCons(a, SplitLines(b)); }
        a + "\n" + JoinLines(SplitLines(b));
        { JoinSplit(b); }
        a + "\n" + b;
        { CutAtNewline(s, k); }
        s;
      }
    }
  }

  /** A line free of '\n' is a single piece. */
  lemma SplitSingle(a: string)
    requires NoNewline(a)
    ensures SplitLines(a) == [a]
  {
    assert LineEnd(a) == |a|;
  }

  /** A line free of '\n' followed by '\n' is the first piece; the rest splits on its own. */
  lemma SplitAfter(a: string, b: string)
    requires NoNewline(a)
    ensures SplitLines(a + "\n" + b) == [a] + SplitLines(b)
  {
    var s := a + "\n" + b;
    LineEndAfter(a, b);
    assert s[..|a|] == a;
  }

  /** Joining undoes splitting, for any non-empty list of lines free of '\n'. */
  lemma {:induction false} SplitJoin(lines: seq<string>)
    requires |lines| >= 1
    requires forall i :: 0 <= i < |lines| ==> NoNewline(lines[i])
    ensures SplitLines(JoinLines(lines)) == lines
  {
    if |lines| == 1 {
      SplitSingle(lines[0]);
    } else {
      SplitAfter(lines[0], JoinLines(lines[1..]));
      SplitJoin(lines[1..]);
    }
  }

  /** A final '\n' adds one empty piece. */
  lemma {:induction false} SplitAppendNewline(t: string)
    ensures SplitLines(t + "\n") == SplitLines(t) + [""]
    decreases |t|
  {
    var k := LineEnd(t);
    if k < |t| {
      var a, b := t[..k], t[k + 1..];
      CutAtNewline(t, k);
      calc {
        SplitLines(t + "\n");
        { assert t + "\n" == a + "\n" + (b + "\n"); }
        SplitLines(a + "\n" + (b + "\n"));
        { SplitAfter(a, b + "\n"); }
        [a] + SplitLines(b + "\n");
        { SplitAppendNewline(b); }
        [a] + (SplitLines(b) + [""]);
        ([a] + SplitLines(b)) + [""];
        { SplitAfter(a, b); }
        SplitLines(t) + [""];
      }
    } else {
      calc {
        SplitLines(t + "\n");
        { assert t + "\n" == t + "\n" + ""; }
        SplitLines(t + "\n" + "");
        { SplitAfter(t, ""); }
        [t] + SplitLines("");
        { SplitSingle(""); SplitSingle(t); }
        SplitLines(t) + [""];
      }
    }
  }

  /** The last piece is empty exactly when the text is empty or ends in '\n'. */
  lemma {:induction false} SplitLastEmpty(s: string)
    ensures var p := SplitLines(s); |p[|p| - 1]| == 0 <==> |s| == 0 || s[|s| - 1] == '\n'
    decreases |s|
  {
    var k := LineEnd(s);
    if k < |s| {
      var p := SplitLines(s[k + 1..]);
      assert SplitLines(s) == [s[..k]] + p;
      assert SplitLines(s)[|SplitLines(s)| - 1] == p[|p| - 1];
      SplitLastEmpty(s[k + 1..]);
      assert |s[k + 1..]| > 0 ==> s[k + 1..][|s[k + 1..]| - 1] == s[|s| - 1];
    }
  }

  /** An independent reading of `Lines`: no lines for an empty text; otherwise the pieces of the
      text with its final '\n' (if any) removed. */
  lemma LinesAsStrippedSplit(s: string)
    ensures Lines(s) == if |s| == 0 then [] else SplitLines(StripFinalNewline(s))
  {
    SplitLastEmpty(s);
    if |s| > 0 && s[|s| - 1] == '\n' {
      var t := s[..|s| - 1];
      assert s == t + "\n";
      SplitAppendNewline(t);
    }
  }

  /** Joining the lines gives back the text, minus one final '\n' if it has one. */
  lemma LinesRoundTrip(s: string)
    ensures JoinLines(Lines(s)) == StripFinalNewline(s)
    ensures forall i :: 0 <= i < |Lines(s)| ==> NoNewline(Lines(s)[i])
  {
    LinesAsStrippedSplit(s);
    JoinSplit(StripFinalNewline(s));
    SplitLinesNoNewline(StripFinalNewline(s));
  }

  /** `Lines` yields nothing exactly for the empty text. */
  lemma LinesEmpty(s: string)
    ensures Lines(s) == [] <==> |s| == 0
  {
    LinesAsStrippedSplit(s);
  }

  /** `SplitLines` keeps the empty piece that `Lines` drops, and nothing else differs. */
  lemma SplitLinesVersusLines(s: string)
    ensures |s| == 0 || s[|s| - 1] == '\n' ==> SplitLines(s) == Lines(s) + [""]
    ensures |s| > 0 && s[|s| - 1] != '\n' ==> SplitLines(s) == Lines(s)
  {
    var p := SplitLines(s);
    SplitLastEmpty(s);
    if |p[|p| - 1]| == 0 {
      RestoreEmptyPiece(p);
    } else {
      assert DropEmptyLast(p) == p;
    }
  }

  /** Putting back the dropped empty piece restores the list. */
  lemma RestoreEmptyPiece(p: seq<string>)
    requires |p| >= 1 && |p[|p| - 1]| == 0
    ensures p == DropEmptyLast(p) + [""]
  {
    assert p == p[..|p| - 1] + [p[|p| - 1]];
  }

  /** Shared helper for the drains of both ranges (not about text): moving the first pending
      element to the end of those already delivered keeps the whole. */
  lemma ShiftFirst<T>(done: seq<T>, x: T, rest: seq<T>)
    ensures done + ([x] + rest) == (done + [x]) + rest
    ensures (done + [x])[|done|] == x
  {
    assert done + ([x] + rest) == (done + [x]) + rest;
  }
}
