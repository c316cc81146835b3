/** The stream-borrowing line range of utils/io.h and utils/src/io.cc.

    A `LineRange` borrows a stream by reference and keeps the line last read (`value_`); a
    `line_iter` is a thin view holding only a pointer to its range. All progress lives in the
    range and its stream, so every iterator and every `begin()` share one read position. */
module Io {
  import opened Text
  import opened Stream

  /** The outcome of `LineRange::advance`: its result, the stream after it, and `value_`. */
  datatype Advanced = Advanced(hasNext: bool, stream: IStream, value: string)

  /** `LineRange::advance` on a stream in state `st` with `value_` holding `value`: at eof it
      reports no line and touches nothing; otherwise it reads one line with `getline` into
      `value_` and reports a line, even when the read hit the end of input having read nothing. */
  function AdvanceStep(st: IStream, value: string): (r: Advanced)
    ensures r.hasNext <==> !st.eof
    ensures !r.hasNext ==> r.stream == st && r.value == value
    ensures r.hasNext ==> Remaining(r.stream) < Remaining(st)
  {
    if st.eof then Advanced(false, st, value)
    else
      var g := NextLine(st, value);
      Advanced(true, g.stream, g.line)
  }

  /** When `advance` reports a line, it has extracted exactly that line and its '\n' (unless the
      input ended first), whatever `value_` held before. */
  lemma AdvanceReadsOneLine(st: IStream, value: string)
    requires !st.eof
    ensures var r := AdvanceStep(st, value);
      && NoNewline(r.value)
      && st.rest == r.value + (if r.stream.eof then "" else "\n") + r.stream.rest
      && (r.stream.eof <==> NoNewline(st.rest))
      && (r.stream.eof ==> r.stream.rest == [])
      && r == AdvanceStep(st, "")
  {
    NextLineReadsOneLine(st, value);
  }

  /** The lines an attached iterator delivers after its current one: each `++` that reads a
      line is followed by one more dereference; the first `++` at eof ends the iteration. */
  function ReadRest(st: IStream): seq<string>
    decreases Remaining(st)
  {
    if st.eof then []
    else
      var g := NextLine(st, "");
      [g.line] + ReadRest(g.stream)
  }

  /** Everything one pass from `begin()` to `end()` delivers when the stream is in state `st` and
      `value_` holds `value`: `begin()` advances once and the iterator is live whatever that
      returned, so the line then in `value_` is always delivered. */
  function DrainFrom(st: IStream, value: string): seq<string>
  {
    var a := AdvanceStep(st, value);
    [a.value] + ReadRest(a.stream)
  }

  /** Unfolding `ReadRest` by one advance; `getline` on a stream not at eof ignores what its
      output argument held. */
  lemma ReadRestStep(st: IStream, value: string)
    ensures var a := AdvanceStep(st, value);
      ReadRest(st) == if a.hasNext then [a.value] + ReadRest(a.stream) else []
  {
  }

  /** From a stream not at eof, the lines delivered are exactly the pieces between '\n'
      characters, a trailing empty piece included. */
  lemma {:induction false} ReadRestSplits(rest: string)
    ensures ReadRest(IStream(rest, false)) == SplitLines(rest)
    decreases |rest|
  {
    var g := NextLine(IStream(rest, false), "");
    NextLineReadsOneLine(IStream(rest, false), "");
    if g.stream.eof {
      SplitSingle(rest);
    } else {
      SplitAfter(g.line, g.stream.rest);
      ReadRestSplits(g.stream.rest);
    }
  }

  /** A pass over a freshly opened stream yields `SplitLines` of its text: a text ending in '\n'
      yields a final empty line, and an empty text yields one empty line. */
  lemma DrainFresh(text: string, value: string)
    ensures DrainFrom(Open(text), value) == SplitLines(text)
    ensures DrainFrom(Open(text), value) == if |text| == 0 || text[|text| - 1] == '\n' then Lines(text) + [""] else Lines(text)
  {
    ReadRestSplits(text);
    SplitLinesVersusLines(text);
  }

  /** A pass over a stream already at eof does not rewind: it delivers the stale `value_` once. */
  lemma DrainAtEof(rest: string, value: string)
    ensures DrainFrom(IStream(rest, true), value) == [value]
  {
  }

  /** `LineRange`. */
  class LineRange {
    /** `in_`: the stream, borrowed by reference. */
    const input: InStream
    /** `value_`: the line last read. */
    var value: string

    /** `LineRange(in)`: reads nothing; `value_` starts as the empty string. */
    constructor (input: InStream)
      ensures this.input == input && value == ""
    {
      this.input := input;
      value := "";
    }

    /** `advance` (private; only `line_iter` calls it). */
    method Advance() returns (hasNext: bool)
      requires input.Valid()
      modifies this, input
      ensures input.Valid()
      ensures Advanced(hasNext, input.State(), value) == AdvanceStep(old(input.State()), old(value))
    {
      if input.eof {
        return false;
      }
      value := input.Getline(value);
      return true;
    }

    /** `begin`: an iterator attached to this range, which has already advanced it once. A second
        `begin()` does not rewind: it reads on from the shared stream. */
    method Begin() returns (it: LineIter)
      requires input.Valid()
      modifies this, input
      ensures fresh(it) && it.parent == this
      ensures input.Valid()
      ensures AdvanceStep(old(input.State()), old(value)) == Advanced(!old(input.eof), input.State(), value)
    {
      it := new LineIter(this);
    }

    /** `end`: the iterator with a null parent; it reads nothing. */
    method End() returns (it: LineIter)
      ensures fresh(it) && it.parent == null
    {
      it := new LineIter(null);
    }
  }

  /** `detail::line_iter`: its only state is a pointer to its range; null means end. */
  class LineIter {
    var parent: LineRange?

    /** `line_iter(parent)`: attaching to a range advances it once and ignores the result. */
    constructor (parent: LineRange?)
      requires parent != null ==> parent.input.Valid()
      modifies if parent != null then {parent, parent.input} else {}
      ensures this.parent == parent
      ensures parent != null ==> parent.input.Valid()
      ensures parent != null ==>
        AdvanceStep(old(parent.input.State()), old(parent.value))
        == Advanced(!old(parent.input.eof), parent.input.State(), parent.value)
    {
      this.parent := parent;
      new;
      if parent != null {
        var ignored := parent.Advance();
      }
    }

    /** `operator*`: asserts the iterator is attached and returns a copy of its range's line. */
    method Deref() returns (line: string)
      requires parent != null
      ensures line == parent.value
    {
      line := parent.value;
    }

    /** `operator++`: asserts the iterator is attached and advances the range; the iterator
        becomes end exactly when the range reports no line. */
    method Increment()
      requires parent != null && parent.input.Valid()
      modifies this, parent, parent.input
      ensures old(parent).input.Valid()
      ensures var a := AdvanceStep(old(parent.input.State()), old(parent.value));
        && old(parent).input.State() == a.stream
        && old(parent).value == a.value
        && parent == if a.hasNext then old(parent) else null
    {
      var hasNext := parent.Advance();
      if !hasNext {
        parent := null;
      }
    }

    /** `operator==`: the two parent pointers are equal. */
    predicate Equals(other: LineIter)
      reads this, other
    {
      parent == other.parent
    }

    /** `operator!=`. */
    predicate NotEquals(other: LineIter)
      reads this, other
    {
      !Equals(other)
    }
  }

  /** Iterator equality is parent equality: all end iterators are equal, any two iterators of
      the same range are equal, an end iterator never equals an attached one, and `!=` is the
      negation of `==`. */
  lemma EqualityRules(a: LineIter, b: LineIter)
    ensures a.parent == null && b.parent == null ==> a.Equals(b)
    ensures a.parent != null && a.parent == b.parent ==> a.Equals(b)
    ensures (a.parent == null) != (b.parent == null) ==> !a.Equals(b)
    ensures a.NotEquals(b) <==> !a.Equals(b)
  {
  }

  /** Two attached iterators of one range dereference to the same line: the line lives in the
      range, not in the iterator. */
  method DerefShared(a: LineIter, b: LineIter) returns (x: string, y: string)
    requires a.parent != null && a.parent == b.parent
    ensures x == y
  {
    x := a.Deref();
    y := b.Deref();
  }

  /** Where a pass stands: `lines` delivered so far out of `total`; while the iterator is
      attached, the line in `value_` and what the stream still holds are the rest; once it has
      detached, the stream is at eof and `value_` holds the last line delivered. */
  ghost predicate DrainState(attached: bool, st: IStream, value: string, lines: seq<string>, total: seq<string>)
  {
    if attached then lines + ([value] + ReadRest(st)) == total
    else st.eof && lines == total && |lines| >= 1 && value == lines[|lines| - 1]
  }

  /** One dereference and `++` of an attached iterator keeps `DrainState`. */
  lemma DrainStateStep(st: IStream, value: string, lines: seq<string>, total: seq<string>)
    requires DrainState(true, st, value, lines, total)
    ensures var a := AdvanceStep(st, value);
      DrainState(a.hasNext, a.stream, a.value, lines + [value], total)
  {
    ReadRestStep(st, value);
    ShiftFirst(lines, value, ReadRest(st));
  }

  /** `std::copy(range.begin(), range.end(), out)` over a `LineRange`: it delivers `DrainFrom`
      of the stream and `value_` it starts from, leaves the stream at eof and `value_` holding the
      last line delivered. */
  method Drain(range: LineRange) returns (lines: seq<string>)
    requires range.input.Valid()
    modifies range, range.input
    ensures range.input.Valid() && range.input.State() == IStream([], true)
    ensures lines == DrainFrom(old(range.input.State()), old(range.value))
    ensures |lines| >= 1 && range.value == lines[|lines| - 1]
  {
    ghost var total := DrainFrom(range.input.State(), range.value);
    var first := range.Begin();
    var last := range.End();
    lines := [];
    while first.NotEquals(last)
      invariant range.input.Valid() && last.parent == null && first != last
      invariant first.parent == range || first.parent == null
      invariant DrainState(first.parent != null, range.input.State(), range.value, lines, total)
      decreases (if first.parent == null then 0 else 1) + Remaining(range.input.State())
    {
      DrainStateStep(range.input.State(), range.value, lines, total);
      var line := first.Deref();
      lines := lines + [line];
      first.Increment();
    }
  }

  /** A pass over a `LineRange` whose stream holds three lines, the last one unterminated,
      delivers exactly those three lines. */
  method DrainThreeLines(a: string, b: string, c: string) returns (actual: seq<string>)
    requires NoNewline(a) && NoNewline(b) && NoNewline(c)
    ensures actual == [a, b, c]
  {
    var ss := new InStream(a + "\n" + b + "\n" + c);
    var range := new LineRange(ss);
    actual := Drain(range);
    DrainFresh(a + "\n" + b + "\n" + c, "");
    ThreeLines(a, b, c);
  }

  /** The unit test's case: a pass over "This is line1\nLine2\nLine3" delivers its three lines. */
  method DrainExample() returns (actual: seq<string>)
    ensures actual == ["This is line1", "Line2", "Line3"]
  {
    actual := DrainThreeLines("This is line1", "Line2", "Line3");
  }

  /** Three lines free of '\n', joined by '\n', split back into themselves. */
  lemma ThreeLines(a: string, b: string, c: string)
    requires NoNewline(a) && NoNewline(b) && NoNewline(c)
    ensures SplitLines(a + "\n" + b + "\n" + c) == [a, b, c]
  {
    var bc := b + "\n" + c;
    calc {
      SplitLines(a + "\n" + b + "\n" + c);
      { assert a + "\n" + b + "\n" + c == a + "\n" + bc; }
      SplitLines(a + "\n" + bc);
      { SplitAfter(a, bc); }
      [a] + SplitLines(bc);
      { SplitAfter(b, c); SplitSingle(c); }
      [a] + ([b] + [c]);
      [a, b, c];
    }
  }

  /** Two passes over one `LineRange`: the first delivers `SplitLines` of the text; the second
      does not rewind and delivers only the stale last line again. */
  method TwoPasses(text: string) returns (first: seq<string>, second: seq<string>)
    ensures first == SplitLines(text)
    ensures second == [first[|first| - 1]]
  {
    var ss := new InStream(text);
    var range := new LineRange(ss);
    first := Drain(range);
    DrainFresh(text, "");
    second := Drain(range);
  }
}
