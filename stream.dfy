/** An input stream as far as the line readers use it: the characters not yet extracted and the
    eof flag, read with `std::getline` and the delimiter '\n' (section [string.io] of the C++
    standard). The fail and bad flags are not modelled: neither reader looks at them. */
module Stream {
  import opened Text

  /** What a reader can observe of a stream: the characters still to be extracted, and whether
      an extraction has already run into the end of the input. */
  datatype IStream = IStream(rest: string, eof: bool)

  /** The stream after one `getline`, and the string it leaves in its output argument. */
  datatype GetlineResult = GetlineResult(stream: IStream, line: string)

  /** A fresh stream over `text`: nothing extracted yet, and eof not set, even for an empty text. */
  function Open(text: string): IStream
  {
    IStream(text, false)
  }

  /** Termination measure: every extraction that does not stop at eof either consumes a
      character or sets eof. */
  function Remaining(st: IStream): nat
  {
    |st.rest| + if st.eof then 0 else 1
  }

  /** `std::getline(st, str)`. On a stream whose eof flag is already set nothing is extracted and
      `str` is left as it was. Otherwise the characters up to the first '\n' are extracted and
      become the line, the '\n' is extracted and dropped, and when the input ends before any '\n'
      the line is the rest of the input and eof is set, even if that rest is empty. */
  function NextLine(st: IStream, str: string): (r: GetlineResult)
    ensures st.eof ==> r.stream == st && r.line == str
    ensures !st.eof ==> Remaining(r.stream) < Remaining(st)
  {
    if st.eof then GetlineResult(st, str)
    else
      var k := LineEnd(st.rest);
      if k < |st.rest| then GetlineResult(IStream(st.rest[k + 1..], false), st.rest[..k])
      else GetlineResult(IStream([], true), st.rest)
  }

  /** On a stream not at eof, `getline` extracts exactly one line and its '\n': the line holds
      no '\n', the extracted text is the line followed by '\n' unless eof was reached, and eof is
      reached exactly when no '\n' was left. What the output argument held does not matter. */
  lemma NextLineReadsOneLine(st: IStream, str: string)
    requires !st.eof
    ensures var r := NextLine(st, str);
      && NoNewline(r.line)
      && st.rest == r.line + (if r.stream.eof then "" else "\n") + r.stream.rest
      && (r.stream.eof <==> NoNewline(st.rest))
      && (r.stream.eof ==> r.stream.rest == [])
      && r == NextLine(st, "")
  {
    var k := LineEnd(st.rest);
    if k < |st.rest| {
      assert st.rest == st.rest[..k] + "\n" + st.rest[k + 1..];
    } else {
      assert st.rest == st.rest + "" + [];
    }
  }

  /** `getline` from position `pos` of `data` stops at the first '\n': an index `i` with no '\n'
      between `pos` and it, and '\n' or the end of input at it, is where the line ends. */
  lemma NextLineAt(data: string, pos: nat, i: nat, str: string)
    requires pos <= i <= |data| && NoNewline(data[pos..i])
    requires i < |data| ==> data[i] == '\n'
    ensures NextLine(IStream(data[pos..], false), str)
      == if i < |data| then GetlineResult(IStream(data[i + 1..], false), data[pos..i])
         else GetlineResult(IStream(data[i..], true), data[pos..i])
  {
    var rest, k := data[pos..], i - pos;
    assert rest[..k] == data[pos..i];
    LineEndUnique(rest, k);
    if i < |data| {
      assert rest[k + 1..] == data[i + 1..];
    } else {
      assert rest == data[pos..i];
      assert data[i..] == [];
    }
  }

  /** A stream object that several readers share by reference: the input, the read position
      and the eof flag. */
  class InStream {
    const data: string
    var pos: nat
    var eof: bool

    /** The position lies within the input, and eof is set only once all of it is extracted. */
    ghost predicate Valid()
      reads this
    {
      pos <= |data| && (eof ==> pos == |data|)
    }

    function State(): IStream
      reads this
      requires Valid()
    {
      IStream(data[pos..], eof)
    }

    /** A stream over an in-memory text, as `std::stringstream::str` sets it up. */
    constructor (text: string)
      ensures Valid() && data == text
      ensures State() == Open(text)
    {
      data := text;
      pos := 0;
      eof := false;
    }

    /** `std::getline(*this, str)`: extracts characters one at a time up to the delimiter. */
    method Getline(str: string) returns (line: string)
      requires Valid()
      modifies this
      ensures Valid()
      ensures GetlineResult(State(), line) == NextLine(old(State()), str)
    {
      if eof {
        return str;
      }
      var i := pos;
      while i < |data| && data[i] != '\n'
        invariant pos <= i <= |data|
        invariant NoNewline(data[pos..i])
      {
        assert data[pos..i + 1] == data[pos..i] + [data[i]];
        i := i + 1;
      }
      NextLineAt(data, pos, i, str);
      line := data[pos..i];
      if i < |data| {
        pos := i + 1;
      } else {
        pos := i;
        eof := true;
      }
    }
  }
}
