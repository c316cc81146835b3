/** The generator-based ranges of utils/range.h.

    An iterator function (`IteratorFn<T>`) is a closure that keeps private state and, each time it
    is called, returns a pointer to its next element or nullptr once it is done. Dafny function
    values cannot keep mutable captured state, so the state is made explicit: an `IterFn<S, T>`
    holds the closure's code as a function from the captured state to a `Step`, which carries the
    element produced and the captured state after the call. */
module Range {
  import opened Text
  import opened Stream

  datatype Option<T> = None | Some(value: T)

  /** The outcome of one call of an iterator function: nullptr (`Done`), or a pointer to the
      element `value`, with the closure's captured state now `next`. */
  datatype Step<S, T> = Done | Yield(value: T, next: S)

  /** An iterator function: its code `call` and a bound `remaining` on how many more elements it
      can still produce from a given captured state. */
  datatype IterFn<!S(!new), T> = IterFn(call: S -> Step<S, T>, remaining: S -> nat) {
    /** Every element produced brings the function closer to returning nullptr. */
    ghost predicate Valid() {
      forall s :: call(s).Yield? ==> remaining(call(s).next) < remaining(s)
    }
  }

  /** The elements the iterator function returns, in order, when it is called from captured
      state `s` until it returns nullptr. */
  function Produce<S(!new), T>(fn: IterFn<S, T>, s: S): (r: seq<T>)
    requires fn.Valid()
    ensures |r| <= fn.remaining(s)
    ensures |r| == 0 <==> fn.call(s).Done?
    decreases fn.remaining(s)
  {
    match fn.call(s)
    case Done => []
    case Yield(x, next) => [x] + Produce(fn, next)
  }

  /** The state of a `GeneratingIterator`: `AtEnd` (no function, as `end()` builds it and as the
      iterator becomes once the function returns nullptr) or `Live` (the function's captured
      state and the element it last returned). */
  datatype IterState<S, T> = AtEnd | Live(state: S, value: T)

  /** `GeneratingIterator::advance` on a live function with captured state `s`: call it; nullptr
      drops the function. */
  function Pull<S(!new), T>(fn: IterFn<S, T>, s: S): (r: IterState<S, T>)
    ensures r.AtEnd? <==> fn.call(s).Done?
    ensures r.Live? ==> r.value == fn.call(s).value && r.state == fn.call(s).next
  {
    match fn.call(s)
    case Done => AtEnd
    case Yield(x, next) => Live(next, x)
  }

  /** The elements an iterator in state `it` still delivers: its current one, then what the
      function produces. */
  function Rest<S(!new), T>(fn: IterFn<S, T>, it: IterState<S, T>): seq<T>
    requires fn.Valid()
  {
    match it
    case AtEnd => []
    case Live(s, x) => [x] + Produce(fn, s)
  }

  /** Termination measure of an iterator. */
  function Size<S(!new), T>(fn: IterFn<S, T>, it: IterState<S, T>): nat
  {
    match it
    case AtEnd => 0
    case Live(s, _) => fn.remaining(s) + 1
  }

  /** Advancing a live iterator moves it on by exactly one element, and its measure drops. */
  lemma PullRest<S(!new), T>(fn: IterFn<S, T>, s: S)
    requires fn.Valid()
    ensures Rest(fn, Pull(fn, s)) == Produce(fn, s)
    ensures Size(fn, Pull(fn, s)) <= fn.remaining(s)
  {
  }

  /** `GeneratingIterator<T>`: a fat iterator that holds the iterator function itself. */
  class GeneratingIterator<S(!new), T> {
    /** The code of the iterator function this iterator was built from. */
    const fn: IterFn<S, T>
    /** `iter_fn_`: the function's captured state, or None for an empty `std::function`. */
    var captured: Option<S>
    /** `value_`: the element the function last returned, or None for a null pointer. */
    var value: Option<T>

    ghost predicate Valid()
      reads this
    {
      fn.Valid() && (captured.None? <==> value.None?)
    }

    function State(): IterState<S, T>
      reads this
      requires Valid()
    {
      if captured.Some? then Live(captured.value, value.value) else AtEnd
    }

    /** `GeneratingIterator(iter_fn)`: a non-null function is called at once for the first
        element; `nullptr` calls nothing and gives an end iterator. */
    constructor (fn: IterFn<S, T>, captured: Option<S>)
      requires fn.Valid()
      ensures Valid() && this.fn == fn
      ensures State() == if captured.None? then AtEnd else Pull(fn, captured.value)
    {
      this.fn := fn;
      this.captured := captured;
      this.value := None;
      new;
      if captured.Some? {
        Advance();
      }
    }

    /** `advance` (and `operator++`): calls the function; when it returns nullptr the function
        is dropped. Calling an empty `std::function` throws, so the iterator must be live. */
    method Advance()
      requires fn.Valid() && captured.Some?
      modifies this
      ensures Valid()
      ensures State() == Pull(fn, old(captured.value))
    {
      var step := fn.call(captured.value);
      if step.Done? {
        value := None;
        captured := None;
      } else {
        value := Some(step.value);
        captured := Some(step.next);
      }
    }

    /** `operator*`: asserts that there is a current value and returns it. */
    method Deref() returns (x: T)
      requires Valid() && value.Some?
      ensures State().Live? && x == State().value
      ensures Rest(fn, State()) == [x] + Produce(fn, State().state)
    {
      x := value.value;
    }

    /** `operator==`: if either function is empty both must be; otherwise the two must be the
        same iterator object. */
    predicate Equals(other: GeneratingIterator<S, T>)
      reads this, other
    {
      if captured.None? || other.captured.None? then captured.None? && other.captured.None?
      else this == other
    }

    /** `operator!=`. */
    predicate NotEquals(other: GeneratingIterator<S, T>)
      reads this, other
    {
      !Equals(other)
    }
  }

  /** Iterator equality in full: two end iterators are equal, an end iterator never equals a
      live one, two live iterators are equal only when they are one object, and `!=` is the
      negation of `==`. */
  lemma EqualityRules<S(!new), T>(a: GeneratingIterator<S, T>, b: GeneratingIterator<S, T>)
    requires a.Valid() && b.Valid()
    ensures a.Equals(b) <==> (a.State().AtEnd? && b.State().AtEnd?) || (a.State().Live? && a == b)
    ensures a.NotEquals(b) <==> !a.Equals(b)
    ensures a.Equals(b) <==> b.Equals(a)
  {
  }

  /** `GeneratingRange<T>`: a factory `genFn` (`gen_fn_`) that builds the captured state of a
      fresh iterator function on every `begin()`. The range itself never changes. */
  datatype GeneratingRange<!S(!new), T> = GeneratingRange(fn: IterFn<S, T>, genFn: () -> S)

  /** The elements one pass over the range delivers. */
  function Elements<S(!new), T>(r: GeneratingRange<S, T>): seq<T>
    requires r.fn.Valid()
  {
    Produce(r.fn, r.genFn())
  }

  /** `GeneratingRange::begin`: a new iterator over a freshly built function, which has already
      pulled the first element. */
  method Begin<S(!new), T>(r: GeneratingRange<S, T>) returns (it: GeneratingIterator<S, T>)
    requires r.fn.Valid()
    ensures fresh(it) && it.Valid() && it.fn == r.fn
    ensures it.State() == Pull(r.fn, r.genFn())
    ensures Rest(r.fn, it.State()) == Elements(r)
  {
    it := new GeneratingIterator(r.fn, Some(r.genFn()));
    PullRest(r.fn, r.genFn());
  }

  /** `GeneratingRange::end`: the iterator built from `nullptr`. */
  method End<S(!new), T>(r: GeneratingRange<S, T>) returns (it: GeneratingIterator<S, T>)
    requires r.fn.Valid()
    ensures fresh(it) && it.Valid() && it.fn == r.fn
    ensures it.State() == AtEnd
  {
    it := new GeneratingIterator(r.fn, None);
  }

  /** A `std::vector<T>` filled through a `std::back_inserter`. */
  class Vector<T> {
    var items: seq<T>

    constructor ()
      ensures items == []
    {
      items := [];
    }

    method PushBack(x: T)
      modifies this
      ensures items == old(items) + [x]
    {
      items := items + [x];
    }
  }

  /** `range::copy`: `std::copy(begin(), end(), out)` appends every element from `begin()` up to
      `end()`, in the order produced, to the output. */
  method Copy<S(!new), T>(r: GeneratingRange<S, T>, out: Vector<T>)
    requires r.fn.Valid()
    modifies out
    ensures out.items == old(out.items) + Elements(r)
  {
    ghost var total := out.items + Elements(r);
    var first := Begin(r);
    var last := End(r);
    while first.NotEquals(last)
      invariant first.Valid() && last.Valid() && first.fn == r.fn
      invariant first != last && last.State() == AtEnd
      invariant out.items + Rest(r.fn, first.State()) == total
      decreases Size(r.fn, first.State())
    {
      CopyStep(r.fn, first.State(), out.items, total);
      var x := first.Deref();
      out.PushBack(x);
      first.Advance();
    }
  }

  /** Appending the current element and advancing keeps what is appended plus what is left. */
  lemma CopyStep<S(!new), T>(fn: IterFn<S, T>, it: IterState<S, T>, items: seq<T>, total: seq<T>)
    requires fn.Valid() && it.Live? && items + Rest(fn, it) == total
    ensures (items + [it.value]) + Rest(fn, Pull(fn, it.state)) == total
    ensures Size(fn, Pull(fn, it.state)) < Size(fn, it)
  {
    PullRest(fn, it.state);
    ShiftFirst(items, it.value, Produce(fn, it.state));
  }

  /** `range::to_vec`: a new vector holding one full pass over the range. */
  method ToVec<S(!new), T>(r: GeneratingRange<S, T>) returns (v: seq<T>)
    requires r.fn.Valid()
    ensures v == Elements(r)
  {
    var out := new Vector<T>();
    Copy(r, out);
    v := out.items;
  }

  /** Each `begin()` starts a new pass, so a range can be drained again with the same result. */
  method ToVecTwice<S(!new), T>(r: GeneratingRange<S, T>) returns (first: seq<T>, second: seq<T>)
    requires r.fn.Valid()
    ensures first == second == Elements(r)
  {
    first := ToVec(r);
    second := ToVec(r);
  }

  // istream_lines

  /** The iterator function of `istream_lines`: its captured state is the stream it opened. A
      stream already at eof gives nullptr; otherwise one line is read, and a read that hits the end
      of the input without extracting a character gives nullptr too. (The closure's `cur_line`
      slot only receives the line: `getline` on a stream not at eof discards what it held.) */
  function LinesCall(st: IStream): (r: Step<IStream, string>)
    ensures st.eof ==> r.Done?
    ensures !st.eof ==> (r.Done? <==> NextLine(st, "").stream.eof && |NextLine(st, "").line| == 0)
    ensures r.Yield? ==> r.value == NextLine(st, "").line && r.next == NextLine(st, "").stream
  {
    if st.eof then Done
    else
      var g := NextLine(st, "");
      if g.stream.eof && |g.line| == 0 then Done else Yield(g.line, g.stream)
  }

  function LinesFn(): (fn: IterFn<IStream, string>)
    ensures fn.Valid()
  {
    IterFn(LinesCall, Remaining)
  }

  /** `istream_lines`: every `begin()` opens the stream afresh over the same text. */
  function IstreamLines(text: string): (r: GeneratingRange<IStream, string>)
    ensures r.fn.Valid() && r.genFn() == Open(text)
  {
    GeneratingRange(LinesFn(), () => Open(text))
  }

  /** A line followed by '\n' is the first line; what follows is read on its own. */
  lemma LinesAfter(a: string, b: string)
    requires NoNewline(a)
    ensures Lines(a + "\n" + b) == [a] + Lines(b)
  {
    SplitAfter(a, b);
    var p := SplitLines(b);
    if |p[|p| - 1]| == 0 {
      assert ([a] + p)[..|p|] == [a] + p[..|p| - 1];
    }
  }

  /** From a stream not at eof, the iterator function yields exactly `Lines` of what is left. */
  lemma {:induction false} LinesProduce(rest: string)
    ensures Produce(LinesFn(), IStream(rest, false)) == Lines(rest)
    decreases |rest|
  {
    var st := IStream(rest, false);
    var g := NextLine(st, "");
    NextLineReadsOneLine(st, "");
    if g.stream.eof {
      SplitSingle(rest);
      assert LinesFn().call(g.stream).Done?;
    } else {
      assert rest == g.line + "\n" + g.stream.rest;
      LinesAfter(g.line, g.stream.rest);
      LinesProduce(g.stream.rest);
    }
  }

  /** `istream_lines` yields each line of the text without its '\n', in order: a final
      unterminated line once, no empty line after a final '\n', nothing for an empty text. */
  lemma IstreamLinesYieldsLines(text: string)
    ensures Elements(IstreamLines(text)) == Lines(text)
  {
    LinesProduce(text);
  }

  /** Every `begin()` of `istream_lines` reopens the stream, so draining it twice gives the same
      lines both times. */
  method IstreamLinesTwice(text: string) returns (first: seq<string>, second: seq<string>)
    ensures first == second == Lines(text)
  {
    first, second := ToVecTwice(IstreamLines(text));
    IstreamLinesYieldsLines(text);
  }

  // transform

  /** The `transform` closure's captured state is the source iterator `it`; the `end` it is
      compared with is an end iterator, and a distinct object, so `it == end` holds exactly
      when `it` is at its end. A live `it` is dereferenced, mapped by `f`, and advanced. */
  function TransformCall<S(!new), T(!new), U>(src: IterFn<S, T>, f: T -> U, it: IterState<S, T>): (r: Step<IterState<S, T>, U>)
    ensures r.Done? <==> it.AtEnd?
    ensures r.Yield? ==> r.value == f(it.value) && r.next == Pull(src, it.state)
  {
    match it
    case AtEnd => Done
    case Live(s, x) => Yield(f(x), Pull(src, s))
  }

  function TransformFn<S(!new), T(!new), U>(src: IterFn<S, T>, f: T -> U): (fn: IterFn<IterState<S, T>, U>)
    ensures src.Valid() ==> fn.Valid()
  {
    IterFn(it => TransformCall(src, f, it), it => Size(src, it))
  }

  /** `transform(range, fn)`: building it calls nothing; its factory begins a pass over the
      source only when the new range's own `begin()` runs. */
  function Transform<S(!new), T(!new), U>(r: GeneratingRange<S, T>, f: T -> U): (t: GeneratingRange<IterState<S, T>, U>)
    ensures r.fn.Valid() ==> t.fn.Valid()
    ensures t.genFn() == Pull(r.fn, r.genFn())
  {
    GeneratingRange(TransformFn(r.fn, f), () => Pull(r.fn, r.genFn()))
  }

  /** `f` applied to each element, element for element. */
  function Map<T, U>(f: T -> U, s: seq<T>): (r: seq<U>)
    ensures |r| == |s|
    ensures forall i :: 0 <= i < |s| ==> r[i] == f(s[i])
  {
    if s == [] then [] else [f(s[0])] + Map(f, s[1..])
  }

  lemma {:induction false} TransformRest<S(!new), T(!new), U>(src: IterFn<S, T>, f: T -> U, it: IterState<S, T>)
    requires src.Valid()
    ensures Produce(TransformFn(src, f), it) == Map(f, Rest(src, it))
    decreases Size(src, it)
  {
    match it
    case AtEnd =>
    case Live(s, x) =>
      PullRest(src, s);
      TransformRest(src, f, Pull(src, s));
      assert ([x] + Produce(src, s))[1..] == Produce(src, s);
  }

  /** `transform` yields `f(x)` for each source element, once, in source order, and ends exactly
      when the source ends. */
  lemma TransformYieldsMap<S(!new), T(!new), U>(r: GeneratingRange<S, T>, f: T -> U)
    requires r.fn.Valid()
    ensures Elements(Transform(r, f)) == Map(f, Elements(r))
    ensures |Elements(Transform(r, f))| == |Elements(r)|
  {
    TransformRest(r.fn, f, Pull(r.fn, r.genFn()));
    PullRest(r.fn, r.genFn());
  }

  /** Two transforms in a row yield what one transform with the composed function yields. */
  lemma TransformComposes<S(!new), T(!new), U(!new), V>(r: GeneratingRange<S, T>, f: T -> U, g: U -> V)
    requires r.fn.Valid()
    ensures Elements(Transform(Transform(r, f), g)) == Elements(Transform(r, x => g(f(x))))
  {
    TransformYieldsMap(r, f);
    TransformYieldsMap(Transform(r, f), g);
    TransformYieldsMap(r, x => g(f(x)));
  }
}
