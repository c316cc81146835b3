# Pull-based ranges and line readers, modelled in Dafny

This project models the small range library in `src/utils` of lstm-play. The library has two
independent pull-based ways to walk a sequence of values.

- `utils::range` (`range.h`). A `GeneratingIterator` wraps an iterator function. Each call
  returns a pointer to the next element, or nullptr once the sequence is done. A
  `GeneratingRange` stores a factory that builds a fresh iterator function on every `begin()`.
  On top of these sit `istream_lines` (the lines of a stream), `transform` (a lazy map) and the
  drains `copy` and `to_vec`.
- `utils::io` (`io.h`, `io.cc`). A `LineRange` borrows an `std::istream` and keeps the line last
  read in `value_`. A `line_iter` holds only a pointer to its range, and null means end.

The files:

- `text.dfy` (module `Text`) is the pure view of line-oriented text. `LineEnd` finds the first
  '\n'. `SplitLines` gives the pieces between '\n' characters, and keeps an empty last piece.
  `Lines` drops that empty last piece. `JoinLines` puts pieces back together.
- `stream.dfy` (module `Stream`) models an input stream. Its pure view is the text not yet
  extracted plus the eof flag. `NextLine` is `std::getline` with delimiter '\n', following
  section [string.io] of the C++ standard. The class `InStream` is a shared stream object whose
  `Getline` scans one character at a time, and it is proved equal to `NextLine`.
- `range.dfy` (module `Range`) models `range.h`.
  - A C++ closure with mutable captures becomes explicit captured state `S` plus a step function
    `call: S -> Step<S, T>`. `Step` is `Done` (nullptr) or `Yield(value, next)`.
  - `remaining: S -> nat` bounds how many more elements the function can produce.
  - `GeneratingIterator` is a class with the fields `captured` (`iter_fn_`, held as the closure's captured state) and `value`
    (`value_`), both of which its methods update.
  - `GeneratingRange` never changes after construction, so it is a datatype holding the factory.
- `io.dfy` (module `Io`) models `io.h` and `io.cc`. `LineRange` and `LineIter` are classes. The
  `InStream` is shared by reference, so every iterator and every `begin()` moves one read position.

The two line readers behave differently, and the model keeps that difference:

- `istream_lines` yields `Lines(text)`. It gives no empty line after a final '\n' and nothing for
  an empty text.
- A pass over a fresh `LineRange` yields `SplitLines(text)`. `"a\n"` gives `["a", ""]` and `""`
  gives `[""]`. This happens because `advance` reports a line after any `getline`, and because
  the iterator constructor ignores the result of its first `advance`.

Three behaviours of the code are easy to miss, and the model states each one:

- A pass over a fresh `LineRange` yields a trailing `""` when the text ends in '\n', and `[""]`
  for an empty text (`io.cc:13`, `io.cc:38-44`). `Io.DrainFresh` states this.
- `GeneratingRange::begin` calls the factory afresh (`range.h:109-111`). A pass starts over
  because the factory builds the same starting function each time, as both factories of the
  library do. This is what the comment "A range must be re-usable" (`range.h:10`) asks
  for (`Range.ToVecTwice`, `Range.IstreamLinesTwice`). `LineRange::begin` instead advances the
  shared stream (`io.cc:46-48`), so a second pass reads on. It repeats the stale `value_` only
  once the stream is at eof (`Io.DrainAtEof`, `Io.TwoPasses`).
- `LineRange` borrows its stream by reference (`io.h:36`), so every iterator and every `begin()`
  share one read position.

## Model

| member | source | states |
|---|---|---|
| Text.LineEnd | src/utils/include/utils/range.h:144 | `getline` stops at the first '\n': the index is within the text, no '\n' comes before it, and a '\n' is at it unless it is the end |
| Text.LineEndUnique | src/utils/include/utils/range.h:144 | any index with no '\n' before it and '\n' or the end at it is the one where `getline` stops |
| Text.SplitLinesNoNewline | src/utils/src/io.cc:42 | no piece of the split text holds a '\n' |
| Text.SplitSingle | src/utils/src/io.cc:42 | a text free of '\n' is a single piece |
| Text.SplitAfter | src/utils/src/io.cc:42 | a '\n'-free line followed by '\n' is the first piece, and the rest splits on its own |
| Text.JoinSplit | src/utils/src/io.cc:42 | joining the pieces with '\n' gives back the text exactly |
| Text.SplitJoin | src/utils/src/io.cc:42 | splitting a join of one or more '\n'-free lines gives back those lines |
| Text.SplitAppendNewline | src/utils/src/io.cc:42-43 | a final '\n' adds exactly one empty piece at the end |
| Text.SplitLastEmpty | src/utils/include/utils/range.h:145-147 | the last piece is empty exactly when the text is empty or ends in '\n' |
| Text.LinesAsStrippedSplit | src/utils/include/utils/range.h:141-148 | `Lines` of an empty text is empty; otherwise it is the pieces of the text without its final '\n' |
| Text.LinesRoundTrip | src/utils/include/utils/range.h:141-148 | joining `Lines(s)` with '\n' gives `s` minus one final '\n', and no line holds a '\n' |
| Text.LinesEmpty | src/utils/include/utils/range.h:141-147 | `Lines` yields nothing exactly for the empty text |
| Text.SplitLinesVersusLines | src/utils/include/utils/range.h:145-147 | `SplitLines` is `Lines` plus one empty piece when the text is empty or ends in '\n', and equals `Lines` otherwise |
| Stream.NextLine | src/utils/src/io.cc:42 | `getline` on a stream at eof changes nothing and keeps the output string; otherwise it consumes input or sets eof |
| Stream.NextLineReadsOneLine | src/utils/include/utils/range.h:144 | on a stream not at eof, `getline` extracts one '\n'-free line and its '\n' (none when the input ends first); eof is set exactly when no '\n' was left, and then nothing is left unread; the old output string does not matter |
| Stream.NextLineAt | src/utils/src/io.cc:42 | reading from a position stops at the first '\n' after it: the line is the text up to that '\n' and reading resumes after it, or, with no '\n', the line is the rest and eof is set |
| Stream.InStream.constructor | src/utils/test/test.cpp:11-12 | a stream over an in-memory text starts with the whole text unread and eof clear, even when the text is empty |
| Stream.InStream.Getline | src/utils/src/io.cc:42 | the character-by-character extraction leaves the stream and output string exactly as `NextLine` says, and eof is set only once the whole input is extracted |
| Range.Produce | src/utils/include/utils/range.h:42-46 | the elements an iterator function returns before nullptr: at most its bound, and none exactly when the first call returns nullptr |
| Range.Pull | src/utils/include/utils/range.h:67-73 | advancing drops the function exactly when it returns nullptr; otherwise the iterator holds the returned element and the function's new state |
| Range.PullRest | src/utils/include/utils/range.h:67-73 | advancing moves on by exactly one element: what the iterator then delivers is what the function produces, and its measure drops |
| Range.GeneratingIterator.constructor | src/utils/include/utils/range.h:88-93 | a non-null function is called once at once for the first element; nullptr calls nothing and gives an end iterator |
| Range.GeneratingIterator.Advance | src/utils/include/utils/range.h:62-73 | the new iterator state is one call of the function on its old captured state, with the function dropped on nullptr |
| Range.GeneratingIterator.Deref | src/utils/include/utils/range.h:57-60 | it needs a current value and returns the iterator's current element, which is the first of those it still delivers |
| Range.EqualityRules | src/utils/include/utils/range.h:75-86 | two end iterators are equal; an end iterator never equals a live one; two live iterators are equal only when they are one object; `!=` negates `==`; `==` is symmetric |
| Range.Begin | src/utils/include/utils/range.h:109-111 | a new iterator over a freshly built function, which has already pulled the first element, so it delivers one whole pass |
| Range.End | src/utils/include/utils/range.h:113-115 | a new iterator built from nullptr, in the end state |
| Range.Vector.PushBack | src/utils/include/utils/range.h:32 | the back inserter appends one element |
| Range.Copy | src/utils/include/utils/range.h:25-28 | every element from `begin()` to `end()` is appended to the output, in production order, after what it already held |
| Range.CopyStep | src/utils/include/utils/range.h:27 | appending the current element and advancing keeps the appended elements plus those still to come unchanged, and the measure drops |
| Range.ToVec | src/utils/include/utils/range.h:30-34 | the vector holds exactly one full pass over the range |
| Range.ToVecTwice | src/utils/include/utils/range.h:109-111 | every `begin()` starts a new pass, so draining a range twice gives the same elements |
| Range.LinesCall | src/utils/include/utils/range.h:141-148 | the `istream_lines` closure returns nullptr at eof, and when `getline` hits the end having read nothing; otherwise it returns the line read, and the stream moves on |
| Range.LinesFn | src/utils/include/utils/range.h:140-149 | every line the `istream_lines` closure returns consumes input or sets eof, so the closure ends |
| Range.IstreamLines | src/utils/include/utils/range.h:132-151 | every `begin()` of `istream_lines` opens a fresh stream over the same text |
| Range.LinesAfter | src/utils/include/utils/range.h:141-148 | a '\n'-free line followed by '\n' is the first line, and what follows is read on its own |
| Range.LinesProduce | src/utils/include/utils/range.h:141-148 | from a stream not at eof, the closure yields exactly `Lines` of the unread text |
| Range.IstreamLinesYieldsLines | src/utils/include/utils/range.h:132-151 | `istream_lines` yields each line without its '\n', in order, with no empty line after a final '\n' and nothing for an empty text |
| Range.IstreamLinesTwice | src/utils/include/utils/range.h:139 | draining `istream_lines` twice gives `Lines(text)` both times |
| Range.TransformCall | src/utils/include/utils/range.h:164-170 | the `transform` closure returns nullptr exactly when the source iterator is at its end; otherwise it returns `f` of the current source element and advances the source iterator |
| Range.TransformFn | src/utils/include/utils/range.h:163-171 | the `transform` closure ends: each element it yields advances the source iterator |
| Range.Transform | src/utils/include/utils/range.h:158-173 | building the range calls nothing; its factory begins a pass over the source, which pulls the first source element |
| Range.Map | src/utils/include/utils/range.h:167-168 | the reference map: same length, and element i is `f` of source element i |
| Range.TransformRest | src/utils/include/utils/range.h:163-171 | from any source iterator state, the closure yields `f` of each element that iterator still delivers, in order |
| Range.TransformYieldsMap | src/utils/include/utils/range.h:158-173 | `transform` yields `f(x)` for each source element once, in source order, and has exactly as many elements as the source |
| Range.TransformComposes | src/utils/include/utils/range.h:158-173 | two transforms in a row yield what one transform with the composed function yields |
| Io.AdvanceStep | src/utils/src/io.cc:38-44 | `advance` reports a line exactly when the stream is not at eof; at eof it changes neither the stream nor `value_`; otherwise the stream moves on |
| Io.AdvanceReadsOneLine | src/utils/src/io.cc:38-44 | a reported line is one '\n'-free line taken from the input with its '\n'; eof is set exactly when no '\n' was left, and then nothing is left unread; the outcome does not depend on what `value_` held |
| Io.ReadRestSplits | src/utils/src/io.cc:22-29 | from a stream not at eof, the lines still delivered are the '\n'-separated pieces of the unread text, a trailing empty piece included |
| Io.DrainFresh | src/utils/src/io.cc:11-15 | a pass over a fresh stream yields `SplitLines(text)`, that is `Lines(text)` plus `""` when the text is empty or ends in '\n' |
| Io.DrainAtEof | src/utils/src/io.cc:46-48 | a pass over a stream already at eof does not rewind and delivers the stale `value_` once |
| Io.LineRange.constructor | src/utils/src/io.cc:36 | the range borrows the given stream, reads nothing, and starts with an empty `value_` |
| Io.LineRange.Advance | src/utils/src/io.cc:38-44 | the result, new stream and new `value_` are those of `AdvanceStep` from the old stream and `value_` |
| Io.LineRange.Begin | src/utils/src/io.cc:46-48 | a new iterator attached to this range, which has advanced the shared stream once (no rewind) |
| Io.LineRange.End | src/utils/src/io.cc:50-52 | a new iterator with a null parent that reads nothing |
| Io.LineIter.constructor | src/utils/src/io.cc:11-15 | attaching to a range advances it once and ignores the result; a null parent reads nothing |
| Io.LineIter.Deref | src/utils/src/io.cc:17-20 | an attached iterator returns its range's current line |
| Io.LineIter.Increment | src/utils/src/io.cc:22-29 | the range advances once, and the iterator becomes end exactly when the range reports no line |
| Io.EqualityRules | src/utils/src/io.cc:31-33 | all end iterators are equal; two iterators of one range are equal; end never equals attached; `!=` negates `==` |
| Io.DerefShared | src/utils/include/utils/io.h:37 | two attached iterators of one range dereference to the same line |
| Io.DrainStateStep | src/utils/src/io.cc:22-29 | one dereference and `++` of an attached iterator keeps delivered plus still-to-come lines equal to the whole pass |
| Io.Drain | src/utils/test/test.cpp:15 | `std::copy(begin(), end(), out)` over a `LineRange` delivers `DrainFrom` of its starting stream and `value_`, leaves the stream fully read with eof set, and leaves `value_` holding the last line |
| Io.DrainThreeLines | src/utils/test/test.cpp:11-17 | three '\n'-free lines joined by '\n' are drained back as exactly those three lines |
| Io.ThreeLines | src/utils/test/test.cpp:12 | three '\n'-free lines joined by '\n' split into exactly those three |
| Io.DrainExample | src/utils/test/test.cpp:11-17 | draining a range over "This is line1\nLine2\nLine3" gives ["This is line1", "Line2", "Line3"] |
| Io.TwoPasses | src/utils/src/io.cc:46-48 | a first pass gives `SplitLines(text)`; a second pass over the same range does not rewind and gives only the last line again |

## Left out

- Stream fail and bad bits, and I/O errors, are not modelled. Only the eof flag steers either reader. On a stream whose fail bit is set while eof is clear, such as a file that failed to open, neither reader ever ends. The `istream_lines` closure returns the stale `cur_line` forever, and `LineRange::advance` returns true forever. The model's streams cannot fail, so its `Remaining` measure always drops.
- Range.ToVecTwice: the factory `gen_fn_` is modelled as a pure function, so every `begin()` gets the same starting state. A `std::function` factory with mutable state of its own is not modelled. The re-usability that `range.h:10` asks for is therefore assumed of the factory, not proved of `GeneratingRange`. `Range.IstreamLinesTwice` relies on this too, although `istream_lines` itself opens a new stream on every call and meets it.
- Range.Produce: iterator functions with no decreasing bound are not modelled. `IterFn.Valid` requires that every yielded element lowers `remaining`. The source accepts any function, and its `copy`/`to_vec` loop forever on an endless one. `GeneratingIterator`, `Begin`, `Copy` and `ToVec` share this precondition.
- Real stream construction is left out. `std::make_shared<StreamT>(args...)` in `istream_lines` and files opened from disk become an in-memory text over which every `begin()` opens a fresh `IStream`.
- The `transform` closure's `static_cast<int*>(nullptr)` type-checks only when the element type is `int`. The model gives the intended "no more elements" result for any element type.
- Lifetime and aliasing hazards are not modelled.
  - `transform` captures the source range and `fn` by reference, so they may dangle.
  - `value_` points into closure state that is duplicated when a `GeneratingIterator` is copied.
  - The model copies the element out instead of pointing into the closure.
- `GeneratingIterator{nullptr}` leaves `value_` uninitialised. The model gives it no value (`None`).
- Advancing a `GeneratingIterator` whose function is empty would throw `std::bad_function_call`. In the model this is a precondition of `Advance`, which the code's own callers never violate.
- `operator++` of both iterators returns a copy of the iterator. Callers ignore it, so `Advance` and `Increment` return nothing.
- The closures' `cur_line` and `cur` slots are not separate state. The slot's content is what the step returns, and `getline` on a stream not at eof ignores what the slot held.
- Range.Transform: laziness is shown only by structure. Building the range is a pure function that calls nothing, and the source's first element is pulled inside the factory. Nothing counts calls.
- Io.LineRange.Advance: C++ access control is not expressible. That `advance` is private and only the friend `line_iter` may call it is not enforced.
- The `range` base class's `static_assert`s and `iterator_traits` plumbing are compile-time checks with no runtime behaviour.
- Concurrency is left out. The ranges are documented as not safe for concurrent use, and nothing runs concurrently.
- `src/main.cc` is not part of this model. It holds command-line parsing, file opening, a dictionary lookup in an external library, and neural-network training.
