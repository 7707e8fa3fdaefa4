/** The behaviour of a `FileIter` as functions on values.

    The wrapped iterable is a finite sequence `src` of raw lines. What an iterator has
    done so far is a `Cursor`: how many raw lines it has consumed (the index of the next
    one), the last consumed line after stripping (`None` before the first), and the line
    counter. The class `FileIterObject.FileIter` is proved to follow these functions step
    by step; the lemmas below state what the docstrings of file_iter.py promise. */
module LineIter {
  import opened Results
  import opened Whitespace

  /** The standing filter: `None` keeps every line. */
  type Filter = Option<string -> bool>

  datatype Cursor = Cursor(consumed: nat, current: Option<string>, position: int)

  /** `is_data`: the line is neither empty nor a comment. */
  predicate IsData(line: string): (r: bool)
    ensures r <==> line != [] && !("#" <= line)
  {
    |line| > 0 && line[0] != '#'
  }

  /** Whether the filter lets a stripped line through. */
  predicate Accepts(keep: Filter, line: string) {
    match keep
    case None => true
    case Some(f) => f(line)
  }

  /** The filter that `filtered_next(f)` effectively applies: the standing one, then `f`. */
  function Both(keep: Filter, f: string -> bool): string -> bool {
    line => Accepts(keep, line) && f(line)
  }

  /** A newly constructed iterator. */
  function Fresh(position: int): Cursor {
    Cursor(0, None, position)
  }

  /** The producer has nothing left and nothing is cached. */
  predicate Exhausted(src: seq<string>, c: Cursor) {
    c.consumed >= |src|
  }

  /** The source lines as `__next__` hands them out: each one stripped. */
  function StripAll(src: seq<string>): (r: seq<string>)
    ensures |r| == |src|
  {
    if src == [] then [] else StripAll(src[..|src| - 1]) + [Strip(src[|src| - 1])]
  }

  /** The invariant of every reachable cursor of an iterator built at `start`: the counter
      is the start plus the number of lines consumed, and the current line is the last
      consumed one, stripped, or absent when nothing was consumed. */
  predicate Coherent(src: seq<string>, start: int, c: Cursor) {
    && c.consumed <= |src|
    && c.position - c.consumed == start
    && c.current == (if c.consumed == 0 then None else Some(StripAll(src)[c.consumed - 1]))
  }

  /** Each entry of `StripAll(src)` is the matching source line, stripped. */
  lemma {:induction false} StripAllAt(src: seq<string>, i: int)
    ensures 0 <= i < |src| ==> StripAll(src)[i] == Strip(src[i])
    decreases |src|
  {
    if 0 <= i < |src| - 1 {
      StripAllAt(src[..|src| - 1], i);
      assert src[..|src| - 1][i] == src[i];
    }
  }

  /** `_next`: take the next raw line, strip it, make it current and count it. */
  function Advance(src: seq<string>, c: Cursor): (r: (Result<string>, Cursor))
    ensures r.0.Ok? ==> r.1.consumed == c.consumed + 1 && r.1.position == c.position + 1
    ensures r.0.Err? ==> r.0 == Err(StopIteration) && r.1 == c && Exhausted(src, c)
  {
    if c.consumed < |src| then
      var line := StripAll(src)[c.consumed];
      (Ok(line), Cursor(c.consumed + 1, Some(line), c.position + 1))
    else
      (Err(StopIteration), c)
  }

  /** `__next__`: advance until the standing filter accepts a line. */
  function Consume(src: seq<string>, keep: Filter, c: Cursor): (r: (Result<string>, Cursor))
    ensures c.consumed <= r.1.consumed
    ensures r.0.Ok? ==> c.consumed < r.1.consumed && Accepts(keep, r.0.value)
    ensures r.0.Err? ==> r.0 == Err(StopIteration) && Exhausted(src, r.1)
    decreases |src| - c.consumed
  {
    var (line, next) := Advance(src, c);
    if line.Err? || Accepts(keep, line.value) then (line, next)
    else Consume(src, keep, next)
  }

  /** `filtered_next(f, default)`: call `__next__` until `f` accepts; on exhaustion give the
      default if there is one. */
  function FilteredConsume(src: seq<string>, keep: Filter, f: string -> bool,
                           default: Option<string>, c: Cursor): (r: (Result<string>, Cursor))
    ensures c.consumed <= r.1.consumed
    ensures r.0.Err? ==> r.0 == Err(StopIteration) && default.None? && Exhausted(src, r.1)
    ensures default.None? && r.0.Ok? ==> Accepts(keep, r.0.value) && f(r.0.value)
    decreases |src| - c.consumed
  {
    var (line, next) := Consume(src, keep, c);
    if line.Err? then
      (if default.None? then line else Ok(default.value), next)
    else if f(line.value) then (line, next)
    else FilteredConsume(src, keep, f, default, next)
  }

  /** The `islice(self, m)` loop: up to `m` calls of `__next__`, stopping at exhaustion. */
  function Skip(src: seq<string>, keep: Filter, c: Cursor, m: nat): (r: Cursor)
    ensures c.consumed <= r.consumed
    decreases m
  {
    if m == 0 then c
    else
      var (line, next) := Consume(src, keep, c);
      if line.Err? then next else Skip(src, keep, next, m - 1)
  }

  /** `jump(num)`. */
  function JumpFrom(src: seq<string>, keep: Filter, num: int, c: Cursor): (r: (Result<string>, Cursor))
    ensures num < 1 ==> r == (Err(IndexError(JumpBackwardMessage)), c)
    ensures num >= 1 && r.0.Err? ==> r.0 == Err(StopIteration) && Exhausted(src, r.1)
    ensures r.0.Ok? ==> Accepts(keep, r.0.value) && c.consumed < r.1.consumed
  {
    if num < 1 then (Err(IndexError(JumpBackwardMessage)), c)
    else Consume(src, keep, Skip(src, keep, c, num - 1))
  }

  /** `peek(default)`: the next raw line, unstripped and unfiltered. */
  function PeekAt(src: seq<string>, c: Cursor, default: Option<string>): (r: Result<string>)
    ensures r.Err? <==> Exhausted(src, c) && default.None?
    ensures r.Err? ==> r == Err(StopIteration)
  {
    if c.consumed < |src| then Ok(src[c.consumed])
    else if default.Some? then Ok(default.value)
    else Err(StopIteration)
  }

  /** The results of `n` successive calls of `__next__`, and where they leave the cursor. */
  function NextN(src: seq<string>, keep: Filter, c: Cursor, n: nat): (r: (seq<Result<string>>, Cursor))
    ensures |r.0| == n
    decreases n
  {
    if n == 0 then ([], c)
    else
      var (line, next) := Consume(src, keep, c);
      var (rest, last) := NextN(src, keep, next, n - 1);
      ([line] + rest, last)
  }

  /** The index of the first raw line at or after `from` whose stripped form the filter
      accepts, or `|src|` when there is none. */
  function FirstAccepted(src: seq<string>, keep: Filter, from: nat): (j: nat)
    requires from <= |src|
    ensures from <= j <= |src|
    ensures forall i | from <= i < j :: !Accepts(keep, StripAll(src)[i])
    ensures j < |src| ==> Accepts(keep, StripAll(src)[j])
    decreases |src| - from
  {
    if from == |src| || Accepts(keep, StripAll(src)[from]) then from
    else FirstAccepted(src, keep, from + 1)
  }

  /** What a scan from `c` returns, and where it leaves the cursor, when it stops on raw line
      `j`, or at exhaustion when `j == |src|`: every line examined is counted; the line it
      stops on is returned stripped and becomes current; at exhaustion it raises
      StopIteration and the last line examined, if any, stays current. */
  function StopAt(src: seq<string>, c: Cursor, j: nat): (Result<string>, Cursor)
    requires c.consumed <= j <= |src|
  {
    if j < |src| then
      (Ok(StripAll(src)[j]), Cursor(j + 1, Some(StripAll(src)[j]), c.position + (j + 1 - c.consumed)))
    else
      (Err(StopIteration),
       Cursor(|src|, if c.consumed == |src| then c.current else Some(StripAll(src)[|src| - 1]),
              c.position + (|src| - c.consumed)))
  }

  /** A scan that stops on line `first` and is resumed from there ends where one uninterrupted
      scan to the later stop `j` ends. */
  lemma StopAtResumed(src: seq<string>, c: Cursor)
    ensures forall first: nat, j: nat | c.consumed <= first < j <= |src| ::
      StopAt(src, StopAt(src, c, first).1, j) == StopAt(src, c, j)
  {
  }

  /** The index of the `n`-th raw line at or after `from` that the filter accepts, or
      `|src|` when fewer than `n` remain: `FirstAccepted` applied `n` times. */
  function NthAccepted(src: seq<string>, keep: Filter, from: nat, n: nat): (j: nat)
    requires from <= |src| && n >= 1
    ensures from <= j <= |src|
    ensures j < |src| ==> Accepts(keep, StripAll(src)[j])
    decreases n
  {
    var first := FirstAccepted(src, keep, from);
    if n == 1 || first == |src| then first
    else NthAccepted(src, keep, first + 1, n - 1)
  }

  // ---------------------------------------------------------------------------------
  // `__next__`

  /** `__next__` returns the first acceptable line, stripped; the counter goes up by the
      number of lines examined, rejected ones included. When none is left it raises
      StopIteration, with every remaining line consumed and the last rejected one current. */
  lemma {:induction false} ConsumeFindsFirstAccepted(src: seq<string>, keep: Filter, c: Cursor)
    requires c.consumed <= |src|
    ensures Consume(src, keep, c) == StopAt(src, c, FirstAccepted(src, keep, c.consumed))
    decreases |src| - c.consumed
  {
    if c.consumed < |src| && !Accepts(keep, StripAll(src)[c.consumed]) {
      ConsumeFindsFirstAccepted(src, keep, Advance(src, c).1);
    }
  }

  /** Without a standing filter `__next__` is `_next`. */
  lemma UnfilteredConsumeIsAdvance(src: seq<string>, c: Cursor)
    ensures Consume(src, None, c) == Advance(src, c)
  {
  }

  /** Once the producer is drained, every further `__next__` raises StopIteration and changes
      nothing: exhaustion is sticky. */
  lemma {:induction false} ExhaustedIsSticky(src: seq<string>, keep: Filter, c: Cursor, n: nat)
    requires Exhausted(src, c)
    ensures Consume(src, keep, c) == (Err(StopIteration), c)
    ensures NextN(src, keep, c, n).1 == c
    ensures forall i | 0 <= i < n :: NextN(src, keep, c, n).0[i] == Err(StopIteration)
    decreases n
  {
    if n > 0 {
      ExhaustedIsSticky(src, keep, c, n - 1);
    }
  }

  /** Every consuming step keeps the iterator's invariant. */
  lemma {:induction false} ConsumeKeepsCoherent(src: seq<string>, start: int, keep: Filter, c: Cursor)
    requires Coherent(src, start, c)
    ensures Coherent(src, start, Consume(src, keep, c).1)
    decreases |src| - c.consumed
  {
    var (line, next) := Advance(src, c);
    if line.Ok? {
      StripAllAt(src, c.consumed);
      if !Accepts(keep, line.value) {
        ConsumeKeepsCoherent(src, start, keep, next);
      }
    }
  }

  /** With no filter, `k` calls of `__next__` return the next `k` source lines stripped, in
      order, and add `k` to the counter. */
  lemma {:induction false} UnfilteredRun(src: seq<string>, c: Cursor, k: nat)
    requires c.consumed + k <= |src|
    ensures var (rs, last) := NextN(src, None, c, k);
      && (forall i | 0 <= i < k :: rs[i] == Ok(Strip(src[c.consumed + i])))
      && last.consumed == c.consumed + k
      && last.position == c.position + k
      && last.current == (if k == 0 then c.current else Some(Strip(src[c.consumed + k - 1])))
    decreases k
  {
    if k > 0 {
      StripAllAt(src, c.consumed);
      var next := Advance(src, c).1;
      UnfilteredRun(src, next, k - 1);
      var (rs, last) := NextN(src, None, c, k);
      var (rest, _) := NextN(src, None, next, k - 1);
      assert rs == [Ok(Strip(src[c.consumed]))] + rest;
      forall i | 0 <= i < k
        ensures rs[i] == Ok(Strip(src[c.consumed + i]))
      {
        if i > 0 {
          assert rs[i] == rest[i - 1];
        }
      }
    }
  }

  /** Reading a whole source without a filter from a fresh iterator yields every line
      stripped, in order, then StopIteration; the counter ends at start + |src|. */
  lemma ReadAll(src: seq<string>, start: int)
    ensures var (rs, last) := NextN(src, None, Fresh(start), |src| + 1);
      && (forall i | 0 <= i < |src| :: rs[i] == Ok(Strip(src[i])))
      && rs[|src|] == Err(StopIteration)
      && last.position == start + |src|
  {
    var c := Fresh(start);
    UnfilteredRun(src, c, |src|);
    NextNSplit(src, None, c, |src|);
    var (rs, last) := NextN(src, None, c, |src|);
    ExhaustedIsSticky(src, None, last, 0);
    var all := NextN(src, None, c, |src| + 1).0;
    assert all == rs + [Err(StopIteration)];
    forall i | 0 <= i < |src|
      ensures all[i] == Ok(Strip(src[i]))
    {
      assert all[i] == rs[i];
    }
  }

  /** `n + 1` calls of `__next__` are `n` calls followed by one more. */
  lemma {:induction false} NextNSplit(src: seq<string>, keep: Filter, c: Cursor, n: nat)
    ensures var (rs, last) := NextN(src, keep, c, n);
      NextN(src, keep, c, n + 1) == (rs + [Consume(src, keep, last).0], Consume(src, keep, last).1)
    decreases n
  {
    if n > 0 {
      var (x, next) := Consume(src, keep, c);
      NextNSplit(src, keep, next, n - 1);
      var (rest, last) := NextN(src, keep, next, n - 1);
      var y := Consume(src, keep, last);
      assert NextN(src, keep, c, n) == ([x] + rest, last);
      assert NextN(src, keep, c, n + 1) == ([x] + (rest + [y.0]), y.1);
      assert [x] + (rest + [y.0]) == ([x] + rest) + [y.0];
    } else {
      var (x, next) := Consume(src, keep, c);
      assert NextN(src, keep, next, 0) == ([], next);
      assert NextN(src, keep, c, 1) == ([x] + [], next);
      assert [x] + [] == [] + [x];
    }
  }

  // ---------------------------------------------------------------------------------
  // `filtered_next`

  /** One `__next__` under the combined filter is one `__next__` under the standing filter,
      continued when `f` rejects what it returned. */
  lemma {:induction false} BothUnfoldsOnce(src: seq<string>, keep: Filter, f: string -> bool, c: Cursor)
    ensures var (line, next) := Consume(src, keep, c);
      Consume(src, Some(Both(keep, f)), c) ==
        if line.Err? || f(line.value) then (line, next)
        else Consume(src, Some(Both(keep, f)), next)
    decreases |src| - c.consumed
  {
    var (line, next) := Advance(src, c);
    if line.Ok? {
      assert Both(keep, f)(line.value) == (Accepts(keep, line.value) && f(line.value));
      if !Accepts(keep, line.value) {
        BothUnfoldsOnce(src, keep, f, next);
      }
    }
  }

  /** Without a default, `filtered_next(f)` is `__next__` under the standing filter and `f`
      together: the one-shot predicate stacks on top of the standing one. */
  lemma {:induction false} FilteredConsumeStacks(src: seq<string>, keep: Filter, f: string -> bool, c: Cursor)
    ensures FilteredConsume(src, keep, f, None, c) == Consume(src, Some(Both(keep, f)), c)
    decreases |src| - c.consumed
  {
    BothUnfoldsOnce(src, keep, f, c);
    var (line, next) := Consume(src, keep, c);
    if line.Ok? && !f(line.value) {
      FilteredConsumeStacks(src, keep, f, next);
    }
  }

  /** A default only replaces StopIteration: the lines consumed while searching stay
      consumed, and a successful search is unaffected. */
  lemma {:induction false} FilteredConsumeDefault(src: seq<string>, keep: Filter, f: string -> bool,
                                                  d: string, c: Cursor)
    ensures var (line, next) := FilteredConsume(src, keep, f, None, c);
      FilteredConsume(src, keep, f, Some(d), c) == (if line.Err? then Ok(d) else line, next)
    decreases |src| - c.consumed
  {
    var (line, next) := Consume(src, keep, c);
    if line.Ok? && !f(line.value) {
      FilteredConsumeDefault(src, keep, f, d, next);
    }
  }

  /** `filtered_next(f, default)` returns the first line both filters accept, counting every
      line examined; when there is none it returns the default (StopIteration without one)
      and leaves the producer drained. */
  lemma FilteredConsumeFindsFirst(src: seq<string>, keep: Filter, f: string -> bool,
                                  default: Option<string>, c: Cursor)
    requires c.consumed <= |src|
    ensures var j := FirstAccepted(src, Some(Both(keep, f)), c.consumed);
      var (line, next) := FilteredConsume(src, keep, f, default, c);
      && next.position == c.position + (next.consumed - c.consumed)
      && (j < |src| ==> line == Ok(Strip(src[j])) && next.consumed == j + 1)
      && (j == |src| ==> next.consumed == |src|
                         && line == (if default.None? then Err(StopIteration) else Ok(default.value)))
  {
    FilteredConsumeStacks(src, keep, f, c);
    ConsumeFindsFirstAccepted(src, Some(Both(keep, f)), c);
    StripAllAt(src, FirstAccepted(src, Some(Both(keep, f)), c.consumed));
    if default.Some? {
      FilteredConsumeDefault(src, keep, f, default.value, c);
    }
  }

  // ---------------------------------------------------------------------------------
  // `jump`

  /** `jump(n)` for `n >= 1` is `n` successive calls of `__next__` (the standing filter
      applies to each), returning what the last one returns; stopping the skip loop early
      at exhaustion makes no difference. */
  lemma {:induction false} JumpIsRepeatedNext(src: seq<string>, keep: Filter, n: int, c: Cursor)
    requires n >= 1
    ensures JumpFrom(src, keep, n, c) == (NextN(src, keep, c, n).0[n - 1], NextN(src, keep, c, n).1)
    decreases n
  {
    var (line, next) := Consume(src, keep, c);
    if n > 1 {
      if line.Ok? {
        JumpIsRepeatedNext(src, keep, n - 1, next);
        assert NextN(src, keep, c, n).0[n - 1] == NextN(src, keep, next, n - 1).0[n - 2];
      } else {
        ExhaustedIsSticky(src, keep, next, n - 1);
        assert NextN(src, keep, c, n).0[n - 1] == NextN(src, keep, next, n - 1).0[n - 2];
      }
    }
  }

  /** One step of `jump(n)` for `n > 1`: a call of `__next__`, then `jump(n - 1)` unless that
      call raised StopIteration. */
  lemma JumpStep(src: seq<string>, keep: Filter, n: int, c: Cursor)
    requires n > 1
    ensures Consume(src, keep, c).0.Err? ==> JumpFrom(src, keep, n, c) == Consume(src, keep, c)
    ensures Consume(src, keep, c).0.Ok? ==>
      JumpFrom(src, keep, n, c) == JumpFrom(src, keep, n - 1, Consume(src, keep, c).1)
  {
    SkipStep(src, keep, c, n - 1);
    var (line, next) := Consume(src, keep, c);
    if line.Err? {
      ExhaustedIsSticky(src, keep, next, 0);
    }
  }

  /** `jump(1)` is one `__next__`, which stops on the first acceptable line. */
  lemma JumpOnceFindsFirst(src: seq<string>, keep: Filter, c: Cursor)
    requires c.consumed <= |src|
    ensures JumpFrom(src, keep, 1, c) == StopAt(src, c, NthAccepted(src, keep, c.consumed, 1))
  {
    ConsumeFindsFirstAccepted(src, keep, c);
  }

  /** With no acceptable line left, `jump(n)` stops with the first `__next__`'s StopIteration. */
  lemma JumpRunsOut(src: seq<string>, keep: Filter, n: int, c: Cursor)
    requires n > 1 && c.consumed <= |src| && FirstAccepted(src, keep, c.consumed) == |src|
    ensures JumpFrom(src, keep, n, c) == StopAt(src, c, NthAccepted(src, keep, c.consumed, n))
  {
    ConsumeFindsFirstAccepted(src, keep, c);
    JumpStep(src, keep, n, c);
  }

  /** Past the first acceptable line, the `n`-th acceptable line is the `(n - 1)`-th one,
      so it lies beyond the first. */
  lemma NthAcceptedStep(src: seq<string>, keep: Filter, from: nat, n: nat)
    requires from <= |src| && n > 1 && FirstAccepted(src, keep, from) < |src|
    ensures NthAccepted(src, keep, from, n) == NthAccepted(src, keep, FirstAccepted(src, keep, from) + 1, n - 1)
  {
  }

  /** When `__next__` finds a line, the rest of `jump(n)` is `jump(n - 1)` from just past it. */
  lemma JumpPastFirst(src: seq<string>, keep: Filter, n: int, c: Cursor) returns (next: Cursor)
    requires n > 1 && c.consumed <= |src| && FirstAccepted(src, keep, c.consumed) < |src|
    ensures next == StopAt(src, c, FirstAccepted(src, keep, c.consumed)).1
    ensures next.consumed == FirstAccepted(src, keep, c.consumed) + 1
    ensures JumpFrom(src, keep, n, c) == JumpFrom(src, keep, n - 1, next)
  {
    ConsumeFindsFirstAccepted(src, keep, c);
    JumpStep(src, keep, n, c);
    next := Consume(src, keep, c).1;
  }

  /** A scan for the `n`-th acceptable line that stops on the first one and is resumed from
      there for the `(n - 1)`-th next one ends where the uninterrupted scan ends. */
  lemma NthScanResumes(src: seq<string>, keep: Filter, n: int, c: Cursor)
    requires n > 1 && c.consumed <= |src| && FirstAccepted(src, keep, c.consumed) < |src|
    ensures var first := FirstAccepted(src, keep, c.consumed);
      StopAt(src, StopAt(src, c, first).1, NthAccepted(src, keep, first + 1, n - 1))
        == StopAt(src, c, NthAccepted(src, keep, c.consumed, n))
  {
    NthAcceptedStep(src, keep, c.consumed, n);
    StopAtResumed(src, c);
  }

  /** `jump(n)` for `n >= 1` lands on the `n`-th acceptable line from the cursor, stripped,
      having counted every line examined; when fewer than `n` acceptable lines remain it
      raises StopIteration with the producer drained. */
  lemma {:induction false} JumpFindsNthAccepted(src: seq<string>, keep: Filter, n: int, c: Cursor)
    requires n >= 1 && c.consumed <= |src|
    ensures JumpFrom(src, keep, n, c) == StopAt(src, c, NthAccepted(src, keep, c.consumed, n))
    decreases n, 1
  {
    if n == 1 {
      JumpOnceFindsFirst(src, keep, c);
    } else if FirstAccepted(src, keep, c.consumed) == |src| {
      JumpRunsOut(src, keep, n, c);
    } else {
      JumpFindsNthPastFirst(src, keep, n, c);
    }
  }

  /** The inductive step of `JumpFindsNthAccepted`: past the first acceptable line, the
      rest of the jump finds the `(n - 1)`-th one after it. */
  lemma {:induction false} JumpFindsNthPastFirst(src: seq<string>, keep: Filter, n: int, c: Cursor)
    requires n > 1 && c.consumed <= |src| && FirstAccepted(src, keep, c.consumed) < |src|
    ensures JumpFrom(src, keep, n, c) == StopAt(src, c, NthAccepted(src, keep, c.consumed, n))
    decreases n, 0
  {
    var next := JumpPastFirst(src, keep, n, c);
    JumpFindsNthAccepted(src, keep, n - 1, next);
    NthScanResumes(src, keep, n, c);
  }

  /** The standing filter applies to every step of a jump, contrary to the note in the
      docstring of `jump`: a line it lands on passes the filter. */
  lemma JumpLandsOnAcceptedLine(src: seq<string>, keep: Filter, n: int, c: Cursor)
    ensures var (line, next) := JumpFrom(src, keep, n, c);
      line.Ok? ==> n >= 1 && Accepts(keep, line.value) && c.consumed < next.consumed
  {
  }

  /** One round of the skip loop of `jump`: a call of `__next__`, then the rest of the loop
      unless that call raised StopIteration. */
  lemma SkipStep(src: seq<string>, keep: Filter, c: Cursor, m: nat)
    requires m >= 1
    ensures var (line, next) := Consume(src, keep, c);
      Skip(src, keep, c, m) == if line.Err? then next else Skip(src, keep, next, m - 1)
  {
  }

  /** `jump(n)` with `n < 1` raises IndexError and changes nothing. */
  lemma JumpBackwardFails(src: seq<string>, keep: Filter, n: int, c: Cursor)
    requires n < 1
    ensures JumpFrom(src, keep, n, c) == (Err(IndexError("Can only jump forward")), c)
  {
  }

  /** Without a filter, `jump(n)` lands on the `n`-th next source line, stripped, and adds
      exactly `n` to the counter; with fewer than `n` lines left it raises StopIteration. */
  lemma UnfilteredJump(src: seq<string>, n: int, c: Cursor)
    requires n >= 1 && c.consumed <= |src|
    ensures var (line, next) := JumpFrom(src, None, n, c);
      if c.consumed + n <= |src| then
        line == Ok(Strip(src[c.consumed + n - 1])) && next.position == c.position + n
      else
        line == Err(StopIteration) && next.consumed == |src|
  {
    JumpIsRepeatedNext(src, None, n, c);
    if c.consumed + n <= |src| {
      UnfilteredRun(src, c, n);
    } else {
      UnfilteredOverrun(src, c, n);
    }
  }

  /** Without a filter, asking for more lines than are left drains the source and ends in
      StopIteration. */
  lemma {:induction false} UnfilteredOverrun(src: seq<string>, c: Cursor, n: nat)
    requires c.consumed <= |src| < c.consumed + n
    ensures var (rs, last) := NextN(src, None, c, n);
      rs[n - 1] == Err(StopIteration) && last.consumed == |src|
    decreases n
  {
    if c.consumed == |src| {
      ExhaustedIsSticky(src, None, c, n);
    } else {
      var next := Advance(src, c).1;
      UnfilteredOverrun(src, next, n - 1);
      assert NextN(src, None, c, n).0[n - 1] == NextN(src, None, next, n - 1).0[n - 2];
    }
  }

  // ---------------------------------------------------------------------------------
  // `peek` and `isempty`

  /** What `peek()` shows is what the next `_next` consumes, stripped; `__next__` returns it
      when the standing filter accepts it. */
  lemma PeekThenConsume(src: seq<string>, keep: Filter, c: Cursor)
    requires PeekAt(src, c, None).Ok?
    ensures Advance(src, c).0 == Ok(Strip(PeekAt(src, c, None).value))
    ensures Accepts(keep, Strip(PeekAt(src, c, None).value)) ==>
              Consume(src, keep, c) == Advance(src, c)
  {
    StripAllAt(src, c.consumed);
  }

  /** `peek(default)` returns the default exactly when `peek()` raises StopIteration, which is
      exactly when `isempty()` holds. */
  lemma PeekDefaultOnlyWhenEmpty(src: seq<string>, c: Cursor, d: string)
    ensures PeekAt(src, c, None).Err? <==> Exhausted(src, c)
    ensures PeekAt(src, c, None).Err? ==> PeekAt(src, c, None) == Err(StopIteration)
    ensures PeekAt(src, c, Some(d)) == (if Exhausted(src, c) then Ok(d) else PeekAt(src, c, None))
  {
  }

  /** A fresh iterator is empty exactly when its source is. */
  lemma FreshEmptiness(src: seq<string>, start: int)
    ensures Exhausted(src, Fresh(start)) <==> |src| == 0
    ensures Coherent(src, start, Fresh(start))
  {
  }

  // ---------------------------------------------------------------------------------
  // `is_data`

  /** `is_data` of a stripped line holds exactly when the raw line has a first non-space
      character and that character is not `#`. */
  lemma IsDataOfStripped(s: string)
    ensures IsData(Strip(s)) <==>
      exists i | 0 <= i < |s| :: !IsSpace(s[i]) && s[i] != '#' && forall j | 0 <= j < i :: IsSpace(s[j])
  {
    StripIsTrimmedSlice(s);
    TrimStartKeepsSuffix(s);
    TrimEndKeepsPrefix(TrimStart(s));
    var k := Leading(s);
    var t := TrimStart(s);
    var r := Strip(s);
    if IsData(r) {
      assert r[0] == s[k];
      assert !IsSpace(s[k]) && s[k] != '#';
    }
    if i :| 0 <= i < |s| && !IsSpace(s[i]) && s[i] != '#' && forall j | 0 <= j < i :: IsSpace(s[j]) {
      assert k == i;
      assert t[0] == s[i];
      assert r[0] == s[i];
    }
  }
}
