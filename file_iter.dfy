/** The `FileIter` object: a stripping, counting, peekable line iterator with an optional
    standing filter. Each method is proved to do what the corresponding function of
    `LineIter` says, on the abstract view `View()` of the object's fields. */
module FileIterObject {
  import opened Results
  import opened Whitespace
  import opened LineIter

  class FileIter {
    /** The lines the wrapped iterable yields, in order. */
    const src: seq<string>
    /** How many of them the underlying iterator has handed out so far. */
    var pulled: nat
    /** `_cache`: lines taken from the iterator by `peek` and not consumed yet. */
    var cache: seq<string>
    /** `_current_line`; `None` is the "not read yet" sentinel. */
    var currentLine: Option<string>
    /** `_filter_func`. */
    const filterFunc: Filter
    /** `_position`. */
    var position: int
    /** The position the iterator was built with. */
    ghost const start: int

    /** The lines consumed so far: those handed out minus the one waiting in the cache. */
    function Consumed(): nat
      reads this
      requires |cache| <= pulled
    {
      pulled - |cache|
    }

    /** The abstract state that the functions of `LineIter` work on. */
    function View(): Cursor
      reads this
      requires |cache| <= pulled
    {
      Cursor(Consumed(), currentLine, position)
    }

    /** The object invariant: the cache holds at most one line, which is the last one the
        iterator handed out; the rest of the state is coherent with the lines consumed. */
    ghost predicate Valid()
      reads this
    {
      && pulled <= |src|
      && |cache| <= 1
      && |cache| <= pulled
      && (cache != [] ==> cache[0] == src[pulled - 1])
      && Coherent(src, start, View())
    }

    /** `FileIter(iterable, position, filter_func)`. */
    constructor (iterable: seq<string>, position: int := -1, filterFunc: Filter := None)
      ensures Valid()
      ensures src == iterable && this.filterFunc == filterFunc && start == position
      ensures View() == Fresh(position) && cache == [] && pulled == 0
    {
      src := iterable;
      pulled := 0;
      cache := [];
      currentLine := None;
      this.filterFunc := filterFunc;
      this.position := position;
      start := position;
    }

    /** `_next`: the cached line if there is one, else the iterator's next; strip it, make it
        current, count it. On exhaustion nothing changes. */
    method NextRaw() returns (r: Result<string>)
      requires Valid()
      modifies this
      ensures Valid() && cache == []
      ensures (r, View()) == Advance(src, old(View()))
    {
      var line: string;
      if cache != [] {
        line := cache[0];
        cache := cache[1..];
      } else if pulled < |src| {
        line := src[pulled];
        pulled := pulled + 1;
      } else {
        return Err(StopIteration);
      }
      StripAllAt(src, Consumed() - 1);
      currentLine := Some(Strip(line));
      position := position + 1;
      r := Ok(currentLine.value);
    }

    /** `__next__`: `_next` until the standing filter accepts the line. */
    method Next() returns (r: Result<string>)
      requires Valid()
      modifies this
      ensures Valid() && cache == []
      ensures (r, View()) == Consume(src, filterFunc, old(View()))
    {
      if filterFunc.None? {
        r := NextRaw();
        return;
      }
      var keep := filterFunc.value;
      while true
        invariant Valid()
        invariant Consume(src, filterFunc, View()) == Consume(src, filterFunc, old(View()))
        decreases |src| - Consumed()
      {
        r := NextRaw();
        if r.Err? || keep(r.value) {
          return;
        }
      }
    }

    /** `filtered_next(f, default)`: `__next__` until `f` accepts the line; on exhaustion
        the default, or StopIteration when there is none. */
    method FilteredNext(f: string -> bool, default: Option<string> := None) returns (r: Result<string>)
      requires Valid()
      modifies this
      ensures Valid() && cache == []
      ensures (r, View()) == FilteredConsume(src, filterFunc, f, default, old(View()))
    {
      while true
        invariant Valid()
        invariant FilteredConsume(src, filterFunc, f, default, View())
               == FilteredConsume(src, filterFunc, f, default, old(View()))
        decreases |src| - Consumed()
      {
        r := Next();
        if r.Err? {
          if default.Some? {
            r := Ok(default.value);
          }
          return;
        }
        if f(r.value) {
          return;
        }
      }
    }

    /** `position`: the start plus the number of lines consumed. */
    function Position(): (p: int)
      reads this
      requires Valid()
      ensures p == start + Consumed()
    {
      position
    }

    /** `current_line`: the last consumed line, stripped; ValueError before the first. */
    function CurrentLine(): (r: Result<string>)
      reads this
      requires Valid()
      ensures Consumed() == 0 ==> r == Err(ValueError("Have not read any lines yet"))
      ensures Consumed() > 0 ==> r == Ok(Strip(src[Consumed() - 1]))
    {
      StripAllAt(src, Consumed() - 1);
      match currentLine
      case None => Err(ValueError(NothingReadMessage))
      case Some(line) => Ok(line)
    }

    /** `jump(num)`: IndexError for `num < 1`; otherwise `num - 1` calls of `__next__` that
        stop at exhaustion, then one more whose result is returned. */
    method Jump(num: int) returns (r: Result<string>)
      requires Valid()
      modifies this
      ensures Valid()
      ensures (r, View()) == JumpFrom(src, filterFunc, num, old(View()))
      ensures cache == if num < 1 then old(cache) else []
    {
      if num < 1 {
        return Err(IndexError(JumpBackwardMessage));
      }
      SkipLines(num - 1);
      r := Next();
    }

    /** The `islice(self, num - 1)` loop of `jump`: up to `m` calls of `__next__`, stopping
        at the first StopIteration. */
    method SkipLines(m: nat)
      requires Valid()
      modifies this
      ensures Valid()
      ensures View() == Skip(src, filterFunc, old(View()), m)
      ensures cache == if m == 0 then old(cache) else []
    {
      for i := 0 to m
        invariant Valid()
        invariant Skip(src, filterFunc, View(), m - i) == Skip(src, filterFunc, old(View()), m)
        invariant cache == if i == 0 then old(cache) else []
      {
        SkipStep(src, filterFunc, View(), m - i);
        var skipped := Next();
        if skipped.Err? {
          break;
        }
      }
    }

    /** `peek(default)`: fill the cache from the iterator if it is empty and return the
        cached raw line, or the default (StopIteration without one) at exhaustion. Only the
        cache and the iterator move; the position and the current line stay. */
    method Peek(default: Option<string> := None) returns (r: Result<string>)
      requires Valid()
      modifies this`cache, this`pulled
      ensures Valid() && View() == old(View())
      ensures r == PeekAt(src, View(), default)
      ensures cache == if Exhausted(src, View()) then [] else [src[Consumed()]]
    {
      if cache == [] {
        if pulled < |src| {
          cache := cache + [src[pulled]];
          pulled := pulled + 1;
        } else {
          r := if default.None? then Err(StopIteration) else Ok(default.value);
          return;
        }
      }
      r := Ok(cache[0]);
    }

    /** `isempty()`: whether `peek()` raises StopIteration; the exception does not escape. */
    method IsEmpty() returns (empty: bool)
      requires Valid()
      modifies this`cache, this`pulled
      ensures Valid() && View() == old(View())
      ensures empty == PeekAt(src, View(), None).Err?
      ensures empty == Exhausted(src, View())
      ensures cache == if empty then [] else [src[Consumed()]]
    {
      var peeked := Peek();
      empty := peeked.Err?;
    }
  }
}
