/** The examples in the docstrings of file_iter.py, as facts about the model. */
module Doctests {
  import opened Results
  import opened Whitespace
  import opened LineIter
  import opened FileIterObject

  const Greeting: seq<string> := ["Hello", "", "# comment", "World", "How", "are", "you?"]
  const Abc: seq<string> := ["a", "b", "c"]
  const NoData: seq<string> := ["", "# no", "", "# data"]
  /** The lines of the file "Hello\n# comment\n\nWorld" as a text file yields them. */
  const HelloFile: seq<string> := ["Hello\n", "# comment\n", "\n", "World"]

  /** The class docstring: `next` skips the blank line and the comment under `is_data`,
      `peek` shows the raw blank line, `jump(3)` lands on "you?" at position 6, after which
      the iterator is empty and `peek("default")` gives the default. */
  lemma ClassDocstring()
    ensures var (r1, c1) := Consume(Greeting, Some(IsData), Fresh(-1));
      && r1 == Ok("Hello") && c1.position == 0
      && PeekAt(Greeting, c1, None) == Ok("")
      && var (r2, c2) := Consume(Greeting, Some(IsData), c1);
      && r2 == Ok("World") && c2.position == 3 && c2.current == Some("World")
      && var (r3, c3) := JumpFrom(Greeting, Some(IsData), 3, c2);
      && r3 == Ok("you?") && c3.position == 6
      && Exhausted(Greeting, c3)
      && PeekAt(Greeting, c3, Some("default")) == Ok("default")
  {
    GreetingReads();
    GreetingJump();
  }

  /** The two reads of the class docstring: "Hello", then "World" past a blank line and a
      comment. */
  lemma GreetingReads()
    ensures Consume(Greeting, Some(IsData), Fresh(-1)) == (Ok("Hello"), Cursor(1, Some("Hello"), 0))
    ensures Consume(Greeting, Some(IsData), Cursor(1, Some("Hello"), 0))
         == (Ok("World"), Cursor(4, Some("World"), 3))
  {
    var keep: Filter := Some(IsData);
    StripAllAt(Greeting, 0); StripAllAt(Greeting, 1); StripAllAt(Greeting, 2); StripAllAt(Greeting, 3);
    assert Strip("Hello") == "Hello" && Strip("") == "" && Strip("# comment") == "# comment";
    assert Strip("World") == "World";
    assert Consume(Greeting, keep, Cursor(3, Some("# comment"), 2)) == (Ok("World"), Cursor(4, Some("World"), 3));
    assert Consume(Greeting, keep, Cursor(2, Some(""), 1)) == (Ok("World"), Cursor(4, Some("World"), 3));
  }

  /** The jump of the class docstring: three reads from "World" end on "you?". */
  lemma GreetingJump()
    ensures JumpFrom(Greeting, Some(IsData), 3, Cursor(4, Some("World"), 3))
         == (Ok("you?"), Cursor(7, Some("you?"), 6))
  {
    var keep: Filter := Some(IsData);
    var c2 := Cursor(4, Some("World"), 3);
    StripAllAt(Greeting, 4); StripAllAt(Greeting, 5); StripAllAt(Greeting, 6);
    assert Strip("How") == "How" && Strip("are") == "are" && Strip("you?") == "you?";
    assert Consume(Greeting, keep, c2) == (Ok("How"), Cursor(5, Some("How"), 4));
    assert Consume(Greeting, keep, Cursor(5, Some("How"), 4)) == (Ok("are"), Cursor(6, Some("are"), 5));
    assert Skip(Greeting, keep, c2, 2) == Cursor(6, Some("are"), 5);
    assert Consume(Greeting, keep, Cursor(6, Some("are"), 5)) == (Ok("you?"), Cursor(7, Some("you?"), 6));
  }

  /** `__next__` under `is_data` skips to "data" at position 2; over lines that are all
      blank or comments it raises StopIteration, having consumed them all. */
  lemma NextDocstring()
    ensures Consume(["", "# comment", "data"], Some(IsData), Fresh(-1))
         == (Ok("data"), Cursor(3, Some("data"), 2))
    ensures Consume(NoData, Some(IsData), Fresh(-1))
         == (Err(StopIteration), Cursor(4, Some("# data"), 3))
  {
    var src := ["", "# comment", "data"];
    StripAllAt(src, 0); StripAllAt(src, 1); StripAllAt(src, 2);
    StripAllAt(NoData, 0); StripAllAt(NoData, 1); StripAllAt(NoData, 2); StripAllAt(NoData, 3);
    assert Strip("") == "" && Strip("# comment") == "# comment" && Strip("data") == "data";
    assert Strip("# no") == "# no" && Strip("# data") == "# data";
  }

  /** `filtered_next(is_data)` without a standing filter finds "hello"; over lines without
      data it returns the default when given one and raises StopIteration otherwise. */
  lemma FilteredNextDocstring()
    ensures FilteredConsume(["", "# comment", "hello"], None, IsData, None, Fresh(-1)).0 == Ok("hello")
    ensures var (r1, c1) := FilteredConsume(NoData, None, IsData, Some("default"), Fresh(-1));
      && r1 == Ok("default")
      && FilteredConsume(NoData, None, IsData, None, c1).0 == Err(StopIteration)
  {
    FilteredNextFindsData();
    FilteredNextWithoutData();
  }

  /** The first example of `filtered_next`: "hello" past a blank line and a comment. */
  lemma FilteredNextFindsData()
    ensures FilteredConsume(["", "# comment", "hello"], None, IsData, None, Fresh(-1)).0 == Ok("hello")
  {
    var src := ["", "# comment", "hello"];
    StripAllAt(src, 0); StripAllAt(src, 1); StripAllAt(src, 2);
    assert Strip("") == "" && Strip("# comment") == "# comment" && Strip("hello") == "hello";
  }

  /** The second example of `filtered_next`: over lines without data, the default, and
      then StopIteration from the drained iterator. */
  lemma FilteredNextWithoutData()
    ensures FilteredConsume(NoData, None, IsData, Some("default"), Fresh(-1))
         == (Ok("default"), Cursor(4, Some("# data"), 3))
    ensures FilteredConsume(NoData, None, IsData, None, Cursor(4, Some("# data"), 3)).0 == Err(StopIteration)
  {
    StripAllAt(NoData, 0); StripAllAt(NoData, 1); StripAllAt(NoData, 2); StripAllAt(NoData, 3);
    assert Strip("") == "" && Strip("# no") == "# no" && Strip("# data") == "# data";
  }

  /** `position` starts at -1 and is 1 after two reads; `current_line` is absent before the
      first read and "b" after two. */
  lemma PositionAndCurrentLineDocstrings()
    ensures Fresh(-1).position == -1 && Fresh(-1).current == None
    ensures var (rs, c) := NextN(Abc, None, Fresh(-1), 2);
      rs == [Ok("a"), Ok("b")] && c.position == 1 && c.current == Some("b")
  {
    UnfilteredRun(Abc, Fresh(-1), 2);
    assert Strip("a") == "a" && Strip("b") == "b";
  }

  /** `jump(2)` after one read lands on "c" at position 2; `jump(-1)` raises IndexError. */
  lemma JumpDocstring()
    ensures var (r1, c1) := Consume(Abc, None, Fresh(-1));
      && r1 == Ok("a")
      && var (r2, c2) := JumpFrom(Abc, None, 2, c1);
      && r2 == Ok("c") && c2.position == 2
      && JumpFrom(Abc, None, -1, c2) == (Err(IndexError("Can only jump forward")), c2)
  {
    AbcReads();
    UnfilteredJump(Abc, 2, Cursor(1, Some("a"), 0));
    assert Strip("c") == "c";
  }

  /** The iteration and jump examples of the file context manager, on the lines it would
      wrap: under `is_data` "Hello" is read at position 0 and "World" at 3; `jump(2)` from
      the start ends at position 3, and the following `jump(-1)` leaves it there. Without
      the filter the same jump would end at position 1. */
  lemma ContextManagerDocstring()
    ensures var (r1, c1) := Consume(HelloFile, Some(IsData), Fresh(-1));
      && r1 == Ok("Hello") && c1.position == 0
      && var (r2, c2) := Consume(HelloFile, Some(IsData), c1);
      && r2 == Ok("World") && c2.position == 3
      && Consume(HelloFile, Some(IsData), c2).0 == Err(StopIteration)
    ensures var (r, c) := JumpFrom(HelloFile, Some(IsData), 2, Fresh(-1));
      && r == Ok("World") && c.position == 3
      && JumpFrom(HelloFile, Some(IsData), -1, c) == (Err(IndexError("Can only jump forward")), c)
    ensures JumpFrom(HelloFile, None, 2, Fresh(-1)).1.position == 1
  {
    var keep: Filter := Some(IsData);
    StripAllAt(HelloFile, 0); StripAllAt(HelloFile, 1); StripAllAt(HelloFile, 2); StripAllAt(HelloFile, 3);
    assert Strip("Hello\n") == "Hello" && Strip("# comment\n") == "# comment";
    assert Strip("\n") == "" && Strip("World") == "World";
    assert Consume(HelloFile, keep, Fresh(-1)) == (Ok("Hello"), Cursor(1, Some("Hello"), 0));
    assert Consume(HelloFile, keep, Cursor(3, Some(""), 2)) == (Ok("World"), Cursor(4, Some("World"), 3));
    assert Consume(HelloFile, keep, Cursor(2, Some("# comment"), 1)) == (Ok("World"), Cursor(4, Some("World"), 3));
    assert Consume(HelloFile, keep, Cursor(1, Some("Hello"), 0)) == (Ok("World"), Cursor(4, Some("World"), 3));
    assert Skip(HelloFile, keep, Fresh(-1), 1) == Cursor(1, Some("Hello"), 0);
    UnfilteredJump(HelloFile, 2, Fresh(-1));
  }

  /** `is_data` on "hello", "# comment" and "". */
  lemma IsDataDocstring()
    ensures IsData("hello") && !IsData("# comment") && !IsData("")
  {
  }

  /** The filter of the `peek` docstring: everything but "b". */
  predicate NotB(line: string) {
    line != "b"
  }

  /** The reads over "a", "b", "c" that the `peek`, `isempty` and `current_line` docstrings
      make: one line at a time without a filter, and "b" passed over under `NotB`. */
  lemma AbcReads()
    ensures Consume(Abc, None, Fresh(-1)) == (Ok("a"), Cursor(1, Some("a"), 0))
    ensures Consume(Abc, None, Cursor(1, Some("a"), 0)) == (Ok("b"), Cursor(2, Some("b"), 1))
    ensures Consume(Abc, None, Cursor(2, Some("b"), 1)) == (Ok("c"), Cursor(3, Some("c"), 2))
    ensures Consume(Abc, Some(NotB), Fresh(-1)) == (Ok("a"), Cursor(1, Some("a"), 0))
    ensures Consume(Abc, Some(NotB), Cursor(1, Some("a"), 0)) == (Ok("c"), Cursor(3, Some("c"), 2))
  {
    StripAllAt(Abc, 0); StripAllAt(Abc, 1); StripAllAt(Abc, 2);
    assert Strip("a") == "a" && Strip("b") == "b" && Strip("c") == "c";
    assert Consume(Abc, Some(NotB), Cursor(2, Some("b"), 1)) == (Ok("c"), Cursor(3, Some("c"), 2));
  }

  /** The `peek` example, replayed as calls on the class: the values shown by the four
      peeks, the two reads and the three position lookups. Peeking neither moves the position
      nor applies the standing filter. */
  method PeekDocstring() returns (peeked: seq<Result<string>>, read: seq<Result<string>>, positions: seq<int>)
    ensures peeked == [Ok("a"), Ok("b"), Ok("default"), Err(StopIteration)]
    ensures read == [Ok("a"), Ok("c")]
    ensures positions == [-1, 0, 0]
  {
    AbcReads();
    var it := new FileIter(Abc, filterFunc := Some(NotB));
    var p := it.Peek();
    assert p == Ok("a") && it.View() == Cursor(0, None, -1);
    var p0 := it.Position();
    var n := it.Next();
    assert n == Ok("a") && it.View() == Cursor(1, Some("a"), 0);
    var p1 := it.Position();
    var q := it.Peek();
    assert q == Ok("b") && it.View() == Cursor(1, Some("a"), 0);
    var p2 := it.Position();
    var m := it.Next();
    assert m == Ok("c") && it.View() == Cursor(3, Some("c"), 2);
    var d := it.Peek(Some("default"));
    var e := it.Peek();
    peeked := [p, q, d, e];
    read := [n, m];
    positions := [p0, p1, p2];
  }

  /** The `current_line` example, replayed as calls on the class: ValueError before the
      first read, then "a" and "b" read, with "b" current. */
  method CurrentLineDocstring() returns (before: Result<string>, read: seq<Result<string>>, after: Result<string>)
    ensures before == Err(ValueError("Have not read any lines yet"))
    ensures read == [Ok("a"), Ok("b")]
    ensures after == Ok("b")
  {
    AbcReads();
    var it := new FileIter(Abc);
    before := it.CurrentLine();
    var a := it.Next();
    var b := it.Next();
    read := [a, b];
    after := it.CurrentLine();
  }

  /** The `isempty` example, replayed as calls on the class: not empty at first; "a", "b",
      "c" read in turn; empty at the end. */
  method IsEmptyDocstring() returns (emptyAtFirst: bool, read: seq<Result<string>>, emptyAtEnd: bool)
    ensures !emptyAtFirst
    ensures read == [Ok("a"), Ok("b"), Ok("c")]
    ensures emptyAtEnd
  {
    AbcReads();
    var it := new FileIter(Abc);
    emptyAtFirst := it.IsEmpty();
    var a := it.Next();
    var b := it.Next();
    var c := it.Next();
    read := [a, b, c];
    emptyAtEnd := it.IsEmpty();
  }
}
