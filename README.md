# FileIter, modelled in Dafny

`file_iter` provides `FileIter`, a "Swiss Army knife" iterator over the lines of a file or
any iterable of strings. It strips every line it hands out, remembers the last one
(`current_line`), counts lines in a signed counter (`position`, -1 before the first read),
lets the caller look one line ahead (`peek`), skip forward (`jump`), ask whether anything
is left (`isempty`), and filter lines with a standing predicate given at construction
(`filter_func`) or a one-shot one (`filtered_next`). `is_data` is the predicate used
throughout the docstrings: a line that is neither empty nor a `#` comment.

The project has five modules:

- `Results` (results.dfy): `Option` for the `_marker` sentinel ("no line read yet", "no
  default given"); `Result` and `Error` for a returned value or a raised `StopIteration`,
  `IndexError` or `ValueError`, with the source's messages.
- `Whitespace` (whitespace.dfy): `str.strip()` as `Strip`, with lemmas saying it removes
  exactly the leading and trailing runs of whitespace and is idempotent.
- `LineIter` (line_iter.dfy): the iterator's behaviour as functions on a value `Cursor`,
  which holds the number of raw lines consumed, the current line and the counter. Each
  operation has a function: `_next` is `Advance`, `__next__` is `Consume`, `filtered_next`
  is `FilteredConsume`, the `islice` loop of `jump` is `Skip`, `jump` is `JumpFrom`, and
  `peek` is `PeekAt`. `FirstAccepted` and `NthAccepted` are reference definitions that
  scan the stripped source for the first and the n-th line the filter accepts; `StopAt`
  is the cursor after the scan stops at a given index, or runs off the end. The lemmas
  state what the docstrings promise and tie each operation to these scans.
- `FileIterObject` (file_iter.dfy): the class `FileIter`. Its fields are the source's
  `_cache`, `_current_line`, `_filter_func` and `_position`, plus the wrapped iterable as
  a sequence `src` and a pull index `pulled`. Every method keeps the object invariant
  `Valid()`. Every method is proved to do to the abstract view `View()` exactly what
  the matching `LineIter` function does. `Peek` and `IsEmpty` may modify only the cache
  and the pull index, so the frame check proves that they leave the position and the
  current line alone.
- `Doctests` (doctests.dfy): the docstring examples, as lemmas on the functions and as
  client methods that replay the `peek`, `current_line` and `isempty` examples as calls on
  the class.

Two behaviours of the code differ from what its own comments say. The model follows the
code:

- `peek` returns the raw next line, not the stripped one. It caches the line the iterator
  yields and returns `_cache[0]` (file_iter/file_iter.py:252, :257). Stripping happens
  only when `_next` consumes the line. `PeekThenConsume` states how the two relate.
- `jump` applies the standing filter, although the comments at file_iter/file_iter.py:46
  and :192 say it does not. Both the `islice(self, …)` loop and the final `next(self)`
  call `__next__`. The context-manager example (file_iter/file_iter.py:302-309) relies on
  this: it ends at `line=3`, and without the filter it would end at 1. See
  `JumpLandsOnAcceptedLine` and `ContextManagerDocstring`.

## Model

| member | source | states |
|---|---|---|
| `Whitespace.Strip` | file_iter/file_iter.py:109 | a stripped line is never longer than the raw line |
| `Whitespace.TrimStartKeepsSuffix` | file_iter/file_iter.py:109 | the leading half of `strip`: the result is the suffix of the line after its leading run of whitespace, and it does not start with whitespace |
| `Whitespace.TrimEndKeepsPrefix` | file_iter/file_iter.py:109 | the trailing half of `strip`: the result is the prefix before the trailing run of whitespace, and it does not end with whitespace |
| `Whitespace.StripIsTrimmedSlice` | file_iter/file_iter.py:109 | a stripped line is the slice of the raw line between its leading and its trailing whitespace, and it neither starts nor ends with whitespace |
| `Whitespace.StripIdempotent` | file_iter/file_iter.py:109 | stripping an already stripped line changes nothing |
| `LineIter.StripAllAt` | file_iter/file_iter.py:109 | entry i of the stripped source, which the invariant refers to, is source line i passed through `strip` |
| `LineIter.IsData` | file_iter/file_iter.py:352-363 | `is_data` holds exactly when the line is non-empty and does not start with `#` |
| `LineIter.Advance` | file_iter/file_iter.py:102-111 | `_next` counts a line only if it succeeds: on success exactly one more raw line is consumed and the position goes up by one; at exhaustion it raises StopIteration and the state is unchanged |
| `LineIter.Consume` | file_iter/file_iter.py:80-100 | `__next__` always moves forward; a line it returns passes the standing filter; it raises only StopIteration, and only once the producer is drained |
| `LineIter.Skip` | file_iter/file_iter.py:212-213 | the skip loop of `jump` never moves backwards |
| `LineIter.FilteredConsume` | file_iter/file_iter.py:121-149 | `filtered_next` never moves backwards; it raises only StopIteration, and only when no default was given and the producer is drained; without a default, a line it returns passes both the standing filter and the one-shot predicate |
| `LineIter.JumpFrom` | file_iter/file_iter.py:188-215 | `jump(n)` with n < 1 raises IndexError and changes nothing; with n ≥ 1 it fails only with StopIteration and a drained producer; a line it returns passes the standing filter, and at least one line was consumed |
| `LineIter.PeekAt` | file_iter/file_iter.py:250-257 | `peek` fails exactly when the producer is drained and no default was given, and then with StopIteration |
| `LineIter.FirstAccepted` | file_iter/file_iter.py:97-98 | reference definition: the index of the first raw line at or after a point whose stripped form the filter accepts, every line before it being rejected |
| `LineIter.ConsumeFindsFirstAccepted` | file_iter/file_iter.py:94-111 | `__next__` returns the first acceptable stripped line; the position rises by the number of lines examined, rejected ones included; on exhaustion it raises StopIteration with every line consumed and the last rejected line current |
| `LineIter.UnfilteredConsumeIsAdvance` | file_iter/file_iter.py:94-95 | without a standing filter `__next__` is `_next` |
| `LineIter.ExhaustedIsSticky` | file_iter/file_iter.py:108 | once the producer is drained, every further `__next__` raises StopIteration and changes nothing |
| `LineIter.ConsumeKeepsCoherent` | file_iter/file_iter.py:102-111 | the invariant survives every consume: position = start + lines consumed, and the current line is the last consumed line, stripped, or absent before the first |
| `LineIter.UnfilteredRun` | file_iter/file_iter.py:151-166 | with no filter, k calls of `__next__` return the next k source lines, stripped, in order, and add exactly k to the position |
| `LineIter.ReadAll` | file_iter/file_iter.py:102-111 | reading a fresh unfiltered iterator to the end yields every source line stripped, in order, then StopIteration, with the position at start + number of lines |
| `LineIter.BothUnfoldsOnce` | file_iter/file_iter.py:142-145 | one `__next__` under the two filters combined is one `__next__` under the standing filter, repeated while the one-shot predicate rejects the line |
| `LineIter.FilteredConsumeStacks` | file_iter/file_iter.py:142-145 | `filtered_next(f)` is `__next__` under the standing filter and `f` together: the one-shot predicate stacks on the standing one |
| `LineIter.FilteredConsumeDefault` | file_iter/file_iter.py:146-149 | a default replaces StopIteration and nothing else; the lines consumed during a failed search stay consumed |
| `LineIter.FilteredConsumeFindsFirst` | file_iter/file_iter.py:121-149 | `filtered_next(f, default)` returns the first line that passes both filters and counts every line examined; if there is none, it drains the producer and returns the default, or raises StopIteration when no default was given |
| `LineIter.JumpIsRepeatedNext` | file_iter/file_iter.py:209-215 | `jump(n)` for n ≥ 1 equals n successive calls of `__next__`, returning the last result; stopping the skip loop early at exhaustion makes no difference |
| `LineIter.JumpLandsOnAcceptedLine` | file_iter/file_iter.py:212-215 | a successful jump has n ≥ 1, moves forward, and lands on a line that passes the standing filter |
| `LineIter.NthAccepted` | file_iter/file_iter.py:212-215 | reference definition: the index of the n-th raw line from a point whose stripped form the filter accepts, or the end of the source when there are fewer; the index is in range, and a line it names is accepted |
| `LineIter.JumpFindsNthAccepted` | file_iter/file_iter.py:188-215 | `jump(n)` for n ≥ 1 returns the n-th acceptable line from the cursor, stripped, and the position rises by every line examined; when fewer than n acceptable lines remain it raises StopIteration with the producer drained |
| `LineIter.JumpBackwardFails` | file_iter/file_iter.py:209-210 | `jump(n)` with n < 1 raises IndexError("Can only jump forward") and changes nothing |
| `LineIter.UnfilteredJump` | file_iter/file_iter.py:188-215 | without a filter `jump(n)` lands on the n-th next source line, stripped, and adds exactly n to the position; if fewer than n lines remain, it raises StopIteration with the producer drained |
| `LineIter.NextNSplit` | file_iter/file_iter.py:80-100 | n + 1 calls of `__next__` are n calls followed by one more |
| `LineIter.UnfilteredOverrun` | file_iter/file_iter.py:102-111 | without a filter, asking for more lines than remain drains the producer and the last call raises StopIteration |
| `LineIter.PeekThenConsume` | file_iter/file_iter.py:250-257 | a consume after a peek takes the peeked line from the cache and returns it stripped; `__next__` returns that line when the filter accepts it |
| `LineIter.PeekDefaultOnlyWhenEmpty` | file_iter/file_iter.py:250-257 | `peek()` raises StopIteration exactly at exhaustion; `peek(default)` returns the default then, and the next raw line otherwise |
| `LineIter.FreshEmptiness` | file_iter/file_iter.py:56-74 | a fresh iterator satisfies the invariant and is empty exactly when its source is |
| `LineIter.IsDataOfStripped` | file_iter/file_iter.py:352-363 | `is_data` of a stripped line holds exactly when the raw line has a first non-whitespace character and that character is not `#` |
| `FileIterObject.FileIter.constructor` | file_iter/file_iter.py:56-74 | the cache starts empty, there is no current line, the position is the one supplied (default -1), and the filter is stored |
| `FileIterObject.FileIter.NextRaw` | file_iter/file_iter.py:102-111 | `_next` drains the cache before it pulls from the iterator, and does what `Advance` says; it keeps the invariant |
| `FileIterObject.FileIter.Next` | file_iter/file_iter.py:80-100 | `__next__`, with its filter loop, does what `Consume` says and leaves the cache empty |
| `FileIterObject.FileIter.FilteredNext` | file_iter/file_iter.py:121-149 | `filtered_next`, with its loop and its handling of StopIteration, does what `FilteredConsume` says |
| `FileIterObject.FileIter.Position` | file_iter/file_iter.py:151-166 | `position` is the start position plus the number of lines consumed |
| `FileIterObject.FileIter.CurrentLine` | file_iter/file_iter.py:168-186 | `current_line` raises ValueError("Have not read any lines yet") before any read; afterwards it is the last consumed source line, stripped |
| `FileIterObject.FileIter.Jump` | file_iter/file_iter.py:188-215 | `jump`, with its early-stopping skip loop, does what `JumpFrom` says; when n < 1 the cache is untouched |
| `FileIterObject.FileIter.SkipLines` | file_iter/file_iter.py:212-213 | the `islice(self, num - 1)` loop, which stops at the first StopIteration, does what `Skip` says; the cache is empty once any call was made |
| `FileIterObject.FileIter.Peek` | file_iter/file_iter.py:223-257 | `peek` returns `PeekAt` (the raw next line, or the default, or StopIteration) and does not change the position or the current line; afterwards the cache holds exactly the next raw line, unless the source is drained |
| `FileIterObject.FileIter.IsEmpty` | file_iter/file_iter.py:259-275 | `isempty` is true exactly when `peek()` would raise StopIteration, that is, when no line is left; position and current line are unchanged; afterwards the cache holds the next raw line, or nothing if the source is drained |
| `Doctests.ClassDocstring` | file_iter/file_iter.py:30-53 | the class example: "Hello" at 0; a raw "" peeked; "World" at 3; `jump(3)` gives "you?" at 6; afterwards the iterator is empty and `peek("default")` returns "default" |
| `Doctests.NextDocstring` | file_iter/file_iter.py:85-92 | `__next__` under `is_data` gives "data" at position 2, and over blank and comment lines only it raises StopIteration |
| `Doctests.FilteredNextDocstring` | file_iter/file_iter.py:131-140 | `filtered_next(is_data)` gives "hello"; over lines without data it returns the default and then raises StopIteration |
| `Doctests.PositionAndCurrentLineDocstrings` | file_iter/file_iter.py:158-181 | the position starts at -1 and is 1 after reading "a" and "b"; there is no current line at first, and it is "b" after two reads |
| `Doctests.JumpDocstring` | file_iter/file_iter.py:197-207 | `jump(2)` after reading "a" gives "c" at position 2; `jump(-1)` raises IndexError |
| `Doctests.ContextManagerDocstring` | file_iter/file_iter.py:285-309 | on the lines of "Hello\n# comment\n\nWorld" under `is_data`: "Hello" at 0 and "World" at 3, then StopIteration; `jump(2)` ends at line 3 and `jump(-1)` leaves it there |
| `Doctests.AbcReads` | file_iter/file_iter.py:232-248 | the reads that the `peek`, `isempty` and `current_line` examples make over "a", "b", "c": one line at a time without a filter, and "b" passed over when the filter rejects it |
| `Doctests.PeekDocstring` | file_iter/file_iter.py:232-248 | the `peek` example replayed as calls on the class: `peek` gives "a" and leaves the position at -1; `next` gives "a" at 0; `peek` gives "b" with the position still 0, although the filter rejects it; `next` skips "b" and gives "c"; then `peek("default")` gives "default" and `peek()` raises StopIteration |
| `Doctests.CurrentLineDocstring` | file_iter/file_iter.py:173-181 | the `current_line` example replayed as calls on the class: ValueError before the first read, then "a" and "b" read, after which the current line is "b" |
| `Doctests.IsEmptyDocstring` | file_iter/file_iter.py:263-269 | the `isempty` example replayed as calls on the class: not empty at first, "a", "b" and "c" read in turn, empty at the end |
| `Doctests.IsDataDocstring` | file_iter/file_iter.py:356-361 | `is_data` accepts "hello" and rejects "# comment" and "" |

## Left out

- `FileIterContextManager` (file_iter/file_iter.py:278-349) is not part of this model. It
  opens the file, chooses gzip by the `.gz` suffix, closes the handle and adds the note
  "Error reading … at line=…" to an escaping exception. All of that is file I/O and
  exception plumbing. Its examples appear in `ContextManagerDocstring`, applied to the
  lines the file would yield.
- `tmp_file` (file_iter/file_iter.py:366-392) is a temporary-file fixture for the examples.
  It is pure I/O and is not modelled.
- `__iter__` and the iterator protocol are not modelled. The `for` loop over `islice` in
  `jump` is a loop of at most `num - 1` calls of `__next__` that ends at the first
  StopIteration, since `islice` ends when its iterator does.
- LineIter.JumpFrom: does not model the bound that `islice` puts on its stop argument:
  `islice(self, num - 1)` raises ValueError before reading anything when `num - 1` exceeds
  `sys.maxsize`, and the model's integers are unbounded, so it skips lines instead.
- The wrapped iterable is a finite sequence that is read once, front to back. The model
  does not cover infinite or lazily failing producers, or producers that start yielding
  again after StopIteration.
- The filter callables are total, side-effect-free functions from `string` to `bool`. The
  model does not cover a filter that raises, loops forever or has side effects.
- `peek` and `filtered_next` accept any object as a default in Python; here a default is a
  string.
- `Whitespace.IsSpace` is a fixed list of code points: the set that `str.isspace()`
  accepts. Python derives that set from its Unicode database. The model does not follow
  changes to that database.
