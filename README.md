# unOS build configuration reader, modelled in Dafny

This project models the configuration front end and executor of the unOS build script,
`build.py`. The script reads a per-architecture configuration. A lexer turns the text into
`[category, char]` tokens. A grouper splits the tokens into statements of two groups:
flags before a `--`, values after it. The class `ConfigRead` holds a queue of
`[name, args]` entries. Its `run` method dispatches each entry through a registry of
handlers (`copy`, `move`, `mkdir`, `echo`, `build`) and unwraps each handler's
Rust-style `Result`.

The modules follow the script's structure:

- `Results` (`results.dfy`): `Result` as `Ok`/`Err` with `IsOk`, `IsErr` and `Unwrap`.
  Unwrapping an error ends the process with status 2, as the fatal log level does.
- `Lexer` (`lexer.dfy`): the lookup table, built update by update, and the lexing loop.
  Unknown characters are reported by position and dropped.
- `Grouper` (`grouper.dfy`): the grouping loop `split`, modelled as written. It is proved
  equal to a reference fold that appends each kept token as soon as it is seen. The
  model proves what the statements hold: how many there are, which tokens they hold, and
  that each group keeps input order.
- `Paths` (`paths.dfy`): `os.path.basename` and `os.path.join` for POSIX paths.
- `FileSystem` (`filesystem.dfy`): `_fs_io_check`, `_fs_io_real` and the loops of
  `copy`, `move` and `mkdir`. They act on an abstract filesystem, given as a set of
  directory paths and a set of file paths.
- `Executor` (`executor.dfy`): the registry, the class `ConfigRead` with its handlers,
  and `run`. Each method is proved against a function (`Execute`, `RunFrom`) that states
  what the method returns and what it leaves in the world. The world is the filesystem,
  the printed lines and the log.

Three behaviours of `build.py` are easy to miss; the model follows them:

- `split` starts with the escape flag `skipped` set (build.py:343). The first control
  token of the input (`-`, `\`, newline or `;`), wherever it occurs, only clears the
  flag, and is then appended as a literal. `FirstControlIsLiteral` states this.
- `split` appends each kept token one iteration late. The last token is therefore never
  appended (see Findings).
- In `copy` and `move` a failed `_fs_io_check` is unwrapped inside the handler. In the
  model the handler returns that error and `run` unwraps it. The observable effect is the
  same: a fatal log entry, exit status 2, and no later entry runs.

## Model

| member | source | states |
|---|---|---|
| Results.OkOrErr | build.py:90-94 | `IsOk` holds exactly for an Ok result and `IsErr` exactly for an Err result; every result is exactly one of the two |
| Results.Result.Unwrap | build.py:96-99 | unwrapping exits exactly when the result is an error, with the fatal status 2 and the error as cause; otherwise it yields the value |
| Lexer.TableLookup | build.py:381-401 | `Classify` agrees with the table built by the four updates: a character is in the table iff it has a category, and the entry is that category |
| Lexer.Classification | build.py:381-396 | letters are LETTER, digits are NUMBER, the eleven overrides win over punctuation, other punctuation is PUNCTUATION, and nothing else has a category |
| Lexer.OverridesOutsidePunctuation | build.py:383-396 | space and newline are the only overrides that are not in `string.punctuation` |
| Lexer.Lex | build.py:403-409 | no more tokens than characters, and each token carries its character's category from the table |
| Lexer.LexKeepsKnown | build.py:403-409 | the characters of `Lex`'s tokens are exactly the known characters of the input, in order |
| Lexer.LexTokens | build.py:403-409 | the loop yields the lexer's tokens and reports exactly the positions of unknown characters, in increasing order; tokens and reports together account for every character |
| Grouper.Statement.Append | build.py:348 | appending to one group adds the token at its end and leaves the other group alone |
| Grouper.ScanAgrees | build.py:340-376 | after any token sequence, the escape flag matches an independent definition; there is one statement per unescaped line break plus one; the statements hold exactly the kept tokens; each group is an in-order subsequence of them |
| Grouper.SplitContents | build.py:339-377 | `Split` (the source's result) has one statement per unescaped line break plus one and holds exactly the kept tokens of all but the last token, each group in input order; no tokens give one empty statement |
| Grouper.Advance | build.py:350-376 | processing one token never changes the statements already produced, adds a statement only for an unescaped line break, and changes the write target only on the second of two unescaped dashes |
| Grouper.AdvanceRules | build.py:350-376 | each token keeps the state well formed; a second pending dash flips the write target, a first one arms it, and an unescaped line break opens a new statement |
| Grouper.RunAppend | build.py:345 | grouping `a + b` is grouping `a` and then `b` from where `a` left off |
| Grouper.RunPlain | build.py:375-376 | tokens with no control kind are appended in order to the current group of the last statement |
| Grouper.PlainStatement | build.py:339-377 | an input without control tokens becomes one statement whose flags are all tokens but the last |
| Grouper.FirstControlIsLiteral | build.py:343-371 | the first control token after plain tokens is absorbed and kept as a literal, and the escape is disarmed |
| Grouper.DashPair | build.py:354-360 | two dashes outside an escape switch the write target and leave no dash pending |
| Grouper.Delimiter | build.py:345-376 | in `flags -- values`, the flags go to the current group and the values to the other |
| Grouper.SplitTokens | build.py:339-377 | the loop with its delayed append computes `Split` |
| Grouper.LastTokenDropped | build.py:345-377 | two letters give one statement holding only the first letter, where the flushed grouping holds both |
| Grouper.FlushedKeepsAll | build.py:339-377 | the corrected grouping holds every kept token, each group in order, with one statement per unescaped line break plus one |
| Paths.Basename | build.py:317 | the basename contains no separator and is no longer than the path |
| Paths.BasenameAfterLastSeparator | build.py:317 | the basename is a suffix of the path and, when shorter than the path, follows a separator: it is the last component |
| Paths.JoinPlainName | build.py:317 | `Join`: joining a directory with a plain name keeps the directory as a prefix, and the basename of the result is that name |
| FileSystem.MakeDirs | build.py:270 | `makedirs` with `exist_ok` fails exactly on an existing file; otherwise it adds the directory and keeps the filesystem valid |
| FileSystem.CopyTree | build.py:319 | `copytree` succeeds exactly when the target does not exist, and keeps the filesystem valid |
| FileSystem.CopyFile | build.py:321 | `copyfile` succeeds exactly when the source is a file, the target is another path and the target is not a directory |
| FileSystem.Move | build.py:319-321 | `shutil.move` succeeds exactly when it may: a directory onto itself changes nothing; otherwise the source must exist, a target inside a directory must be new, and a directory cannot replace a file or enter its own subtree |
| FileSystem.FsIoCheck | build.py:307-312 | rejects exactly no sources, or several sources with a destination that is not a directory, with the matching error |
| FileSystem.EffectiveDestinationKeepsName | build.py:316-317 | `EffectiveDestination`: into a directory a source keeps its basename under that directory; otherwise the destination is used as given |
| FileSystem.FsIoReal | build.py:315-322 | when each handler succeeds, in both directions; on success the source exists at its landing path with its own kind, nothing else is added, copying removes nothing and moving removes only the source; validity is kept |
| FileSystem.TransferRejects | build.py:280-283 | `Transfer`: an empty argument list, or one the check rejects, fails and leaves the filesystem unchanged |
| FileSystem.TransferAllInOrder | build.py:284-288 | `TransferAll`: sources are transferred in order, and the first failure stops the rest |
| FileSystem.TransferAllValid | build.py:284-288 | a transfer keeps the filesystem valid, whether it completes or stops early |
| FileSystem.CopySingleFile | build.py:280-289 | copying one existing file to another path that is not a directory succeeds and adds exactly that file |
| FileSystem.MoveIntoNestedDirectory | build.py:255-264 | `move a d` with a directory `d/a` present moves `a` to `d/a/a` |
| FileSystem.MoveOntoItself | build.py:255-264 | `move d/a d` names `d/a` itself as target and succeeds without change |
| FileSystem.MkdirAllEffect | build.py:266-273 | `MkdirAll`: `mkdir` succeeds iff none of its paths is a file; it never changes files, and on success it adds exactly its paths as directories |
| FileSystem.MkdirIdempotent | build.py:266-273 | running `mkdir` again on the same paths succeeds and changes nothing |
| Executor.EchoRoundTrip | build.py:277 | `JoinWords`: splitting the echoed line at spaces gives back the words, when none contains a space |
| Executor.Execute | build.py:252-289 | no handler writes the log; echo and build always succeed and leave the filesystem alone; only echo prints, and it prints its arguments joined by spaces |
| Executor.ExitStopsRun | build.py:291-299 | `RunFrom`: a run that exits stops at a registered entry whose handler failed on the world the completed entries before it left; the status is 1 for the index error and 2 otherwise, when the error is logged as fatal; the entries after it have no effect |
| Executor.HandlerErrorStops | build.py:294-297 | conversely, when the entries before `k` complete and the handler of entry `k` fails, the run exits at `k` with status 1 for the index error, and otherwise with status 2 and the error logged as fatal |
| Executor.CompletedRun | build.py:294-299 | a run that completes has logged exactly the unknown command names, in queue order |
| Executor.RunInOrder | build.py:294 | running `a + b` is running `a` and then, if it completed, `b` on what `a` left |
| Executor.UnknownCommandScenario | build.py:296-299 | an unknown command is logged and the next entry still runs |
| Executor.CopyPreconditionScenario | build.py:280-283 | copying two sources to a non-directory exits with status 2 and leaves the filesystem untouched |
| Executor.MkdirEchoScenario | build.py:266-278 | `mkdir` then `echo` creates the directory and prints the words joined by spaces |
| Executor.ConfigRead.constructor | build.py:242-249 | the registry (`Registry`) maps the five command names to their handlers |
| Executor.ConfigRead.Build | build.py:252-253 | `build` always succeeds |
| Executor.ConfigRead.Echo | build.py:275-278 | `echo` prints its arguments joined by spaces, as `Execute` specifies |
| Executor.ConfigRead.Mkdir | build.py:266-273 | the `mkdir` loop leaves exactly the result and world that `Execute` specifies |
| Executor.ConfigRead.Copy | build.py:280-289 | `copy` leaves exactly the result and world that `Execute` specifies |
| Executor.ConfigRead.Move | build.py:255-264 | `move` leaves exactly the result and world that `Execute` specifies |
| Executor.ConfigRead.TransferEntry | build.py:280-289 | the shared copy/move body computes `Transfer` on the filesystem and touches neither the printed lines nor the log |
| Executor.ConfigRead.Run | build.py:291-299 | the run loop leaves exactly the outcome and world that `RunFrom` specifies |

## Left out

- The logger `printf` and its formatting are not modelled. A message is a `Diagnostic`
  value appended to the log. The "Unknown symbol" report of the lexer is the list of
  positions that `LexTokens` returns.
- The verbose mode of the fatal level (build.py:221-224), which calls `printf` again
  instead of exiting, is not modelled. The model always exits with status 2.
- `parse`, `preparse` and `gen_str` are unfinished in the source. They are not part of
  this model, and the constructor takes the queue as given. `File`, `LogFile`,
  `definitions`, `get_arch`, `check_sys`, argument parsing and `main` are not part of
  this model either.
- The filesystem is two sets of paths. Parent directories are not required or created,
  and the contents of a copied or moved directory tree are not modelled. Permissions,
  symbolic links and other OS errors are not modelled.
- Every filesystem test compares path strings as written: `isdir` and `exists`, the copy
  and move targets, and `makedirs`. So `d/`, `./d` and `d` are three different paths, and
  the empty path is an ordinary one. For example, `copy a b out/` with a directory `out`
  copies both files into `out` in the source, since `os.path.isdir("out/")` holds; the
  model finds no directory `out/` and exits with status 2. Likewise `os.makedirs("")`
  fails, while `MakeDirs` adds `""` as a directory.
- FileSystem.Move: paths are compared as written. `shutil.move` compares files by
  identity and normalises paths before its "into itself" test, so paths that differ
  only by `.`, `..` or a trailing `/` are treated as different here.
- FileSystem.CopyFile: the same-file test compares paths as written, not file identity.
- `Result()` and `Result(e=...)` do not match `Result.__init__(self, data)`: as written,
  each call raises `TypeError`, which `run` does not catch. The model takes the evident
  reading: `Result()` is `Ok` and `Result(e=...)` is `Err`. The tuple conversion of
  iterable data in `__init__` is not modelled either.
- Executor.RunFrom: the fatal message carries the error kind. As written, the message is
  always `str(Exception)`, the text of the class rather than of the error.
- Executor.RunFrom: only a missing registry entry is reported as an unresolved command. A
  `KeyError` raised inside a handler would be reported the same way as written; no
  modelled handler raises one.
- The `IndexError` that `data[-1]` raises on an empty argument list of `copy` or `move`
  is modelled as the error `IndexOutOfRange`. It ends the run with status 1 and adds no
  log entry.
- `print` in `echo` appends a line to `stdout`; output buffering is not modelled.

## Findings

| source | as written | input that shows it | evidently intended | confidence | as-written member | corrected member |
|---|---|---|---|---|---|---|
| build.py:345-377 | `split` appends the previous token at the start of each iteration and does not append after the loop, so the last token of the input is never appended | two letters `a b`: the result is one statement whose flags hold only `a` | every kept token, the last one included, is appended to its statement | not executed | Grouper.LastTokenDropped | Grouper.FlushedKeepsAll |
