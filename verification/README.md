# touchd, modelled in Dafny

touchd is a small `touch` utility written in Go. Given file names, it makes
sure each one exists as a regular file. It creates missing parent directories
and missing files, and it updates the access and modification times of files
that already exist. Two functions in `pkg/touchd/touchd.go` hold its logic,
and this project models both of them:

- `CreateFile` touches one file. It is modelled in `single_file.dfy` (module
  `SingleFile`) as a pure function of a `Host` record. The record holds the
  outcome each operating-system call would have: recursive directory creation,
  open, create, close of the created file, stat, and the timestamp update. The
  function returns a `Run`: the calls it made, in order, and the error it
  returned. The deferred close of an opened file is recorded as the call
  `CloseOpened`; Go discards its error, so it has no outcome in `Host`.
- `CreateFiles` touches a batch of files. It is modelled in `batch.dfy`
  (module `Batch`) as a method with the same loop as the source. Beside the
  names it takes, aligned with them, the error each `CreateFile` call returns
  (the outcomes `SingleFile.CreateFile` describes). It returns the aggregated
  error and a log of the calls made to `CreateFile`: each name with the error
  that call returned. `Batch.Visit` is the loop itself, and `Batch.Reduce` is
  the part after it, which turns the buffer and the error count into the
  final error. `Batch.CreateFilesOn` runs the batch with one `Host` per name,
  which joins the two models end to end. The loop invariant ties the string
  builder and the error counter to two left folds, `Buffer` and `Failures`. `Join` is an independent front-to-back definition of the
  entry list. The lemmas show that trimming the buffer's trailing space gives
  exactly `Join` of the failures.

A Go `error` is `Wrappers.Option<string>` (in `wrappers.dfy`). `None` is nil,
and `Some(t)` is a non-nil error whose text is `t`. Error texts are opaque
strings.

## Model

| member | source | states |
|---|---|---|
| `SingleFile.CreateFile` | pkg/touchd/touchd.go:56-90 | A failed directory creation is returned unchanged, and no other call follows it; otherwise the file is opened next, on every path. The create branch is taken exactly when open reports "not exist". In that branch the result is the create error, or the close result when create succeeds. A created file is closed if and only if the create branch was taken and create succeeded, and on no other path. Any other open error is returned as it is, with nothing after it. An opened file is stat'ed, and its handle is released as the last call on every path. A stat error is returned. A directory yields "exists as directory" with no timestamp update. A regular file yields exactly the timestamp update's result. The result is nil exactly when the `Succeeds` conditions hold. |
| `SingleFile.CreateFileInSourceOrder` | pkg/touchd/touchd.go:57-89 | Whatever the host reports, the calls are made in the order the function makes them, and none is made twice. That is the order of the text, except for the deferred close: it is written at touchd.go:74 but runs at return, so it comes last. |
| `SingleFile.CreateFileStopsAtFirstFailure` | pkg/touchd/touchd.go:58-89 | Every call that decides the result, except the last one, let the function continue. The returned error is the verdict of that last deciding call, so the function returns at the first failure with that failure's own error. |
| `Batch.CreateFiles` | pkg/touchd/touchd.go:19-50 | `CreateFile` is called once per name, in input order, with no early exit, and duplicate names are called again. The result is nil if and only if every call returned nil. Otherwise the message is the pluralised header, then `": "`, then one entry `[name: text]` per failure (`Batch.Entry`), joined by single spaces. |
| `Batch.CreateFilesOn` | pkg/touchd/touchd.go:19-30 | The batch run against the single-file model: each name's recorded result is what `SingleFile.CreateFile` returns for that name's host answers. The batch returns nil if and only if every name's host answers meet `SingleFile.Succeeds`. |
| `Batch.Visit` | pkg/touchd/touchd.go:20-30 | The loop logs one call per name, with that name's own result, in input order. Afterwards the builder is the buffer of those calls (one entry and a space per failure), and the counter is the number of failures. |
| `Batch.VisitOne` | pkg/touchd/touchd.go:26-29 | One more call adds that call's failure, if any, to the failure list. It also adds that call's entry and one space to the buffer. A call returning nil adds nothing to either. |
| `Batch.Reduce` | pkg/touchd/touchd.go:32-49 | The result is nil exactly when nothing failed. Otherwise it is the pluralised header, `": "`, and the failures' entries joined by single spaces, which is the buffer with its trailing space trimmed. |
| `Batch.Join` | pkg/touchd/touchd.go:39-40 | The joined entry list is empty only when there are no failures. Otherwise it starts with `[` and ends with `]`, so it has no trailing space. |
| `Batch.Header` | pkg/touchd/touchd.go:43-47 | The header starts with "failed to touch file". It is exactly that text for zero or one failure, and that text followed by `s` when more than one call failed. |
| `Batch.FailuresAppend` | pkg/touchd/touchd.go:25-30 | The failures collected over two consecutive runs of names are those of the first run followed by those of the second. |
| `Batch.FailuresAt` | pkg/touchd/touchd.go:25-30 | Each failed call adds exactly one failure, at its own position in input order. A call that returned nil adds nothing. |
| `Batch.NoFailuresIffAllNil` | pkg/touchd/touchd.go:26-36 | No failure is recorded if and only if every call returned nil. |
| `Batch.JoinSnoc` | pkg/touchd/touchd.go:28 | Appending a failure to a non-empty list adds one space and then that failure's entry. |
| `Batch.BufferIsJoinedEntries` | pkg/touchd/touchd.go:21-30 | When nothing failed, the builder is empty. Otherwise it equals the space-joined entries followed by exactly one space. |
| `Batch.TrimIsInBounds` | pkg/touchd/touchd.go:34-40 | When at least one call failed, the buffer is non-empty and its last character is a space. Dropping that character leaves exactly the space-joined entries. |
| `Batch.TwoOfFourFail` | pkg/touchd/touchd_test.go:119-131 | With four names where the second and fourth fail, the message is "failed to touch files: " followed by the entries of those two names, in order. |

## Left out

- `cmd/touchd/main.go` is not part of this model. It handles flag parsing, the usage text, printing to stderr, and exit codes, which are all command-line glue.
- What `os.MkdirAll`, `os.Open`, `os.Create`, `Close`, `file.Stat`, `os.Chtimes` and `filepath.Dir` do is not modelled. These are operating-system and library calls, so their outcomes are inputs (`Host`). The `0755` directory mode is passed to `os.MkdirAll` and matters only inside that call.
- `Batch.CreateFiles`: each call's error is an input, aligned with the names. The model therefore does not state how one call's effect on the filesystem changes the outcomes of later calls, for example a file created by an earlier name that blocks a later name's directory. That is filesystem behaviour.
- `SingleFile.CreateFile`: recorded calls carry no arguments. The model does not state that directory creation receives the file's parent directory, or that the other calls receive the file name itself.
- `time.Now().Local()` is left out. It is a wall-clock read, and only the time-update call consumes it.
- The error of the deferred `file.Close()` is left out, because the source discards it.
- How `fmt` renders an error with `%s` is left out. Each error is represented only by its text.
- Go strings are byte strings, and the model uses `seq<char>`. The trimmed character is always an ASCII space, one byte, so trimming behaves the same in both.
