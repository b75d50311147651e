/**
 Touching one file: create its parent directories, then either create the file
 or, when it already exists, update its access and modification times.

 Every operating-system call is left uninterpreted: its outcome is part of the
 input, a `Host` record, and the model only says which calls are made, in what
 order, and which error comes back.
 */
module SingleFile {
  import opened Wrappers

  /** Text of the error returned for a path that exists as a directory. */
  const ExistsAsDirectory: string := "exists as directory"

  /** What opening the file for reading reported. `notExist` is whether the
      error matches "file does not exist". */
  datatype OpenOutcome = Opened | OpenFailed(text: string, notExist: bool)

  /** What asking the opened file for its metadata reported. */
  datatype StatOutcome = StatFailed(text: string) | StatOk(isDir: bool)

  /** The outcome each call would have, were it made: recursive creation of the
      parent directory, opening the file, creating it, closing the created file,
      reading the opened file's metadata, and setting its times. */
  datatype Host = Host(
    mkdirAll: Error,
    open: OpenOutcome,
    create: Error,
    closeCreated: Error,
    stat: StatOutcome,
    chtimes: Error)

  /** The operating-system calls the function can make. `CloseOpened` is the
      deferred close of the file opened for reading; its error is discarded. */
  datatype Call = MkdirAll | Open | Create | CloseCreated | Stat | Chtimes | CloseOpened

  /** The calls made, in order, and the error returned. */
  datatype Run = Run(calls: seq<Call>, err: Error)

  /** Position of each call in the order the function makes them. This is the
      order of the text except for the deferred close: it is written right after
      the open (touchd.go:74) but runs when the function returns, so it comes last. */
  function Rank(c: Call): nat
  {
    match c
    case MkdirAll => 0
    case Open => 1
    case Create => 2
    case CloseCreated => 3
    case Stat => 4
    case Chtimes => 5
    case CloseOpened => 6
  }

  /** The calls follow the order the function makes them: each call ranks
      strictly after the one before, so none is made twice. */
  predicate InSourceOrder(calls: seq<Call>)
  {
    forall i :: 0 < i < |calls| ==> Rank(calls[i - 1]) < Rank(calls[i])
  }

  /** What a call means for the function: nil when it lets the function go on,
      otherwise the error that ends it. Opening a file that does not exist is no
      failure: it selects the creation branch. The verdict of `Stat` includes the
      directory test made on its result. The deferred close decides nothing. */
  function Verdict(h: Host, c: Call): Error
  {
    match c
    case MkdirAll => h.mkdirAll
    case Open => if h.open.OpenFailed? && !h.open.notExist then Some(h.open.text) else None
    case Create => h.create
    case CloseCreated => h.closeCreated
    case Stat =>
      (match h.stat
       case StatFailed(t) => Some(t)
       case StatOk(isDir) => if isDir then Some(ExistsAsDirectory) else None)
    case Chtimes => h.chtimes
    case CloseOpened => None
  }

  /** The calls that decide the result: all of them but a trailing deferred close. */
  function Deciding(calls: seq<Call>): seq<Call>
  {
    if |calls| > 0 && calls[|calls| - 1] == CloseOpened then calls[..|calls| - 1] else calls
  }

  /** The run stops at its first failing call and returns that call's error:
      every deciding call before the last one let the function go on. */
  predicate StopsAtFirstFailure(h: Host, r: Run)
  {
    var d := Deciding(r.calls);
    && |d| > 0
    && (forall i :: 0 <= i < |d| - 1 ==> Verdict(h, d[i]).None?)
    && r.err == Verdict(h, d[|d| - 1])
  }

  /** The circumstances in which touching succeeds: the parent directory exists
      or is made, and either the missing file is created and closed, or the
      existing regular file gets its times updated. */
  predicate Succeeds(h: Host)
  {
    && h.mkdirAll.None?
    && match h.open
       case OpenFailed(_, notExist) => notExist && h.create.None? && h.closeCreated.None?
       case Opened => h.stat == StatOk(false) && h.chtimes.None?
  }

  /** Touches one file, the host answering each call with the outcome `h` holds. */
  function CreateFile(h: Host): (r: Run)
    ensures |r.calls| > 0 && r.calls[0] == MkdirAll
    ensures r.err.None? <==> Succeeds(h)
    // A failed directory creation is returned unchanged and nothing follows it.
    ensures h.mkdirAll.Some? ==> r.calls == [MkdirAll] && r.err == h.mkdirAll
    // Otherwise the file is always opened next.
    ensures h.mkdirAll.None? ==> |r.calls| >= 2 && r.calls[1] == Open
    // The creation branch is taken exactly when the file is reported missing.
    ensures Create in r.calls <==> h.mkdirAll.None? && h.open.OpenFailed? && h.open.notExist
    ensures Create in r.calls ==> Stat !in r.calls && Chtimes !in r.calls
    ensures Create in r.calls ==> r.err == (if h.create.Some? then h.create else h.closeCreated)
    ensures CloseCreated in r.calls <==> Create in r.calls && h.create.None?
    // Any other open failure is returned as it is.
    ensures h.mkdirAll.None? && h.open.OpenFailed? && !h.open.notExist ==>
              r.calls == [MkdirAll, Open] && r.err == Some(h.open.text)
    // An opened file is inspected, and its handle is released last on every path.
    ensures Stat in r.calls <==> h.mkdirAll.None? && h.open.Opened?
    ensures CloseOpened in r.calls <==> Stat in r.calls
    ensures CloseOpened in r.calls ==> r.calls[|r.calls| - 1] == CloseOpened
    ensures Stat in r.calls && h.stat.StatFailed? ==> r.err == Some(h.stat.text) && Chtimes !in r.calls
    // A directory is reported and left alone; a regular file gets exactly the time update's result.
    ensures Stat in r.calls && h.stat == StatOk(true) ==>
              r.err == Some(ExistsAsDirectory) && Chtimes !in r.calls
    ensures Chtimes in r.calls <==> Stat in r.calls && h.stat == StatOk(false)
    ensures Chtimes in r.calls ==> r.err == h.chtimes
  {
    if h.mkdirAll.Some? then
      Run([MkdirAll], h.mkdirAll)
    else
      match h.open
      case OpenFailed(text, notExist) =>
        if notExist then
          if h.create.Some? then Run([MkdirAll, Open, Create], h.create)
          else Run([MkdirAll, Open, Create, CloseCreated], h.closeCreated)
        else
          Run([MkdirAll, Open], Some(text))
      case Opened =>
        match h.stat
        case StatFailed(text) => Run([MkdirAll, Open, Stat, CloseOpened], Some(text))
        case StatOk(isDir) =>
          if isDir then Run([MkdirAll, Open, Stat, CloseOpened], Some(ExistsAsDirectory))
          else Run([MkdirAll, Open, Stat, Chtimes, CloseOpened], h.chtimes)
  }

  /** Whatever the host answers, the calls are made in the function's order,
      with the deferred close last, and none twice. */
  lemma CreateFileInSourceOrder(h: Host)
    ensures InSourceOrder(CreateFile(h).calls)
  {
  }

  /** Whatever the host answers, the result is the error of the first call that
      fails, or nil when none does. */
  lemma CreateFileStopsAtFirstFailure(h: Host)
    ensures StopsAtFirstFailure(h, CreateFile(h))
  {
  }
}
