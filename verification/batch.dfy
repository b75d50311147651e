/**
 Touching many files: touch each one in turn, never stopping at a failure, and
 reduce the failures to a single error whose text lists them in input order:
 `failed to touch file: [name: err]` for one failure,
 `failed to touch files: [name1: err1] [name2: err2] ...` for more.
 */
module Batch {
  import opened Wrappers
  import SingleFile

  /** One call of the single-file toucher: the name it was given and the error it returned. */
  datatype Attempt = Attempt(name: string, err: Error)

  /** A failed call: the name and the text of its error. */
  datatype Failure = Failure(name: string, text: string)

  /** The head of the aggregated message, before pluralisation. */
  const Prefix: string := "failed to touch file"

  /** How one failure is written in the message. */
  function Entry(f: Failure): string
  {
    "[" + f.name + ": " + f.text + "]"
  }

  /** The failure an attempt contributes: none, or one. */
  function FailureOf(a: Attempt): seq<Failure>
  {
    if a.err.Some? then [Failure(a.name, a.err.value)] else []
  }

  /** The failures among `attempts`, collected in the order the loop visits them. */
  function Failures(attempts: seq<Attempt>): seq<Failure>
  {
    if attempts == [] then []
    else Failures(attempts[..|attempts| - 1]) + FailureOf(attempts[|attempts| - 1])
  }

  /** The message buffer after the loop has visited `attempts`: each failure's
      entry followed by one space. */
  function Buffer(attempts: seq<Attempt>): string
  {
    if attempts == [] then ""
    else
      var last := attempts[|attempts| - 1];
      Buffer(attempts[..|attempts| - 1])
        + (if last.err.Some? then Entry(Failure(last.name, last.err.value)) + " " else "")
  }

  /** The entries of `fs`, separated by single spaces: the list as it should
      read, defined front to back independently of the loop's buffer. */
  function Join(fs: seq<Failure>): (r: string)
    ensures fs == [] <==> r == ""
    ensures fs != [] ==> r[0] == '[' && r[|r| - 1] == ']'
  {
    if fs == [] then ""
    else if |fs| == 1 then Entry(fs[0])
    else Entry(fs[0]) + " " + Join(fs[1..])
  }

  /** "file", or "files" when more than one failed. */
  function Header(nErrors: nat): (r: string)
    ensures |Prefix| <= |r| && r[..|Prefix|] == Prefix
    ensures |r| == |Prefix| + (if nErrors > 1 then 1 else 0)
    ensures nErrors > 1 ==> r[|Prefix|] == 's'
  {
    if nErrors > 1 then Prefix + "s" else Prefix
  }

  /** Failures distribute over concatenation: the attempts of each part
      contribute their own failures, in order. */
  lemma {:induction false} FailuresAppend(a: seq<Attempt>, b: seq<Attempt>)
    ensures Failures(a + b) == Failures(a) + Failures(b)
    decreases |b|
  {
    if b == [] {
      assert a + b == a;
    } else {
      var b', last := b[..|b| - 1], b[|b| - 1];
      assert (a + b)[..|a + b| - 1] == a + b';
      assert (a + b)[|a + b| - 1] == last;
      calc {
        Failures(a + b);
        Failures(a + b') + FailureOf(last);
        { FailuresAppend(a, b'); }
        (Failures(a) + Failures(b')) + FailureOf(last);
        Failures(a) + (Failures(b') + FailureOf(last));
        Failures(a) + Failures(b);
      }
    }
  }

  /** Exactly one failure per failed attempt, at its place in input order:
      those of the attempts before `i`, then that of attempt `i` if it
      failed, then those of the attempts after it. */
  lemma {:induction false} FailuresAt(a: seq<Attempt>, i: nat)
    requires i < |a|
    ensures Failures(a) == Failures(a[..i]) + FailureOf(a[i]) + Failures(a[i + 1..])
  {
    var before, here, after := a[..i], [a[i]], a[i + 1..];
    assert a == (before + here) + after;
    FailuresAppend(before + here, after);
    FailuresAppend(before, here);
    assert here[..0] == [];
    assert Failures(here) == Failures([]) + FailureOf(a[i]);
  }

  /** There is no failure exactly when every attempt returned nil. */
  lemma {:induction false} NoFailuresIffAllNil(a: seq<Attempt>)
    ensures Failures(a) == [] <==> forall i :: 0 <= i < |a| ==> a[i].err.None?
  {
    if a != [] {
      var a' := a[..|a| - 1];
      NoFailuresIffAllNil(a');
      assert forall i :: 0 <= i < |a'| ==> a'[i] == a[i];
    }
  }

  /** Appending one failure to a non-empty list adds a space and its entry. */
  lemma {:induction false} JoinSnoc(fs: seq<Failure>, f: Failure)
    requires fs != []
    ensures Join(fs + [f]) == Join(fs) + " " + Entry(f)
    decreases |fs|
  {
    var head := Entry(fs[0]);
    if |fs| == 1 {
      assert (fs + [f])[1..] == [f];
      assert Join(fs + [f]) == head + " " + Join([f]);
    } else {
      var rest := fs[1..];
      assert (fs + [f])[1..] == rest + [f];
      JoinSnoc(rest, f);
      calc {
        Join(fs + [f]);
        head + " " + Join(rest + [f]);
        head + " " + (Join(rest) + " " + Entry(f));
        (head + " " + Join(rest)) + " " + Entry(f);
        Join(fs) + " " + Entry(f);
      }
    }
  }

  /** The buffer is the joined entries plus one trailing space. */
  lemma {:induction false} BufferIsJoinedEntries(a: seq<Attempt>)
    ensures Failures(a) == [] ==> Buffer(a) == ""
    ensures Failures(a) != [] ==> Buffer(a) == Join(Failures(a)) + " "
  {
    if a != [] {
      var a' := a[..|a| - 1];
      var last := a[|a| - 1];
      BufferIsJoinedEntries(a');
      assert Failures(a) == Failures(a') + FailureOf(last);
      if last.err.Some? {
        var f := Failure(last.name, last.err.value);
        assert Buffer(a) == Buffer(a') + (Entry(f) + " ");
        if Failures(a') == [] {
          assert Failures(a) == [f];
        } else {
          JoinSnoc(Failures(a'), f);
          assert Failures(a) == Failures(a') + [f];
        }
      } else {
        assert Buffer(a) == Buffer(a') + "" == Buffer(a');
        assert Failures(a) == Failures(a') + [] == Failures(a');
      }
    }
  }

  /** Dropping the buffer's last character, as the source does once at least
      one call failed, is in bounds, removes a space, and leaves exactly the
      entries separated by single spaces. */
  lemma {:induction false} TrimIsInBounds(a: seq<Attempt>)
    requires |Failures(a)| > 0
    ensures |Buffer(a)| > 0
    ensures Buffer(a)[|Buffer(a)| - 1] == ' '
    ensures Buffer(a)[..|Buffer(a)| - 1] == Join(Failures(a))
  {
    BufferIsJoinedEntries(a);
  }

  /** Visiting one more attempt extends the failures and the buffer by what
      that attempt contributes. */
  lemma VisitOne(a: seq<Attempt>, x: Attempt)
    ensures Failures(a + [x]) == Failures(a) + FailureOf(x)
    ensures Buffer(a + [x]) == Buffer(a) + (if x.err.Some? then Entry(Failure(x.name, x.err.value)) + " " else "")
  {
  }

  /** Touches each of `names` in order. `results[i]` is the error the
      single-file toucher (`SingleFile.CreateFile`) returns when called with
      `names[i]`. Returns the aggregated error and the log of the calls made. */
  method CreateFiles(names: seq<string>, results: seq<Error>)
    returns (err: Error, attempts: seq<Attempt>)
    requires |results| == |names|
    // One call per name, in input order, none skipped and none merged.
    ensures |attempts| == |names|
    ensures forall i :: 0 <= i < |names| ==> attempts[i] == Attempt(names[i], results[i])
    ensures err.None? <==> forall i :: 0 <= i < |names| ==> results[i].None?
    ensures err.Some? ==> err.value == Header(|Failures(attempts)|) + ": " + Join(Failures(attempts))
  {
    var builder, nErrors;
    builder, nErrors, attempts := Visit(names, results);
    NoFailuresIffAllNil(attempts);
    err := Reduce(builder, nErrors, attempts);
  }

  /** The batch run end to end against the single-file model: `hosts[i]`
      answers the calls made while touching `names[i]`. */
  method CreateFilesOn(names: seq<string>, hosts: seq<SingleFile.Host>)
    returns (err: Error, attempts: seq<Attempt>)
    requires |hosts| == |names|
    ensures |attempts| == |names|
    ensures forall i :: 0 <= i < |names| ==>
              attempts[i] == Attempt(names[i], SingleFile.CreateFile(hosts[i]).err)
    ensures err.None? <==> forall i :: 0 <= i < |hosts| ==> SingleFile.Succeeds(hosts[i])
  {
    var results := seq(|hosts|, i requires 0 <= i < |hosts| => SingleFile.CreateFile(hosts[i]).err);
    err, attempts := CreateFiles(names, results);
  }

  /** The loop of the batch: calls the single-file toucher once per name and,
      for each failure, counts it and appends its entry and a space. */
  method Visit(names: seq<string>, results: seq<Error>)
    returns (builder: string, nErrors: nat, attempts: seq<Attempt>)
    requires |results| == |names|
    ensures |attempts| == |names|
    ensures forall i :: 0 <= i < |names| ==> attempts[i] == Attempt(names[i], results[i])
    ensures builder == Buffer(attempts)
    ensures nErrors == |Failures(attempts)|
  {
    builder := "";
    nErrors := 0;
    attempts := [];
    var i := 0;
    while i < |names|
      invariant 0 <= i <= |names|
      invariant |attempts| == i
      invariant forall j :: 0 <= j < i ==> attempts[j] == Attempt(names[j], results[j])
      invariant builder == Buffer(attempts)
      invariant nErrors == |Failures(attempts)|
    {
      var fileErr := results[i];
      VisitOne(attempts, Attempt(names[i], fileErr));
      attempts := attempts + [Attempt(names[i], fileErr)];
      if fileErr.Some? {
        nErrors := nErrors + 1;
        builder := builder + Entry(Failure(names[i], fileErr.value)) + " ";
      }
      i := i + 1;
    }
  }

  /** The tail of the batch: nil when nothing failed, otherwise the buffer
      without its trailing space, behind the pluralised header. */
  method Reduce(builder: string, nErrors: nat, ghost attempts: seq<Attempt>) returns (err: Error)
    requires builder == Buffer(attempts)
    requires nErrors == |Failures(attempts)|
    ensures err.None? <==> Failures(attempts) == []
    ensures err.Some? ==> err.value == Header(nErrors) + ": " + Join(Failures(attempts))
  {
    if nErrors == 0 {
      return None;
    }
    TrimIsInBounds(attempts);
    var errStr := builder[..|builder| - 1];
    var prefix := Prefix;
    if nErrors > 1 {
      prefix := prefix + "s";
    }
    err := Some(prefix + ": " + errStr);
  }

  /** The "multiple errors" scenario: of four names the second and the fourth
      fail, and the message names exactly those two, in order. */
  lemma TwoOfFourFail(e2: string, e4: string)
    ensures var fs := Failures([Attempt("a", None), Attempt("b", Some(e2)),
                                Attempt("c", None), Attempt("d", Some(e4))]);
            Header(|fs|) + ": " + Join(fs)
              == "failed to touch files: " + Entry(Failure("b", e2)) + " " + Entry(Failure("d", e4))
  {
    var a := [Attempt("a", None), Attempt("b", Some(e2)), Attempt("c", None), Attempt("d", Some(e4))];
    var b, d := Failure("b", e2), Failure("d", e4);
    assert Failures(a) == [b, d] by {
      assert a[..3][..2][..1][..0] == [];
      assert Failures(a[..3][..2][..1]) == [];
      assert Failures(a[..3][..2]) == [b];
      assert Failures(a[..3]) == [b];
    }
    var head := Header(2) + ": ";
    assert head == "failed to touch files: ";
    calc {
      head + Join([b, d]);
      head + (Entry(b) + " " + Entry(d));
      head + Entry(b) + " " + Entry(d);
    }
  }
}
