/** The chunker: how BulkExecChunk cuts the objects into consecutive chunks,
    and what running BulkExec once per chunk executes and reports. */
module Chunker {
  import opened Types
  import opened Gorm
  import opened RowNormalizer
  import opened ExecFuncs
  import opened Assembler

  // ---------------------------------------------------------------------------
  // Cutting the input

  /** The chunks the loop takes: all that is left once it fits in one chunk,
      otherwise the next `size` elements. An empty input is one empty chunk. */
  function Chunks<T>(s: seq<T>, size: nat): (r: seq<seq<T>>)
    requires size > 0
    ensures r != []
    decreases |s|
  {
    if |s| <= size then [s] else [s[..size]] + Chunks(s[size..], size)
  }

  /** The chunks laid end to end. */
  function Flatten<T>(chunks: seq<seq<T>>): seq<T>
    decreases |chunks|
  {
    if chunks == [] then [] else chunks[0] + Flatten(chunks[1..])
  }

  /** The chunks are consecutive pieces of the input, in order: together they
      are the input. */
  lemma {:induction false} ChunksCoverInput<T>(s: seq<T>, size: nat)
    requires size > 0
    ensures Flatten(Chunks(s, size)) == s
    decreases |s|
  {
    if |s| > size {
      var r := Chunks(s, size);
      ChunksCoverInput(s[size..], size);
      assert r[1..] == Chunks(s[size..], size);
      assert s == s[..size] + s[size..];
    } else {
      assert Flatten([s]) == s + Flatten<T>([]);
    }
  }

  /** Every chunk but the last holds exactly `size` elements; the last holds
      between one and `size`, or is the single empty chunk of an empty input. */
  lemma {:induction false} ChunkSizes<T>(s: seq<T>, size: nat)
    requires size > 0
    ensures var r := Chunks(s, size);
      (forall i :: 0 <= i < |r| - 1 ==> |r[i]| == size)
      && (s == [] ==> r == [[]])
      && (s != [] ==> 1 <= |r[|r| - 1]| <= size)
    decreases |s|
  {
    if |s| > size {
      ChunkSizes(s[size..], size);
      var r := Chunks(s, size);
      assert r[1..] == Chunks(s[size..], size);
      forall i | 0 <= i < |r| - 1 ensures |r[i]| == size {
        if i > 0 {
          assert r[i] == Chunks(s[size..], size)[i - 1];
        }
      }
    }
  }

  /** The number of chunks is the input size divided by `size`, rounded up
      (one for an empty input): the chunks before the last hold fewer objects
      than the input, all of them hold at least as many. */
  lemma {:induction false} ChunkCount<T>(s: seq<T>, size: nat)
    requires size > 0
    ensures var c := |Chunks(s, size)|;
      (s == [] ==> c == 1) && (s != [] ==> Offset(c - 1, size) < |s| <= Offset(c, size))
    decreases |s|
  {
    if |s| > size {
      ChunkCount(s[size..], size);
      assert |Chunks(s, size)| == |Chunks(s[size..], size)| + 1;
    }
  }

  /** Seven objects in chunks of three: chunks of three, three and one. */
  lemma SevenInChunksOfThree<T>(s: seq<T>)
    requires |s| == 7
    ensures var r := Chunks(s, 3);
      |r| == 3 && r[0] == s[..3] && r[1] == s[3..6] && r[2] == s[6..]
  {
    var t := s[3..];
    var u := t[3..];
    assert |t| == 4 && |u| == 1;
    assert Chunks(u, 3) == [u];
    assert Chunks(t, 3) == [t[..3]] + [u];
    assert Chunks(s, 3) == [s[..3]] + Chunks(t, 3);
    assert t[..3] == s[3..6] && u == s[6..];
  }

  // ---------------------------------------------------------------------------
  // Running the chunks

  /** What one BulkExec call does: the statement it executes, if any, and the
      error it returns, if any. */
  datatype Step = Step(executed: Option<Statement>, error: Option<Error>)

  /** BulkExec on `objects` with the clock reading `now`, the data store
      answering as `respond` does to the n-th statement: an assembly error is
      returned with nothing executed; no objects execute nothing; otherwise the
      statement is executed and the data store's error, if any, returned. */
  ghost function ExecStep(objects: seq<Object>, now: Time, execFunc: ExecFunc, insertOption: Option<string>,
                          respond: (nat, Statement) -> Option<string>, n: nat): Step
  {
    match Assemble(objects, now, execFunc, insertOption)
    case Failure(e) => Step(None, Some(e))
    case Success(None) => Step(None, None)
    case Success(Some(st)) => Step(Some(st), ExecError(respond(n, st)))
  }

  /** The values that are present, in order. */
  function Somes<T>(xs: seq<Option<T>>): (r: seq<T>)
    ensures |r| <= |xs|
    decreases |xs|
  {
    if xs == [] then []
    else (if xs[0].Some? then [xs[0].value] else []) + Somes(xs[1..])
  }

  /** How many of the values are present. */
  function CountSome<T>(xs: seq<Option<T>>): nat
    decreases |xs|
  {
    if xs == [] then 0 else (if xs[0].Some? then 1 else 0) + CountSome(xs[1..])
  }

  function ErrorsOf(steps: seq<Step>): (r: seq<Option<Error>>)
    ensures |r| == |steps| && forall i :: 0 <= i < |steps| ==> r[i] == steps[i].error
  {
    seq(|steps|, i requires 0 <= i < |steps| => steps[i].error)
  }

  function ExecutedOf(steps: seq<Step>): (r: seq<Option<Statement>>)
    ensures |r| == |steps| && forall i :: 0 <= i < |steps| ==> r[i] == steps[i].executed
  {
    seq(|steps|, i requires 0 <= i < |steps| => steps[i].executed)
  }

  /** The errors the steps return, in step order. */
  function Errors(steps: seq<Step>): seq<Error> {
    Somes(ErrorsOf(steps))
  }

  /** The statements the steps execute, in step order. */
  function Executed(steps: seq<Step>): seq<Statement> {
    Somes(ExecutedOf(steps))
  }

  /** BulkExec as the chunk loop calls it: on chunk `k`, reading `clock(k)`,
      after `n` statements. */
  ghost function Runner(execFunc: ExecFunc, insertOption: Option<string>,
                        respond: (nat, Statement) -> Option<string>, clock: nat -> Time)
    : (seq<Object>, nat, nat) -> Step
  {
    (chunk: seq<Object>, k: nat, n: nat) => ExecStep(chunk, clock(k), execFunc, insertOption, respond, n)
  }

  /** The steps of calling `run` once per chunk, the chunks numbered from `k`,
      starting with `n` statements already sent to the store. */
  ghost function Steps(chunks: seq<seq<Object>>, run: (seq<Object>, nat, nat) -> Step,
                       k: nat, n: nat): (r: seq<Step>)
    ensures |r| == |chunks|
    decreases |chunks|
  {
    if chunks == [] then []
    else
      var s := run(chunks[0], k, n);
      [s] + Steps(chunks[1..], run, k + 1, n + if s.executed.Some? then 1 else 0)
  }

  // ---------------------------------------------------------------------------
  // Properties of a chunked run

  lemma {:induction false} SomesAppend<T>(xs: seq<Option<T>>, x: Option<T>)
    ensures Somes(xs + [x]) == Somes(xs) + (if x.Some? then [x.value] else [])
    ensures CountSome(xs + [x]) == CountSome(xs) + (if x.Some? then 1 else 0)
    decreases |xs|
  {
    if xs != [] {
      SomesAppend(xs[1..], x);
      assert (xs + [x])[1..] == xs[1..] + [x];
    } else {
      assert [x][1..] == [];
    }
  }

  lemma {:induction false} SomesCount<T>(xs: seq<Option<T>>)
    ensures |Somes(xs)| == CountSome(xs)
    decreases |xs|
  {
    if xs != [] {
      SomesCount(xs[1..]);
    }
  }

  /** The present value at position `i` is the entry numbered by how many
      present values come before it: order is kept. */
  lemma {:induction false} SomesAt<T>(xs: seq<Option<T>>, i: int)
    requires 0 <= i < |xs| && xs[i].Some?
    ensures CountSome(xs[..i]) < |Somes(xs)| && Somes(xs)[CountSome(xs[..i])] == xs[i].value
    decreases |xs|
  {
    SomesCount(xs);
    if i > 0 {
      SomesAt(xs[1..], i - 1);
      assert xs[..i][1..] == xs[1..][..i - 1];
      SomesCount(xs[1..]);
    }
  }

  /** No value is present exactly when the result is empty. */
  lemma {:induction false} SomesEmpty<T>(xs: seq<Option<T>>)
    ensures Somes(xs) == [] <==> forall i :: 0 <= i < |xs| ==> xs[i].None?
    decreases |xs|
  {
    if xs != [] {
      SomesEmpty(xs[1..]);
      assert forall i :: 1 <= i < |xs| ==> xs[i] == xs[1..][i - 1];
    }
  }

  lemma ConsOutcomes(s: Step, rest: seq<Step>)
    ensures Errors([s] + rest) == (if s.error.Some? then [s.error.value] else []) + Errors(rest)
    ensures Executed([s] + rest) == (if s.executed.Some? then [s.executed.value] else []) + Executed(rest)
  {
    assert ErrorsOf([s] + rest)[1..] == ErrorsOf(rest);
    assert ExecutedOf([s] + rest)[1..] == ExecutedOf(rest);
  }

  /** The loop's view of a run: the first chunk is all that is left when it
      fits, otherwise the next `size` objects, and the run continues on the
      rest only in the second case. */
  lemma RunFirstChunk(rest: seq<Object>, size: nat, run: (seq<Object>, nat, nat) -> Step, k: nat, n: nat)
    requires size > 0
    ensures var first := if |rest| <= size then rest else rest[..size];
      var s := run(first, k, n);
      Steps(Chunks(rest, size), run, k, n)
      == [s] + (if |rest| <= size then []
                else Steps(Chunks(rest[size..], size), run, k + 1, n + if s.executed.Some? then 1 else 0))
  {
    var chunks := Chunks(rest, size);
    if |rest| > size {
      assert chunks[1..] == Chunks(rest[size..], size);
    }
  }

  /** One turn of the chunk loop: the steps still to come lose their first
      step, which joins the steps done. */
  lemma ChunkLoopTurn(all: seq<Step>, done: seq<Step>, rest: seq<Object>, size: nat,
                      run: (seq<Object>, nat, nat) -> Step, k: nat, n: nat)
    requires size > 0
    requires all == done + Steps(Chunks(rest, size), run, k, n)
    ensures var first := if |rest| <= size then rest else rest[..size];
      var s := run(first, k, n);
      if |rest| <= size then all == done + [s]
      else all == (done + [s]) + Steps(Chunks(rest[size..], size), run, k + 1,
                                       n + if s.executed.Some? then 1 else 0)
  {
    RunFirstChunk(rest, size, run, k, n);
  }

  /** One more step adds its error and its statement, if any, at the end. */
  lemma OutcomesAppend(done: seq<Step>, s: Step)
    ensures Errors(done + [s]) == Errors(done) + (if s.error.Some? then [s.error.value] else [])
    ensures Executed(done + [s]) == Executed(done) + (if s.executed.Some? then [s.executed.value] else [])
  {
    assert ErrorsOf(done + [s]) == ErrorsOf(done) + [s.error];
    assert ExecutedOf(done + [s]) == ExecutedOf(done) + [s.executed];
    SomesAppend(ErrorsOf(done), s.error);
    SomesAppend(ExecutedOf(done), s.executed);
  }

  /** The loop's bookkeeping after one more chunk: the error list and the
      statement log each grow by what that chunk's step contributes. */
  lemma RecordStep(done: seq<Step>, s: Step, base: seq<Statement>, before: seq<Statement>,
                   after: seq<Statement>, errors: seq<Error>, err: Option<Error>)
    requires before == base + Executed(done)
    requires after == before + (if s.executed.Some? then [s.executed.value] else [])
    requires err == s.error
    ensures after == base + Executed(done + [s])
    ensures Errors(done + [s]) == Errors(done) + (if err.Some? then [err.value] else [])
  {
    OutcomesAppend(done, s);
  }

  lemma CountExecutedCons(s: Step, rest: seq<Step>, i: int)
    requires 0 < i <= |rest| + 1
    ensures CountSome(ExecutedOf(([s] + rest)[..i]))
         == (if s.executed.Some? then 1 else 0) + CountSome(ExecutedOf(rest[..i - 1]))
  {
    var xs := ExecutedOf(([s] + rest)[..i]);
    assert xs[0] == s.executed;
    assert xs[1..] == ExecutedOf(rest[..i - 1]);
  }

  /** Each chunk is run, whatever happened to the chunks before it: step `i`
      is the run of chunk `i`, numbered `k + i`, after as many statements as
      the earlier steps executed. */
  lemma {:induction false} StepAt(chunks: seq<seq<Object>>, run: (seq<Object>, nat, nat) -> Step,
                                  k: nat, n: nat, i: int)
    requires 0 <= i < |chunks|
    ensures var steps := Steps(chunks, run, k, n);
      steps[i] == run(chunks[i], k + i, n + CountSome(ExecutedOf(steps[..i])))
    decreases |chunks|
  {
    var steps := Steps(chunks, run, k, n);
    if i > 0 {
      var s := steps[0];
      var n' := n + if s.executed.Some? then 1 else 0;
      var rest := Steps(chunks[1..], run, k + 1, n');
      assert steps == [s] + rest;
      StepAt(chunks[1..], run, k + 1, n', i - 1);
      CountExecutedCons(s, rest, i);
      assert chunks[1..][i - 1] == chunks[i];
      assert steps[i] == rest[i - 1];
    } else {
      assert steps[..0] == [];
    }
  }

  /** BulkExecChunk reports an error for chunk `i` exactly when BulkExec
      failed on it, in chunk order, and reports nothing (nil) exactly when no
      chunk failed. */
  lemma ErrorsInChunkOrder(steps: seq<Step>, i: int)
    requires 0 <= i < |steps| && steps[i].error.Some?
    ensures CountSome(ErrorsOf(steps[..i])) < |Errors(steps)|
    ensures Errors(steps)[CountSome(ErrorsOf(steps[..i]))] == steps[i].error.value
  {
    SomesAt(ErrorsOf(steps), i);
    assert ErrorsOf(steps)[..i] == ErrorsOf(steps[..i]);
  }

  lemma NoErrorsIffNoFailure(steps: seq<Step>)
    ensures Errors(steps) == [] <==> forall i :: 0 <= i < |steps| ==> steps[i].error.None?
  {
    SomesEmpty(ErrorsOf(steps));
  }

  /** A failing chunk does not stop the later ones: the statement of every
      chunk that assembled is executed, in chunk order. */
  lemma LaterChunksStillExecuted(steps: seq<Step>, i: int)
    requires 0 <= i < |steps| && steps[i].executed.Some?
    ensures CountSome(ExecutedOf(steps[..i])) < |Executed(steps)|
    ensures Executed(steps)[CountSome(ExecutedOf(steps[..i]))] == steps[i].executed.value
  {
    SomesAt(ExecutedOf(steps), i);
    assert ExecutedOf(steps)[..i] == ExecutedOf(steps[..i]);
  }

  /** A chunk holding one object that is not a struct fails with
      NotStruct and executes nothing. */
  lemma BadChunk(o: Object, now: Time, execFunc: ExecFunc, insertOption: Option<string>,
                 respond: (nat, Statement) -> Option<string>, n: nat)
    requires !Deref(o).Struct?
    ensures ExecStep([o], now, execFunc, insertOption, respond, n) == Step(None, Some(NotStruct))
  {
    assert ToMap([o][0], now).Failure?;
  }

  /** Objects that are not structs, in chunks of one: one error per object and
      nothing executed (four such objects give four errors). */
  lemma {:induction false} EveryBadObjectReported(objects: seq<Object>, execFunc: ExecFunc,
                                                  insertOption: Option<string>,
                                                  respond: (nat, Statement) -> Option<string>,
                                                  clock: nat -> Time, k: nat, n: nat)
    requires forall i :: 0 <= i < |objects| ==> !Deref(objects[i]).Struct?
    ensures var steps := Steps(Chunks(objects, 1), Runner(execFunc, insertOption, respond, clock), k, n);
      |Errors(steps)| == |objects| && Executed(steps) == []
    decreases |objects|
  {
    var run := Runner(execFunc, insertOption, respond, clock);
    var chunks := Chunks(objects, 1);
    if objects == [] {
      assert chunks == [[]];
      assert Assemble([], clock(k), execFunc, insertOption) == Success(None);
      assert run(chunks[0], k, n) == ExecStep([], clock(k), execFunc, insertOption, respond, n);
      assert Steps(chunks, run, k, n) == [Step(None, None)];
      ConsOutcomes(Step(None, None), []);
      return;
    }
    var o := objects[0];
    assert chunks[0] == [o];
    BadChunk(o, clock(k), execFunc, insertOption, respond, n);
    var s := Step(None, Some(NotStruct));
    assert run(chunks[0], k, n) == s;
    var rest := Steps(chunks[1..], run, k + 1, n);
    assert Steps(chunks, run, k, n) == [s] + rest;
    ConsOutcomes(s, rest);
    if |objects| > 1 {
      assert chunks[1..] == Chunks(objects[1..], 1);
      EveryBadObjectReported(objects[1..], execFunc, insertOption, respond, clock, k + 1, n);
    } else {
      assert rest == [];
    }
  }
}
