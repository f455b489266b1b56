/**
 System calls on a System V semaphore set: what the kernel does with the values, call by call.
 */
module SystemV {

  /** struct sembuf: a semaphore number, an operation, and whether IPC_NOWAIT is set. */
  datatype SemBuf = SemBuf(num: nat, op: int, nowait: bool)

  datatype Call = Semop(vector: seq<SemBuf>) | SetVal(num: nat, value: int) | GetVal(num: nat)

  /** The call is done, or fails with EAGAIN, or sleeps; in the last two cases no value changes. */
  datatype Outcome = Completed(values: seq<int>) | Again | Sleeps

  /** An operation of zero waits for zero, a negative one for enough to take. */
  predicate Proceeds(values: seq<int>, b: SemBuf) {
    b.num < |values| && if b.op == 0 then values[b.num] == 0 else values[b.num] + b.op >= 0
  }

  /** The operations of a vector are tried in order, and the first that cannot proceed decides. */
  function SemopFrom(values: seq<int>, vector: seq<SemBuf>): Outcome
    decreases vector
  {
    if vector == [] then Completed(values)
    else
      var b := vector[0];
      if !Proceeds(values, b) then (if b.nowait then Again else Sleeps)
      else SemopFrom(values[b.num := values[b.num] + b.op], vector[1..])
  }

  function Perform(values: seq<int>, call: Call): Outcome {
    match call
    case Semop(vector) => SemopFrom(values, vector)
    case SetVal(num, value) => if num < |values| then Completed(values[num := value]) else Sleeps
    case GetVal(_) => Completed(values)
  }

  // ---------- the vectors the programs use

  lemma OneOperation(values: seq<int>, b: SemBuf)
    ensures SemopFrom(values, [b]) ==
            if Proceeds(values, b) then Completed(values[b.num := values[b.num] + b.op])
            else if b.nowait then Again else Sleeps
  {
    assert [b][1..] == [];
  }

  lemma FirstOperation(values: seq<int>, b: SemBuf, rest: seq<SemBuf>)
    ensures SemopFrom(values, [b] + rest) ==
            if Proceeds(values, b) then SemopFrom(values[b.num := values[b.num] + b.op], rest)
            else if b.nowait then Again else Sleeps
  {
    assert ([b] + rest)[1..] == rest;
  }

  /** One operation after another on two semaphores. */
  lemma TwoOperations(values: seq<int>, a: SemBuf, b: SemBuf)
    requires a.num < |values| && b.num < |values| && a.num != b.num && a.nowait == b.nowait
    ensures SemopFrom(values, [a, b]) ==
            if Proceeds(values, a) && Proceeds(values, b)
            then Completed(values[a.num := values[a.num] + a.op][b.num := values[b.num] + b.op])
            else if a.nowait then Again else Sleeps
  {
    assert [a, b] == [a] + [b];
    FirstOperation(values, a, [b]);
    OneOperation(values[a.num := values[a.num] + a.op], b);
  }

  /** Two tests for zero without waiting, and one more on c. */
  lemma Try(values: seq<int>, a: nat, b: nat, c: nat)
    requires a < |values| && b < |values| && c < |values| && values[c] >= 0
    ensures SemopFrom(values, [SemBuf(a, 0, true), SemBuf(b, 0, true), SemBuf(c, 1, false)]) ==
            if values[a] == 0 && values[b] == 0 then Completed(values[c := values[c] + 1]) else Again
  {
    var x, y, z := SemBuf(a, 0, true), SemBuf(b, 0, true), SemBuf(c, 1, false);
    assert [x, y, z] == [x] + ([y] + [z]);
    FirstOperation(values, x, [y] + [z]);
    assert values[a] == 0 ==> values[a := values[a] + 0] == values;
    FirstOperation(values, y, [z]);
    assert values[b] == 0 ==> values[b := values[b] + 0] == values;
    OneOperation(values, z);
  }

  lemma GiveAndTake(values: seq<int>, active: nat, waiting: nat)
    requires active < |values| && waiting < |values| && waiting != active && values[active] >= 0
    ensures SemopFrom(values, [SemBuf(active, 1, false)] + [SemBuf(waiting, -1, false)]) ==
            if values[waiting] >= 1
            then Completed(values[active := values[active] + 1][waiting := values[waiting] - 1])
            else Sleeps
  {
    FirstOperation(values, SemBuf(active, 1, false), [SemBuf(waiting, -1, false)]);
    OneOperation(values[active := values[active] + 1], SemBuf(waiting, -1, false));
  }

  lemma Exchange(values: seq<int>, door: nat, active: nat, waiting: nat)
    requires door < |values| && active < |values| && waiting < |values|
    requires active != door && waiting != door && waiting != active && values[active] >= 0
    ensures SemopFrom(values, [SemBuf(door, -1, false)] +
                              ([SemBuf(active, 1, false)] + [SemBuf(waiting, -1, false)])) ==
            if values[door] >= 1 && values[waiting] >= 1
            then Completed(values[door := values[door] - 1][active := values[active] + 1]
                                 [waiting := values[waiting] - 1])
            else Sleeps
  {
    var taken, rest := values[door := values[door] - 1], [SemBuf(active, 1, false)] + [SemBuf(waiting, -1, false)];
    FirstOperation(values, SemBuf(door, -1, false), rest);
    if values[door] >= 1 {
      GiveAndTake(taken, active, waiting);
    }
  }

  /** A test for zero, one less on door and waiting, and one more on active, all or nothing. */
  lemma WakeUp(values: seq<int>, zero: nat, door: nat, active: nat, waiting: nat)
    requires zero < |values| && door < |values| && active < |values| && waiting < |values|
    requires active != door && waiting != door && waiting != active && values[active] >= 0
    ensures SemopFrom(values, [SemBuf(zero, 0, false), SemBuf(door, -1, false),
                               SemBuf(active, 1, false), SemBuf(waiting, -1, false)]) ==
            if values[zero] == 0 && values[door] >= 1 && values[waiting] >= 1
            then Completed(values[door := values[door] - 1][active := values[active] + 1]
                                 [waiting := values[waiting] - 1])
            else Sleeps
  {
    var w := SemBuf(zero, 0, false);
    var rest := [SemBuf(door, -1, false)] + ([SemBuf(active, 1, false)] + [SemBuf(waiting, -1, false)]);
    assert [w, SemBuf(door, -1, false), SemBuf(active, 1, false), SemBuf(waiting, -1, false)] == [w] + rest;
    FirstOperation(values, w, rest);
    assert values[zero] == 0 ==> values[zero := values[zero] + 0] == values;
    Exchange(values, door, active, waiting);
  }
}
