/**
 Conservation and termination for the threaded readers, under every schedule.
 */
module SharedThreadsTheorems {
  import opened Sequences
  import opened SharedStreams
  import opened SharedThreads

  // ---------- conservation

  function Chars(out: seq<(nat, char)>): seq<char> {
    if out == [] then [] else Chars(out[..|out| - 1]) + [out[|out| - 1].1]
  }

  /** How often byte x occurs in several buffers. */
  function Amount(bufs: seq<seq<char>>, x: char): nat {
    if bufs == [] then 0 else multiset(bufs[0])[x] + Amount(bufs[1..], x)
  }

  lemma {:induction false} AmountReplace(bufs: seq<seq<char>>, i: nat, b: seq<char>, x: char)
    requires i < |bufs|
    ensures Amount(bufs[i := b], x) + multiset(bufs[i])[x] == Amount(bufs, x) + multiset(b)[x]
  {
    if i == 0 {
      assert bufs[0 := b][1..] == bufs[1..];
    } else {
      assert bufs[i := b][1..] == bufs[1..][i - 1 := b];
      AmountReplace(bufs[1..], i - 1, b, x);
    }
  }

  lemma {:induction false} AmountOfEmpty(bufs: seq<seq<char>>, x: char)
    requires forall i :: 0 <= i < |bufs| ==> bufs[i] == []
    ensures Amount(bufs, x) == 0
  {
    if bufs != [] {
      AmountOfEmpty(bufs[1..], x);
    }
  }

  /** How often x was printed, is on its way, is buffered and is still unread. */
  function Total(cfg: Config, s: State, x: char): nat
    requires Shaped(cfg, s)
  {
    multiset(Chars(s.out))[x] + Amount(s.held, x) + Amount(s.buf, x) + multiset(Unread(cfg, s))[x]
  }

  lemma RefillTotal(cfg: Config, s: State, u: nat, x: char)
    requires cfg.Valid() && Shaped(cfg, s) && Enabled(cfg, s, u) && s.pc[u] == Refill && s.buf[u] == []
    ensures Total(cfg, Step(cfg, s, u), x) == Total(cfg, s, x)
  {
    var s', block := Step(cfg, s, u), Block(Unread(cfg, s), cfg.size);
    AmountReplace(s.buf, u, block, x);
    assert Unread(cfg, s) == block + Unread(cfg, s');
  }

  lemma TakeTotal(cfg: Config, s: State, u: nat, x: char)
    requires cfg.Valid() && Shaped(cfg, s) && Enabled(cfg, s, u) && s.pc[u] == Take
    ensures Total(cfg, Step(cfg, s, u), x) == Total(cfg, s, x)
  {
    if s.buf[u] != [] {
      AmountReplace(s.buf, u, s.buf[u][1..], x);
      AmountReplace(s.held, u, s.buf[u][..1], x);
      assert s.buf[u] == s.buf[u][..1] + s.buf[u][1..];
    }
  }

  lemma PrintTotal(cfg: Config, s: State, u: nat, x: char)
    requires cfg.Valid() && Shaped(cfg, s) && Enabled(cfg, s, u) && s.pc[u] == Print
    ensures Total(cfg, Step(cfg, s, u), x) == Total(cfg, s, x)
  {
    AmountReplace(s.held, u, [], x);
    assert Step(cfg, s, u).out[..|s.out|] == s.out;
    assert s.held[u] == [s.held[u][0]];
  }

  /** No run loses a byte or prints one twice. */
  lemma {:induction false} Conservation(cfg: Config, sched: seq<nat>, x: char)
    requires cfg.Valid()
    ensures Total(cfg, After(cfg, sched), x) == multiset(cfg.file)[x]
  {
    if sched == [] {
      AmountOfEmpty(Init(cfg).held, x);
      AmountOfEmpty(Init(cfg).buf, x);
      assert cfg.file[0..] == cfg.file;
    } else {
      var front, u := sched[..|sched| - 1], sched[|sched| - 1];
      var s := After(cfg, front);
      Conservation(cfg, front, x);
      EveryByteAccounted(cfg, front);
      if Enabled(cfg, s, u) {
        match s.pc[u]
        case Scan =>
        case Refill => RefillTotal(cfg, s, u, x);
        case Take => TakeTotal(cfg, s, u, x);
        case Print => PrintTotal(cfg, s, u, x);
      }
    }
  }

  // ---------- the end

  predicate AllDone(s: State) {
    forall t :: 0 <= t < |s.pc| ==> s.pc[t] == Done
  }

  lemma EmptyAtTheEnd(cfg: Config, s: State)
    requires Shaped(cfg, s) && EndSeen(cfg, s) && cfg.threads >= 1 && AllDone(s)
    ensures Unread(cfg, s) == []
    ensures forall t :: 0 <= t < cfg.threads ==> s.held[t] == [] && s.buf[t] == []
  {
    assert s.pc[0] == Done;
  }

  lemma PermutationAtTheEnd(cfg: Config, sched: seq<nat>)
    requires cfg.Valid() && cfg.threads >= 1 && AllDone(After(cfg, sched))
    ensures multiset(Chars(After(cfg, sched).out)) == multiset(cfg.file)
  {
    var s := After(cfg, sched);
    EveryByteAccounted(cfg, sched);
    EmptyAtTheEnd(cfg, s);
    forall x: char
      ensures multiset(Chars(s.out))[x] == multiset(cfg.file)[x]
    {
      Conservation(cfg, sched, x);
      AmountOfEmpty(s.held, x);
      AmountOfEmpty(s.buf, x);
    }
  }

  lemma BlocksAtTheEnd(cfg: Config, s: State, t: nat)
    requires Accounted(cfg, s) && AllDone(s) && t < cfg.threads
    ensures Printed(s.out, t) == Dealt(cfg.file, cfg.size, s.owners, t)
  {
    EmptyAtTheEnd(cfg, s);
    assert Fetched(s, t) == Printed(s.out, t);
  }

  /** When all threads have left their loops the output is a permutation of the file, and each
      thread has printed the blocks it owns in file order. */
  lemma OutputAtTheEnd(cfg: Config, sched: seq<nat>)
    requires cfg.Valid() && cfg.threads >= 1 && AllDone(After(cfg, sched))
    ensures var s := After(cfg, sched);
            && multiset(Chars(s.out)) == multiset(cfg.file)
            && forall t :: 0 <= t < cfg.threads ==>
                 Printed(s.out, t) == Dealt(cfg.file, cfg.size, s.owners, t)
  {
    PermutationAtTheEnd(cfg, sched);
    EveryByteAccounted(cfg, sched);
    forall t | 0 <= t < cfg.threads
      ensures Printed(After(cfg, sched).out, t) == Dealt(cfg.file, cfg.size, After(cfg, sched).owners, t)
    {
      BlocksAtTheEnd(cfg, After(cfg, sched), t);
    }
  }

  /** An upper bound of the steps thread t can still take on what is in its buffer. */
  function Work(pc: Pc, buffered: nat): nat {
    match pc
    case Scan => 4 * buffered + 3
    case Refill => 4 * buffered + 2
    case Take => 4 * buffered + 1
    case Print => 4 * buffered + 4
    case Done => 0
  }

  function AllWork(pc: seq<Pc>, buf: seq<seq<char>>): nat
    requires |pc| == |buf|
  {
    if pc == [] then 0 else Work(pc[0], |buf[0]|) + AllWork(pc[1..], buf[1..])
  }

  lemma {:induction false} WorkReplace(pc: seq<Pc>, buf: seq<seq<char>>, i: nat, p: Pc, b: seq<char>)
    requires |pc| == |buf| && i < |pc|
    ensures AllWork(pc[i := p], buf[i := b]) + Work(pc[i], |buf[i]|) == AllWork(pc, buf) + Work(p, |b|)
  {
    if i == 0 {
      assert pc[0 := p][1..] == pc[1..] && buf[0 := b][1..] == buf[1..];
    } else {
      assert pc[i := p][1..] == pc[1..][i - 1 := p] && buf[i := b][1..] == buf[1..][i - 1 := b];
      WorkReplace(pc[1..], buf[1..], i - 1, p, b);
    }
  }

  function Remaining(cfg: Config, s: State): nat
    requires Shaped(cfg, s)
  {
    4 * |Unread(cfg, s)| + AllWork(s.pc, s.buf)
  }

  /** What the thread has to do gets less, counting what it takes from the file. */
  lemma OwnWork(cfg: Config, s: State, u: nat)
    requires cfg.Valid() && Shaped(cfg, s) && EndSeen(cfg, s) && Enabled(cfg, s, u)
    ensures var s' := Step(cfg, s, u);
            4 * |Unread(cfg, s')| + Work(s'.pc[u], |s'.buf[u]|) < 4 * |Unread(cfg, s)| + Work(s.pc[u], |s.buf[u]|)
  {
    var s' := Step(cfg, s, u);
    assert |Unread(cfg, s')| == |cfg.file| - s'.offset && |Unread(cfg, s)| == |cfg.file| - s.offset;
    match s.pc[u]
    case Scan =>
    case Refill => assert s'.buf[u] == Block(Unread(cfg, s), cfg.size);
    case Take =>
    case Print =>
  }

  lemma OthersRest(cfg: Config, s: State, u: nat)
    requires cfg.Valid() && Shaped(cfg, s) && Enabled(cfg, s, u)
    ensures var s' := Step(cfg, s, u);
            s'.pc == s.pc[u := s'.pc[u]] && s'.buf == s.buf[u := s'.buf[u]]
  {
  }

  lemma StepProgress(cfg: Config, s: State, u: nat)
    requires cfg.Valid() && Accounted(cfg, s) && Enabled(cfg, s, u)
    ensures Remaining(cfg, Step(cfg, s, u)) < Remaining(cfg, s)
  {
    var s' := Step(cfg, s, u);
    OwnWork(cfg, s, u);
    OthersRest(cfg, s, u);
    WorkReplace(s.pc, s.buf, u, s'.pc[u], s'.buf[u]);
  }

  lemma {:induction false} InitialWork(n: nat)
    ensures AllWork(seq(n, _ => Scan), seq(n, _ => [])) == 3 * n
  {
    if n > 0 {
      assert seq(n, _ => Scan)[1..] == seq(n - 1, _ => Scan);
      assert seq<seq<char>>(n, _ => [])[1..] == seq<seq<char>>(n - 1, _ => []);
      InitialWork(n - 1);
    }
  }

  /** Every schedule comes to an end: no run takes more steps than four for each byte of the file
      and three for each thread. */
  lemma {:induction false} Termination(cfg: Config, sched: seq<nat>)
    requires cfg.Valid()
    ensures Effective(cfg, sched) + Remaining(cfg, After(cfg, sched)) <= 4 * |cfg.file| + 3 * cfg.threads
  {
    if sched == [] {
      InitialWork(cfg.threads);
    } else {
      var front, u := sched[..|sched| - 1], sched[|sched| - 1];
      Termination(cfg, front);
      EveryByteAccounted(cfg, front);
      if Enabled(cfg, After(cfg, front), u) {
        StepProgress(cfg, After(cfg, front), u);
      }
    }
  }

  // ---------- every thread gets to the end

  /** The run from any state on. */
  function RunFrom(cfg: Config, s: State, sched: seq<nat>): (t: State)
    requires cfg.Valid() && Shaped(cfg, s)
    ensures Shaped(cfg, t)
    decreases sched
  {
    if sched == [] then s else RunFrom(cfg, Step(cfg, s, sched[0]), sched[1..])
  }

  lemma {:induction false} AfterAppend(cfg: Config, a: seq<nat>, b: seq<nat>)
    requires cfg.Valid()
    ensures After(cfg, a + b) == RunFrom(cfg, After(cfg, a), b)
    decreases |b|
  {
    if b == [] {
      assert a + b == a;
    } else {
      assert (a + [b[0]])[..|a|] == a;
      assert a + b == a + [b[0]] + b[1..];
      AfterAppend(cfg, a + [b[0]], b[1..]);
    }
  }

  lemma {:induction false} RunAppend(cfg: Config, s: State, a: seq<nat>, b: seq<nat>)
    requires cfg.Valid() && Shaped(cfg, s)
    ensures RunFrom(cfg, s, a + b) == RunFrom(cfg, RunFrom(cfg, s, a), b)
    decreases a
  {
    if a == [] {
      assert a + b == b;
    } else {
      ConcatTail(a, b);
      RunAppend(cfg, Step(cfg, s, a[0]), a[1..], b);
    }
  }

  /** A run keeps the account and never adds work. */
  lemma {:induction false} RunKeeps(cfg: Config, s: State, sched: seq<nat>)
    requires cfg.Valid() && Accounted(cfg, s)
    ensures Accounted(cfg, RunFrom(cfg, s, sched))
    ensures Remaining(cfg, RunFrom(cfg, s, sched)) <= Remaining(cfg, s)
    decreases sched
  {
    if sched != [] {
      StepAccounted(cfg, s, sched[0]);
      if Enabled(cfg, s, sched[0]) {
        StepProgress(cfg, s, sched[0]);
      }
      RunKeeps(cfg, Step(cfg, s, sched[0]), sched[1..]);
    }
  }

  /** A thread that has not left its loop and gets a turn takes work away. */
  lemma {:induction false} TurnHelps(cfg: Config, s: State, sched: seq<nat>, t: nat)
    requires cfg.Valid() && Accounted(cfg, s) && t < cfg.threads && s.pc[t] != Done && t in sched
    ensures Remaining(cfg, RunFrom(cfg, s, sched)) < Remaining(cfg, s)
    decreases sched
  {
    var u, s' := sched[0], Step(cfg, s, sched[0]);
    StepAccounted(cfg, s, u);
    if u < cfg.threads && s.pc[u] != Done {
      StepProgress(cfg, s, u);
      RunKeeps(cfg, s', sched[1..]);
    } else {
      TurnHelps(cfg, s', sched[1..], t);
    }
  }

  lemma {:induction false} DoneStays(cfg: Config, s: State, sched: seq<nat>)
    requires cfg.Valid() && Shaped(cfg, s) && AllDone(s)
    ensures RunFrom(cfg, s, sched) == s
    decreases sched
  {
    if sched != [] {
      DoneStays(cfg, Step(cfg, s, sched[0]), sched[1..]);
    }
  }

  /** Every thread gets at least one turn. */
  predicate EachTurn(round: seq<nat>, threads: nat) {
    forall t :: 0 <= t < threads ==> t in round
  }

  predicate Rounds(rounds: seq<seq<nat>>, threads: nat) {
    forall i :: 0 <= i < |rounds| ==> EachTurn(rounds[i], threads)
  }

  function Flat(rounds: seq<seq<nat>>): seq<nat> {
    if rounds == [] then [] else rounds[0] + Flat(rounds[1..])
  }

  lemma RoundHelps(cfg: Config, s: State, round: seq<nat>)
    requires cfg.Valid() && Accounted(cfg, s) && EachTurn(round, cfg.threads) && !AllDone(s)
    ensures Accounted(cfg, RunFrom(cfg, s, round))
    ensures Remaining(cfg, RunFrom(cfg, s, round)) < Remaining(cfg, s)
  {
    var t :| 0 <= t < |s.pc| && s.pc[t] != Done;
    TurnHelps(cfg, s, round, t);
    RunKeeps(cfg, s, round);
  }

  lemma WorkLeft(cfg: Config, s: State)
    requires cfg.Valid() && Accounted(cfg, s) && !AllDone(s)
    ensures Remaining(cfg, s) > 0
  {
    var t :| 0 <= t < |s.pc| && s.pc[t] != Done;
    StepProgress(cfg, s, t);
  }

  lemma RoundsTail(rounds: seq<seq<nat>>, threads: nat)
    requires Rounds(rounds, threads) && rounds != []
    ensures EachTurn(rounds[0], threads) && Rounds(rounds[1..], threads)
  {
  }

  lemma FirstRound(cfg: Config, s: State, rounds: seq<seq<nat>>)
    requires cfg.Valid() && Shaped(cfg, s) && rounds != []
    ensures RunFrom(cfg, s, Flat(rounds)) == RunFrom(cfg, RunFrom(cfg, s, rounds[0]), Flat(rounds[1..]))
  {
    RunAppend(cfg, s, rounds[0], Flat(rounds[1..]));
  }

  lemma {:induction false} RoundsFinish(cfg: Config, s: State, rounds: seq<seq<nat>>)
    requires cfg.Valid() && Accounted(cfg, s) && Rounds(rounds, cfg.threads)
    requires |rounds| >= Remaining(cfg, s)
    ensures AllDone(RunFrom(cfg, s, Flat(rounds)))
    decreases rounds, 1
  {
    if AllDone(s) {
      DoneStays(cfg, s, Flat(rounds));
    } else {
      WorkLeft(cfg, s);
      RoundsFinishNext(cfg, s, rounds);
    }
  }

  lemma {:induction false} RoundsFinishNext(cfg: Config, s: State, rounds: seq<seq<nat>>)
    requires cfg.Valid() && Accounted(cfg, s) && Rounds(rounds, cfg.threads)
    requires rounds != [] && |rounds| >= Remaining(cfg, s) && !AllDone(s)
    ensures AllDone(RunFrom(cfg, s, Flat(rounds)))
    decreases rounds, 0
  {
    var s1, rest := RunFrom(cfg, s, rounds[0]), rounds[1..];
    RoundsTail(rounds, cfg.threads);
    RoundHelps(cfg, s, rounds[0]);
    RoundsFinish(cfg, s1, rest);
    FirstRound(cfg, s, rounds);
  }

  /** From every reachable state, every schedule that gives each thread a turn often enough ends
      with all of them out of their loops. */
  lemma EveryThreadEnds(cfg: Config, before: seq<nat>, rounds: seq<seq<nat>>)
    requires cfg.Valid() && Rounds(rounds, cfg.threads)
    requires |rounds| >= 4 * |cfg.file| + 3 * cfg.threads
    ensures AllDone(After(cfg, before + Flat(rounds)))
  {
    EveryByteAccounted(cfg, before);
    Termination(cfg, before);
    RoundsFinish(cfg, After(cfg, before), rounds);
    AfterAppend(cfg, before, Flat(rounds));
  }

  /** At the end of the file a thread with an empty buffer leaves its loop in three turns. */
  lemma EndOfFile(cfg: Config, s: State, t: nat)
    requires cfg.Valid() && Shaped(cfg, s) && t < cfg.threads
    requires s.pc[t] == Scan && s.buf[t] == [] && s.offset == |cfg.file|
    ensures var d := Step(cfg, Step(cfg, Step(cfg, s, t), t), t); d.pc == s.pc[t := Done] && d.out == s.out
  {
    var s1 := Step(cfg, s, t);
    var s2 := Step(cfg, s1, t);
    assert s1.pc == s.pc[t := Refill] && s2.pc == s.pc[t := Take] && s2.buf[t] == [];
    assert Step(cfg, s2, t).pc == s.pc[t := Done];
  }
}
