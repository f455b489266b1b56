/**
 The guarantees of the producers and consumers, for every schedule of any number of processes.
 */
module BoundedBufferTheorems {
  import opened Arithmetic
  import opened BoundedBuffer
  import opened BoundedBufferProofs
  import opened Sequences

  /** The atomic state that explains the state after a schedule, and the process inside if any. */
  lemma Explain(cfg: Config, sched: seq<Proc>) returns (s0: State, inside: bool, holder: Proc)
    requires cfg.Valid()
    ensures Calm(cfg, s0) && |s0.prod| == cfg.producers && |s0.cons| == cfg.consumers
    ensures !inside ==> After(cfg, sched) == s0
    ensures inside ==> Inside(s0, holder, After(cfg, sched)) && After(cfg, sched).bin == 0
  {
    var ops := Entries(cfg, sched);
    Reduction(cfg, sched);
    holder := Producer(0);
    if After(cfg, sched).bin == 1 {
      s0, inside := AtomicAfter(cfg, ops), false;
      AtomicRunsAreCalm(cfg, ops);
    } else {
      s0, inside, holder := AtomicAfter(cfg, ops[..|ops| - 1]), true, ops[|ops| - 1];
      AtomicRunsAreCalm(cfg, ops[..|ops| - 1]);
      InsideHolds(s0, holder, After(cfg, sched));
    }
  }

  // ---------- the ring is a FIFO queue

  /** The letters read are a prefix of the letters written, item k is letter k mod 26, no more than
      the capacity is outstanding, and every unread letter is still in its cell. */
  predicate Fifo(cfg: Config, s: State)
    requires cfg.Valid()
  {
    && s.received <= s.sent
    && |s.sent| <= |s.received| + cfg.queueSize
    && (forall k :: 0 <= k < |s.sent| ==> s.sent[k] == Letter(k))
    && (forall k: nat :: |s.received| <= k < |s.sent| ==> Peek(s.mem, Slot(cfg, k)) == s.sent[k])
  }

  lemma FifoWhenCalm(cfg: Config, s: State)
    requires cfg.Valid() && cfg.queueSize <= 125 && Calm(cfg, s)
    ensures Fifo(cfg, s)
  {
    forall k: nat | |s.received| <= k < |s.sent|
      ensures Peek(s.mem, Slot(cfg, k)) == s.sent[k]
    {
      assert s.mem[Slot(cfg, k)] == Letter(k);
    }
  }

  /** The cell of the next item to be written holds no unread item, unless the ring is full. */
  lemma NextSlotIsFree(cfg: Config, r: nat, w: nat)
    requires cfg.Valid() && cfg.queueSize <= 125 && r <= w < r + cfg.queueSize
    ensures forall k: nat :: r <= k < w ==> Slot(cfg, k) != Slot(cfg, w)
  {
    forall k: nat | r <= k < w
      ensures Slot(cfg, k) != Slot(cfg, w)
    {
      if Slot(cfg, k) == Slot(cfg, w) {
        ModApart(k, w, cfg.queueSize);
      }
    }
  }

  /** Inside a producer's section at most the letter it writes and its cell are new. */
  lemma ProducingRing(cfg: Config, s0: State, p: nat, s: State)
    requires cfg.Valid() && Calm(cfg, s0) && Inside(s0, Producer(p), s)
    ensures var w := |s0.sent|;
            && s.received == s0.received && |s.mem| == |s0.mem|
            && (s.sent == s0.sent || (s.sent == s0.sent + [Letter(w)] && s.mem[Slot(cfg, w)] == Letter(w)))
            && forall i :: 3 <= i < |s.mem| && i != Slot(cfg, w) ==> s.mem[i] == s0.mem[i]
  {
  }

  lemma FifoWhileProducing(cfg: Config, s0: State, p: nat, s: State)
    requires cfg.Valid() && cfg.queueSize <= 125 && Calm(cfg, s0) && Inside(s0, Producer(p), s)
    ensures Fifo(cfg, s)
  {
    var w := |s0.sent|;
    ProducingRing(cfg, s0, p, s);
    NextSlotIsFree(cfg, |s0.received|, w);
    forall k: nat | |s.received| <= k < |s.sent|
      ensures Peek(s.mem, Slot(cfg, k)) == s.sent[k]
    {
      if k < w {
        assert s0.mem[Slot(cfg, k)] == Letter(k);
      }
    }
  }

  lemma FifoWhileConsuming(cfg: Config, s0: State, c: nat, s: State)
    requires cfg.Valid() && cfg.queueSize <= 125 && Calm(cfg, s0) && Inside(s0, Consumer(c), s)
    ensures Fifo(cfg, s)
  {
    assert s0.mem[Slot(cfg, |s0.received|)] == Letter(|s0.received|);
    forall k: nat | |s.received| <= k < |s.sent|
      ensures Peek(s.mem, Slot(cfg, k)) == s.sent[k]
    {
      assert s0.mem[Slot(cfg, k)] == Letter(k);
    }
  }

  lemma RingIsFifo(cfg: Config, sched: seq<Proc>)
    requires cfg.Valid() && cfg.queueSize <= 125
    ensures Fifo(cfg, After(cfg, sched))
  {
    var s0, inside, holder := Explain(cfg, sched);
    if !inside {
      FifoWhenCalm(cfg, s0);
    } else {
      match holder
      case Producer(p) => FifoWhileProducing(cfg, s0, p, After(cfg, sched));
      case Consumer(c) => FifoWhileConsuming(cfg, s0, c, After(cfg, sched));
    }
  }

  // ---------- mutual exclusion and conservation of the semaphores

  predicate ProducerInside(pc: ProducerPc) {
    pc != PWait
  }

  predicate ConsumerInside(pc: ConsumerPc) {
    pc != CWait
  }

  /** How many processes are between their two semops. */
  function Holders(s: State): nat {
    Count(s.prod, ProducerInside) + Count(s.cons, ConsumerInside)
  }

  lemma HoldersWhenCalm(s: State)
    requires AllWaiting(s)
    ensures Holders(s) == 0
  {
    CountUniform(s.prod, false, ProducerInside);
    CountUniform(s.cons, false, ConsumerInside);
  }

  lemma InsideSemaphores(s0: State, q: Proc, s: State)
    requires Inside(s0, q, s)
    ensures s.bin == 0
    ensures q.Producer? ==> s.full == s0.full && s.empt == s0.empt - 1
    ensures q.Consumer? ==> s.full == s0.full - 1 && s.empt == s0.empt
  {
  }

  lemma InsideCounters(s0: State, q: Proc, s: State)
    requires Inside(s0, q, s)
    ensures match q
            case Producer(p) => s.prod == s0.prod[p := s.prod[p]] && s.prod[p] != PWait && s.cons == s0.cons
            case Consumer(c) => s.cons == s0.cons[c := s.cons[c]] && s.cons[c] != CWait && s.prod == s0.prod
  {
  }

  lemma HoldersInside(s0: State, q: Proc, s: State)
    requires Inside(s0, q, s)
    ensures Holders(s) == 1
  {
    HoldersWhenCalm(s0);
    InsideCounters(s0, q, s);
    match q
    case Producer(p) => CountReplace(s0.prod, p, s.prod[p], ProducerInside);
    case Consumer(c) => CountReplace(s0.cons, c, s.cons[c], ConsumerInside);
  }

  predicate Conserved(cfg: Config, s: State) {
    && 0 <= s.bin && s.bin + Holders(s) == 1
    && 0 <= s.full && 0 <= s.empt && s.full + s.empt + Holders(s) == cfg.queueSize
  }

  lemma ConservedInside(cfg: Config, s0: State, q: Proc, s: State)
    requires cfg.Valid() && Calm(cfg, s0) && Inside(s0, q, s)
    ensures Conserved(cfg, s)
  {
    InsideSemaphores(s0, q, s);
    HoldersInside(s0, q, s);
  }

  /** BIN counts the free lock, FULL and EMPT together with the holder count the ring. */
  lemma Conservation(cfg: Config, sched: seq<Proc>)
    requires cfg.Valid()
    ensures Conserved(cfg, After(cfg, sched))
  {
    var s0, inside, holder := Explain(cfg, sched);
    if inside {
      ConservedInside(cfg, s0, holder, After(cfg, sched));
    } else {
      HoldersWhenCalm(s0);
    }
  }

  /** Where the code indexes the ring it stays in the ring; a store never hits an unread letter
      and a load never takes one that was not written. */
  predicate SafeAccess(cfg: Config, s: State)
    requires cfg.Valid() && s.Shaped()
  {
    && (forall p :: 0 <= p < |s.prod| && s.prod[p] == PStore ==>
          && 3 <= s.mem[2] < 3 + cfg.queueSize
          && forall k: nat :: |s.received| <= k < |s.sent| ==> Slot(cfg, k) != s.mem[2])
    && (forall c :: 0 <= c < |s.cons| && s.cons[c] == CLoad ==>
          && 3 <= s.mem[1] < 3 + cfg.queueSize
          && |s.received| < |s.sent| && s.mem[1] == Slot(cfg, |s.received|))
    && (PWrap !in s.prod ==> 3 <= s.mem[2] < 3 + cfg.queueSize)
    && (CWrap !in s.cons ==> 3 <= s.mem[1] < 3 + cfg.queueSize)
  }

  /** The indices while producer p is inside. */
  predicate ProducingAt(cfg: Config, s0: State, p: nat, s: State)
    requires cfg.Valid()
  {
    && s0.Shaped() && s.Shaped() && AllWaiting(s0) && p < |s0.prod|
    && p < |s.prod| && s.prod == s0.prod[p := s.prod[p]] && s.cons == s0.cons
    && s.received == s0.received && s.mem[1] == s0.mem[1]
    && (s.prod[p] == PStore ==> s.sent == s0.sent && s.mem[2] == s0.mem[2])
    && (s.prod[p] != PWrap ==> s.mem[2] == s0.mem[2] || s.mem[2] == Slot(cfg, |s0.sent| + 1))
  }

  lemma ProducingIndices(cfg: Config, s0: State, p: nat, s: State)
    requires cfg.Valid() && Calm(cfg, s0) && Inside(s0, Producer(p), s)
    ensures ProducingAt(cfg, s0, p, s)
  {
    SlotAdvances(cfg, |s0.sent|);
    InsideCounters(s0, Producer(p), s);
  }

  lemma SafeWhileProducing(cfg: Config, s0: State, p: nat, s: State)
    requires cfg.Valid() && cfg.queueSize <= 125 && Calm(cfg, s0) && ProducingAt(cfg, s0, p, s)
    requires s.prod[p] == PStore ==> s0.empt >= 1
    ensures SafeAccess(cfg, s)
  {
    SlotAdvances(cfg, |s0.sent|);
    SlotAdvances(cfg, |s0.received|);
    SlotAdvances(cfg, |s0.sent| + 1);
    if s.prod[p] == PStore {
      NextSlotIsFree(cfg, |s0.received|, |s0.sent|);
    }
    assert s.prod[p] in s.prod;
  }

  /** The indices while consumer c is inside. */
  predicate ConsumingAt(cfg: Config, s0: State, c: nat, s: State)
    requires cfg.Valid()
  {
    && s0.Shaped() && s.Shaped() && AllWaiting(s0) && c < |s0.cons|
    && c < |s.cons| && s.cons == s0.cons[c := s.cons[c]] && s.prod == s0.prod
    && s.sent == s0.sent && s.mem[2] == s0.mem[2]
    && (s.cons[c] == CLoad ==> s.received == s0.received && s.mem[1] == s0.mem[1])
    && (s.cons[c] != CWrap ==> s.mem[1] == s0.mem[1] || s.mem[1] == Slot(cfg, |s0.received| + 1))
  }

  lemma ConsumingIndices(cfg: Config, s0: State, c: nat, s: State)
    requires cfg.Valid() && Calm(cfg, s0) && Inside(s0, Consumer(c), s)
    ensures ConsumingAt(cfg, s0, c, s)
  {
    SlotAdvances(cfg, |s0.received|);
    InsideCounters(s0, Consumer(c), s);
  }

  lemma SafeWhileConsuming(cfg: Config, s0: State, c: nat, s: State)
    requires cfg.Valid() && cfg.queueSize <= 125 && Calm(cfg, s0) && ConsumingAt(cfg, s0, c, s)
    requires s.cons[c] == CLoad ==> s0.full >= 1
    ensures SafeAccess(cfg, s)
  {
    SlotAdvances(cfg, |s0.sent|);
    SlotAdvances(cfg, |s0.received|);
    SlotAdvances(cfg, |s0.received| + 1);
    assert s.cons[c] in s.cons;
  }

  lemma AccessesAreSafe(cfg: Config, sched: seq<Proc>)
    requires cfg.Valid() && cfg.queueSize <= 125
    ensures SafeAccess(cfg, After(cfg, sched))
  {
    var s0, inside, holder := Explain(cfg, sched);
    if !inside {
      SlotAdvances(cfg, |s0.sent|);
      SlotAdvances(cfg, |s0.received|);
    } else {
      match holder
      case Producer(p) =>
        ProducingIndices(cfg, s0, p, After(cfg, sched));
        SafeWhileProducing(cfg, s0, p, After(cfg, sched));
      case Consumer(c) =>
        ConsumingIndices(cfg, s0, c, After(cfg, sched));
        SafeWhileConsuming(cfg, s0, c, After(cfg, sched));
    }
  }

  // ---------- progress

  /** How many steps process q still needs to leave the critical section. */
  function StepsLeft(s: State, q: Proc): nat
    requires s.Has(q)
  {
    match q
    case Producer(p) =>
      (match s.prod[p]
       case PWait => 0 case PStore => 7 case PPrint => 6 case PAdvance => 5
       case PWrap => 4 case PNext => 3 case PRestart => 2 case PPost => 1)
    case Consumer(c) =>
      (match s.cons[c]
       case CWait => 0 case CLoad => 5 case CPrint => 4 case CAdvance => 3
       case CWrap => 2 case CPost => 1)
  }

  lemma {:induction false} RunAppend(s: State, a: seq<Proc>, b: seq<Proc>)
    requires s.Shaped()
    ensures RunFrom(s, a + b) == RunFrom(RunFrom(s, a), b)
    decreases a
  {
    if a == [] {
      assert a + b == b;
    } else {
      assert (a + b)[1..] == a[1..] + b;
      RunAppend(Step(s, a[0]), a[1..], b);
    }
  }

  lemma {:induction false} AfterAppend(cfg: Config, a: seq<Proc>, b: seq<Proc>)
    requires cfg.Valid()
    ensures After(cfg, a + b) == RunFrom(After(cfg, a), b)
    decreases |b|
  {
    if b == [] {
      assert a + b == a;
    } else {
      assert (a + [b[0]])[..|a|] == a;
      assert a + b == a + [b[0]] + b[1..];
      AfterAppend(cfg, a + [b[0]], b[1..]);
    }
  }

  lemma InsideStepsLeft(s0: State, q: Proc, s: State)
    requires Inside(s0, q, s)
    ensures Step(s, q).Has(q) && StepsLeft(Step(s, q), q) < StepsLeft(s, q)
  {
  }

  /** Whoever is inside can always run on until it is out. */
  lemma {:induction false} Finish(cfg: Config, s0: State, q: Proc, s: State) returns (more: seq<Proc>)
    requires cfg.Valid() && Calm(cfg, s0) && Inside(s0, q, s)
    ensures |more| <= StepsLeft(s, q) && RunFrom(s, more) == AtomicStep(s0, q)
    decreases StepsLeft(s, q)
  {
    HolderProgress(cfg, s0, q, s);
    InsideStepsLeft(s0, q, s);
    if Inside(s0, q, Step(s, q)) {
      var rest := Finish(cfg, s0, q, Step(s, q));
      more := [q] + rest;
      assert more[1..] == rest;
    } else {
      more := [q];
    }
  }

  /** A process that can enter a calm state can complete a whole put or get. */
  lemma Round(cfg: Config, s: State, q: Proc) returns (more: seq<Proc>)
    requires cfg.Valid() && Calm(cfg, s) && s.Enabled(q)
    ensures |more| <= if q.Producer? then 8 else 6
    ensures RunFrom(s, more) == AtomicStep(s, q) && Calm(cfg, AtomicStep(s, q))
  {
    Entering(s, q);
    var rest := Finish(cfg, s, q, Step(s, q));
    more := [q] + rest;
    assert more[1..] == rest;
    match q
    case Producer(p) => PutKeepsCalm(cfg, s);
    case Consumer(c) => GetKeepsCalm(cfg, s, c);
  }

  /** With both kinds of processes present some process can always run. */
  lemma NoDeadlock(cfg: Config, sched: seq<Proc>)
    requires cfg.Valid() && cfg.producers >= 1 && cfg.consumers >= 1
    ensures exists q :: After(cfg, sched).Enabled(q)
  {
    var s := After(cfg, sched);
    var s0, inside, holder := Explain(cfg, sched);
    if inside {
      InsideHolds(s0, holder, s);
    } else if s.full >= 1 {
      assert s.Enabled(Consumer(0));
    } else {
      assert s.Enabled(Producer(0));
    }
  }

  lemma {:induction false} DrainCalm(cfg: Config, s: State) returns (more: seq<Proc>)
    requires cfg.Valid() && Calm(cfg, s) && |s.cons| >= 1
    ensures |more| <= 6 * s.full
    ensures var t := RunFrom(s, more); t.bin == 1 && t.full == 0 && |t.received| == |t.sent|
    decreases s.full
  {
    if s.full == 0 {
      more := [];
    } else {
      var round := Round(cfg, s, Consumer(0));
      var rest := DrainCalm(cfg, AtomicStep(s, Consumer(0)));
      more := round + rest;
      RunAppend(s, round, rest);
    }
  }

  /** Whoever is inside, if anyone, leaves within a few steps. */
  lemma Settle(cfg: Config, sched: seq<Proc>) returns (more: seq<Proc>)
    requires cfg.Valid()
    ensures |more| <= 7 && Calm(cfg, RunFrom(After(cfg, sched), more))
  {
    var s0, inside, holder := Explain(cfg, sched);
    if !inside {
      more := [];
    } else {
      more := Finish(cfg, s0, holder, After(cfg, sched));
      match holder
      case Producer(p) => PutKeepsCalm(cfg, s0);
      case Consumer(c) => GetKeepsCalm(cfg, s0, c);
    }
  }

  /** From every reachable state a short schedule empties the ring: every letter written is read. */
  lemma Drain(cfg: Config, sched: seq<Proc>) returns (more: seq<Proc>)
    requires cfg.Valid() && cfg.consumers >= 1
    ensures |more| <= 7 + 6 * cfg.queueSize
    ensures var t := After(cfg, sched + more); t.bin == 1 && t.full == 0 && |t.received| == |t.sent|
    ensures cfg.queueSize <= 125 ==>
              After(cfg, sched + more).received == After(cfg, sched + more).sent
  {
    var settle := Settle(cfg, sched);
    var drain := DrainCalm(cfg, RunFrom(After(cfg, sched), settle));
    more := settle + drain;
    RunAppend(After(cfg, sched), settle, drain);
    AfterAppend(cfg, sched, more);
    if cfg.queueSize <= 125 {
      RingIsFifo(cfg, sched + more);
    }
  }

  // ---------- exactly which queue sizes the char-typed indices can serve

  lemma {:induction false} Fill(cfg: Config, n: nat) returns (sched: seq<Proc>)
    requires cfg.Valid() && cfg.producers >= 1 && n <= cfg.queueSize
    ensures var s := RunFrom(Init(cfg), sched); Calm(cfg, s) && |s.sent| == n && s.received == []
    decreases n
  {
    if n == 0 {
      sched := [];
      InitIsCalm(cfg);
    } else {
      var before := Fill(cfg, n - 1);
      var round := Round(cfg, RunFrom(Init(cfg), before), Producer(0));
      sched := before + round;
      RunAppend(Init(cfg), before, round);
    }
  }

  /** With 126 letters written, the first one has been gone over. */
  lemma FirstLetterLost(cfg: Config, s: State)
    requires cfg.Valid() && cfg.queueSize > 125 && Calm(cfg, s) && |s.cons| >= 1
    requires |s.sent| == 126 && s.received == []
    ensures s.Enabled(Consumer(0)) && s.sent[0] == 'A' as int
    ensures Get(s, 0).sent == s.sent && Get(s, 0).received == ['V' as int]
  {
    assert Slot(cfg, 125) == Slot(cfg, 0) == 3;
    assert s.mem[Slot(cfg, 125)] == Letter(125) == 'V' as int;
  }

  /** A ring of more than 125 cells does not fit the indices: the letter of item 125 lands on
      item 0, and the first reader gets it. */
  lemma Overrun(cfg: Config) returns (sched: seq<Proc>)
    requires cfg.Valid() && cfg.queueSize > 125 && cfg.producers >= 1 && cfg.consumers >= 1
    ensures var s := After(cfg, sched);
            |s.sent| == 126 && s.sent[0] == 'A' as int && s.received == ['V' as int]
  {
    var full := Fill(cfg, 126);
    var s := RunFrom(Init(cfg), full);
    FirstLetterLost(cfg, s);
    var round := Round(cfg, s, Consumer(0));
    sched := full + round;
    RunAppend(Init(cfg), full, round);
    AfterAppend(cfg, [], sched);
    assert [] + sched == sched;
  }

  /** The letters read are a prefix of the letters written in every run exactly when the queue
      has at most 125 cells. */
  lemma FifoExactly(cfg: Config)
    requires cfg.Valid() && cfg.producers >= 1 && cfg.consumers >= 1
    ensures (forall sched :: After(cfg, sched).received <= After(cfg, sched).sent) <==> cfg.queueSize <= 125
  {
    if cfg.queueSize <= 125 {
      forall sched ensures After(cfg, sched).received <= After(cfg, sched).sent {
        RingIsFifo(cfg, sched);
      }
    } else {
      var sched := Overrun(cfg);
      assert !(After(cfg, sched).received <= After(cfg, sched).sent);
    }
  }

  // ---------- exactly which runs of any ring deliver the letters in order

  /** With w items written and r read, the cell of item r still shows its letter: the items that
      have gone over it since are a multiple of 26 rounds of the cells. */
  predicate LetterKept(cfg: Config, w: nat, r: nat)
    requires cfg.Valid() && r < w
  {
    (w - r - 1) / Cells(cfg.queueSize) % 26 == 0
  }

  lemma WholeRounds(r: nat, q: nat)
    ensures (r + 125 * (26 * q)) % 26 == r % 26
  {
    DivModUnique(r + 125 * (26 * q), 26, r / 26 + 125 * q, r % 26);
  }

  /** 5 times 125 is 1 modulo 26. */
  lemma RoundsFromLetters(m: nat, j: int)
    requires 125 * m == 26 * j
    ensures m % 26 == 0
  {
    DivModUnique(m, 26, 5 * j - 24 * m, 0);
  }

  lemma RoundsApart(r: nat, m: nat)
    ensures Letter(r + 125 * m) == Letter(r) <==> m % 26 == 0
  {
    if m % 26 == 0 {
      WholeRounds(r, m / 26);
    } else if Letter(r + 125 * m) == Letter(r) {
      RoundsFromLetters(m, (r + 125 * m) / 26 - r / 26);
    }
  }

  /** The last item that has been written to the cell of item r. */
  lemma LastInCell(cfg: Config, w: nat, r: nat) returns (k: nat, m: nat)
    requires cfg.Valid() && r < w <= r + cfg.queueSize
    ensures w - Cells(cfg.queueSize) <= k < w && Slot(cfg, k) == Slot(cfg, r)
    ensures m == (w - r - 1) / Cells(cfg.queueSize)
    ensures if cfg.queueSize <= 125 then m == 0 && k == r else k == r + 125 * m
  {
    m := (w - r - 1) / Cells(cfg.queueSize);
    if cfg.queueSize <= 125 {
      k := r;
      DivModUnique(w - r - 1, cfg.queueSize, 0, w - r - 1);
    } else {
      k := r + 125 * m;
    }
  }

  /** A consumer loads the letter of its item exactly when the cell still shows it. */
  lemma LoadedLetter(cfg: Config, s: State)
    requires cfg.Valid() && Calm(cfg, s) && s.full >= 1
    ensures Peek(s.mem, s.mem[1]) == Letter(|s.received|) <==> LetterKept(cfg, |s.sent|, |s.received|)
  {
    var k, m := LastInCell(cfg, |s.sent|, |s.received|);
    assert s.mem[Slot(cfg, k)] == Letter(k);
    RoundsApart(|s.received|, m);
  }

  /** Process q is about to print a letter that is not the one written as this item. */
  predicate PrintsWrong(cfg: Config, s: State, q: Proc)
    requires cfg.Valid()
  {
    && q.Consumer? && q.c < |s.cons| && s.cons[q.c] == CPrint
    && |s.received| < |s.sent| && !LetterKept(cfg, |s.sent|, |s.received|)
  }

  predicate InOrder(s: State) {
    s.received <= s.sent
  }

  lemma PrintStep(cfg: Config, s0: State, c: nat, s: State)
    requires cfg.Valid() && Calm(cfg, s0) && Inside(s0, Consumer(c), s) && s.cons[c] == CPrint
    ensures InOrder(Step(s, Consumer(c))) <==> InOrder(s) && !PrintsWrong(cfg, s, Consumer(c))
  {
    var t, r := Step(s, Consumer(c)), |s.received|;
    LoadedLetter(cfg, s0);
    assert s.cur[c] == Peek(s0.mem, s0.mem[1]) && s.sent[r] == Letter(r);
    assert t.received == s.received + [s.cur[c]] && t.sent == s.sent;
    assert t.received[..r] == s.received && t.received[r] == s.cur[c];
  }

  lemma LetterWritten(received: seq<int>, sent: seq<int>, l: int)
    requires |received| <= |sent|
    ensures received <= sent + [l] <==> received <= sent
  {
  }

  /** Only a consumer's print can break the order. */
  lemma OtherStep(cfg: Config, s: State, q: Proc)
    requires cfg.Valid() && s.Shaped() && |s.received| <= |s.sent|
    requires s.Has(q) && q.Consumer? ==> s.cons[q.c] != CPrint
    ensures InOrder(Step(s, q)) <==> InOrder(s)
    ensures !PrintsWrong(cfg, s, q)
  {
    if s.Enabled(q) && q.Producer? && s.prod[q.p] == PPrint {
      LetterWritten(s.received, s.sent, s.mem[0]);
    }
  }

  lemma ReadWhileConsuming(cfg: Config, s0: State, c: nat, s: State)
    requires cfg.Valid() && Calm(cfg, s0) && Inside(s0, Consumer(c), s)
    ensures s.sent == s0.sent && |s.received| <= |s0.received| + 1 <= |s0.sent|
  {
  }

  lemma ReadNoMoreThanWritten(cfg: Config, sched: seq<Proc>)
    requires cfg.Valid()
    ensures |After(cfg, sched).received| <= |After(cfg, sched).sent|
  {
    var s0, inside, holder := Explain(cfg, sched);
    if inside {
      match holder
      case Producer(p) => ProducingRing(cfg, s0, p, After(cfg, sched));
      case Consumer(c) => ReadWhileConsuming(cfg, s0, c, After(cfg, sched));
    }
  }

  lemma FifoStep(cfg: Config, sched: seq<Proc>, q: Proc)
    requires cfg.Valid()
    ensures var s := After(cfg, sched); InOrder(Step(s, q)) <==> InOrder(s) && !PrintsWrong(cfg, s, q)
  {
    var s := After(cfg, sched);
    var s0, inside, holder := Explain(cfg, sched);
    if s.Has(q) && q.Consumer? && s.cons[q.c] == CPrint {
      if inside && q != holder {
        OthersBlocked(s0, holder, s, q);
      }
      PrintStep(cfg, s0, q.c, s);
    } else {
      ReadNoMoreThanWritten(cfg, sched);
      OtherStep(cfg, s, q);
    }
  }

  lemma FifoSnoc(cfg: Config, front: seq<Proc>, q: Proc)
    requires cfg.Valid()
    ensures InOrder(After(cfg, front + [q])) <==>
              InOrder(After(cfg, front)) && !PrintsWrong(cfg, After(cfg, front), q)
  {
    FifoStep(cfg, front, q);
    assert (front + [q])[..|front|] == front;
  }

  predicate NeverPrintsWrong(cfg: Config, sched: seq<Proc>)
    requires cfg.Valid()
  {
    forall k :: 0 <= k < |sched| ==> !PrintsWrong(cfg, After(cfg, sched[..k]), sched[k])
  }

  lemma OneMorePrint(cfg: Config, front: seq<Proc>, q: Proc)
    requires cfg.Valid()
    ensures NeverPrintsWrong(cfg, front + [q]) <==>
              NeverPrintsWrong(cfg, front) && !PrintsWrong(cfg, After(cfg, front), q)
  {
    var sched := front + [q];
    assert sched[..|front|] == front && sched[|front|] == q;
    assert forall k :: 0 <= k < |front| ==> front[..k] == sched[..k] && front[k] == sched[k];
  }

  lemma EmptyInOrder(cfg: Config)
    requires cfg.Valid()
    ensures InOrder(After(cfg, [])) && NeverPrintsWrong(cfg, [])
  {
  }

  /** For a ring of any size: the letters read in a run are a prefix of the letters written exactly
      when no consumer prints from a cell whose letter has been gone over by a number of rounds
      that is not a multiple of 26. */
  lemma {:induction false} FifoOfARun(cfg: Config, sched: seq<Proc>)
    requires cfg.Valid()
    ensures InOrder(After(cfg, sched)) <==> NeverPrintsWrong(cfg, sched)
    decreases |sched|
  {
    if sched == [] {
      EmptyInOrder(cfg);
    } else {
      var front, q := sched[..|sched| - 1], sched[|sched| - 1];
      FifoOfARun(cfg, front);
      assert sched == front + [q];
      FifoSnoc(cfg, front, q);
      OneMorePrint(cfg, front, q);
    }
  }
}
