/**
 The semop calls of the producers and consumers as the program writes them, and who gets past them.
 */
module BoundedBufferCalls {
  import opened SystemV
  import opened BoundedBuffer
  import opened BoundedBufferProofs
  import opened BoundedBufferTheorems

  const FULL := 0
  const EMPT := 1
  const BIN := 2

  function Values(s: State): (values: seq<int>)
    ensures |values| == 3
  {
    [s.full, s.empt, s.bin]
  }

  predicate NonNegative(s: State) {
    s.full >= 0 && s.empt >= 0 && s.bin >= 0
  }

  /** pre_sem and post_sem of prod_func and of cons_func. */
  const PRODUCER_ENTERS := Semop([SemBuf(EMPT, -1, false), SemBuf(BIN, -1, false)])
  const PRODUCER_LEAVES := Semop([SemBuf(FULL, 1, false), SemBuf(BIN, 1, false)])
  const CONSUMER_ENTERS := Semop([SemBuf(FULL, -1, false), SemBuf(BIN, -1, false)])
  const CONSUMER_LEAVES := Semop([SemBuf(EMPT, 1, false), SemBuf(BIN, 1, false)])

  /** The process is at one of its semops. */
  predicate AtSemop(s: State, q: Proc)
    requires s.Has(q)
  {
    match q
    case Producer(p) => s.prod[p] == PWait || s.prod[p] == PPost
    case Consumer(c) => s.cons[c] == CWait || s.cons[c] == CPost
  }

  function CallAt(s: State, q: Proc): Call
    requires s.Has(q)
  {
    match q
    case Producer(p) => if s.prod[p] == PWait then PRODUCER_ENTERS else PRODUCER_LEAVES
    case Consumer(c) => if s.cons[c] == CWait then CONSUMER_ENTERS else CONSUMER_LEAVES
  }

  /** The process goes on behind its semop, and nothing but the program counters changes. */
  function GoesOn(s: State, q: Proc): State
    requires s.Has(q)
  {
    match q
    case Producer(p) => s.(prod := s.prod[p := if s.prod[p] == PWait then PStore else PWait])
    case Consumer(c) => s.(cons := s.cons[c := if s.cons[c] == CWait then CLoad else CWait])
  }

  lemma Pairs(values: seq<int>)
    requires |values| == 3 && values[0] >= 0 && values[1] >= 0 && values[2] >= 0
    ensures Perform(values, PRODUCER_ENTERS) ==
            if values[1] >= 1 && values[2] >= 1 then Completed([values[0], values[1] - 1, values[2] - 1]) else Sleeps
    ensures Perform(values, PRODUCER_LEAVES) == Completed([values[0] + 1, values[1], values[2] + 1])
    ensures Perform(values, CONSUMER_ENTERS) ==
            if values[0] >= 1 && values[2] >= 1 then Completed([values[0] - 1, values[1], values[2] - 1]) else Sleeps
    ensures Perform(values, CONSUMER_LEAVES) == Completed([values[0], values[1] + 1, values[2] + 1])
  {
    TwoOperations(values, SemBuf(EMPT, -1, false), SemBuf(BIN, -1, false));
    TwoOperations(values, SemBuf(FULL, 1, false), SemBuf(BIN, 1, false));
    TwoOperations(values, SemBuf(FULL, -1, false), SemBuf(BIN, -1, false));
    TwoOperations(values, SemBuf(EMPT, 1, false), SemBuf(BIN, 1, false));
  }

  /** A step at a semop is the call as the kernel performs it: for every process alike, it waits
      where the call sleeps, and otherwise the semaphores are what the call makes of them. */
  lemma StepIsCall(s: State, q: Proc)
    requires s.Shaped() && s.Has(q) && NonNegative(s) && AtSemop(s, q)
    ensures match Perform(Values(s), CallAt(s, q))
            case Completed(v) =>
              var t := Step(s, q);
              Values(t) == v && t == GoesOn(s, q).(full := t.full, empt := t.empt, bin := t.bin)
            case _ => Step(s, q) == s
  {
    Pairs(Values(s));
  }

  /** Between its semops a process always goes on, and changes no semaphore. */
  lemma StatementsKeepSemaphores(s: State, q: Proc)
    requires s.Shaped() && s.Has(q) && !AtSemop(s, q)
    ensures Values(Step(s, q)) == Values(s) && Step(s, q) != s
  {
  }

  // ---------- what there is at the start

  /** Storing in a signed char of 8 bits and comparing with an unsigned number of 64. */
  lemma Conversions(x: int)
    ensures -128 <= x <= 127 ==> ToChar(x) == x
    ensures ToChar(127 + 1) == -128 && ToSize(-128) == 0xFFFF_FFFF_FFFF_FF80
    ensures 0 <= x <= 0xFFFF_FFFF_FFFF_FFFF ==> ToSize(x) == x
  {
  }

  lemma QueueSizes(cfg: Config)
    ensures cfg.Valid() <==> 1 <= cfg.queueSize <= 32767
  {
  }

  /** New shared memory is zero but for the letter A and the two indices 3; FULL is 0, EMPT the
      queue size and BIN 1; everybody is at the first semop. */
  lemma AtTheStart(cfg: Config)
    requires cfg.Valid()
    ensures var s := After(cfg, []);
            && |s.mem| == 3 + cfg.queueSize && s.mem[0] == 65 && s.mem[1] == 3 && s.mem[2] == 3
            && (forall i :: 3 <= i < |s.mem| ==> s.mem[i] == 0) && Values(s) == [0, cfg.queueSize, 1]
            && s.sent == [] && s.received == [] && AllWaiting(s)
            && |s.cur| == cfg.consumers && forall c :: 0 <= c < |s.cur| ==> s.cur[c] == 0
  {
  }

  // ---------- who can do something

  /** With nobody inside, any producer gets in exactly when the ring is not full, and any consumer
      exactly when it is not empty. */
  lemma EntryExactly(cfg: Config, sched: seq<Proc>, q: Proc)
    requires cfg.Valid() && After(cfg, sched).bin == 1 && After(cfg, sched).Has(q)
    ensures var s := After(cfg, sched);
            Step(s, q) != s <==>
              if q.Producer? then |s.sent| < |s.received| + cfg.queueSize else |s.received| < |s.sent|
  {
    var s0, inside, holder := Explain(cfg, sched);
  }

  /** With somebody inside, exactly that process can go on. */
  lemma HolderExactly(cfg: Config, sched: seq<Proc>) returns (holder: Proc)
    requires cfg.Valid() && After(cfg, sched).bin != 1
    ensures After(cfg, sched).Has(holder)
    ensures forall q :: Step(After(cfg, sched), q) != After(cfg, sched) <==> q == holder
  {
    var s := After(cfg, sched);
    var s0, inside, h := Explain(cfg, sched);
    holder := h;
    InsideHolds(s0, h, s);
    InsideStepsLeft(s0, h, s);
    forall q
      ensures Step(s, q) != s <==> q == h
    {
      if q != h {
        OthersBlocked(s0, h, s, q);
      }
    }
  }
}
