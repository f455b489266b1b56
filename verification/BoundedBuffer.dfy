/**
 The producers and consumers around a ring of characters in shared memory.

 Cell 0 of the segment holds the next letter, cell 1 the index to read from and cell 2 the
 index to write to; the ring is the rest. Every semop and every statement between two semops
 is one step of the process that executes it, so any interleaving of any number of processes
 is a sequence of process names. A process whose semop cannot proceed stays where it is.
 */
module BoundedBuffer {

  /** Largest value SETVAL accepts on Linux (SEMVMX). */
  const SEMAPHORE_MAX := 32767

  /** The value kept when an int is stored in a (signed, 8-bit) char. */
  function ToChar(x: int): int {
    (x + 128) % 256 - 128
  }

  /** The value an int takes when it is compared with a (64-bit) size_t. */
  function ToSize(x: int): int {
    x % 0x1_0000_0000_0000_0000
  }

  datatype Config = Config(queueSize: nat, producers: nat, consumers: nat) {
    /** SETVAL of EMPT to the queue size succeeds, and there is somewhere to put an item. */
    predicate Valid() {
      1 <= queueSize <= SEMAPHORE_MAX
    }
  }

  /** Where a producer is: at the semop of line 19, at one of the statements of lines 25 to 30,
      or at the semop of line 32. */
  datatype ProducerPc = PWait | PStore | PPrint | PAdvance | PWrap | PNext | PRestart | PPost

  /** Where a consumer is: at the semop of line 54, in lines 60 to 63, or at the semop of line 65. */
  datatype ConsumerPc = CWait | CLoad | CPrint | CAdvance | CWrap | CPost

  datatype Proc = Producer(p: nat) | Consumer(c: nat)

  /** The semaphore set, the shared segment, the program counters, each consumer's local letter,
      and the letters printed so far by all producers and by all consumers. */
  datatype State = State(full: int, empt: int, bin: int, mem: seq<int>,
                         prod: seq<ProducerPc>, cons: seq<ConsumerPc>, cur: seq<int>,
                         sent: seq<int>, received: seq<int>)
  {
    predicate Shaped() {
      |mem| >= 4 && |cur| == |cons|
    }

    predicate Has(q: Proc) {
      match q
      case Producer(p) => p < |prod|
      case Consumer(c) => c < |cons|
    }

    predicate AtWait(q: Proc)
      requires Has(q)
    {
      match q
      case Producer(p) => prod[p] == PWait
      case Consumer(c) => cons[c] == CWait
    }

    /** A process can execute its next step unless that is a semop that would block. */
    predicate Enabled(q: Proc) {
      Has(q) &&
      (AtWait(q) ==> bin >= 1 && if q.Producer? then empt >= 1 else full >= 1)
    }
  }

  /** The shared segment cell by cell; an index outside the segment has no defined effect in C,
      here it reads 0 and writes nothing. */
  function Peek(mem: seq<int>, i: int): int {
    if 0 <= i < |mem| then mem[i] else 0
  }

  function Poke(mem: seq<int>, i: int, v: int): (r: seq<int>)
    ensures |r| == |mem|
  {
    if 0 <= i < |mem| then mem[i := v] else mem
  }

  function Init(cfg: Config): (s: State)
    ensures s.Shaped() || cfg.queueSize == 0
  {
    State(0, cfg.queueSize, 1, ['A' as int, 3, 3] + seq(cfg.queueSize, _ => 0),
          seq(cfg.producers, _ => PWait), seq(cfg.consumers, _ => CWait),
          seq(cfg.consumers, _ => 0), [], [])
  }

  function ProducerStep(s: State, p: nat): State
    requires s.Shaped() && p < |s.prod|
  {
    match s.prod[p]
    case PWait => s.(empt := s.empt - 1, bin := s.bin - 1, prod := s.prod[p := PStore])
    case PStore => s.(mem := Poke(s.mem, s.mem[2], s.mem[0]), prod := s.prod[p := PPrint])
    case PPrint => s.(sent := s.sent + [s.mem[0]], prod := s.prod[p := PAdvance])
    case PAdvance =>
      var i := ToChar(s.mem[2] + 1);
      s.(mem := s.mem[2 := i], prod := s.prod[p := if ToSize(i) >= |s.mem| then PWrap else PNext])
    case PWrap => s.(mem := s.mem[2 := 3], prod := s.prod[p := PNext])
    case PNext =>
      var l := ToChar(s.mem[0] + 1);
      s.(mem := s.mem[0 := l], prod := s.prod[p := if l > 'Z' as int then PRestart else PPost])
    case PRestart => s.(mem := s.mem[0 := 'A' as int], prod := s.prod[p := PPost])
    case PPost => s.(full := s.full + 1, bin := s.bin + 1, prod := s.prod[p := PWait])
  }

  function ConsumerStep(s: State, c: nat): State
    requires s.Shaped() && c < |s.cons|
  {
    match s.cons[c]
    case CWait => s.(full := s.full - 1, bin := s.bin - 1, cons := s.cons[c := CLoad])
    case CLoad => s.(cur := s.cur[c := Peek(s.mem, s.mem[1])], cons := s.cons[c := CPrint])
    case CPrint => s.(received := s.received + [s.cur[c]], cons := s.cons[c := CAdvance])
    case CAdvance =>
      var i := ToChar(s.mem[1] + 1);
      s.(mem := s.mem[1 := i], cons := s.cons[c := if ToSize(i) >= |s.mem| then CWrap else CPost])
    case CWrap => s.(mem := s.mem[1 := 3], cons := s.cons[c := CPost])
    case CPost => s.(empt := s.empt + 1, bin := s.bin + 1, cons := s.cons[c := CWait])
  }

  /** One scheduling decision: process q runs one step if it can. */
  function Step(s: State, q: Proc): (t: State)
    requires s.Shaped()
    ensures t.Shaped()
    ensures |t.mem| == |s.mem| && |t.prod| == |s.prod| && |t.cons| == |s.cons|
  {
    if !s.Enabled(q) then s
    else match q
      case Producer(p) => ProducerStep(s, p)
      case Consumer(c) => ConsumerStep(s, c)
  }

  /** The state after a schedule; every reachable state is After of some schedule. */
  function After(cfg: Config, sched: seq<Proc>): (s: State)
    requires cfg.Valid()
    ensures s.Shaped() && |s.mem| == 3 + cfg.queueSize
    ensures |s.prod| == cfg.producers && |s.cons| == cfg.consumers
  {
    if sched == [] then Init(cfg)
    else Step(After(cfg, sched[..|sched| - 1]), sched[|sched| - 1])
  }

  /** The same from any state on. */
  function RunFrom(s: State, sched: seq<Proc>): (t: State)
    requires s.Shaped()
    ensures t.Shaped() && |t.mem| == |s.mem| && |t.prod| == |s.prod| && |t.cons| == |s.cons|
    decreases sched
  {
    if sched == [] then s else RunFrom(Step(s, sched[0]), sched[1..])
  }

  // ---------- the same program with each critical section as one indivisible operation

  /** The index that follows i in a segment of the given size, as lines 27-28 and 62-63 compute it. */
  function Advance(i: int, size: int): int {
    var j := ToChar(i + 1);
    if ToSize(j) >= size then 3 else j
  }

  /** The letter that follows l, as lines 29-30 compute it. */
  function NextLetter(l: int): int {
    var m := ToChar(l + 1);
    if m > 'Z' as int then 'A' as int else m
  }

  /** A whole round of a producer: one letter enters the ring and the indices move on. */
  function Put(s: State): State
    requires s.Shaped()
  {
    var i, l := s.mem[2], s.mem[0];
    s.(full := s.full + 1, empt := s.empt - 1, sent := s.sent + [l],
       mem := Poke(s.mem, i, l)[2 := Advance(i, |s.mem|)][0 := NextLetter(l)])
  }

  /** A whole round of consumer c. */
  function Get(s: State, c: nat): State
    requires s.Shaped() && c < |s.cons|
  {
    var i := s.mem[1];
    s.(full := s.full - 1, empt := s.empt + 1, cur := s.cur[c := Peek(s.mem, i)],
       received := s.received + [Peek(s.mem, i)], mem := s.mem[1 := Advance(i, |s.mem|)])
  }

  function AtomicStep(s: State, q: Proc): (t: State)
    requires s.Shaped()
    ensures t.Shaped()
    ensures |t.mem| == |s.mem| && |t.prod| == |s.prod| && |t.cons| == |s.cons|
  {
    if !s.Enabled(q) then s
    else match q
      case Producer(_) => Put(s)
      case Consumer(c) => Get(s, c)
  }

  function AtomicAfter(cfg: Config, ops: seq<Proc>): (s: State)
    requires cfg.Valid()
    ensures s.Shaped() && |s.mem| == 3 + cfg.queueSize
    ensures |s.prod| == cfg.producers && |s.cons| == cfg.consumers
  {
    if ops == [] then Init(cfg)
    else AtomicStep(AtomicAfter(cfg, ops[..|ops| - 1]), ops[|ops| - 1])
  }

  /** The processes that entered the critical section during a schedule, in order of entry. */
  function Entries(cfg: Config, sched: seq<Proc>): seq<Proc>
    requires cfg.Valid()
  {
    if sched == [] then []
    else
      var front, q := sched[..|sched| - 1], sched[|sched| - 1];
      var s := After(cfg, front);
      Entries(cfg, front) + if s.Enabled(q) && s.AtWait(q) then [q] else []
  }
}
