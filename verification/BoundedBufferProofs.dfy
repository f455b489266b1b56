/**
 What every run of the producers and consumers keeps.
 */
module BoundedBufferProofs {
  import opened Arithmetic
  import opened BoundedBuffer

  // ---------- the ring's arithmetic

  /** How many different ring cells the char-typed indices ever visit. */
  function Cells(queueSize: nat): nat {
    if queueSize <= 125 then queueSize else 125
  }

  /** The cell used by the k-th item and the letter it carries. */
  function Slot(cfg: Config, k: nat): int
    requires cfg.Valid()
  {
    3 + k % Cells(cfg.queueSize)
  }

  function Letter(k: nat): int {
    'A' as int + k % 26
  }

  lemma LetterAdvances(k: nat)
    ensures NextLetter(Letter(k)) == Letter(k + 1)
  {
  }

  lemma SlotAdvances(cfg: Config, k: nat)
    requires cfg.Valid()
    ensures 3 <= Slot(cfg, k) < 3 + Cells(cfg.queueSize) <= 128
    ensures Advance(Slot(cfg, k), 3 + cfg.queueSize) == Slot(cfg, k + 1)
  {
    ModSucc(k, Cells(cfg.queueSize));
  }

  // ---------- the atomic program

  predicate AllWaiting(s: State) {
    (forall p :: 0 <= p < |s.prod| ==> s.prod[p] == PWait) &&
    (forall c :: 0 <= c < |s.cons| ==> s.cons[c] == CWait)
  }

  /** With w items written and r read: the counters are exact, and the last Cells letters
      written are in the ring. */
  predicate Calm(cfg: Config, s: State)
    requires cfg.Valid()
  {
    var w, r := |s.sent|, |s.received|;
    && s.Shaped() && |s.mem| == 3 + cfg.queueSize && AllWaiting(s)
    && s.bin == 1 && s.full == w - r && s.empt == cfg.queueSize - (w - r)
    && r <= w <= r + cfg.queueSize
    && s.mem[0] == Letter(w) && s.mem[1] == Slot(cfg, r) && s.mem[2] == Slot(cfg, w)
    && (forall k :: 0 <= k < w ==> s.sent[k] == Letter(k))
    && (forall k: nat :: w - Cells(cfg.queueSize) <= k < w ==> s.mem[Slot(cfg, k)] == Letter(k))
    && (cfg.queueSize <= 125 ==> forall k :: 0 <= k < r ==> s.received[k] == Letter(k))
  }

  lemma InitIsCalm(cfg: Config)
    requires cfg.Valid()
    ensures Calm(cfg, Init(cfg))
  {
  }

  lemma PutKeepsCalm(cfg: Config, s: State)
    requires cfg.Valid() && Calm(cfg, s) && s.empt >= 1
    ensures Calm(cfg, Put(s))
  {
    var w, n, t := |s.sent|, Cells(cfg.queueSize), Put(s);
    LetterAdvances(w);
    SlotAdvances(cfg, w);
    SlotAdvances(cfg, |s.received|);
    forall k: nat | w + 1 - n <= k < w + 1
      ensures t.mem[Slot(cfg, k)] == Letter(k)
    {
      if k < w && Slot(cfg, k) == Slot(cfg, w) {
        ModApart(k, w, n);
      }
      assert k < w ==> s.mem[Slot(cfg, k)] == Letter(k);
    }
  }

  lemma GetKeepsCalm(cfg: Config, s: State, c: nat)
    requires cfg.Valid() && Calm(cfg, s) && s.full >= 1 && c < |s.cons|
    ensures Calm(cfg, Get(s, c))
  {
    SlotAdvances(cfg, |s.received|);
    assert cfg.queueSize <= 125 ==> s.mem[Slot(cfg, |s.received|)] == Letter(|s.received|);
  }

  lemma {:induction false} AtomicRunsAreCalm(cfg: Config, ops: seq<Proc>)
    requires cfg.Valid()
    ensures Calm(cfg, AtomicAfter(cfg, ops))
  {
    if ops == [] {
      InitIsCalm(cfg);
    } else {
      var front, q := ops[..|ops| - 1], ops[|ops| - 1];
      var s := AtomicAfter(cfg, front);
      AtomicRunsAreCalm(cfg, front);
      if s.Enabled(q) {
        match q
        case Producer(p) => PutKeepsCalm(cfg, s);
        case Consumer(c) => GetKeepsCalm(cfg, s, c);
      }
    }
  }

  // ---------- the statement-level program is the atomic one, interrupted at most once

  /** What state s0 looks like once producer p has entered and stands at pc. */
  function MidPut(s0: State, p: nat, pc: ProducerPc): State
    requires s0.Shaped() && p < |s0.prod|
  {
    var i, l, size := s0.mem[2], s0.mem[0], |s0.mem|;
    var s := s0.(empt := s0.empt - 1, bin := s0.bin - 1, prod := s0.prod[p := pc]);
    if pc == PStore then s
    else
      var stored := s.(mem := Poke(s.mem, i, l));
      if pc == PPrint then stored
      else
        var printed := stored.(sent := s.sent + [l]);
        if pc == PAdvance then printed
        else if pc == PWrap then printed.(mem := printed.mem[2 := ToChar(i + 1)])
        else
          var moved := printed.(mem := printed.mem[2 := Advance(i, size)]);
          if pc == PNext then moved
          else moved.(mem := moved.mem[0 := if pc == PRestart then ToChar(l + 1) else NextLetter(l)])
  }

  function MidGet(s0: State, c: nat, pc: ConsumerPc): State
    requires s0.Shaped() && c < |s0.cons|
  {
    var i := s0.mem[1];
    var s := s0.(full := s0.full - 1, bin := s0.bin - 1, cons := s0.cons[c := pc]);
    if pc == CLoad then s
    else
      var loaded := s.(cur := s.cur[c := Peek(s.mem, i)]);
      if pc == CPrint then loaded
      else
        var printed := loaded.(received := s.received + [Peek(s.mem, i)]);
        if pc == CAdvance then printed
        else printed.(mem := printed.mem[1 := if pc == CWrap then ToChar(i + 1) else Advance(i, |s0.mem|)])
  }

  /** s is s0 with process q part of the way through its critical section. */
  predicate Inside(s0: State, q: Proc, s: State) {
    && s0.Shaped() && AllWaiting(s0) && s0.bin == 1 && s0.Enabled(q)
    && s.Shaped() && s.Has(q)
    && match q
       case Producer(p) =>
         var pc := s.prod[p];
         && pc != PWait && s == MidPut(s0, p, pc)
         && (pc == PWrap ==> ToSize(ToChar(s0.mem[2] + 1)) >= |s0.mem|)
         && (pc == PRestart ==> ToChar(s0.mem[0] + 1) > 'Z' as int)
       case Consumer(c) =>
         var pc := s.cons[c];
         && pc != CWait && s == MidGet(s0, c, pc)
         && (pc == CWrap ==> ToSize(ToChar(s0.mem[1] + 1)) >= |s0.mem|)
  }

  lemma ProducerStores(s0: State, p: nat, s: State)
    requires Inside(s0, Producer(p), s) && 3 <= s0.mem[2]
    requires s.prod[p] == PStore || s.prod[p] == PPrint
    ensures Inside(s0, Producer(p), Step(s, Producer(p)))
  {
  }

  lemma ProducerAdvances(s0: State, p: nat, s: State)
    requires Inside(s0, Producer(p), s) && 3 <= s0.mem[2] && s.prod[p] == PAdvance
    ensures Inside(s0, Producer(p), Step(s, Producer(p)))
  {
    assert s.mem[2] == s0.mem[2];
  }

  lemma ProducerWraps(s0: State, p: nat, s: State)
    requires Inside(s0, Producer(p), s) && 3 <= s0.mem[2] && s.prod[p] == PWrap
    ensures Inside(s0, Producer(p), Step(s, Producer(p)))
  {
    assert s.mem[2 := 3] == Poke(s0.mem, s0.mem[2], s0.mem[0])[2 := 3];
  }

  lemma ProducerChangesLetter(s0: State, p: nat, s: State)
    requires Inside(s0, Producer(p), s) && 3 <= s0.mem[2] && s.prod[p] == PNext
    ensures Inside(s0, Producer(p), Step(s, Producer(p)))
  {
    assert s.mem[0] == s0.mem[0];
  }

  lemma ProducerRestarts(s0: State, p: nat, s: State)
    requires Inside(s0, Producer(p), s) && s.prod[p] == PRestart
    ensures Inside(s0, Producer(p), Step(s, Producer(p)))
  {
    assert s.mem[0 := 'A' as int] == MidPut(s0, p, PPost).mem;
  }

  lemma ProducerLeaves(s0: State, p: nat, s: State)
    requires Inside(s0, Producer(p), s) && s.prod[p] == PPost
    ensures Step(s, Producer(p)) == AtomicStep(s0, Producer(p))
  {
    assert Step(s, Producer(p)).prod == s0.prod;
  }

  lemma ProducerProgress(s0: State, p: nat, s: State)
    requires Inside(s0, Producer(p), s) && 3 <= s0.mem[2]
    ensures s.prod[p] != PPost ==> Inside(s0, Producer(p), Step(s, Producer(p)))
    ensures s.prod[p] == PPost ==> Step(s, Producer(p)) == AtomicStep(s0, Producer(p))
  {
    match s.prod[p]
    case PStore => ProducerStores(s0, p, s);
    case PPrint => ProducerStores(s0, p, s);
    case PAdvance => ProducerAdvances(s0, p, s);
    case PWrap => ProducerWraps(s0, p, s);
    case PNext => ProducerChangesLetter(s0, p, s);
    case PRestart => ProducerRestarts(s0, p, s);
    case PPost => ProducerLeaves(s0, p, s);
  }

  lemma ConsumerProgress(s0: State, c: nat, s: State)
    requires Inside(s0, Consumer(c), s)
    ensures s.cons[c] != CPost ==> Inside(s0, Consumer(c), Step(s, Consumer(c)))
    ensures s.cons[c] == CPost ==> Step(s, Consumer(c)) == AtomicStep(s0, Consumer(c))
  {
    var t := Step(s, Consumer(c));
    assert s0.cons[c := CWait] == s0.cons;
    match s.cons[c] {
      case CLoad =>
      case CPrint =>
      case CAdvance =>
      case CWrap =>
        assert t.mem == MidGet(s0, c, CPost).mem;
      case CPost =>
        assert t.cons == s0.cons;
    }
  }

  lemma Entering(s: State, q: Proc)
    requires s.Shaped() && AllWaiting(s) && s.bin == 1 && s.Enabled(q)
    ensures Inside(s, q, Step(s, q)) && Step(s, q).bin == 0
  {
  }

  /** While one process is inside, every other one is blocked at its first semop. */
  lemma OthersBlocked(s0: State, holder: Proc, s: State, q: Proc)
    requires Inside(s0, holder, s) && q != holder
    ensures !s.Enabled(q)
  {
    assert s.Has(q) ==> s.AtWait(q) == s0.AtWait(q);
  }

  lemma InsideHolds(s0: State, holder: Proc, s: State)
    requires Inside(s0, holder, s)
    ensures s.bin == 0 && s.Enabled(holder) && !s.AtWait(holder)
  {
  }

  lemma HolderProgress(cfg: Config, s0: State, q: Proc, s: State)
    requires cfg.Valid() && Calm(cfg, s0) && Inside(s0, q, s)
    ensures Inside(s0, q, Step(s, q)) || Step(s, q) == AtomicStep(s0, q)
  {
    match q
    case Producer(p) => ProducerProgress(s0, p, s);
    case Consumer(c) => ConsumerProgress(s0, c, s);
  }

  /** Every reachable state is an atomic run, or an atomic run plus the one process that is inside. */
  predicate Reduced(cfg: Config, s: State, ops: seq<Proc>)
    requires cfg.Valid()
  {
    if s.bin == 1 then s == AtomicAfter(cfg, ops)
    else |ops| > 0 && Inside(AtomicAfter(cfg, ops[..|ops| - 1]), ops[|ops| - 1], s)
  }

  /** Nobody is inside: a process that can go on enters. */
  lemma EntryReduced(cfg: Config, ops: seq<Proc>, q: Proc)
    requires cfg.Valid() && AtomicAfter(cfg, ops).Enabled(q)
    ensures Reduced(cfg, Step(AtomicAfter(cfg, ops), q), ops + [q])
  {
    var s := AtomicAfter(cfg, ops);
    AtomicRunsAreCalm(cfg, ops);
    Entering(s, q);
    assert (ops + [q])[..|ops|] == ops;
  }

  /** Somebody is inside: it moves on or leaves, and nobody else can do anything. */
  lemma SectionReduced(cfg: Config, s: State, ops: seq<Proc>, q: Proc)
    requires cfg.Valid() && s.Shaped() && Reduced(cfg, s, ops) && s.bin != 1
    ensures Reduced(cfg, Step(s, q), ops)
    ensures !(s.Enabled(q) && s.AtWait(q))
  {
    var front, holder := ops[..|ops| - 1], ops[|ops| - 1];
    var s0 := AtomicAfter(cfg, front);
    AtomicRunsAreCalm(cfg, front);
    InsideHolds(s0, holder, s);
    if q != holder {
      OthersBlocked(s0, holder, s, q);
    } else {
      HolderProgress(cfg, s0, q, s);
      if Inside(s0, q, Step(s, q)) {
        InsideHolds(s0, q, Step(s, q));
      } else {
        AtomicRunsAreCalm(cfg, ops);
      }
    }
  }

  lemma ReductionStep(cfg: Config, s: State, ops: seq<Proc>, q: Proc)
    requires cfg.Valid() && s.Shaped() && Reduced(cfg, s, ops)
    ensures Reduced(cfg, Step(s, q), ops + if s.Enabled(q) && s.AtWait(q) then [q] else [])
  {
    assert ops + [] == ops;
    if s.bin != 1 {
      SectionReduced(cfg, s, ops, q);
    } else {
      AtomicRunsAreCalm(cfg, ops);
      if s.Enabled(q) {
        EntryReduced(cfg, ops, q);
      }
    }
  }

  /** Statement-level runs reduce to runs of whole puts and gets, taken in order of entry. */
  lemma {:induction false} Reduction(cfg: Config, sched: seq<Proc>)
    requires cfg.Valid()
    ensures Reduced(cfg, After(cfg, sched), Entries(cfg, sched))
  {
    if sched != [] {
      var front := sched[..|sched| - 1];
      Reduction(cfg, front);
      ReductionStep(cfg, After(cfg, front), Entries(cfg, front), sched[|sched| - 1]);
    }
  }
}
