/**
 The shared segment and semaphore set as mutable objects, with the loop bodies of the producer
 and the consumer written as the program writes them.
 */
module BoundedBufferObject {
  import opened BoundedBuffer

  class SharedRing {
    var full: int
    var empt: int
    var bin: int
    const mem: array<int>
    const prod: array<ProducerPc>
    const cons: array<ConsumerPc>
    const cur: array<int>
    var sent: seq<int>
    var received: seq<int>

    ghost predicate Valid()
      reads this
    {
      mem.Length >= 4 && cur.Length == cons.Length && mem != cur
    }

    ghost function Snapshot(): (s: State)
      reads this, mem, prod, cons, cur
    {
      State(full, empt, bin, mem[..], prod[..], cons[..], cur[..], sent, received)
    }

    /** The SETVALs and the three header cells of main; fresh shared memory is zero. */
    constructor (cfg: Config)
      requires cfg.Valid()
      ensures Valid() && fresh(mem) && fresh(prod) && fresh(cons) && fresh(cur)
      ensures Snapshot() == Init(cfg)
    {
      full, empt, bin := 0, cfg.queueSize, 1;
      mem := new int[3 + cfg.queueSize](i => if i == 0 then 'A' as int else if i < 3 then 3 else 0);
      prod := new ProducerPc[cfg.producers](_ => PWait);
      cons := new ConsumerPc[cfg.consumers](_ => CWait);
      cur := new int[cfg.consumers](_ => 0);
      sent, received := [], [];
      new;
      assert mem[..] == Init(cfg).mem;
      assert prod[..] == Init(cfg).prod;
      assert cons[..] == Init(cfg).cons;
      assert cur[..] == Init(cfg).cur;
    }

    method Write(i: int, v: int)
      requires Valid()
      modifies mem
      ensures mem[..] == Poke(old(mem[..]), i, v)
    {
      if 0 <= i < mem.Length {
        mem[i] := v;
      }
    }

    /** Lines 27-28: the index in a header cell moves on. */
    method MoveIndex(cell: nat)
      requires Valid() && cell < 3
      modifies mem
      ensures mem[..] == old(mem[..])[cell := Advance(old(mem[cell]), mem.Length)]
    {
      mem[cell] := ToChar(mem[cell] + 1);
      if ToSize(mem[cell]) >= mem.Length {
        mem[cell] := 3;
      }
    }

    /** Lines 29-30: the next letter. */
    method MoveLetter()
      requires Valid()
      modifies mem
      ensures mem[..] == old(mem[..])[0 := NextLetter(old(mem[0]))]
    {
      mem[0] := ToChar(mem[0] + 1);
      if mem[0] > 'Z' as int {
        mem[0] := 'A' as int;
      }
    }

    /** One round of prod_func from the first semop to the second with nobody in between;
        false when the first semop would block. The write index is past the header, as it is
        in every state between two rounds. */
    method Produce(p: nat) returns (done: bool)
      requires Valid() && p < prod.Length && prod[p] == PWait && mem[2] >= 3
      modifies this, mem
      ensures Valid() && done == old(Snapshot()).Enabled(Producer(p))
      ensures Snapshot() == AtomicStep(old(Snapshot()), Producer(p))
    {
      if empt < 1 || bin < 1 {
        return false;
      }
      ghost var i, l := mem[2], mem[0];
      empt, bin := empt - 1, bin - 1;
      Write(mem[2], mem[0]);
      assert mem[..][0] == l && mem[..][2] == i;
      sent := sent + [mem[0]];
      MoveIndex(2);
      MoveLetter();
      full, bin := full + 1, bin + 1;
      done := true;
    }

    /** One round of cons_func with nobody in between. */
    method Consume(c: nat) returns (done: bool)
      requires Valid() && c < cons.Length && cons[c] == CWait
      modifies this, mem, cur
      ensures Valid() && done == old(Snapshot()).Enabled(Consumer(c))
      ensures Snapshot() == AtomicStep(old(Snapshot()), Consumer(c))
    {
      if full < 1 || bin < 1 {
        return false;
      }
      full, bin := full - 1, bin - 1;
      cur[c] := if 0 <= mem[1] < mem.Length then mem[mem[1]] else 0;
      received := received + [cur[c]];
      MoveIndex(1);
      empt, bin := empt + 1, bin + 1;
      done := true;
    }

    /** The next statement of producer p. */
    method ProducerStatement(p: nat)
      requires Valid() && p < prod.Length && Snapshot().Enabled(Producer(p))
      modifies this, mem, prod
      ensures Valid() && Snapshot() == Step(old(Snapshot()), Producer(p))
    {
      match prod[p] {
        case PWait =>
          empt, bin := empt - 1, bin - 1;
          prod[p] := PStore;
        case PStore =>
          Write(mem[2], mem[0]);
          prod[p] := PPrint;
        case PPrint =>
          sent := sent + [mem[0]];
          prod[p] := PAdvance;
        case PAdvance =>
          mem[2] := ToChar(mem[2] + 1);
          prod[p] := if ToSize(mem[2]) >= mem.Length then PWrap else PNext;
        case PWrap =>
          mem[2] := 3;
          prod[p] := PNext;
        case PNext =>
          mem[0] := ToChar(mem[0] + 1);
          prod[p] := if mem[0] > 'Z' as int then PRestart else PPost;
        case PRestart =>
          mem[0] := 'A' as int;
          prod[p] := PPost;
        case PPost =>
          full, bin := full + 1, bin + 1;
          prod[p] := PWait;
      }
    }

    /** The next statement of consumer c. */
    method ConsumerStatement(c: nat)
      requires Valid() && c < cons.Length && Snapshot().Enabled(Consumer(c))
      modifies this, mem, cons, cur
      ensures Valid() && Snapshot() == Step(old(Snapshot()), Consumer(c))
    {
      match cons[c] {
        case CWait =>
          full, bin := full - 1, bin - 1;
          cons[c] := CLoad;
        case CLoad =>
          cur[c] := if 0 <= mem[1] < mem.Length then mem[mem[1]] else 0;
          cons[c] := CPrint;
        case CPrint =>
          received := received + [cur[c]];
          cons[c] := CAdvance;
        case CAdvance =>
          mem[1] := ToChar(mem[1] + 1);
          cons[c] := if ToSize(mem[1]) >= mem.Length then CWrap else CPost;
        case CWrap =>
          mem[1] := 3;
          cons[c] := CPost;
        case CPost =>
          empt, bin := empt + 1, bin + 1;
          cons[c] := CWait;
      }
    }

    /** One scheduling decision; scheduling a blocked process changes nothing. */
    method Schedule(q: Proc)
      requires Valid()
      modifies this, mem, prod, cons, cur
      ensures Valid() && Snapshot() == Step(old(Snapshot()), q)
    {
      match q {
        case Producer(p) =>
          if p < prod.Length && (prod[p] == PWait ==> bin >= 1 && empt >= 1) {
            ProducerStatement(p);
          }
        case Consumer(c) =>
          if c < cons.Length && (cons[c] == CWait ==> bin >= 1 && full >= 1) {
            ConsumerStatement(c);
          }
      }
    }
  }

  /** The program under a given schedule. */
  method Simulate(cfg: Config, sched: seq<Proc>) returns (ring: SharedRing)
    requires cfg.Valid()
    ensures fresh(ring) && ring.Valid() && ring.Snapshot() == After(cfg, sched)
  {
    ring := new SharedRing(cfg);
    assert sched[..0] == [];
    for i := 0 to |sched|
      invariant ring.Valid() && fresh(ring)
      invariant fresh(ring.mem) && fresh(ring.prod) && fresh(ring.cons) && fresh(ring.cur)
      invariant ring.Snapshot() == After(cfg, sched[..i])
    {
      assert sched[..i + 1][..i] == sched[..i];
      ring.Schedule(sched[i]);
    }
    assert sched[..|sched|] == sched;
  }
}
