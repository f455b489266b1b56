/**
 The semaphore set as an array of six values that the processes change in place, the single
 calls, and the four start and stop functions built from them.
 */
module RwObject {
  import opened RwSemaphores
  import opened RwMonitor
  import opened RwMonitorProofs
  import opened RwCalls
  import opened RwVectors

  class SemaphoreSet {
    const sem: array<int>
    const rp: array<ReaderPc>
    const wp: array<WriterPc>

    ghost predicate Valid() {
      sem.Length == SEMN
    }

    ghost function Snapshot(): (s: State)
      requires Valid()
      reads sem, rp, wp
    {
      State(sem[ACT_W], sem[ACT_R], sem[WAI_W], sem[WAI_R], sem[CAN_W], sem[CAN_R], rp[..], wp[..])
    }

    constructor (readers: nat, writers: nat)
      ensures Valid() && fresh(sem) && fresh(rp) && fresh(wp)
      ensures Snapshot() == Init(readers, writers)
    {
      sem := new int[SEMN](_ => 0);
      rp := new ReaderPc[readers](_ => RTry);
      wp := new WriterPc[writers](_ => WTry);
      new;
      assert rp[..] == Init(readers, writers).rp;
      assert wp[..] == Init(readers, writers).wp;
    }

    /** The next call of reader r does not block. */
    predicate ReaderReady(r: nat)
      requires Valid() && r < rp.Length
      reads sem, rp
    {
      match rp[r]
      case RBlocked => sem[ACT_W] == 0 && sem[CAN_R] >= 1 && sem[WAI_R] >= 1
      case RActive => sem[ACT_R] >= 1
      case _ => true
    }

    /** The next call of writer w does not block. */
    predicate WriterReady(w: nat)
      requires Valid() && w < wp.Length
      reads sem, wp
    {
      match wp[w]
      case WBlocked => sem[ACT_W] == 0 && sem[CAN_W] >= 1 && sem[WAI_W] >= 1
      case WRelease => sem[ACT_W] >= 1
      case _ => true
    }

    /** The next call of reader r, which must not block. */
    method ReaderCall(r: nat)
      requires Valid() && r < rp.Length && Snapshot().Enabled(R(r))
      modifies sem, rp
      ensures Snapshot() == Step(old(Snapshot()), R(r))
    {
      match rp[r] {
        case RTry =>
          if sem[ACT_W] == 0 && sem[WAI_W] == 0 {
            sem[ACT_R] := sem[ACT_R] + 1;
            rp[r] := RActive;
          } else {
            rp[r] := RJoin;
          }
        case RJoin =>
          sem[WAI_R] := sem[WAI_R] + 1;
          rp[r] := RClear;
        case RClear =>
          sem[CAN_R] := 0;
          rp[r] := RBlocked;
        case RBlocked =>
          sem[CAN_R] := sem[CAN_R] - 1;
          sem[ACT_R] := sem[ACT_R] + 1;
          sem[WAI_R] := sem[WAI_R] - 1;
          rp[r] := RHandOn;
        case RHandOn =>
          sem[CAN_R] := 1;
          rp[r] := RActive;
        case RActive =>
          sem[ACT_R] := sem[ACT_R] - 1;
          rp[r] := RGetActive;
        case RGetActive =>
          rp[r] := if sem[ACT_R] == 0 then ROpen else RTry;
        case ROpen =>
          sem[CAN_W] := 1;
          rp[r] := RTry;
      }
    }

    /** The next call of writer w, which must not block. */
    method WriterCall(w: nat)
      requires Valid() && w < wp.Length && Snapshot().Enabled(W(w))
      modifies sem, wp
      ensures Snapshot() == Step(old(Snapshot()), W(w))
    {
      match wp[w] {
        case WTry =>
          if sem[ACT_R] == 0 && sem[ACT_W] == 0 {
            sem[ACT_W] := sem[ACT_W] + 1;
            wp[w] := WActive;
          } else {
            wp[w] := WJoin;
          }
        case WJoin =>
          sem[WAI_W] := sem[WAI_W] + 1;
          wp[w] := WClear;
        case WClear =>
          sem[CAN_W] := 0;
          wp[w] := WBlocked;
        case WBlocked =>
          sem[CAN_W] := sem[CAN_W] - 1;
          sem[ACT_W] := sem[ACT_W] + 1;
          sem[WAI_W] := sem[WAI_W] - 1;
          wp[w] := WActive;
        case WActive =>
          wp[w] := if sem[WAI_R] != 0 then WOpenRead else WOpenWrite;
        case WOpenRead =>
          sem[CAN_R] := 1;
          wp[w] := WRelease;
        case WOpenWrite =>
          sem[CAN_W] := 1;
          wp[w] := WRelease;
        case WRelease =>
          sem[ACT_W] := sem[ACT_W] - 1;
          wp[w] := WTry;
      }
    }

    /** start_read, up to the blocking semop if the try fails. */
    method Read(r: nat)
      requires Valid() && r < rp.Length && rp[r] == RTry
      modifies sem, rp
      ensures Snapshot() == Do(old(Snapshot()), StartRead(r))
    {
      ReaderCall(r);
      if rp[r] == RJoin {
        ReaderCall(r);
        ReaderCall(r);
      }
      StartReadEffect(old(Snapshot()), r);
      assert Snapshot().rp == Do(old(Snapshot()), StartRead(r)).rp;
    }

    /** start_write, up to the blocking semop if the try fails. */
    method Write(w: nat)
      requires Valid() && w < wp.Length && wp[w] == WTry
      modifies sem, wp
      ensures Snapshot() == Do(old(Snapshot()), StartWrite(w))
    {
      WriterCall(w);
      if wp[w] == WJoin {
        WriterCall(w);
        WriterCall(w);
      }
      StartWriteEffect(old(Snapshot()), w);
      assert Snapshot().wp == Do(old(Snapshot()), StartWrite(w)).wp;
    }

    /** The kernel completes blocked vectors, in any order, as long as one is possible. */
    method Drain() returns (ghost woken: seq<Proc>)
      requires Valid() && Draining(Snapshot())
      modifies sem, rp, wp
      ensures Drains(old(Snapshot()), woken) && Snapshot() == Drained(old(Snapshot()), woken)
      decreases sem[WAI_R] + sem[WAI_W]
    {
      ghost var s := Snapshot();
      if r: nat :| r < rp.Length && rp[r] == RBlocked && ReaderReady(r) {
        WakeKeeps(s, R(r));
        WakeEffect(s, R(r));
        ReaderCall(r);
        ReaderCall(r);
        assert Snapshot() == Wake(s, R(r));
        ghost var rest := Drain();
        woken := [R(r)] + rest;
        assert woken[1..] == rest;
      } else if w: nat :| w < wp.Length && wp[w] == WBlocked && WriterReady(w) {
        WakeKeeps(s, W(w));
        WakeEffect(s, W(w));
        WriterCall(w);
        ghost var rest := Drain();
        woken := [W(w)] + rest;
        assert woken[1..] == rest;
      } else {
        woken := [];
        forall q ensures !Wakeable(s, q) {
          match q
          case R(r) => assert r < rp.Length ==> s.rp[r] == rp[r];
          case W(w) => assert w < wp.Length ==> s.wp[w] == wp[w];
        }
      }
    }

    /** stop_read, and whoever it lets in. */
    method StopReading(r: nat) returns (ghost woken: seq<Proc>)
      requires Valid() && r < rp.Length && rp[r] == RActive && Tidy(Snapshot())
      modifies sem, rp, wp
      ensures CanAct(old(Snapshot()), StopRead(r, woken))
      ensures Snapshot() == Do(old(Snapshot()), StopRead(r, woken)) && Tidy(Snapshot())
    {
      ghost var s := Snapshot();
      AfterStopRead(s, r);
      ReaderCall(r);
      ReaderCall(r);
      if rp[r] == ROpen {
        ReaderCall(r);
      }
      assert Snapshot() == RunFrom(s, StopReadCalls(s, r)) by {
        assert Snapshot().rp == s.rp[r := RTry];
      }
      woken := Drain();
      DoTidy(s, StopRead(r, woken));
    }

    /** stop_write, and whoever it lets in. */
    method StopWriting(w: nat) returns (ghost woken: seq<Proc>)
      requires Valid() && w < wp.Length && wp[w] == WActive && Tidy(Snapshot())
      modifies sem, rp, wp
      ensures CanAct(old(Snapshot()), StopWrite(w, woken))
      ensures Snapshot() == Do(old(Snapshot()), StopWrite(w, woken)) && Tidy(Snapshot())
    {
      ghost var s := Snapshot();
      AfterStopWrite(s, w);
      WriterCall(w);
      WriterCall(w);
      WriterCall(w);
      assert Snapshot() == RunFrom(s, StopWriteCalls(w)) by {
        assert Snapshot().wp == s.wp[w := WTry];
      }
      woken := Drain();
      DoTidy(s, StopWrite(w, woken));
    }

    /** One scheduling decision; scheduling a blocked process changes nothing. */
    method Schedule(q: Proc)
      requires Valid()
      modifies sem, rp, wp
      ensures Snapshot() == Step(old(Snapshot()), q)
    {
      match q {
        case R(r) =>
          if r < rp.Length && ReaderReady(r) {
            ReaderCall(r);
          }
        case W(w) =>
          if w < wp.Length && WriterReady(w) {
            WriterCall(w);
          }
      }
    }
  }

  /** All processes under a given schedule of calls. */
  method Simulate(readers: nat, writers: nat, sched: seq<Proc>) returns (semaphores: SemaphoreSet)
    ensures fresh(semaphores) && semaphores.Valid() && semaphores.Snapshot() == After(readers, writers, sched)
  {
    semaphores := new SemaphoreSet(readers, writers);
    assert sched[..0] == [];
    for i := 0 to |sched|
      invariant fresh(semaphores) && fresh(semaphores.sem) && fresh(semaphores.rp) && fresh(semaphores.wp)
      invariant semaphores.Valid() && semaphores.Snapshot() == After(readers, writers, sched[..i])
    {
      assert sched[..i + 1][..i] == sched[..i];
      semaphores.Schedule(sched[i]);
    }
    assert sched[..|sched|] == sched;
  }
}
