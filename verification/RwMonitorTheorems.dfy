/**
 The guarantees of the monitor, over every run of acts and any number of processes.
 */
module RwMonitorTheorems {
  import opened RwSemaphores
  import opened RwSyscallProofs
  import opened RwSyscallLimits
  import opened RwMonitor
  import opened RwMonitorProofs
  import opened RwCalls
  import opened Sequences

  // ---------- exclusion

  /** No reader is ever in together with a writer, and no two writers are. */
  lemma MonitorExclusion(readers: nat, writers: nat, acts: seq<Act>)
    ensures var s := DoAll(Init(readers, writers), acts);
            && (forall r, w :: 0 <= r < readers && 0 <= w < writers ==> !(s.Reading(r) && s.Writing(w)))
            && (forall v, w :: 0 <= v < writers && 0 <= w < writers && s.Writing(v) && s.Writing(w) ==> v == w)
  {
    var s := DoAll(Init(readers, writers), acts);
    InitTidy(readers, writers);
    RunTidy(Init(readers, writers), acts);
    forall r, w | 0 <= r < readers && 0 <= w < writers
      ensures !(s.Reading(r) && s.Writing(w))
    {
      if s.Reading(r) && s.Writing(w) {
        ReadingCounted(s, r);
        WritingCounted(s, w);
      }
    }
    forall v, w | 0 <= v < writers && 0 <= w < writers && s.Writing(v) && s.Writing(w)
      ensures v == w
    {
      OneWriter(s, v, w);
    }
  }

  // ---------- exclusion inside the acts

  /** No state along a schedule of calls has readers and a writer in together. */
  predicate ExclusiveAlong(s: State, sched: seq<Proc>)
    decreases sched
  {
    Exclusive(s) && (sched == [] || ExclusiveAlong(Step(s, sched[0]), sched[1..]))
  }

  lemma {:induction false} AlongAppend(s: State, a: seq<Proc>, b: seq<Proc>)
    requires ExclusiveAlong(s, a) && ExclusiveAlong(RunFrom(s, a), b)
    ensures ExclusiveAlong(s, a + b)
    decreases a
  {
    if a == [] {
      assert a + b == b;
    } else {
      assert (a + b)[1..] == a[1..] + b;
      AlongAppend(Step(s, a[0]), a[1..], b);
    }
  }

  lemma {:induction false} AlongAt(s: State, sched: seq<Proc>, k: nat)
    requires ExclusiveAlong(s, sched) && k <= |sched|
    ensures Exclusive(RunFrom(s, sched[..k]))
    decreases sched
  {
    if k > 0 {
      assert sched[..k][1..] == sched[1..][..k - 1];
      AlongAt(Step(s, sched[0]), sched[1..], k - 1);
    }
  }

  lemma {:induction false} ReaderCallsExclusive(s: State, sched: seq<Proc>)
    requires Counted(s) && Exclusive(s) && forall q :: q in sched ==> q.R?
    ensures ExclusiveAlong(s, sched)
    decreases sched
  {
    if sched != [] {
      assert sched[0] in sched;
      ExclusiveStep(s, sched[0]);
      StepCounted(s, sched[0]);
      ReaderCallsExclusive(Step(s, sched[0]), sched[1..]);
    }
  }

  /** How many calls a writer makes for sure before it is back at its wake-up vector. */
  function BeforeWakeUp(pc: WriterPc): nat {
    match pc
    case WTry => 3 case WJoin => 2 case WClear => 1 case WBlocked => 0
    case WActive => 3 case WOpenRead => 2 case WOpenWrite => 2 case WRelease => 1
  }

  lemma {:induction false} WriterCallsExclusive(s: State, w: nat, sched: seq<Proc>)
    requires Counted(s) && Exclusive(s) && w < |s.wp|
    requires |sched| <= BeforeWakeUp(s.wp[w]) && forall q :: q in sched ==> q == W(w)
    ensures ExclusiveAlong(s, sched)
    decreases sched
  {
    if sched != [] {
      assert sched[0] in sched;
      ExclusiveStep(s, W(w));
      StepCounted(s, W(w));
      assert forall q :: q in sched[1..] ==> q in sched;
      WriterCallsExclusive(Step(s, W(w)), w, sched[1..]);
    }
  }

  lemma {:induction false} WokenReadersCalls(woken: seq<Proc>)
    requires forall q :: q in woken ==> q.R?
    ensures forall q :: q in WokenCalls(woken) ==> q.R?
  {
    if woken != [] {
      assert woken[0] in woken;
      WokenReadersCalls(woken[1..]);
    }
  }

  lemma DrainExclusive(s: State, woken: seq<Proc>)
    requires Counted(s) && Exclusive(s)
    requires (forall q :: q in woken ==> q.R?) || (|woken| == 1 && woken[0].W? && s.actR == 0)
    ensures ExclusiveAlong(s, WokenCalls(woken))
  {
    if forall q :: q in woken ==> q.R? {
      WokenReadersCalls(woken);
      ReaderCallsExclusive(s, WokenCalls(woken));
    } else {
      assert WokenCalls(woken) == [woken[0]];
      ExclusiveStep(s, woken[0]);
    }
  }

  lemma StopReadExclusive(s: State, r: nat, woken: seq<Proc>)
    requires Tidy(s) && CanAct(s, StopRead(r, woken))
    ensures ExclusiveAlong(s, StopReadCalls(s, r) + WokenCalls(woken))
  {
    AfterStopRead(s, r);
    StopReadOutcome(s, r, woken);
    ReaderCallsExclusive(s, StopReadCalls(s, r));
    DrainExclusive(RunFrom(s, StopReadCalls(s, r)), woken);
    AlongAppend(s, StopReadCalls(s, r), WokenCalls(woken));
  }

  lemma StopWriteExclusive(s: State, w: nat, woken: seq<Proc>)
    requires Tidy(s) && CanAct(s, StopWrite(w, woken))
    ensures ExclusiveAlong(s, StopWriteCalls(w) + WokenCalls(woken))
  {
    AfterStopWrite(s, w);
    StopWriteOutcome(s, w, woken);
    WriterCallsExclusive(s, w, StopWriteCalls(w));
    DrainExclusive(RunFrom(s, StopWriteCalls(w)), woken);
    AlongAppend(s, StopWriteCalls(w), WokenCalls(woken));
  }

  lemma ActExclusive(s: State, a: Act)
    requires Tidy(s)
    ensures ExclusiveAlong(s, Calls(s, a))
  {
    if CanAct(s, a) {
      match a
      case StartRead(r) => ReaderCallsExclusive(s, StartReadCalls(s, r));
      case StartWrite(w) => WriterCallsExclusive(s, w, StartWriteCalls(s, w));
      case StopRead(r, woken) => StopReadExclusive(s, r, woken);
      case StopWrite(w, woken) => StopWriteExclusive(s, w, woken);
    }
  }

  lemma {:induction false} RunExclusive(s: State, acts: seq<Act>)
    requires Tidy(s)
    ensures ExclusiveAlong(s, AllCalls(s, acts))
    decreases acts
  {
    if acts != [] {
      ActExclusive(s, acts[0]);
      ActIsSchedule(s, acts[0]);
      DoTidy(s, acts[0]);
      RunExclusive(Do(s, acts[0]), acts[1..]);
      AlongAppend(s, Calls(s, acts[0]), AllCalls(Do(s, acts[0]), acts[1..]));
    }
  }

  /** The calls of a run of acts are a schedule that ends where the acts do, and after none of
      them are readers and a writer in together, those in the middle of an act included. */
  lemma ExclusiveAfterEveryCall(readers: nat, writers: nat, acts: seq<Act>)
    ensures var sched := AllCalls(Init(readers, writers), acts);
            && After(readers, writers, sched) == DoAll(Init(readers, writers), acts)
            && forall k :: 0 <= k <= |sched| ==> Exclusive(After(readers, writers, sched[..k]))
  {
    var i := Init(readers, writers);
    var sched := AllCalls(i, acts);
    InitTidy(readers, writers);
    RunExclusive(i, acts);
    MonitorIsSchedule(i, acts);
    AfterIsRun(readers, writers, sched);
    forall k | 0 <= k <= |sched|
      ensures Exclusive(After(readers, writers, sched[..k]))
    {
      AlongAt(i, sched, k);
      AfterIsRun(readers, writers, sched[..k]);
    }
  }

  // ---------- progress

  /** Draining ends: every wake-up shortens the queue of sleepers. */
  lemma {:induction false} DrainExists(s: State) returns (woken: seq<Proc>)
    requires Draining(s)
    ensures Drains(s, woken)
    decreases s.waiR + s.waiW
  {
    if exists q :: Wakeable(s, q) {
      var q :| Wakeable(s, q);
      WakeKeeps(s, q);
      WakeEffect(s, q);
      var rest := DrainExists(Wake(s, q));
      woken := [q] + rest;
      assert woken[1..] == rest;
    } else {
      woken := [];
    }
  }

  /** The order of the sleepers is open: whoever can be woken can be the first. */
  lemma AnySleeperFirst(s: State, q: Proc) returns (woken: seq<Proc>)
    requires Draining(s) && Wakeable(s, q)
    ensures woken != [] && woken[0] == q && Drains(s, woken)
  {
    WakeKeeps(s, q);
    var rest := DrainExists(Wake(s, q));
    woken := [q] + rest;
    assert woken[1..] == rest;
  }

  /** Nobody waits while nobody is in, waiting readers have a writer to wait for, and some
      process can act in every reachable state. */
  lemma NoStrandedWaiters(readers: nat, writers: nat, acts: seq<Act>) returns (a: Act)
    requires readers + writers >= 1
    ensures var s := DoAll(Init(readers, writers), acts);
            && (s.actR == 0 && s.actW == 0 ==> s.waiR == 0 && s.waiW == 0)
            && (s.waiR > 0 ==> s.actW == 1 || s.waiW > 0)
            && CanAct(s, a)
  {
    InitTidy(readers, writers);
    RunTidy(Init(readers, writers), acts);
    a := SomeAct(DoAll(Init(readers, writers), acts));
  }

  lemma SomeAct(s: State) returns (a: Act)
    requires Tidy(s) && |s.rp| + |s.wp| >= 1
    ensures CanAct(s, a)
  {
    if exists r :: 0 <= r < |s.rp| && s.rp[r] == RActive {
      var r :| 0 <= r < |s.rp| && s.rp[r] == RActive;
      AfterStopRead(s, r);
      var woken := DrainExists(RunFrom(s, StopReadCalls(s, r)));
      a := StopRead(r, woken);
    } else if exists w :: 0 <= w < |s.wp| && s.wp[w] == WActive {
      var w :| 0 <= w < |s.wp| && s.wp[w] == WActive;
      AfterStopWrite(s, w);
      var woken := DrainExists(RunFrom(s, StopWriteCalls(w)));
      a := StopWrite(w, woken);
    } else {
      NobodyIn(s);
      if |s.rp| > 0 {
        MoveReader(s.rp, 0, RTry);
        a := StartRead(0);
      } else {
        MoveWriter(s.wp, 0, WTry);
        a := StartWrite(0);
      }
    }
  }

  ghost predicate ReaderCanLeave(s: State, r: nat) {
    exists woken :: CanAct(s, StopRead(r, woken))
  }

  ghost predicate WriterCanLeave(s: State, w: nat) {
    exists woken :: CanAct(s, StopWrite(w, woken))
  }

  /** Between acts, exactly those that do not sleep can act: whoever is out can start, and whoever
      is in can leave. */
  lemma WhoCanAct(s: State)
    requires Tidy(s)
    ensures forall r: nat :: CanAct(s, StartRead(r)) <==> r < |s.rp| && s.rp[r] == RTry
    ensures forall w: nat :: CanAct(s, StartWrite(w)) <==> w < |s.wp| && s.wp[w] == WTry
    ensures forall r: nat :: ReaderCanLeave(s, r) <==> r < |s.rp| && s.rp[r] == RActive
    ensures forall w: nat :: WriterCanLeave(s, w) <==> w < |s.wp| && s.wp[w] == WActive
  {
    forall r: nat | r < |s.rp| && s.rp[r] == RActive
      ensures ReaderCanLeave(s, r)
    {
      AfterStopRead(s, r);
      var woken := DrainExists(RunFrom(s, StopReadCalls(s, r)));
      assert CanAct(s, StopRead(r, woken));
    }
    forall w: nat | w < |s.wp| && s.wp[w] == WActive
      ensures WriterCanLeave(s, w)
    {
      AfterStopWrite(s, w);
      var woken := DrainExists(RunFrom(s, StopWriteCalls(w)));
      assert CanAct(s, StopWrite(w, woken));
    }
  }

  lemma NobodyIn(s: State)
    requires Counted(s) && Settled(s)
    requires forall r :: 0 <= r < |s.rp| ==> s.rp[r] != RActive
    requires forall w :: 0 <= w < |s.wp| ==> s.wp[w] != WActive
    ensures s.actR == 0 && s.actW == 0
  {
    CountUniform(s.rp, false, ReadsAt);
    CountUniform(s.wp, false, WritesAt);
  }

  // ---------- who enters and leaves in an act, and in a run

  function WritersAmong(woken: seq<Proc>): nat {
    if woken == [] then 0 else (if woken[0].W? then 1 else 0) + WritersAmong(woken[1..])
  }

  ghost function WriterEntries(s: State, a: Act): nat {
    if !CanAct(s, a) then 0
    else match a
      case StartRead(_) => 0
      case StartWrite(w) => if Do(s, a).wp[w] == WActive then 1 else 0
      case StopRead(_, woken) => WritersAmong(woken)
      case StopWrite(_, woken) => WritersAmong(woken)
  }

  ghost function ReaderEntries(s: State, a: Act): int {
    if !CanAct(s, a) then 0
    else match a
      case StartRead(r) => if Do(s, a).rp[r] == RActive then 1 else 0
      case StartWrite(_) => 0
      case StopRead(_, woken) => |woken| - WritersAmong(woken)
      case StopWrite(_, woken) => |woken| - WritersAmong(woken)
  }

  ghost function ReaderExits(s: State, a: Act): nat {
    if CanAct(s, a) && a.StopRead? then 1 else 0
  }

  ghost function WriterExits(s: State, a: Act): nat {
    if CanAct(s, a) && a.StopWrite? then 1 else 0
  }

  ghost function Exits(s: State, a: Act): nat {
    ReaderExits(s, a) + WriterExits(s, a)
  }

  ghost function AllWriterEntries(s: State, acts: seq<Act>): nat
    decreases acts
  {
    if acts == [] then 0 else WriterEntries(s, acts[0]) + AllWriterEntries(Do(s, acts[0]), acts[1..])
  }

  ghost function AllReaderEntries(s: State, acts: seq<Act>): int
    decreases acts
  {
    if acts == [] then 0 else ReaderEntries(s, acts[0]) + AllReaderEntries(Do(s, acts[0]), acts[1..])
  }

  ghost function AllExits(s: State, acts: seq<Act>): nat
    decreases acts
  {
    if acts == [] then 0 else Exits(s, acts[0]) + AllExits(Do(s, acts[0]), acts[1..])
  }

  lemma OneWriterAmong(woken: seq<Proc>)
    requires |woken| == 1 && woken[0].W?
    ensures WritersAmong(woken) == 1
  {
    assert woken[1..] == [];
  }

  lemma {:induction false} NoWriterAmong(woken: seq<Proc>)
    requires forall q :: q in woken ==> q.R?
    ensures WritersAmong(woken) == 0
  {
    if woken != [] {
      assert woken[0] in woken;
      NoWriterAmong(woken[1..]);
    }
  }

  /** Entries and exits are what changes the numbers of those who are in. */
  lemma BalanceOfAct(s: State, a: Act)
    requires Tidy(s)
    ensures Do(s, a).actR == s.actR + ReaderEntries(s, a) - ReaderExits(s, a)
    ensures Do(s, a).actW == s.actW + WriterEntries(s, a) - WriterExits(s, a)
  {
    if CanAct(s, a) {
      match a
      case StartRead(r) => StartReadOutcome(s, r);
      case StartWrite(w) => StartWriteOutcome(s, w);
      case StopRead(r, woken) =>
        StopReadOutcome(s, r, woken);
        if woken != [] {
          OneWriterAmong(woken);
        }
      case StopWrite(w, woken) =>
        AfterStopWrite(s, w);
        StopWriteOutcome(s, w, woken);
        if s.waiR > 0 {
          NoWriterAmong(woken);
        } else if s.waiW > 0 {
          OneWriterAmong(woken);
        }
    }
  }

  ghost function AllReaderExits(s: State, acts: seq<Act>): nat
    decreases acts
  {
    if acts == [] then 0 else ReaderExits(s, acts[0]) + AllReaderExits(Do(s, acts[0]), acts[1..])
  }

  /** The same over a run, so the counts of entries and exits are those of the run. */
  lemma {:induction false} BalanceOfRun(s: State, acts: seq<Act>)
    requires Tidy(s)
    ensures DoAll(s, acts).actR == s.actR + AllReaderEntries(s, acts) - AllReaderExits(s, acts)
    ensures DoAll(s, acts).actW ==
            s.actW + AllWriterEntries(s, acts) - (AllExits(s, acts) - AllReaderExits(s, acts))
    decreases acts
  {
    if acts != [] {
      BalanceOfAct(s, acts[0]);
      DoTidy(s, acts[0]);
      BalanceOfRun(Do(s, acts[0]), acts[1..]);
    }
  }

  /** A run of one act more. */
  lemma {:induction false} DoAllSnoc(s: State, acts: seq<Act>, a: Act)
    ensures DoAll(s, acts + [a]) == Do(DoAll(s, acts), a)
    decreases acts
  {
    if acts == [] {
      assert DoAll(s, [a]) == DoAll(Do(s, a), []);
      assert acts + [a] == [a];
    } else {
      assert (acts + [a])[1..] == acts[1..] + [a];
      DoAllSnoc(Do(s, acts[0]), acts[1..], a);
    }
  }

  // ---------- bounded overtaking

  /** An act that leaves reader r waiting lets no reader in; a reader may leave, and if it was
      the last one, one writer follows. */
  lemma WaitingStep(s: State, a: Act, r: nat)
    requires Tidy(s) && r < |s.rp| && s.rp[r] == RBlocked && Do(s, a).rp[r] == RBlocked
    ensures var t := Do(s, a);
            && ReaderEntries(s, a) == 0
            && t.actW == s.actW + WriterEntries(s, a)
            && t.actR == s.actR - Exits(s, a)
  {
    MoveReader(s.rp, r, RTry);
    if CanAct(s, a) {
      match a
      case StartRead(x) => StartReadEffect(s, x);
      case StartWrite(w) => StartWriteEffect(s, w);
      case StopRead(x, woken) =>
        StopReadOutcome(s, x, woken);
        if woken != [] {
          OneWriterAmong(woken);
        }
      case StopWrite(w, woken) =>
        StopWriteOutcome(s, w, woken);
    }
  }

  lemma AdmittedByWriter(s: State, w: nat, woken: seq<Proc>)
    requires Tidy(s) && CanAct(s, StopWrite(w, woken)) && s.waiR > 0
    ensures var a := StopWrite(w, woken);
            && WriterEntries(s, a) == 0 && ReaderEntries(s, a) == s.waiR
            && forall x :: 0 <= x < |s.rp| && s.rp[x] == RBlocked ==> Do(s, a).rp[x] == RActive
  {
    StopWriteOutcome(s, w, woken);
    NoWriterAmong(woken);
  }

  /** A waiting reader is only ever let in by a writer that leaves, together with every other
      waiting reader and with no writer. */
  lemma Admission(s: State, a: Act, r: nat)
    requires Tidy(s) && r < |s.rp| && s.rp[r] == RBlocked && Do(s, a).rp[r] != RBlocked
    ensures a.StopWrite? && WriterEntries(s, a) == 0 && ReaderEntries(s, a) == s.waiR
    ensures forall x :: 0 <= x < |s.rp| && s.rp[x] == RBlocked ==> Do(s, a).rp[x] == RActive
  {
    MoveReader(s.rp, r, RTry);
    match a
    case StartRead(x) => StartReadEffect(s, x);
    case StartWrite(w) => StartWriteEffect(s, w);
    case StopRead(x, woken) => StopReadOutcome(s, x, woken);
    case StopWrite(w, woken) => AdmittedByWriter(s, w, woken);
  }

  ghost predicate WaitsThroughout(s: State, acts: seq<Act>, r: nat)
    requires r < |s.rp|
    decreases acts
  {
    s.rp[r] == RBlocked && (acts == [] || WaitsThroughout(Do(s, acts[0]), acts[1..], r))
  }

  /** That is: it sleeps after every act of the run. */
  lemma {:induction false} WaitsAtEveryPoint(s: State, acts: seq<Act>, r: nat)
    requires r < |s.rp|
    ensures WaitsThroughout(s, acts, r) <==>
              forall k :: 0 <= k <= |acts| ==> DoAll(s, acts[..k]).rp[r] == RBlocked
    decreases acts
  {
    assert acts[..0] == [];
    if acts == [] {
      assert DoAll(s, acts[..0]) == s;
    } else {
      var t, rest := Do(s, acts[0]), acts[1..];
      WaitsAtEveryPoint(t, rest, r);
      forall k | 0 <= k <= |rest|
        ensures DoAll(t, rest[..k]) == DoAll(s, acts[..k + 1])
      {
        assert acts[..k + 1][1..] == rest[..k];
      }
      if WaitsThroughout(s, acts, r) {
        forall k | 0 <= k <= |acts|
          ensures DoAll(s, acts[..k]).rp[r] == RBlocked
        {
          if k > 0 {
            assert DoAll(t, rest[..k - 1]) == DoAll(s, acts[..k]);
          }
        }
      } else if s.rp[r] == RBlocked {
        var k :| 0 <= k <= |rest| && DoAll(t, rest[..k]).rp[r] != RBlocked;
        assert DoAll(s, acts[..k + 1]).rp[r] != RBlocked;
      } else {
        assert DoAll(s, acts[..0]).rp[r] != RBlocked;
      }
    }
  }

  /** While reader r waits: at most one writer enters, none if a writer is in already; no other
      reader enters; and no more processes leave than there were readers in. */
  lemma {:induction false} Waiting(s: State, acts: seq<Act>, r: nat)
    requires Tidy(s) && r < |s.rp| && WaitsThroughout(s, acts, r)
    ensures AllWriterEntries(s, acts) <= 1 - s.actW
    ensures AllReaderEntries(s, acts) == 0
    ensures AllExits(s, acts) <= s.actR
    decreases acts
  {
    if acts != [] {
      WaitingStep(s, acts[0], r);
      DoTidy(s, acts[0]);
      Waiting(Do(s, acts[0]), acts[1..], r);
    }
  }

  /** From when a reader waits to the act in which it enters, at most one writer enters, and
      none if a writer was in; and it has entered once more processes have left than readers were in. */
  lemma {:induction false} BoundedOvertaking(s: State, acts: seq<Act>, last: Act, r: nat)
    requires Tidy(s) && r < |s.rp| && WaitsThroughout(s, acts, r)
    ensures AllWriterEntries(s, acts + [last]) <= 1 - s.actW
    ensures AllExits(s, acts + [last]) > s.actR ==> DoAll(s, acts + [last]).rp[r] == RActive
    decreases acts
  {
    if acts == [] {
      var t := Do(s, last);
      assert acts + [last] == [last] && DoAll(t, []) == t && AllExits(t, []) == AllWriterEntries(t, []) == 0;
      if t.rp[r] == RBlocked {
        DoTidy(s, last);
        WaitingStep(s, last, r);
      } else {
        Admission(s, last, r);
      }
    } else {
      assert (acts + [last])[1..] == acts[1..] + [last];
      WaitingStep(s, acts[0], r);
      DoTidy(s, acts[0]);
      BoundedOvertaking(Do(s, acts[0]), acts[1..], last, r);
    }
  }

  /** The same counted from a failed start_read in any run of the program: at most one writer
      passes the reader before it is in. */
  lemma OvertakenAtMostOnce(readers: nat, writers: nat, before: seq<Act>, r: nat, during: seq<Act>, last: Act)
    requires r < readers
    requires var s := DoAll(Init(readers, writers), before);
             CanAct(s, StartRead(r)) && WaitsThroughout(Do(s, StartRead(r)), during, r)
    ensures var s := DoAll(Init(readers, writers), before);
            AllWriterEntries(Do(s, StartRead(r)), during + [last]) <= 1
  {
    var s := DoAll(Init(readers, writers), before);
    InitTidy(readers, writers);
    RunTidy(Init(readers, writers), before);
    DoTidy(s, StartRead(r));
    BoundedOvertaking(Do(s, StartRead(r)), during, last, r);
  }

  // ---------- a waiting writer keeps readers out

  lemma PriorityStep(s: State, a: Act)
    requires Tidy(s) && s.waiW > 0 && s.actW == 0 && WriterEntries(s, a) == 0
    ensures var t := Do(s, a);
            ReaderEntries(s, a) == 0 && t.waiW > 0 && t.actW == 0 && t.actR == s.actR - Exits(s, a)
  {
    if CanAct(s, a) {
      match a
      case StartRead(x) => StartReadEffect(s, x);
      case StartWrite(w) => StartWriteEffect(s, w);
      case StopRead(x, woken) =>
        StopReadOutcome(s, x, woken);
        if woken != [] {
          OneWriterAmong(woken);
        }
      case StopWrite(w, woken) => MoveWriter(s.wp, w, WTry);
    }
  }

  /** Once a writer waits behind active readers, no reader enters before a writer does. */
  lemma {:induction false} WriterPriority(s: State, acts: seq<Act>)
    requires Tidy(s) && s.waiW > 0 && s.actW == 0 && AllWriterEntries(s, acts) == 0
    ensures AllReaderEntries(s, acts) == 0
    ensures DoAll(s, acts).actR == s.actR - AllExits(s, acts) && DoAll(s, acts).waiW > 0
    decreases acts
  {
    if acts != [] {
      PriorityStep(s, acts[0]);
      DoTidy(s, acts[0]);
      WriterPriority(Do(s, acts[0]), acts[1..]);
    }
  }
}
