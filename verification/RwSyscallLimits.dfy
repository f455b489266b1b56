/**
 Exactly which populations of readers and writers the calls keep apart, and exactly which
 can block for ever, when every call may be interleaved with every other.
 */
module RwSyscallLimits {
  import opened RwSemaphores
  import opened RwSyscallProofs
  import opened RwCalls
  import opened Sequences

  predicate Exclusive(s: State) {
    !(s.actW > 0 && s.actR > 0)
  }

  predicate Queueing(pc: WriterPc) {
    pc == WJoin || pc == WClear || pc == WBlocked
  }

  // ---------- one run

  /** The writer wake-up vector tests ACT_W and CAN_W but not ACT_R. */
  predicate WakesAmongReaders(s: State, q: Proc) {
    q.W? && s.Enabled(q) && s.wp[q.w] == WBlocked && s.actR > 0
  }

  lemma ExclusiveStep(s: State, q: Proc)
    requires Counted(s) && Exclusive(s)
    ensures Exclusive(Step(s, q)) <==> !WakesAmongReaders(s, q)
  {
    if q.W? && s.Has(q) {
      MoveWriter(s.wp, q.w, WTry);
    }
  }

  /** A run keeps readers and writers apart exactly when none of its writer wake-ups happens
      while ACT_R is positive: the test the wake-up vector lacks. */
  lemma {:induction false} ExclusionOfARun(readers: nat, writers: nat, sched: seq<Proc>)
    ensures (forall k :: 0 <= k <= |sched| ==> Exclusive(After(readers, writers, sched[..k])))
       <==> (forall k :: 0 <= k < |sched| ==>
               !WakesAmongReaders(After(readers, writers, sched[..k]), sched[k]))
  {
    assert forall k :: 0 <= k < |sched| ==> sched[..k + 1][..k] == sched[..k];
    forall k | 0 <= k < |sched|
      ensures After(readers, writers, sched[..k + 1]) == Step(After(readers, writers, sched[..k]), sched[k])
      ensures Counted(After(readers, writers, sched[..k]))
    {
      Counting(readers, writers, sched[..k]);
    }
    if forall k :: 0 <= k <= |sched| ==> Exclusive(After(readers, writers, sched[..k])) {
      forall k | 0 <= k < |sched|
        ensures !WakesAmongReaders(After(readers, writers, sched[..k]), sched[k])
      {
        ExclusiveStep(After(readers, writers, sched[..k]), sched[k]);
        assert Exclusive(After(readers, writers, sched[..k + 1]));
      }
    } else {
      var k :| 0 <= k <= |sched| && !Exclusive(After(readers, writers, sched[..k]));
      var j := FirstOverlap(readers, writers, sched, k);
      ExclusiveStep(After(readers, writers, sched[..j]), sched[j]);
    }
  }

  lemma {:induction false} FirstOverlap(readers: nat, writers: nat, sched: seq<Proc>, k: nat) returns (j: nat)
    requires k <= |sched| && !Exclusive(After(readers, writers, sched[..k]))
    ensures j < k && Exclusive(After(readers, writers, sched[..j]))
    ensures !Exclusive(After(readers, writers, sched[..j + 1]))
    decreases k
  {
    assert k > 0 by {
      assert sched[..0] == [];
    }
    if Exclusive(After(readers, writers, sched[..k - 1])) {
      j := k - 1;
    } else {
      j := FirstOverlap(readers, writers, sched, k - 1);
    }
  }

  // ---------- all runs of a population

  /** An orderly schedule that leads from one state to another. */
  ghost predicate Leads(s: State, sched: seq<Proc>, t: State) {
    RunFrom(s, sched) == t && Orderly(s, sched)
  }

  /** One more call at its end. */
  lemma Go(s: State, sched: seq<Proc>, t: State, q: Proc) returns (longer: seq<Proc>)
    requires Leads(s, sched, t) && MayGo(t, q)
    ensures Leads(s, longer, Step(t, q))
  {
    longer := sched + [q];
    RunOne(t, q);
    RunAppend(s, sched, [q]);
    assert Orderly(t, [q]) by {
      assert [q][1..] == [];
    }
    OrderlyAppend(s, sched, [q]);
  }

  /** No wake-up vector is possible, whoever stands at one. */
  predicate Shut(s: State) {
    s.actW != 0 || ((s.canR <= 0 || s.waiR <= 0) && (s.canW <= 0 || s.waiW <= 0))
  }

  /** Two and three calls of one process while nobody can be woken. */
  lemma GoTwice(s: State, sched: seq<Proc>, t: State, q: Proc) returns (longer: seq<Proc>)
    requires Leads(s, sched, t) && Shut(t) && Shut(Step(t, q))
    ensures Leads(s, longer, Step(Step(t, q), q))
  {
    longer := Go(s, sched, t, q);
    longer := Go(s, longer, Step(t, q), q);
  }

  lemma GoThrice(s: State, sched: seq<Proc>, t: State, q: Proc) returns (longer: seq<Proc>)
    requires Leads(s, sched, t) && Shut(t) && Shut(Step(t, q)) && Shut(Step(Step(t, q), q))
    ensures Leads(s, longer, Step(Step(Step(t, q), q), q))
  {
    longer := GoTwice(s, sched, t, q);
    longer := Go(s, longer, Step(Step(t, q), q), q);
  }

  /** Writer 0 has failed its try behind reader 0 and is about to announce itself. */
  lemma ReachFailedTry(readers: nat, writers: nat) returns (sched: seq<Proc>)
    requires readers >= 1 && writers >= 1
    ensures var i := Init(readers, writers);
            Leads(i, sched, i.(actR := 1, rp := i.rp[0 := RActive], wp := i.wp[0 := WJoin]))
  {
    var i := Init(readers, writers);
    sched := Go(i, [], i, R(0));
    sched := Go(i, sched, Step(i, R(0)), W(0));
  }

  /** Reader 0 has seen ACT_R at zero and is about to open CAN_W; reader 1 has come in since;
      writer 0 is still about to announce itself. */
  lemma ReachLateOpening(readers: nat, writers: nat) returns (sched: seq<Proc>, s: State)
    requires readers >= 2 && writers >= 1
    ensures Leads(Init(readers, writers), sched, s) && |s.rp| == readers && |s.wp| == writers
    ensures s.rp[0] == ROpen && s.rp[1] == RActive && s.wp[0] == WJoin
    ensures s.actW == 0 && s.actR == 1 && s.waiW == 0 && s.waiR == 0 && s.canW == 0
  {
    var i := Init(readers, writers);
    sched := ReachFailedTry(readers, writers);
    s := RunFrom(i, sched);
    sched := GoTwice(i, sched, s, R(0));
    s := RunFrom(i, sched);
    sched := Go(i, sched, s, R(1));
    s := Step(s, R(1));
  }

  /** Two readers and a writer: a reader slips in between the last reader's GETVAL and SETVAL, and
      reads while the writer writes. No process passes a sleeper whose vector is possible. */
  lemma OverlapOfTwoReaders(readers: nat, writers: nat) returns (sched: seq<Proc>)
    requires readers >= 2 && writers >= 1
    ensures Orderly(Init(readers, writers), sched)
    ensures var s := RunFrom(Init(readers, writers), sched); s.rp[1] == RActive && s.wp[0] == WActive
  {
    var i, s := Init(readers, writers), Init(readers, writers);
    sched, s := ReachLateOpening(readers, writers);
    sched := GoTwice(i, sched, s, W(0));
    s := RunFrom(i, sched);
    sched := Go(i, sched, s, R(0));
    s := Step(s, R(0));
    assert Wakeable(s, W(0));
    sched := Go(i, sched, s, W(0));
  }

  /** Reader 0 has come and gone, seen ACT_R at zero, and is about to open CAN_W; writer 0 has come
      in since. */
  lemma ReachOpening(readers: nat, writers: nat) returns (sched: seq<Proc>)
    requires readers >= 1 && writers >= 1
    ensures var i := Init(readers, writers);
            Leads(i, sched, i.(actW := 1, rp := i.rp[0 := ROpen], wp := i.wp[0 := WActive]))
  {
    var i := Init(readers, writers);
    sched := GoThrice(i, [], i, R(0));
    var s := RunFrom(i, sched);
    assert s == i.(rp := i.rp[0 := ROpen]);
    sched := Go(i, sched, s, W(0));
  }

  /** Writer 1 has queued up behind writer 0. */
  lemma ReachWriterQueued(readers: nat, writers: nat) returns (sched: seq<Proc>, s: State)
    requires readers >= 1 && writers >= 2
    ensures Leads(Init(readers, writers), sched, s) && |s.rp| == readers && |s.wp| == writers
    ensures s.rp[0] == ROpen && s.wp[0] == WActive && s.wp[1] == WBlocked
    ensures s.actW == 1 && s.actR == 0 && s.waiW == 1 && s.waiR == 0
  {
    var i := Init(readers, writers);
    sched := ReachOpening(readers, writers);
    s := RunFrom(i, sched);
    sched := GoThrice(i, sched, s, W(1));
    s := RunFrom(i, sched);
  }

  /** Reader 0 has opened CAN_W, come back and queued up as well. */
  lemma ReachBothQueued(readers: nat, writers: nat) returns (sched: seq<Proc>, s: State)
    requires readers >= 1 && writers >= 2
    ensures Leads(Init(readers, writers), sched, s) && |s.rp| == readers && |s.wp| == writers
    ensures s.rp[0] == RBlocked && s.wp[0] == WActive && s.wp[1] == WBlocked
    ensures s.actW == 1 && s.actR == 0 && s.waiW == 1 && s.waiR == 1 && s.canW == 1
  {
    var i := Init(readers, writers);
    sched, s := ReachWriterQueued(readers, writers);
    sched := Go(i, sched, s, R(0));
    s := Step(s, R(0));
    sched := GoThrice(i, sched, s, R(0));
    s := RunFrom(i, sched);
  }

  /** Writer 0 has opened CAN_R for the reader and left: both doors are open. */
  lemma ReachBothOpen(readers: nat, writers: nat) returns (sched: seq<Proc>, s: State)
    requires readers >= 1 && writers >= 2
    ensures Leads(Init(readers, writers), sched, s) && |s.rp| == readers && |s.wp| == writers
    ensures s.rp[0] == RBlocked && s.wp[1] == WBlocked && s.actW == 0 && s.actR == 0
    ensures s.waiW == 1 && s.waiR == 1 && s.canW == 1 && s.canR == 1
  {
    var i := Init(readers, writers);
    sched, s := ReachBothQueued(readers, writers);
    sched := GoThrice(i, sched, s, W(0));
    s := RunFrom(i, sched);
  }

  /** One reader and two writers: the reader's late SETVAL leaves CAN_W open for the sleeping
      writer while the leaving writer opens CAN_R, and reader 0 reads while writer 1 writes. No
      process passes a sleeper whose vector is possible, and the two sleepers may be served in
      the order of their semops: writer 1 can reach its own after reader 0. */
  lemma OverlapOfTwoWriters(readers: nat, writers: nat) returns (sched: seq<Proc>)
    requires readers >= 1 && writers >= 2
    ensures Orderly(Init(readers, writers), sched)
    ensures var s := RunFrom(Init(readers, writers), sched); s.rp[0] == RActive && s.wp[1] == WActive
  {
    var i, s := Init(readers, writers), Init(readers, writers);
    sched, s := ReachBothOpen(readers, writers);
    assert Wakeable(s, R(0));
    sched := Go(i, sched, s, R(0));
    s := Step(s, R(0));
    assert Wakeable(s, W(1));
    sched := Go(i, sched, s, W(1));
    s := Step(s, W(1));
    assert Shut(s);
    sched := Go(i, sched, s, R(0));
  }

  /** What keeps one reader and one writer apart. */
  predicate PairKept(s: State) {
    && |s.rp| == 1 && |s.wp| == 1
    && s.actR == One(ReadsAt(s.rp[0])) && s.waiR == One(WaitsToRead(s.rp[0]))
    && s.actW == One(WritesAt(s.wp[0])) && s.waiW == One(WaitsToWrite(s.wp[0]))
    && 0 <= s.canW <= 1 && 0 <= s.canR <= 1
    && Exclusive(s)
    && (s.wp[0] == WBlocked && s.canW == 1 ==> !ReadsAt(s.rp[0]))
    && (s.rp[0] == RBlocked && Queueing(s.wp[0]) ==> s.canR == 0)
  }

  lemma PairReaderStep(s: State)
    requires PairKept(s) && s.Enabled(R(0))
    ensures PairKept(ReaderStep(s, 0))
  {
  }

  lemma PairWriterStep(s: State)
    requires PairKept(s) && s.Enabled(W(0))
    ensures PairKept(WriterStep(s, 0))
  {
  }

  lemma PairStep(s: State, q: Proc)
    requires PairKept(s)
    ensures PairKept(Step(s, q))
  {
    if s.Enabled(q) {
      match q
      case R(r) => PairReaderStep(s);
      case W(w) => PairWriterStep(s);
    }
  }

  lemma {:induction false} PairRuns(sched: seq<Proc>)
    ensures PairKept(After(1, 1, sched))
  {
    if sched != [] {
      PairRuns(sched[..|sched| - 1]);
      PairStep(After(1, 1, sched[..|sched| - 1]), sched[|sched| - 1]);
    }
  }

  /** A reader and a writer are at the shared letter at the same time. */
  predicate Together(s: State) {
    exists r, w :: 0 <= r < |s.rp| && 0 <= w < |s.wp| && s.rp[r] == RActive && s.wp[w] == WActive
  }

  lemma TogetherOverlaps(s: State)
    requires Counted(s) && Exclusive(s)
    ensures !Together(s)
  {
    if Together(s) {
      var r, w :| 0 <= r < |s.rp| && 0 <= w < |s.wp| && s.rp[r] == RActive && s.wp[w] == WActive;
      ReadingCounted(s, r);
      WritingCounted(s, w);
    }
  }

  /** One kind is absent, or there are just one reader and one writer. */
  predicate NoOverlap(readers: nat, writers: nat) {
    readers == 0 || writers == 0 || (readers == 1 && writers == 1)
  }

  lemma KeptApart(readers: nat, writers: nat, sched: seq<Proc>)
    requires NoOverlap(readers, writers)
    ensures Exclusive(After(readers, writers, sched)) && !Together(After(readers, writers, sched))
  {
    Counting(readers, writers, sched);
    if readers == 1 && writers == 1 {
      PairRuns(sched);
    }
    TogetherOverlaps(After(readers, writers, sched));
  }

  lemma NotKeptApart(readers: nat, writers: nat) returns (sched: seq<Proc>)
    requires !NoOverlap(readers, writers)
    ensures Orderly(Init(readers, writers), sched)
    ensures Together(After(readers, writers, sched)) && !Exclusive(After(readers, writers, sched))
  {
    if readers >= 2 {
      sched := OverlapOfTwoReaders(readers, writers);
    } else {
      sched := OverlapOfTwoWriters(readers, writers);
    }
    AfterIsRun(readers, writers, sched);
    Counting(readers, writers, sched);
    if Exclusive(After(readers, writers, sched)) {
      TogetherOverlaps(After(readers, writers, sched));
    }
  }

  /** Every run keeps ACT_R and ACT_W from being positive together, and every run keeps readers and
      writers from being at the shared letter together, exactly for those populations; and so do
      the orderly runs alone. The program runs five readers and two writers. */
  lemma ExclusionExactly(readers: nat, writers: nat)
    ensures (forall sched :: Exclusive(After(readers, writers, sched))) <==> NoOverlap(readers, writers)
    ensures (forall sched :: !Together(After(readers, writers, sched))) <==> NoOverlap(readers, writers)
    ensures (forall sched :: Orderly(Init(readers, writers), sched) ==> !Together(After(readers, writers, sched)))
       <==> NoOverlap(readers, writers)
  {
    if NoOverlap(readers, writers) {
      forall sched
        ensures Exclusive(After(readers, writers, sched)) && !Together(After(readers, writers, sched))
      {
        KeptApart(readers, writers, sched);
      }
    } else {
      var sched := NotKeptApart(readers, writers);
      assert !Exclusive(After(readers, writers, sched));
    }
  }

  // ---------- deadlock

  ghost predicate Deadlocked(s: State) {
    forall q :: s.Has(q) ==> !s.Enabled(q)
  }

  predicate AllAsleep(s: State) {
    && (forall r :: 0 <= r < |s.rp| ==> s.rp[r] == RBlocked)
    && (forall w :: 0 <= w < |s.wp| ==> s.wp[w] == WBlocked)
    && s.canR == 0 && s.canW == 0
  }

  lemma AllBlockedCounts(s: State)
    requires Counted(s)
    requires forall r :: 0 <= r < |s.rp| ==> s.rp[r] == RBlocked
    requires forall w :: 0 <= w < |s.wp| ==> s.wp[w] == WBlocked
    ensures s.actW == 0 && s.waiR == |s.rp| && s.waiW == |s.wp|
  {
    CountUniform(s.rp, true, WaitsToRead);
    CountUniform(s.wp, true, WaitsToWrite);
    CountUniform(s.wp, false, WritesAt);
  }

  lemma SleepersAreBlocked(s: State)
    requires Counted(s) && Deadlocked(s)
    ensures forall r :: 0 <= r < |s.rp| ==> s.rp[r] == RBlocked
    ensures forall w :: 0 <= w < |s.wp| ==> s.wp[w] == WBlocked
  {
    forall r | 0 <= r < |s.rp|
      ensures s.rp[r] == RBlocked
    {
      OnlyWakeUpsBlock(s, R(r));
    }
    forall w | 0 <= w < |s.wp|
      ensures s.wp[w] == WBlocked
    {
      OnlyWakeUpsBlock(s, W(w));
    }
  }

  lemma DeadlockMeansAsleep(s: State)
    requires Counted(s) && Deadlocked(s) && |s.rp| >= 1 && |s.wp| >= 1
    ensures AllAsleep(s)
  {
    SleepersAreBlocked(s);
    AllBlockedCounts(s);
    assert !s.Enabled(R(0)) && !s.Enabled(W(0));
  }

  lemma AsleepMeansDeadlock(s: State)
    requires AllAsleep(s)
    ensures Deadlocked(s)
  {
  }

  /** In a reachable deadlock everybody sleeps in a wake-up vector and nobody may be woken. */
  lemma DeadlockShape(readers: nat, writers: nat, sched: seq<Proc>)
    requires readers >= 1 && writers >= 1
    ensures Deadlocked(After(readers, writers, sched)) <==> AllAsleep(After(readers, writers, sched))
  {
    var s := After(readers, writers, sched);
    Counting(readers, writers, sched);
    if Deadlocked(s) {
      DeadlockMeansAsleep(s);
    } else if AllAsleep(s) {
      AsleepMeansDeadlock(s);
    }
  }

  /** The first j writers have failed their try behind reader 0 and announced themselves. */
  function Gathered(readers: nat, writers: nat, j: nat): State {
    State(0, 1, j, 0, 0, 0, seq(readers, i => if i == 0 then RActive else RTry),
          seq(writers, i => if i < j then WClear else WTry))
  }

  /** Reader 0 has opened CAN_W, and the first j writers have closed it again and sleep. */
  function Slept(readers: nat, writers: nat, j: nat): State {
    State(0, 0, writers, 0, if j == 0 then 1 else 0, 0, seq(readers, _ => RTry),
          seq(writers, i => if i < j then WBlocked else WClear))
  }

  /** All writers sleep, and the first j readers have queued up behind them. */
  function Queued(readers: nat, writers: nat, j: nat): State {
    State(0, 0, writers, j, 0, 0, seq(readers, i => if i < j then RBlocked else RTry),
          seq(writers, _ => WBlocked))
  }

  lemma {:induction false} Gather(readers: nat, writers: nat, j: nat) returns (sched: seq<Proc>)
    requires readers >= 1 && j <= writers
    ensures Leads(Init(readers, writers), sched, Gathered(readers, writers, j))
  {
    var i := Init(readers, writers);
    if j == 0 {
      sched := Go(i, [], i, R(0));
      assert Step(i, R(0)) == Gathered(readers, writers, 0);
    } else {
      var before := Gather(readers, writers, j - 1);
      var s := Gathered(readers, writers, j - 1);
      sched := GoTwice(i, before, s, W(j - 1));
      assert Step(Step(s, W(j - 1)), W(j - 1)) == Gathered(readers, writers, j);
    }
  }

  lemma {:induction false} Sleep(readers: nat, writers: nat, j: nat) returns (sched: seq<Proc>)
    requires readers >= 1 && 1 <= writers && j <= writers
    ensures Leads(Init(readers, writers), sched, Slept(readers, writers, j))
  {
    var i := Init(readers, writers);
    if j == 0 {
      var before := Gather(readers, writers, writers);
      var s := Gathered(readers, writers, writers);
      sched := GoThrice(i, before, s, R(0));
      assert Step(Step(Step(s, R(0)), R(0)), R(0)) == Slept(readers, writers, 0);
    } else {
      var before := Sleep(readers, writers, j - 1);
      var s := Slept(readers, writers, j - 1);
      sched := Go(i, before, s, W(j - 1));
      assert Step(s, W(j - 1)) == Slept(readers, writers, j);
    }
  }

  lemma {:induction false} QueueUp(readers: nat, writers: nat, j: nat) returns (sched: seq<Proc>)
    requires readers >= 1 && 1 <= writers && j <= readers
    ensures Leads(Init(readers, writers), sched, Queued(readers, writers, j))
  {
    if j == 0 {
      sched := Sleep(readers, writers, writers);
      assert Slept(readers, writers, writers) == Queued(readers, writers, 0);
    } else {
      var before := QueueUp(readers, writers, j - 1);
      var s, q := Queued(readers, writers, j - 1), R(j - 1);
      sched := GoThrice(Init(readers, writers), before, s, q);
      assert Step(Step(Step(s, q), q), q) == Queued(readers, writers, j);
    }
  }

  /** Lost wake-ups: with at least one process of each kind everybody can end up asleep, though no
      process passes a sleeper whose vector is possible. */
  lemma EverybodySleeps(readers: nat, writers: nat) returns (sched: seq<Proc>)
    requires readers >= 1 && writers >= 1
    ensures Orderly(Init(readers, writers), sched) && Deadlocked(After(readers, writers, sched))
  {
    sched := QueueUp(readers, writers, readers);
    AfterIsRun(readers, writers, sched);
  }

  lemma {:induction false} ReadersAloneNeverWait(readers: nat, sched: seq<Proc>)
    ensures var s := After(readers, 0, sched);
            s.waiW == 0 && s.actW == 0 &&
            forall r :: 0 <= r < readers ==> s.rp[r] in {RTry, RActive, RGetActive, ROpen}
  {
    if sched != [] {
      ReadersAloneNeverWait(readers, sched[..|sched| - 1]);
    }
  }

  /** A writer starts queueing only behind another one that is in its section. */
  lemma OneStaysAwake(s: State, q: Proc, w: nat) returns (v: nat)
    requires Counted(s) && s.rp == [] && w < |s.wp| && !Queueing(s.wp[w])
    ensures v < |s.wp| && !Queueing(Step(s, q).wp[v])
  {
    v := w;
    if Queueing(Step(s, q).wp[w]) {
      v := SomeWriter(s);
    }
  }

  /** Among writers only, the one that was in last is not queueing. */
  lemma {:induction false} WritersAloneKeepOneAwake(writers: nat, sched: seq<Proc>) returns (w: nat)
    requires writers >= 1
    ensures w < writers && !Queueing(After(0, writers, sched).wp[w])
  {
    if sched == [] {
      w := 0;
    } else {
      var front := sched[..|sched| - 1];
      Counting(0, writers, front);
      var v := WritersAloneKeepOneAwake(writers, front);
      w := OneStaysAwake(After(0, writers, front), sched[|sched| - 1], v);
    }
  }

  lemma SomeWriter(s: State) returns (w: nat)
    requires Counted(s) && s.actW != 0
    ensures w < |s.wp| && s.Writing(w)
  {
    w := CountWitness(s.wp, WritesAt);
  }

  ghost predicate CanDeadlock(readers: nat, writers: nat) {
    exists sched :: Deadlocked(After(readers, writers, sched))
  }

  ghost predicate CanDeadlockOrderly(readers: nat, writers: nat) {
    exists sched :: Orderly(Init(readers, writers), sched) && Deadlocked(After(readers, writers, sched))
  }

  /** A deadlock is reachable exactly when both kinds of processes exist, by orderly schedules as
      well as by any. */
  lemma DeadlockExactly(readers: nat, writers: nat)
    requires readers + writers >= 1
    ensures CanDeadlock(readers, writers) <==> readers >= 1 && writers >= 1
    ensures CanDeadlockOrderly(readers, writers) <==> readers >= 1 && writers >= 1
  {
    if readers >= 1 && writers >= 1 {
      var sched := EverybodySleeps(readers, writers);
    } else if writers == 0 {
      forall sched ensures !Deadlocked(After(readers, 0, sched)) {
        var s := After(readers, 0, sched);
        ReadersAloneNeverWait(readers, sched);
        Counting(readers, 0, sched);
        if Deadlocked(s) {
          OnlyWakeUpsBlock(s, R(0));
        }
      }
    } else {
      forall sched ensures !Deadlocked(After(0, writers, sched)) {
        var s := After(0, writers, sched);
        var w := WritersAloneKeepOneAwake(writers, sched);
        Counting(0, writers, sched);
        if Deadlocked(s) {
          OnlyWakeUpsBlock(s, W(w));
        }
      }
    }
  }
}
