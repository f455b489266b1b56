/**
 The readers and writers around a System V semaphore set, one system call per step.

 A semop vector is indivisible, SETVAL and GETVAL are calls of their own, and any number of
 readers and writers are scheduled in any order. A process whose semop cannot proceed stays
 where it is; a failed IPC_NOWAIT vector moves to the call that follows it.
 */
module RwSemaphores {

  /** The next call of a reader: lines 22, 24, 29, 34 and 39 of start_read, then reading until
      line 57, and lines 63 and 70 of stop_read. */
  datatype ReaderPc = RTry | RJoin | RClear | RBlocked | RHandOn | RActive | RGetActive | ROpen

  /** The next call of a writer: lines 90, 92, 97 and 102 of start_write, then writing until
      line 114, and lines 122, 130 and 137 of stop_write. */
  datatype WriterPc = WTry | WJoin | WClear | WBlocked | WActive | WOpenRead | WOpenWrite | WRelease

  /** The regions in which a process is counted by ACT_R, WAI_R, ACT_W and WAI_W. */
  predicate ReadsAt(pc: ReaderPc) {
    pc == RHandOn || pc == RActive
  }

  predicate WaitsToRead(pc: ReaderPc) {
    pc == RClear || pc == RBlocked
  }

  predicate WritesAt(pc: WriterPc) {
    pc == WActive || pc == WOpenRead || pc == WOpenWrite || pc == WRelease
  }

  predicate WaitsToWrite(pc: WriterPc) {
    pc == WClear || pc == WBlocked
  }

  datatype Proc = R(r: nat) | W(w: nat)

  datatype State = State(actW: int, actR: int, waiW: int, waiR: int, canW: int, canR: int,
                         rp: seq<ReaderPc>, wp: seq<WriterPc>)
  {
    predicate Has(q: Proc) {
      match q case R(r) => r < |rp| case W(w) => w < |wp|
    }

    /** The next call of q does not block. */
    predicate Enabled(q: Proc) {
      Has(q) &&
      match q
      case R(r) =>
        (match rp[r]
         case RBlocked => actW == 0 && canR >= 1 && waiR >= 1
         case RActive => actR >= 1
         case _ => true)
      case W(w) =>
        (match wp[w]
         case WBlocked => actW == 0 && canW >= 1 && waiW >= 1
         case WRelease => actW >= 1
         case _ => true)
    }

    predicate Reading(r: nat)
      requires r < |rp|
    {
      ReadsAt(rp[r])
    }

    predicate Writing(w: nat)
      requires w < |wp|
    {
      WritesAt(wp[w])
    }
  }

  /** All six semaphores are set to zero. */
  function Init(readers: nat, writers: nat): State {
    State(0, 0, 0, 0, 0, 0, seq(readers, _ => RTry), seq(writers, _ => WTry))
  }

  function ReaderStep(s: State, r: nat): State
    requires r < |s.rp|
  {
    match s.rp[r]
    case RTry =>
      if s.actW == 0 && s.waiW == 0
      then s.(actR := s.actR + 1, rp := s.rp[r := RActive])
      else s.(rp := s.rp[r := RJoin])
    case RJoin => s.(waiR := s.waiR + 1, rp := s.rp[r := RClear])
    case RClear => s.(canR := 0, rp := s.rp[r := RBlocked])
    case RBlocked =>
      s.(canR := s.canR - 1, actR := s.actR + 1, waiR := s.waiR - 1, rp := s.rp[r := RHandOn])
    case RHandOn => s.(canR := 1, rp := s.rp[r := RActive])
    case RActive => s.(actR := s.actR - 1, rp := s.rp[r := RGetActive])
    case RGetActive => s.(rp := s.rp[r := if s.actR == 0 then ROpen else RTry])
    case ROpen => s.(canW := 1, rp := s.rp[r := RTry])
  }

  function WriterStep(s: State, w: nat): State
    requires w < |s.wp|
  {
    match s.wp[w]
    case WTry =>
      if s.actR == 0 && s.actW == 0
      then s.(actW := s.actW + 1, wp := s.wp[w := WActive])
      else s.(wp := s.wp[w := WJoin])
    case WJoin => s.(waiW := s.waiW + 1, wp := s.wp[w := WClear])
    case WClear => s.(canW := 0, wp := s.wp[w := WBlocked])
    case WBlocked =>
      s.(canW := s.canW - 1, actW := s.actW + 1, waiW := s.waiW - 1, wp := s.wp[w := WActive])
    case WActive => s.(wp := s.wp[w := if s.waiR != 0 then WOpenRead else WOpenWrite])
    case WOpenRead => s.(canR := 1, wp := s.wp[w := WRelease])
    case WOpenWrite => s.(canW := 1, wp := s.wp[w := WRelease])
    case WRelease => s.(actW := s.actW - 1, wp := s.wp[w := WTry])
  }

  /** One scheduling decision. */
  function Step(s: State, q: Proc): (t: State)
    ensures |t.rp| == |s.rp| && |t.wp| == |s.wp|
  {
    if !s.Enabled(q) then s
    else match q case R(r) => ReaderStep(s, r) case W(w) => WriterStep(s, w)
  }

  /** The state after a schedule; every reachable state is After of some schedule. */
  function After(readers: nat, writers: nat, sched: seq<Proc>): (s: State)
    ensures |s.rp| == readers && |s.wp| == writers
  {
    if sched == [] then Init(readers, writers)
    else Step(After(readers, writers, sched[..|sched| - 1]), sched[|sched| - 1])
  }

  /** The same from any state on. */
  function RunFrom(s: State, sched: seq<Proc>): (t: State)
    ensures |t.rp| == |s.rp| && |t.wp| == |s.wp|
    decreases sched
  {
    if sched == [] then s else RunFrom(Step(s, sched[0]), sched[1..])
  }

  /** A process stands at its wake-up vector, and the vector is possible. */
  predicate Wakeable(s: State, q: Proc) {
    s.Enabled(q) && match q case R(r) => s.rp[r] == RBlocked case W(w) => s.wp[w] == WBlocked
  }

  /** The next call may be one of q: if some wake-up vector is possible, it must be one. */
  ghost predicate MayGo(s: State, q: Proc) {
    (exists p :: Wakeable(s, p)) ==> Wakeable(s, q)
  }

  /** A schedule in which possible wake-up vectors come first, as Linux serves the queue of a
      semaphore set. */
  ghost predicate Orderly(s: State, sched: seq<Proc>)
    decreases sched
  {
    sched == [] || (MayGo(s, sched[0]) && Orderly(Step(s, sched[0]), sched[1..]))
  }

  lemma {:induction false} RunAppend(s: State, a: seq<Proc>, b: seq<Proc>)
    ensures RunFrom(s, a + b) == RunFrom(RunFrom(s, a), b)
    decreases a
  {
    if a == [] {
      assert a + b == b;
    } else {
      assert (a + b)[1..] == a[1..] + b;
      RunAppend(Step(s, a[0]), a[1..], b);
    }
  }

  lemma {:induction false} OrderlyAppend(s: State, a: seq<Proc>, b: seq<Proc>)
    requires Orderly(s, a) && Orderly(RunFrom(s, a), b)
    ensures Orderly(s, a + b)
    decreases a
  {
    if a == [] {
      assert a + b == b;
    } else {
      assert (a + b)[1..] == a[1..] + b;
      OrderlyAppend(Step(s, a[0]), a[1..], b);
    }
  }

  /** At every point of an orderly schedule at which somebody can be woken, somebody is. */
  lemma {:induction false} OrderlyAt(s: State, sched: seq<Proc>, k: nat, p: Proc)
    requires Orderly(s, sched) && k < |sched| && Wakeable(RunFrom(s, sched[..k]), p)
    ensures Wakeable(RunFrom(s, sched[..k]), sched[k])
    decreases k
  {
    if k == 0 {
      assert sched[..0] == [];
    } else {
      assert sched[..k][1..] == sched[1..][..k - 1];
      OrderlyAt(Step(s, sched[0]), sched[1..], k - 1, p);
    }
  }

  /** And a schedule that is not orderly has a point at which somebody can be woken and is passed. */
  lemma {:induction false} SomebodyPassed(s: State, sched: seq<Proc>) returns (k: nat, p: Proc)
    requires !Orderly(s, sched)
    ensures k < |sched| && Wakeable(RunFrom(s, sched[..k]), p) && !Wakeable(RunFrom(s, sched[..k]), sched[k])
    decreases sched
  {
    if !MayGo(s, sched[0]) {
      k := 0;
      p :| Wakeable(s, p);
      assert sched[..0] == [];
    } else {
      k, p := SomebodyPassed(Step(s, sched[0]), sched[1..]);
      k := k + 1;
      assert sched[..k][1..] == sched[1..][..k - 1];
    }
  }

  lemma RunOne(s: State, q: Proc)
    ensures RunFrom(s, [q]) == Step(s, q)
  {
    assert RunFrom(s, [q]) == RunFrom(Step(s, q), []);
  }

  lemma RunTwo(s: State, q: Proc)
    ensures RunFrom(s, [q, q]) == Step(Step(s, q), q)
  {
    assert [q, q][1..] == [q];
    RunOne(Step(s, q), q);
  }

  lemma RunThree(s: State, q: Proc)
    ensures RunFrom(s, [q, q, q]) == Step(Step(Step(s, q), q), q)
  {
    assert [q, q, q][1..] == [q, q];
    RunTwo(Step(s, q), q);
  }

  lemma {:induction false} AfterIsRun(readers: nat, writers: nat, sched: seq<Proc>)
    ensures After(readers, writers, sched) == RunFrom(Init(readers, writers), sched)
  {
    if sched != [] {
      var front, q := sched[..|sched| - 1], sched[|sched| - 1];
      AfterIsRun(readers, writers, front);
      RunAppend(Init(readers, writers), front, [q]);
      assert front + [q] == sched;
      RunOne(RunFrom(Init(readers, writers), front), q);
    }
  }
}
