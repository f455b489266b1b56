/**
 What the semaphores mean under any interleaving of single calls, and what they do not guarantee.
 */
module RwSyscallProofs {
  import opened RwSemaphores
  import opened Sequences

  // ---------- counting

  function ReadersIn(rp: seq<ReaderPc>): nat {
    Count(rp, ReadsAt)
  }

  function ReadersWaiting(rp: seq<ReaderPc>): nat {
    Count(rp, WaitsToRead)
  }

  function WritersIn(wp: seq<WriterPc>): nat {
    Count(wp, WritesAt)
  }

  function WritersWaiting(wp: seq<WriterPc>): nat {
    Count(wp, WaitsToWrite)
  }

  /** Each counter is the number of processes in its region of the program. */
  predicate Counted(s: State) {
    && s.actW == WritersIn(s.wp) && s.actR == ReadersIn(s.rp)
    && s.waiW == WritersWaiting(s.wp) && s.waiR == ReadersWaiting(s.rp)
    && 0 <= s.canW <= 1 && 0 <= s.canR <= 1 && s.actW <= 1
  }

  lemma InitCounted(readers: nat, writers: nat)
    ensures Counted(Init(readers, writers))
  {
    var s := Init(readers, writers);
    CountUniform(s.rp, false, ReadsAt);
    CountUniform(s.rp, false, WaitsToRead);
    CountUniform(s.wp, false, WritesAt);
    CountUniform(s.wp, false, WaitsToWrite);
  }

  lemma MoveReader(rp: seq<ReaderPc>, r: nat, pc: ReaderPc)
    requires r < |rp|
    ensures One(ReadsAt(rp[r])) <= ReadersIn(rp) && One(WaitsToRead(rp[r])) <= ReadersWaiting(rp)
    ensures ReadersIn(rp[r := pc]) == ReadersIn(rp) + One(ReadsAt(pc)) - One(ReadsAt(rp[r]))
    ensures ReadersWaiting(rp[r := pc]) == ReadersWaiting(rp) + One(WaitsToRead(pc)) - One(WaitsToRead(rp[r]))
  {
    CountReplace(rp, r, pc, ReadsAt);
    CountReplace(rp, r, pc, WaitsToRead);
  }

  lemma MoveWriter(wp: seq<WriterPc>, w: nat, pc: WriterPc)
    requires w < |wp|
    ensures One(WritesAt(wp[w])) <= WritersIn(wp) && One(WaitsToWrite(wp[w])) <= WritersWaiting(wp)
    ensures WritersIn(wp[w := pc]) == WritersIn(wp) + One(WritesAt(pc)) - One(WritesAt(wp[w]))
    ensures WritersWaiting(wp[w := pc]) == WritersWaiting(wp) + One(WaitsToWrite(pc)) - One(WaitsToWrite(wp[w]))
  {
    CountReplace(wp, w, pc, WritesAt);
    CountReplace(wp, w, pc, WaitsToWrite);
  }

  lemma ReaderCounted(s: State, r: nat)
    requires Counted(s) && r < |s.rp| && s.Enabled(R(r))
    ensures Counted(ReaderStep(s, r))
  {
    var t := ReaderStep(s, r);
    MoveReader(s.rp, r, t.rp[r]);
    assert t.rp == s.rp[r := t.rp[r]];
  }

  lemma WriterCounted(s: State, w: nat)
    requires Counted(s) && w < |s.wp| && s.Enabled(W(w))
    ensures Counted(WriterStep(s, w))
  {
    var t := WriterStep(s, w);
    MoveWriter(s.wp, w, t.wp[w]);
    assert t.wp == s.wp[w := t.wp[w]];
  }

  lemma StepCounted(s: State, q: Proc)
    requires Counted(s)
    ensures Counted(Step(s, q))
  {
    if s.Enabled(q) {
      match q
      case R(r) => ReaderCounted(s, r);
      case W(w) => WriterCounted(s, w);
    }
  }

  lemma {:induction false} Counting(readers: nat, writers: nat, sched: seq<Proc>)
    ensures Counted(After(readers, writers, sched))
  {
    if sched == [] {
      InitCounted(readers, writers);
    } else {
      Counting(readers, writers, sched[..|sched| - 1]);
      StepCounted(After(readers, writers, sched[..|sched| - 1]), sched[|sched| - 1]);
    }
  }

  lemma ReadingCounted(s: State, r: nat)
    requires Counted(s) && r < |s.rp| && s.Reading(r)
    ensures s.actR >= 1
  {
    MoveReader(s.rp, r, RTry);
  }

  lemma WritingCounted(s: State, w: nat)
    requires Counted(s) && w < |s.wp| && s.Writing(w)
    ensures s.actW == 1
  {
    MoveWriter(s.wp, w, WTry);
  }

  lemma OneWriter(s: State, v: nat, w: nat)
    requires Counted(s) && v < |s.wp| && w < |s.wp| && s.Writing(v) && s.Writing(w)
    ensures v == w
  {
    if v != w {
      MoveWriter(s.wp, v, WTry);
      MoveWriter(s.wp[v := WTry], w, WTry);
    }
  }

  /** At most one writer is ever in its section. */
  lemma WriterExclusion(readers: nat, writers: nat, sched: seq<Proc>, v: nat, w: nat)
    requires v < writers && w < writers
    requires var s := After(readers, writers, sched); s.Writing(v) && s.Writing(w)
    ensures v == w
  {
    Counting(readers, writers, sched);
    OneWriter(After(readers, writers, sched), v, w);
  }

  /** No call but the two wake-up vectors ever blocks. */
  lemma OnlyWakeUpsBlock(s: State, q: Proc)
    requires Counted(s) && s.Has(q) && !s.Enabled(q)
    ensures match q case R(r) => s.rp[r] == RBlocked case W(w) => s.wp[w] == WBlocked
  {
    match q
    case R(r) => MoveReader(s.rp, r, RTry);
    case W(w) => MoveWriter(s.wp, w, WTry);
  }

  // ---------- what an entering writer can rely on

  /** Both entry vectors of a reader test ACT_W, so readers can only leave while a writer is in. */
  lemma ReadersOnlyLeave(s: State, q: Proc)
    requires s.actW > 0
    ensures Step(s, q).actR <= s.actR
  {
  }

  lemma NobodyReads(s: State)
    requires Counted(s) && s.actR <= 0
    ensures s.actR == 0 && forall r :: 0 <= r < |s.rp| ==> !s.Reading(r)
  {
    forall r | 0 <= r < |s.rp|
      ensures !s.Reading(r)
    {
      if s.Reading(r) {
        ReadingCounted(s, r);
      }
    }
  }

  lemma {:induction false} RunCounted(s: State, sched: seq<Proc>)
    requires Counted(s)
    ensures Counted(RunFrom(s, sched))
    decreases sched
  {
    if sched != [] {
      StepCounted(s, sched[0]);
      RunCounted(Step(s, sched[0]), sched[1..]);
    }
  }

  lemma WriterAlone(t: State, w: nat, q: Proc)
    requires Counted(t) && t.actR == 0 && w < |t.wp| && t.Writing(w)
    ensures var u := Step(t, q); u.actR == 0 && forall r :: 0 <= r < |u.rp| ==> !u.Reading(r)
  {
    WritingCounted(t, w);
    ReadersOnlyLeave(t, q);
    StepCounted(t, q);
    NobodyReads(Step(t, q));
  }

  lemma RunLast(s: State, sched: seq<Proc>)
    requires sched != []
    ensures RunFrom(s, sched) == Step(RunFrom(s, sched[..|sched| - 1]), sched[|sched| - 1])
  {
    var front, q := sched[..|sched| - 1], sched[|sched| - 1];
    assert front + [q] == sched;
    RunAppend(s, front, [q]);
    RunOne(RunFrom(s, front), q);
  }

  /** A writer that got in by the non-blocking vector shares its whole section with no reader. */
  lemma {:induction false} DirectEntry(s: State, w: nat, sched: seq<Proc>)
    requires Counted(s) && w < |s.wp| && s.wp[w] == WTry
    requires Step(s, W(w)).wp[w] == WActive
    requires forall k :: 0 <= k <= |sched| ==> RunFrom(Step(s, W(w)), sched[..k]).Writing(w)
    ensures var t := RunFrom(Step(s, W(w)), sched);
            t.actR == 0 && forall r :: 0 <= r < |t.rp| ==> !t.Reading(r)
    decreases |sched|
  {
    var s1 := Step(s, W(w));
    StepCounted(s, W(w));
    if sched == [] {
      NobodyReads(s1);
    } else {
      var front := sched[..|sched| - 1];
      forall k | 0 <= k <= |front|
        ensures RunFrom(s1, front[..k]).Writing(w)
      {
        assert front[..k] == sched[..k];
      }
      DirectEntry(s, w, front);
      RunCounted(s1, front);
      WriterAlone(RunFrom(s1, front), w, sched[|sched| - 1]);
      RunLast(s1, sched);
    }
  }

  // ---------- the wake-up vectors, call by call

  /** A process can be woken exactly when it stands at its wake-up vector and would go on. */
  lemma WakeableExactly(s: State, q: Proc)
    ensures Wakeable(s, q) <==>
              && s.Has(q) && Step(s, q) != s
              && match q case R(r) => s.rp[r] == RBlocked case W(w) => s.wp[w] == WBlocked
  {
  }

  /** The hand-on: a reader that has been woken has closed CAN_R behind it, so the next one sleeps
      on until the SETVAL of the first; after it, that reader can be woken as well. */
  lemma HandOn(s: State, r: nat, x: nat)
    requires Counted(s) && r < |s.rp| && x < |s.rp| && r != x
    requires s.rp[r] == RBlocked && s.rp[x] == RBlocked && Step(s, R(r)) != s
    ensures Step(Step(s, R(r)), R(x)) == Step(s, R(r))
    ensures Wakeable(Step(Step(s, R(r)), R(r)), R(x))
  {
    MoveReader(s.rp, r, RHandOn);
    MoveReader(s.rp[r := RHandOn], x, RTry);
  }

  /** The same for writers: one that has been woken lets no second one follow. */
  lemma NoHandOn(s: State, v: nat, w: nat)
    requires Counted(s) && v < |s.wp| && w < |s.wp| && v != w
    requires s.wp[v] == WBlocked && s.wp[w] == WBlocked && Step(s, W(v)) != s
    ensures Step(Step(s, W(v)), W(w)) == Step(s, W(v))
  {
  }
}
