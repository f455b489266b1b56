/**
 What the monitor keeps: exclusion, no stranded waiters, and who is let in when.
 */
module RwMonitorProofs {
  import opened RwSemaphores
  import opened RwCalls
  import opened Sequences
  import opened RwSyscallProofs
  import opened RwSyscallLimits
  import opened RwMonitor

  lemma WakeEffect(s: State, q: Proc)
    requires Wakeable(s, q)
    ensures Wake(s, q) ==
            match q
            case R(r) => s.(canR := 1, actR := s.actR + 1, waiR := s.waiR - 1, rp := s.rp[r := RActive])
            case W(w) => s.(canW := s.canW - 1, actW := s.actW + 1, waiW := s.waiW - 1, wp := s.wp[w := WActive])
  {
    match q
    case R(r) => assert s.rp[r := RHandOn][r := RActive] == s.rp[r := RActive];
    case W(w) =>
  }

  // ---------- the invariant between acts

  /** Between acts nobody is part of the way through a function. */
  predicate Settled(s: State) {
    && (forall r :: 0 <= r < |s.rp| ==> s.rp[r] == RTry || s.rp[r] == RBlocked || s.rp[r] == RActive)
    && (forall w :: 0 <= w < |s.wp| ==> s.wp[w] == WTry || s.wp[w] == WBlocked || s.wp[w] == WActive)
  }

  /** An open CAN_W has no taker left, likewise CAN_R; waiting readers wait for a writer that is
      in or waiting, and waiting writers wait for somebody who is in. */
  predicate Tidy(s: State) {
    && Counted(s) && Settled(s) && Exclusive(s)
    && (s.canW == 1 ==> s.waiW == 0)
    && (s.canR == 1 ==> s.waiR == 0)
    && (s.waiR > 0 ==> s.actW == 1 || s.waiW > 0)
    && (s.waiW > 0 ==> s.actW == 1 || s.actR > 0)
  }

  lemma InitTidy(readers: nat, writers: nat)
    ensures Tidy(Init(readers, writers))
  {
    InitCounted(readers, writers);
  }

  /** A positive count has somebody behind it. */
  lemma BlockedReader(s: State) returns (r: nat)
    requires Counted(s) && Settled(s) && s.waiR > 0
    ensures r < |s.rp| && s.rp[r] == RBlocked
  {
    r := CountWitness(s.rp, WaitsToRead);
  }

  lemma BlockedWriter(s: State) returns (w: nat)
    requires Counted(s) && Settled(s) && s.waiW > 0
    ensures w < |s.wp| && s.wp[w] == WBlocked
  {
    w := CountWitness(s.wp, WaitsToWrite);
  }

  lemma NobodyBlocked(s: State)
    requires Counted(s) && s.waiR == 0
    ensures forall r :: 0 <= r < |s.rp| ==> s.rp[r] != RBlocked
  {
    forall r | 0 <= r < |s.rp|
      ensures s.rp[r] != RBlocked
    {
      MoveReader(s.rp, r, RTry);
    }
  }

  // ---------- draining

  /** Between the calls of a stop function and the end of its act. */
  predicate Draining(s: State) {
    && Counted(s) && Settled(s)
  }

  lemma WakeKeeps(s: State, q: Proc)
    requires Draining(s) && Wakeable(s, q)
    ensures Draining(Wake(s, q))
  {
    WakeEffect(s, q);
    match q
    case R(r) => MoveReader(s.rp, r, RActive);
    case W(w) => MoveWriter(s.wp, w, WActive);
  }

  lemma NothingToDrain(s: State, woken: seq<Proc>)
    requires Drains(s, woken)
    requires s.canW >= 1 ==> s.waiW <= 0 || s.actW != 0
    requires s.canR >= 1 ==> s.waiR <= 0 || s.actW != 0
    ensures woken == [] && Drained(s, woken) == s
  {
  }

  lemma NoReaderLeft(s: State)
    requires Draining(s) && Drains(s, []) && s.actW == 0 && s.canR == 1
    ensures s.waiR == 0 && forall r :: 0 <= r < |s.rp| ==> s.rp[r] != RBlocked
  {
    if s.waiR > 0 {
      var r := BlockedReader(s);
      assert Wakeable(s, R(r));
    } else {
      NobodyBlocked(s);
    }
  }

  /** The CAN_R hand-on chain: when CAN_R is open and no writer can be woken, every sleeping
      reader is admitted, one after the other, and no writer. */
  lemma {:induction false} DrainReaders(s: State, woken: seq<Proc>)
    requires Draining(s) && Drains(s, woken)
    requires s.actW == 0 && s.canR == 1 && (s.canW == 1 ==> s.waiW == 0)
    ensures var t := Drained(s, woken);
            && Draining(t) && |woken| == s.waiR && (forall q :: q in woken ==> q.R?)
            && t.actR == s.actR + s.waiR && t.waiR == 0
            && (forall r :: 0 <= r < |t.rp| ==> t.rp[r] == if s.rp[r] == RBlocked then RActive else s.rp[r])
            && t == s.(actR := t.actR, waiR := 0, rp := t.rp)
    decreases woken
  {
    if woken == [] {
      NoReaderLeft(s);
    } else {
      var q := woken[0];
      WakeKeeps(s, q);
      WakeEffect(s, q);
      DrainReaders(Wake(s, q), woken[1..]);
      assert woken == [q] + woken[1..];
    }
  }

  /** When only CAN_W is open, exactly one sleeping writer is admitted. */
  lemma DrainWriter(s: State, woken: seq<Proc>)
    requires Draining(s) && Drains(s, woken)
    requires s.actW == 0 && s.canW == 1 && s.waiW > 0 && (s.canR == 1 ==> s.waiR == 0)
    ensures |woken| == 1 && woken[0].W? && woken[0].w < |s.wp| && s.wp[woken[0].w] == WBlocked
    ensures Draining(Drained(s, woken))
    ensures Drained(s, woken) ==
            s.(canW := 0, actW := 1, waiW := s.waiW - 1, wp := s.wp[woken[0].w := WActive])
  {
    var w := BlockedWriter(s);
    assert Wakeable(s, W(w));
    assert woken != [];
    WakeKeeps(s, woken[0]);
    WakeEffect(s, woken[0]);
    NothingToDrain(Wake(s, woken[0]), woken[1..]);
  }

  // ---------- what each act does to a tidy state

  lemma StartReadTidy(s: State, r: nat)
    requires Tidy(s) && CanAct(s, StartRead(r))
    ensures Tidy(Do(s, StartRead(r)))
  {
    StartReadEffect(s, r);
    MoveReader(s.rp, r, RActive);
    MoveReader(s.rp, r, RBlocked);
  }

  lemma StartWriteTidy(s: State, w: nat)
    requires Tidy(s) && CanAct(s, StartWrite(w))
    ensures Tidy(Do(s, StartWrite(w)))
  {
    StartWriteEffect(s, w);
    MoveWriter(s.wp, w, WActive);
    MoveWriter(s.wp, w, WBlocked);
  }

  /** start_read enters, or else announces itself, closes CAN_R and sleeps. */
  lemma StartReadOutcome(s: State, r: nat)
    requires Tidy(s) && r < |s.rp| && s.rp[r] == RTry
    ensures Do(s, StartRead(r)) ==
            if s.actW == 0 && s.waiW == 0 then s.(actR := s.actR + 1, rp := s.rp[r := RActive])
            else s.(waiR := s.waiR + 1, canR := 0, rp := s.rp[r := RBlocked])
  {
    StartReadEffect(s, r);
  }

  /** start_write enters, or else announces itself, closes CAN_W and sleeps. */
  lemma StartWriteOutcome(s: State, w: nat)
    requires Tidy(s) && w < |s.wp| && s.wp[w] == WTry
    ensures Do(s, StartWrite(w)) ==
            if s.actR == 0 && s.actW == 0 then s.(actW := 1, wp := s.wp[w := WActive])
            else s.(waiW := s.waiW + 1, canW := 0, wp := s.wp[w := WBlocked])
  {
    StartWriteEffect(s, w);
  }

  lemma AfterStopRead(s: State, r: nat)
    requires Tidy(s) && r < |s.rp| && s.rp[r] == RActive
    ensures Draining(RunFrom(s, StopReadCalls(s, r)))
    ensures RunFrom(s, StopReadCalls(s, r)) ==
            s.(actR := s.actR - 1, canW := if s.actR == 1 then 1 else s.canW, rp := s.rp[r := RTry])
    ensures s.actR >= 1
  {
    MoveReader(s.rp, r, RTry);
    StopReadEffect(s, r);
  }

  /** The last reader to leave lets in exactly one waiting writer, if there is one; any other
      reader that leaves lets nobody in. */
  lemma StopReadOutcome(s: State, r: nat, woken: seq<Proc>)
    requires Tidy(s) && CanAct(s, StopRead(r, woken))
    ensures var t := Do(s, StopRead(r, woken));
            if s.actR == 1 && s.waiW > 0 then
              && |woken| == 1 && woken[0].W? && woken[0].w < |s.wp| && s.wp[woken[0].w] == WBlocked
              && t == s.(actR := 0, actW := 1, canW := 0, waiW := s.waiW - 1,
                         rp := s.rp[r := RTry], wp := s.wp[woken[0].w := WActive])
            else
              && woken == []
              && t == s.(actR := s.actR - 1, canW := if s.actR == 1 then 1 else s.canW, rp := s.rp[r := RTry])
    ensures Draining(Do(s, StopRead(r, woken)))
  {
    AfterStopRead(s, r);
    var d := RunFrom(s, StopReadCalls(s, r));
    if s.actR == 1 && s.waiW > 0 {
      DrainWriter(d, woken);
    } else {
      NothingToDrain(d, woken);
    }
  }

  lemma StopReadTidy(s: State, r: nat, woken: seq<Proc>)
    requires Tidy(s) && CanAct(s, StopRead(r, woken))
    ensures Tidy(Do(s, StopRead(r, woken)))
  {
    StopReadOutcome(s, r, woken);
  }

  lemma AfterStopWrite(s: State, w: nat)
    requires Tidy(s) && w < |s.wp| && s.wp[w] == WActive
    ensures Draining(RunFrom(s, StopWriteCalls(w)))
    ensures RunFrom(s, StopWriteCalls(w)) ==
            s.(actW := 0, canR := if s.waiR != 0 then 1 else s.canR,
               canW := if s.waiR != 0 then s.canW else 1, wp := s.wp[w := WTry])
    ensures s.actW == 1 && s.actR == 0
  {
    MoveWriter(s.wp, w, WTry);
    StopWriteEffect(s, w);
  }

  /** A writer that leaves admits all waiting readers and no writer; with no reader waiting it
      admits exactly one waiting writer; with nobody waiting it leaves both doors as they are open. */
  lemma StopWriteOutcome(s: State, w: nat, woken: seq<Proc>)
    requires Tidy(s) && CanAct(s, StopWrite(w, woken))
    ensures var t := Do(s, StopWrite(w, woken));
            if s.waiR > 0 then
              && |woken| == s.waiR && (forall q :: q in woken ==> q.R?)
              && (forall r :: 0 <= r < |t.rp| ==> t.rp[r] == if s.rp[r] == RBlocked then RActive else s.rp[r])
              && t == s.(actW := 0, actR := s.waiR, waiR := 0, canR := 1, rp := t.rp, wp := s.wp[w := WTry])
            else if s.waiW > 0 then
              && |woken| == 1 && woken[0].W? && woken[0].w < |s.wp| && s.wp[woken[0].w] == WBlocked
              && t == s.(canW := 0, waiW := s.waiW - 1, wp := s.wp[w := WTry][woken[0].w := WActive])
            else
              woken == [] && t == s.(actW := 0, canW := 1, wp := s.wp[w := WTry])
    ensures Draining(Do(s, StopWrite(w, woken)))
  {
    AfterStopWrite(s, w);
    var d := RunFrom(s, StopWriteCalls(w));
    if s.waiR > 0 {
      DrainReaders(d, woken);
    } else if s.waiW > 0 {
      DrainWriter(d, woken);
      assert woken[0].w != w;
    } else {
      NothingToDrain(d, woken);
    }
  }

  lemma StopWriteTidy(s: State, w: nat, woken: seq<Proc>)
    requires Tidy(s) && CanAct(s, StopWrite(w, woken))
    ensures Tidy(Do(s, StopWrite(w, woken)))
  {
    AfterStopWrite(s, w);
    StopWriteOutcome(s, w, woken);
  }

  lemma DoTidy(s: State, a: Act)
    requires Tidy(s)
    ensures Tidy(Do(s, a))
  {
    if CanAct(s, a) {
      match a
      case StartRead(r) => StartReadTidy(s, r);
      case StartWrite(w) => StartWriteTidy(s, w);
      case StopRead(r, woken) => StopReadTidy(s, r, woken);
      case StopWrite(w, woken) => StopWriteTidy(s, w, woken);
    }
  }

  lemma {:induction false} RunTidy(s: State, acts: seq<Act>)
    requires Tidy(s)
    ensures Tidy(DoAll(s, acts))
    decreases acts
  {
    if acts != [] {
      DoTidy(s, acts[0]);
      RunTidy(Do(s, acts[0]), acts[1..]);
    }
  }
}
