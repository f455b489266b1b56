/**
 How often a waiting writer is passed by other writers in the monitor: with sleepers woken in any
 order, for which populations there is no bound; with writers woken in the order in which they
 fell asleep, no more often than there were writers waiting before it.
 */
module RwOvertaking {
  import opened RwSemaphores
  import opened RwSyscallProofs
  import opened RwCalls
  import opened RwMonitor
  import opened RwMonitorProofs
  import opened RwMonitorTheorems

  ghost predicate WriterWaits(s: State, acts: seq<Act>, w: nat)
    requires w < |s.wp|
    decreases acts
  {
    s.wp[w] == WBlocked && (acts == [] || WriterWaits(Do(s, acts[0]), acts[1..], w))
  }

  /** That is: it sleeps after every act of the run. */
  lemma {:induction false} WriterWaitsAt(s: State, acts: seq<Act>, w: nat, k: nat)
    requires w < |s.wp| && WriterWaits(s, acts, w) && k <= |acts|
    ensures DoAll(s, acts[..k]).wp[w] == WBlocked
    decreases k
  {
    if k > 0 {
      assert acts[..k][1..] == acts[1..][..k - 1];
      WriterWaitsAt(Do(s, acts[0]), acts[1..], w, k - 1);
    }
  }

  lemma {:induction false} WriterAwake(s: State, acts: seq<Act>, w: nat) returns (k: nat)
    requires w < |s.wp| && !WriterWaits(s, acts, w)
    ensures k <= |acts| && DoAll(s, acts[..k]).wp[w] != WBlocked
    decreases acts
  {
    if s.wp[w] != WBlocked {
      k := 0;
      assert acts[..0] == [];
    } else {
      k := WriterAwake(Do(s, acts[0]), acts[1..], w);
      k := k + 1;
      assert acts[..k][1..] == acts[1..][..k - 1];
    }
  }

  /** Some sleeper that an act wakes is a writer; then it is the only one woken. */
  predicate WakesWriter(woken: seq<Proc>) {
    woken != [] && woken[0].W?
  }

  function Woken(a: Act): seq<Proc> {
    match a
    case StartRead(_) => []
    case StartWrite(_) => []
    case StopRead(_, woken) => woken
    case StopWrite(_, woken) => woken
  }

  /** While some writer waits, a writer enters only by being woken, alone, and had been waiting. */
  lemma EntriesAreWakeUps(s: State, a: Act)
    requires Tidy(s) && s.waiW > 0 && CanAct(s, a)
    ensures WriterEntries(s, a) == if WakesWriter(Woken(a)) then 1 else 0
    ensures WakesWriter(Woken(a)) ==>
              && Woken(a) == [Woken(a)[0]] && Woken(a)[0].w < |s.wp| && s.wp[Woken(a)[0].w] == WBlocked
  {
    match a
    case StartRead(r) =>
    case StartWrite(w) => StartWriteEffect(s, w);
    case StopRead(r, woken) =>
      StopReadOutcome(s, r, woken);
      if WakesWriter(woken) {
        OneWriterAmong(woken);
      }
    case StopWrite(w, woken) =>
      StopWriteOutcome(s, w, woken);
      if s.waiR > 0 {
        NoWriterAmong(woken);
        assert woken != [] ==> woken[0] in woken;
      } else {
        OneWriterAmong(woken);
      }
  }

  /** Where an act leaves each writer. */
  lemma WritersAfter(s: State, a: Act, x: nat)
    requires Tidy(s) && s.waiW > 0 && CanAct(s, a) && x < |s.wp|
    ensures Do(s, a).wp[x] ==
            if a == StartWrite(x) then WBlocked
            else if WakesWriter(Woken(a)) && Woken(a)[0].w == x then WActive
            else if a.StopWrite? && a.w == x then WTry
            else s.wp[x]
    ensures Do(s, a).waiW ==
            s.waiW + (if a.StartWrite? then 1 else 0) - (if WakesWriter(Woken(a)) then 1 else 0)
  {
    match a
    case StartRead(r) => StartReadEffect(s, r);
    case StartWrite(w) => StartWriteEffect(s, w);
    case StopRead(r, woken) => StopReadOutcome(s, r, woken);
    case StopWrite(w, woken) =>
      StopWriteOutcome(s, w, woken);
      assert woken != [] ==> woken[0] in woken;
  }

  lemma WaitingCounted(s: State, w: nat)
    requires Counted(s) && w < |s.wp| && s.wp[w] == WBlocked
    ensures s.waiW > 0
  {
    MoveWriter(s.wp, w, WTry);
  }

  // ---------- writers woken in the order in which they fell asleep

  /** The writers that wait, in the order of their failed tries. */
  ghost function NextLine(line: seq<nat>, s: State, a: Act): seq<nat> {
    if !CanAct(s, a) then line
    else if a.StartWrite? then (if Do(s, a).wp[a.w] == WBlocked then line + [a.w] else line)
    else if WakesWriter(Woken(a)) && line != [] then line[1..]
    else line
  }

  ghost function LineAfter(line: seq<nat>, s: State, acts: seq<Act>): seq<nat>
    decreases acts
  {
    if acts == [] then line else LineAfter(NextLine(line, s, acts[0]), Do(s, acts[0]), acts[1..])
  }

  /** A writer that is woken is the one that has waited longest. */
  ghost predicate InOrder(line: seq<nat>, s: State, a: Act) {
    CanAct(s, a) && WakesWriter(Woken(a)) ==> line != [] && Woken(a)[0].w == line[0]
  }

  ghost predicate AllInOrder(line: seq<nat>, s: State, acts: seq<Act>)
    decreases acts
  {
    acts == [] ||
    (InOrder(line, s, acts[0]) && AllInOrder(NextLine(line, s, acts[0]), Do(s, acts[0]), acts[1..]))
  }

  predicate Line(line: seq<nat>, s: State) {
    && |line| == s.waiW
    && (forall i :: 0 <= i < |line| ==> line[i] < |s.wp| && s.wp[line[i]] == WBlocked)
    && (forall i, j :: 0 <= i < j < |line| ==> line[i] != line[j])
  }

  /** A new writer at the end of the line. */
  lemma LineGrows(line: seq<nat>, s: State, w: nat)
    requires Tidy(s) && Line(line, s) && s.waiW > 0 && CanAct(s, StartWrite(w))
    ensures Line(line + [w], Do(s, StartWrite(w)))
  {
    StartWriteEffect(s, w);
  }

  /** The writer in front leaves the line. */
  lemma LineShrinks(line: seq<nat>, s: State, t: State)
    requires Line(line, s) && line != [] && |t.wp| == |s.wp| && t.waiW == s.waiW - 1
    requires forall i :: 1 <= i < |line| ==> t.wp[line[i]] == WBlocked
    ensures Line(line[1..], t)
  {
  }

  lemma LineWhenWaiting(line: seq<nat>, s: State, a: Act)
    requires Tidy(s) && Line(line, s) && InOrder(line, s, a) && s.waiW > 0 && CanAct(s, a)
    ensures Line(NextLine(line, s, a), Do(s, a))
  {
    if a.StartWrite? {
      WritersAfter(s, a, a.w);
      LineGrows(line, s, a.w);
    } else {
      WritersAfter(s, a, line[0]);
      forall i | 0 <= i < |line|
        ensures (i == 0 && WakesWriter(Woken(a))) || Do(s, a).wp[line[i]] == WBlocked
      {
        WritersAfter(s, a, line[i]);
      }
      if WakesWriter(Woken(a)) {
        LineShrinks(line, s, Do(s, a));
      }
    }
  }

  lemma LineStep(line: seq<nat>, s: State, a: Act)
    requires Tidy(s) && Line(line, s) && InOrder(line, s, a)
    ensures Line(NextLine(line, s, a), Do(s, a))
  {
    if CanAct(s, a) {
      if s.waiW > 0 {
        LineWhenWaiting(line, s, a);
      } else {
        match a
        case StartRead(r) => StartReadEffect(s, r);
        case StartWrite(w) => StartWriteEffect(s, w);
        case StopRead(r, woken) => StopReadOutcome(s, r, woken);
        case StopWrite(w, woken) => StopWriteOutcome(s, w, woken);
      }
    }
  }

  lemma {:induction false} LineKept(line: seq<nat>, s: State, acts: seq<Act>)
    requires Tidy(s) && Line(line, s) && AllInOrder(line, s, acts)
    ensures Line(LineAfter(line, s, acts), DoAll(s, acts))
    decreases acts
  {
    if acts != [] {
      LineStep(line, s, acts[0]);
      DoTidy(s, acts[0]);
      LineKept(NextLine(line, s, acts[0]), Do(s, acts[0]), acts[1..]);
    }
  }

  /** When the stop function has left CAN_W open for the writers only, any of them can be woken,
      and then nobody else can. */
  lemma WakeThisWriter(d: State, w: nat)
    requires Draining(d) && w < |d.wp| && d.wp[w] == WBlocked
    requires d.actW == 0 && d.canW == 1 && (d.canR == 1 ==> d.waiR == 0)
    ensures Drains(d, [W(w)])
  {
    WaitingCounted(d, w);
    WakeEffect(d, W(w));
    assert [W(w)][1..] == [];
    assert Drains(Wake(d, W(w)), []);
  }

  /** Whoever is in can leave in an act that wakes writers in order, whatever the line. */
  lemma LeaveInOrder(line: seq<nat>, s: State, q: Proc) returns (a: Act)
    requires Tidy(s) && Line(line, s)
    requires match q
             case R(r) => r < |s.rp| && s.rp[r] == RActive
             case W(w) => w < |s.wp| && s.wp[w] == WActive
    ensures CanAct(s, a) && InOrder(line, s, a)
    ensures match q case R(r) => a.StopRead? && a.r == r case W(w) => a.StopWrite? && a.w == w
  {
    match q
    case R(r) =>
      AfterStopRead(s, r);
      var d := RunFrom(s, StopReadCalls(s, r));
      var woken: seq<Proc>;
      if s.actR == 1 && s.waiW > 0 {
        WakeThisWriter(d, line[0]);
        woken := [W(line[0])];
      } else {
        woken := DrainExists(d);
        StopReadOutcome(s, r, woken);
      }
      a := StopRead(r, woken);
    case W(w) =>
      AfterStopWrite(s, w);
      var d := RunFrom(s, StopWriteCalls(w));
      var woken: seq<Proc>;
      if s.waiR == 0 && s.waiW > 0 {
        WakeThisWriter(d, line[0]);
        woken := [W(line[0])];
      } else {
        woken := DrainExists(d);
        StopWriteOutcome(s, w, woken);
        assert woken != [] ==> woken[0] in woken;
      }
      a := StopWrite(w, woken);
  }

  /** Such an act continues any run in order. */
  lemma {:induction false} InOrderSnoc(line: seq<nat>, s: State, acts: seq<Act>, a: Act)
    requires AllInOrder(line, s, acts) && InOrder(LineAfter(line, s, acts), DoAll(s, acts), a)
    ensures AllInOrder(line, s, acts + [a])
    decreases acts
  {
    if acts == [] {
      assert acts + [a] == [a];
      assert AllInOrder(NextLine(line, s, a), Do(s, a), []);
    } else {
      assert (acts + [a])[1..] == acts[1..] + [a];
      InOrderSnoc(NextLine(line, s, acts[0]), Do(s, acts[0]), acts[1..], a);
    }
  }

  /** While the writer with p others in front of it waits, at most those p enter, each once. */
  lemma {:induction false} PassedByThoseInFront(line: seq<nat>, s: State, acts: seq<Act>, p: nat)
    requires Tidy(s) && Line(line, s) && p < |line|
    requires AllInOrder(line, s, acts) && WriterWaits(s, acts, line[p])
    ensures AllWriterEntries(s, acts) <= p
    decreases acts
  {
    if acts != [] {
      var a, w, next, t := acts[0], line[p], NextLine(line, s, acts[0]), Do(s, acts[0]);
      LineStep(line, s, a);
      DoTidy(s, a);
      if CanAct(s, a) {
        EntriesAreWakeUps(s, a);
        WritersAfter(s, a, w);
        PassedByThoseInFront(next, t, acts[1..], if WakesWriter(Woken(a)) then p - 1 else p);
      } else {
        PassedByThoseInFront(line, s, acts[1..], p);
      }
    }
  }

  /** In any run that wakes writers in order, a writer that starts waiting is passed by no more
      writers than were waiting already. */
  lemma PassedAtMostByEarlierWriters(readers: nat, writers: nat, before: seq<Act>, w: nat, during: seq<Act>)
    requires var i := Init(readers, writers); var s := DoAll(i, before); var line := LineAfter([], i, before);
             && AllInOrder([], i, before)
             && w < writers && CanAct(s, StartWrite(w)) && WriterWaits(Do(s, StartWrite(w)), during, w)
             && AllInOrder(line + [w], Do(s, StartWrite(w)), during)
    ensures var s := DoAll(Init(readers, writers), before);
            AllWriterEntries(Do(s, StartWrite(w)), during) <= s.waiW
  {
    var i := Init(readers, writers);
    var s, line, a := DoAll(i, before), LineAfter([], i, before), StartWrite(w);
    InitTidy(readers, writers);
    RunTidy(i, before);
    LineKept([], i, before);
    LineStep(line, s, a);
    DoTidy(s, a);
    PassedByThoseInFront(line + [w], Do(s, a), during, |line|);
  }

  // ---------- writers woken in any order

  /** At most one writer, or two and no reader. */
  predicate NobodyToPass(readers: nat, writers: nat) {
    writers <= 1 || (writers == 2 && readers == 0)
  }

  lemma NoPassingStep(s: State, a: Act, w: nat)
    requires Tidy(s) && NobodyToPass(|s.rp|, |s.wp|)
    requires w < |s.wp| && s.wp[w] == WBlocked && Do(s, a).wp[w] == WBlocked
    ensures WriterEntries(s, a) == 0
  {
    if CanAct(s, a) {
      WaitingCounted(s, w);
      EntriesAreWakeUps(s, a);
      WritersAfter(s, a, w);
    }
  }

  lemma {:induction false} NoPassing(s: State, acts: seq<Act>, w: nat)
    requires Tidy(s) && NobodyToPass(|s.rp|, |s.wp|)
    requires w < |s.wp| && WriterWaits(s, acts, w)
    ensures AllWriterEntries(s, acts) == 0
    decreases acts
  {
    if acts != [] {
      NoPassingStep(s, acts[0], w);
      DoTidy(s, acts[0]);
      NoPassing(Do(s, acts[0]), acts[1..], w);
    }
  }

  /** One more act in front of a run. */
  lemma InFront(s: State, a: Act, rest: seq<Act>, w: nat)
    requires w < |s.wp| && s.wp[w] == WBlocked && WriterWaits(Do(s, a), rest, w)
    ensures WriterWaits(s, [a] + rest, w)
    ensures AllWriterEntries(s, [a] + rest) == WriterEntries(s, a) + AllWriterEntries(Do(s, a), rest)
  {
    assert ([a] + rest)[1..] == rest;
  }

  /** Writer a is in, writers b and 1 wait, and no reader does. */
  predicate Rivals(s: State, a: nat, b: nat) {
    && Tidy(s) && a != b && a != 1 && b != 1 && a < |s.wp| && b < |s.wp| && 1 < |s.wp|
    && s.wp[a] == WActive && s.wp[b] == WBlocked && s.wp[1] == WBlocked && s.waiR == 0
  }

  /** Writer a leaves, b is woken, and a queues up again. */
  lemma RivalsSwap(s: State, a: nat, b: nat)
    requires Rivals(s, a, b)
    ensures CanAct(s, StopWrite(a, [W(b)])) && WriterEntries(s, StopWrite(a, [W(b)])) == 1
    ensures var t := Do(s, StopWrite(a, [W(b)]));
            && t.wp[1] == WBlocked && WriterEntries(t, StartWrite(a)) == 0
            && Rivals(Do(t, StartWrite(a)), b, a)
  {
    var stop, d := StopWrite(a, [W(b)]), RunFrom(s, StopWriteCalls(a));
    AfterStopWrite(s, a);
    WaitingCounted(s, b);
    WakeEffect(d, W(b));
    assert [W(b)][1..] == [];
    assert Drains(Wake(d, W(b)), []);
    var t := Do(s, stop);
    StopWriteOutcome(s, a, [W(b)]);
    OneWriterAmong([W(b)]);
    DoTidy(s, stop);
    StartWriteEffect(t, a);
    DoTidy(t, StartWrite(a));
  }

  lemma {:induction false} RivalsPass(s: State, a: nat, b: nat, n: nat) returns (acts: seq<Act>)
    requires Rivals(s, a, b)
    ensures WriterWaits(s, acts, 1) && AllWriterEntries(s, acts) == n
    decreases n
  {
    if n == 0 {
      acts := [];
    } else {
      RivalsSwap(s, a, b);
      var t := Do(s, StopWrite(a, [W(b)]));
      var rest := RivalsPass(Do(t, StartWrite(a)), b, a, n - 1);
      InFront(t, StartWrite(a), rest, 1);
      InFront(s, StopWrite(a, [W(b)]), [StartWrite(a)] + rest, 1);
      acts := [StopWrite(a, [W(b)])] + ([StartWrite(a)] + rest);
    }
  }

  /** Reader 0 is in, alone, and writers 0 and 1 wait. */
  predicate Relay(s: State) {
    && Tidy(s) && 0 < |s.rp| && 1 < |s.wp| && s.rp[0] == RActive && s.actR == 1 && s.waiR == 0
    && s.wp[0] == WBlocked && s.wp[1] == WBlocked
  }

  /** Writer 0 is in, writer 1 waits, and reader 0 is the only reader that does. */
  predicate Handover(s: State) {
    && Tidy(s) && 0 < |s.rp| && 1 < |s.wp| && s.rp[0] == RBlocked && s.waiR == 1
    && s.wp[0] == WActive && s.wp[1] == WBlocked
  }

  /** Reader 0 leaves, writer 0 is woken, and reader 0 queues up again. */
  lemma RelayToWriter(s: State)
    requires Relay(s)
    ensures CanAct(s, StopRead(0, [W(0)])) && WriterEntries(s, StopRead(0, [W(0)])) == 1
    ensures var t := Do(s, StopRead(0, [W(0)]));
            && t.wp[1] == WBlocked && WriterEntries(t, StartRead(0)) == 0 && Handover(Do(t, StartRead(0)))
  {
    var stop, d := StopRead(0, [W(0)]), RunFrom(s, StopReadCalls(s, 0));
    AfterStopRead(s, 0);
    WaitingCounted(s, 0);
    WakeEffect(d, W(0));
    assert [W(0)][1..] == [];
    assert Drains(Wake(d, W(0)), []);
    var t := Do(s, stop);
    StopReadOutcome(s, 0, [W(0)]);
    OneWriterAmong([W(0)]);
    DoTidy(s, stop);
    StartReadEffect(t, 0);
    DoTidy(t, StartRead(0));
  }

  /** Writer 0 leaves and the waiting readers are admitted. */
  lemma WriterLeaves(s: State) returns (stop: Act)
    requires Handover(s)
    ensures stop.StopWrite? && stop.w == 0 && CanAct(s, stop) && WriterEntries(s, stop) == 0
    ensures var t := Do(s, stop);
            && Tidy(t) && t.rp[0] == RActive && t.actR == 1 && t.waiR == 0
            && t.wp[0] == WTry && t.wp[1] == WBlocked
  {
    AfterStopWrite(s, 0);
    var woken := DrainExists(RunFrom(s, StopWriteCalls(0)));
    stop := StopWrite(0, woken);
    StopWriteOutcome(s, 0, woken);
    NoWriterAmong(woken);
    DoTidy(s, stop);
  }

  /** Then writer 0 queues up again. */
  lemma RelayToReader(s: State) returns (stop: Act)
    requires Handover(s)
    ensures stop.StopWrite? && stop.w == 0 && CanAct(s, stop) && WriterEntries(s, stop) == 0
    ensures var t := Do(s, stop);
            && t.wp[1] == WBlocked && WriterEntries(t, StartWrite(0)) == 0 && Relay(Do(t, StartWrite(0)))
  {
    stop := WriterLeaves(s);
    StartWriteEffect(Do(s, stop), 0);
    DoTidy(Do(s, stop), StartWrite(0));
  }

  lemma {:induction false} RelayPass(s: State, n: nat) returns (acts: seq<Act>)
    requires Relay(s)
    ensures WriterWaits(s, acts, 1) && AllWriterEntries(s, acts) == n
    decreases n, 1
  {
    if n == 0 {
      acts := [];
    } else {
      RelayToWriter(s);
      var t := Do(s, StopRead(0, [W(0)]));
      var rest := HandoverPass(Do(t, StartRead(0)), n - 1);
      InFront(t, StartRead(0), rest, 1);
      InFront(s, StopRead(0, [W(0)]), [StartRead(0)] + rest, 1);
      acts := [StopRead(0, [W(0)])] + ([StartRead(0)] + rest);
    }
  }

  lemma {:induction false} HandoverPass(s: State, n: nat) returns (acts: seq<Act>)
    requires Handover(s)
    ensures WriterWaits(s, acts, 1) && AllWriterEntries(s, acts) == n
    decreases n, 2
  {
    var stop := RelayToReader(s);
    var t := Do(s, stop);
    var rest := RelayPass(Do(t, StartWrite(0)), n);
    InFront(t, StartWrite(0), rest, 1);
    InFront(s, stop, [StartWrite(0)] + rest, 1);
    acts := [stop] + ([StartWrite(0)] + rest);
  }

  lemma DoThree(s: State, a: Act, b: Act, c: Act)
    ensures DoAll(s, [a, b, c]) == Do(Do(Do(s, a), b), c)
  {
    assert [a, b, c][1..] == [b, c] && [b, c][1..] == [c];
    var t := Do(Do(s, a), b);
    assert DoAll(t, [c]) == DoAll(Do(t, c), []);
  }

  lemma ReachRivals(readers: nat, writers: nat)
    requires writers >= 3
    ensures Rivals(DoAll(Init(readers, writers), [StartWrite(0), StartWrite(1), StartWrite(2)]), 0, 2)
  {
    var i := Init(readers, writers);
    InitTidy(readers, writers);
    DoThree(i, StartWrite(0), StartWrite(1), StartWrite(2));
    StartWriteEffect(i, 0);
    var s := Do(i, StartWrite(0));
    DoTidy(i, StartWrite(0));
    StartWriteEffect(s, 1);
    var t := Do(s, StartWrite(1));
    DoTidy(s, StartWrite(1));
    StartWriteEffect(t, 2);
    DoTidy(t, StartWrite(2));
  }

  lemma ReachRelay(readers: nat, writers: nat)
    requires readers >= 1 && writers >= 2
    ensures Relay(DoAll(Init(readers, writers), [StartRead(0), StartWrite(0), StartWrite(1)]))
  {
    var i := Init(readers, writers);
    InitTidy(readers, writers);
    DoThree(i, StartRead(0), StartWrite(0), StartWrite(1));
    StartReadEffect(i, 0);
    var s := Do(i, StartRead(0));
    DoTidy(i, StartRead(0));
    StartWriteEffect(s, 0);
    var t := Do(s, StartWrite(0));
    DoTidy(s, StartWrite(0));
    StartWriteEffect(t, 1);
    DoTidy(t, StartWrite(1));
  }

  /** In the run during, which follows the run before, writer w waits all the time and is passed by
      at least n writers. */
  ghost predicate Passed(readers: nat, writers: nat, n: nat, before: seq<Act>, during: seq<Act>, w: nat) {
    var s := DoAll(Init(readers, writers), before);
    w < writers && WriterWaits(s, during, w) && AllWriterEntries(s, during) >= n
  }

  ghost predicate CanBePassed(readers: nat, writers: nat, n: nat) {
    exists before, during, w: nat :: Passed(readers, writers, n, before, during, w)
  }

  /** A waiting writer can be passed any number of times exactly when there are at least three
      writers, or two and a reader; otherwise it is not passed at all. */
  lemma PassingExactly(readers: nat, writers: nat)
    ensures (forall n: nat :: CanBePassed(readers, writers, n)) <==> !NobodyToPass(readers, writers)
    ensures NobodyToPass(readers, writers) ==> !CanBePassed(readers, writers, 1)
  {
    var i := Init(readers, writers);
    if NobodyToPass(readers, writers) {
      forall before, during, w: nat
        ensures !Passed(readers, writers, 1, before, during, w)
      {
        var s := DoAll(i, before);
        if w < writers && WriterWaits(s, during, w) {
          InitTidy(readers, writers);
          RunTidy(i, before);
          NoPassing(s, during, w);
        }
      }
      assert !CanBePassed(readers, writers, 1);
    } else {
      forall n: nat
        ensures CanBePassed(readers, writers, n)
      {
        if writers >= 3 {
          var before := [StartWrite(0), StartWrite(1), StartWrite(2)];
          ReachRivals(readers, writers);
          var during := RivalsPass(DoAll(i, before), 0, 2, n);
          assert Passed(readers, writers, n, before, during, 1);
        } else {
          var before := [StartRead(0), StartWrite(0), StartWrite(1)];
          ReachRelay(readers, writers);
          var during := RelayPass(DoAll(i, before), n);
          assert Passed(readers, writers, n, before, during, 1);
        }
      }
    }
  }
}
