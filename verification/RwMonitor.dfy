/**
 The readers and writers as the program intends them, in the manner of a monitor.

 An act is a whole start or stop function: stop_read and stop_write are not interrupted, the
 branch of a failed try is not interrupted up to its blocking semop, and a woken reader
 executes its SETVAL before anything else happens; these are assumptions. A blocked vector that
 becomes possible is completed before the next act begins, as Linux does when it serves the
 queue of a semaphore set; the order of the sleepers is left open. Every act is a schedule of
 single calls, so what holds for all schedules holds here too; what the monitor adds to it needs
 the acts.
 */
module RwMonitor {
  import opened RwSemaphores
  import opened RwCalls

  datatype Act =
    | StartRead(r: nat)
    | StopRead(r: nat, woken: seq<Proc>)
    | StartWrite(w: nat)
    | StopWrite(w: nat, woken: seq<Proc>)

  // ---------- acts, made of calls

  /** The calls of a sleeper that is woken: the vector and, for a reader, the SETVAL of line 39. */
  function WakeCalls(q: Proc): seq<Proc> {
    if q.R? then [q, q] else [q]
  }

  function Wake(s: State, q: Proc): (t: State)
    ensures |t.rp| == |s.rp| && |t.wp| == |s.wp|
  {
    if q.R? then Step(Step(s, q), q) else Step(s, q)
  }

  /** woken lists the sleepers woken one after the other until none can be woken. */
  ghost predicate Drains(s: State, woken: seq<Proc>)
    decreases woken
  {
    if woken == [] then forall q :: !Wakeable(s, q)
    else Wakeable(s, woken[0]) && Drains(Wake(s, woken[0]), woken[1..])
  }

  function Drained(s: State, woken: seq<Proc>): (t: State)
    ensures |t.rp| == |s.rp| && |t.wp| == |s.wp|
    decreases woken
  {
    if woken == [] then s else Drained(Wake(s, woken[0]), woken[1..])
  }

  ghost predicate CanAct(s: State, a: Act) {
    match a
    case StartRead(r) => r < |s.rp| && s.rp[r] == RTry
    case StartWrite(w) => w < |s.wp| && s.wp[w] == WTry
    case StopRead(r, woken) =>
      r < |s.rp| && s.rp[r] == RActive && Drains(RunFrom(s, StopReadCalls(s, r)), woken)
    case StopWrite(w, woken) =>
      w < |s.wp| && s.wp[w] == WActive && Drains(RunFrom(s, StopWriteCalls(w)), woken)
  }

  ghost function Do(s: State, a: Act): (t: State)
    ensures |t.rp| == |s.rp| && |t.wp| == |s.wp|
  {
    if !CanAct(s, a) then s
    else match a
      case StartRead(r) => RunFrom(s, StartReadCalls(s, r))
      case StartWrite(w) => RunFrom(s, StartWriteCalls(s, w))
      case StopRead(r, woken) => Drained(RunFrom(s, StopReadCalls(s, r)), woken)
      case StopWrite(w, woken) => Drained(RunFrom(s, StopWriteCalls(w)), woken)
  }

  /** A run of acts; an act that is not possible changes nothing. */
  ghost function DoAll(s: State, acts: seq<Act>): (t: State)
    ensures |t.rp| == |s.rp| && |t.wp| == |s.wp|
    decreases acts
  {
    if acts == [] then s else DoAll(Do(s, acts[0]), acts[1..])
  }

  // ---------- acts are schedules of calls

  function WokenCalls(woken: seq<Proc>): seq<Proc> {
    if woken == [] then [] else WakeCalls(woken[0]) + WokenCalls(woken[1..])
  }

  /** The single calls an act consists of. */
  ghost function Calls(s: State, a: Act): seq<Proc> {
    if !CanAct(s, a) then []
    else match a
      case StartRead(r) => StartReadCalls(s, r)
      case StartWrite(w) => StartWriteCalls(s, w)
      case StopRead(r, woken) => StopReadCalls(s, r) + WokenCalls(woken)
      case StopWrite(w, woken) => StopWriteCalls(w) + WokenCalls(woken)
  }

  ghost function AllCalls(s: State, acts: seq<Act>): seq<Proc>
    decreases acts
  {
    if acts == [] then [] else Calls(s, acts[0]) + AllCalls(Do(s, acts[0]), acts[1..])
  }

  lemma {:induction false} DrainIsSchedule(s: State, woken: seq<Proc>)
    ensures RunFrom(s, WokenCalls(woken)) == Drained(s, woken)
    decreases woken
  {
    if woken != [] {
      var q := woken[0];
      DrainIsSchedule(Wake(s, q), woken[1..]);
      RunAppend(s, WakeCalls(q), WokenCalls(woken[1..]));
      if q.R? {
        RunTwo(s, q);
      } else {
        RunOne(s, q);
      }
    }
  }

  lemma ActIsSchedule(s: State, a: Act)
    ensures RunFrom(s, Calls(s, a)) == Do(s, a)
  {
    if CanAct(s, a) {
      match a
      case StartRead(r) =>
      case StartWrite(w) =>
      case StopRead(r, woken) =>
        DrainIsSchedule(RunFrom(s, StopReadCalls(s, r)), woken);
        RunAppend(s, StopReadCalls(s, r), WokenCalls(woken));
      case StopWrite(w, woken) =>
        DrainIsSchedule(RunFrom(s, StopWriteCalls(w)), woken);
        RunAppend(s, StopWriteCalls(w), WokenCalls(woken));
    }
  }

  /** Every state the monitor reaches is reached by single calls. */
  lemma {:induction false} MonitorIsSchedule(s: State, acts: seq<Act>)
    ensures RunFrom(s, AllCalls(s, acts)) == DoAll(s, acts)
    decreases acts
  {
    if acts != [] {
      ActIsSchedule(s, acts[0]);
      MonitorIsSchedule(Do(s, acts[0]), acts[1..]);
      RunAppend(s, Calls(s, acts[0]), AllCalls(Do(s, acts[0]), acts[1..]));
    }
  }
}
