/**
 The same sharing with one thread per stream, interleaved in any way, for any number of threads.

 fscanf on a stream takes a byte from the stream's buffer; when that is empty it first refills
 it with a read from the one offset of the open file. The read, the taking of the byte and the
 printing are separate steps.
 */
module SharedThreads {
  import opened Sequences
  import opened SharedStreams

  datatype Config = Config(file: seq<char>, size: nat, threads: nat) {
    predicate Valid() {
      size > 0
    }
  }

  datatype Pc = Scan | Refill | Take | Print | Done

  /** owners lists which thread fetched each block so far; out tags each byte with its printer. */
  datatype State = State(offset: nat, pc: seq<Pc>, buf: seq<seq<char>>, held: seq<seq<char>>,
                         owners: seq<nat>, out: seq<(nat, char)>)

  predicate Shaped(cfg: Config, s: State) {
    && |s.pc| == |s.buf| == |s.held| == cfg.threads && s.offset <= |cfg.file|
    && forall t :: 0 <= t < cfg.threads ==> (s.pc[t] == Print <==> |s.held[t]| == 1) && |s.held[t]| <= 1
  }

  function Unread(cfg: Config, s: State): seq<char>
    requires Shaped(cfg, s)
  {
    cfg.file[s.offset..]
  }

  function Init(cfg: Config): (s: State)
    ensures Shaped(cfg, s)
  {
    State(0, seq(cfg.threads, _ => Scan), seq(cfg.threads, _ => []), seq(cfg.threads, _ => []), [], [])
  }

  predicate Enabled(cfg: Config, s: State, t: nat)
    requires Shaped(cfg, s)
  {
    t < cfg.threads && s.pc[t] != Done
  }

  /** One step of thread t; a thread that has left its loop does nothing. */
  function Step(cfg: Config, s: State, t: nat): (s': State)
    requires cfg.Valid() && Shaped(cfg, s)
    ensures Shaped(cfg, s')
  {
    if !Enabled(cfg, s, t) then s
    else match s.pc[t]
      case Scan => s.(pc := s.pc[t := if s.buf[t] == [] then Refill else Take])
      case Refill =>
        var block := Block(Unread(cfg, s), cfg.size);
        s.(offset := s.offset + |block|, buf := s.buf[t := block], pc := s.pc[t := Take],
           owners := if block == [] then s.owners else s.owners + [t])
      case Take =>
        if s.buf[t] == [] then s.(pc := s.pc[t := Done])
        else s.(held := s.held[t := s.buf[t][..1]], buf := s.buf[t := s.buf[t][1..]], pc := s.pc[t := Print])
      case Print => s.(out := s.out + [(t, s.held[t][0])], held := s.held[t := []], pc := s.pc[t := Scan])
      case Done => s
  }

  function After(cfg: Config, sched: seq<nat>): (s: State)
    requires cfg.Valid()
    ensures Shaped(cfg, s)
  {
    if sched == [] then Init(cfg) else Step(cfg, After(cfg, sched[..|sched| - 1]), sched[|sched| - 1])
  }

  /** How many decisions of a schedule found a thread that could run. */
  function Effective(cfg: Config, sched: seq<nat>): nat
    requires cfg.Valid()
  {
    if sched == [] then 0
    else
      var front, t := sched[..|sched| - 1], sched[|sched| - 1];
      Effective(cfg, front) + if Enabled(cfg, After(cfg, front), t) then 1 else 0
  }

  // ---------- what a thread has been dealt, and what it has printed

  /** The blocks of the file that thread t owns, put together in file order. */
  function Dealt(file: seq<char>, size: nat, owners: seq<nat>, t: nat): seq<char>
    decreases owners
  {
    if owners == [] then []
    else (if owners[0] == t then Block(file, size) else []) + Dealt(Skip(file, size), size, owners[1..], t)
  }

  function Undealt(file: seq<char>, size: nat, owners: seq<nat>): seq<char>
    decreases owners
  {
    if owners == [] then file else Undealt(Skip(file, size), size, owners[1..])
  }

  function Printed(out: seq<(nat, char)>, t: nat): seq<char> {
    if out == [] then []
    else Printed(out[..|out| - 1], t) + if out[|out| - 1].0 == t then [out[|out| - 1].1] else []
  }

  lemma SnocTail(owners: seq<nat>, u: nat)
    requires owners != []
    ensures (owners + [u])[0] == owners[0] && (owners + [u])[1..] == owners[1..] + [u]
  {
  }

  lemma {:induction false} DealOne(file: seq<char>, size: nat, owners: seq<nat>, u: nat, t: nat)
    ensures Dealt(file, size, owners + [u], t) ==
            Dealt(file, size, owners, t) + if u == t then Block(Undealt(file, size, owners), size) else []
    ensures Undealt(file, size, owners + [u]) == Skip(Undealt(file, size, owners), size)
    decreases owners
  {
    if owners == [] {
      assert [u][1..] == [];
    } else {
      var rest := Skip(file, size);
      SnocTail(owners, u);
      DealOne(rest, size, owners[1..], u, t);
      Associative(if owners[0] == t then Block(file, size) else [], Dealt(rest, size, owners[1..], t),
                  if u == t then Block(Undealt(file, size, owners), size) else []);
    }
  }

  /** The owners of all blocks when two streams refill in turn, stream t first. */
  function Turns(file: seq<char>, size: nat, t: nat): seq<nat>
    requires size > 0 && t < 2
    decreases |file|
  {
    if file == [] then [] else [t] + Turns(Skip(file, size), size, 1 - t)
  }

  /** The sequential program is one of the deals: it gives the even blocks to the stream that
      reads first and the odd blocks to the other, and leaves nothing. */
  lemma {:induction false} TurnsDealAlternately(file: seq<char>, size: nat, t: nat)
    requires size > 0 && t < 2
    ensures Dealt(file, size, Turns(file, size, t), t) == Evens(file, size)
    ensures Dealt(file, size, Turns(file, size, t), 1 - t) == Odds(file, size)
    ensures Undealt(file, size, Turns(file, size, t)) == []
    decreases |file|
  {
    if file != [] {
      var rest := Skip(file, size);
      TurnsDealAlternately(rest, size, 1 - t);
      assert Turns(file, size, t)[1..] == Turns(rest, size, 1 - t);
    }
  }

  lemma PrintOne(out: seq<(nat, char)>, u: nat, c: char, t: nat)
    ensures Printed(out + [(u, c)], t) == Printed(out, t) + if u == t then [c] else []
  {
    assert (out + [(u, c)])[..|out|] == out;
  }

  /** What thread t has printed, what it holds and what it has buffered, in file order. */
  function Fetched(s: State, t: nat): seq<char>
    requires t < |s.held| && t < |s.buf|
  {
    Printed(s.out, t) + s.held[t] + s.buf[t]
  }

  /** A thread that is done, or about to find its buffer empty after a refill, has seen the end
      of the file. */
  predicate EndSeen(cfg: Config, s: State)
    requires Shaped(cfg, s)
  {
    forall t :: 0 <= t < cfg.threads ==>
      && (s.pc[t] == Done ==> s.buf[t] == [] && s.offset == |cfg.file|)
      && (s.pc[t] == Take && s.buf[t] == [] ==> s.offset == |cfg.file|)
      && (s.pc[t] == Refill ==> s.buf[t] == [])
  }

  /** Each thread has fetched exactly what it was dealt, and none stops early. */
  predicate Accounted(cfg: Config, s: State) {
    && Shaped(cfg, s)
    && Unread(cfg, s) == Undealt(cfg.file, cfg.size, s.owners)
    && (forall t :: 0 <= t < cfg.threads ==> Fetched(s, t) == Dealt(cfg.file, cfg.size, s.owners, t))
    && EndSeen(cfg, s)
  }

  lemma RefillEndSeen(cfg: Config, s: State, u: nat)
    requires cfg.Valid() && Shaped(cfg, s) && EndSeen(cfg, s) && Enabled(cfg, s, u) && s.pc[u] == Refill
    ensures EndSeen(cfg, Step(cfg, s, u))
  {
  }

  /** A refill fetches the next block of the file for the thread that refills. */
  lemma RefillFetches(cfg: Config, s: State, u: nat)
    requires cfg.Valid() && Accounted(cfg, s) && Enabled(cfg, s, u) && s.pc[u] == Refill
    ensures var s', block := Step(cfg, s, u), Block(Unread(cfg, s), cfg.size);
            && Unread(cfg, s') == Skip(Unread(cfg, s), cfg.size)
            && forall t :: 0 <= t < cfg.threads ==>
                 Fetched(s', t) == Fetched(s, t) + if t == u then block else []
  {
  }

  /** With that block the deal goes one block further; at the end of the file nothing changes. */
  lemma RefillDeals(cfg: Config, s: State, u: nat, t: nat)
    requires cfg.Valid() && Accounted(cfg, s) && Enabled(cfg, s, u) && s.pc[u] == Refill
    ensures var s', block := Step(cfg, s, u), Block(Unread(cfg, s), cfg.size);
            && Undealt(cfg.file, cfg.size, s'.owners) == Skip(Unread(cfg, s), cfg.size)
            && Dealt(cfg.file, cfg.size, s'.owners, t)
               == Dealt(cfg.file, cfg.size, s.owners, t) + if t == u then block else []
  {
    var s', block := Step(cfg, s, u), Block(Unread(cfg, s), cfg.size);
    if block == [] {
      assert s'.owners == s.owners;
    } else {
      assert s'.owners == s.owners + [u];
      DealOne(cfg.file, cfg.size, s.owners, u, t);
    }
  }

  lemma RefillAccounted(cfg: Config, s: State, u: nat)
    requires cfg.Valid() && Accounted(cfg, s) && Enabled(cfg, s, u) && s.pc[u] == Refill
    ensures Accounted(cfg, Step(cfg, s, u))
  {
    var s' := Step(cfg, s, u);
    RefillFetches(cfg, s, u);
    RefillEndSeen(cfg, s, u);
    RefillDeals(cfg, s, u, u);
    forall t | 0 <= t < cfg.threads
      ensures Fetched(s', t) == Dealt(cfg.file, cfg.size, s'.owners, t)
    {
      RefillDeals(cfg, s, u, t);
    }
  }

  /** Taking a byte and printing it move it along within its thread. */
  lemma TakeFetches(cfg: Config, s: State, u: nat)
    requires cfg.Valid() && Shaped(cfg, s) && Enabled(cfg, s, u) && s.pc[u] == Take
    ensures forall t :: 0 <= t < cfg.threads ==> Fetched(Step(cfg, s, u), t) == Fetched(s, t)
  {
    var s' := Step(cfg, s, u);
    assert s.held[u] == [];
    if s.buf[u] != [] {
      assert s.buf[u] == s.buf[u][..1] + s.buf[u][1..];
      assert Fetched(s', u) == Fetched(s, u);
    }
  }

  lemma PrintFetches(cfg: Config, s: State, u: nat)
    requires cfg.Valid() && Shaped(cfg, s) && Enabled(cfg, s, u) && s.pc[u] == Print
    ensures forall t :: 0 <= t < cfg.threads ==> Fetched(Step(cfg, s, u), t) == Fetched(s, t)
  {
    var s' := Step(cfg, s, u);
    assert s.held[u] == [s.held[u][0]];
    forall t | 0 <= t < cfg.threads
      ensures Fetched(s', t) == Fetched(s, t)
    {
      PrintOne(s.out, u, s.held[u][0], t);
      assert t == u ==> Printed(s'.out, t) + [] == Printed(s.out, t) + s.held[t];
      assert t != u ==> Printed(s'.out, t) == Printed(s.out, t);
    }
  }

  lemma StepAccounted(cfg: Config, s: State, u: nat)
    requires cfg.Valid() && Accounted(cfg, s)
    ensures Accounted(cfg, Step(cfg, s, u))
  {
    if Enabled(cfg, s, u) {
      var s' := Step(cfg, s, u);
      assert s.pc[u] != Refill ==> s'.owners == s.owners && s'.offset == s.offset;
      match s.pc[u]
      case Scan =>
        assert forall t :: 0 <= t < cfg.threads ==> Fetched(s', t) == Fetched(s, t);
      case Refill => RefillAccounted(cfg, s, u);
      case Take => TakeFetches(cfg, s, u);
      case Print => PrintFetches(cfg, s, u);
    }
  }

  /** In every run each thread prints, in file order, exactly the blocks it fetched, up to what
      it still has in its buffer. */
  lemma {:induction false} EveryByteAccounted(cfg: Config, sched: seq<nat>)
    requires cfg.Valid()
    ensures Accounted(cfg, After(cfg, sched))
  {
    if sched != [] {
      EveryByteAccounted(cfg, sched[..|sched| - 1]);
      StepAccounted(cfg, After(cfg, sched[..|sched| - 1]), sched[|sched| - 1]);
    }
  }
}
