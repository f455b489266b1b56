/**
 The threaded readers as mutable state: the loop of one thread, and all threads interleaved.
 */
module SharedThreadsObject {
  import opened Sequences
  import opened SharedStreams
  import opened SharedStreamsObject
  import opened SharedThreads

  /** A scan takes the first byte of what the buffer and the file hold, if there is any. */
  lemma ScanTakesFirst(buf: seq<char>, file: seq<char>, size: nat)
    requires size > 0
    ensures var (got, rest) := Fetch(buf, file, size);
            && buf + file == Head(got) + (Tail(got) + rest)
            && (got == [] ==> buf == [] && file == [] && rest == [])
            && (got != [] ==> Head(got) == [got[0]])
  {
    var (got, rest) := Fetch(buf, file, size);
    assert buf + file == got + rest;
  }

  /** The loop of a thread that nobody interrupts: it prints its buffer and the rest of the file. */
  method ReadAlone(fs: Stream) returns (out: string)
    requires fs.size > 0 && fs.file.Valid()
    modifies fs, fs.file
    ensures fs.file.Valid() && fs.buf == [] && fs.file.Unread() == []
    ensures out == old(fs.buf + fs.file.Unread())
  {
    out := "";
    var flag := 1;
    assert "" + (fs.buf + fs.file.Unread()) == fs.buf + fs.file.Unread();
    while flag == 1
      invariant fs.file.Valid()
      invariant out + (fs.buf + fs.file.Unread()) == old(fs.buf + fs.file.Unread())
      invariant flag != 1 ==> fs.buf == [] && fs.file.Unread() == []
      decreases |fs.buf| + |fs.file.Unread()|, flag
    {
      ghost var got := Fetch(fs.buf, fs.file.Unread(), fs.size).0;
      ScanTakesFirst(fs.buf, fs.file.Unread(), fs.size);
      var c;
      flag, c := fs.Scan();
      Associative(out, Head(got), fs.buf + fs.file.Unread());
      if flag == 1 {
        out := out + [c];
      }
    }
  }

  /** All threads on one open file. */
  class Readers {
    const file: seq<char>
    const size: nat
    var offset: nat
    const pc: array<Pc>
    const buf: array<seq<char>>
    const held: array<seq<char>>
    ghost var owners: seq<nat>
    var out: seq<(nat, char)>

    ghost function Cfg(): Config {
      Config(file, size, pc.Length)
    }

    ghost function Snapshot(): State
      reads this, pc, buf, held
    {
      State(offset, pc[..], buf[..], held[..], owners, out)
    }

    ghost predicate Valid()
      reads this, pc, buf, held
    {
      Cfg().Valid() && buf != held && Shaped(Cfg(), Snapshot())
    }

    constructor (cfg: Config)
      requires cfg.Valid()
      ensures Valid() && Cfg() == cfg && fresh(pc) && fresh(buf) && fresh(held)
      ensures Snapshot() == Init(cfg)
    {
      file, size, offset, owners, out := cfg.file, cfg.size, 0, [], [];
      pc := new Pc[cfg.threads](_ => Scan);
      buf := new seq<char>[cfg.threads](_ => []);
      held := new seq<char>[cfg.threads](_ => []);
      new;
      assert pc[..] == Init(cfg).pc;
      assert buf[..] == Init(cfg).buf;
      assert held[..] == Init(cfg).held;
    }

    /** A read from the shared offset into the buffer of thread t. */
    method Fill(t: nat)
      requires Valid() && t < pc.Length && pc[t] == Refill
      modifies this, pc, buf
      ensures Valid() && Snapshot() == Step(Cfg(), old(Snapshot()), t)
    {
      assert Snapshot().pc[t] == pc[t];
      var n := if |file| - offset <= size then |file| - offset else size;
      buf[t] := file[offset..offset + n];
      assert buf[t] == Block(old(Unread(Cfg(), Snapshot())), size);
      owners := if n == 0 then owners else owners + [t];
      offset := offset + n;
      pc[t] := Take;
    }

    /** The next step of thread t, if it is still in its loop. */
    method Run(t: nat)
      requires Valid()
      modifies this, pc, buf, held
      ensures Valid() && Snapshot() == Step(Cfg(), old(Snapshot()), t)
    {
      if t >= pc.Length {
        return;
      }
      assert Snapshot().pc[t] == pc[t] && Snapshot().buf[t] == buf[t] && Snapshot().held[t] == held[t];
      match pc[t] {
        case Scan =>
          pc[t] := if buf[t] == [] then Refill else Take;
        case Refill =>
          Fill(t);
        case Take =>
          if buf[t] == [] {
            pc[t] := Done;
          } else {
            held[t], buf[t] := buf[t][..1], buf[t][1..];
            pc[t] := Print;
          }
        case Print =>
          out := out + [(t, held[t][0])];
          held[t] := [];
          pc[t] := Scan;
        case Done =>
      }
    }
  }

  /** The threads under a given schedule. */
  method Simulate(cfg: Config, sched: seq<nat>) returns (readers: Readers)
    requires cfg.Valid()
    ensures fresh(readers) && readers.Valid() && readers.Cfg() == cfg
    ensures readers.Snapshot() == After(cfg, sched)
  {
    readers := new Readers(cfg);
    assert sched[..0] == [];
    for i := 0 to |sched|
      invariant fresh(readers) && fresh(readers.pc) && fresh(readers.buf) && fresh(readers.held)
      invariant readers.Valid() && readers.Cfg() == cfg
      invariant readers.Snapshot() == After(cfg, sched[..i])
    {
      assert sched[..i + 1][..i] == sched[..i];
      readers.Run(sched[i]);
    }
    assert sched[..|sched|] == sched;
  }
}
