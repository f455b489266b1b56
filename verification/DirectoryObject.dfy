/**
 The walk as the program runs it: recursive, printing as it goes, changing the working directory
 of the process and opening and closing directory streams.
 */
module DirectoryObject {
  import opened DirectoryWalk
  import opened DirectoryText
  import opened Sequences

  /** The streams with numbers from lo up to hi. */
  function Streams(lo: nat, hi: nat): (r: set<nat>)
    ensures forall id :: id in r <==> lo <= id < hi
  {
    if hi <= lo then {} else Streams(lo, hi - 1) + {hi - 1}
  }

  lemma StreamsConcat(lo: nat, mid: nat, hi: nat)
    requires lo <= mid <= hi
    ensures Streams(lo, mid) + Streams(mid, hi) == Streams(lo, hi)
  {
  }

  class Walker {
    var out: string            // standard output
    var cwd: seq<string>       // working directory, from the root
    var streams: seq<nat>      // open directory streams, innermost last
    var handles: nat           // streams opened so far; the next one gets this number
    var closed: set<nat>       // streams closed so far
    ghost var trace: seq<Event>

    /** Standard output is the text of what has happened, and only opened streams are closed. */
    ghost predicate Valid()
      reads this
    {
      out == Text(trace) && forall id :: id in closed ==> id < handles
    }

    constructor (start: seq<string>)
      ensures Valid() && cwd == start && streams == [] && handles == 0 && closed == {} && trace == []
    {
      out, cwd, streams, handles, closed, trace := "", start, [], 0, {}, [];
    }

    method PrintIndent(n: nat)
      modifies this`out
      ensures out == old(out) + Indent(n)
    {
      for i := 0 to n
        invariant out == old(out) + Indent(i)
      {
        out := out + "    ";
        assert Indent(i) + "    " == Indent(i + 1);
      }
    }

    /** print_info; the indentation is printed already, before anything of an entry is known. */
    method PrintInfo(name: string, kind: Kind, ghost depth: nat) returns (ret: int)
      requires out == Text(trace) + if kind == DNR then "" else Indent(depth)
      modifies this`out, this`trace
      ensures trace == old(trace) + [Report(kind, name, depth, cwd, |streams|)]
      ensures out == Text(trace)
      ensures ret == if kind == F || kind == D then 0 else -1
    {
      ghost var event := Report(kind, name, depth, cwd, |streams|);
      match kind {
        case F =>
          LineText(Text(trace), Indent(depth), "│ ", name, "\n");
          out := out + ("│ " + name + "\n");
          ret := 0;
        case D =>
          LineText(Text(trace), Indent(depth), "║ ", name, "/\n");
          assert name + "/\n" == name + "/" + "\n";
          out := out + ("║ " + name + "/\n");
          ret := 0;
        case DNR =>
          ret := -1;
        case NS =>
          ret := -1;
      }
      TextSnoc(trace, event);
      assert out == Text(trace) + EventText(event);
      trace := trace + [event];
    }

    /** A line of its own that opens or closes a directory. */
    method PrintMark(depth: nat, mark: string, ghost event: Event)
      requires Valid() && EventText(event) == Indent(depth) + mark + "\n"
      modifies this`out, this`trace
      ensures Valid() && trace == old(trace) + [event]
    {
      PrintIndent(depth);
      MarkText(Text(trace), Indent(depth), mark);
      out := out + (mark + "\n");
      TextSnoc(trace, event);
      trace := trace + [event];
    }

    /** opendir, chdir into the directory, and the line that opens it. */
    method Open(name: string, depth: nat) returns (dp: nat)
      requires Valid()
      modifies this
      ensures Valid() && trace == old(trace) + [Opened(depth)]
      ensures dp == old(handles) && handles == dp + 1 && streams == old(streams) + [dp]
      ensures closed == old(closed) && cwd == Chdir(old(cwd), name)
    {
      dp := handles;
      streams, handles := streams + [dp], handles + 1;
      cwd := Chdir(cwd, name);
      PrintMark(depth, "╚═══╤", Opened(depth));
    }

    /** The line that closes the directory, chdir back, and closedir, which closes the innermost
        stream; it must not have been closed before. */
    method Close(depth: nat, ok: bool)
      requires Valid() && streams != [] && streams[|streams| - 1] < handles
      requires streams[|streams| - 1] !in closed
      modifies this
      ensures Valid() && trace == old(trace) + [Closed(depth, ok)]
      ensures closed == old(closed) + {old(streams[|streams| - 1])} && handles == old(handles)
      ensures cwd == Chdir(old(cwd), "..")
      ensures streams == old(streams[..|streams| - 1])
    {
      PrintMark(depth + 1, "└", Closed(depth, ok));
      cwd := Chdir(cwd, "..");
      streams, closed := streams[..|streams| - 1], closed + {streams[|streams| - 1]};
    }

    /** dopath on one entry of the working directory. */
    method DoPath(e: Entry, depth: nat) returns (ret: int)
      requires Valid()
      modifies this
      ensures Valid()
      ensures trace == old(trace) + Walk(e, depth, old(cwd), |old(streams)|).0
      ensures ret == Walk(e, depth, old(cwd), |old(streams)|).1
      ensures cwd == CwdAfter(e, old(cwd))
      ensures streams == old(streams) && handles >= old(handles)
      ensures closed == old(closed) + Streams(old(handles), handles)
      decreases e, 1
    {
      PrintIndent(depth);
      if e.Lost? {
        ret := PrintInfo(e.name, NS, depth);
        return;
      }
      if e.Leaf? {
        ret := PrintInfo(e.name, F, depth);
        return;
      }
      var ignored := PrintInfo(e.name, D, depth);
      if !e.opens {
        ret := PrintInfo(e.name, DNR, depth);
        assert trace == old(trace) + Walk(e, depth, old(cwd), |old(streams)|).0;
        return;
      }
      ghost var inside := WalkAll(e.entries, depth + 1, Chdir(cwd, e.name), |streams| + 1).0;
      ret := WalkDirectory(e, depth);
      RegroupHead(old(trace), Report(D, e.name, depth, old(cwd), |old(streams)|), Opened(depth),
                  inside + [Closed(depth, e.closes)]);
    }

    /** dopath once opendir has succeeded. */
    method WalkDirectory(e: Entry, depth: nat) returns (ret: int)
      requires Valid() && e.Dir? && e.opens
      modifies this
      ensures Valid()
      ensures var (events, r) := WalkAll(e.entries, depth + 1, Chdir(old(cwd), e.name), |old(streams)| + 1);
              && trace == old(trace) + ([Opened(depth)] + (events + [Closed(depth, e.closes)]))
              && ret == if e.closes then r else -1
      ensures cwd == CwdAfter(e, old(cwd))
      ensures streams == old(streams) && handles >= old(handles)
      ensures closed == old(closed) + Streams(old(handles), handles)
      decreases e, 0
    {
      var dp := Open(e.name, depth);
      ghost var events := WalkAll(e.entries, depth + 1, cwd, |streams|).0;
      ret := ReadEntries(e.entries, depth + 1);
      Close(depth, e.closes);
      if !e.closes {
        ret := -1;
      }
      Regroup(old(trace), [Opened(depth)], events, [Closed(depth, e.closes)]);
      assert {dp} + Streams(dp + 1, handles) == Streams(dp, handles);
    }

    /** The readdir loop of dopath. */
    method ReadEntries(es: seq<Entry>, depth: nat) returns (ret: int)
      requires Valid()
      modifies this
      ensures Valid()
      ensures trace == old(trace) + WalkAll(es, depth, cwd, |streams|).0
      ensures ret == WalkAll(es, depth, cwd, |streams|).1
      ensures cwd == old(cwd) && streams == old(streams) && handles >= old(handles)
      ensures closed == old(closed) + Streams(old(handles), handles)
      decreases es, 0
    {
      ret := 0;
      var i := 0;
      ghost var all := WalkAll(es, depth, cwd, |streams|);
      assert es[0..] == es;
      assert closed == closed + Streams(handles, handles);
      assert old(trace) + all.0 == trace + all.0;
      while i < |es| && ret == 0
        invariant i <= |es|
        invariant Valid() && cwd == old(cwd) && streams == old(streams) && handles >= old(handles)
        invariant closed == old(closed) + Streams(old(handles), handles)
        invariant if ret == 0
                  then old(trace) + all.0 == trace + WalkAll(es[i..], depth, cwd, |streams|).0 &&
                       all.1 == WalkAll(es[i..], depth, cwd, |streams|).1
                  else old(trace) + all.0 == trace && all.1 == ret
      {
        ghost var rest := es[i..];
        assert rest[0] == es[i] && rest[1..] == es[i + 1..];
        if !IsDots(es[i].name) {
          ghost var trace0, handles0, closed0 := trace, handles, closed;
          ghost var more := WalkAll(rest[1..], depth, cwd, |streams|).0;
          ghost var events := Walk(es[i], depth, cwd, |streams|).0;
          ret := DoPath(es[i], depth);
          CwdRestoredExactly(es[i], old(cwd));
          StreamsConcat(old(handles), handles0, handles);
          assert closed == old(closed) + (Streams(old(handles), handles0) + Streams(handles0, handles));
          Associative(trace0, events, more);
        }
        i := i + 1;
      }
      assert ret == 0 ==> es[i..] == [] && trace + [] == trace;
    }
  }

  lemma Regroup(a: seq<Event>, b: seq<Event>, c: seq<Event>, d: seq<Event>)
    ensures a + b + c + d == a + (b + (c + d))
  {
  }

  lemma RegroupHead(a: seq<Event>, d: Event, o: Event, rest: seq<Event>)
    ensures a + [d] + ([o] + rest) == a + ([d, o] + rest)
  {
  }

  lemma LineText(text: string, indent: string, mark: string, name: string, end: string)
    ensures text + indent + (mark + name + end) == text + (indent + mark + name + end)
  {
  }

  lemma MarkText(text: string, indent: string, mark: string)
    ensures text + indent + (mark + "\n") == text + (indent + mark + "\n")
  {
  }

  lemma TextSnoc(events: seq<Event>, event: Event)
    ensures Text(events + [event]) == Text(events) + EventText(event)
  {
    TextOfConcat(events, [event]);
    assert Text([event]) == EventText(event) + Text([]);
  }
}
