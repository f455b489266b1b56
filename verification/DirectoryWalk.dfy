/**
 The recursive directory walk: what it visits, prints and returns, as functions of the tree.

 The tree is what the file system would answer: whether lstat, opendir and closedir succeed and
 what readdir lists, in its order and with the entries "." and ".." wherever it lists them.
 Names are single path components.
 */
module DirectoryWalk {
  import opened Sequences

  datatype Entry =
    | Lost(name: string)                       // lstat fails
    | Leaf(name: string)                       // anything but a directory, symbolic links included
    | Dir(name: string, opens: bool, closes: bool, entries: seq<Entry>)

  datatype Kind = F | D | DNR | NS

  /** What the walk does that can be observed: a call of the reporting function, with the working
      directory and the number of streams open at that time, or the opening or closing of a stream. */
  datatype Event =
    | Report(kind: Kind, name: string, depth: nat, cwd: seq<string>, open: nat)
    | Opened(depth: nat)
    | Closed(depth: nat, ok: bool)
  {
    /** The event makes the walk return -1. */
    predicate Fails() {
      match this
      case Report(k, _, _, _, _) => k == NS || k == DNR
      case Opened(_) => false
      case Closed(_, ok) => !ok
    }
  }

  predicate IsDots(name: string) {
    name == "." || name == ".."
  }

  /** chdir to a single component. */
  function Chdir(cwd: seq<string>, name: string): seq<string> {
    if name == "." then cwd
    else if name == ".." then (if cwd == [] then [] else cwd[..|cwd| - 1])
    else cwd + [name]
  }

  // ---------- the walk

  /** The events of dopath on one entry and its return value. */
  function Walk(e: Entry, depth: nat, cwd: seq<string>, open: nat): (r: (seq<Event>, int))
    decreases e, 1
  {
    match e
    case Lost(name) => ([Report(NS, name, depth, cwd, open)], -1)
    case Leaf(name) => ([Report(F, name, depth, cwd, open)], 0)
    case Dir(name, opens, closes, entries) =>
      var d := Report(D, name, depth, cwd, open);
      if !opens then ([d, Report(DNR, name, depth, cwd, open)], -1)
      else
        var (events, ret) := WalkAll(entries, depth + 1, Chdir(cwd, name), open + 1);
        ([d, Opened(depth)] + (events + [Closed(depth, closes)]), if closes then ret else -1)
  }

  /** The readdir loop: entries in order, dots skipped, stopping at the first that fails. */
  function WalkAll(es: seq<Entry>, depth: nat, cwd: seq<string>, open: nat): (r: (seq<Event>, int))
    decreases es, 0
  {
    if es == [] then ([], 0)
    else if IsDots(es[0].name) then WalkAll(es[1..], depth, cwd, open)
    else
      var (events, ret) := Walk(es[0], depth, cwd, open);
      if ret != 0 then (events, ret)
      else
        var (more, ret') := WalkAll(es[1..], depth, cwd, open);
        (events + more, ret')
  }

  // ---------- the specification: the whole tree in preorder, as if nothing were ever cut short

  function Full(e: Entry, depth: nat, cwd: seq<string>, open: nat): seq<Event>
    decreases e, 1
  {
    match e
    case Lost(name) => [Report(NS, name, depth, cwd, open)]
    case Leaf(name) => [Report(F, name, depth, cwd, open)]
    case Dir(name, opens, closes, entries) =>
      var d := Report(D, name, depth, cwd, open);
      if !opens then [d, Report(DNR, name, depth, cwd, open)]
      else
        var inside := FullAll(entries, depth + 1, Chdir(cwd, name), open + 1);
        [d, Opened(depth)] + (inside + [Closed(depth, closes)])
  }

  function FullAll(es: seq<Entry>, depth: nat, cwd: seq<string>, open: nat): seq<Event>
    decreases es, 0
  {
    if es == [] then []
    else (if IsDots(es[0].name) then [] else Full(es[0], depth, cwd, open)) + FullAll(es[1..], depth, cwd, open)
  }

  /** The position of the first failing event, or the length if none fails. */
  function FirstFailure(events: seq<Event>): (k: nat)
    ensures k <= |events|
  {
    if events == [] then 0
    else if events[0].Fails() then 0
    else 1 + FirstFailure(events[1..])
  }

  lemma {:induction false} FirstFails(events: seq<Event>)
    ensures var k := FirstFailure(events); k < |events| ==> events[k].Fails()
    ensures forall i :: 0 <= i < FirstFailure(events) ==> !events[i].Fails()
  {
    if events != [] && !events[0].Fails() {
      FirstFails(events[1..]);
      forall i | 0 < i < FirstFailure(events)
        ensures !events[i].Fails()
      {
        assert events[i] == events[1..][i - 1];
      }
    }
  }

  /** Only closings, one for each depth from just above the failing event up to the base. */
  predicate Unwinds(events: seq<Event>, depth: nat, base: nat) {
    && |events| == depth - base
    && forall i :: 0 <= i < |events| ==> events[i].Closed? && events[i].depth == depth - 1 - i
  }

  /** The events are full up to position k, and then the closings for the failure there. */
  predicate CutAt(full: seq<Event>, events: seq<Event>, k: nat, base: nat) {
    && k < |full| && k < |events| && events[..k + 1] == full[..k + 1]
    && Unwinds(events[k + 1..], full[k].depth, base)
  }

  /** events is full cut off after its first failure, with the directories open there closed
      innermost first; the result is 0 exactly when nothing failed, and -1 otherwise. */
  predicate CutOff(full: seq<Event>, events: seq<Event>, ret: int, base: nat) {
    var k := FirstFailure(full);
    if k == |full| then events == full && ret == 0
    else ret == -1 && CutAt(full, events, k, base)
  }

  lemma {:induction false} FirstFailureOfConcat(a: seq<Event>, b: seq<Event>)
    ensures FirstFailure(a + b) ==
            if FirstFailure(a) < |a| then FirstFailure(a) else |a| + FirstFailure(b)
  {
    if a == [] {
      assert a + b == b;
    } else {
      assert (a + b)[1..] == a[1..] + b;
      FirstFailureOfConcat(a[1..], b);
    }
  }

  lemma ConcatSlices(a: seq<Event>, b: seq<Event>, k: nat)
    requires k <= |b|
    ensures (a + b)[..|a| + k] == a + b[..k] && (a + b)[|a| + k..] == b[k..]
    ensures k < |b| ==> (a + b)[|a| + k] == b[k]
  {
  }

  lemma CutAtPrefix(pre: seq<Event>, full: seq<Event>, events: seq<Event>, k: nat, base: nat)
    requires CutAt(full, events, k, base)
    ensures CutAt(pre + full, pre + events, |pre| + k, base)
  {
    ConcatSlices(pre, full, k);
    ConcatSlices(pre, full, k + 1);
    ConcatSlices(pre, events, k + 1);
  }

  lemma CutOffAt(full: seq<Event>, events: seq<Event>, k: nat, base: nat)
    requires k == FirstFailure(full) && CutAt(full, events, k, base)
    ensures CutOff(full, events, -1, base)
  {
  }

  lemma FailedPrefix(pre: seq<Event>, full: seq<Event>, events: seq<Event>, k: nat, base: nat)
    requires k == FirstFailure(full) && CutAt(full, events, k, base)
    requires FirstFailure(pre) == |pre|
    ensures CutOff(pre + full, pre + events, -1, base)
  {
    FirstFailureOfConcat(pre, full);
    CutAtPrefix(pre, full, events, k, base);
    CutOffAt(pre + full, pre + events, |pre| + k, base);
  }

  lemma WholePrefix(pre: seq<Event>, full: seq<Event>, base: nat)
    requires FirstFailure(full) == |full| && FirstFailure(pre) == |pre|
    ensures CutOff(pre + full, pre + full, 0, base)
  {
    FirstFailureOfConcat(pre, full);
  }

  /** Putting the same harmless events in front of both changes nothing. */
  lemma CutOffPrefix(pre: seq<Event>, full: seq<Event>, events: seq<Event>, ret: int, base: nat)
    requires CutOff(full, events, ret, base)
    requires FirstFailure(pre) == |pre|
    ensures CutOff(pre + full, pre + events, ret, base)
  {
    var k := FirstFailure(full);
    if k < |full| {
      FailedPrefix(pre, full, events, k, base);
    } else {
      WholePrefix(pre, full, base);
    }
  }

  /** What follows in the full traversal does not matter once something has failed. */
  lemma CutOffSuffix(full: seq<Event>, more: seq<Event>, events: seq<Event>, ret: int, base: nat)
    requires CutOff(full, events, ret, base) && ret != 0
    ensures CutOff(full + more, events, ret, base)
  {
    FirstFailureOfConcat(full, more);
    var k := FirstFailure(full);
    assert (full + more)[..k + 1] == full[..k + 1];
  }

  /** Closing the directory around a list of entries. */
  lemma CutOffClose(full: seq<Event>, events: seq<Event>, ret: int, depth: nat, ok: bool)
    requires CutOff(full, events, ret, depth + 1)
    ensures CutOff(full + [Closed(depth, ok)], events + [Closed(depth, ok)], if ok then ret else -1, depth)
  {
    var c := Closed(depth, ok);
    FirstFailureOfConcat(full, [c]);
    var k := FirstFailure(full);
    if k < |full| {
      assert (events + [c])[..k + 1] == events[..k + 1];
      assert (full + [c])[..k + 1] == full[..k + 1];
      assert (events + [c])[k + 1..] == events[k + 1..] + [c];
      DepthAtLeast(full, events, ret, depth + 1);
    } else {
      assert (full + [c])[..|full| + 1] == full + [c];
    }
  }

  lemma DepthAtLeast(full: seq<Event>, events: seq<Event>, ret: int, base: nat)
    requires CutOff(full, events, ret, base) && ret != 0
    ensures full[FirstFailure(full)].depth >= base
  {
  }

  lemma CutOffDirectory(name: string, closes: bool, depth: nat, cwd: seq<string>, open: nat,
                        full: seq<Event>, events: seq<Event>, ret: int)
    requires CutOff(full, events, ret, depth + 1)
    ensures var pre, c := [Report(D, name, depth, cwd, open), Opened(depth)], [Closed(depth, closes)];
            CutOff(pre + (full + c), pre + (events + c), if closes then ret else -1, depth)
  {
    var pre, c := [Report(D, name, depth, cwd, open), Opened(depth)], [Closed(depth, closes)];
    CutOffClose(full, events, ret, depth, closes);
    assert FirstFailure(pre) == 2 by {
      assert pre[1..] == [Opened(depth)];
    }
    CutOffPrefix(pre, full + c, events + c, if closes then ret else -1, depth);
  }

  lemma CutOffUnreadable(name: string, depth: nat, cwd: seq<string>, open: nat)
    ensures var events := [Report(D, name, depth, cwd, open), Report(DNR, name, depth, cwd, open)];
            CutOff(events, events, -1, depth)
  {
    var d, f := Report(D, name, depth, cwd, open), Report(DNR, name, depth, cwd, open);
    assert [d, f][1..] == [f];
    assert FirstFailure([d, f]) == 1;
    assert [d, f][2..] == [];
  }

  lemma {:induction false} WalkIsCutOff(e: Entry, depth: nat, cwd: seq<string>, open: nat)
    ensures CutOff(Full(e, depth, cwd, open), Walk(e, depth, cwd, open).0, Walk(e, depth, cwd, open).1, depth)
    decreases e, 1
  {
    match e
    case Lost(name) =>
    case Leaf(name) =>
    case Dir(name, opens, closes, entries) =>
      if opens {
        OpenDirectoryIsCutOff(e, depth, cwd, open);
      } else {
        CutOffUnreadable(name, depth, cwd, open);
      }
  }

  lemma {:induction false} OpenDirectoryIsCutOff(e: Entry, depth: nat, cwd: seq<string>, open: nat)
    requires e.Dir? && e.opens
    ensures CutOff(Full(e, depth, cwd, open), Walk(e, depth, cwd, open).0, Walk(e, depth, cwd, open).1, depth)
    decreases e, 0
  {
    var inner := Chdir(cwd, e.name);
    var (events, ret) := WalkAll(e.entries, depth + 1, inner, open + 1);
    var full := FullAll(e.entries, depth + 1, inner, open + 1);
    WalkAllIsCutOff(e.entries, depth + 1, inner, open + 1);
    CutOffDirectory(e.name, e.closes, depth, cwd, open, full, events, ret);
  }

  /** The loop over the entries of one directory, and with it the whole walk, is the preorder
      traversal cut off at the first failure. */
  lemma {:induction false} WalkAllIsCutOff(es: seq<Entry>, depth: nat, cwd: seq<string>, open: nat)
    ensures CutOff(FullAll(es, depth, cwd, open),
                   WalkAll(es, depth, cwd, open).0, WalkAll(es, depth, cwd, open).1, depth)
    decreases es, 0
  {
    if es != [] {
      var rest := FullAll(es[1..], depth, cwd, open);
      if IsDots(es[0].name) {
        WalkAllIsCutOff(es[1..], depth, cwd, open);
        assert [] + rest == rest;
      } else {
        var (events, ret) := Walk(es[0], depth, cwd, open);
        var full := Full(es[0], depth, cwd, open);
        WalkIsCutOff(es[0], depth, cwd, open);
        if ret != 0 {
          CutOffSuffix(full, rest, events, ret, depth);
        } else {
          WalkAllIsCutOff(es[1..], depth, cwd, open);
          var (more, ret') := WalkAll(es[1..], depth, cwd, open);
          CutOffPrefix(full, rest, more, ret', depth);
        }
      }
    }
  }

  // ---------- what is reported, and from where

  function Reports(events: seq<Event>): seq<Event> {
    if events == [] then []
    else (if events[0].Report? then [events[0]] else []) + Reports(events[1..])
  }

  lemma {:induction false} ReportsOfConcat(a: seq<Event>, b: seq<Event>)
    ensures Reports(a + b) == Reports(a) + Reports(b)
  {
    if a == [] {
      assert a + b == b;
    } else {
      var head := if a[0].Report? then [a[0]] else [];
      assert (a + b)[1..] == a[1..] + b;
      ReportsOfConcat(a[1..], b);
      assert head + (Reports(a[1..]) + Reports(b)) == head + Reports(a[1..]) + Reports(b);
    }
  }

  lemma {:induction false} NoReports(events: seq<Event>)
    requires forall i :: 0 <= i < |events| ==> !events[i].Report?
    ensures Reports(events) == []
  {
    if events != [] {
      NoReports(events[1..]);
    }
  }

  function UpToFailure(full: seq<Event>): seq<Event> {
    var k := FirstFailure(full);
    if k < |full| then full[..k + 1] else full
  }

  /** The reporting function is called for exactly the entries up to and including the first
      failure, each as often as the full traversal calls it; the walk returns 0 or -1, and 0
      exactly when no lstat, opendir or closedir in the whole tree fails. */
  lemma ReportedUpToFailure(e: Entry, depth: nat, cwd: seq<string>, open: nat)
    ensures var full, (events, ret) := Full(e, depth, cwd, open), Walk(e, depth, cwd, open);
            && Reports(events) == Reports(UpToFailure(full))
            && (ret == 0 || ret == -1)
            && (ret == 0 <==> forall i :: 0 <= i < |full| ==> !full[i].Fails())
  {
    var full := Full(e, depth, cwd, open);
    var (events, ret) := Walk(e, depth, cwd, open);
    var k := FirstFailure(full);
    FirstFails(full);
    WalkIsCutOff(e, depth, cwd, open);
    if k < |full| {
      assert events == events[..k + 1] + events[k + 1..];
      ReportsOfConcat(events[..k + 1], events[k + 1..]);
      NoReports(events[k + 1..]);
    }
  }

  /** Every report is made from the directory of the entry, as deep below the start as its
      indentation says, with one stream open for each directory in between. */
  predicate Located(event: Event, depth: nat, cwd: seq<string>, open: nat) {
    event.depth >= depth &&
    (event.Report? ==>
       && cwd <= event.cwd && |event.cwd| - |cwd| == event.depth - depth
       && event.open - open == event.depth - depth)
  }

  predicate AllLocated(events: seq<Event>, depth: nat, cwd: seq<string>, open: nat) {
    forall i :: 0 <= i < |events| ==> Located(events[i], depth, cwd, open)
  }

  lemma {:induction false} FullIsLocated(e: Entry, depth: nat, cwd: seq<string>, open: nat)
    requires !IsDots(e.name)
    ensures AllLocated(Full(e, depth, cwd, open), depth, cwd, open)
    decreases e, 1
  {
    if e.Dir? && e.opens {
      var inner := FullAll(e.entries, depth + 1, Chdir(cwd, e.name), open + 1);
      FullAllIsLocated(e.entries, depth + 1, Chdir(cwd, e.name), open + 1);
      forall i | 0 <= i < |Full(e, depth, cwd, open)|
        ensures Located(Full(e, depth, cwd, open)[i], depth, cwd, open)
      {
        if 2 <= i < 2 + |inner| {
          assert Full(e, depth, cwd, open)[i] == inner[i - 2];
        }
      }
    }
  }

  lemma {:induction false} FullAllIsLocated(es: seq<Entry>, depth: nat, cwd: seq<string>, open: nat)
    ensures AllLocated(FullAll(es, depth, cwd, open), depth, cwd, open)
    decreases es, 0
  {
    if es != [] {
      FullAllIsLocated(es[1..], depth, cwd, open);
      if !IsDots(es[0].name) {
        FullIsLocated(es[0], depth, cwd, open);
      }
    }
  }

  lemma CutOffIsLocated(full: seq<Event>, events: seq<Event>, ret: int, depth: nat, cwd: seq<string>, open: nat)
    requires CutOff(full, events, ret, depth) && AllLocated(full, depth, cwd, open)
    ensures AllLocated(events, depth, cwd, open)
  {
    var k := FirstFailure(full);
    if k < |full| {
      forall i | 0 <= i < |events|
        ensures Located(events[i], depth, cwd, open)
      {
        if i <= k {
          assert events[i] == events[..k + 1][i] == full[..k + 1][i] == full[i];
        } else {
          assert events[i] == events[k + 1..][i - k - 1];
        }
      }
    }
  }

  /** Every event of the walk is located: what it reports, it reports from the directory of the
      entry, with one stream open for each directory in between. */
  lemma WalkIsLocated(e: Entry, depth: nat, cwd: seq<string>, open: nat)
    requires !IsDots(e.name)
    ensures AllLocated(Walk(e, depth, cwd, open).0, depth, cwd, open)
  {
    var (events, ret) := Walk(e, depth, cwd, open);
    FullIsLocated(e, depth, cwd, open);
    WalkIsCutOff(e, depth, cwd, open);
    CutOffIsLocated(Full(e, depth, cwd, open), events, ret, depth, cwd, open);
  }

  /** The same for the loop over the entries of a directory, whatever their names. */
  lemma WalkAllIsLocated(es: seq<Entry>, depth: nat, cwd: seq<string>, open: nat)
    ensures AllLocated(WalkAll(es, depth, cwd, open).0, depth, cwd, open)
  {
    var (events, ret) := WalkAll(es, depth, cwd, open);
    FullAllIsLocated(es, depth, cwd, open);
    WalkAllIsCutOff(es, depth, cwd, open);
    CutOffIsLocated(FullAll(es, depth, cwd, open), events, ret, depth, cwd, open);
  }

  // ---------- which entries are reported, as what, and from which directory

  /** An entry and the directory it is listed in. */
  datatype Node = Node(e: Entry, dir: seq<string>)

  /** The entries the traversal comes to: an entry, and after an opened directory what it lists
      except "." and "..", each in the directory named by the names above it. */
  function Nodes(e: Entry, dir: seq<string>): seq<Node>
    decreases e, 1
  {
    [Node(e, dir)] + if e.Dir? && e.opens then AllNodes(e.entries, dir + [e.name]) else []
  }

  function AllNodes(es: seq<Entry>, dir: seq<string>): seq<Node>
    decreases es, 0
  {
    if es == [] then []
    else (if es[0].name in [".", ".."] then [] else Nodes(es[0], dir)) + AllNodes(es[1..], dir)
  }

  /** How many levels a directory is below one whose path has base names. */
  function Below(dir: seq<string>, base: nat): nat {
    if |dir| >= base then |dir| - base else 0
  }

  /** What is reported of one entry: its kind, and of a directory that cannot be opened that too;
      as many levels deeper than base, and with as many more streams open, as its directory is. */
  function ReportsOf(n: Node, base: nat, depth: nat, open: nat): seq<Event> {
    var d, o := depth + Below(n.dir, base), open + Below(n.dir, base);
    match n.e
    case Lost(name) => [Report(NS, name, d, n.dir, o)]
    case Leaf(name) => [Report(F, name, d, n.dir, o)]
    case Dir(name, opens, _, _) =>
      [Report(D, name, d, n.dir, o)] + if opens then [] else [Report(DNR, name, d, n.dir, o)]
  }

  function AllReportsOf(nodes: seq<Node>, base: nat, depth: nat, open: nat): seq<Event> {
    if nodes == [] then []
    else ReportsOf(nodes[0], base, depth, open) + AllReportsOf(nodes[1..], base, depth, open)
  }

  lemma {:induction false} AllReportsOfConcat(a: seq<Node>, b: seq<Node>, base: nat, depth: nat, open: nat)
    ensures AllReportsOf(a + b, base, depth, open)
         == AllReportsOf(a, base, depth, open) + AllReportsOf(b, base, depth, open)
  {
    if a == [] {
      assert a + b == b;
    } else {
      ConcatTail(a, b);
      AllReportsOfConcat(a[1..], b, base, depth, open);
      Associative(ReportsOf(a[0], base, depth, open), AllReportsOf(a[1..], base, depth, open),
                  AllReportsOf(b, base, depth, open));
    }
  }

  lemma OneReport(n: Node, base: nat, depth: nat, open: nat)
    ensures AllReportsOf([n], base, depth, open) == ReportsOf(n, base, depth, open)
  {
    assert [n][1..] == [];
  }

  lemma SameReports(events: seq<Event>)
    requires forall i :: 0 <= i < |events| ==> events[i].Report?
    ensures |events| == 1 || |events| == 2 ==> Reports(events) == events
  {
    if |events| == 1 {
      assert Reports(events) == [events[0]] + Reports([]);
    } else if |events| == 2 {
      assert events[1..] == [events[1]];
      assert Reports([events[1]]) == [events[1]] + Reports([]);
    }
  }

  lemma ReportsOfDirectory(d: Event, inside: seq<Event>, depth: nat, ok: bool)
    requires d.Report?
    ensures Reports([d, Opened(depth)] + (inside + [Closed(depth, ok)])) == [d] + Reports(inside)
  {
    var c := [Closed(depth, ok)];
    assert [d, Opened(depth)] == [d] + [Opened(depth)];
    SameReports([d]);
    NoReports([Opened(depth)]);
    NoReports(c);
    ReportsOfConcat([d], [Opened(depth)]);
    ReportsOfConcat(inside, c);
    ReportsOfConcat([d, Opened(depth)], inside + c);
  }

  /** Events that report some entries, followed by events that report others. */
  lemma ReportsJoin(a: seq<Event>, b: seq<Event>, m: seq<Node>, n: seq<Node>, base: nat, depth: nat, open: nat)
    requires Reports(a) == AllReportsOf(m, base, depth, open) && Reports(b) == AllReportsOf(n, base, depth, open)
    ensures Reports(a + b) == AllReportsOf(m + n, base, depth, open)
  {
    ReportsOfConcat(a, b);
    AllReportsOfConcat(m, n, base, depth, open);
  }

  lemma FirstOfDirectory(e: Entry, cwd: seq<string>, n: seq<Node>, base: nat, depth: nat, open: nat)
    requires e.Dir? && e.opens
    ensures AllReportsOf([Node(e, cwd)] + n, base, depth, open)
         == [Report(D, e.name, depth + Below(cwd, base), cwd, open + Below(cwd, base))]
            + AllReportsOf(n, base, depth, open)
  {
    var d := Report(D, e.name, depth + Below(cwd, base), cwd, open + Below(cwd, base));
    assert ReportsOf(Node(e, cwd), base, depth, open) == [d];
    OneReport(Node(e, cwd), base, depth, open);
    AllReportsOfConcat([Node(e, cwd)], n, base, depth, open);
  }

  lemma ReportsOfOther(e: Entry, cwd: seq<string>, base: nat, depth: nat, open: nat)
    requires !(e.Dir? && e.opens)
    ensures Reports(Full(e, depth + Below(cwd, base), cwd, open + Below(cwd, base)))
         == AllReportsOf(Nodes(e, cwd), base, depth, open)
  {
    SameReports(Full(e, depth + Below(cwd, base), cwd, open + Below(cwd, base)));
    assert Nodes(e, cwd) == [Node(e, cwd)];
    OneReport(Node(e, cwd), base, depth, open);
  }

  lemma DirectoryReports(e: Entry, cwd: seq<string>, base: nat, depth: nat, open: nat)
    requires e.Dir? && e.opens && !IsDots(e.name) && |cwd| >= base
    requires var inner := cwd + [e.name];
             Reports(FullAll(e.entries, depth + Below(inner, base), inner, open + Below(inner, base)))
             == AllReportsOf(AllNodes(e.entries, inner), base, depth, open)
    ensures Reports(Full(e, depth + Below(cwd, base), cwd, open + Below(cwd, base)))
         == AllReportsOf(Nodes(e, cwd), base, depth, open)
  {
    var d, o, inner := depth + Below(cwd, base), open + Below(cwd, base), cwd + [e.name];
    ReportsOfDirectory(Report(D, e.name, d, cwd, o), FullAll(e.entries, d + 1, inner, o + 1), d, e.closes);
    FirstOfDirectory(e, cwd, AllNodes(e.entries, inner), base, depth, open);
  }

  /** The full traversal reports the entries in preorder, each from the directory named by the
      names above it, and at the depth of that directory. */
  lemma {:induction false} FullReports(e: Entry, cwd: seq<string>, base: nat, depth: nat, open: nat)
    requires !IsDots(e.name) && |cwd| >= base
    ensures Reports(Full(e, depth + Below(cwd, base), cwd, open + Below(cwd, base)))
         == AllReportsOf(Nodes(e, cwd), base, depth, open)
    decreases e, 1
  {
    if e.Dir? && e.opens {
      FullAllReports(e.entries, cwd + [e.name], base, depth, open);
      DirectoryReports(e, cwd, base, depth, open);
    } else {
      ReportsOfOther(e, cwd, base, depth, open);
    }
  }

  lemma EntrySkipped(es: seq<Entry>, depth: nat, cwd: seq<string>, open: nat)
    requires es != [] && IsDots(es[0].name)
    ensures FullAll(es, depth, cwd, open) == FullAll(es[1..], depth, cwd, open)
    ensures AllNodes(es, cwd) == AllNodes(es[1..], cwd)
  {
  }

  lemma EntryTaken(es: seq<Entry>, depth: nat, cwd: seq<string>, open: nat)
    requires es != [] && !IsDots(es[0].name)
    ensures FullAll(es, depth, cwd, open) == Full(es[0], depth, cwd, open) + FullAll(es[1..], depth, cwd, open)
    ensures AllNodes(es, cwd) == Nodes(es[0], cwd) + AllNodes(es[1..], cwd)
  {
  }

  lemma NothingReported(cwd: seq<string>, base: nat, depth: nat, open: nat)
    ensures Reports(FullAll([], depth, cwd, open)) == AllReportsOf(AllNodes([], cwd), base, depth, open)
  {
  }

  lemma {:induction false} FullAllReports(es: seq<Entry>, cwd: seq<string>, base: nat, depth: nat, open: nat)
    requires |cwd| >= base
    ensures Reports(FullAll(es, depth + Below(cwd, base), cwd, open + Below(cwd, base)))
         == AllReportsOf(AllNodes(es, cwd), base, depth, open)
    decreases es, 1
  {
    var d, o := depth + Below(cwd, base), open + Below(cwd, base);
    if es == [] {
      NothingReported(cwd, base, depth, open);
    } else if IsDots(es[0].name) {
      EntrySkipped(es, d, cwd, o);
      FullAllReports(es[1..], cwd, base, depth, open);
    } else {
      TakenReports(es, cwd, base, depth, open);
    }
  }

  lemma {:induction false} TakenReports(es: seq<Entry>, cwd: seq<string>, base: nat, depth: nat, open: nat)
    requires |cwd| >= base && es != [] && !IsDots(es[0].name)
    ensures Reports(FullAll(es, depth + Below(cwd, base), cwd, open + Below(cwd, base)))
         == AllReportsOf(AllNodes(es, cwd), base, depth, open)
    decreases es, 0
  {
    var d, o := depth + Below(cwd, base), open + Below(cwd, base);
    EntryTaken(es, d, cwd, o);
    FullReports(es[0], cwd, base, depth, open);
    FullAllReports(es[1..], cwd, base, depth, open);
    ReportsJoin(Full(es[0], d, cwd, o), FullAll(es[1..], d, cwd, o),
                Nodes(es[0], cwd), AllNodes(es[1..], cwd), base, depth, open);
  }

  lemma {:induction false} ReportsOfPrefix(full: seq<Event>, k: nat)
    requires k <= |full|
    ensures Reports(full[..k]) <= Reports(full)
  {
    assert full == full[..k] + full[k..];
    ReportsOfConcat(full[..k], full[k..]);
  }

  lemma {:induction false} HarmlessReports(events: seq<Event>)
    requires forall i :: 0 <= i < |events| ==> !events[i].Fails()
    ensures forall i :: 0 <= i < |Reports(events)| ==> !Reports(events)[i].Fails()
  {
    if events != [] {
      HarmlessReports(events[1..]);
    }
  }

  /** Up to the first failure no report but the last stands for one. */
  lemma LastReportFails(full: seq<Event>)
    ensures var reports := Reports(UpToFailure(full));
            && reports <= Reports(full)
            && forall i :: 0 <= i < |reports| - 1 ==> !reports[i].Fails()
  {
    var k := FirstFailure(full);
    FirstFails(full);
    HarmlessReports(full[..k]);
    if k < |full| {
      ReportsOfPrefix(full, k + 1);
      assert full[..k + 1] == full[..k] + [full[k]];
      ReportsOfConcat(full[..k], [full[k]]);
      assert [full[k]][1..] == [];
    } else {
      assert full[..k] == full;
    }
  }

  /** What the walk reports: the entries in preorder, each as what it is, from the directory named
      by the start and the names above it, as deep and with as many streams open as those are;
      all of them when the result is 0, and otherwise up to the failure, which is the last report
      or the closing of a directory. */
  lemma WalkReports(e: Entry, depth: nat, cwd: seq<string>, open: nat)
    requires !IsDots(e.name)
    ensures var all := AllReportsOf(Nodes(e, cwd), |cwd|, depth, open);
            var (events, ret) := Walk(e, depth, cwd, open);
            && Reports(events) <= all
            && (ret == 0 ==> Reports(events) == all)
            && forall i :: 0 <= i < |Reports(events)| - 1 ==> !Reports(events)[i].Fails()
  {
    var full := Full(e, depth, cwd, open);
    assert Below(cwd, |cwd|) == 0;
    FullReports(e, cwd, |cwd|, depth, open);
    ReportedUpToFailure(e, depth, cwd, open);
    LastReportFails(full);
    if Walk(e, depth, cwd, open).1 == 0 {
      FirstFails(full);
    }
  }

  // ---------- the working directory

  /** Where a walk leaves the process: opened directories are entered and left again by "..". */
  function CwdAfter(e: Entry, cwd: seq<string>): seq<string> {
    if e.Dir? && e.opens then Chdir(Chdir(cwd, e.name), "..") else cwd
  }

  /** The working directory is restored exactly when no directory was entered, or it was entered
      under a proper name, or the walk started at the root. */
  lemma CwdRestoredExactly(e: Entry, cwd: seq<string>)
    ensures CwdAfter(e, cwd) == cwd <==> !(e.Dir? && e.opens) || !IsDots(e.name) || cwd == []
  {
    if e.Dir? && e.opens && !IsDots(e.name) {
      assert (cwd + [e.name])[..|cwd|] == cwd;
    }
  }

  /** What chdir does: a proper name goes down to it and ".." comes back, "." and ".." at the root stay. */
  lemma ChdirLaws(cwd: seq<string>, name: string)
    ensures Chdir(cwd, ".") == cwd && Chdir([], "..") == []
    ensures name !in [".", ".."] ==>
              |Chdir(cwd, name)| == |cwd| + 1 && cwd <= Chdir(cwd, name) && Chdir(cwd, name)[|cwd|] == name
    ensures Chdir(cwd + [name], "..") == cwd
  {
    assert (cwd + [name])[..|cwd|] == cwd;
  }
}
