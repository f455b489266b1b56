/**
 The text the walk prints, and the lines it consists of when nothing fails.
 */
module DirectoryText {
  import opened DirectoryWalk
  import opened Sequences

  // ---------- printing

  /** What print_indent prints. */
  function Indent(n: nat): (s: string)
    ensures |s| == 4 * n && forall i :: 0 <= i < |s| ==> s[i] == ' '
  {
    seq(4 * n, _ => ' ')
  }

  function FileLine(name: string, depth: nat): string {
    Indent(depth) + "│ " + name
  }

  function DirLine(name: string, depth: nat): string {
    Indent(depth) + "║ " + name + "/"
  }

  function OpenLine(depth: nat): string {
    Indent(depth) + "╚═══╤"
  }

  function CloseLine(depth: nat): string {
    Indent(depth) + "└"
  }

  /** What one event puts on standard output. A failed lstat leaves only the indentation, because
      the indentation comes first; the other failures report on standard error. */
  function EventText(event: Event): string {
    match event
    case Report(F, name, depth, _, _) => FileLine(name, depth) + "\n"
    case Report(D, name, depth, _, _) => DirLine(name, depth) + "\n"
    case Report(DNR, _, _, _, _) => ""
    case Report(NS, _, depth, _, _) => Indent(depth)
    case Opened(depth) => OpenLine(depth) + "\n"
    case Closed(depth, _) => CloseLine(depth + 1) + "\n"
  }

  predicate Spaces(s: string, from: nat, to: nat) {
    to <= |s| && forall i :: from <= i < to ==> s[i] == ' '
  }

  /** The lines character by character: four spaces for each level, the mark, and the name. */
  lemma LineShapes(name: string, depth: nat)
    ensures var l, n := FileLine(name, depth), 4 * depth;
            |l| == n + 2 + |name| && Spaces(l, 0, n) && l[n] == '│' && l[n + 1] == ' ' && l[n + 2..] == name
    ensures var l, n := DirLine(name, depth), 4 * depth;
            && |l| == n + 3 + |name| && Spaces(l, 0, n) && l[n] == '║' && l[n + 1] == ' '
            && l[n + 2..n + 2 + |name|] == name && l[n + 2 + |name|] == '/'
    ensures var l, n := OpenLine(depth), 4 * depth;
            |l| == n + 5 && Spaces(l, 0, n) && l[n..] == ['╚', '═', '═', '═', '╤']
    ensures var l, n := CloseLine(depth), 4 * depth;
            |l| == n + 1 && Spaces(l, 0, n) && l[n] == '└'
  {
  }

  /** What is printed when something fails: nothing but the indentation for a failed lstat, nothing
      for a failed opendir, and the closing line whether closedir fails or not. */
  lemma FailureTexts(name: string, depth: nat, cwd: seq<string>, open: nat, ok: bool)
    ensures EventText(Report(DNR, name, depth, cwd, open)) == ""
    ensures var t := EventText(Report(NS, name, depth, cwd, open)); |t| == 4 * depth && Spaces(t, 0, |t|)
    ensures EventText(Closed(depth, ok)) == EventText(Closed(depth, !ok))
    ensures var t, n := EventText(Closed(depth, ok)), 4 * depth + 4;
            |t| == n + 2 && Spaces(t, 0, n) && t[n] == '└' && t[n + 1] == '\n'
  {
  }

  function Text(events: seq<Event>): string {
    if events == [] then "" else EventText(events[0]) + Text(events[1..])
  }

  lemma {:induction false} TextOfConcat(a: seq<Event>, b: seq<Event>)
    ensures Text(a + b) == Text(a) + Text(b)
  {
    if a == [] {
      assert a + b == b;
    } else {
      ConcatTail(a, b);
      TextOfConcat(a[1..], b);
      Associative(EventText(a[0]), Text(a[1..]), Text(b));
    }
  }

  // ---------- trees that print completely

  /** Nothing that the walk gets to see fails, and no name contains a line break. */
  predicate Clean(e: Entry)
    decreases e, 1
  {
    '\n' !in e.name &&
    match e
    case Lost(_) => false
    case Leaf(_) => true
    case Dir(_, opens, closes, entries) => opens && closes && AllClean(entries)
  }

  predicate AllClean(es: seq<Entry>)
    decreases es, 0
  {
    es == [] || ((IsDots(es[0].name) || Clean(es[0])) && AllClean(es[1..]))
  }

  /** The tree without the "." and ".." entries the walk skips. */
  function Visible(e: Entry): Entry
    decreases e, 1
  {
    if e.Dir? then e.(entries := AllVisible(e.entries)) else e
  }

  function AllVisible(es: seq<Entry>): seq<Entry>
    decreases es, 0
  {
    if es == [] then []
    else (if IsDots(es[0].name) then [] else [Visible(es[0])]) + AllVisible(es[1..])
  }

  // ---------- the same text line by line

  /** The lines of a clean entry. */
  function Lines(e: Entry, depth: nat): seq<string>
    decreases e, 1
  {
    match e
    case Lost(_) => []
    case Leaf(name) => [FileLine(name, depth)]
    case Dir(name, _, _, entries) =>
      [DirLine(name, depth), OpenLine(depth)] + AllLines(entries, depth + 1)
  }

  /** The lines of the entries of a directory and of its end. */
  function AllLines(es: seq<Entry>, depth: nat): (lines: seq<string>)
    ensures lines != []
    decreases es, 0
  {
    if es == [] then [CloseLine(depth)]
    else (if IsDots(es[0].name) then [] else Lines(es[0], depth)) + AllLines(es[1..], depth)
  }

  function Join(lines: seq<string>): string {
    if lines == [] then "" else lines[0] + "\n" + Join(lines[1..])
  }

  lemma {:induction false} JoinOfConcat(a: seq<string>, b: seq<string>)
    ensures Join(a + b) == Join(a) + Join(b)
  {
    if a == [] {
      assert a + b == b;
    } else {
      ConcatTail(a, b);
      JoinOfConcat(a[1..], b);
      Associative(a[0] + "\n", Join(a[1..]), Join(b));
    }
  }

  /** The walk of a clean entry is complete and prints its lines. */
  lemma {:induction false} CleanText(e: Entry, depth: nat, cwd: seq<string>, open: nat)
    requires Clean(e)
    ensures Walk(e, depth, cwd, open).1 == 0
    ensures Text(Walk(e, depth, cwd, open).0) == Join(Lines(e, depth))
    decreases e, 1
  {
    match e
    case Leaf(name) =>
      var f := Report(F, name, depth, cwd, open);
      assert Text([f]) == EventText(f) + Text([]);
      assert Join([FileLine(name, depth)]) == FileLine(name, depth) + "\n" + Join([]);
    case Dir(name, _, _, entries) =>
      var inner := Chdir(cwd, name);
      var events, c := WalkAll(entries, depth + 1, inner, open + 1).0, [Closed(depth, true)];
      var d, o := Report(D, name, depth, cwd, open), Opened(depth);
      AllCleanText(entries, depth + 1, inner, open + 1, true);
      TextOfConcat([d, o], events + c);
      JoinOfConcat([DirLine(name, depth), OpenLine(depth)], AllLines(entries, depth + 1));
      HeaderText(name, depth, cwd, open);
  }

  lemma HeaderText(name: string, depth: nat, cwd: seq<string>, open: nat)
    ensures Text([Report(D, name, depth, cwd, open), Opened(depth)])
         == Join([DirLine(name, depth), OpenLine(depth)])
  {
    var d, o := Report(D, name, depth, cwd, open), Opened(depth);
    var l, m := DirLine(name, depth), OpenLine(depth);
    assert [d, o][1..] == [o] && [l, m][1..] == [m];
    assert Text([o]) == EventText(o) + Text([]) == m + "\n";
    assert Join([m]) == m + "\n" + Join([]) == m + "\n";
  }

  lemma ClosingText(depth: nat, ok: bool)
    ensures Text([Closed(depth, ok)]) == Join([CloseLine(depth + 1)])
  {
    assert Text([Closed(depth, ok)]) == EventText(Closed(depth, ok)) + Text([]);
    assert Join([CloseLine(depth + 1)]) == CloseLine(depth + 1) + "\n" + Join([]);
  }

  /** The text of one entry's events and of the rest, the closing of the directory included. */
  lemma EntryText(events: seq<Event>, more: seq<Event>, c: seq<Event>, first: seq<string>, lines: seq<string>)
    requires Text(events) == Join(first) && Text(more + c) == Join(lines)
    ensures Text(events + more + c) == Join(first + lines)
  {
    Associative(events, more, c);
    TextOfConcat(events, more + c);
    JoinOfConcat(first, lines);
  }

  /** The entries of a directory at depth - 1, followed by its closing. */
  lemma {:induction false} AllCleanText(es: seq<Entry>, depth: nat, cwd: seq<string>, open: nat, ok: bool)
    requires AllClean(es) && depth > 0
    ensures WalkAll(es, depth, cwd, open).1 == 0
    ensures Text(WalkAll(es, depth, cwd, open).0 + [Closed(depth - 1, ok)]) == Join(AllLines(es, depth))
    decreases es, 0
  {
    var c := [Closed(depth - 1, ok)];
    if es == [] {
      assert WalkAll(es, depth, cwd, open).0 + c == c;
      ClosingText(depth - 1, ok);
    } else {
      AllCleanText(es[1..], depth, cwd, open, ok);
      var more, lines := WalkAll(es[1..], depth, cwd, open).0, AllLines(es[1..], depth);
      if IsDots(es[0].name) {
        assert [] + lines == lines;
      } else {
        CleanText(es[0], depth, cwd, open);
        EntryText(Walk(es[0], depth, cwd, open).0, more, c, Lines(es[0], depth), lines);
      }
    }
  }

  /** The text of walks that fail at once: an entry that is lost leaves its indentation, and a
      directory that cannot be opened its own line and nothing more. */
  lemma FailedWalkTexts(name: string, closes: bool, es: seq<Entry>, depth: nat, cwd: seq<string>, open: nat)
    ensures Text(Walk(Lost(name), depth, cwd, open).0) == Indent(depth)
    ensures Text(Walk(Dir(name, false, closes, es), depth, cwd, open).0) == DirLine(name, depth) + "\n"
  {
    var l, d := Report(NS, name, depth, cwd, open), Report(D, name, depth, cwd, open);
    var f := Report(DNR, name, depth, cwd, open);
    assert [l][1..] == [] && [d, f][1..] == [f] && [f][1..] == [];
    assert Text([f]) == EventText(f) + Text([]) == "";
    assert Text([l]) == EventText(l) + Text([]);
    assert Text([d, f]) == EventText(d) + Text([f]);
  }
}
