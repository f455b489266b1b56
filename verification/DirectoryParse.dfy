/**
 Reading the tree back from the printed text: the output of an error-free walk determines the
 tree, and every text that reads as a tree is the output of walking that tree.
 */
module DirectoryParse {
  import opened DirectoryWalk
  import opened DirectoryText

  datatype Option<T> = None | Some(value: T)

  // ---------- lines

  function LineBreak(text: string): (k: nat)
    ensures k <= |text| && '\n' !in text[..k]
    ensures k < |text| ==> text[k] == '\n'
  {
    if text == "" || text[0] == '\n' then 0
    else
      var k := LineBreak(text[1..]);
      assert text[..k + 1] == [text[0]] + text[1..][..k];
      k + 1
  }

  /** The lines of a text in which every line is ended. */
  function Split(text: string): Option<seq<string>>
    decreases |text|
  {
    if text == "" then Some([])
    else
      var k := LineBreak(text);
      if k == |text| then None
      else match Split(text[k + 1..])
        case None => None
        case Some(lines) => Some([text[..k]] + lines)
  }

  predicate Unbroken(lines: seq<string>) {
    forall i :: 0 <= i < |lines| ==> '\n' !in lines[i]
  }

  lemma {:induction false} LineBreakAfter(l: string, rest: string)
    requires '\n' !in l
    ensures LineBreak(l + "\n" + rest) == |l|
  {
    if l != "" {
      assert (l + "\n" + rest)[1..] == l[1..] + "\n" + rest;
      LineBreakAfter(l[1..], rest);
    }
  }

  lemma TextParts(l: string, rest: string)
    ensures var text := l + "\n" + rest;
            text != "" && |l| < |text| && text[..|l|] == l && text[|l| + 1..] == rest
  {
  }

  lemma {:induction false} SplitOfJoin(lines: seq<string>)
    requires Unbroken(lines)
    ensures Split(Join(lines)) == Some(lines)
  {
    if lines != [] {
      var l, rest := lines[0], Join(lines[1..]);
      LineBreakAfter(l, rest);
      TextParts(l, rest);
      SplitOfJoin(lines[1..]);
      assert Split(l + "\n" + rest) == Some([l] + lines[1..]);
      assert [l] + lines[1..] == lines;
    }
  }

  lemma PartsText(text: string, k: nat)
    requires k < |text| && text[k] == '\n'
    ensures text == text[..k] + "\n" + text[k + 1..]
  {
  }

  lemma JoinCons(l: string, lines: seq<string>)
    ensures Join([l] + lines) == l + "\n" + Join(lines)
    ensures '\n' !in l && Unbroken(lines) ==> Unbroken([l] + lines)
  {
    assert ([l] + lines)[1..] == lines;
  }

  lemma {:induction false} JoinOfSplit(text: string)
    requires Split(text).Some?
    ensures Join(Split(text).value) == text && Unbroken(Split(text).value)
    decreases |text|
  {
    if text != "" {
      var k := LineBreak(text);
      var rest := text[k + 1..];
      JoinOfSplit(rest);
      PartsText(text, k);
      JoinCons(text[..k], Split(rest).value);
    }
  }

  // ---------- the parser

  /** What was read and what is left. */
  datatype Parsed<T> = Nothing | Got(value: T, rest: seq<string>)

  function FilePrefix(depth: nat): string {
    Indent(depth) + "│ "
  }

  function DirPrefix(depth: nat): string {
    Indent(depth) + "║ "
  }

  /** One entry at the given depth. */
  function ParseEntry(lines: seq<string>, depth: nat): (r: Parsed<Entry>)
    ensures r.Got? ==> |r.rest| < |lines|
    decreases |lines|, 0
  {
    if lines == [] then Nothing
    else
      var l, n := lines[0], 4 * depth + 2;
      if FilePrefix(depth) <= l then Got(Leaf(l[n..]), lines[1..])
      else if DirPrefix(depth) <= l && |l| > n && l[|l| - 1] == '/' && |lines| > 1 && lines[1] == OpenLine(depth) then
        match ParseEntries(lines[2..], depth + 1)
        case Nothing => Nothing
        case Got(entries, rest) => Got(Dir(l[n..|l| - 1], true, true, entries), rest)
      else Nothing
  }

  /** The entries of a directory up to its closing line. */
  function ParseEntries(lines: seq<string>, depth: nat): (r: Parsed<seq<Entry>>)
    ensures r.Got? ==> |r.rest| < |lines|
    decreases |lines|, 1
  {
    if lines == [] then Nothing
    else if lines[0] == CloseLine(depth) then Got([], lines[1..])
    else match ParseEntry(lines, depth)
      case Nothing => Nothing
      case Got(e, rest) =>
        if IsDots(e.name) then Nothing
        else match ParseEntries(rest, depth)
          case Nothing => Nothing
          case Got(es, rest') => Got([e] + es, rest')
  }

  function Parse(text: string): Option<Entry> {
    match Split(text)
    case None => None
    case Some(lines) =>
      match ParseEntry(lines, 0)
      case Nothing => None
      case Got(e, rest) => if rest == [] then Some(e) else None
  }

  // ---------- the parser reads back what is printed

  /** The character after the indentation tells the kinds of line apart. */
  lemma LineKinds(name: string, depth: nat)
    ensures FilePrefix(depth) <= FileLine(name, depth) && FileLine(name, depth)[4 * depth + 2..] == name
    ensures FileLine(name, depth) != CloseLine(depth)
    ensures DirPrefix(depth) <= DirLine(name, depth) && !(FilePrefix(depth) <= DirLine(name, depth))
    ensures var l := DirLine(name, depth);
            |l| > 4 * depth + 2 && l[|l| - 1] == '/' && l[4 * depth + 2..|l| - 1] == name
    ensures DirLine(name, depth) != CloseLine(depth)
  {
    var n, f, d, c := 4 * depth, FileLine(name, depth), DirLine(name, depth), CloseLine(depth);
    assert f[n] == '│' && d[n] == '║' && c[n] == '└';
    assert FilePrefix(depth)[n] == '│';
    assert f == FilePrefix(depth) + name;
    assert d == DirPrefix(depth) + (name + "/");
    assert d[n + 2..] == name + "/";
    assert d[n + 2..|d| - 1] == name;
  }

  lemma {:induction false} ParseOfLines(e: Entry, depth: nat, rest: seq<string>)
    requires Clean(e)
    ensures ParseEntry(Lines(e, depth) + rest, depth) == Got(Visible(e), rest)
    decreases e, 1
  {
    match e
    case Leaf(name) =>
      LineKinds(name, depth);
      assert ([FileLine(name, depth)] + rest)[1..] == rest;
    case Dir(name, _, _, entries) =>
      ParseOfAllLines(entries, depth + 1, rest);
      ParseDirectory(name, AllLines(entries, depth + 1) + rest, depth, AllVisible(entries), rest);
      DirectoryLines(e, depth, rest);
  }

  lemma DirectoryLines(e: Entry, depth: nat, rest: seq<string>)
    requires e.Dir?
    ensures Lines(e, depth) + rest ==
            [DirLine(e.name, depth), OpenLine(depth)] + (AllLines(e.entries, depth + 1) + rest)
  {
  }

  lemma ParseDirectory(name: string, inside: seq<string>, depth: nat, entries: seq<Entry>, rest: seq<string>)
    requires ParseEntries(inside, depth + 1) == Got(entries, rest)
    ensures ParseEntry([DirLine(name, depth), OpenLine(depth)] + inside, depth)
         == Got(Dir(name, true, true, entries), rest)
  {
    LineKinds(name, depth);
    var lines := [DirLine(name, depth), OpenLine(depth)] + inside;
    assert lines[0] == DirLine(name, depth) && lines[1] == OpenLine(depth) && lines[2..] == inside;
  }

  lemma {:induction false} ParseOfAllLines(es: seq<Entry>, depth: nat, rest: seq<string>)
    requires AllClean(es)
    ensures ParseEntries(AllLines(es, depth) + rest, depth) == Got(AllVisible(es), rest)
    decreases es, 0
  {
    if es == [] {
      assert (AllLines(es, depth) + rest)[1..] == rest;
    } else {
      var more := AllLines(es[1..], depth);
      ParseOfAllLines(es[1..], depth, rest);
      if IsDots(es[0].name) {
        assert [] + more == more;
        assert [] + AllVisible(es[1..]) == AllVisible(es[1..]);
      } else {
        ParseOfLines(es[0], depth, more + rest);
        ParseCons(es[0], more, depth, AllVisible(es[1..]), rest);
      }
    }
  }

  lemma ParseCons(e: Entry, more: seq<string>, depth: nat, es: seq<Entry>, rest: seq<string>)
    requires Clean(e) && !IsDots(e.name)
    requires ParseEntry(Lines(e, depth) + (more + rest), depth) == Got(Visible(e), more + rest)
    requires ParseEntries(more + rest, depth) == Got(es, rest)
    ensures ParseEntries(Lines(e, depth) + more + rest, depth) == Got([Visible(e)] + es, rest)
  {
    FirstLine(e, depth);
    var lines := Lines(e, depth) + (more + rest);
    assert lines == Lines(e, depth) + more + rest;
    assert lines != [] && lines[0] != CloseLine(depth);
    assert Visible(e).name == e.name;
  }

  lemma FirstLine(e: Entry, depth: nat)
    requires Clean(e)
    ensures Lines(e, depth) != [] && Lines(e, depth)[0] != CloseLine(depth)
  {
    LineKinds(e.name, depth);
  }

  // ---------- and nothing else

  lemma FileLineParts(l: string, depth: nat)
    requires FilePrefix(depth) <= l
    ensures l == FileLine(l[4 * depth + 2..], depth)
  {
    assert l == FilePrefix(depth) + l[4 * depth + 2..];
  }

  lemma DirLineParts(l: string, depth: nat)
    requires DirPrefix(depth) <= l && |l| > 4 * depth + 2 && l[|l| - 1] == '/'
    ensures l == DirLine(l[4 * depth + 2..|l| - 1], depth)
  {
    var n := 4 * depth + 2;
    assert l == DirPrefix(depth) + l[n..];
    assert l[n..] == l[n..|l| - 1] + "/";
  }

  lemma FirstTwo(lines: seq<string>)
    requires |lines| >= 2
    ensures lines == [lines[0], lines[1]] + lines[2..]
  {
  }

  lemma {:induction false} LinesOfParse(lines: seq<string>, depth: nat)
    requires Unbroken(lines) && ParseEntry(lines, depth).Got?
    ensures var Got(e, rest) := ParseEntry(lines, depth);
            Clean(e) && Visible(e) == e && lines == Lines(e, depth) + rest && Unbroken(rest)
    decreases |lines|, 0
  {
    var l := lines[0];
    if FilePrefix(depth) <= l {
      FileLineParts(l, depth);
      assert lines == [l] + lines[1..];
    } else {
      DirLineParts(l, depth);
      FirstTwo(lines);
      AllLinesOfParse(lines[2..], depth + 1);
      DirectoryLines(ParseEntry(lines, depth).value, depth, ParseEntry(lines, depth).rest);
    }
  }

  lemma {:induction false} AllLinesOfParse(lines: seq<string>, depth: nat)
    requires Unbroken(lines) && ParseEntries(lines, depth).Got?
    ensures var Got(es, rest) := ParseEntries(lines, depth);
            AllClean(es) && AllVisible(es) == es && lines == AllLines(es, depth) + rest && Unbroken(rest)
    decreases |lines|, 1
  {
    if lines[0] == CloseLine(depth) {
      assert lines == [CloseLine(depth)] + lines[1..];
    } else {
      var Got(e, rest) := ParseEntry(lines, depth);
      LinesOfParse(lines, depth);
      AllLinesOfParse(rest, depth);
      AllLinesCons(e, ParseEntries(rest, depth).value, depth, ParseEntries(rest, depth).rest);
    }
  }

  lemma AllLinesCons(e: Entry, es: seq<Entry>, depth: nat, rest: seq<string>)
    requires !IsDots(e.name)
    ensures AllLines([e] + es, depth) + rest == Lines(e, depth) + (AllLines(es, depth) + rest)
    ensures AllVisible([e] + es) == [Visible(e)] + AllVisible(es)
    ensures AllClean([e] + es) <==> Clean(e) && AllClean(es)
  {
    assert ([e] + es)[1..] == es;
  }

  // ---------- round trips

  lemma {:induction false} LinesAreUnbroken(e: Entry, depth: nat)
    requires Clean(e)
    ensures Unbroken(Lines(e, depth))
    decreases e, 1
  {
    if e.Dir? {
      AllLinesAreUnbroken(e.entries, depth + 1);
    }
  }

  lemma {:induction false} AllLinesAreUnbroken(es: seq<Entry>, depth: nat)
    requires AllClean(es)
    ensures Unbroken(AllLines(es, depth))
    decreases es, 0
  {
    if es != [] {
      AllLinesAreUnbroken(es[1..], depth);
      if !IsDots(es[0].name) {
        LinesAreUnbroken(es[0], depth);
      }
    }
  }

  lemma CleanReadsBack(e: Entry, cwd: seq<string>, open: nat)
    requires Clean(e)
    ensures Parse(Text(Walk(e, 0, cwd, open).0)) == Some(Visible(e))
  {
    CleanText(e, 0, cwd, open);
    LinesAreUnbroken(e, 0);
    SplitOfJoin(Lines(e, 0));
    ParseOfLines(e, 0, []);
    assert Lines(e, 0) + [] == Lines(e, 0);
  }

  /** A text reads as a tree exactly when it is what the walk prints for that tree. */
  lemma ParseExactly(text: string, e: Entry, cwd: seq<string>, open: nat)
    ensures Parse(text) == Some(e) <==>
              Clean(e) && Visible(e) == e && text == Text(Walk(e, 0, cwd, open).0)
  {
    if Parse(text) == Some(e) {
      var lines := Split(text).value;
      JoinOfSplit(text);
      LinesOfParse(lines, 0);
      CleanText(e, 0, cwd, open);
      assert Lines(e, 0) + [] == Lines(e, 0);
    }
    if Clean(e) && Visible(e) == e {
      CleanReadsBack(e, cwd, open);
    }
  }

  /** What is not visible cannot make a tree unclean. */
  lemma {:induction false} VisibleClean(e: Entry)
    ensures Clean(Visible(e)) <==> Clean(e)
    decreases e, 1
  {
    if e.Dir? {
      AllVisibleClean(e.entries);
    }
  }

  lemma {:induction false} AllVisibleClean(es: seq<Entry>)
    ensures AllClean(AllVisible(es)) <==> AllClean(es)
    decreases es, 0
  {
    if es != [] {
      AllVisibleClean(es[1..]);
      if IsDots(es[0].name) {
        assert AllVisible(es) == AllVisible(es[1..]);
      } else {
        VisibleClean(es[0]);
        assert AllVisible(es)[1..] == AllVisible(es[1..]);
      }
    }
  }

  /** What the walk prints reads back as the tree exactly when nothing the walk gets to see fails
      and no name contains a line break. */
  lemma RoundTrip(e: Entry, cwd: seq<string>, open: nat)
    ensures Parse(Text(Walk(e, 0, cwd, open).0)) == Some(Visible(e)) <==> Clean(e)
  {
    if Clean(e) {
      CleanReadsBack(e, cwd, open);
    } else {
      ParseExactly(Text(Walk(e, 0, cwd, open).0), Visible(e), cwd, open);
      VisibleClean(e);
    }
  }
}
