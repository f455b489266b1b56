/**
 The message log: one buffer of bytes, an index to write at and an index to read from.

 A write appends its bytes and overwrites the last one with a terminator; a show prints the
 string at the read index and moves past it, unless it is empty.
 */
module MessageLog {
  import opened Sequences

  type byte = i: int | 0 <= i < 256

  datatype Log = Log(str: seq<byte>, wi: nat, ri: nat)

  datatype Op = Write(msg: seq<byte>) | Show

  function Init(size: nat): Log {
    Log(seq(size, _ => 0), 0, 0)
  }

  /** strlen: the length of the string at the start of s. */
  function StrLen(s: seq<byte>): (n: nat)
    ensures n <= |s|
  {
    if s == [] || s[0] == 0 then 0 else StrLen(s[1..]) + 1
  }

  /** It is the position of the first zero, or the length of s if there is none. */
  lemma {:induction false} FirstZero(s: seq<byte>)
    ensures 0 !in s[..StrLen(s)]
    ensures StrLen(s) < |s| ==> s[StrLen(s)] == 0
  {
    if s != [] && s[0] != 0 {
      FirstZero(s[1..]);
      assert s[..StrLen(s)] == [s[0]] + s[1..][..StrLen(s[1..])];
    }
  }

  lemma {:induction false} ZeroInside(s: seq<byte>, i: nat)
    requires i < |s| && s[i] == 0
    ensures StrLen(s) <= i
  {
    if i > 0 && s[0] != 0 {
      ZeroInside(s[1..], i - 1);
    }
  }

  /** The write stays inside the buffer. The code does not check it; with nothing written yet even
      an empty write leaves the buffer, because its terminator goes in front of it. */
  predicate CanWrite(l: Log, count: nat) {
    l.wi + count <= |l.str| && (count > 0 || l.wi > 0)
  }

  /** The show starts inside the buffer. The code does not check it; it fails to only when the
      buffer has been written to its last byte and shown to its end. */
  predicate CanShow(l: Log) {
    l.ri < |l.str|
  }

  function AfterWrite(l: Log, msg: seq<byte>): Log
    requires CanWrite(l, |msg|)
  {
    var wi := l.wi + |msg|;
    l.(str := (l.str[..l.wi] + msg + l.str[wi..])[wi - 1 := 0], wi := wi)
  }

  /** The string the next show prints. */
  function Shown(l: Log): seq<byte> {
    if l.ri > |l.str| then [] else l.str[l.ri..][..StrLen(l.str[l.ri..])]
  }

  function AfterShow(l: Log): Log {
    var len := |Shown(l)|;
    if len != 0 then l.(ri := l.ri + len + 1) else l
  }

  // ---------- the queue in the buffer

  /** What every operation keeps: the indices are in order, everything from the write index on is
      zero, and what has been written ends in a terminator. */
  predicate Valid(l: Log) {
    && l.ri <= l.wi <= |l.str|
    && (forall i :: l.wi <= i < |l.str| ==> l.str[i] == 0)
    && (l.wi > 0 ==> l.str[l.wi - 1] == 0)
  }

  /** The strings of a terminated region. */
  function Pieces(region: seq<byte>): seq<seq<byte>>
    decreases |region|
  {
    if region == [] then []
    else
      var k := StrLen(region);
      if k == |region| then [region] else [region[..k]] + Pieces(region[k + 1..])
  }

  /** The bytes written and not yet shown. */
  function Region(l: Log): seq<byte> {
    if l.ri <= l.wi <= |l.str| then l.str[l.ri..l.wi] else []
  }

  /** The messages written and not yet shown. */
  function Queue(l: Log): seq<seq<byte>> {
    Pieces(Region(l))
  }

  predicate Terminated(region: seq<byte>) {
    region != [] ==> region[|region| - 1] == 0
  }

  lemma {:induction false} StrLenOfConcat(a: seq<byte>, b: seq<byte>)
    requires StrLen(a) < |a|
    ensures StrLen(a + b) == StrLen(a)
  {
    ConcatTail(a, b);
    if a[0] != 0 {
      StrLenOfConcat(a[1..], b);
    }
  }

  lemma CutConcat(a: seq<byte>, b: seq<byte>, k: nat)
    requires k < |a|
    ensures (a + b)[..k] == a[..k] && (a + b)[k + 1..] == a[k + 1..] + b
  {
  }

  lemma PiecesOfParts(region: seq<byte>, first: seq<byte>, rest: seq<byte>)
    requires var k := StrLen(region); k < |region| && region[..k] == first && region[k + 1..] == rest
    ensures Pieces(region) == [first] + Pieces(rest)
  {
  }

  /** The end of the first string of a terminated region is found, and what follows is terminated. */
  lemma TerminatedParts(a: seq<byte>)
    requires Terminated(a) && a != []
    ensures var k := StrLen(a); k < |a| && Terminated(a[k + 1..])
  {
    ZeroInside(a, |a| - 1);
  }

  lemma {:induction false} PiecesOfConcat(a: seq<byte>, b: seq<byte>)
    requires Terminated(a)
    ensures Pieces(a + b) == Pieces(a) + Pieces(b)
    decreases |a|
  {
    if a == [] {
      assert a + b == b;
    } else {
      TerminatedParts(a);
      var first, rest := a[..StrLen(a)], a[StrLen(a) + 1..];
      StrLenOfConcat(a, b);
      CutConcat(a, b, StrLen(a));
      PiecesOfParts(a, first, rest);
      PiecesOfParts(a + b, first, rest + b);
      PiecesOfConcat(rest, b);
      Associative([first], Pieces(rest), Pieces(b));
    }
  }

  /** The text of a write as the log keeps it: the last byte gives way to the terminator. */
  function Kept(msg: seq<byte>): seq<byte>
    requires msg != []
  {
    msg[..|msg| - 1] + [0]
  }

  /** What a write does to the bytes: the old ones, the text with its terminator, and zeros. */
  lemma WrittenBytes(l: Log, msg: seq<byte>)
    requires Valid(l) && CanWrite(l, |msg|) && msg != []
    ensures AfterWrite(l, msg).str == l.str[..l.wi] + Kept(msg) + l.str[l.wi + |msg|..]
  {
  }

  lemma WriteExtends(l: Log, msg: seq<byte>)
    requires Valid(l) && CanWrite(l, |msg|) && msg != []
    ensures Valid(AfterWrite(l, msg)) && Region(AfterWrite(l, msg)) == Region(l) + Kept(msg)
  {
    WrittenBytes(l, msg);
  }

  lemma EmptyWrite(l: Log)
    requires Valid(l) && CanWrite(l, 0)
    ensures AfterWrite(l, []) == l
  {
    assert l.str[..l.wi] + [] + l.str[l.wi..] == l.str;
    assert l.str[l.wi - 1 := 0] == l.str;
  }

  /** A write appends the strings of its text to the queue; an empty write changes nothing. */
  lemma WriteAppends(l: Log, msg: seq<byte>)
    requires Valid(l) && CanWrite(l, |msg|)
    ensures Valid(AfterWrite(l, msg))
    ensures msg == [] ==> AfterWrite(l, msg) == l
    ensures msg != [] ==> Queue(AfterWrite(l, msg)) == Queue(l) + Pieces(Kept(msg))
  {
    if msg == [] {
      EmptyWrite(l);
    } else {
      WriteExtends(l, msg);
      PiecesOfConcat(Region(l), Kept(msg));
    }
  }

  /** The string a show prints lies within the written region, and its end is found in the buffer. */
  lemma ShownInRegion(l: Log)
    requires Valid(l) && CanShow(l)
    ensures l.ri + |Shown(l)| < |l.str| && l.str[l.ri + |Shown(l)|] == 0
    ensures if Region(l) == [] then Shown(l) == []
            else StrLen(Region(l)) < |Region(l)| && Shown(l) == Region(l)[..StrLen(Region(l))]
  {
    var a, rest := Region(l), l.str[l.wi..];
    assert l.str[l.ri..] == a + rest;
    FirstZero(a + rest);
    if a != [] {
      TerminatedParts(a);
      StrLenOfConcat(a, rest);
    }
  }

  lemma ShowMovesPast(l: Log)
    requires Valid(l) && CanShow(l) && Shown(l) != []
    ensures var a, l' := Region(l), AfterShow(l); var k := StrLen(a);
            && k < |a| && Shown(l) == a[..k] && Valid(l') && Region(l') == a[k + 1..]
  {
    ShownInRegion(l);
  }

  lemma ShowMovesOn(l: Log)
    requires Valid(l) && CanShow(l) && Shown(l) != []
    ensures Valid(AfterShow(l)) && Queue(l) == [Shown(l)] + Queue(AfterShow(l))
  {
    ShowMovesPast(l);
    PiecesOfParts(Region(l), Shown(l), Region(AfterShow(l)));
  }

  /** The string a show prints is the front of the queue. */
  lemma ShownInFront(l: Log)
    requires Valid(l) && CanShow(l)
    ensures Shown(l) == if Queue(l) == [] then [] else Queue(l)[0]
  {
    ShownInRegion(l);
  }

  /** A show prints the first message of the queue and removes it; with an empty queue, or an
      empty message in front, it prints the empty string and changes nothing. */
  lemma ShowTakes(l: Log)
    requires Valid(l) && CanShow(l)
    ensures Valid(AfterShow(l))
    ensures Shown(l) == if Queue(l) == [] then [] else Queue(l)[0]
    ensures Shown(l) == [] ==> AfterShow(l) == l
    ensures Shown(l) != [] ==> Queue(AfterShow(l)) == Queue(l)[1..]
  {
    ShownInFront(l);
    if Shown(l) != [] {
      ShowMovesOn(l);
    }
  }
}
