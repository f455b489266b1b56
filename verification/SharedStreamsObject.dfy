/**
 The open file with its offset, the buffered streams on it, and the reading programs.
 */
module SharedStreamsObject {
  import opened Sequences
  import opened SharedStreams

  /** An open file: its contents and the offset that all streams on it share. */
  class OpenFile {
    const content: seq<char>
    var offset: nat

    constructor (content: seq<char>)
      ensures this.content == content && offset == 0
    {
      this.content := content;
      offset := 0;
    }

    ghost predicate Valid()
      reads this
    {
      offset <= |content|
    }

    function Unread(): seq<char>
      requires Valid()
      reads this
    {
      content[offset..]
    }

    /** read: as many bytes as there are, up to size. */
    method Read(size: nat) returns (block: seq<char>)
      requires Valid()
      modifies this
      ensures Valid() && block == Block(old(Unread()), size) && Unread() == Skip(old(Unread()), size)
    {
      var n := if |content| - offset <= size then |content| - offset else size;
      block := content[offset..offset + n];
      offset := offset + n;
    }
  }

  /** A stream with a buffer of its own. */
  class Stream {
    const file: OpenFile
    const size: nat
    var buf: seq<char>

    constructor (file: OpenFile, size: nat)
      ensures this.file == file && this.size == size && buf == []
    {
      this.file, this.size, buf := file, size, [];
    }

    /** fscanf of one character: 1 and the character, or -1 at the end of the file. */
    method Scan() returns (flag: int, c: char)
      requires file.Valid()
      modifies this, file
      ensures file.Valid()
      ensures var (got, rest) := Fetch(old(buf), old(file.Unread()), size);
              && buf == Tail(got) && file.Unread() == rest
              && flag == (if got == [] then -1 else 1)
              && (got != [] ==> c == got[0])
    {
      if buf == [] {
        buf := file.Read(size);
      }
      if buf == [] {
        return -1, ' ';
      }
      flag, c := 1, buf[0];
      buf := buf[1..];
    }
  }

  /** One pass of the loop: each stream delivers its next byte, if it has one. */
  method ReadRound(fs1: Stream, fs2: Stream) returns (flag1: int, flag2: int, printed: string)
    requires fs1 != fs2 && fs1.file == fs2.file && fs1.size == fs2.size && fs1.file.Valid()
    modifies fs1, fs2, fs1.file
    ensures fs1.file.Valid()
    ensures var (got1, rest1) := Fetch(old(fs1.buf), old(fs1.file.Unread()), fs1.size);
            var (got2, rest2) := Fetch(old(fs2.buf), rest1, fs1.size);
            && fs1.buf == Tail(got1) && fs2.buf == Tail(got2) && fs1.file.Unread() == rest2
            && flag1 == (if got1 == [] then -1 else 1) && flag2 == (if got2 == [] then -1 else 1)
            && printed == Head(got1) + Head(got2)
  {
    printed := "";
    var c;
    flag1, c := fs1.Scan();
    if flag1 == 1 {
      printed := printed + [c];
    }
    flag2, c := fs2.Scan();
    if flag2 == 1 {
      printed := printed + [c];
    }
  }

  /** A refill moves bytes from the file to the buffer, and fails to only at the end of the file. */
  lemma FetchAmounts(buf: seq<char>, file: seq<char>, size: nat)
    requires size > 0
    ensures var (got, rest) := Fetch(buf, file, size);
            && |got| + |rest| == |buf| + |file|
            && |Head(got)| + |Tail(got)| == |got|
            && (got == [] ==> buf == [] && rest == [] && file == [])
  {
  }

  lemma StartToPrint(content: seq<char>, size: nat)
    requires size > 0
    ensures "" + StillToPrint([], [], content[0..], size) == Output(content, size)
  {
    assert content[0..] == content;
    assert [] + Evens(content, size) == Evens(content, size);
    assert [] + Odds(content, size) == Odds(content, size);
  }

  /** How much of the loop is left: bytes first, and then the flags that are still up. */
  function BytesLeft(buf1: seq<char>, buf2: seq<char>, file: seq<char>): nat {
    |buf1| + |buf2| + |file|
  }

  /** One pass of the loop takes bytes away or finds both streams at the end. */
  lemma PassProgress(buf1: seq<char>, buf2: seq<char>, file: seq<char>, size: nat)
    requires size > 0
    ensures var (got1, file1) := Fetch(buf1, file, size); var (got2, file2) := Fetch(buf2, file1, size);
            && BytesLeft(Tail(got1), Tail(got2), file2) + |Head(got1)| + |Head(got2)| == BytesLeft(buf1, buf2, file)
            && (got1 == [] ==> Tail(got1) == [] && file2 == [])
            && (got2 == [] ==> Tail(got2) == [] && file2 == [])
  {
    FetchAmounts(buf1, file, size);
    FetchAmounts(buf2, Fetch(buf1, file, size).1, size);
  }

  /** The program with two streams read in turn; both have buffers of the same size. */
  method ReadInTurn(content: seq<char>, size: nat) returns (out: string)
    requires size > 0
    ensures out == Output(content, size)
  {
    var file := new OpenFile(content);
    var fs1 := new Stream(file, size);
    var fs2 := new Stream(file, size);
    out := "";
    var flag1, flag2 := 1, 1;
    StartToPrint(content, size);
    while flag1 == 1 || flag2 == 1
      invariant file.Valid() && fs1.file == fs2.file == file && fs1 != fs2 && fs1.size == fs2.size == size
      invariant fresh(file) && fresh(fs1) && fresh(fs2)
      invariant InStep(fs1.buf, fs2.buf, file.Unread())
      invariant out + StillToPrint(fs1.buf, fs2.buf, file.Unread(), size) == Output(content, size)
      invariant flag1 != 1 ==> fs1.buf == [] && file.Unread() == []
      invariant flag2 != 1 ==> fs2.buf == [] && file.Unread() == []
      decreases BytesLeft(fs1.buf, fs2.buf, file.Unread()),
                (if flag1 == 1 then 1 else 0) + if flag2 == 1 then 1 else 0
    {
      Round(fs1.buf, fs2.buf, file.Unread(), size);
      PassProgress(fs1.buf, fs2.buf, file.Unread(), size);
      var printed;
      flag1, flag2, printed := ReadRound(fs1, fs2);
      Associative(out, printed, StillToPrint(fs1.buf, fs2.buf, file.Unread(), size));
      out := out + printed;
    }
    assert StillToPrint<char>([], [], [], size) == [];
  }
}
