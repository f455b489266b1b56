/**
 The log as the module keeps it: a buffer written in place and two indices.
 */
module MessageLogObject {
  import opened MessageLog
  import opened MessageLogRuns
  import opened Sequences

  /** The bytes copied in and the terminator stored over the last of them are a write. */
  lemma CopiedAndEnded(l: Log, msg: seq<byte>, copied: seq<byte>, l': Log)
    requires MessageLog.Valid(l) && CanWrite(l, |msg|)
    requires var wi := l.wi + |msg|;
             && copied == l.str[..l.wi] + msg + l.str[wi..]
             && l' == Log(copied[wi - 1 := 0], wi, l.ri)
    ensures l' == AfterWrite(l, msg) && MessageLog.Valid(l')
  {
    WriteAppends(l, msg);
  }

  class CookiePot {
    const str: array<byte>
    var writeIndex: nat
    var readIndex: nat
    var outside: bool    // an access has left the buffer; nothing is known of the module from then on

    ghost function Snapshot(): Log
      reads this, str
    {
      Log(str[..], writeIndex, readIndex)
    }

    ghost predicate Valid()
      reads this, str
    {
      !outside ==> MessageLog.Valid(Snapshot())
    }

    /** fortune_init: a zeroed buffer of the given size and both indices at its start. */
    constructor (size: nat)
      ensures fresh(str) && !outside && Snapshot() == Init(size)
      ensures Valid() && Queue(Snapshot()) == []
    {
      str := new byte[size](_ => 0);
      writeIndex, readIndex, outside := 0, 0, false;
      new;
      assert str[..] == Init(size).str;
    }

    /** copy_from_user into the buffer. */
    method CopyIn(at: nat, buffer: seq<byte>)
      modifies str, this`outside
      ensures outside == (old(outside) || at + |buffer| > str.Length)
      ensures at + |buffer| <= str.Length ==>
                str[..] == old(str[..])[..at] + buffer + old(str[..])[at + |buffer|..]
    {
      if at + |buffer| > str.Length {
        outside := true;
        return;
      }
      forall i | 0 <= i < |buffer| {
        str[at + i] := buffer[i];
      }
    }

    /** One byte of the buffer, or one next to it. */
    method Store(at: int, b: byte)
      modifies str, this`outside
      ensures outside == (old(outside) || !(0 <= at < str.Length))
      ensures 0 <= at < str.Length ==> str[..] == old(str[..])[at := b]
    {
      if 0 <= at < str.Length {
        str[at] := b;
      } else {
        outside := true;
      }
    }

    /** The string that starts at an index, without its end. */
    method ReadString(at: nat) returns (message: seq<byte>)
      requires at <= str.Length
      ensures message == str[..][at..][..StrLen(str[..][at..])]
    {
      var len := StrLen(str[at..]);
      message := str[at..at + len];
      assert str[..][at..] == str[at..];
    }

    /** my_write. */
    method Write(buffer: seq<byte>) returns (count: nat)
      requires Valid()
      modifies this, str
      ensures Valid() && count == |buffer|
      ensures !old(outside) ==> (outside <==> !CanWrite(old(Snapshot()), |buffer|))
      ensures !outside ==> !old(outside) && Snapshot() == AfterWrite(old(Snapshot()), buffer)
    {
      ghost var l := Snapshot();
      count := |buffer|;
      CopyIn(writeIndex, buffer);
      ghost var copied := str[..];
      writeIndex := writeIndex + count;
      Store(writeIndex - 1, 0);
      if !outside {
        CopiedAndEnded(l, buffer, copied, Snapshot());
      }
    }

    /** my_show: the index and the string it prints. */
    method Show() returns (index: nat, message: seq<byte>)
      requires Valid()
      modifies this
      ensures Valid() && index == old(readIndex)
      ensures !old(outside) ==> (outside <==> !CanShow(old(Snapshot())))
      ensures !outside ==> !old(outside) && message == Shown(old(Snapshot()))
      ensures !outside ==> Snapshot() == AfterShow(old(Snapshot()))
    {
      ghost var l := Snapshot();
      index, message := readIndex, [];
      if readIndex >= str.Length {
        outside := true;
        return;
      }
      message := ReadString(readIndex);
      assert message == Shown(l);
      if |message| != 0 {
        readIndex := readIndex + |message| + 1;
      }
      assert Snapshot() == AfterShow(l);
      if !outside {
        ShowTakes(l);
      }
    }

    /** One operation, and what it prints. */
    method Perform(op: Op) returns (printed: seq<seq<byte>>)
      requires Valid()
      modifies this, str
      ensures Valid()
      ensures !old(outside) ==> (outside <==> !Fits(old(Snapshot()), op))
      ensures !outside ==> !old(outside) && Snapshot() == Do(old(Snapshot()), op)
      ensures !outside ==> printed == Printed(old(Snapshot()), op)
    {
      printed := [];
      match op {
        case Write(msg) =>
          var count := Write(msg);
        case Show =>
          var index, message := Show();
          if message != [] {
            printed := [message];
          }
      }
    }
  }

  /** A run of writes and shows on a new log: it leaves the buffer exactly when the run is not
      possible, and otherwise delivers what the run does. */
  method Simulate(size: nat, ops: seq<Op>) returns (pot: CookiePot, delivered: seq<seq<byte>>)
    ensures fresh(pot) && (pot.outside <==> !Possible(Init(size), ops))
    ensures !pot.outside ==>
              pot.Snapshot() == After(Init(size), ops) && delivered == Delivered(Init(size), ops)
  {
    pot := new CookiePot(size);
    delivered := [];
    ghost var l := Init(size);
    assert ops[0..] == ops;
    for i := 0 to |ops|
      invariant fresh(pot) && fresh(pot.str) && pot.Valid()
      invariant pot.outside ==> !Possible(l, ops)
      invariant !pot.outside ==>
                  && (Possible(l, ops) <==> Possible(pot.Snapshot(), ops[i..]))
                  && After(l, ops) == After(pot.Snapshot(), ops[i..])
                  && Delivered(l, ops) == delivered + Delivered(pot.Snapshot(), ops[i..])
    {
      ghost var s, done := pot.Snapshot(), delivered;
      assert ops[i..][0] == ops[i] && ops[i..][1..] == ops[i + 1..];
      var printed := pot.Perform(ops[i]);
      delivered := delivered + printed;
      if !pot.outside {
        Associative(done, printed, Delivered(pot.Snapshot(), ops[i + 1..]));
      }
    }
    assert ops[|ops|..] == [];
  }
}
