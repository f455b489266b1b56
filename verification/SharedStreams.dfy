/**
 Two buffered streams on one open file, read in turn: what comes out.

 Both streams refill a buffer of the same size from the one offset of the open file, so the file
 is dealt out in blocks: the first stream gets blocks 0, 2, 4, ..., the second blocks 1, 3, 5, ....
 */
module SharedStreams {
  import opened Arithmetic
  import opened Sequences

  /** The next block of a file: what one refill of a buffer of the given size fetches. */
  function Block<T>(file: seq<T>, size: nat): seq<T> {
    if |file| <= size then file else file[..size]
  }

  /** The file without its next block. */
  function Skip<T>(file: seq<T>, size: nat): seq<T> {
    if |file| <= size then [] else file[size..]
  }

  /** The blocks with even numbers, and those with odd numbers, each put together. */
  function Evens<T>(file: seq<T>, size: nat): seq<T>
    requires size > 0
    decreases |file|
  {
    if file == [] then [] else Block(file, size) + Odds(Skip(file, size), size)
  }

  function Odds<T>(file: seq<T>, size: nat): seq<T>
    requires size > 0
    decreases |file|
  {
    if file == [] then [] else Evens(Skip(file, size), size)
  }

  /** Elements taken in turn from two sequences, and then what is left of one of them. */
  function InTurn<T>(a: seq<T>, b: seq<T>): seq<T>
    decreases |a| + |b|
  {
    if a == [] then b else [a[0]] + InTurn(b, a[1..])
  }

  /** What the program prints for a file. */
  function Output<T>(file: seq<T>, size: nat): seq<T>
    requires size > 0
  {
    InTurn(Evens(file, size), Odds(file, size))
  }

  // ---------- nothing is lost or doubled, and the streams stay close

  lemma {:induction false} InTurnKeeps<T>(a: seq<T>, b: seq<T>)
    ensures multiset(InTurn(a, b)) == multiset(a) + multiset(b)
    decreases |a| + |b|
  {
    if a != [] {
      InTurnKeeps(b, a[1..]);
      assert a == [a[0]] + a[1..];
    }
  }

  /** The two streams share the file between them, and the second is behind by at most a buffer. */
  lemma {:induction false} DealKeeps<T>(file: seq<T>, size: nat)
    requires size > 0
    ensures multiset(Evens(file, size)) + multiset(Odds(file, size)) == multiset(file)
    ensures |Odds(file, size)| <= |Evens(file, size)| <= |Odds(file, size)| + size
    decreases |file|
  {
    if file != [] {
      var rest := Skip(file, size);
      assert file == Block(file, size) + rest;
      DealKeeps(rest, size);
    }
  }

  /** Every byte of the file is printed exactly once. */
  lemma OutputIsPermutation<T>(file: seq<T>, size: nat)
    requires size > 0
    ensures multiset(Output(file, size)) == multiset(file)
  {
    InTurnKeeps(Evens(file, size), Odds(file, size));
    DealKeeps(file, size);
  }

  // ---------- where each byte of the file is printed

  lemma InTurnRest<T>(a: seq<T>)
    ensures InTurn(a, []) == a
  {
    if a != [] {
      assert InTurn([], a[1..]) == a[1..];
    }
  }

  lemma InTurnTwo<T>(a: seq<T>, b: seq<T>)
    requires a != [] && b != []
    ensures InTurn(a, b) == [a[0]] + ([b[0]] + InTurn(a[1..], b[1..]))
  {
    assert InTurn(b, a[1..]) == [b[0]] + InTurn(a[1..], b[1..]);
  }

  lemma InTurnAtStart<T>(a: seq<T>, b: seq<T>)
    requires a != [] && b != []
    ensures |InTurn(a, b)| == |InTurn(a[1..], b[1..])| + 2
    ensures InTurn(a, b)[0] == a[0] && InTurn(a, b)[1] == b[0]
  {
    InTurnTwo(a, b);
  }

  lemma InTurnLater<T>(a: seq<T>, b: seq<T>, j: nat)
    requires a != [] && b != [] && j < |InTurn(a[1..], b[1..])|
    ensures j + 2 < |InTurn(a, b)| && InTurn(a, b)[j + 2] == InTurn(a[1..], b[1..])[j]
  {
    var rest := InTurn(a[1..], b[1..]);
    InTurnTwo(a, b);
    BehindTwo(a[0], b[0], rest, j);
  }

  lemma {:induction false} InTurnLength<T>(a: seq<T>, b: seq<T>)
    requires |b| <= |a|
    ensures |InTurn(a, b)| == |a| + |b|
    decreases |b|
  {
    if b == [] {
      InTurnRest(a);
    } else {
      InTurnAtStart(a, b);
      InTurnLength(a[1..], b[1..]);
    }
  }

  /** As long as both have elements. */
  lemma {:induction false} InTurnBoth<T>(a: seq<T>, b: seq<T>, k: nat)
    requires k < |b| <= |a|
    ensures 2 * k + 1 < |InTurn(a, b)|
    ensures InTurn(a, b)[2 * k] == a[k] && InTurn(a, b)[2 * k + 1] == b[k]
    decreases k
  {
    if k == 0 {
      InTurnAtStart(a, b);
    } else {
      var j := 2 * (k - 1);
      InTurnBoth(a[1..], b[1..], k - 1);
      InTurnLater(a, b, j);
      InTurnLater(a, b, j + 1);
      assert j + 2 == 2 * k && j + 1 + 2 == 2 * k + 1;
    }
  }

  /** Afterwards. */
  lemma {:induction false} InTurnOne<T>(a: seq<T>, b: seq<T>, k: nat)
    requires |b| <= k < |a|
    ensures |b| + k < |InTurn(a, b)| && InTurn(a, b)[|b| + k] == a[k]
    decreases |b|
  {
    if b == [] {
      InTurnRest(a);
    } else {
      InTurnOne(a[1..], b[1..], k - 1);
      InTurnLater(a, b, |b| - 1 + (k - 1));
    }
  }

  lemma InTurnAt<T>(a: seq<T>, b: seq<T>, k: nat)
    requires |b| <= |a|
    ensures |InTurn(a, b)| == |a| + |b|
    ensures k < |b| ==> InTurn(a, b)[2 * k] == a[k] && InTurn(a, b)[2 * k + 1] == b[k]
    ensures |b| <= k < |a| ==> InTurn(a, b)[|b| + k] == a[k]
  {
    InTurnLength(a, b);
    if k < |b| {
      InTurnBoth(a, b, k);
    } else if k < |a| {
      InTurnOne(a, b, k);
    }
  }

  /** The file position of the k-th byte each stream delivers. */
  function EvenPosition(k: nat, size: nat): nat
    requires size > 0
  {
    if k < size then k else EvenPosition(k - size, size) + 2 * size
  }

  function OddPosition(k: nat, size: nat): nat
    requires size > 0
  {
    EvenPosition(k, size) + size
  }

  /** Byte k % size of block k / size of the stream, every other block of the file. */
  lemma {:induction false} PositionFormula(k: nat, size: nat)
    requires size > 0
    ensures EvenPosition(k, size) == k / size * (2 * size) + k % size
  {
    if k < size {
      DivModUnique(k, size, 0, k);
    } else {
      var q, r := (k - size) / size, (k - size) % size;
      PositionFormula(k - size, size);
      assert k == (q + 1) * size + r;
      DivModUnique(k, size, q + 1, r);
      assert (q + 1) * (2 * size) == q * (2 * size) + 2 * size;
    }
  }

  lemma SkipAt<T>(file: seq<T>, size: nat, i: nat)
    requires size > 0 && i < |Skip(file, size)|
    ensures i + size < |file| && Skip(file, size)[i] == file[i + size]
  {
  }

  lemma EvensOfOneBlock<T>(file: seq<T>, size: nat)
    requires size > 0 && |file| <= size
    ensures Evens(file, size) == file
  {
    assert Odds(Skip(file, size), size) == [];
  }

  lemma EvensOfMore<T>(file: seq<T>, size: nat)
    requires size > 0 && |file| > size
    ensures Evens(file, size) == file[..size] + Odds(Skip(file, size), size)
  {
  }

  lemma EvensParts<T>(file: seq<T>, size: nat, k: nat)
    requires size > 0 && k < |Evens(file, size)|
    ensures k < size ==> k < |file| && Evens(file, size)[k] == file[k]
    ensures k >= size ==> var rest := Skip(file, size);
              k - size < |Odds(rest, size)| && Evens(file, size)[k] == Odds(rest, size)[k - size]
  {
    if |file| <= size {
      EvensOfOneBlock(file, size);
    } else {
      EvensOfMore(file, size);
      ConcatAt(file[..size], Odds(Skip(file, size), size), k);
    }
  }

  lemma {:induction false} EvensAt<T>(file: seq<T>, size: nat, k: nat)
    requires size > 0 && k < |Evens(file, size)|
    ensures EvenPosition(k, size) < |file| && Evens(file, size)[k] == file[EvenPosition(k, size)]
    decreases |file|
  {
    EvensParts(file, size, k);
    if k >= size {
      var rest := Skip(file, size);
      OddsAt(rest, size, k - size);
      SkipAt(file, size, OddPosition(k - size, size));
    }
  }

  lemma {:induction false} OddsAt<T>(file: seq<T>, size: nat, k: nat)
    requires size > 0 && k < |Odds(file, size)|
    ensures OddPosition(k, size) < |file| && Odds(file, size)[k] == file[OddPosition(k, size)]
    decreases |file|
  {
    EvensAt(Skip(file, size), size, k);
    SkipAt(file, size, EvenPosition(k, size));
  }

  lemma OutputLength<T>(file: seq<T>, size: nat)
    requires size > 0
    ensures |Output(file, size)| == |file| == |Evens(file, size)| + |Odds(file, size)|
  {
    DealKeeps(file, size);
    InTurnAt(Evens(file, size), Odds(file, size), 0);
    assert |multiset(Evens(file, size)) + multiset(Odds(file, size))| == |multiset(file)|;
  }

  lemma OutputInTurn<T>(file: seq<T>, size: nat, k: nat)
    requires size > 0 && k < |Odds(file, size)|
    ensures EvenPosition(k, size) < |file| && OddPosition(k, size) < |file| && 2 * k + 1 < |Output(file, size)|
    ensures Output(file, size)[2 * k] == file[EvenPosition(k, size)]
    ensures Output(file, size)[2 * k + 1] == file[OddPosition(k, size)]
  {
    DealKeeps(file, size);
    InTurnAt(Evens(file, size), Odds(file, size), k);
    EvensAt(file, size, k);
    OddsAt(file, size, k);
  }

  lemma OutputAfterwards<T>(file: seq<T>, size: nat, k: nat)
    requires size > 0 && |Odds(file, size)| <= k < |Evens(file, size)|
    ensures EvenPosition(k, size) < |file| && |Odds(file, size)| + k < |Output(file, size)|
    ensures Output(file, size)[|Odds(file, size)| + k] == file[EvenPosition(k, size)]
  {
    InTurnAt(Evens(file, size), Odds(file, size), k);
    EvensAt(file, size, k);
  }

  /** The output position by position: the streams alternate as long as both have bytes, and the
      rest of the first stream follows. */
  lemma OutputAt<T>(file: seq<T>, size: nat, k: nat)
    requires size > 0 && k < |Evens(file, size)|
    ensures |Output(file, size)| == |file| == |Evens(file, size)| + |Odds(file, size)|
    ensures EvenPosition(k, size) < |file|
    ensures k < |Odds(file, size)| ==>
              && OddPosition(k, size) < |file| && 2 * k + 1 < |file|
              && Output(file, size)[2 * k] == file[EvenPosition(k, size)]
              && Output(file, size)[2 * k + 1] == file[OddPosition(k, size)]
    ensures k >= |Odds(file, size)| ==>
              Output(file, size)[|Odds(file, size)| + k] == file[EvenPosition(k, size)]
  {
    OutputLength(file, size);
    if k < |Odds(file, size)| {
      OutputInTurn(file, size, k);
    } else {
      OutputAfterwards(file, size, k);
    }
  }

  // ---------- one round of the reading loop

  /** What a stream has to read from, after a refill if its buffer is empty. */
  function Fetch<T>(buf: seq<T>, file: seq<T>, size: nat): (seq<T>, seq<T>) {
    if buf == [] then (Block(file, size), Skip(file, size)) else (buf, file)
  }

  function Head<T>(s: seq<T>): seq<T> {
    if s == [] then [] else s[..1]
  }

  function Tail<T>(s: seq<T>): seq<T> {
    if s == [] then [] else s[1..]
  }

  /** Between rounds the buffers are equally full, unless the file is used up and the second
      stream ran out first. */
  predicate InStep<T(==)>(buf1: seq<T>, buf2: seq<T>, file: seq<T>) {
    |buf1| == |buf2| || (|buf1| > |buf2| && file == [])
  }

  /** What is still to be printed when the buffers hold buf1 and buf2 and the file is unread from
      its current offset on. */
  function StillToPrint<T>(buf1: seq<T>, buf2: seq<T>, file: seq<T>, size: nat): seq<T>
    requires size > 0
  {
    InTurn(buf1 + Evens(file, size), buf2 + Odds(file, size))
  }

  /** A full deal: one block for each stream. */
  lemma TwoBlocks<T>(file: seq<T>, size: nat)
    requires size > 0
    ensures var one := Skip(file, size); var two := Skip(one, size);
            && Evens(file, size) == Block(file, size) + Evens(two, size)
            && Odds(file, size) == Block(one, size) + Odds(two, size)
  {
  }

  lemma TakeTurns<T>(x: T, a: seq<T>, h: seq<T>, b: seq<T>)
    requires |h| <= 1 && (h == [] ==> b == [])
    ensures InTurn([x] + a, h + b) == [x] + h + InTurn(a, b)
  {
    assert ([x] + a)[1..] == a;
    if h == [] {
      assert h + b == [];
      InTurnRest(a);
    } else {
      assert (h + b)[1..] == b;
      assert InTurn([x] + a, h + b) == [x] + ([h[0]] + InTurn(a, b));
    }
  }

  predicate RoundPrints<T(==)>(buf1: seq<T>, buf2: seq<T>, file: seq<T>, size: nat)
    requires size > 0
  {
    var (got1, file1) := Fetch(buf1, file, size);
    var (got2, file2) := Fetch(buf2, file1, size);
    && InStep(Tail(got1), Tail(got2), file2)
    && StillToPrint(buf1, buf2, file, size)
       == Head(got1) + Head(got2) + StillToPrint(Tail(got1), Tail(got2), file2, size)
  }

  lemma HeadTail<T>(s: seq<T>, t: seq<T>)
    ensures s + t == Head(s) + (Tail(s) + t)
  {
  }

  lemma RoundWithRefills<T>(file: seq<T>, size: nat)
    requires size > 0 && file != []
    ensures RoundPrints([], [], file, size)
  {
    var got1, file1 := Block(file, size), Skip(file, size);
    var got2, file2 := Block(file1, size), Skip(file1, size);
    var t1, t2 := Tail(got1) + Evens(file2, size), Tail(got2) + Odds(file2, size);
    TwoBlocks(file, size);
    HeadTail(got1, Evens(file2, size));
    HeadTail(got2, Odds(file2, size));
    assert [] + Odds(file, size) == Odds(file, size) && [] + Evens(file, size) == Evens(file, size);
    assert Head(got1) == [got1[0]];
    TakeTurns(got1[0], t1, Head(got2), t2);
  }

  /** Both buffers give their first byte, the second one if it has any. */
  lemma TakeFromBuffers<T>(buf1: seq<T>, buf2: seq<T>, more1: seq<T>, more2: seq<T>)
    requires buf1 != [] && (buf2 == [] ==> more2 == [])
    ensures InTurn(buf1 + more1, buf2 + more2)
         == Head(buf1) + Head(buf2) + InTurn(Tail(buf1) + more1, Tail(buf2) + more2)
  {
    HeadTail(buf1, more1);
    HeadTail(buf2, more2);
    TakeTurns(buf1[0], Tail(buf1) + more1, Head(buf2), Tail(buf2) + more2);
  }

  lemma RoundWithoutRefills<T>(buf1: seq<T>, buf2: seq<T>, file: seq<T>, size: nat)
    requires size > 0 && InStep(buf1, buf2, file) && buf1 != []
    ensures RoundPrints(buf1, buf2, file, size)
  {
    assert Fetch(buf1, file, size) == (buf1, file) && Fetch(buf2, file, size) == (buf2, file);
    TakeFromBuffers(buf1, buf2, Evens(file, size), Odds(file, size));
  }

  /** One round of the loop prints the next byte of each stream that has one. */
  lemma Round<T>(buf1: seq<T>, buf2: seq<T>, file: seq<T>, size: nat)
    requires size > 0 && InStep(buf1, buf2, file)
    ensures RoundPrints(buf1, buf2, file, size)
  {
    if buf1 != [] {
      RoundWithoutRefills(buf1, buf2, file, size);
    } else if file != [] {
      RoundWithRefills(file, size);
    }
  }
}
