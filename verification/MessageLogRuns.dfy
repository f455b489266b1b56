/**
 Runs of the message log: what any mixture of writes and shows delivers, and exactly when that
 is what was written, in the order in which it was written.
 */
module MessageLogRuns {
  import opened MessageLog
  import opened Sequences

  // ---------- any mixture of writes and shows

  /** The operation stays inside the buffer. */
  predicate Fits(l: Log, op: Op) {
    match op
    case Write(msg) => CanWrite(l, |msg|)
    case Show => CanShow(l)
  }

  function Do(l: Log, op: Op): Log {
    match op
    case Write(msg) => if CanWrite(l, |msg|) then AfterWrite(l, msg) else l
    case Show => AfterShow(l)
  }

  function After(l: Log, ops: seq<Op>): Log
    decreases ops
  {
    if ops == [] then l else After(Do(l, ops[0]), ops[1..])
  }

  /** The whole run stays inside the buffer. */
  predicate Possible(l: Log, ops: seq<Op>)
    decreases ops
  {
    ops == [] || (Fits(l, ops[0]) && Possible(Do(l, ops[0]), ops[1..]))
  }

  /** What an operation prints, an empty string left out. */
  function Printed(l: Log, op: Op): seq<seq<byte>> {
    if op.Show? && Shown(l) != [] then [Shown(l)] else []
  }

  function Delivered(l: Log, ops: seq<Op>): seq<seq<byte>>
    decreases ops
  {
    if ops == [] then [] else Printed(l, ops[0]) + Delivered(Do(l, ops[0]), ops[1..])
  }

  lemma DoValid(l: Log, op: Op)
    requires Valid(l) && Fits(l, op)
    ensures Valid(Do(l, op))
  {
    match op
    case Write(msg) => WriteAppends(l, msg);
    case Show => ShowTakes(l);
  }

  // ---------- what is delivered is what was queued and what is written

  /** The strings that an operation adds to the queue. */
  function Strings(op: Op): seq<seq<byte>> {
    if op.Write? && op.msg != [] then Pieces(Kept(op.msg)) else []
  }

  function AllStrings(ops: seq<Op>): seq<seq<byte>> {
    if ops == [] then [] else Strings(ops[0]) + AllStrings(ops[1..])
  }

  lemma Nil<T>(a: seq<T>)
    ensures [] + a == a + [] == a
  {
  }

  lemma StringsOfWrite(l: Log, msg: seq<byte>)
    requires Valid(l) && CanWrite(l, |msg|)
    ensures Queue(AfterWrite(l, msg)) == Queue(l) + Strings(Write(msg))
  {
    WriteAppends(l, msg);
    Nil(Queue(l));
  }

  lemma StringsOfShow(l: Log)
    requires Valid(l) && CanShow(l)
    ensures Printed(l, Show) + Queue(AfterShow(l)) == Queue(l)
  {
    Nil(Queue(l));
    if Shown(l) != [] {
      ShowMovesOn(l);
    }
  }

  lemma StringsStep(l: Log, op: Op)
    requires Valid(l) && Fits(l, op)
    ensures Printed(l, op) + Queue(Do(l, op)) == Queue(l) + Strings(op)
  {
    match op
    case Write(msg) =>
      StringsOfWrite(l, msg);
      Nil(Queue(l) + Strings(op));
    case Show =>
      StringsOfShow(l);
      Nil(Queue(l));
  }

  lemma Chain<T>(p: seq<T>, q': seq<T>, q: seq<T>, t: seq<T>, d: seq<T>, end: seq<T>, w: seq<T>)
    requires p + q' == q + t && d + end == q' + w
    ensures p + d + end == q + (t + w)
  {
    assert p + d + end == p + (d + end) == p + q' + w == q + t + w;
  }

  /** In every run, what was delivered followed by what is queued at the end is what was queued at
      the start followed by the strings of all texts written. */
  lemma {:induction false} FirstInFirstOut(l: Log, ops: seq<Op>)
    requires Valid(l) && Possible(l, ops)
    ensures Delivered(l, ops) + Queue(After(l, ops)) == Queue(l) + AllStrings(ops)
    ensures Valid(After(l, ops))
    decreases ops
  {
    if ops == [] {
      assert [] + Queue(l) == Queue(l) + [];
    } else {
      var l' := Do(l, ops[0]);
      DoValid(l, ops[0]);
      StringsStep(l, ops[0]);
      FirstInFirstOut(l', ops[1..]);
      Chain(Printed(l, ops[0]), Queue(l'), Queue(l), Strings(ops[0]),
            Delivered(l', ops[1..]), Queue(After(l, ops)), AllStrings(ops[1..]));
    }
  }

  // ---------- exactly which runs stay inside the buffer

  function Total(ops: seq<Op>): nat {
    if ops == [] then 0 else (if ops[0].Write? then |ops[0].msg| else 0) + Total(ops[1..])
  }

  /** No empty write comes before the first one with bytes. */
  predicate StartsWithBytes(ops: seq<Op>) {
    ops == [] || (if ops[0].Show? then StartsWithBytes(ops[1..]) else ops[0].msg != [])
  }

  /** What a show leaves of a queue. */
  function Rest(queue: seq<seq<byte>>): seq<seq<byte>>
    requires queue != []
  {
    if queue[0] == [] then queue else queue[1..]
  }

  /** Every show finds room behind what is written, or a string that is not shown yet: a condition
      on the texts, with the strings queued and the room left at the start. */
  predicate ShowsInside(queue: seq<seq<byte>>, room: int, ops: seq<Op>)
    decreases ops
  {
    ops == [] ||
    match ops[0]
    case Write(msg) => ShowsInside(queue + Strings(ops[0]), room - |msg|, ops[1..])
    case Show =>
      if queue == [] then room > 0 && ShowsInside([], room, ops[1..])
      else ShowsInside(Rest(queue), room, ops[1..])
  }

  /** The bytes not written to. */
  function Room(l: Log): int {
    |l.str| - l.wi
  }

  lemma RoomToShow(l: Log)
    requires Valid(l)
    ensures CanShow(l) <==> Room(l) > 0 || Queue(l) != []
  {
  }

  lemma ShowRoom(l: Log)
    requires Valid(l) && CanShow(l)
    ensures Valid(AfterShow(l)) && Room(AfterShow(l)) == Room(l)
    ensures Queue(AfterShow(l)) == if Queue(l) == [] then [] else Rest(Queue(l))
  {
    ShowTakes(l);
  }

  lemma WriteRoom(l: Log, op: Op)
    requires Valid(l) && op.Write? && CanWrite(l, |op.msg|)
    ensures var l' := AfterWrite(l, op.msg);
            && Valid(l') && Room(l') == Room(l) - |op.msg| && l'.wi > 0
            && Queue(l') == Queue(l) + Strings(op)
  {
    WriteAppends(l, op.msg);
    StringsOfWrite(l, op.msg);
  }

  /** The log has been written to before or the first write is not empty, the bytes of all writes
      fit, and no show comes when the buffer is written to its last byte and all of it is shown. */
  predicate RoomFor(queue: seq<seq<byte>>, room: int, started: bool, ops: seq<Op>) {
    (started || StartsWithBytes(ops)) && Total(ops) <= room && ShowsInside(queue, room, ops)
  }

  lemma RoomForShow(queue: seq<seq<byte>>, room: int, started: bool, ops: seq<Op>)
    requires ops != [] && ops[0].Show?
    ensures RoomFor(queue, room, started, ops) <==>
              if queue == [] then room > 0 && RoomFor([], room, started, ops[1..])
              else RoomFor(Rest(queue), room, started, ops[1..])
  {
  }

  lemma RoomForWrite(queue: seq<seq<byte>>, queue': seq<seq<byte>>, room: int, room': int,
                     started: bool, ops: seq<Op>)
    requires ops != [] && ops[0].Write? && (started || ops[0].msg != [])
    requires queue' == queue + Strings(ops[0]) && room' == room - |ops[0].msg|
    ensures RoomFor(queue, room, started, ops) <==> RoomFor(queue', room', true, ops[1..])
  {
  }

  lemma NothingInside(l: Log)
    requires Valid(l)
    ensures Possible(l, []) && RoomFor(Queue(l), Room(l), l.wi > 0, [])
  {
  }

  lemma NoRoomForWrite(l: Log, ops: seq<Op>)
    requires Valid(l) && ops != [] && ops[0].Write? && !CanWrite(l, |ops[0].msg|)
    ensures !Possible(l, ops) && !RoomFor(Queue(l), Room(l), l.wi > 0, ops)
  {
    assert |ops[0].msg| > Room(l) ==> Total(ops) > Room(l);
  }

  lemma NoRoomForShow(l: Log, ops: seq<Op>)
    requires Valid(l) && ops != [] && ops[0].Show? && !CanShow(l)
    ensures !Possible(l, ops) && !RoomFor(Queue(l), Room(l), l.wi > 0, ops)
  {
    RoomToShow(l);
  }

  lemma PossibleCons(l: Log, ops: seq<Op>)
    requires ops != []
    ensures Possible(l, ops) <==> Fits(l, ops[0]) && Possible(Do(l, ops[0]), ops[1..])
  {
  }

  lemma RoomAfterWrite(l: Log, ops: seq<Op>)
    requires Valid(l) && ops != [] && ops[0].Write? && CanWrite(l, |ops[0].msg|)
    ensures var l', rest := AfterWrite(l, ops[0].msg), ops[1..];
            RoomFor(Queue(l), Room(l), l.wi > 0, ops) <==> RoomFor(Queue(l'), Room(l'), l'.wi > 0, rest)
  {
    var l' := AfterWrite(l, ops[0].msg);
    WriteRoom(l, ops[0]);
    RoomForWrite(Queue(l), Queue(l'), Room(l), Room(l'), l.wi > 0, ops);
    assert l'.wi > 0;
  }

  lemma RoomAfterShow(l: Log, ops: seq<Op>)
    requires Valid(l) && ops != [] && ops[0].Show? && CanShow(l)
    ensures var l', rest := AfterShow(l), ops[1..];
            RoomFor(Queue(l), Room(l), l.wi > 0, ops) <==> RoomFor(Queue(l'), Room(l'), l'.wi > 0, rest)
  {
    RoomForShow(Queue(l), Room(l), l.wi > 0, ops);
    RoomToShow(l);
    ShowRoom(l);
  }

  /** After an operation that fits, both sides speak of the rest of the run. */
  lemma RoomAfterFirst(l: Log, ops: seq<Op>)
    requires Valid(l) && ops != [] && Fits(l, ops[0])
    ensures var l', rest := Do(l, ops[0]), ops[1..];
            RoomFor(Queue(l), Room(l), l.wi > 0, ops) <==> RoomFor(Queue(l'), Room(l'), l'.wi > 0, rest)
  {
    if ops[0].Show? {
      RoomAfterShow(l, ops);
    } else {
      RoomAfterWrite(l, ops);
    }
  }

  lemma NoRoom(l: Log, ops: seq<Op>)
    requires Valid(l) && ops != [] && !Fits(l, ops[0])
    ensures !Possible(l, ops) && !RoomFor(Queue(l), Room(l), l.wi > 0, ops)
  {
    match ops[0]
    case Write(_) => NoRoomForWrite(l, ops);
    case Show => NoRoomForShow(l, ops);
  }

  /** A run stays inside the buffer exactly when there is room for its operations. */
  lemma {:induction false} RoomExactly(l: Log, ops: seq<Op>)
    requires Valid(l)
    ensures Possible(l, ops) <==> RoomFor(Queue(l), Room(l), l.wi > 0, ops)
    decreases ops
  {
    if ops == [] {
      NothingInside(l);
    } else if Fits(l, ops[0]) {
      DoValid(l, ops[0]);
      RoomAfterFirst(l, ops);
      PossibleCons(l, ops);
      RoomExactly(Do(l, ops[0]), ops[1..]);
    } else {
      NoRoom(l, ops);
    }
  }

  /** On a new log all of its size is room, and nothing is queued. */
  lemma NewLogRoom(size: nat, ops: seq<Op>)
    ensures Possible(Init(size), ops) <==> RoomFor([], size, false, ops)
  {
    RoomExactly(Init(size), ops);
  }

  /** A buffer of two bytes, written to its last byte: the first show takes all of it, and the
      second one reads behind the buffer. */
  lemma ShowBehindTheBuffer()
    ensures var l, write := Init(2), Write([65, 66]);
            Possible(l, [write, Show]) && !Possible(l, [write, Show, Show])
  {
    var l, write := Init(2), Write([65, 66]);
    var l1 := AfterWrite(l, write.msg);
    assert l1.str == [65, 0];
    assert Shown(l1) == [65] by {
      assert l1.str[0..] == [65, 0] && [65, 0][1..] == [0];
    }
    assert AfterShow(l1).ri == 2;
    assert [write, Show][1..] == [Show] && [write, Show, Show][1..] == [Show, Show] && [Show, Show][1..] == [Show];
    assert Possible(AfterShow(l1), []);
    assert Possible(l1, [Show]) && !Possible(AfterShow(l1), [Show]);
  }

  // ---------- exactly when the strings are the texts

  /** The text an operation writes: the message without its last byte. */
  function Text(op: Op): seq<seq<byte>> {
    if op.Write? && op.msg != [] then [op.msg[..|op.msg| - 1]] else []
  }

  function Written(ops: seq<Op>): seq<seq<byte>> {
    if ops == [] then [] else Text(ops[0]) + Written(ops[1..])
  }

  predicate ZeroFree(texts: seq<seq<byte>>) {
    forall i :: 0 <= i < |texts| ==> 0 !in texts[i]
  }

  lemma ZeroFreeConcat(a: seq<seq<byte>>, b: seq<seq<byte>>)
    ensures ZeroFree(a + b) <==> ZeroFree(a) && ZeroFree(b)
  {
    if ZeroFree(a + b) {
      forall i | 0 <= i < |a| ensures 0 !in a[i] {
        assert (a + b)[i] == a[i];
      }
      forall i | 0 <= i < |b| ensures 0 !in b[i] {
        assert (a + b)[|a| + i] == b[i];
      }
    }
  }

  lemma {:induction false} StrLenOfText(text: seq<byte>)
    requires 0 !in text
    ensures StrLen(text + [0]) == |text|
  {
    if text != [] {
      assert (text + [0])[1..] == text[1..] + [0];
      StrLenOfText(text[1..]);
    }
  }

  /** A text without zeros is kept as one string. */
  lemma OnePiece(msg: seq<byte>)
    requires msg != [] && 0 !in msg[..|msg| - 1]
    ensures Pieces(Kept(msg)) == [msg[..|msg| - 1]]
  {
    var text := msg[..|msg| - 1];
    StrLenOfText(text);
    assert (text + [0])[..|text|] == text && (text + [0])[|text| + 1..] == [];
  }

  lemma {:induction false} NoZeroInPieces(region: seq<byte>)
    ensures ZeroFree(Pieces(region))
    decreases |region|
  {
    if region != [] {
      var k := StrLen(region);
      FirstZero(region);
      if k < |region| {
        NoZeroInPieces(region[k + 1..]);
      } else {
        assert region[..k] == region;
      }
    }
  }

  lemma {:induction false} NoZeroInStrings(ops: seq<Op>)
    ensures ZeroFree(AllStrings(ops))
  {
    if ops != [] {
      if Strings(ops[0]) != [] {
        NoZeroInPieces(Kept(ops[0].msg));
      }
      NoZeroInStrings(ops[1..]);
      ZeroFreeConcat(Strings(ops[0]), AllStrings(ops[1..]));
    }
  }

  lemma {:induction false} StringsAreTexts(ops: seq<Op>)
    requires ZeroFree(Written(ops))
    ensures AllStrings(ops) == Written(ops)
  {
    if ops != [] {
      ZeroFreeConcat(Text(ops[0]), Written(ops[1..]));
      if Text(ops[0]) != [] {
        assert 0 !in Text(ops[0])[0];
        OnePiece(ops[0].msg);
      }
      StringsAreTexts(ops[1..]);
    }
  }

  /** In a run of writes and shows in any order, what was delivered and what is still queued are what
      was queued before and the texts written, in order, exactly when no text contains a zero byte. */
  lemma InOrderExactly(l: Log, ops: seq<Op>)
    requires Valid(l) && Possible(l, ops)
    ensures Delivered(l, ops) + Queue(After(l, ops)) == Queue(l) + Written(ops) <==> ZeroFree(Written(ops))
  {
    var q, strings, texts := Queue(l), AllStrings(ops), Written(ops);
    FirstInFirstOut(l, ops);
    if ZeroFree(texts) {
      StringsAreTexts(ops);
    } else {
      NoZeroInStrings(ops);
      assert (q + strings)[|q|..] == strings && (q + texts)[|q|..] == texts;
    }
  }

  // ---------- exactly when everything gets through

  function ShowTimes(n: nat): seq<Op> {
    if n == 0 then [] else [Show] + ShowTimes(n - 1)
  }

  /** What n shows print, empty strings included. */
  function Shows(l: Log, n: nat): seq<seq<byte>>
    decreases n
  {
    if n == 0 then [] else [Shown(l)] + Shows(AfterShow(l), n - 1)
  }

  /** What n shows print from a queue: its messages up to the first empty one, and then nothing. */
  function FromQueue(queue: seq<seq<byte>>, n: nat): (shown: seq<seq<byte>>)
    ensures |shown| == n
    decreases n
  {
    if n == 0 then []
    else if queue == [] || queue[0] == [] then [[]] + FromQueue(queue, n - 1)
    else [queue[0]] + FromQueue(queue[1..], n - 1)
  }

  lemma QueueMeansRoom(l: Log)
    requires Valid(l) && Queue(l) != []
    ensures CanShow(l)
  {
    assert Region(l) != [];
  }

  lemma ShownFirst(l: Log, queue: seq<seq<byte>>)
    requires Valid(l) && queue == Queue(l) && queue != []
    ensures CanShow(l) && Shown(l) == queue[0] && Valid(AfterShow(l))
    ensures Queue(AfterShow(l)) == if queue[0] == [] then queue else queue[1..]
  {
    QueueMeansRoom(l);
    ShowTakes(l);
  }

  /** A log serves n shows from a queue: each prints the message in front. */
  predicate Serves(l: Log, queue: seq<seq<byte>>, n: nat)
    decreases n
  {
    n == 0 ||
    (queue != [] && CanShow(l) && Shown(l) == queue[0] &&
     Serves(AfterShow(l), if queue[0] == [] then queue else queue[1..], n - 1))
  }

  lemma ServesCons(l: Log, next: Log, queue: seq<seq<byte>>, rest: seq<seq<byte>>, n: nat)
    requires n > 0 && queue != [] && CanShow(l) && Shown(l) == queue[0] && next == AfterShow(l)
    requires rest == (if queue[0] == [] then queue else queue[1..]) && Serves(next, rest, n - 1)
    ensures Serves(l, queue, n)
  {
  }

  lemma ServesNothing(l: Log, queue: seq<seq<byte>>)
    ensures Serves(l, queue, 0)
  {
  }

  lemma {:induction false} QueueServes(l: Log, queue: seq<seq<byte>>, n: nat)
    requires Valid(l) && queue == Queue(l) && n <= |queue|
    ensures Serves(l, queue, n)
    decreases n
  {
    if n == 0 {
      ServesNothing(l, queue);
    } else {
      QueueServesNext(l, queue, n);
    }
  }

  /** The log has a message: it serves one show, and then the rest. */
  lemma {:induction false} QueueServesNext(l: Log, queue: seq<seq<byte>>, n: nat)
    requires Valid(l) && queue == Queue(l) && 0 < n <= |queue|
    ensures Serves(l, queue, n)
    decreases n, 0
  {
    var next, rest := AfterShow(l), if queue[0] == [] then queue else queue[1..];
    ShownFirst(l, queue);
    QueueServes(next, rest, n - 1);
    ServesCons(l, next, queue, rest, n);
  }

  /** As many shows as there are messages in the queue stay inside the buffer and print from it. */
  lemma {:induction false} ServedShows(l: Log, queue: seq<seq<byte>>, n: nat)
    requires Serves(l, queue, n)
    ensures Shows(l, n) == FromQueue(queue, n) && Possible(l, ShowTimes(n))
    decreases n
  {
    if n > 0 {
      ServedShows(AfterShow(l), if queue[0] == [] then queue else queue[1..], n - 1);
      assert ShowTimes(n)[1..] == ShowTimes(n - 1);
    }
  }

  /** No message with a text comes after one without. */
  predicate NoneBehindEmpty(texts: seq<seq<byte>>) {
    forall i, j :: 0 <= i < j < |texts| && texts[i] == [] ==> texts[j] == []
  }

  lemma BehindFirst(queue: seq<seq<byte>>)
    requires queue != [] && queue[0] != []
    ensures NoneBehindEmpty(queue) <==> NoneBehindEmpty(queue[1..])
  {
    var rest := queue[1..];
    if NoneBehindEmpty(rest) {
      forall i, j | 0 <= i < j < |queue| && queue[i] == []
        ensures queue[j] == []
      {
        assert rest[i - 1] == queue[i] && rest[j - 1] == queue[j];
      }
    }
  }

  /** Messages with a text in front make no difference. */
  lemma {:induction false} BehindTexts(front: seq<seq<byte>>, queue: seq<seq<byte>>)
    requires [] !in front
    ensures NoneBehindEmpty(front + queue) <==> NoneBehindEmpty(queue)
  {
    if front == [] {
      assert front + queue == queue;
    } else {
      assert (front + queue)[1..] == front[1..] + queue;
      BehindFirst(front + queue);
      BehindTexts(front[1..], queue);
    }
  }

  lemma {:induction false} OnlyEmptiesFollow(queue: seq<seq<byte>>, n: nat)
    requires queue == [] || queue[0] == []
    ensures forall i :: 0 <= i < n ==> FromQueue(queue, n)[i] == []
  {
    if n > 0 {
      OnlyEmptiesFollow(queue, n - 1);
    }
  }

  lemma {:induction false} QueueShownInFull(queue: seq<seq<byte>>)
    ensures FromQueue(queue, |queue|) == queue <==> NoneBehindEmpty(queue)
  {
    if queue != [] {
      var shown, rest := FromQueue(queue, |queue|), queue[1..];
      if queue[0] == [] {
        OnlyEmptiesFollow(queue, |queue|);
        if !NoneBehindEmpty(queue) {
          var i, j :| 0 <= i < j < |queue| && queue[i] == [] && queue[j] != [];
          assert shown[j] != queue[j];
        }
      } else {
        QueueShownInFull(rest);
        assert shown[1..] == FromQueue(rest, |rest|) && queue == [queue[0]] + rest;
        BehindFirst(queue);
      }
    }
  }

  lemma {:induction false} NoZeroShown(queue: seq<seq<byte>>, n: nat)
    requires ZeroFree(queue)
    ensures ZeroFree(FromQueue(queue, n))
    decreases n
  {
    if n > 0 {
      NoZeroShown(if queue == [] || queue[0] == [] then queue else queue[1..], n - 1);
    }
  }

  lemma {:induction false} NothingEmptyDelivered(l: Log, ops: seq<Op>)
    ensures [] !in Delivered(l, ops)
    decreases ops
  {
    if ops != [] {
      NothingEmptyDelivered(Do(l, ops[0]), ops[1..]);
    }
  }

  lemma {:induction false} EveryTextIsKept(ops: seq<Op>)
    ensures |Written(ops)| <= |AllStrings(ops)|
  {
    if ops != [] {
      EveryTextIsKept(ops[1..]);
    }
  }

  /** How many shows a run still owes for what was queued and written. */
  function Owed(l: Log, ops: seq<Op>): nat {
    var due, done := |Queue(l)| + |Written(ops)|, |Delivered(l, ops)|;
    if done <= due then due - done else 0
  }

  /** The shows that a run still owes print from its queue, and they stay inside the buffer. */
  lemma OwedShows(l: Log, ops: seq<Op>)
    requires Valid(l) && Possible(l, ops)
    ensures var end, n := After(l, ops), Owed(l, ops);
            && n <= |Queue(end)| && Possible(end, ShowTimes(n))
            && Shows(end, n) == FromQueue(Queue(end), n)
    ensures ZeroFree(Delivered(l, ops) + Shows(After(l, ops), Owed(l, ops)))
  {
    var end, n, done := After(l, ops), Owed(l, ops), Delivered(l, ops);
    FirstInFirstOut(l, ops);
    EveryTextIsKept(ops);
    assert |done| + |Queue(end)| == |Queue(l)| + |AllStrings(ops)| by {
      assert |done + Queue(end)| == |Queue(l) + AllStrings(ops)|;
    }
    QueueServes(end, Queue(end), n);
    ServedShows(end, Queue(end), n);
    NoZeroInQueue(l);
    NoZeroInStrings(ops);
    ZeroFreeConcat(Queue(l), AllStrings(ops));
    ZeroFreeConcat(done, Queue(end));
    NoZeroShown(Queue(end), n);
    ZeroFreeConcat(done, Shows(end, n));
  }

  lemma NoZeroInQueue(l: Log)
    ensures ZeroFree(Queue(l))
  {
    NoZeroInPieces(Region(l));
  }

  /** After a run of writes and shows in any order, one show for each message still owed completes
      the output to what was queued and written, in order, exactly when no text written contains
      a zero byte and no non-empty message, queued or written, comes behind an empty one. */
  lemma DeliveredExactly(l: Log, ops: seq<Op>)
    requires Valid(l) && Possible(l, ops)
    ensures Possible(After(l, ops), ShowTimes(Owed(l, ops)))
    ensures Delivered(l, ops) + Shows(After(l, ops), Owed(l, ops)) == Queue(l) + Written(ops)
       <==> ZeroFree(Written(ops)) && NoneBehindEmpty(Queue(l) + Written(ops))
  {
    var end, n, done := After(l, ops), Owed(l, ops), Delivered(l, ops);
    OwedShows(l, ops);
    InOrderExactly(l, ops);
    if ZeroFree(Written(ops)) {
      assert done + Queue(end) == Queue(l) + Written(ops);
      assert |done| + |Queue(end)| == |Queue(l)| + |Written(ops)| by {
        assert |done + Queue(end)| == |Queue(l) + Written(ops)|;
      }
      NothingEmptyDelivered(l, ops);
      BehindTexts(done, Queue(end));
      QueueShownInFull(Queue(end));
      SameBehind(done, Shows(end, n), Queue(end));
    } else {
      ZeroFreeConcat(Queue(l), Written(ops));
    }
  }

  lemma SameBehind<T>(front: seq<T>, a: seq<T>, b: seq<T>)
    ensures front + a == front + b <==> a == b
  {
    assert (front + a)[|front|..] == a && (front + b)[|front|..] == b;
  }
}
