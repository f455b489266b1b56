/**
 The calls of the readers and writers as the program writes them: the vectors with their
 semaphore numbers, the SETVALs and GETVALs, and which call follows which. Every step of the
 state machine is the call at the process's place, as the kernel performs it.
 */
module RwVectors {
  import opened SystemV
  import opened RwSemaphores

  const SEMN := 6
  const ACT_W := 0
  const ACT_R := 1
  const WAI_W := 2
  const WAI_R := 3
  const CAN_W := 4
  const CAN_R := 5

  function ReaderCallAt(pc: ReaderPc): Call {
    match pc
    case RTry => Semop([SemBuf(ACT_W, 0, true), SemBuf(WAI_W, 0, true), SemBuf(ACT_R, 1, false)])
    case RJoin => Semop([SemBuf(WAI_R, 1, false)])
    case RClear => SetVal(CAN_R, 0)
    case RBlocked =>
      Semop([SemBuf(ACT_W, 0, false), SemBuf(CAN_R, -1, false), SemBuf(ACT_R, 1, false), SemBuf(WAI_R, -1, false)])
    case RHandOn => SetVal(CAN_R, 1)
    case RActive => Semop([SemBuf(ACT_R, -1, false)])
    case RGetActive => GetVal(ACT_R)
    case ROpen => SetVal(CAN_W, 1)
  }

  function WriterCallAt(pc: WriterPc): Call {
    match pc
    case WTry => Semop([SemBuf(ACT_R, 0, true), SemBuf(ACT_W, 0, true), SemBuf(ACT_W, 1, false)])
    case WJoin => Semop([SemBuf(WAI_W, 1, false)])
    case WClear => SetVal(CAN_W, 0)
    case WBlocked =>
      Semop([SemBuf(ACT_W, 0, false), SemBuf(CAN_W, -1, false), SemBuf(ACT_W, 1, false), SemBuf(WAI_W, -1, false)])
    case WActive => GetVal(WAI_R)
    case WOpenRead => SetVal(CAN_R, 1)
    case WOpenWrite => SetVal(CAN_W, 1)
    case WRelease => Semop([SemBuf(ACT_W, -1, false)])
  }

  /** Where a reader goes on after its call: a failed try queues up, and what GETVAL returned
      decides whether CAN_W is opened. */
  function AfterReaderCall(pc: ReaderPc, values: seq<int>, again: bool): ReaderPc
    requires |values| == SEMN
  {
    match pc
    case RTry => if again then RJoin else RActive
    case RJoin => RClear
    case RClear => RBlocked
    case RBlocked => RHandOn
    case RHandOn => RActive
    case RActive => RGetActive
    case RGetActive => if values[ACT_R] == 0 then ROpen else RTry
    case ROpen => RTry
  }

  function AfterWriterCall(pc: WriterPc, values: seq<int>, again: bool): WriterPc
    requires |values| == SEMN
  {
    match pc
    case WTry => if again then WJoin else WActive
    case WJoin => WClear
    case WClear => WBlocked
    case WBlocked => WActive
    case WActive => if values[WAI_R] != 0 then WOpenRead else WOpenWrite
    case WOpenRead => WRelease
    case WOpenWrite => WRelease
    case WRelease => WTry
  }

  function Values(s: State): (values: seq<int>)
    ensures |values| == SEMN
  {
    [s.actW, s.actR, s.waiW, s.waiR, s.canW, s.canR]
  }

  /** Semaphores as counted: none is negative. */
  predicate NonNegative(s: State) {
    forall i :: 0 <= i < SEMN ==> Values(s)[i] >= 0
  }

  lemma NothingToStart(readers: nat, writers: nat)
    ensures Values(Init(readers, writers)) == [0, 0, 0, 0, 0, 0]
  {
  }

  lemma ReaderTry(s: State)
    requires NonNegative(s)
    ensures Perform(Values(s), ReaderCallAt(RTry)) ==
            if s.actW == 0 && s.waiW == 0 then Completed(Values(s.(actR := s.actR + 1))) else Again
  {
    Try(Values(s), ACT_W, WAI_W, ACT_R);
    assert Values(s)[ACT_R := s.actR + 1] == Values(s.(actR := s.actR + 1));
  }

  lemma ReaderWakeUp(s: State)
    requires NonNegative(s)
    ensures Perform(Values(s), ReaderCallAt(RBlocked)) ==
            if s.actW == 0 && s.canR >= 1 && s.waiR >= 1
            then Completed(Values(s.(canR := s.canR - 1, actR := s.actR + 1, waiR := s.waiR - 1)))
            else Sleeps
  {
    WakeUp(Values(s), ACT_W, CAN_R, ACT_R, WAI_R);
    assert Values(s)[CAN_R := s.canR - 1][ACT_R := s.actR + 1][WAI_R := s.waiR - 1] ==
           Values(s.(canR := s.canR - 1, actR := s.actR + 1, waiR := s.waiR - 1));
  }

  lemma WriterTry(s: State)
    requires NonNegative(s)
    ensures Perform(Values(s), WriterCallAt(WTry)) ==
            if s.actR == 0 && s.actW == 0 then Completed(Values(s.(actW := s.actW + 1))) else Again
  {
    Try(Values(s), ACT_R, ACT_W, ACT_W);
    assert Values(s)[ACT_W := s.actW + 1] == Values(s.(actW := s.actW + 1));
  }

  lemma WriterWakeUp(s: State)
    requires NonNegative(s)
    ensures Perform(Values(s), WriterCallAt(WBlocked)) ==
            if s.actW == 0 && s.canW >= 1 && s.waiW >= 1
            then Completed(Values(s.(canW := s.canW - 1, actW := s.actW + 1, waiW := s.waiW - 1)))
            else Sleeps
  {
    WakeUp(Values(s), ACT_W, CAN_W, ACT_W, WAI_W);
    assert Values(s)[CAN_W := s.canW - 1][ACT_W := s.actW + 1][WAI_W := s.waiW - 1] ==
           Values(s.(canW := s.canW - 1, actW := s.actW + 1, waiW := s.waiW - 1));
  }

  /** The remaining calls of a reader change at most one semaphore and, leaving apart, never wait. */
  lemma ReaderSingle(s: State, pc: ReaderPc)
    requires NonNegative(s) && pc != RTry && pc != RBlocked
    ensures Perform(Values(s), ReaderCallAt(pc)) ==
            match pc
            case RJoin => Completed(Values(s.(waiR := s.waiR + 1)))
            case RClear => Completed(Values(s.(canR := 0)))
            case RHandOn => Completed(Values(s.(canR := 1)))
            case RActive => if s.actR >= 1 then Completed(Values(s.(actR := s.actR - 1))) else Sleeps
            case ROpen => Completed(Values(s.(canW := 1)))
            case _ => Completed(Values(s))
  {
    OneOperation(Values(s), SemBuf(WAI_R, 1, false));
    OneOperation(Values(s), SemBuf(ACT_R, -1, false));
  }

  lemma WriterSingle(s: State, pc: WriterPc)
    requires NonNegative(s) && pc != WTry && pc != WBlocked
    ensures Perform(Values(s), WriterCallAt(pc)) ==
            match pc
            case WJoin => Completed(Values(s.(waiW := s.waiW + 1)))
            case WClear => Completed(Values(s.(canW := 0)))
            case WOpenRead => Completed(Values(s.(canR := 1)))
            case WOpenWrite => Completed(Values(s.(canW := 1)))
            case WRelease => if s.actW >= 1 then Completed(Values(s.(actW := s.actW - 1))) else Sleeps
            case _ => Completed(Values(s))
  {
    OneOperation(Values(s), SemBuf(WAI_W, 1, false));
    OneOperation(Values(s), SemBuf(ACT_W, -1, false));
  }

  /** A reader's step is its call: it waits where the call sleeps, and otherwise the semaphores are
      what the call makes of them, the reader goes on, and nobody else moves. */
  lemma ReaderStepIsCall(s: State, r: nat)
    requires r < |s.rp| && NonNegative(s)
    ensures var t, pc := Step(s, R(r)), s.rp[r];
            match Perform(Values(s), ReaderCallAt(pc))
            case Sleeps => t == s
            case Again => Values(t) == Values(s) && t.wp == s.wp
                          && t.rp == s.rp[r := AfterReaderCall(pc, Values(s), true)]
            case Completed(values) => Values(t) == values && t.wp == s.wp
                                      && t.rp == s.rp[r := AfterReaderCall(pc, Values(s), false)]
  {
    match s.rp[r]
    case RTry => ReaderTry(s);
    case RBlocked => ReaderWakeUp(s);
    case _ => ReaderSingle(s, s.rp[r]);
  }

  lemma WriterStepIsCall(s: State, w: nat)
    requires w < |s.wp| && NonNegative(s)
    ensures var t, pc := Step(s, W(w)), s.wp[w];
            match Perform(Values(s), WriterCallAt(pc))
            case Sleeps => t == s
            case Again => Values(t) == Values(s) && t.rp == s.rp
                          && t.wp == s.wp[w := AfterWriterCall(pc, Values(s), true)]
            case Completed(values) => Values(t) == values && t.rp == s.rp
                                      && t.wp == s.wp[w := AfterWriterCall(pc, Values(s), false)]
  {
    match s.wp[w]
    case WTry => WriterTry(s);
    case WBlocked => WriterWakeUp(s);
    case _ => WriterSingle(s, s.wp[w]);
  }
}
