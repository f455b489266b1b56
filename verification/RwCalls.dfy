/**
 The start and stop functions as sequences of calls, executed without interruption up to the
 first call that may block, and their effect on the six semaphores.
 */
module RwCalls {
  import opened RwSemaphores

  function StartReadCalls(s: State, r: nat): seq<Proc>
    requires r < |s.rp|
  {
    if Step(s, R(r)).rp[r] == RActive then [R(r)] else [R(r), R(r), R(r)]
  }

  function StartWriteCalls(s: State, w: nat): seq<Proc>
    requires w < |s.wp|
  {
    if Step(s, W(w)).wp[w] == WActive then [W(w)] else [W(w), W(w), W(w)]
  }

  function StopReadCalls(s: State, r: nat): seq<Proc>
    requires r < |s.rp|
  {
    if Step(Step(s, R(r)), R(r)).rp[r] == ROpen then [R(r), R(r), R(r)] else [R(r), R(r)]
  }

  function StopWriteCalls(w: nat): seq<Proc> {
    [W(w), W(w), W(w)]
  }

  lemma StartReadEffect(s: State, r: nat)
    requires r < |s.rp| && s.rp[r] == RTry
    ensures RunFrom(s, StartReadCalls(s, r)) ==
            if s.actW == 0 && s.waiW == 0 then s.(actR := s.actR + 1, rp := s.rp[r := RActive])
            else s.(waiR := s.waiR + 1, canR := 0, rp := s.rp[r := RBlocked])
  {
    var q := R(r);
    if s.actW == 0 && s.waiW == 0 {
      RunOne(s, q);
    } else {
      RunThree(s, q);
      assert s.rp[r := RJoin][r := RClear][r := RBlocked] == s.rp[r := RBlocked];
    }
  }

  lemma StartWriteEffect(s: State, w: nat)
    requires w < |s.wp| && s.wp[w] == WTry
    ensures RunFrom(s, StartWriteCalls(s, w)) ==
            if s.actR == 0 && s.actW == 0 then s.(actW := s.actW + 1, wp := s.wp[w := WActive])
            else s.(waiW := s.waiW + 1, canW := 0, wp := s.wp[w := WBlocked])
  {
    var q := W(w);
    if s.actR == 0 && s.actW == 0 {
      RunOne(s, q);
    } else {
      RunThree(s, q);
      assert s.wp[w := WJoin][w := WClear][w := WBlocked] == s.wp[w := WBlocked];
    }
  }

  lemma StopReadEffect(s: State, r: nat)
    requires r < |s.rp| && s.rp[r] == RActive && s.actR >= 1
    ensures RunFrom(s, StopReadCalls(s, r)) ==
            s.(actR := s.actR - 1, canW := if s.actR == 1 then 1 else s.canW, rp := s.rp[r := RTry])
  {
    var q, t := R(r), s.(actR := s.actR - 1, rp := s.rp[r := RGetActive]);
    assert Step(s, q) == t;
    if s.actR == 1 {
      RunThree(s, q);
      assert Step(t, q) == t.(rp := s.rp[r := ROpen]);
      assert Step(Step(t, q), q) == t.(canW := 1, rp := s.rp[r := RTry]);
    } else {
      RunTwo(s, q);
      assert Step(t, q) == t.(rp := s.rp[r := RTry]);
    }
  }

  lemma Chain(s: State, q: Proc, a: State, b: State, c: State)
    requires Step(s, q) == a && Step(a, q) == b && Step(b, q) == c
    ensures RunFrom(s, [q, q, q]) == c
  {
    RunThree(s, q);
  }

  lemma OpenRead(s: State, w: nat)
    requires w < |s.wp| && s.wp[w] == WActive && s.actW >= 1 && s.waiR != 0
    ensures RunFrom(s, StopWriteCalls(w)) == s.(actW := s.actW - 1, canR := 1, wp := s.wp[w := WTry])
  {
    var a := s.(wp := s.wp[w := WOpenRead]);
    var b := s.(canR := 1, wp := s.wp[w := WRelease]);
    Chain(s, W(w), a, b, s.(actW := s.actW - 1, canR := 1, wp := s.wp[w := WTry]));
  }

  lemma OpenWrite(s: State, w: nat)
    requires w < |s.wp| && s.wp[w] == WActive && s.actW >= 1 && s.waiR == 0
    ensures RunFrom(s, StopWriteCalls(w)) == s.(actW := s.actW - 1, canW := 1, wp := s.wp[w := WTry])
  {
    var a := s.(wp := s.wp[w := WOpenWrite]);
    var b := s.(canW := 1, wp := s.wp[w := WRelease]);
    Chain(s, W(w), a, b, s.(actW := s.actW - 1, canW := 1, wp := s.wp[w := WTry]));
  }

  lemma StopWriteEffect(s: State, w: nat)
    requires w < |s.wp| && s.wp[w] == WActive && s.actW >= 1
    ensures RunFrom(s, StopWriteCalls(w)) ==
            s.(actW := s.actW - 1, canR := if s.waiR != 0 then 1 else s.canR,
               canW := if s.waiR != 0 then s.canW else 1, wp := s.wp[w := WTry])
  {
    if s.waiR != 0 {
      OpenRead(s, w);
    } else {
      OpenWrite(s, w);
    }
  }
}
