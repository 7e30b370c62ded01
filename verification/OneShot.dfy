/**
 One-shot tokens under overlapping calls: exchange codes, whose row is selected and then deleted,
 and team invites, whose status is read and later set. Neither looks at what the closing
 statement found, so a call goes through with what it read.
 */
module OneShot {
  import opened Wrappers

  /** A call that found its token open: when it read it, whether it granted, and when it closed it. */
  datatype Claim = Claim(token: nat, readAt: nat, granted: bool, closedAt: Option<nat>)

  /** Tokens are numbered in issue order. */
  datatype State = State(clock: nat, issued: nat, open: set<nat>, claims: seq<Claim>)

  const START := State(0, 0, {}, [])

  /** A code grants after its row is deleted, an invite before its status is set; a call that fails a check never grants. */
  datatype Op =
    | Issue
    | Withdraw(token: nat)
    | Read(token: nat)
    | Grant(claim: nat)
    | Close(claim: nat)

  function Do(s: State, op: Op): State {
    match op
    case Issue => s.(issued := s.issued + 1, open := s.open + {s.issued})
    case Withdraw(token) => s.(open := s.open - {token})
    case Read(token) => if token in s.open then s.(claims := s.claims + [Claim(token, s.clock, false, None)]) else s
    case Grant(n) => if n < |s.claims| then s.(claims := s.claims[n := s.claims[n].(granted := true)]) else s
    case Close(n) =>
      if n < |s.claims| && s.claims[n].closedAt.None? then
        s.(open := s.open - {s.claims[n].token}, claims := s.claims[n := s.claims[n].(closedAt := Some(s.clock))])
      else s
  }

  function Step(s: State, op: Op): State {
    Do(s, op).(clock := s.clock + 1)
  }

  ghost predicate IsRun(hist: seq<State>, ops: seq<Op>) {
    && |hist| == |ops| + 1 && hist[0] == START
    && forall k | 0 <= k < |ops| :: hist[k + 1] == Step(hist[k], ops[k])
  }

  /** What each step does: a new token is open, a withdrawn or closed one is not, and a read of an open one is a claim. */
  lemma StepDoes(s: State, token: nat, n: nat)
    ensures Step(s, Issue) == s.(clock := s.clock + 1, issued := s.issued + 1, open := s.open + {s.issued})
    ensures Step(s, Withdraw(token)) == s.(clock := s.clock + 1, open := s.open - {token})
    ensures Step(s, Read(token)).open == s.open
    ensures Step(s, Read(token)).claims == if token in s.open then s.claims + [Claim(token, s.clock, false, None)] else s.claims
    ensures n < |s.claims| ==>
              && |Step(s, Grant(n)).claims| == |Step(s, Close(n)).claims| == |s.claims| && Step(s, Grant(n)).open == s.open
              && Step(s, Grant(n)).claims[n] == s.claims[n].(granted := true)
              && (s.claims[n].closedAt == None ==>
                    && Step(s, Close(n)).claims[n] == s.claims[n].(closedAt := Some(s.clock))
                    && Step(s, Close(n)).open == s.open - {s.claims[n].token})
              && forall m | 0 <= m < |s.claims| && m != n ::
                   Step(s, Grant(n)).claims[m] == Step(s, Close(n)).claims[m] == s.claims[m]
  {
  }

  /** The earlier claim had not closed the token when the later one read it. */
  predicate Precedes(a: Claim, b: Claim) {
    a.closedAt.None? || b.readAt < a.closedAt.value
  }

  /** Each read the token before the other closed it. */
  predicate Overlap(a: Claim, b: Claim) {
    Precedes(a, b) && Precedes(b, a)
  }

  ghost predicate Sound(s: State) {
    && (forall token | token in s.open :: token < s.issued)
    && (forall n | 0 <= n < |s.claims| :: Recorded(s, s.claims[n]))
    && (forall m, n | 0 <= m < n < |s.claims| && s.claims[m].token == s.claims[n].token :: Overlap(s.claims[m], s.claims[n]))
  }

  /** A claim lies in the past, and a closed one has closed its token for good. */
  ghost predicate Recorded(s: State, c: Claim) {
    && c.token < s.issued && c.readAt < s.clock
    && (c.closedAt.Some? ==> c.closedAt.value < s.clock && c.token !in s.open)
  }

  lemma StepKeepsSound(s: State, op: Op)
    requires Sound(s)
    ensures Sound(Step(s, op))
  {
    var after := Step(s, op);
    forall n | 0 <= n < |after.claims| ensures Recorded(after, after.claims[n]) {
      assert n < |s.claims| ==> Recorded(s, s.claims[n]);
    }
    forall m, n | 0 <= m < n < |after.claims| && after.claims[m].token == after.claims[n].token
      ensures Overlap(after.claims[m], after.claims[n])
    {
      assert Recorded(s, s.claims[m]);
      assert n < |s.claims| ==> Recorded(s, s.claims[n]) && Overlap(s.claims[m], s.claims[n]);
    }
  }

  lemma {:induction false} SoundOverRuns(hist: seq<State>, ops: seq<Op>, k: nat)
    requires IsRun(hist, ops) && k <= |ops|
    ensures Sound(hist[k])
  {
    if k > 0 {
      SoundOverRuns(hist, ops, k - 1);
      StepKeepsSound(hist[k - 1], ops[k - 1]);
    }
  }

  predicate GrantedTwice(s: State, token: nat) {
    exists m, n | 0 <= m < n < |s.claims| :: BothGranted(s, token, m, n)
  }

  predicate BothGranted(s: State, token: nat, m: nat, n: nat)
    requires m < |s.claims| && n < |s.claims|
  {
    s.claims[m].token == token && s.claims[n].token == token && s.claims[m].granted && s.claims[n].granted
  }

  predicate OverlappingGrants(s: State, token: nat) {
    exists m, n | 0 <= m < n < |s.claims| :: BothGranted(s, token, m, n) && Overlap(s.claims[m], s.claims[n])
  }

  /** Over every run a token is granted at most once exactly when no two calls that grant it overlap. */
  lemma GrantedOnceExactly(hist: seq<State>, ops: seq<Op>, k: nat, token: nat)
    requires IsRun(hist, ops) && k <= |ops|
    ensures !GrantedTwice(hist[k], token) <==> !OverlappingGrants(hist[k], token)
  {
    SoundOverRuns(hist, ops, k);
    var s := hist[k];
    if m, n :| 0 <= m < n < |s.claims| && BothGranted(s, token, m, n) {
      assert Overlap(s.claims[m], s.claims[n]);
    }
  }

  /** A step reads a token while a call that has read it is still to close it. */
  predicate ReadsHeld(s: State, op: Op) {
    op.Read? && op.token in s.open && exists n | 0 <= n < |s.claims| :: s.claims[n].token == op.token && s.claims[n].closedAt.None?
  }

  predicate ClaimedOnce(s: State) {
    forall m, n | 0 <= m < n < |s.claims| :: s.claims[m].token != s.claims[n].token
  }

  /** Over every run no token is claimed twice exactly when no step reads one that a call still holds. */
  lemma {:induction false} ClaimedOnceExactly(hist: seq<State>, ops: seq<Op>, k: nat)
    requires IsRun(hist, ops) && k <= |ops|
    ensures ClaimedOnce(hist[k]) <==> forall j | 0 <= j < k :: !ReadsHeld(hist[j], ops[j])
  {
    if k > 0 {
      ClaimedOnceExactly(hist, ops, k - 1);
      SoundOverRuns(hist, ops, k - 1);
      StepClaimsOnce(hist[k - 1], ops[k - 1]);
      assert (forall j | 0 <= j < k :: !ReadsHeld(hist[j], ops[j]))
        <==> (forall j | 0 <= j < k - 1 :: !ReadsHeld(hist[j], ops[j])) && !ReadsHeld(hist[k - 1], ops[k - 1]);
    }
  }

  lemma StepClaimsOnce(s: State, op: Op)
    requires Sound(s)
    ensures ClaimedOnce(Step(s, op)) <==> ClaimedOnce(s) && !ReadsHeld(s, op)
  {
    var after := Step(s, op);
    assert forall n | 0 <= n < |s.claims| :: after.claims[n].token == s.claims[n].token;
    forall n | 0 <= n < |s.claims| && s.claims[n].token in s.open ensures s.claims[n].closedAt.None? {
      assert Recorded(s, s.claims[n]);
    }
    if op.Read? && op.token in s.open {
      assert after.claims[|s.claims|].token == op.token;
    }
  }

  /** A concrete run: two calls read the same code before either deletes it, and both grant. */
  lemma OneCodeGrantsTwice() returns (hist: seq<State>, ops: seq<Op>)
    ensures IsRun(hist, ops) && |ops| == 7 && GrantedTwice(hist[7], 0)
  {
    ops := [Issue, Read(0), Read(0), Close(0), Close(1), Grant(0), Grant(1)];
    var s1 := State(1, 1, {0}, []);
    var s2 := State(2, 1, {0}, [Claim(0, 1, false, None)]);
    var s3 := State(3, 1, {0}, [Claim(0, 1, false, None), Claim(0, 2, false, None)]);
    var s4 := State(4, 1, {}, [Claim(0, 1, false, Some(3)), Claim(0, 2, false, None)]);
    var s5 := State(5, 1, {}, [Claim(0, 1, false, Some(3)), Claim(0, 2, false, Some(4))]);
    var s6 := State(6, 1, {}, [Claim(0, 1, true, Some(3)), Claim(0, 2, false, Some(4))]);
    var s7 := State(7, 1, {}, [Claim(0, 1, true, Some(3)), Claim(0, 2, true, Some(4))]);
    assert Step(START, ops[0]) == s1 && Step(s1, ops[1]) == s2 && Step(s2, ops[2]) == s3 && Step(s3, ops[3]) == s4;
    assert Step(s4, ops[4]) == s5 && Step(s5, ops[5]) == s6 && Step(s6, ops[6]) == s7;
    hist := [START, s1, s2, s3, s4, s5, s6, s7];
    assert BothGranted(s7, 0, 0, 1);
  }
}
