/**
 Rotations of API keys that overlap. The endpoint reads the old key, revokes it without looking
 at the answer, and then creates the new one; other calls may come between the three.
 */
module KeyRotation {
  import opened Wrappers
  import opened ApiKeys

  datatype Phase = Checked | Cleared | Finished

  /** A rotation under way: the key it read as active, and how many keys there were then. */
  datatype Rotation = Rotation(id: nat, user: string, since: nat, phase: Phase)

  datatype State = State(keys: Table, rotations: seq<Rotation>)

  datatype Op =
    | Create(identity: Identity, user: string)
    | RevokeKey(id: nat, org: string)
    | Begin(id: nat, org: string, user: string)
    | RevokeOld(rotation: nat)
    | Issue(rotation: nat)

  predicate InPhase(s: State, r: nat, phase: Phase) {
    r < |s.rotations| && s.rotations[r].phase == phase && s.rotations[r].id < |s.keys|
  }

  function Moved(s: State, r: nat, phase: Phase): seq<Rotation>
    requires r < |s.rotations|
  {
    s.rotations[r := s.rotations[r].(phase := phase)]
  }

  function Step(s: State, op: Op): State {
    match op
    case Create(identity, user) => s.(keys := ApiKeys.Create(s.keys, identity, user))
    case RevokeKey(id, org) => s.(keys := Revoke(s.keys, id, org).0)
    case Begin(id, org, user) =>
      if Visible(s.keys, id, org) && s.keys[id].active
      then s.(rotations := s.rotations + [Rotation(id, user, |s.keys|, Checked)]) else s
    case RevokeOld(r) =>
      if InPhase(s, r, Checked) then State(Revoked(s.keys, s.rotations[r].id), Moved(s, r, Cleared)) else s
    case Issue(r) =>
      if InPhase(s, r, Cleared) then
        var from := s.rotations[r];
        State(s.keys + [Key(s.keys[from.id].identity, from.user, true, Some(from.id))], Moved(s, r, Finished))
      else s
  }

  ghost predicate IsRun(hist: seq<State>, ops: seq<Op>) {
    && |hist| == |ops| + 1 && hist[0] == State([], [])
    && forall k | 0 <= k < |ops| :: hist[k + 1] == Step(hist[k], ops[k])
  }

  /** What each step does to the keys, from the rows before it. */
  lemma StepDoes(s: State, identity: Identity, id: nat, org: string, user: string, r: nat)
    ensures Step(s, Create(identity, user)) == s.(keys := s.keys + [Key(identity, user, true, None)])
    ensures var after := Step(s, RevokeKey(id, org));
            && after.rotations == s.rotations && |after.keys| == |s.keys|
            && (id < |s.keys| && s.keys[id].identity.org == org ==> !after.keys[id].active)
            && forall i | 0 <= i < |s.keys| && !(i == id && s.keys[i].identity.org == org) :: after.keys[i] == s.keys[i]
    ensures var after := Step(s, Begin(id, org, user));
            && after.keys == s.keys
            && after.rotations == if id < |s.keys| && s.keys[id].identity.org == org && s.keys[id].active
                                  then s.rotations + [Rotation(id, user, |s.keys|, Checked)] else s.rotations
    ensures InPhase(s, r, Checked) ==>
              var after, under := Step(s, RevokeOld(r)), s.rotations[r];
              && |after.keys| == |s.keys| && !after.keys[under.id].active
              && (forall i | 0 <= i < |s.keys| && i != under.id :: after.keys[i] == s.keys[i])
              && after.rotations == s.rotations[r := under.(phase := Cleared)]
    ensures InPhase(s, r, Cleared) ==>
              var after, under := Step(s, Issue(r)), s.rotations[r];
              && after.keys == s.keys + [Key(s.keys[under.id].identity, under.user, true, Some(under.id))]
              && after.rotations == s.rotations[r := under.(phase := Finished)]
  {
  }

  /** Undisturbed, the three steps are the rotation. */
  lemma UndisturbedIsRotate(s: State, id: nat, org: string, user: string)
    requires Visible(s.keys, id, org) && s.keys[id].active
    ensures var r := |s.rotations|;
            Step(Step(Step(s, Begin(id, org, user)), RevokeOld(r)), Issue(r)).keys == Rotate(s.keys, id, org, user).0
  {
  }

  // ---------------------------------------------------------------------------
  // One active key per lineage
  // ---------------------------------------------------------------------------

  /** Of the keys there were when a rotation began, only its own may be active in the lineage, and not once it is revoked. */
  ghost predicate Tracked(keys: Table, r: Rotation)
    requires Linked(keys)
  {
    && r.id < r.since <= |keys|
    && (forall i | 0 <= i < r.since && keys[i].active && SameLineage(keys, i, r.id) :: i == r.id)
    && (r.phase != Checked ==> !keys[r.id].active)
  }

  ghost predicate Sound(s: State) {
    Rooted(s.keys) && forall r | 0 <= r < |s.rotations| :: Tracked(s.keys, s.rotations[r])
  }

  /** A key of the lineage issued since the rotation began is active. */
  ghost predicate Overtaken(keys: Table, r: Rotation)
    requires Linked(keys) && r.id < |keys|
  {
    exists i | r.since <= i < |keys| :: keys[i].active && SameLineage(keys, i, r.id)
  }

  /** The step issues a key for a rotation that was overtaken. */
  ghost predicate IssuesSecond(s: State, op: Op)
    requires Linked(s.keys)
  {
    op.Issue? && InPhase(s, op.rotation, Cleared) && Overtaken(s.keys, s.rotations[op.rotation])
  }

  /** The later table keeps every row, up to its being revoked. */
  ghost predicate Extends(keys: Table, later: Table) {
    && |keys| <= |later|
    && (forall i | 0 <= i < |keys| :: later[i].rotatedFrom == keys[i].rotatedFrom && later[i].identity == keys[i].identity)
    && (forall i | 0 <= i < |keys| && later[i].active :: keys[i].active)
  }

  /** At most one row is new, and it hangs on an older one or starts a lineage. */
  lemma StepExtends(s: State, op: Op)
    requires Sound(s)
    ensures Extends(s.keys, Step(s, op).keys) && |Step(s, op).keys| <= |s.keys| + 1 && Linked(Step(s, op).keys)
  {
  }

  lemma RootsStay(keys: Table, later: Table)
    requires Linked(keys) && Linked(later) && Extends(keys, later)
    ensures forall i | 0 <= i < |keys| :: Root(later, i) == Root(keys, i)
  {
    forall i | 0 <= i < |keys| ensures Root(later, i) == Root(keys, i) {
      RootIsStable(keys, later, i);
    }
  }

  lemma StepKeepsRooted(s: State, op: Op)
    requires Sound(s)
    ensures Rooted(Step(s, op).keys)
  {
    StepExtends(s, op);
    RootsStay(s.keys, Step(s, op).keys);
  }

  lemma TrackedLater(keys: Table, later: Table, r: Rotation)
    requires Linked(keys) && Linked(later) && Extends(keys, later) && Tracked(keys, r)
    ensures Tracked(later, r)
  {
    RootsStay(keys, later);
  }

  lemma StepKeepsSound(s: State, op: Op)
    requires Sound(s) && OneActive(s.keys)
    ensures Sound(Step(s, op))
  {
    var after := Step(s, op);
    StepKeepsRooted(s, op);
    StepExtends(s, op);
    forall r | 0 <= r < |s.rotations| ensures Tracked(after.keys, s.rotations[r]) {
      TrackedLater(s.keys, after.keys, s.rotations[r]);
    }
    if op.RevokeOld? && InPhase(s, op.rotation, Checked) {
      assert !after.keys[s.rotations[op.rotation].id].active;
    }
  }

  /** One step keeps one active key per lineage exactly when it does not issue for an overtaken rotation. */
  lemma StepKeepsOneActive(s: State, op: Op)
    requires Sound(s) && OneActive(s.keys)
    ensures Linked(Step(s, op).keys)
    ensures OneActive(Step(s, op).keys) <==> !IssuesSecond(s, op)
  {
    var keys, later := s.keys, Step(s, op).keys;
    StepExtends(s, op);
    RootsStay(keys, later);
    if op.Issue? && InPhase(s, op.rotation, Cleared) {
      IssueKeepsOneActive(s, op.rotation);
    } else if op.Create? {
      assert Root(later, |keys|) == |keys|;
    }
  }

  lemma IssueKeepsOneActive(s: State, n: nat)
    requires Sound(s) && OneActive(s.keys) && InPhase(s, n, Cleared)
    ensures Linked(Step(s, Issue(n)).keys)
    ensures OneActive(Step(s, Issue(n)).keys) <==> !Overtaken(s.keys, s.rotations[n])
  {
    var keys, later, r := s.keys, Step(s, Issue(n)).keys, s.rotations[n];
    StepExtends(s, Issue(n));
    RootsStay(keys, later);
    assert Tracked(keys, r);
    assert later[|keys|].active && Root(later, |keys|) == Root(keys, r.id);
    if i :| r.since <= i < |keys| && keys[i].active && SameLineage(keys, i, r.id) {
      assert later[i].active && SameLineage(later, i, |keys|);
    }
  }

  /** The overtaking key was itself issued by a rotation, after this one had begun. */
  lemma OvertakenByRotation(keys: Table, r: Rotation, i: nat)
    requires Rooted(keys) && Tracked(keys, r) && r.since <= i < |keys| && SameLineage(keys, i, r.id)
    ensures keys[i].rotatedFrom.Some?
  {
  }

  /**
   Over every run of overlapping calls each lineage has at most one active key at every moment
   exactly when no rotation issues its key while one issued since it began is active.
   */
  lemma OneActiveOverRuns(hist: seq<State>, ops: seq<Op>)
    requires IsRun(hist, ops)
    ensures forall k | 0 <= k <= |ops| :: Linked(hist[k].keys)
    ensures (forall k | 0 <= k <= |ops| :: OneActive(hist[k].keys)) <==> (forall k | 0 <= k < |ops| :: !IssuesSecond(hist[k], ops[k]))
  {
    forall k | 0 <= k <= |ops| ensures Linked(hist[k].keys) {
      LinkedOverRuns(hist, ops, k);
    }
    if forall k | 0 <= k <= |ops| :: OneActive(hist[k].keys) {
      forall k | 0 <= k < |ops| ensures !IssuesSecond(hist[k], ops[k]) {
        SoundWhileOne(hist, ops, k);
        StepKeepsOneActive(hist[k], ops[k]);
        assert OneActive(hist[k + 1].keys);
      }
    }
    if forall k | 0 <= k < |ops| :: !IssuesSecond(hist[k], ops[k]) {
      forall k | 0 <= k <= |ops| ensures OneActive(hist[k].keys) {
        OneWhileNotOvertaken(hist, ops, k);
      }
    }
  }

  lemma {:induction false} LinkedOverRuns(hist: seq<State>, ops: seq<Op>, k: nat)
    requires IsRun(hist, ops) && k <= |ops|
    ensures Linked(hist[k].keys)
  {
    if k > 0 {
      LinkedOverRuns(hist, ops, k - 1);
    }
  }

  lemma {:induction false} SoundWhileOne(hist: seq<State>, ops: seq<Op>, k: nat)
    requires IsRun(hist, ops) && k <= |ops|
    requires forall j | 0 <= j <= |ops| :: Linked(hist[j].keys) && OneActive(hist[j].keys)
    ensures Sound(hist[k])
  {
    if k > 0 {
      SoundWhileOne(hist, ops, k - 1);
      StepKeepsSound(hist[k - 1], ops[k - 1]);
    }
  }

  lemma {:induction false} OneWhileNotOvertaken(hist: seq<State>, ops: seq<Op>, k: nat)
    requires IsRun(hist, ops) && k <= |ops|
    requires forall j | 0 <= j <= |ops| :: Linked(hist[j].keys)
    requires forall j | 0 <= j < |ops| :: !IssuesSecond(hist[j], ops[j])
    ensures Sound(hist[k]) && OneActive(hist[k].keys)
  {
    if k > 0 {
      OneWhileNotOvertaken(hist, ops, k - 1);
      StepKeepsSound(hist[k - 1], ops[k - 1]);
      StepKeepsOneActive(hist[k - 1], ops[k - 1]);
    }
  }

  /** A concrete run: two rotations read the same key as active, and both issue. */
  lemma TwoRotationsLeaveTwoKeys(identity: Identity, user: string) returns (hist: seq<State>, ops: seq<Op>)
    ensures IsRun(hist, ops) && |ops| == 7
    ensures Linked(hist[7].keys) && !OneActive(hist[7].keys)
  {
    ops := [Create(identity, user), Begin(0, identity.org, user), Begin(0, identity.org, user), RevokeOld(0), RevokeOld(1), Issue(0), Issue(1)];
    var s1 := Step(State([], []), ops[0]);
    var s2 := Step(s1, ops[1]);
    var s3 := Step(s2, ops[2]);
    var s4 := Step(s3, ops[3]);
    var s5 := Step(s4, ops[4]);
    var s6 := Step(s5, ops[5]);
    var s7 := Step(s6, ops[6]);
    hist := [State([], []), s1, s2, s3, s4, s5, s6, s7];
    assert s3.rotations == [Rotation(0, user, 1, Checked), Rotation(0, user, 1, Checked)];
    assert s5.rotations == [Rotation(0, user, 1, Cleared), Rotation(0, user, 1, Cleared)];
    assert |s7.keys| == 3 && s7.keys[1].rotatedFrom == Some(0) && s7.keys[2].rotatedFrom == Some(0);
    assert s7.keys[1].active && s7.keys[2].active && s7.keys[0].rotatedFrom == None;
    assert SameLineage(s7.keys, 1, 2);
  }
}
