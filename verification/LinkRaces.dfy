/**
 Linking endpoints that overlap. Each checks that its thread and draft are free and then writes its
 links without looking again; other calls may come between the two.
 */
module LinkRaces {
  import opened Wrappers
  import opened ThreadLinks

  /** What an endpoint writes once its checks have passed. */
  function Effect(s: ThreadLinks.State, op: ThreadLinks.Op): ThreadLinks.State
    requires Placed(s, op)
  {
    match op
    case DoGmailLink(id, _, thread, message) =>
      State(s.items[id := s.items[id].(threadId := Some(thread))],
            WithOptional(WithSource(s.sources, Source(id, GmailThread, thread)), id, GmailMessage, message))
    case DoComposeLink(id, _, draft, thread) =>
      State(if thread.Some? then s.items[id := s.items[id].(threadId := thread)] else s.items,
            WithOptional(WithOptional(s.sources, id, ComposeDraft, draft), id, GmailThread, thread))
    case DoComposeCreate(org, draft, thread) =>
      State(s.items + [Item(org, thread)],
            WithOptional(WithOptional(s.sources, |s.items|, ComposeDraft, draft), |s.items|, GmailThread, thread))
  }

  /** The item to be linked is there, and is the organisation's; a new one is always placed. */
  predicate Placed(s: ThreadLinks.State, op: ThreadLinks.Op) {
    match op
    case DoGmailLink(id, org, _, _) => Visible(s, id, org)
    case DoComposeLink(id, org, _, _) => Visible(s, id, org)
    case DoComposeCreate(_, _, _) => true
  }

  /** The checks an endpoint makes first. */
  predicate Passes(s: ThreadLinks.State, op: ThreadLinks.Op) {
    && Placed(s, op)
    && match op
       case DoGmailLink(id, org, thread, _) => !ThreadTaken(s, id, org, thread) && thread != ""
       case DoComposeLink(id, org, draft, thread) =>
         && !(draft.Some? && DraftHeldByAnother(s, id, draft.value))
         && !(thread.Some? && ThreadTaken(s, id, org, thread.value))
       case DoComposeCreate(org, draft, thread) =>
         && !(draft.Some? && ItemByDraft(s, org, draft.value).Some?)
         && !(thread.Some? && ItemByThread(s, org, thread.value).Some?)
  }

  /** Checks and writes with nothing in between are the endpoint. */
  lemma UndisturbedIsStep(s: ThreadLinks.State, op: ThreadLinks.Op)
    ensures ThreadLinks.Step(s, op) == if Passes(s, op) then Effect(s, op) else s
  {
  }

  // ---------------------------------------------------------------------------
  // Overlapping calls
  // ---------------------------------------------------------------------------

  function OrgOf(op: ThreadLinks.Op): string {
    match op
    case DoGmailLink(_, org, _, _) => org
    case DoComposeLink(_, org, _, _) => org
    case DoComposeCreate(org, _, _) => org
  }

  function ThreadOf(op: ThreadLinks.Op): Option<string> {
    match op
    case DoGmailLink(_, _, thread, _) => Some(thread)
    case DoComposeLink(_, _, _, thread) => thread
    case DoComposeCreate(_, _, thread) => thread
  }

  function DraftOf(op: ThreadLinks.Op): Option<string> {
    match op
    case DoGmailLink(_, _, _, _) => None
    case DoComposeLink(_, _, draft, _) => draft
    case DoComposeCreate(_, draft, _) => draft
  }

  /** The item the call links; a new one gets the next number. */
  function TargetOf(s: ThreadLinks.State, op: ThreadLinks.Op): nat {
    match op
    case DoGmailLink(id, _, _, _) => id
    case DoComposeLink(id, _, _, _) => id
    case DoComposeCreate(_, _, _) => |s.items|
  }

  /** The row gives the call's thread or draft to another item of its organisation. */
  predicate Rivals(s: ThreadLinks.State, op: ThreadLinks.Op, row: Source) {
    && row.item < |s.items| && s.items[row.item].org == OrgOf(op) && row.item != TargetOf(s, op)
    && ((row.kind == GmailThread && ThreadOf(op) == Some(row.ref)) || (row.kind == ComposeDraft && DraftOf(op) == Some(row.ref)))
  }

  predicate Clash(s: ThreadLinks.State, op: ThreadLinks.Op) {
    exists row | row in s.sources :: Rivals(s, op, row)
  }

  lemma EffectIsBacked(s: ThreadLinks.State, op: ThreadLinks.Op)
    requires Backed(s) && Placed(s, op)
    ensures Backed(Effect(s, op)) && |s.items| <= |Effect(s, op).items| && s.sources <= Effect(s, op).sources
    ensures TargetOf(s, op) < |Effect(s, op).items|
    ensures forall i | 0 <= i < |Effect(s, op).items| :: Effect(s, op).items[i].org == if i < |s.items| then s.items[i].org else OrgOf(op)
  {
  }

  /** The rows an effect adds are the call's own links. */
  lemma EffectAdds(s: ThreadLinks.State, op: ThreadLinks.Op, row: Source)
    requires Placed(s, op)
    ensures row in Effect(s, op).sources <==> row in s.sources || OwnLink(s, op, row)
  {
  }

  predicate OwnLink(s: ThreadLinks.State, op: ThreadLinks.Op, row: Source) {
    && row.item == TargetOf(s, op)
    && match row.kind
       case GmailThread => ThreadOf(op) == Some(row.ref)
       case ComposeDraft => DraftOf(op) == Some(row.ref)
       case GmailMessage => op.DoGmailLink? && op.message == Some(row.ref)
  }

  /** Unique links, told by the source rows alone. */
  ghost predicate RowsUnique(s: ThreadLinks.State) {
    forall a, b | a in s.sources && b in s.sources :: !Conflict(s, a, b)
  }

  /** Two rows give one thread, or one draft, to two items of one organisation. */
  predicate Conflict(s: ThreadLinks.State, a: Source, b: Source) {
    && a.item < |s.items| && b.item < |s.items| && a.item != b.item && s.items[a.item].org == s.items[b.item].org
    && a.kind == b.kind && a.kind != GmailMessage && a.ref == b.ref
  }

  lemma RowsTellUniqueness(s: ThreadLinks.State)
    requires Backed(s)
    ensures RowsUnique(s) <==> LinksUnique(s)
  {
    forall i, t: string | 0 <= i < |s.items| ensures Carries(s, i, t) <==> Source(i, GmailThread, t) in s.sources {
    }
    if RowsUnique(s) {
      forall i, j | 0 <= i < j < |s.items| && s.items[i].org == s.items[j].org
        ensures forall t: string :: !(Carries(s, i, t) && Carries(s, j, t))
        ensures forall d: string :: !(HoldsDraft(s, i, d) && HoldsDraft(s, j, d))
      {
        forall t: string ensures !(Carries(s, i, t) && Carries(s, j, t)) {
          assert !Conflict(s, Source(i, GmailThread, t), Source(j, GmailThread, t)) || Source(i, GmailThread, t) !in s.sources
                 || Source(j, GmailThread, t) !in s.sources;
        }
        forall d: string ensures !(HoldsDraft(s, i, d) && HoldsDraft(s, j, d)) {
          assert !Conflict(s, Source(i, ComposeDraft, d), Source(j, ComposeDraft, d)) || Source(i, ComposeDraft, d) !in s.sources
                 || Source(j, ComposeDraft, d) !in s.sources;
        }
      }
    }
    if LinksUnique(s) {
      forall a, b | a in s.sources && b in s.sources ensures !Conflict(s, a, b) {
        if Conflict(s, a, b) {
          ConflictBreaks(s, a, b);
        }
      }
    }
  }

  lemma ConflictBreaks(s: ThreadLinks.State, a: Source, b: Source)
    requires a in s.sources && b in s.sources && Conflict(s, a, b)
    ensures !LinksUnique(s)
  {
    var i, j := if a.item < b.item then a.item else b.item, if a.item < b.item then b.item else a.item;
    if a.kind == GmailThread {
      assert Carries(s, i, a.ref) && Carries(s, j, a.ref);
    } else {
      assert HoldsDraft(s, i, a.ref) && HoldsDraft(s, j, a.ref);
    }
  }

  /** A clash of the moment becomes a conflict. */
  lemma ClashConflicts(s: ThreadLinks.State, op: ThreadLinks.Op, row: Source)
    requires Backed(s) && Placed(s, op) && row in s.sources && Rivals(s, op, row)
    ensures !RowsUnique(Effect(s, op))
  {
    var own := Source(TargetOf(s, op), row.kind, row.ref);
    EffectIsBacked(s, op);
    EffectAdds(s, op, own);
    EffectAdds(s, op, row);
    assert Conflict(Effect(s, op), row, own);
  }

  /** A row of the moment and the call's own link are in conflict only if the row rivals the call. */
  lemma OwnConflictRivals(s: ThreadLinks.State, op: ThreadLinks.Op, row: Source, own: Source)
    requires Backed(s) && Placed(s, op) && row in s.sources && OwnLink(s, op, own)
    ensures Conflict(Effect(s, op), row, own) || Conflict(Effect(s, op), own, row) ==> Rivals(s, op, row)
  {
    EffectIsBacked(s, op);
  }

  /** Writing keeps links unique exactly when no row of the moment clashes. */
  lemma EffectKeepsUnique(s: ThreadLinks.State, op: ThreadLinks.Op)
    requires Backed(s) && RowsUnique(s) && Placed(s, op)
    ensures RowsUnique(Effect(s, op)) <==> !Clash(s, op)
  {
    if row :| row in s.sources && Rivals(s, op, row) {
      ClashConflicts(s, op, row);
    } else {
      forall a, b | a in Effect(s, op).sources && b in Effect(s, op).sources ensures !Conflict(Effect(s, op), a, b) {
        EffectAdds(s, op, a);
        EffectAdds(s, op, b);
        if a in s.sources && b in s.sources {
          EffectIsBacked(s, op);
          assert !Conflict(s, a, b);
        } else if a in s.sources {
          OwnConflictRivals(s, op, a, b);
        } else if b in s.sources {
          OwnConflictRivals(s, op, b, a);
        }
      }
    }
  }

  /** Checks that pass leave nothing to clash with. */
  lemma PassingIsClear(s: ThreadLinks.State, op: ThreadLinks.Op)
    requires Backed(s) && RowsUnique(s) && Passes(s, op)
    ensures !Clash(s, op)
  {
    forall row | row in s.sources ensures !Rivals(s, op, row) {
      if row.kind == GmailThread && ThreadOf(op) == Some(row.ref) && row.item < |s.items| && s.items[row.item].org == OrgOf(op) {
        FoundByThread(s, row);
      }
    }
  }

  lemma FoundByThread(s: ThreadLinks.State, row: Source)
    requires Backed(s) && RowsUnique(s) && row in s.sources && row.kind == GmailThread && row.item < |s.items|
    ensures ItemByThread(s, s.items[row.item].org, row.ref) == Some(row.item)
  {
    RowsTellUniqueness(s);
    SoleCarrierIsFound(s, row.item, row.ref);
  }

  // ---------------------------------------------------------------------------
  // Runs
  // ---------------------------------------------------------------------------

  /** A call whose checks have passed, and how many source rows there were then. */
  datatype Call = Call(op: ThreadLinks.Op, since: nat, finished: bool)

  datatype Race = Race(store: ThreadLinks.State, calls: seq<Call>)

  datatype Move = Check(op: ThreadLinks.Op) | Write(call: nat)

  predicate Pending(r: Race, n: nat) {
    n < |r.calls| && !r.calls[n].finished && Placed(r.store, r.calls[n].op)
  }

  function Next(r: Race, m: Move): Race {
    match m
    case Check(op) => if Passes(r.store, op) then r.(calls := r.calls + [Call(op, |r.store.sources|, false)]) else r
    case Write(n) =>
      if Pending(r, n) then Race(Effect(r.store, r.calls[n].op), r.calls[n := r.calls[n].(finished := true)]) else r
  }

  /** What each move does: checks that pass leave a pending call, and a pending call writes once. */
  lemma NextDoes(r: Race, op: ThreadLinks.Op, n: nat)
    ensures Next(r, Check(op)) == if Passes(r.store, op) then Race(r.store, r.calls + [Call(op, |r.store.sources|, false)]) else r
    ensures Pending(r, n) ==>
              && Next(r, Write(n)).store == Effect(r.store, r.calls[n].op)
              && Next(r, Write(n)).calls == r.calls[n := Call(r.calls[n].op, r.calls[n].since, true)]
              && !Pending(Next(r, Write(n)), n)
  {
  }

  ghost predicate IsRace(hist: seq<Race>, moves: seq<Move>) {
    && |hist| == |moves| + 1 && hist[0] == Race(ThreadLinks.State([], []), [])
    && forall k | 0 <= k < |moves| :: hist[k + 1] == Next(hist[k], moves[k])
  }

  /** A rival row was written since the call made its checks. */
  predicate Overtaken(s: ThreadLinks.State, c: Call) {
    exists k | 0 <= k < |s.sources| :: c.since <= k && Rivals(s, c.op, s.sources[k])
  }

  predicate WritesSecond(r: Race, m: Move) {
    m.Write? && Pending(r, m.call) && Overtaken(r.store, r.calls[m.call])
  }

  /** No row from before its checks rivals a call. */
  ghost predicate Tracked(s: ThreadLinks.State, c: Call) {
    c.since <= |s.sources| && forall k | 0 <= k < c.since :: !Rivals(s, c.op, s.sources[k])
  }

  ghost predicate Sound(r: Race) {
    Backed(r.store) && forall n | 0 <= n < |r.calls| && !r.calls[n].finished :: Placed(r.store, r.calls[n].op) && Tracked(r.store, r.calls[n])
  }

  lemma TrackedLater(s: ThreadLinks.State, c: Call, op: ThreadLinks.Op)
    requires Backed(s) && Placed(s, op) && Placed(s, c.op) && Tracked(s, c)
    ensures Placed(Effect(s, op), c.op) && Tracked(Effect(s, op), c)
  {
    EffectIsBacked(s, op);
    var after := Effect(s, op);
    forall k | 0 <= k < c.since ensures !Rivals(after, c.op, after.sources[k]) {
      assert after.sources[k] == s.sources[k] && s.sources[k] in s.sources;
    }
  }

  lemma NextKeepsSound(r: Race, m: Move)
    requires Sound(r) && RowsUnique(r.store)
    ensures Sound(Next(r, m))
  {
    match m
    case Check(op) =>
      if Passes(r.store, op) {
        PassingIsClear(r.store, op);
      }
    case Write(n) =>
      if Pending(r, n) {
        EffectIsBacked(r.store, r.calls[n].op);
        forall i | 0 <= i < |r.calls| && !r.calls[i].finished
          ensures Placed(Effect(r.store, r.calls[n].op), r.calls[i].op) && Tracked(Effect(r.store, r.calls[n].op), r.calls[i])
        {
          TrackedLater(r.store, r.calls[i], r.calls[n].op);
        }
      }
  }

  /** One step keeps links unique exactly when it does not write for a call that was overtaken. */
  lemma NextKeepsUnique(r: Race, m: Move)
    requires Sound(r) && RowsUnique(r.store)
    ensures RowsUnique(Next(r, m).store) <==> !WritesSecond(r, m)
  {
    if m.Write? && Pending(r, m.call) {
      var c := r.calls[m.call];
      EffectKeepsUnique(r.store, c.op);
      if row :| row in r.store.sources && Rivals(r.store, c.op, row) {
        var k :| 0 <= k < |r.store.sources| && r.store.sources[k] == row;
        assert c.since <= k;
      }
    }
  }

  /**
   Over every run of overlapping calls no thread and no draft ever has two items of one organisation
   exactly when no call writes after a rival row was written since its checks.
   */
  lemma UniqueOverRaces(hist: seq<Race>, moves: seq<Move>)
    requires IsRace(hist, moves)
    ensures (forall k | 0 <= k <= |moves| :: LinksUnique(hist[k].store)) <==> (forall k | 0 <= k < |moves| :: !WritesSecond(hist[k], moves[k]))
  {
    forall k | 0 <= k <= |moves| ensures Backed(hist[k].store) && (LinksUnique(hist[k].store) <==> RowsUnique(hist[k].store)) {
      BackedOverRaces(hist, moves, k);
      RowsTellUniqueness(hist[k].store);
    }
    if forall k | 0 <= k <= |moves| :: LinksUnique(hist[k].store) {
      forall k | 0 <= k < |moves| ensures !WritesSecond(hist[k], moves[k]) {
        SoundWhileUnique(hist, moves, k);
        NextKeepsUnique(hist[k], moves[k]);
        assert LinksUnique(hist[k + 1].store);
      }
    }
    if forall k | 0 <= k < |moves| :: !WritesSecond(hist[k], moves[k]) {
      forall k | 0 <= k <= |moves| ensures LinksUnique(hist[k].store) {
        UniqueWhileNotOvertaken(hist, moves, k);
      }
    }
  }

  lemma {:induction false} BackedOverRaces(hist: seq<Race>, moves: seq<Move>, k: nat)
    requires IsRace(hist, moves) && k <= |moves|
    ensures Backed(hist[k].store)
  {
    if k > 0 {
      BackedOverRaces(hist, moves, k - 1);
      var r, m := hist[k - 1], moves[k - 1];
      if m.Write? && Pending(r, m.call) {
        EffectIsBacked(r.store, r.calls[m.call].op);
      }
    }
  }

  lemma {:induction false} SoundWhileUnique(hist: seq<Race>, moves: seq<Move>, k: nat)
    requires IsRace(hist, moves) && k <= |moves|
    requires forall j | 0 <= j <= |moves| :: RowsUnique(hist[j].store)
    ensures Sound(hist[k])
  {
    if k > 0 {
      SoundWhileUnique(hist, moves, k - 1);
      NextKeepsSound(hist[k - 1], moves[k - 1]);
    }
  }

  lemma {:induction false} UniqueWhileNotOvertaken(hist: seq<Race>, moves: seq<Move>, k: nat)
    requires IsRace(hist, moves) && k <= |moves|
    requires forall j | 0 <= j < |moves| :: !WritesSecond(hist[j], moves[j])
    ensures Sound(hist[k]) && RowsUnique(hist[k].store)
  {
    if k > 0 {
      UniqueWhileNotOvertaken(hist, moves, k - 1);
      NextKeepsSound(hist[k - 1], moves[k - 1]);
      NextKeepsUnique(hist[k - 1], moves[k - 1]);
    }
  }

  /** A concrete race: two calls to create a record for one thread both find it free, and both do. */
  lemma TwoRecordsForOneThread(org: string, thread: string) returns (hist: seq<Race>, moves: seq<Move>)
    ensures IsRace(hist, moves) && |moves| == 4
    ensures |hist[4].store.items| == 2 && !LinksUnique(hist[4].store)
  {
    var op := DoComposeCreate(org, None, Some(thread));
    moves := [Check(op), Check(op), Write(0), Write(1)];
    var r1 := Next(Race(ThreadLinks.State([], []), []), moves[0]);
    var r2 := Next(r1, moves[1]);
    var r3 := Next(r2, moves[2]);
    var r4 := Next(r3, moves[3]);
    hist := [Race(ThreadLinks.State([], []), []), r1, r2, r3, r4];
    assert r2.calls == [Call(op, 0, false), Call(op, 0, false)];
    assert r4.store.items == [Item(org, Some(thread)), Item(org, Some(thread))];
    assert Carries(r4.store, 0, thread) && Carries(r4.store, 1, thread);
  }
}
