/**
 The confidence-gate recalibration batch. The gate is any deterministic function of the
 signal persisted with an item; the batch never writes to that signal.
 */
module Recalibration {
  import opened Wrappers
  import opened Text

  type Id = string

  /** What the gate reads: field values, sender, document type, and the per-field confidences if any. */
  datatype Signal = Signal(values: string, confidences: Option<string>)

  /** The gate's verdict: blocking fields, advisory fields, and the remaining detail. */
  datatype Verdict = Verdict(review: bool, blockers: seq<string>, advisories: seq<string>, detail: string)

  datatype GateNote = GateNote(detail: string, recalibratedAt: nat)

  datatype Metadata = Metadata(
    requiresReview: bool, exceptionCode: Option<string>,
    blockers: seq<string>, advisories: seq<string>, gateNote: Option<GateNote>, rest: string)

  datatype Item = Item(
    org: string, signal: Signal, columnFlag: bool,
    exceptionCode: Option<string>, exceptionSeverity: Option<string>, metadata: Metadata)

  datatype Decision = Cleared | BlockersChanged | NoChange | Skipped

  datatype Outcome = Outcome(
    id: Id, decision: Decision,
    oldBlockers: multiset<string>, newBlockers: multiset<string>, newAdvisories: multiset<string>)

  /** The idempotency key: the item and the gate's blocking fields, in any order. */
  datatype Key = Key(id: Id, blockers: multiset<string>)

  datatype AuditEvent = AuditEvent(key: Key, org: string, decision: Decision, at: nat)

  type Gate = Signal -> Verdict

  /** The item table with its newest-first listing order, and the audit log. */
  datatype State = State(rows: map<Id, Item>, order: seq<Id>, audit: seq<AuditEvent>)

  ghost predicate Valid(s: State) {
    && (forall i | 0 <= i < |s.order| :: s.order[i] in s.rows)
    && (forall i, j | 0 <= i < j < |s.order| :: s.order[i] != s.order[j])
  }

  // ---------------------------------------------------------------------------
  // One record
  // ---------------------------------------------------------------------------

  predicate MarksReview(code: Option<string>) {
    code.Some? && Lower(Trim(code.value)) == "field_review_required"
  }

  /** The record is in field review: by either flag or by either exception code. */
  predicate InReview(item: Item) {
    item.columnFlag || item.metadata.requiresReview || MarksReview(item.exceptionCode) || MarksReview(item.metadata.exceptionCode)
  }

  /** The record is re-evaluated: in review and with confidences to go by. */
  predicate Evaluated(item: Item) {
    InReview(item) && item.signal.confidences.Some?
  }

  function Decide(item: Item, v: Verdict): Decision {
    if InReview(item) && !v.review then Cleared
    else if InReview(item) && v.review && multiset(item.metadata.blockers) != multiset(v.blockers) then BlockersChanged
    else NoChange
  }

  function WithoutReview(item: Item, v: Verdict, now: nat): Item {
    var metadata := item.metadata.(
      requiresReview := false, blockers := [], advisories := v.advisories, gateNote := Some(GateNote(v.detail, now)));
    if MarksReview(item.exceptionCode)
    then item.(metadata := metadata, exceptionCode := None, exceptionSeverity := None)
    else item.(metadata := metadata)
  }

  function WithNewBlockers(item: Item, v: Verdict, now: nat): Item {
    item.(metadata := item.metadata.(
      requiresReview := true, blockers := v.blockers, advisories := v.advisories, gateNote := Some(GateNote(v.detail, now))))
  }

  /** The row a committed run leaves behind. */
  function Recalibrated(item: Item, gate: Gate, now: nat): Item {
    if !Evaluated(item) then item
    else
      var v := gate(item.signal);
      match Decide(item, v)
      case Cleared => WithoutReview(item, v, now)
      case BlockersChanged => WithNewBlockers(item, v, now)
      case _ => item
  }

  function OutcomeOf(id: Id, item: Item, gate: Gate): Outcome {
    if item.signal.confidences.None? then Outcome(id, Skipped, multiset{}, multiset{}, multiset{})
    else
      var v := gate(item.signal);
      Outcome(id, Decide(item, v), multiset(item.metadata.blockers), multiset(v.blockers), multiset(v.advisories))
  }

  function EventOf(id: Id, item: Item, gate: Gate, now: nat): AuditEvent {
    var v := gate(item.signal);
    AuditEvent(Key(id, multiset(v.blockers)), item.org, Decide(item, v), now)
  }

  // ---------------------------------------------------------------------------
  // The batch
  // ---------------------------------------------------------------------------

  /** `max(1, min(limit or 200, 10000))`. */
  function SafeLimit(limit: int): nat {
    var wanted := if limit == 0 then 200 else limit;
    if wanted < 1 then 1 else if wanted > 10000 then 10000 else wanted
  }

  function OfOrg(rows: map<Id, Item>, ids: seq<Id>, org: string): seq<Id> {
    if ids == [] then []
    else
      var front := OfOrg(rows, ids[..|ids| - 1], org);
      var last := ids[|ids| - 1];
      if last in rows && rows[last].org == org then front + [last] else front
  }

  function Listed(s: State, org: string, limit: int): seq<Id> {
    var all := OfOrg(s.rows, s.order, org);
    if |all| <= SafeLimit(limit) then all else all[..SafeLimit(limit)]
  }

  function Appended(audit: seq<AuditEvent>, e: AuditEvent): seq<AuditEvent> {
    if exists i | 0 <= i < |audit| :: audit[i].key == e.key then audit else audit + [e]
  }

  function OutcomesFor(rows: map<Id, Item>, ids: seq<Id>, gate: Gate): seq<Outcome> {
    if ids == [] then []
    else
      var front := OutcomesFor(rows, ids[..|ids| - 1], gate);
      var last := ids[|ids| - 1];
      if last in rows && InReview(rows[last]) then front + [OutcomeOf(last, rows[last], gate)] else front
  }

  function AuditAfter(audit: seq<AuditEvent>, rows: map<Id, Item>, ids: seq<Id>, gate: Gate, now: nat): seq<AuditEvent> {
    if ids == [] then audit
    else
      var front := AuditAfter(audit, rows, ids[..|ids| - 1], gate, now);
      var last := ids[|ids| - 1];
      if last in rows && Evaluated(rows[last]) then Appended(front, EventOf(last, rows[last], gate, now)) else front
  }

  function RowsAfter(rows: map<Id, Item>, ids: seq<Id>, gate: Gate, now: nat): map<Id, Item> {
    map id | id in rows :: if id in ids then Recalibrated(rows[id], gate, now) else rows[id]
  }

  /** A committed run. */
  function Commit(s: State, org: string, limit: int, gate: Gate, now: nat): State {
    var ids := Listed(s, org, limit);
    State(RowsAfter(s.rows, ids, gate, now), s.order, AuditAfter(s.audit, s.rows, ids, gate, now))
  }

  function Outcomes(s: State, org: string, limit: int, gate: Gate): seq<Outcome> {
    OutcomesFor(s.rows, Listed(s, org, limit), gate)
  }

  // ---------------------------------------------------------------------------
  // One record, twice
  // ---------------------------------------------------------------------------

  /** The record with the time of its last recalibration blanked out. */
  function Unstamped(item: Item): Item {
    match item.metadata.gateNote
    case Some(note) => item.(metadata := item.metadata.(gateNote := Some(note.(recalibratedAt := 0))))
    case None => item
  }

  /**
   What a committed run does to a record it evaluates: the gate's blocks are kept in review
   with exactly the gate's blocking fields; a cleared one leaves review exactly when neither
   the column flag nor the metadata's own exception code marks it; an unrelated exception
   code survives, and the gate would say the same again.
   */
  lemma RecordAfterCommit(item: Item, gate: Gate, now: nat)
    requires Evaluated(item)
    ensures Recalibrated(item, gate, now).signal == item.signal
    ensures gate(item.signal).review ==>
              && InReview(Recalibrated(item, gate, now))
              && multiset(Recalibrated(item, gate, now).metadata.blockers) == multiset(gate(item.signal).blockers)
    ensures !gate(item.signal).review ==>
              (InReview(Recalibrated(item, gate, now)) <==> item.columnFlag || MarksReview(item.metadata.exceptionCode))
    ensures !MarksReview(item.exceptionCode) ==>
              && Recalibrated(item, gate, now).exceptionCode == item.exceptionCode
              && Recalibrated(item, gate, now).exceptionSeverity == item.exceptionSeverity
    ensures Recalibrated(item, gate, now).metadata.exceptionCode == item.metadata.exceptionCode
    ensures Recalibrated(item, gate, now).metadata.rest == item.metadata.rest
  {
  }

  /** A second run leaves the record as the first did, up to the time stamp, and shifts no blockers. */
  lemma RecordSettles(item: Item, gate: Gate, now: nat, later: nat)
    ensures var first := Recalibrated(item, gate, now);
            && Unstamped(Recalibrated(first, gate, later)) == Unstamped(first)
            && first.org == item.org && first.signal == item.signal
            && (Evaluated(first) ==> Evaluated(item) && Decide(first, gate(first.signal)) != BlockersChanged)
  {
  }

  // ---------------------------------------------------------------------------
  // The batch, twice
  // ---------------------------------------------------------------------------

  lemma {:induction false} OfOrgIsStable(rows: map<Id, Item>, later: map<Id, Item>, ids: seq<Id>, org: string)
    requires rows.Keys == later.Keys && forall id | id in rows :: later[id].org == rows[id].org
    ensures OfOrg(later, ids, org) == OfOrg(rows, ids, org)
  {
    if ids != [] {
      OfOrgIsStable(rows, later, ids[..|ids| - 1], org);
    }
  }

  lemma ListedIsStable(s: State, org: string, limit: int, gate: Gate, now: nat)
    ensures Listed(Commit(s, org, limit, gate, now), org, limit) == Listed(s, org, limit)
  {
    forall id | id in s.rows ensures Commit(s, org, limit, gate, now).rows[id].org == s.rows[id].org {
      RecordSettles(s.rows[id], gate, now, now);
    }
    OfOrgIsStable(s.rows, Commit(s, org, limit, gate, now).rows, s.order, org);
  }

  predicate HasKey(audit: seq<AuditEvent>, key: Key) {
    exists i | 0 <= i < |audit| :: audit[i].key == key
  }

  lemma AppendedHasKey(audit: seq<AuditEvent>, e: AuditEvent)
    ensures HasKey(Appended(audit, e), e.key)
    ensures forall key | HasKey(audit, key) :: HasKey(Appended(audit, e), key)
    ensures audit <= Appended(audit, e)
  {
    var after := Appended(audit, e);
    if !HasKey(audit, e.key) {
      assert after[|audit|].key == e.key;
    }
    forall key | HasKey(audit, key) ensures HasKey(after, key) {
      var i :| 0 <= i < |audit| && audit[i].key == key;
      assert after[i].key == key;
    }
  }

  /** A committed run only adds to the log, and every evaluated record is accounted for under its key. */
  lemma {:induction false} AuditCovers(audit: seq<AuditEvent>, rows: map<Id, Item>, ids: seq<Id>, gate: Gate, now: nat)
    ensures audit <= AuditAfter(audit, rows, ids, gate, now)
    ensures forall key | HasKey(audit, key) :: HasKey(AuditAfter(audit, rows, ids, gate, now), key)
    ensures forall id | id in ids && id in rows && Evaluated(rows[id]) ::
              HasKey(AuditAfter(audit, rows, ids, gate, now), EventOf(id, rows[id], gate, now).key)
  {
    if ids != [] {
      var n := |ids| - 1;
      AuditCovers(audit, rows, ids[..n], gate, now);
      var front := AuditAfter(audit, rows, ids[..n], gate, now);
      if ids[n] in rows && Evaluated(rows[ids[n]]) {
        AppendedHasKey(front, EventOf(ids[n], rows[ids[n]], gate, now));
      }
    }
  }

  /** A log that already accounts for every evaluated record does not grow. */
  lemma {:induction false} AuditIsComplete(audit: seq<AuditEvent>, rows: map<Id, Item>, ids: seq<Id>, gate: Gate, now: nat)
    requires forall id | id in ids && id in rows && Evaluated(rows[id]) :: HasKey(audit, EventOf(id, rows[id], gate, now).key)
    ensures AuditAfter(audit, rows, ids, gate, now) == audit
  {
    if ids != [] {
      AuditIsComplete(audit, rows, ids[..|ids| - 1], gate, now);
    }
  }

  lemma {:induction false} NoShiftReported(rows: map<Id, Item>, ids: seq<Id>, gate: Gate)
    requires forall id | id in ids && id in rows && Evaluated(rows[id]) :: Decide(rows[id], gate(rows[id].signal)) != BlockersChanged
    ensures forall o | o in OutcomesFor(rows, ids, gate) :: o.decision != BlockersChanged
  {
    if ids != [] {
      NoShiftReported(rows, ids[..|ids| - 1], gate);
    }
  }

  /**
   Recalibration is idempotent: a second committed run changes no row beyond the time stamp,
   adds no audit event, and reports no shifted blockers.
   */
  lemma SecondCommitIsIdle(s: State, org: string, limit: int, gate: Gate, now: nat, later: nat)
    ensures var once := Commit(s, org, limit, gate, now);
            var twice := Commit(once, org, limit, gate, later);
            && twice.rows.Keys == once.rows.Keys
            && (forall id | id in once.rows :: Unstamped(twice.rows[id]) == Unstamped(once.rows[id]))
            && twice.audit == once.audit
            && forall o | o in Outcomes(once, org, limit, gate) :: o.decision != BlockersChanged
  {
    var once := Commit(s, org, limit, gate, now);
    var ids := Listed(s, org, limit);
    ListedIsStable(s, org, limit, gate, now);
    AuditCovers(s.audit, s.rows, ids, gate, now);
    forall id | id in s.rows
      ensures Unstamped(Recalibrated(once.rows[id], gate, later)) == Unstamped(once.rows[id]) || id !in ids
      ensures id in ids && Evaluated(once.rows[id]) ==>
                && HasKey(once.audit, EventOf(id, once.rows[id], gate, later).key)
                && Decide(once.rows[id], gate(once.rows[id].signal)) != BlockersChanged
    {
      RecordSettles(s.rows[id], gate, now, later);
      if id in ids && Evaluated(once.rows[id]) {
        assert EventOf(id, s.rows[id], gate, now).key == EventOf(id, once.rows[id], gate, later).key;
      }
    }
    AuditIsComplete(once.audit, once.rows, ids, gate, later);
    NoShiftReported(once.rows, ids, gate);
  }

  /** Records outside the listing, out of review, or without confidences are untouched. */
  lemma OthersAreUntouched(s: State, org: string, limit: int, gate: Gate, now: nat, id: Id)
    requires id in s.rows
    requires id !in Listed(s, org, limit) || !Evaluated(s.rows[id])
    ensures Commit(s, org, limit, gate, now).rows[id] == s.rows[id]
  {
  }

  lemma {:induction false} OfOrgMembers(rows: map<Id, Item>, ids: seq<Id>, org: string)
    ensures forall id | id in OfOrg(rows, ids, org) :: id in ids && id in rows && rows[id].org == org
    ensures (forall i, j | 0 <= i < j < |ids| :: ids[i] != ids[j]) ==>
              forall i, j | 0 <= i < j < |OfOrg(rows, ids, org)| :: OfOrg(rows, ids, org)[i] != OfOrg(rows, ids, org)[j]
  {
    if ids != [] {
      var n := |ids| - 1;
      OfOrgMembers(rows, ids[..n], org);
      assert forall i | 0 <= i < n :: ids[..n][i] == ids[i];
    }
  }

  /** Each row is listed at most once, and only rows of the named organisation are. */
  lemma ListedOnce(s: State, org: string, limit: int)
    requires Valid(s)
    ensures forall id | id in Listed(s, org, limit) :: id in s.rows && s.rows[id].org == org
    ensures forall i, j | 0 <= i < j < |Listed(s, org, limit)| :: Listed(s, org, limit)[i] != Listed(s, org, limit)[j]
  {
    OfOrgMembers(s.rows, s.order, org);
  }

  // ---------------------------------------------------------------------------
  // Which records are considered
  // ---------------------------------------------------------------------------

  /** The least and the greatest batch, and what a missing limit means. */
  lemma LimitExactly(limit: int)
    ensures SafeLimit(limit) == if limit == 0 then 200 else if limit < 0 then 1 else if limit <= 10000 then limit else 10000
  {
  }

  /** The place in the listing order holds a row of the organisation. */
  predicate Own(rows: map<Id, Item>, order: seq<Id>, org: string, i: nat)
    requires i < |order|
  {
    order[i] in rows && rows[order[i]].org == org
  }

  /** How many rows of the organisation come before the `n`-th place. */
  function Preceding(rows: map<Id, Item>, order: seq<Id>, org: string, n: nat): nat
    requires n <= |order|
  {
    if n == 0 then 0 else Preceding(rows, order, org, n - 1) + if Own(rows, order, org, n - 1) then 1 else 0
  }

  /** The organisation's rows in listing order: the `k`-th stands at a place that `k` of its rows precede. */
  lemma {:induction false} OfOrgPlaces(rows: map<Id, Item>, order: seq<Id>, org: string, n: nat) returns (at: seq<nat>)
    requires n <= |order|
    ensures |at| == |OfOrg(rows, order[..n], org)| == Preceding(rows, order, org, n)
    ensures forall k | 0 <= k < |at| ::
              && at[k] < n && Own(rows, order, org, at[k]) && Preceding(rows, order, org, at[k]) == k
              && order[at[k]] == OfOrg(rows, order[..n], org)[k]
    ensures forall i: nat | i < n && Own(rows, order, org, i) ::
              Preceding(rows, order, org, i) < |at| && at[Preceding(rows, order, org, i)] == i
    ensures forall j, k | 0 <= j < k < |at| :: at[j] < at[k]
  {
    at := [];
    if n > 0 {
      at := OfOrgPlaces(rows, order, org, n - 1);
      assert order[..n][..n - 1] == order[..n - 1];
      if Own(rows, order, org, n - 1) {
        at := at + [n - 1];
      }
    }
  }

  /** The place belongs to the organisation, and fewer of its rows come before it than the limit allows. */
  predicate WithinLimit(s: State, org: string, limit: int, i: nat)
    requires i < |s.order|
  {
    Own(s.rows, s.order, org, i) && Preceding(s.rows, s.order, org, i) < SafeLimit(limit)
  }

  /** The records considered are exactly the organisation's newest, up to the limit, in listing order. */
  lemma ListedExactly(s: State, org: string, limit: int) returns (at: seq<nat>)
    ensures |at| == |Listed(s, org, limit)|
    ensures forall k | 0 <= k < |at| :: at[k] < |s.order| && s.order[at[k]] == Listed(s, org, limit)[k]
    ensures forall j, k | 0 <= j < k < |at| :: at[j] < at[k]
    ensures forall i: nat | i < |s.order| :: i in at <==> WithinLimit(s, org, limit, i)
  {
    var all := OfOrgPlaces(s.rows, s.order, org, |s.order|);
    assert s.order[..|s.order|] == s.order;
    at := if |all| <= SafeLimit(limit) then all else all[..SafeLimit(limit)];
    forall i: nat | i < |s.order| ensures i in at <==> WithinLimit(s, org, limit, i) {
      if WithinLimit(s, org, limit, i) {
        assert at[Preceding(s.rows, s.order, org, i)] == i;
      }
    }
  }

  /** With distinct ids, a record is listed exactly when its place is within the limit. */
  lemma ListedWithinLimit(s: State, org: string, limit: int, i: nat)
    requires Valid(s) && i < |s.order|
    ensures s.order[i] in Listed(s, org, limit) <==> WithinLimit(s, org, limit, i)
  {
    var at := ListedExactly(s, org, limit);
    if s.order[i] in Listed(s, org, limit) {
      var k :| 0 <= k < |at| && Listed(s, org, limit)[k] == s.order[i];
      assert at[k] in at && at[k] == i;
    }
    if WithinLimit(s, org, limit, i) {
      var k :| 0 <= k < |at| && at[k] == i;
      assert Listed(s, org, limit)[k] == s.order[i];
    }
  }

  // ---------------------------------------------------------------------------
  // What is written and reported
  // ---------------------------------------------------------------------------

  /** Any one of four marks puts a record in review. */
  lemma MarksExactly(item: Item)
    ensures InReview(item)
       <==> || item.columnFlag || item.metadata.requiresReview
            || (item.exceptionCode.Some? && Lower(Trim(item.exceptionCode.value)) == "field_review_required")
            || (item.metadata.exceptionCode.Some? && Lower(Trim(item.metadata.exceptionCode.value)) == "field_review_required")
  {
  }

  /** The blocking fields differ, in number or in name. */
  predicate Shifted(item: Item, v: Verdict) {
    multiset(item.metadata.blockers) != multiset(v.blockers)
  }

  /** What a committed run writes to a record within the limit: each field, by the gate's verdict and the old row. */
  lemma RecordBecomes(item: Item, gate: Gate, now: nat)
    ensures var after, v := Recalibrated(item, gate, now), gate(item.signal);
            && after.org == item.org && after.signal == item.signal && after.columnFlag == item.columnFlag
            && after.metadata.exceptionCode == item.metadata.exceptionCode && after.metadata.rest == item.metadata.rest
            && (!Evaluated(item) || (v.review && !Shifted(item, v)) ==> after == item)
            && (Evaluated(item) && !v.review ==>
                  && after.metadata.requiresReview == false && after.metadata.blockers == [] && after.metadata.advisories == v.advisories
                  && after.metadata.gateNote == Some(GateNote(v.detail, now))
                  && after.exceptionCode == (if MarksReview(item.exceptionCode) then None else item.exceptionCode)
                  && after.exceptionSeverity == (if MarksReview(item.exceptionCode) then None else item.exceptionSeverity))
            && (Evaluated(item) && v.review && Shifted(item, v) ==>
                  && after.metadata.requiresReview == true && after.metadata.blockers == v.blockers && after.metadata.advisories == v.advisories
                  && after.metadata.gateNote == Some(GateNote(v.detail, now))
                  && after.exceptionCode == item.exceptionCode && after.exceptionSeverity == item.exceptionSeverity)
  {
  }

  /** A committed run writes so to every record within the limit, and to no other row. */
  lemma CommitWrites(s: State, org: string, limit: int, gate: Gate, now: nat, i: nat)
    requires Valid(s) && i < |s.order|
    ensures Commit(s, org, limit, gate, now).order == s.order && Commit(s, org, limit, gate, now).rows.Keys == s.rows.Keys
    ensures Commit(s, org, limit, gate, now).rows[s.order[i]] ==
            if WithinLimit(s, org, limit, i) then Recalibrated(s.rows[s.order[i]], gate, now) else s.rows[s.order[i]]
  {
    ListedWithinLimit(s, org, limit, i);
  }

  /**
   After a committed run every record within the limit that the gate blocks is in review with the
   gate's blocking fields, and every one it passes is in review exactly by the marks the run
   does not clear. The gate gives each of them the verdict it gave before.
   */
  lemma CommitSettles(s: State, org: string, limit: int, gate: Gate, now: nat, i: nat)
    requires Valid(s) && i < |s.order| && WithinLimit(s, org, limit, i) && Evaluated(s.rows[s.order[i]])
    ensures var before := s.rows[s.order[i]];
            var after := Commit(s, org, limit, gate, now).rows[s.order[i]];
            && after.signal == before.signal
            && (gate(after.signal).review ==> InReview(after) && multiset(after.metadata.blockers) == multiset(gate(after.signal).blockers))
            && (!gate(after.signal).review ==> (InReview(after) <==> after.columnFlag || MarksReview(after.metadata.exceptionCode)))
            && (MarksReview(before.exceptionCode) || after.exceptionCode == before.exceptionCode)
  {
    RecordAfterCommit(s.rows[s.order[i]], gate, now);
    CommitWrites(s, org, limit, gate, now, i);
  }

  /** What is reported about a record in review. */
  predicate Reports(o: Outcome, id: Id, item: Item, gate: Gate) {
    var v := gate(item.signal);
    && o.id == id
    && (item.signal.confidences == None ==>
          o.decision == Skipped && o.oldBlockers == multiset{} && o.newBlockers == multiset{} && o.newAdvisories == multiset{})
    && (item.signal.confidences != None ==>
          && o.decision == (if !v.review then Cleared else if Shifted(item, v) then BlockersChanged else NoChange)
          && o.oldBlockers == multiset(item.metadata.blockers)
          && o.newBlockers == multiset(v.blockers) && o.newAdvisories == multiset(v.advisories))
  }

  lemma OutcomeReports(id: Id, item: Item, gate: Gate)
    requires InReview(item)
    ensures Reports(OutcomeOf(id, item, gate), id, item, gate)
  {
  }

  predicate Considered(rows: map<Id, Item>, id: Id) {
    id in rows && InReview(rows[id])
  }

  /** The outcomes report the considered records, in order: the `k`-th the one at position `at[k]`. */
  ghost predicate ReportedAt(rows: map<Id, Item>, ids: seq<Id>, gate: Gate, outcomes: seq<Outcome>, at: seq<nat>) {
    && |at| == |outcomes|
    && (forall k | 0 <= k < |at| ::
          at[k] < |ids| && Considered(rows, ids[at[k]]) && Reports(outcomes[k], ids[at[k]], rows[ids[at[k]]], gate))
    && (forall j, k | 0 <= j < k < |at| :: at[j] < at[k])
    && (forall i: nat | i < |ids| && Considered(rows, ids[i]) :: i in at)
  }

  lemma ReportedOneMore(rows: map<Id, Item>, ids: seq<Id>, id: Id, gate: Gate, outcomes: seq<Outcome>, at: seq<nat>, o: Outcome)
    requires ReportedAt(rows, ids, gate, outcomes, at)
    ensures !Considered(rows, id) ==> ReportedAt(rows, ids + [id], gate, outcomes, at)
    ensures Considered(rows, id) && Reports(o, id, rows[id], gate) ==> ReportedAt(rows, ids + [id], gate, outcomes + [o], at + [|ids|])
  {
  }

  /** There is one outcome for each listed record in review, in listing order, and no other. */
  lemma {:induction false} OutcomesExactly(rows: map<Id, Item>, ids: seq<Id>, gate: Gate) returns (at: seq<nat>)
    ensures ReportedAt(rows, ids, gate, OutcomesFor(rows, ids, gate), at)
  {
    at := [];
    if ids != [] {
      var front, last := ids[..|ids| - 1], ids[|ids| - 1];
      at := OutcomesExactly(rows, front, gate);
      assert ids == front + [last];
      if Considered(rows, last) {
        OutcomeReports(last, rows[last], gate);
        ReportedOneMore(rows, front, last, gate, OutcomesFor(rows, front, gate), at, OutcomeOf(last, rows[last], gate));
        at := at + [|front|];
      } else {
        ReportedOneMore(rows, front, last, gate, OutcomesFor(rows, front, gate), at, Outcome(last, Skipped, multiset{}, multiset{}, multiset{}));
      }
    }
  }

  /** The event logs the decision on this evaluated record, at this time. */
  predicate Logs(e: AuditEvent, id: Id, item: Item, gate: Gate, now: nat) {
    var v := gate(item.signal);
    && e.key == Key(id, multiset(v.blockers)) && e.org == item.org && e.at == now
    && e.decision == if !v.review then Cleared else if Shifted(item, v) then BlockersChanged else NoChange
  }

  ghost predicate LogsSome(e: AuditEvent, rows: map<Id, Item>, ids: seq<Id>, gate: Gate, now: nat) {
    exists id :: id in ids && id in rows && Evaluated(rows[id]) && Logs(e, id, rows[id], gate, now)
  }

  /** A committed run logs only decisions on listed, evaluated records, each under a key the log did not hold. */
  lemma {:induction false} AuditAdds(audit: seq<AuditEvent>, rows: map<Id, Item>, ids: seq<Id>, gate: Gate, now: nat)
    ensures audit <= AuditAfter(audit, rows, ids, gate, now)
    ensures forall k | |audit| <= k < |AuditAfter(audit, rows, ids, gate, now)| ::
              && LogsSome(AuditAfter(audit, rows, ids, gate, now)[k], rows, ids, gate, now)
              && forall j | 0 <= j < k :: AuditAfter(audit, rows, ids, gate, now)[j].key != AuditAfter(audit, rows, ids, gate, now)[k].key
  {
    if ids != [] {
      var n := |ids| - 1;
      AuditAdds(audit, rows, ids[..n], gate, now);
      var front, after := AuditAfter(audit, rows, ids[..n], gate, now), AuditAfter(audit, rows, ids, gate, now);
      forall k | |audit| <= k < |after| ensures LogsSome(after[k], rows, ids, gate, now) {
        if k < |front| {
          assert LogsSome(front[k], rows, ids[..n], gate, now);
          var id :| id in ids[..n] && id in rows && Evaluated(rows[id]) && Logs(front[k], id, rows[id], gate, now);
          assert id in ids;
        } else {
          assert Logs(after[k], ids[n], rows[ids[n]], gate, now);
        }
      }
    }
  }

  /** The tables once the given listed records have had their turn. */
  function Progress(s: State, ids: seq<Id>, commit: bool, gate: Gate, now: nat): State {
    if commit then State(RowsAfter(s.rows, ids, gate, now), s.order, AuditAfter(s.audit, s.rows, ids, gate, now)) else s
  }

  /** What one record's turn leaves behind. */
  function TurnOf(s: State, id: Id, item: Item, commit: bool, gate: Gate, now: nat): State {
    if !commit then s
    else s.(rows := s.rows[id := Recalibrated(item, gate, now)],
            audit := if Evaluated(item) then Appended(s.audit, EventOf(id, item, gate, now)) else s.audit)
  }

  /** The next listed record's turn is one more step of progress. */
  lemma OneMore(s: State, ids: seq<Id>, i: nat, commit: bool, gate: Gate, now: nat)
    requires i < |ids| && ids[i] in s.rows && forall j, k | 0 <= j < k < |ids| :: ids[j] != ids[k]
    ensures var p := Progress(s, ids[..i], commit, gate, now);
            && ids[i] in p.rows && p.rows[ids[i]] == s.rows[ids[i]]
            && Progress(s, ids[..i + 1], commit, gate, now) == TurnOf(p, ids[i], s.rows[ids[i]], commit, gate, now)
  {
    assert ids[..i + 1] == ids[..i] + [ids[i]];
    assert ids[..i + 1][..i] == ids[..i];
    if commit {
      var q := Progress(s, ids[..i + 1], commit, gate, now);
      var t := TurnOf(Progress(s, ids[..i], commit, gate, now), ids[i], s.rows[ids[i]], commit, gate, now);
      assert q.rows == t.rows && q.audit == t.audit;
    }
  }

  lemma OneMoreOutcome(rows: map<Id, Item>, ids: seq<Id>, i: nat, gate: Gate)
    requires i < |ids| && ids[i] in rows
    ensures OutcomesFor(rows, ids[..i + 1], gate)
            == OutcomesFor(rows, ids[..i], gate) + if InReview(rows[ids[i]]) then [OutcomeOf(ids[i], rows[ids[i]], gate)] else []
  {
    assert ids[..i + 1][..i] == ids[..i];
  }

  // ---------------------------------------------------------------------------
  // The script, step by step
  // ---------------------------------------------------------------------------

  class Store {
    var rows: map<Id, Item>
    var order: seq<Id>
    var audit: seq<AuditEvent>

    function Now(): State
      reads this
    {
      State(rows, order, audit)
    }

    constructor (s: State)
      ensures Now() == s
    {
      rows, order, audit := s.rows, s.order, s.audit;
    }

    method ApplyClear(id: Id, item: Item, v: Verdict, now: nat)
      modifies this`rows
      ensures rows == old(rows)[id := WithoutReview(item, v, now)]
    {
      var metadata := item.metadata;
      metadata := metadata.(requiresReview := false);
      metadata := metadata.(blockers := [], advisories := v.advisories);
      metadata := metadata.(gateNote := Some(GateNote(v.detail, now)));
      var updated := item.(metadata := metadata);
      if MarksReview(item.exceptionCode) {
        updated := updated.(exceptionCode := None, exceptionSeverity := None);
      }
      rows := rows[id := updated];
    }

    method ApplyBlockersChanged(id: Id, item: Item, v: Verdict, now: nat)
      modifies this`rows
      ensures rows == old(rows)[id := WithNewBlockers(item, v, now)]
    {
      var metadata := item.metadata;
      metadata := metadata.(requiresReview := true);
      metadata := metadata.(blockers := v.blockers, advisories := v.advisories);
      metadata := metadata.(gateNote := Some(GateNote(v.detail, now)));
      rows := rows[id := item.(metadata := metadata)];
    }

    method EmitAudit(e: AuditEvent)
      modifies this`audit
      ensures audit == Appended(old(audit), e)
    {
      var seen := false;
      for i := 0 to |audit|
        invariant seen == exists k | 0 <= k < i :: audit[k].key == e.key
      {
        if audit[i].key == e.key {
          seen := true;
        }
      }
      if !seen {
        audit := audit + [e];
      }
    }

    /** The committed part of one record's turn: update the row as decided, then log the decision. */
    method Apply(id: Id, item: Item, gate: Gate, now: nat)
      requires Evaluated(item) && id in rows && rows[id] == item
      modifies this`rows, this`audit
      ensures rows == old(rows)[id := Recalibrated(item, gate, now)]
      ensures audit == Appended(old(audit), EventOf(id, item, gate, now))
    {
      var v := gate(item.signal);
      var decision := Decide(item, v);
      if decision == Cleared {
        ApplyClear(id, item, v, now);
      } else if decision == BlockersChanged {
        ApplyBlockersChanged(id, item, v, now);
      } else {
        assert rows == rows[id := item];
      }
      EmitAudit(AuditEvent(Key(id, multiset(v.blockers)), item.org, decision, now));
    }

    /** One record's turn in the loop: what is reported about it, and what a committed run does to it. */
    method TakeTurn(id: Id, item: Item, commit: bool, gate: Gate, now: nat) returns (outcome: seq<Outcome>)
      requires id in rows && rows[id] == item
      modifies this`rows, this`audit
      ensures outcome == if InReview(item) then [OutcomeOf(id, item, gate)] else []
      ensures Now() == TurnOf(old(Now()), id, item, commit, gate, now)
    {
      assert rows == rows[id := item];
      if !InReview(item) {
        return [];
      }
      if item.signal.confidences.Some? && commit {
        Apply(id, item, gate, now);
      }
      return [OutcomeOf(id, item, gate)];
    }

    /** A dry run changes nothing and reports the very outcomes a committed run would. */
    method Recalibrate(org: string, commit: bool, limit: int, gate: Gate, now: nat) returns (outcomes: seq<Outcome>)
      requires Valid(Now())
      modifies this
      ensures outcomes == Outcomes(old(Now()), org, limit, gate)
      ensures Now() == if commit then Commit(old(Now()), org, limit, gate, now) else old(Now())
    {
      ghost var before := Now();
      var ids := Listed(Now(), org, limit);
      ListedOnce(Now(), org, limit);
      var fetched := rows;
      outcomes := [];
      for i := 0 to |ids|
        invariant outcomes == OutcomesFor(fetched, ids[..i], gate)
        invariant Now() == Progress(before, ids[..i], commit, gate, now)
      {
        OneMore(before, ids, i, commit, gate, now);
        OneMoreOutcome(fetched, ids, i, gate);
        var outcome := TakeTurn(ids[i], fetched[ids[i]], commit, gate, now);
        outcomes := outcomes + outcome;
      }
      assert ids[..|ids|] == ids;
    }
  }
}
