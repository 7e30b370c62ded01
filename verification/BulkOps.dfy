/**
 The four bulk endpoints over AP items: approve, reject, snooze and retry-post. The finance
 runtime is any function from the items and a call to the new items and an outcome, so the
 results hold whatever it does between turns.
 */
module BulkOps {
  import opened Wrappers
  import opened Text

  type Id = string

  datatype Item = Item(org: string, state: string)

  type Items = map<Id, Item>

  datatype Kind = Approve | Reject | Snooze | RetryPost

  datatype Call = Call(kind: Kind, org: string, id: Id)

  /** What an intent does: raise, or answer with a status (blank when the answer is empty). */
  datatype Outcome = Raised(message: string) | Returned(status: string, reason: Option<string>, reference: Option<string>)

  type Runtime = (Items, Call) -> (Items, Outcome)

  /** One row of the response; `ok` is absent on rows that never got an answer. */
  datatype Entry = Entry(id: Id, status: string, ok: Option<bool>, reason: Option<string>, reference: Option<string>)

  datatype Response = Response(total: nat, succeeded: nat, failed: int, results: seq<Entry>)

  /** The item table and the log of calls made to the runtime. */
  datatype World = World(items: Items, calls: seq<Call>)

  // ---------------------------------------------------------------------------
  // One item's turn
  // ---------------------------------------------------------------------------

  predicate OkStatus(kind: Kind, status: string) {
    match kind
    case Approve => status in {"approved", "posted", "posted_to_erp", "ready_to_post"}
    case Reject => status == "rejected"
    case Snooze => status == "snoozed"
    case RetryPost => status in {"posted", "posted_to_erp", "ready_to_post"}
  }

  function ErrorEntry(id: Id, reason: string): Entry {
    Entry(id, "error", None, Some(reason), None)
  }

  function SnoozeReason(item: Item, status: string, reason: Option<string>): string {
    var intent := if reason.Some? && reason.value != "" then reason.value else if status != "" then status else "snooze_failed";
    if status == "blocked" && intent in {"state_not_snoozeable", "duration_minutes_required"}
    then "invalid_state_transition:" + Lower(Trim(item.state))
    else intent
  }

  function EntryFor(kind: Kind, id: Id, item: Item, outcome: Outcome): (e: Entry)
    ensures e.id == id
  {
    match outcome
    case Raised(message) => ErrorEntry(id, message)
    case Returned(raw, reason, reference) =>
      var status := Lower(Trim(raw));
      if kind == Snooze then
        if OkStatus(kind, status) then Entry(id, status, Some(true), None, reference)
        else Entry(id, "error", Some(false), Some(SnoozeReason(item, status, reason)), None)
      else Entry(id, if status != "" then status else "unknown", Some(OkStatus(kind, status)), reason, reference)
  }

  /** The caller's organisation owns the item. */
  predicate Owned(items: Items, org: string, id: Id) {
    id in items && items[id].org == org
  }

  /** The item gets as far as the runtime. */
  predicate Reaches(items: Items, kind: Kind, org: string, id: Id) {
    Owned(items, org, id) && (kind == RetryPost ==> Lower(items[id].state) == "failed_post")
  }

  function Turn(w: World, kind: Kind, org: string, id: Id, run: Runtime): (World, Entry) {
    if !Owned(w.items, org, id) then (w, ErrorEntry(id, "ap_item_not_found_or_wrong_org"))
    else if !Reaches(w.items, kind, org, id) then
      (w, ErrorEntry(id, "invalid_state:" + Lower(w.items[id].state) + "_expected_failed_post"))
    else
      var (items, outcome) := run(w.items, Call(kind, org, id));
      (World(items, w.calls + [Call(kind, org, id)]), EntryFor(kind, id, w.items[id], outcome))
  }

  /** One item's turn: it reaches the runtime, with the request's own kind, organisation and id, exactly when the organisation owns it and a retry finds it failed; otherwise nothing happens and its row says so. */
  lemma TurnExactly(w: World, kind: Kind, org: string, id: Id, run: Runtime)
    ensures var (after, row) := Turn(w, kind, org, id, run);
            var reaches := id in w.items && w.items[id].org == org && (kind != RetryPost || Lower(w.items[id].state) == "failed_post");
            && row.id == id
            && (reaches ==> after.calls == w.calls + [Call(kind, org, id)] && after.items == run(w.items, Call(kind, org, id)).0)
            && (!reaches ==> after == w && row.status == "error" && row.ok == None)
            && (!reaches ==> row.reason == Some(if id in w.items && w.items[id].org == org
                                                then "invalid_state:" + Lower(w.items[id].state) + "_expected_failed_post"
                                                else "ap_item_not_found_or_wrong_org"))
  {
  }

  /** The statuses that count as success, by endpoint. */
  predicate Succeeds(kind: Kind, status: string) {
    || (kind == Approve && status in {"approved", "posted", "posted_to_erp", "ready_to_post"})
    || (kind == Reject && status == "rejected")
    || (kind == Snooze && status == "snoozed")
    || (kind == RetryPost && status in {"posted", "posted_to_erp", "ready_to_post"})
  }

  /** A row is ok exactly when the runtime answered with a status of success; a raised error is told in its row. */
  lemma RowTellsOutcome(w: World, kind: Kind, org: string, id: Id, run: Runtime)
    requires Reaches(w.items, kind, org, id)
    ensures var outcome := run(w.items, Call(kind, org, id)).1;
            var row := Turn(w, kind, org, id, run).1;
            && (row.ok == Some(true) <==> outcome.Returned? && Succeeds(kind, Lower(Trim(outcome.status))))
            && (outcome.Raised? ==> row == Entry(id, "error", None, Some(outcome.message), None))
            && (outcome.Returned? && kind != Snooze ==>
                  && row.status == (if Trim(outcome.status) == "" then "unknown" else Lower(Trim(outcome.status)))
                  && row.reason == outcome.reason && row.reference == outcome.reference)
            && (outcome.Returned? && kind == Snooze && row.ok == Some(true) ==> row.status == "snoozed" && row.reference == outcome.reference)
            && (outcome.Returned? && kind == Snooze && row.ok != Some(true) ==> row.status == "error" && row.ok == Some(false))
  {
  }

  /** A refused snooze gives the runtime's reason, else its status, else a fixed one; the two reasons for a blocked state name the state instead. */
  lemma SnoozeRefusalTells(w: World, org: string, id: Id, run: Runtime)
    requires Reaches(w.items, Snooze, org, id)
    ensures var outcome := run(w.items, Call(Snooze, org, id)).1;
            var row := Turn(w, Snooze, org, id, run).1;
            outcome.Returned? && row.ok == Some(false) ==>
              var status := Lower(Trim(outcome.status));
              var given := if outcome.reason.Some? && outcome.reason.value != "" then outcome.reason.value
                           else if status != "" then status else "snooze_failed";
              row.reason == Some(if status == "blocked" && given in {"state_not_snoozeable", "duration_minutes_required"}
                                 then "invalid_state_transition:" + Lower(Trim(w.items[id].state)) else given)
  {
  }

  // ---------------------------------------------------------------------------
  // The batch
  // ---------------------------------------------------------------------------

  function WorldAfter(w: World, kind: Kind, org: string, ids: seq<Id>, run: Runtime): World {
    if ids == [] then w
    else Turn(WorldAfter(w, kind, org, ids[..|ids| - 1], run), kind, org, ids[|ids| - 1], run).0
  }

  /** The row of the `i`-th id, made in the world its predecessors left behind. */
  function RowAt(w: World, kind: Kind, org: string, ids: seq<Id>, run: Runtime, i: nat): Entry
    requires i < |ids|
  {
    Turn(WorldAfter(w, kind, org, ids[..i], run), kind, org, ids[i], run).1
  }

  function Rows(w: World, kind: Kind, org: string, ids: seq<Id>, run: Runtime): (rows: seq<Entry>)
    ensures |rows| == |ids| && forall i | 0 <= i < |ids| :: rows[i] == RowAt(w, kind, org, ids, run, i)
  {
    seq(|ids|, i requires 0 <= i < |ids| => RowAt(w, kind, org, ids, run, i))
  }

  function Successes(rows: seq<Entry>): nat {
    if rows == [] then 0
    else Successes(rows[..|rows| - 1]) + if rows[|rows| - 1].ok == Some(true) then 1 else 0
  }

  function Respond(rows: seq<Entry>, total: nat): Response {
    Response(total, Successes(rows), total - Successes(rows), rows)
  }

  lemma {:induction false} SuccessesWithin(rows: seq<Entry>)
    ensures Successes(rows) <= |rows|
    ensures Successes(rows) == |rows| <==> forall i | 0 <= i < |rows| :: rows[i].ok == Some(true)
  {
    if rows != [] {
      SuccessesWithin(rows[..|rows| - 1]);
    }
  }

  /** The places of the rows that are ok. */
  function OkPlaces(rows: seq<Entry>): set<nat> {
    set i: nat | i < |rows| && rows[i].ok == Some(true)
  }

  /** The succeeded count is the number of ok rows. */
  lemma {:induction false} SuccessesCount(rows: seq<Entry>)
    ensures Successes(rows) == |OkPlaces(rows)|
  {
    if rows == [] {
      assert OkPlaces(rows) == {};
    } else {
      var n := |rows| - 1;
      SuccessesCount(rows[..n]);
      assert OkPlaces(rows) == OkPlaces(rows[..n]) + if rows[n].ok == Some(true) then {n} else {};
    }
  }

  /** A batch starts from the world it finds, and each further id has its turn in the world its predecessors left. */
  lemma BatchTakesTurns(w: World, kind: Kind, org: string, ids: seq<Id>, run: Runtime, id: Id)
    ensures WorldAfter(w, kind, org, [], run) == w
    ensures WorldAfter(w, kind, org, ids + [id], run) == Turn(WorldAfter(w, kind, org, ids, run), kind, org, id, run).0
    ensures Rows(w, kind, org, ids + [id], run) ==
            Rows(w, kind, org, ids, run) + [Turn(WorldAfter(w, kind, org, ids, run), kind, org, id, run).1]
  {
    var more := ids + [id];
    assert more[..|ids| + 1] == more && more[..|ids|] == ids;
    RowsOneMore(w, kind, org, more, run, |ids|);
  }

  /** The rows of a longer prefix extend those of a shorter one. */
  lemma RowsOneMore(w: World, kind: Kind, org: string, ids: seq<Id>, run: Runtime, i: nat)
    requires i < |ids|
    ensures Rows(w, kind, org, ids[..i + 1], run) == Rows(w, kind, org, ids[..i], run) + [RowAt(w, kind, org, ids, run, i)]
    ensures WorldAfter(w, kind, org, ids[..i + 1], run) == Turn(WorldAfter(w, kind, org, ids[..i], run), kind, org, ids[i], run).0
  {
    assert ids[..i + 1][..i] == ids[..i];
    forall j | 0 <= j < i ensures RowAt(w, kind, org, ids[..i + 1], run, j) == RowAt(w, kind, org, ids[..i], run, j) {
      assert ids[..i + 1][..j] == ids[..i][..j];
    }
  }

  /** One row per requested id, in request order, and the counters account for every row. */
  lemma BatchConservesResults(w: World, kind: Kind, org: string, ids: seq<Id>, run: Runtime)
    ensures var r := Respond(Rows(w, kind, org, ids, run), |ids|);
            && |r.results| == r.total == |ids|
            && (forall i | 0 <= i < |ids| :: r.results[i].id == ids[i])
            && 0 <= r.failed && r.succeeded + r.failed == r.total
            && (r.failed == 0 <==> forall i | 0 <= i < |ids| :: r.results[i].ok == Some(true))
  {
    SuccessesWithin(Rows(w, kind, org, ids, run));
  }

  /** Call number `c` was made for the `i`-th requested id, which the caller's organisation owned at that moment. */
  ghost predicate MadeAt(w: World, kind: Kind, org: string, ids: seq<Id>, run: Runtime, c: nat, i: nat) {
    && i < |ids| && c < |WorldAfter(w, kind, org, ids, run).calls|
    && WorldAfter(w, kind, org, ids, run).calls[c] == Call(kind, org, ids[i])
    && Reaches(WorldAfter(w, kind, org, ids[..i], run).items, kind, org, ids[i])
  }

  ghost predicate Authorised(w: World, kind: Kind, org: string, ids: seq<Id>, run: Runtime, c: nat) {
    exists i: nat :: MadeAt(w, kind, org, ids, run, c, i)
  }

  /** Every runtime call of a batch is for a requested item that, at that moment, belonged to the caller's organisation. */
  lemma {:induction false} CallsAreOwned(w: World, kind: Kind, org: string, ids: seq<Id>, run: Runtime)
    ensures w.calls <= WorldAfter(w, kind, org, ids, run).calls
    ensures |WorldAfter(w, kind, org, ids, run).calls| <= |w.calls| + |ids|
    ensures forall c: nat | |w.calls| <= c < |WorldAfter(w, kind, org, ids, run).calls| :: Authorised(w, kind, org, ids, run, c)
  {
    if ids != [] {
      var n := |ids| - 1;
      var front := ids[..n];
      CallsAreOwned(w, kind, org, front, run);
      var before, after := WorldAfter(w, kind, org, front, run), WorldAfter(w, kind, org, ids, run);
      assert after == Turn(before, kind, org, ids[n], run).0;
      forall c: nat | |w.calls| <= c < |after.calls| ensures Authorised(w, kind, org, ids, run, c) {
        if c < |before.calls| {
          assert Authorised(w, kind, org, front, run, c);
          var i: nat :| MadeAt(w, kind, org, front, run, c, i);
          assert front[..i] == ids[..i];
          assert MadeAt(w, kind, org, ids, run, c, i);
        } else {
          assert MadeAt(w, kind, org, ids, run, c, n);
        }
      }
    }
  }

  /** The runtime never creates, deletes or re-homes an item. */
  ghost predicate KeepsHomes(run: Runtime) {
    forall items: Items, call: Call ::
      run(items, call).0.Keys == items.Keys && forall id | id in items :: run(items, call).0[id].org == items[id].org
  }

  lemma {:induction false} HomesKept(w: World, kind: Kind, org: string, ids: seq<Id>, run: Runtime)
    requires KeepsHomes(run)
    ensures WorldAfter(w, kind, org, ids, run).items.Keys == w.items.Keys
    ensures forall id | id in w.items :: WorldAfter(w, kind, org, ids, run).items[id].org == w.items[id].org
  {
    if ids != [] {
      HomesKept(w, kind, org, ids[..|ids| - 1], run);
    }
  }

  /** Under such a runtime, an id foreign to the organisation at the start never reaches it. */
  lemma ForeignIdsNeverReachRuntime(w: World, kind: Kind, org: string, ids: seq<Id>, run: Runtime, c: nat)
    requires KeepsHomes(run) && |w.calls| <= c < |WorldAfter(w, kind, org, ids, run).calls|
    ensures WorldAfter(w, kind, org, ids, run).calls[c].id in ids
    ensures Owned(w.items, org, WorldAfter(w, kind, org, ids, run).calls[c].id)
  {
    CallsAreOwned(w, kind, org, ids, run);
    assert Authorised(w, kind, org, ids, run, c);
    var i: nat :| MadeAt(w, kind, org, ids, run, c, i);
    HomesKept(w, kind, org, ids[..i], run);
  }

  // ---------------------------------------------------------------------------
  // Isolation
  // ---------------------------------------------------------------------------

  /** A call reads and changes no item but its own. */
  ghost predicate Local(run: Runtime) {
    && (forall items: Items, call: Call ::
          run(items, call).0.Keys == items.Keys && forall id | id in items && id != call.id :: run(items, call).0[id] == items[id])
    && (forall a: Items, b: Items, call: Call ::
          call.id in a && call.id in b && a[call.id] == b[call.id] ==> run(a, call).1 == run(b, call).1)
  }

  lemma {:induction false} OthersUntouched(w: World, kind: Kind, org: string, ids: seq<Id>, run: Runtime, id: Id)
    requires Local(run) && id !in ids
    ensures id in WorldAfter(w, kind, org, ids, run).items <==> id in w.items
    ensures id in w.items ==> WorldAfter(w, kind, org, ids, run).items[id] == w.items[id]
  {
    if ids != [] {
      OthersUntouched(w, kind, org, ids[..|ids| - 1], run, id);
    }
  }

  /** With distinct ids and a local runtime, each row is what that item alone would have got. */
  lemma RowsAreIndependent(w: World, kind: Kind, org: string, ids: seq<Id>, run: Runtime, i: nat)
    requires Local(run) && i < |ids| && forall j, k | 0 <= j < k < |ids| :: ids[j] != ids[k]
    ensures |Rows(w, kind, org, ids, run)| == |ids|
    ensures Rows(w, kind, org, ids, run)[i] == Turn(w, kind, org, ids[i], run).1
  {
    OthersUntouched(w, kind, org, ids[..i], run, ids[i]);
  }

  /** So a failure of one item leaves every other row as it was. */
  lemma FailureIsContained(w: World, kind: Kind, org: string, ids: seq<Id>, run: Runtime, failing: Runtime, bad: Id)
    requires Local(run) && Local(failing) && forall j, k | 0 <= j < k < |ids| :: ids[j] != ids[k]
    requires forall items: Items, call: Call | call.id != bad :: failing(items, call).1 == run(items, call).1
    ensures |Rows(w, kind, org, ids, run)| == |Rows(w, kind, org, ids, failing)| == |ids|
    ensures forall i | 0 <= i < |ids| && ids[i] != bad ::
              Rows(w, kind, org, ids, failing)[i] == Rows(w, kind, org, ids, run)[i]
  {
    forall i | 0 <= i < |ids| && ids[i] != bad
      ensures Rows(w, kind, org, ids, failing)[i] == Rows(w, kind, org, ids, run)[i]
    {
      RowsAreIndependent(w, kind, org, ids, run, i);
      RowsAreIndependent(w, kind, org, ids, failing, i);
    }
  }

  // ---------------------------------------------------------------------------
  // Replays
  // ---------------------------------------------------------------------------

  /** What the audit log holds under an idempotency key. */
  datatype Slot = Saved(response: Response) | OtherEvent

  datatype Service = Service(world: World, slots: map<string, Slot>)

  datatype Reply = Reply(response: Response, replayed: bool)

  /** The lookup uses the key as given. */
  function Load(slots: map<string, Slot>, key: Option<string>): Option<Response> {
    if key.Some? && key.value != "" && key.value in slots && slots[key.value].Saved? then Some(slots[key.value].response) else None
  }

  /** The save goes through the audit log, which trims the key and keeps the first event under it. */
  function Save(slots: map<string, Slot>, key: Option<string>, response: Response): map<string, Slot> {
    if key.None? || Trim(key.value) == "" || Trim(key.value) in slots then slots
    else slots[Trim(key.value) := Saved(response)]
  }

  function Bulk(s: Service, kind: Kind, org: string, ids: seq<Id>, key: Option<string>, run: Runtime): (Service, Reply) {
    match Load(s.slots, key)
    case Some(stored) => (s, Reply(stored, true))
    case None =>
      var response := Respond(Rows(s.world, kind, org, ids, run), |ids|);
      (Service(WorldAfter(s.world, kind, org, ids, run), Save(s.slots, key, response)), Reply(response, false))
  }

  /**
   A repeated request is answered with the first response and no runtime call exactly when
   its key carries no surrounding blanks and no unrelated event occupies it. Otherwise the
   batch runs again.
   */
  lemma RepeatIsReplayedExactly(s: Service, kind: Kind, org: string, ids: seq<Id>, key: string, run: Runtime,
                                kind': Kind, org': string, ids': seq<Id>, run': Runtime)
    ensures var (after, first) := Bulk(s, kind, org, ids, Some(key), run);
            var (again, second) := Bulk(after, kind', org', ids', Some(key), run');
            && (second.replayed <==> key != "" && (if key in s.slots then s.slots[key].Saved? else Trim(key) == key))
            && (second.replayed ==> second.response == first.response && again == after)
  {
    TrimIsTrimmed(key);
  }

  /** A request that is not replayed runs its batch, answers with its rows, and saves nothing under another key. */
  lemma UnreplayedRuns(s: Service, kind: Kind, org: string, ids: seq<Id>, key: Option<string>, run: Runtime)
    requires Load(s.slots, key).None?
    ensures var (after, reply) := Bulk(s, kind, org, ids, key, run);
            && !reply.replayed && reply.response.results == Rows(s.world, kind, org, ids, run) && reply.response.total == |ids|
            && after.world == WorldAfter(s.world, kind, org, ids, run)
            && (key.None? ==> after.slots == s.slots)
            && forall other | other in s.slots :: other in after.slots && after.slots[other] == s.slots[other]
  {
  }

  /** A concrete repeat that is not replayed: the key has a leading blank, and both requests reach the runtime. */
  lemma PaddedKeyRunsTwice()
    ensures var item: Items := map["i" := Item("o", "received")];
            var run: Runtime := (items, call) => (items, Returned("approved", None, None));
            var start := Service(World(item, []), map[]);
            var (after, first) := Bulk(start, Approve, "o", ["i"], Some(" k"), run);
            var (again, second) := Bulk(after, Approve, "o", ["i"], Some(" k"), run);
            && !first.replayed && !second.replayed
            && after.world.calls == [Call(Approve, "o", "i")]
            && again.world.calls == [Call(Approve, "o", "i"), Call(Approve, "o", "i")]
  {
    var item: Items := map["i" := Item("o", "received")];
    var run: Runtime := (items, call) => (items, Returned("approved", None, None));
    var start := Service(World(item, []), map[]);
    var (after, first) := Bulk(start, Approve, "o", ["i"], Some(" k"), run);
    BlankIsTrimmed();
    RepeatIsReplayedExactly(start, Approve, "o", ["i"], " k", run, Approve, "o", ["i"], run);
    OneIdBatch(start.world, run);
    OneIdBatch(after.world, run);
  }

  lemma BlankIsTrimmed()
    ensures Trim(" k") != " k"
  {
    TrimIsTrimmed(" k");
    assert IsSpace(" k"[0]);
  }

  lemma OneIdBatch(w: World, run: Runtime)
    requires Owned(w.items, "o", "i") && forall items: Items, call: Call :: run(items, call).0 == items
    ensures WorldAfter(w, Approve, "o", ["i"], run) == World(w.items, w.calls + [Call(Approve, "o", "i")])
  {
    assert ["i"][..0] == [];
    assert WorldAfter(w, Approve, "o", [], run) == w;
  }

  /** The ids a response speaks of. */
  function Ids(rows: seq<Entry>): (ids: seq<Id>)
    ensures |ids| == |rows| && forall i | 0 <= i < |rows| :: ids[i] == rows[i].id
  {
    seq(|rows|, i requires 0 <= i < |rows| => rows[i].id)
  }

  /** A response answers for the ids that were asked for exactly when it is not a replay, or the stored response was for the same ids. */
  lemma ReplyAnswersRequestExactly(s: Service, kind: Kind, org: string, ids: seq<Id>, key: Option<string>, run: Runtime)
    ensures var reply := Bulk(s, kind, org, ids, key, run).1;
            && reply.replayed == Load(s.slots, key).Some?
            && (Ids(reply.response.results) == ids <==> !reply.replayed || Ids(Load(s.slots, key).value.results) == ids)
  {
    assert Ids(Rows(s.world, kind, org, ids, run)) == ids;
  }

  /**
   Keys are shared by all callers: a second request with the same key, whatever its organisation,
   endpoint and ids, is answered for its own ids exactly when it is not replayed, or asked for
   the ids of the first response.
   */
  lemma SharedKeyCrossesCallers(s: Service, kind: Kind, org: string, ids: seq<Id>, key: string, run: Runtime,
                                kind': Kind, org': string, ids': seq<Id>, run': Runtime)
    ensures var (after, first) := Bulk(s, kind, org, ids, Some(key), run);
            var (again, second) := Bulk(after, kind', org', ids', Some(key), run');
            Ids(second.response.results) == ids' <==> !second.replayed || Ids(first.response.results) == ids'
  {
    var (after, first) := Bulk(s, kind, org, ids, Some(key), run);
    RepeatIsReplayedExactly(s, kind, org, ids, key, run, kind', org', ids', run');
    ReplyAnswersRequestExactly(after, kind', org', ids', Some(key), run');
  }

  /** Under a fresh, unpadded key a second caller, asking for anything, is given the first caller's rows. */
  lemma FreshKeyIsShared(s: Service, kind: Kind, org: string, ids: seq<Id>, key: string, run: Runtime,
                         kind': Kind, org': string, ids': seq<Id>, run': Runtime)
    requires key !in s.slots && key != "" && Trimmed(key)
    ensures var (after, first) := Bulk(s, kind, org, ids, Some(key), run);
            var (again, second) := Bulk(after, kind', org', ids', Some(key), run');
            second.replayed && Ids(second.response.results) == ids
  {
    TrimIsTrimmed(key);
    RepeatIsReplayedExactly(s, kind, org, ids, key, run, kind', org', ids', run');
    ReplyAnswersRequestExactly(s, kind, org, ids, Some(key), run);
  }

  /** A concrete second caller, of another organisation and asking for nothing, who is given the first caller's row. */
  lemma SharedKeyAnswersWithOthersRows(run: Runtime)
    ensures var start := Service(World(map[], []), map[]);
            var (after, first) := Bulk(start, Approve, "o", ["i"], Some("k"), run);
            var (again, second) := Bulk(after, Reject, "p", [], Some("k"), run);
            second.replayed && Ids(second.response.results) == ["i"]
  {
    FreshKeyIsShared(Service(World(map[], []), map[]), Approve, "o", ["i"], "k", run, Reject, "p", [], run);
  }

  // ---------------------------------------------------------------------------
  // The endpoints, step by step
  // ---------------------------------------------------------------------------

  class BulkService {
    var items: Items
    var calls: seq<Call>
    var slots: map<string, Slot>

    function Now(): Service
      reads this
    {
      Service(World(items, calls), slots)
    }

    constructor (s: Service)
      ensures Now() == s
    {
      items, calls, slots := s.world.items, s.world.calls, s.slots;
    }

    method TakeTurn(kind: Kind, org: string, id: Id, run: Runtime) returns (entry: Entry)
      modifies this`items, this`calls
      ensures (World(items, calls), entry) == Turn(old(World(items, calls)), kind, org, id, run)
    {
      if id !in items || items[id].org != org {
        return ErrorEntry(id, "ap_item_not_found_or_wrong_org");
      }
      var item := items[id];
      if kind == RetryPost && Lower(item.state) != "failed_post" {
        return ErrorEntry(id, "invalid_state:" + Lower(item.state) + "_expected_failed_post");
      }
      var call := Call(kind, org, id);
      var (items', outcome) := run(items, call);
      items, calls := items', calls + [call];
      return EntryFor(kind, id, item, outcome);
    }

    /** The loop: one turn per id, never stopping at a failure. */
    method RunAll(kind: Kind, org: string, ids: seq<Id>, run: Runtime) returns (results: seq<Entry>, succeeded: nat)
      modifies this`items, this`calls
      ensures World(items, calls) == WorldAfter(old(World(items, calls)), kind, org, ids, run)
      ensures results == Rows(old(World(items, calls)), kind, org, ids, run) && succeeded == Successes(results)
    {
      ghost var w := World(items, calls);
      results, succeeded := [], 0;
      for i := 0 to |ids|
        invariant World(items, calls) == WorldAfter(w, kind, org, ids[..i], run)
        invariant results == Rows(w, kind, org, ids[..i], run) && succeeded == Successes(results)
      {
        RowsOneMore(w, kind, org, ids, run, i);
        var entry := TakeTurn(kind, org, ids[i], run);
        assert (results + [entry])[..|results|] == results;
        results := results + [entry];
        if entry.ok == Some(true) {
          succeeded := succeeded + 1;
        }
      }
      assert ids[..|ids|] == ids;
    }

    method RunBulk(kind: Kind, org: string, ids: seq<Id>, key: Option<string>, run: Runtime) returns (reply: Reply)
      modifies this
      ensures (Now(), reply) == Bulk(old(Now()), kind, org, ids, key, run)
    {
      var stored := Load(slots, key);
      if stored.Some? {
        return Reply(stored.value, true);
      }
      var results, succeeded := RunAll(kind, org, ids, run);
      var response := Response(|ids|, succeeded, |ids| - succeeded, results);
      if key.Some? && Trim(key.value) != "" && Trim(key.value) !in slots {
        slots := slots[Trim(key.value) := Saved(response)];
      }
      return Reply(response, false);
    }
  }
}
