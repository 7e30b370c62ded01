/**
 The read-through projection of one AP box. The box's state, exceptions and outcome are
 tables of their own; an exception or an outcome is committed first and its audit event
 appended afterwards, or lost. Projector runs overlap freely with writers and each other,
 and a projector reads the tables with six queries, one step each.
 */
module BoxProjection {
  import opened Wrappers

  // ---------------------------------------------------------------------------
  // The box and its log
  // ---------------------------------------------------------------------------

  datatype Effect =
    | MovedTo(state: string)
    | Raised(row: nat, code: string)
    | Resolved(row: nat)
    | Recorded(outcome: string)
    | NoteOnly

  datatype Event = Event(id: string, ts: int, effect: Effect)

  /** Exception rows by number, and the numbers of the resolved ones; rows are never deleted. */
  datatype Exceptions = Exceptions(raised: map<nat, string>, resolved: set<nat>)

  /** What a read reports about a box, apart from its timeline. */
  datatype View = View(state: string, exceptions: Exceptions, outcome: Option<string>)

  const INITIAL := View("received", Exceptions(map[], {}), None)

  function Apply(v: View, e: Effect): View {
    match e
    case MovedTo(state) => v.(state := state)
    case Raised(row, code) => v.(exceptions := v.exceptions.(raised := v.exceptions.raised[row := code]))
    case Resolved(row) => v.(exceptions := v.exceptions.(resolved := v.exceptions.resolved + {row}))
    case Recorded(outcome) => v.(outcome := Some(outcome))
    case NoteOnly => v
  }

  /** The box as its timeline tells it. */
  function Fold(log: seq<Event>): View {
    if log == [] then INITIAL else Apply(Fold(log[..|log| - 1]), log[|log| - 1].effect)
  }

  /** The tables show this exception, resolution or outcome. */
  predicate Holds(v: View, e: Effect) {
    match e
    case Raised(row, code) => row in v.exceptions.raised && v.exceptions.raised[row] == code
    case Resolved(row) => row in v.exceptions.resolved
    case Recorded(outcome) => v.outcome == Some(outcome)
    case _ => false
  }

  function Ids(log: seq<Event>): (ids: seq<string>)
    ensures |ids| == |log| && forall i | 0 <= i < |log| :: ids[i] == log[i].id
  {
    seq(|log|, i requires 0 <= i < |log| => log[i].id)
  }

  /** The ids of the newest events, newest first, at most `limit` of them. */
  function Newest(log: seq<Event>, limit: nat): (ids: seq<string>)
    ensures |ids| == if |log| < limit then |log| else limit
    ensures forall i | 0 <= i < |ids| :: ids[i] == log[|log| - 1 - i].id
  {
    if log == [] || limit == 0 then []
    else [log[|log| - 1].id] + Newest(log[..|log| - 1], limit - 1)
  }

  function Tip(log: seq<Event>): Option<string> {
    if log == [] then None else Some(log[|log| - 1].id)
  }

  const PREVIEW_LIMIT := 5

  // ---------------------------------------------------------------------------
  // Steps
  // ---------------------------------------------------------------------------

  /** What a projector run has read so far, and the moment of each of its queries. */
  datatype Draft = Draft(
    at: seq<nat>, state: string, preview: seq<string>, exceptions: Exceptions, outcome: Option<string>,
    eventCount: nat, tip: Option<string>)

  const QUERIES := 6
  const BLANK := Draft([], "", [], Exceptions(map[], {}), None, 0, None)

  /** `owed` holds the committed writes whose event is still to come, `lost` those whose append failed. */
  datatype State = State(
    clock: nat, view: View, rowsUsed: nat, log: seq<Event>, owed: set<Effect>, lost: set<Effect>,
    drafts: seq<Draft>, row: Option<Draft>)

  const START := State(0, INITIAL, 0, [], {}, {}, [], None)

  datatype Op =
    | Move(to: string, id: string, ts: int)
    | Raise(code: string)
    | Resolve(number: nat)
    | Record(outcome: string)
    | Narrate(effect: Effect, id: string, ts: int)
    | Lose(effect: Effect)
    | Note(id: string, ts: int)
    | Begin
    | Query(run: nat)
    | Upsert(run: nat)

  /** The table write a step commits: a resolved row stays as it is, and the first outcome wins. */
  function WriteOf(s: State, op: Op): Effect {
    match op
    case Move(to, _, _) => MovedTo(to)
    case Raise(code) => Raised(s.rowsUsed, code)
    case Resolve(number) =>
      if number in s.view.exceptions.raised && number !in s.view.exceptions.resolved then Resolved(number) else NoteOnly
    case Record(outcome) => if s.view.outcome.None? then Recorded(outcome) else NoteOnly
    case _ => NoteOnly
  }

  /** An event may come for a write that is owed, or again for a row resolved twice at once. */
  predicate Narratable(s: State, e: Effect) {
    e in s.owed || (e.Resolved? && e.row in s.view.exceptions.resolved)
  }

  /** The six queries in their order: state, timeline, exceptions, outcome, event count, newest event. */
  function NextQuery(s: State, d: Draft): Draft {
    var e := d.(at := d.at + [s.clock]);
    if |d.at| == 0 then e.(state := s.view.state)
    else if |d.at| == 1 then e.(preview := Newest(s.log, PREVIEW_LIMIT))
    else if |d.at| == 2 then e.(exceptions := s.view.exceptions)
    else if |d.at| == 3 then e.(outcome := s.view.outcome)
    else if |d.at| == 4 then e.(eventCount := |s.log|)
    else if |d.at| == 5 then e.(tip := Tip(s.log))
    else d
  }

  /** A write that leaves its event owed. */
  function Written(s: State, e: Effect): State {
    if e == NoteOnly then s else s.(view := Apply(s.view, e), owed := s.owed + {e})
  }

  function Do(s: State, op: Op): State {
    match op
    case Move(to, id, ts) => s.(view := s.view.(state := to), log := s.log + [Event(id, ts, MovedTo(to))])
    case Raise(_) => Written(s, WriteOf(s, op)).(rowsUsed := s.rowsUsed + 1)
    case Resolve(_) => Written(s, WriteOf(s, op))
    case Record(_) => Written(s, WriteOf(s, op))
    case Narrate(e, id, ts) =>
      if Narratable(s, e) then s.(log := s.log + [Event(id, ts, e)], owed := s.owed - {e}, lost := s.lost - {e}) else s
    case Lose(e) => if e in s.owed then s.(owed := s.owed - {e}, lost := s.lost + {e}) else s
    case Note(id, ts) => s.(log := s.log + [Event(id, ts, NoteOnly)])
    case Begin => s.(drafts := s.drafts + [BLANK])
    case Query(run) => if run < |s.drafts| then s.(drafts := s.drafts[run := NextQuery(s, s.drafts[run])]) else s
    case Upsert(run) => if run < |s.drafts| && |s.drafts[run].at| == QUERIES then s.(row := Some(s.drafts[run])) else s
  }

  function Step(s: State, op: Op): State {
    Do(s, op).(clock := s.clock + 1)
  }

  /** The state at a moment of a run: after its first `k` steps. */
  function At(ops: seq<Op>, k: nat): State
    requires k <= |ops|
  {
    if k == 0 then START else Step(At(ops, k - 1), ops[k - 1])
  }

  predicate Appends(op: Op) {
    op.Move? || op.Narrate? || op.Note?
  }

  /** A new event is later than every event before it and has an id of its own. */
  ghost predicate Allowed(s: State, op: Op) {
    Appends(op) ==> forall i | 0 <= i < |s.log| :: s.log[i].id != op.id && s.log[i].ts < op.ts
  }

  ghost predicate Legal(ops: seq<Op>) {
    forall k | 0 <= k < |ops| :: LegalAt(ops, k)
  }

  ghost predicate LegalAt(ops: seq<Op>, k: nat)
    requires k < |ops|
  {
    Allowed(At(ops, k), ops[k])
  }

  lemma {:induction false} ClockTicks(ops: seq<Op>, k: nat)
    requires k <= |ops|
    ensures At(ops, k).clock == k
  {
    if k > 0 {
      ClockTicks(ops, k - 1);
    }
  }

  // ---------------------------------------------------------------------------
  // What each step does
  // ---------------------------------------------------------------------------

  /** A transition moves the state and appends its event; nothing else of the box changes. */
  lemma MoveDoes(s: State, to: string, id: string, ts: int)
    ensures Step(s, Move(to, id, ts)) ==
            s.(clock := s.clock + 1, view := View(to, s.view.exceptions, s.view.outcome), log := s.log + [Event(id, ts, MovedTo(to))])
  {
  }

  /** Raising adds one exception under an unused number, with its code, and owes its event. */
  lemma RaiseDoes(s: State, code: string)
    requires Numbered(s)
    ensures var after, n := Step(s, Raise(code)), s.rowsUsed;
            && n !in s.view.exceptions.raised
            && after.view == View(s.view.state, Exceptions(s.view.exceptions.raised[n := code], s.view.exceptions.resolved), s.view.outcome)
            && after == s.(clock := s.clock + 1, view := after.view, rowsUsed := n + 1, owed := s.owed + {Raised(n, code)})
  {
  }

  /** Resolving a raised exception leaves it resolved; the event is owed exactly when it was not resolved before. */
  lemma ResolveDoes(s: State, n: nat)
    ensures var after := Step(s, Resolve(n));
            && (n in s.view.exceptions.raised ==> n in after.view.exceptions.resolved)
            && after.view == View(s.view.state, Exceptions(s.view.exceptions.raised, after.view.exceptions.resolved), s.view.outcome)
            && (forall other | other != n :: other in after.view.exceptions.resolved <==> other in s.view.exceptions.resolved)
            && after.owed == (if n in s.view.exceptions.raised && n !in s.view.exceptions.resolved then s.owed + {Resolved(n)} else s.owed)
            && after == s.(clock := s.clock + 1, view := after.view, owed := after.owed)
  {
  }

  /** The first outcome recorded stays; its event is owed. */
  lemma RecordDoes(s: State, outcome: string)
    ensures var after := Step(s, Record(outcome));
            && after.view == View(s.view.state, s.view.exceptions, if s.view.outcome == None then Some(outcome) else s.view.outcome)
            && after.owed == (if s.view.outcome == None then s.owed + {Recorded(outcome)} else s.owed)
            && after == s.(clock := s.clock + 1, view := after.view, owed := after.owed)
  {
  }

  /** The event of an owed write comes or is lost, and a note says nothing about the tables. */
  lemma TellingDoes(s: State, e: Effect, id: string, ts: int)
    ensures e in s.owed ==>
              && Step(s, Narrate(e, id, ts)) ==
                 s.(clock := s.clock + 1, log := s.log + [Event(id, ts, e)], owed := s.owed - {e}, lost := s.lost - {e})
              && Step(s, Lose(e)) == s.(clock := s.clock + 1, owed := s.owed - {e}, lost := s.lost + {e})
    ensures e.Resolved? && e.row in s.view.exceptions.resolved ==> Step(s, Narrate(e, id, ts)).log == s.log + [Event(id, ts, e)]
    ensures Step(s, Note(id, ts)) == s.(clock := s.clock + 1, log := s.log + [Event(id, ts, NoteOnly)])
  {
  }

  /** A projector's steps: a fresh draft, one more query, and a row once all six are made. */
  lemma ProjectingDoes(s: State, run: nat)
    requires run < |s.drafts|
    ensures Step(s, Begin).drafts == s.drafts + [BLANK] && Step(s, Begin).row == s.row
    ensures |s.drafts[run].at| < QUERIES ==> Step(s, Query(run)).drafts[run].at == s.drafts[run].at + [s.clock]
    ensures forall other | 0 <= other < |s.drafts| && other != run :: Step(s, Query(run)).drafts[other] == s.drafts[other]
    ensures Step(s, Upsert(run)).row == if |s.drafts[run].at| == QUERIES then Some(s.drafts[run]) else s.row
    ensures forall op | op in {Begin, Query(run), Upsert(run)} ::
              Step(s, op).view == s.view && Step(s, op).log == s.log && Step(s, op).owed == s.owed && Step(s, op).lost == s.lost
  {
  }

  // ---------------------------------------------------------------------------
  // The tables and the log
  // ---------------------------------------------------------------------------

  /** Everything the tables show is told by the log, owed to it, or lost, and only one of the three. */
  ghost predicate Accounted(s: State) {
    && s.view.state == Fold(s.log).state
    && (forall e :: Holds(s.view, e) <==> Holds(Fold(s.log), e) || e in s.owed || e in s.lost)
    && (forall e | e in s.owed || e in s.lost :: !Holds(Fold(s.log), e))
    && s.owed !! s.lost
    && Numbered(s)
  }

  /** Exception rows carry numbers handed out before. */
  ghost predicate Numbered(s: State) {
    forall row | row in s.view.exceptions.raised :: row < s.rowsUsed
  }

  /** Applying an effect makes it hold and leaves the others alone, unless it overwrites one. */
  lemma ApplyHolds(v: View, e: Effect)
    requires e.Raised? ==> e.row !in v.exceptions.raised || v.exceptions.raised[e.row] == e.code
    requires e.Recorded? ==> v.outcome.None? || v.outcome == Some(e.outcome)
    requires e != NoteOnly && !e.MovedTo?
    ensures forall other :: Holds(Apply(v, e), other) <==> other == e || Holds(v, other)
    ensures Apply(v, e).state == v.state
  {
  }

  lemma FoldOneMore(log: seq<Event>, ev: Event)
    ensures Fold(log + [ev]) == Apply(Fold(log), ev.effect)
  {
    assert (log + [ev])[..|log|] == log;
  }

  lemma WrittenIsAccounted(s: State, e: Effect)
    requires Accounted(s) && !Holds(s.view, e) && e != NoteOnly && !e.MovedTo?
    requires e.Raised? ==> e.row !in s.view.exceptions.raised && e.row < s.rowsUsed
    requires e.Recorded? ==> s.view.outcome.None?
    ensures Accounted(Written(s, e))
  {
    ApplyHolds(s.view, e);
    assert e !in s.owed && e !in s.lost;
  }

  lemma NarratedIsAccounted(s: State, e: Effect, ev: Event)
    requires Accounted(s) && Narratable(s, e) && ev.effect == e
    ensures Accounted(s.(log := s.log + [ev], owed := s.owed - {e}, lost := s.lost - {e}))
  {
    assert Holds(s.view, e);
    var told := Fold(s.log);
    assert e.Raised? && e.row in told.exceptions.raised ==> Holds(told, Raised(e.row, told.exceptions.raised[e.row]));
    assert e.Recorded? && told.outcome.Some? ==> Holds(told, Recorded(told.outcome.value));
    ApplyHolds(told, e);
    FoldOneMore(s.log, ev);
  }

  lemma WritingIsAccounted(s: State, op: Op)
    requires Accounted(s) && (op.Raise? || op.Resolve? || op.Record?)
    ensures Accounted(Step(s, op))
  {
    if op.Raise? {
      WrittenIsAccounted(s.(rowsUsed := s.rowsUsed + 1), WriteOf(s, op));
    } else if WriteOf(s, op) != NoteOnly {
      WrittenIsAccounted(s, WriteOf(s, op));
    }
  }

  lemma TellingIsAccounted(s: State, op: Op)
    requires Accounted(s) && (op.Move? || op.Note?)
    ensures Accounted(Step(s, op))
  {
    if op.Move? {
      FoldOneMore(s.log, Event(op.id, op.ts, MovedTo(op.to)));
      MoveHolds(s.view, op.to);
      MoveHolds(Fold(s.log), op.to);
    } else {
      FoldOneMore(s.log, Event(op.id, op.ts, NoteOnly));
    }
  }

  lemma StepIsAccounted(s: State, op: Op)
    requires Accounted(s)
    ensures Accounted(Step(s, op))
  {
    if op.Move? || op.Note? {
      TellingIsAccounted(s, op);
    } else if op.Raise? || op.Resolve? || op.Record? {
      WritingIsAccounted(s, op);
    } else if op.Narrate? && Narratable(s, op.effect) {
      NarratedIsAccounted(s, op.effect, Event(op.id, op.ts, op.effect));
    }
  }

  lemma MoveHolds(v: View, to: string)
    ensures forall e :: Holds(v.(state := to), e) <==> Holds(v, e)
  {
  }

  /** At every moment of every run the tables are accounted for. */
  lemma {:induction false} AccountedOverRuns(ops: seq<Op>, k: nat)
    requires k <= |ops|
    ensures Accounted(At(ops, k))
  {
    if k > 0 {
      AccountedOverRuns(ops, k - 1);
      StepIsAccounted(At(ops, k - 1), ops[k - 1]);
    }
  }

  lemma SameFacts(v: View, w: View)
    requires v.state == w.state && forall e :: Holds(v, e) <==> Holds(w, e)
    ensures v == w
  {
    forall row ensures row in v.exceptions.raised <==> row in w.exceptions.raised {
      if row in v.exceptions.raised {
        assert Holds(v, Raised(row, v.exceptions.raised[row]));
      }
      if row in w.exceptions.raised {
        assert Holds(w, Raised(row, w.exceptions.raised[row]));
      }
    }
    forall row | row in v.exceptions.raised ensures v.exceptions.raised[row] == w.exceptions.raised[row] {
      assert Holds(v, Raised(row, v.exceptions.raised[row]));
    }
    assert v.exceptions.raised == w.exceptions.raised;
    forall row ensures row in v.exceptions.resolved <==> row in w.exceptions.resolved {
      assert Holds(v, Resolved(row)) <==> Holds(w, Resolved(row));
    }
    assert v.exceptions.resolved == w.exceptions.resolved;
    if v.outcome.Some? {
      assert Holds(v, Recorded(v.outcome.value));
    }
    if w.outcome.Some? {
      assert Holds(w, Recorded(w.outcome.value));
    }
  }

  /** The tables are the fold of the box's whole log exactly while no write is without its event. */
  lemma TablesFoldExactly(ops: seq<Op>, k: nat)
    requires k <= |ops|
    ensures At(ops, k).view == Fold(At(ops, k).log) <==> At(ops, k).owed == {} && At(ops, k).lost == {}
  {
    var s := At(ops, k);
    AccountedOverRuns(ops, k);
    if s.owed == {} && s.lost == {} {
      SameFacts(s.view, Fold(s.log));
    } else {
      var e :| e in s.owed + s.lost;
      assert Holds(s.view, e) && !Holds(Fold(s.log), e);
    }
  }

  // ---------------------------------------------------------------------------
  // Every query has its own moment
  // ---------------------------------------------------------------------------

  /** The states at the moments before `k`. */
  function States(ops: seq<Op>, k: nat): seq<State>
    requires k <= |ops|
  {
    if k == 0 then [] else States(ops, k - 1) + [At(ops, k - 1)]
  }

  lemma {:induction false} StatesAt(ops: seq<Op>, k: nat)
    requires k <= |ops|
    ensures |States(ops, k)| == k
    ensures forall i | 0 <= i < k :: States(ops, k)[i] == At(ops, i)
  {
    if k > 0 {
      StatesAt(ops, k - 1);
    }
  }

  /** What a draft holds is what its queries saw, each at its own earlier moment, in order. */
  ghost predicate Faithful(past: seq<State>, d: Draft) {
    && |d.at| <= QUERIES
    && (forall i | 0 <= i < |d.at| :: d.at[i] < |past|)
    && (forall i, j | 0 <= i < j < |d.at| :: d.at[i] < d.at[j])
    && (|d.at| > 0 ==> d.state == past[d.at[0]].view.state)
    && (|d.at| > 1 ==> d.preview == Newest(past[d.at[1]].log, PREVIEW_LIMIT))
    && (|d.at| > 2 ==> d.exceptions == past[d.at[2]].view.exceptions)
    && (|d.at| > 3 ==> d.outcome == past[d.at[3]].view.outcome)
    && (|d.at| > 4 ==> d.eventCount == |past[d.at[4]].log|)
    && (|d.at| > 5 ==> d.tip == Tip(past[d.at[5]].log))
  }

  ghost predicate AllFaithful(past: seq<State>, s: State) {
    && (forall i | 0 <= i < |s.drafts| :: Faithful(past, s.drafts[i]))
    && (s.row.Some? ==> Faithful(past, s.row.value) && |s.row.value.at| == QUERIES)
  }

  lemma LaterIsFaithful(past: seq<State>, s: State, d: Draft)
    requires Faithful(past, d)
    ensures Faithful(past + [s], d)
  {
  }

  lemma QueryIsFaithful(past: seq<State>, s: State, d: Draft)
    requires Faithful(past, d) && s.clock == |past|
    ensures Faithful(past + [s], NextQuery(s, d))
  {
    LaterIsFaithful(past, s, d);
    assert (past + [s])[s.clock] == s;
  }

  lemma StepIsFaithful(past: seq<State>, s: State, op: Op, next: State)
    requires AllFaithful(past, s) && s.clock == |past| && next == Step(s, op)
    ensures AllFaithful(past + [s], next)
  {
    forall d | Faithful(past, d)
      ensures Faithful(past + [s], d) && Faithful(past + [s], NextQuery(s, d))
    {
      LaterIsFaithful(past, s, d);
      QueryIsFaithful(past, s, d);
    }
    StepDrafts(s, op);
  }

  /** Where the drafts and the row of a step come from. */
  lemma StepDrafts(s: State, op: Op)
    ensures |s.drafts| <= |Step(s, op).drafts|
    ensures forall i | 0 <= i < |Step(s, op).drafts| ::
              if i >= |s.drafts| then Step(s, op).drafts[i] == BLANK
              else Step(s, op).drafts[i] == s.drafts[i] || Step(s, op).drafts[i] == NextQuery(s, s.drafts[i])
    ensures Step(s, op).row == s.row
            || exists i :: 0 <= i < |s.drafts| && |s.drafts[i].at| == QUERIES && Step(s, op).row == Some(s.drafts[i])
  {
  }

  /** At every moment of every run, all drafts and the stored row are faithful, and the row is complete. */
  lemma {:induction false} FaithfulOverRuns(ops: seq<Op>, k: nat)
    requires k <= |ops|
    ensures AllFaithful(States(ops, k), At(ops, k))
  {
    if k > 0 {
      FaithfulOverRuns(ops, k - 1);
      FaithfulLater(ops, k - 1, At(ops, k - 1), At(ops, k));
    }
  }

  lemma FaithfulLater(ops: seq<Op>, k: nat, s: State, next: State)
    requires k < |ops| && s == At(ops, k) && AllFaithful(States(ops, k), s) && next == Step(s, ops[k])
    ensures AllFaithful(States(ops, k + 1), next)
  {
    StatesAt(ops, k);
    ClockTicks(ops, k);
    StepIsFaithful(States(ops, k), s, ops[k], next);
  }

  // ---------------------------------------------------------------------------
  // Serving
  // ---------------------------------------------------------------------------

  /** Whether the read path refuses the row; a box without events leaves it as it is. */
  predicate IsStale(log: seq<Event>, row: Draft) {
    if row.tip.None? then true
    else if Tip(log).None? then false
    else Tip(log) != row.tip
  }

  /** A row is refused when it names no event, or an event other than the newest there is. */
  lemma StaleExactly(log: seq<Event>, row: Draft)
    ensures IsStale(log, row) <==> row.tip == None || (log != [] && row.tip != Some(log[|log| - 1].id))
  {
  }

  /** The row a read serves when it fetches the row at moment `r` and checks it at moment `m`. */
  function ServedRow(ops: seq<Op>, r: nat, m: nat): Option<Draft>
    requires r <= m <= |ops|
  {
    var row := At(ops, r).row;
    if row.Some? && !IsStale(At(ops, m).log, row.value) then row else None
  }

  function RowView(row: Draft): View {
    View(row.state, row.exceptions, row.outcome)
  }

  lemma {:induction false} LogGrows(ops: seq<Op>, i: nat, j: nat)
    requires i <= j <= |ops|
    ensures At(ops, i).log <= At(ops, j).log
    decreases j
  {
    if i < j {
      LogGrows(ops, i, j - 1);
    }
  }

  predicate DistinctIds(log: seq<Event>) {
    forall i, j | 0 <= i < j < |log| :: log[i].id != log[j].id
  }

  lemma StepKeepsIds(s: State, op: Op, next: State)
    requires DistinctIds(s.log) && Allowed(s, op) && next == Step(s, op)
    ensures DistinctIds(next.log)
  {
  }

  lemma {:induction false} IdsDiffer(ops: seq<Op>, k: nat)
    requires Legal(ops) && k <= |ops|
    ensures DistinctIds(At(ops, k).log)
  {
    if k > 0 {
      IdsDiffer(ops, k - 1);
      assert LegalAt(ops, k - 1);
      StepKeepsIds(At(ops, k - 1), ops[k - 1], At(ops, k));
    }
  }

  lemma SameTipExactly(ops: seq<Op>, i: nat, m: nat)
    requires Legal(ops) && i <= m <= |ops|
    ensures At(ops, i).log != [] && Tip(At(ops, i).log) == Tip(At(ops, m).log) <==> At(ops, i).log == At(ops, m).log != []
  {
    LogGrows(ops, i, m);
    IdsDiffer(ops, m);
    var a, b := At(ops, i).log, At(ops, m).log;
    if a != [] && |a| < |b| {
      assert b[|a| - 1] == a[|a| - 1];
    }
    if |a| == |b| {
      assert a == b;
    }
  }

  /** A stored row is served exactly while the log is what it was at the row's last query, and not empty. */
  lemma ServedExactly(ops: seq<Op>, r: nat, m: nat)
    requires Legal(ops) && r <= m <= |ops| && At(ops, r).row.Some?
    ensures |At(ops, r).row.value.at| == QUERIES && At(ops, r).row.value.at[5] < r
    ensures ServedRow(ops, r, m).Some? <==> At(ops, At(ops, r).row.value.at[5]).log == At(ops, m).log != []
  {
    FaithfulOverRuns(ops, r);
    StatesAt(ops, r);
    var i := At(ops, r).row.value.at[5];
    LogGrows(ops, i, m);
    SameTipExactly(ops, i, m);
  }

  // ---------------------------------------------------------------------------
  // When a gathered view is right
  // ---------------------------------------------------------------------------

  /** The view made of the state, the exceptions and the outcome at three moments. */
  function Gather(ops: seq<Op>, a: nat, b: nat, c: nat): View
    requires a <= |ops| && b <= |ops| && c <= |ops|
  {
    View(At(ops, a).view.state, At(ops, b).view.exceptions, At(ops, c).view.outcome)
  }

  predicate MovesIn(ops: seq<Op>, a: nat, m: nat)
    requires a <= m <= |ops|
  {
    exists j | a <= j < m :: ops[j].Move?
  }

  predicate ExceptionWritesIn(ops: seq<Op>, b: nat, m: nat)
    requires b <= m <= |ops|
  {
    exists j | b <= j < m :: WritesException(At(ops, j), ops[j])
  }

  predicate OutcomeWritesIn(ops: seq<Op>, c: nat, m: nat)
    requires c <= m <= |ops|
  {
    exists j | c <= j < m :: WritesOutcome(At(ops, j), ops[j])
  }

  /** The step raises an exception, or resolves one that is raised and not yet resolved. */
  predicate WritesException(s: State, op: Op) {
    op.Raise? || (op.Resolve? && op.number in s.view.exceptions.raised && op.number !in s.view.exceptions.resolved)
  }

  /** The step records an outcome, and there is none yet. */
  predicate WritesOutcome(s: State, op: Op) {
    op.Record? && s.view.outcome == None
  }

  /** No transition since `a`, no exception raised or resolved since `b`, no outcome recorded since `c`. */
  predicate Quiet(ops: seq<Op>, a: nat, b: nat, c: nat, m: nat)
    requires a <= m && b <= m && c <= m <= |ops|
  {
    !MovesIn(ops, a, m) && !ExceptionWritesIn(ops, b, m) && !OutcomeWritesIn(ops, c, m)
  }

  lemma NumberedOverRuns(ops: seq<Op>, k: nat)
    requires k <= |ops|
    ensures Numbered(At(ops, k))
  {
    AccountedOverRuns(ops, k);
  }

  /** Exceptions and outcomes are only ever added. */
  lemma {:induction false} FactsStay(ops: seq<Op>, i: nat, j: nat, e: Effect)
    requires i <= j <= |ops| && Holds(At(ops, i).view, e)
    ensures Holds(At(ops, j).view, e)
    decreases j
  {
    if i < j {
      FactsStay(ops, i, j - 1, e);
      NumberedOverRuns(ops, j - 1);
      StepKeepsFact(At(ops, j - 1), ops[j - 1], e);
    }
  }

  lemma StepKeepsFact(s: State, op: Op, e: Effect)
    requires Numbered(s) && Holds(s.view, e)
    ensures Holds(Step(s, op).view, e)
  {
  }

  /** A write shows afterwards and did not show before. */
  lemma WriteIsNew(s: State, op: Op)
    requires Numbered(s) && (WritesException(s, op) || WritesOutcome(s, op))
    ensures !Holds(s.view, WriteOf(s, op)) && Holds(Step(s, op).view, WriteOf(s, op))
  {
  }

  lemma WriteChanges(ops: seq<Op>, b: nat, j: nat, m: nat)
    requires b <= j < m <= |ops| && (WritesException(At(ops, j), ops[j]) || WritesOutcome(At(ops, j), ops[j]))
    ensures var e := WriteOf(At(ops, j), ops[j]); !Holds(At(ops, b).view, e) && Holds(At(ops, m).view, e)
  {
    var e := WriteOf(At(ops, j), ops[j]);
    NumberedOverRuns(ops, j);
    WriteIsNew(At(ops, j), ops[j]);
    assert At(ops, j + 1) == Step(At(ops, j), ops[j]);
    FactsStay(ops, j + 1, m, e);
    if Holds(At(ops, b).view, e) {
      FactsStay(ops, b, j, e);
    }
  }

  lemma NoWriteStep(s: State, op: Op)
    ensures !WritesException(s, op) ==> Step(s, op).view.exceptions == s.view.exceptions
    ensures !WritesOutcome(s, op) ==> Step(s, op).view.outcome == s.view.outcome
    ensures !op.Move? ==> Step(s, op).view.state == s.view.state
  {
  }

  lemma {:induction false} NoExceptionWrite(ops: seq<Op>, b: nat, m: nat)
    requires b <= m <= |ops| && !ExceptionWritesIn(ops, b, m)
    ensures At(ops, m).view.exceptions == At(ops, b).view.exceptions
    decreases m
  {
    if b < m {
      NoExceptionWrite(ops, b, m - 1);
      NoWriteStep(At(ops, m - 1), ops[m - 1]);
    }
  }

  lemma {:induction false} NoOutcomeWrite(ops: seq<Op>, c: nat, m: nat)
    requires c <= m <= |ops| && !OutcomeWritesIn(ops, c, m)
    ensures At(ops, m).view.outcome == At(ops, c).view.outcome
    decreases m
  {
    if c < m {
      NoOutcomeWrite(ops, c, m - 1);
      NoWriteStep(At(ops, m - 1), ops[m - 1]);
    }
  }

  lemma {:induction false} NoMove(ops: seq<Op>, a: nat, m: nat)
    requires a <= m <= |ops| && !MovesIn(ops, a, m)
    ensures At(ops, m).view.state == At(ops, a).view.state
    decreases m
  {
    if a < m {
      NoMove(ops, a, m - 1);
      NoWriteStep(At(ops, m - 1), ops[m - 1]);
    }
  }

  /** Exceptions read earlier are current exactly when none was raised or resolved since. */
  lemma ExceptionsCurrentExactly(ops: seq<Op>, b: nat, m: nat)
    requires b <= m <= |ops|
    ensures At(ops, b).view.exceptions == At(ops, m).view.exceptions <==> !ExceptionWritesIn(ops, b, m)
  {
    if ExceptionWritesIn(ops, b, m) {
      var j :| b <= j < m && WritesException(At(ops, j), ops[j]);
      WriteChanges(ops, b, j, m);
    } else {
      NoExceptionWrite(ops, b, m);
    }
  }

  /** An outcome read earlier is current exactly when none was recorded since. */
  lemma OutcomeCurrentExactly(ops: seq<Op>, c: nat, m: nat)
    requires c <= m <= |ops|
    ensures At(ops, c).view.outcome == At(ops, m).view.outcome <==> !OutcomeWritesIn(ops, c, m)
  {
    if OutcomeWritesIn(ops, c, m) {
      var j :| c <= j < m && WritesOutcome(At(ops, j), ops[j]);
      WriteChanges(ops, c, j, m);
    } else {
      NoOutcomeWrite(ops, c, m);
    }
  }

  // ---------------------------------------------------------------------------
  // The same schedule with other states
  // ---------------------------------------------------------------------------

  /** The two runs differ at most in the states that transitions move to. */
  ghost predicate SameSchedule(ops: seq<Op>, other: seq<Op>) {
    |other| == |ops| && forall i | 0 <= i < |ops| :: SameOp(ops[i], other[i])
  }

  predicate SameOp(a: Op, b: Op) {
    a == b || (a.Move? && b.Move? && b == a.(to := b.to))
  }

  predicate SameEvent(a: Event, b: Event) {
    a == b || (a.effect.MovedTo? && b.effect.MovedTo? && b == a.(effect := b.effect))
  }

  ghost predicate SameLog(a: seq<Event>, b: seq<Event>) {
    |a| == |b| && forall i | 0 <= i < |a| :: SameEvent(a[i], b[i])
  }

  predicate SameDraft(a: Draft, b: Draft) {
    b == a.(state := b.state)
  }

  ghost predicate Alike(s: State, t: State) {
    && SameLog(s.log, t.log)
    && SameDrafts(s.drafts, t.drafts)
    && (s.row.Some? <==> t.row.Some?) && (s.row.Some? ==> SameDraft(s.row.value, t.row.value))
    && t == s.(view := s.view.(state := t.view.state), log := t.log, drafts := t.drafts, row := t.row)
  }

  lemma SameQueries(s: State, t: State, d: Draft, e: Draft)
    requires Alike(s, t) && SameDraft(d, e)
    ensures SameDraft(NextQuery(s, d), NextQuery(t, e))
  {
    assert Newest(s.log, PREVIEW_LIMIT) == Newest(t.log, PREVIEW_LIMIT);
  }

  lemma StepsSameLog(s: State, t: State, a: Op, b: Op)
    requires Alike(s, t) && SameOp(a, b)
    ensures SameLog(Step(s, a).log, Step(t, b).log) && (Allowed(s, a) <==> Allowed(t, b))
  {
  }

  ghost predicate SameDrafts(a: seq<Draft>, b: seq<Draft>) {
    |a| == |b| && forall i | 0 <= i < |a| :: SameDraft(a[i], b[i])
  }

  lemma StepsSameDrafts(s: State, t: State, a: Op, b: Op)
    requires Alike(s, t) && SameOp(a, b)
    ensures SameDrafts(Step(s, a).drafts, Step(t, b).drafts)
  {
    if a.Query? && a.run < |s.drafts| {
      SameQueries(s, t, s.drafts[a.run], t.drafts[a.run]);
    }
  }

  lemma StepsAlike(s: State, t: State, a: Op, b: Op)
    requires Alike(s, t) && SameOp(a, b)
    ensures Alike(Step(s, a), Step(t, b)) && (Allowed(s, a) <==> Allowed(t, b))
  {
    StepsSameLog(s, t, a, b);
    StepsSameDrafts(s, t, a, b);
  }

  lemma {:induction false} RunsAlike(ops: seq<Op>, other: seq<Op>, k: nat)
    requires SameSchedule(ops, other) && k <= |ops|
    ensures Alike(At(ops, k), At(other, k))
  {
    if k > 0 {
      RunsAlike(ops, other, k - 1);
      StepsAlike(At(ops, k - 1), At(other, k - 1), ops[k - 1], other[k - 1]);
    }
  }

  /** A run with other states is legal, and quiet, exactly when this one is. */
  lemma SchedulesAgree(ops: seq<Op>, other: seq<Op>, a: nat, b: nat, c: nat, m: nat)
    requires SameSchedule(ops, other) && a <= m && b <= m && c <= m <= |ops|
    ensures Legal(ops) ==> Legal(other)
    ensures Quiet(ops, a, b, c, m) ==> Quiet(other, a, b, c, m)
  {
    forall k | 0 <= k < |ops|
      ensures LegalAt(ops, k) <==> LegalAt(other, k)
      ensures WritesException(At(ops, k), ops[k]) <==> WritesException(At(other, k), other[k])
      ensures WritesOutcome(At(ops, k), ops[k]) <==> WritesOutcome(At(other, k), other[k])
    {
      RunsAlike(ops, other, k);
      StepsAlike(At(ops, k), At(other, k), ops[k], other[k]);
    }
  }

  lemma {:induction false} PrefixDecides(ops: seq<Op>, other: seq<Op>, k: nat)
    requires k <= |ops| && k <= |other| && forall i | 0 <= i < k :: ops[i] == other[i]
    ensures At(ops, k) == At(other, k)
  {
    if k > 0 {
      PrefixDecides(ops, other, k - 1);
    }
  }

  lemma {:induction false} LastMove(ops: seq<Op>, a: nat, m: nat) returns (j: nat)
    requires a <= m <= |ops| && MovesIn(ops, a, m)
    ensures a <= j < m && ops[j].Move? && !MovesIn(ops, j + 1, m)
    decreases m
  {
    if ops[m - 1].Move? {
      j := m - 1;
    } else {
      j := LastMove(ops, a, m - 1);
    }
  }

  /** If a transition falls between two moments, some choice of its state makes the state read before it wrong after it. */
  lemma MoveCanMislead(ops: seq<Op>, a: nat, m: nat) returns (other: seq<Op>)
    requires a <= m <= |ops| && MovesIn(ops, a, m)
    ensures SameSchedule(ops, other) && At(other, a).view.state != At(other, m).view.state
  {
    var j := LastMove(ops, a, m);
    var before := At(ops, a).view.state;
    other := ops[j := ops[j].(to := before + "x")];
    PrefixDecides(ops, other, a);
    assert At(other, j + 1) == Step(At(other, j), other[j]);
    assert At(other, j + 1).view.state == before + "x";
    assert !MovesIn(other, j + 1, m);
    NoMove(other, j + 1, m);
    assert |before + "x"| != |before|;
  }

  /** A view gathered at three moments is the box's at a later one, whatever states the transitions move to. */
  ghost predicate AlwaysRight(ops: seq<Op>, a: nat, b: nat, c: nat, m: nat)
    requires a <= m && b <= m && c <= m <= |ops|
  {
    forall other | SameSchedule(ops, other) :: Gather(other, a, b, c) == At(other, m).view
  }

  /**
   A view gathered at three moments is the box's view at a later one, whatever states the
   transitions move to, exactly when nothing was written to each table since it was read.
   */
  lemma GatheredRightExactly(ops: seq<Op>, a: nat, b: nat, c: nat, m: nat)
    requires a <= m && b <= m && c <= m <= |ops|
    ensures AlwaysRight(ops, a, b, c, m) <==> Quiet(ops, a, b, c, m)
  {
    if Quiet(ops, a, b, c, m) {
      forall other | SameSchedule(ops, other) ensures Gather(other, a, b, c) == At(other, m).view {
        SchedulesAgree(ops, other, a, b, c, m);
        NoMove(other, a, m);
        NoExceptionWrite(other, b, m);
        NoOutcomeWrite(other, c, m);
      }
    } else {
      assert SameSchedule(ops, ops);
      ExceptionsCurrentExactly(ops, b, m);
      OutcomeCurrentExactly(ops, c, m);
      if MovesIn(ops, a, m) {
        var other := MoveCanMislead(ops, a, m);
        assert Gather(other, a, b, c).state != At(other, m).view.state;
      }
    }
  }

  /** A served row shows the box as it is at the check, whatever states the transitions move to. */
  ghost predicate ServedRight(ops: seq<Op>, r: nat, m: nat)
    requires r <= m <= |ops|
  {
    forall other | SameSchedule(ops, other) ::
      ServedRow(other, r, m).Some? && RowView(ServedRow(other, r, m).value) == At(other, m).view
  }

  lemma ServedIsGathered(ops: seq<Op>, other: seq<Op>, r: nat, m: nat)
    requires r <= m <= |ops| && ServedRow(ops, r, m).Some? && SameSchedule(ops, other)
    ensures ServedRow(other, r, m).Some? && |ServedRow(ops, r, m).value.at| == QUERIES
    ensures var at := ServedRow(ops, r, m).value.at;
            && at[0] < r && at[2] < r && at[3] < r
            && RowView(ServedRow(other, r, m).value) == Gather(other, at[0], at[2], at[3])
  {
    RunsAlike(ops, other, r);
    RunsAlike(ops, other, m);
    FaithfulOverRuns(other, r);
    StatesAt(other, r);
    TipsAlike(At(ops, m).log, At(other, m).log);
  }

  lemma TipsAlike(a: seq<Event>, b: seq<Event>)
    requires SameLog(a, b)
    ensures Tip(a) == Tip(b)
  {
  }

  /**
   A served row is right, whatever states the transitions move to, exactly when no transition
   came since its first query, no exception write since its third and no outcome since its
   fourth, up to the check.
   */
  lemma ServedRightExactly(ops: seq<Op>, r: nat, m: nat)
    requires r <= m <= |ops| && ServedRow(ops, r, m).Some?
    ensures |ServedRow(ops, r, m).value.at| == QUERIES
    ensures var at := ServedRow(ops, r, m).value.at;
            && at[0] < r && at[2] < r && at[3] < r
            && (ServedRight(ops, r, m) <==> Quiet(ops, at[0], at[2], at[3], m))
  {
    assert SameSchedule(ops, ops);
    ServedIsGathered(ops, ops, r, m);
    var at := ServedRow(ops, r, m).value.at;
    GatheredRightExactly(ops, at[0], at[2], at[3], m);
    forall other | SameSchedule(ops, other)
      ensures ServedRow(other, r, m).Some? && RowView(ServedRow(other, r, m).value) == Gather(other, at[0], at[2], at[3])
    {
      ServedIsGathered(ops, other, r, m);
    }
  }

  /**
   A live read asks for the state, the timeline, the exceptions and the outcome, in this order. It
   is right at its last query under the same condition; made at one moment it always is.
   */
  lemma LiveRightExactly(ops: seq<Op>, at: seq<nat>)
    requires |at| == 4 && at[0] <= at[1] <= at[2] <= at[3] <= |ops|
    ensures AlwaysRight(ops, at[0], at[2], at[3], at[3]) <==> Quiet(ops, at[0], at[2], at[3], at[3])
    ensures at[0] == at[3] ==> AlwaysRight(ops, at[0], at[2], at[3], at[3])
  {
    GatheredRightExactly(ops, at[0], at[2], at[3], at[3]);
  }

  /** An answer of the read endpoint. */
  datatype Answer = Answer(view: View, timeline: seq<string>, fromProjection: bool)

  predicate LiveMoments(ops: seq<Op>, at: seq<nat>) {
    |at| == 4 && at[0] <= at[1] <= at[2] <= at[3] <= |ops|
  }

  /**
   The read endpoint: unless asked for a fresh read it fetches the row at moment `r` and checks it at
   `m`; it serves the row if it may, and otherwise composes the answer from its own queries.
   */
  function ReadBox(ops: seq<Op>, wantFresh: bool, r: nat, m: nat, at: seq<nat>): Answer
    requires r <= m <= |ops| && LiveMoments(ops, at)
  {
    var row := ServedRow(ops, r, m);
    if !wantFresh && row.Some? then Answer(RowView(row.value), row.value.preview, true)
    else Answer(Gather(ops, at[0], at[2], at[3]), Ids(At(ops, at[1]).log), false)
  }

  /** The answer is the box's at its last query, whatever states the transitions move to. */
  ghost predicate AnswerRight(ops: seq<Op>, wantFresh: bool, r: nat, m: nat, at: seq<nat>)
    requires r <= m <= |ops| && LiveMoments(ops, at)
  {
    forall other | SameSchedule(ops, other) ::
      var answer := ReadBox(other, wantFresh, r, m, at);
      answer.view == At(other, if answer.fromProjection then m else at[3]).view
  }

  /**
   An answer comes from the projection exactly when a row is there, no fresh read was asked for, and
   the log is what it was at the row's last query, and not empty. It is right exactly when its
   tables were not written since they were read, by the projector or by the read itself.
   */
  lemma AnswerRightExactly(ops: seq<Op>, wantFresh: bool, r: nat, m: nat, at: seq<nat>)
    requires Legal(ops) && r <= m <= |ops| && LiveMoments(ops, at)
    ensures At(ops, r).row.Some? ==> |At(ops, r).row.value.at| == QUERIES && At(ops, r).row.value.at[5] < r
    ensures ReadBox(ops, wantFresh, r, m, at).fromProjection
       <==> !wantFresh && At(ops, r).row.Some? && At(ops, At(ops, r).row.value.at[5]).log == At(ops, m).log != []
    ensures ReadBox(ops, wantFresh, r, m, at).fromProjection ==>
              var q := At(ops, r).row.value.at;
              && q[0] < r && q[2] < r && q[3] < r
              && (AnswerRight(ops, wantFresh, r, m, at) <==> Quiet(ops, q[0], q[2], q[3], m))
    ensures !ReadBox(ops, wantFresh, r, m, at).fromProjection ==>
              (AnswerRight(ops, wantFresh, r, m, at) <==> Quiet(ops, at[0], at[2], at[3], at[3]))
  {
    if At(ops, r).row.Some? {
      ServedExactly(ops, r, m);
    }
    forall other | SameSchedule(ops, other) ensures ServedRow(other, r, m).Some? <==> ServedRow(ops, r, m).Some? {
      ServedAlike(ops, other, r, m);
    }
    assert SameSchedule(ops, ops);
    if ReadBox(ops, wantFresh, r, m, at).fromProjection {
      ServedRightExactly(ops, r, m);
      AnsweredByRow(ops, wantFresh, r, m, at);
    } else {
      GatheredRightExactly(ops, at[0], at[2], at[3], at[3]);
      AnsweredLive(ops, wantFresh, r, m, at);
    }
  }

  lemma ServedAlike(ops: seq<Op>, other: seq<Op>, r: nat, m: nat)
    requires r <= m <= |ops| && SameSchedule(ops, other)
    ensures ServedRow(other, r, m).Some? <==> ServedRow(ops, r, m).Some?
  {
    RunsAlike(ops, other, r);
    RunsAlike(ops, other, m);
    TipsAlike(At(ops, m).log, At(other, m).log);
  }

  lemma AnsweredByRow(ops: seq<Op>, wantFresh: bool, r: nat, m: nat, at: seq<nat>)
    requires r <= m <= |ops| && LiveMoments(ops, at) && !wantFresh && ServedRow(ops, r, m).Some?
    ensures AnswerRight(ops, wantFresh, r, m, at) <==> ServedRight(ops, r, m)
  {
    forall other | SameSchedule(ops, other)
      ensures ServedRow(other, r, m).Some?
      ensures ReadBox(other, wantFresh, r, m, at).view == At(other, m).view <==> RowView(ServedRow(other, r, m).value) == At(other, m).view
    {
      ServedAlike(ops, other, r, m);
    }
  }

  lemma AnsweredLive(ops: seq<Op>, wantFresh: bool, r: nat, m: nat, at: seq<nat>)
    requires r <= m <= |ops| && LiveMoments(ops, at) && (wantFresh || ServedRow(ops, r, m).None?)
    ensures AnswerRight(ops, wantFresh, r, m, at) <==> AlwaysRight(ops, at[0], at[2], at[3], at[3])
  {
    forall other | SameSchedule(ops, other)
      ensures ReadBox(other, wantFresh, r, m, at).view == Gather(other, at[0], at[2], at[3]) && !ReadBox(other, wantFresh, r, m, at).fromProjection
    {
      ServedAlike(ops, other, r, m);
    }
  }

  /** Every read that is right, served or live, is the fold of the whole log exactly while no write is without its event. */
  lemma ReadsFoldTheLog(ops: seq<Op>, a: nat, b: nat, c: nat, m: nat)
    requires a <= m && b <= m && c <= m <= |ops| && Quiet(ops, a, b, c, m)
    ensures Gather(ops, a, b, c) == Fold(At(ops, m).log) <==> At(ops, m).owed == {} && At(ops, m).lost == {}
  {
    NoMove(ops, a, m);
    NoExceptionWrite(ops, b, m);
    NoOutcomeWrite(ops, c, m);
    TablesFoldExactly(ops, m);
  }

  // ---------------------------------------------------------------------------
  // What stored data can and cannot tell
  // ---------------------------------------------------------------------------

  /** The stored preview starts with the newest event. */
  predicate PreviewIsCurrent(row: Draft, log: seq<Event>) {
    row.preview != [] && Tip(log) == Some(row.preview[0])
  }

  lemma PreviewTellsLog(ops: seq<Op>, r: nat, m: nat)
    requires Legal(ops) && r <= m <= |ops| && ServedRow(ops, r, m).Some? && PreviewIsCurrent(ServedRow(ops, r, m).value, At(ops, m).log)
    ensures |ServedRow(ops, r, m).value.at| == QUERIES && ServedRow(ops, r, m).value.at[1] < r
    ensures At(ops, ServedRow(ops, r, m).value.at[1]).log == At(ops, m).log
  {
    FaithfulOverRuns(ops, r);
    StatesAt(ops, r);
    var i := ServedRow(ops, r, m).value.at[1];
    assert Tip(At(ops, i).log) == Tip(At(ops, m).log);
    SameTipExactly(ops, i, m);
  }

  /** While the log stands still and every write has its event, no table changes. */
  lemma QuietLog(ops: seq<Op>, i: nat, j: nat, m: nat)
    requires i <= j < m <= |ops| && At(ops, i).log == At(ops, m).log && At(ops, m).owed == {} && At(ops, m).lost == {}
    ensures !WritesException(At(ops, j), ops[j]) && !WritesOutcome(At(ops, j), ops[j])
  {
    LogGrows(ops, i, j);
    LogGrows(ops, j, m);
    assert At(ops, j).log == At(ops, m).log;
    AccountedOverRuns(ops, m);
    AccountedOverRuns(ops, j);
    if WritesException(At(ops, j), ops[j]) || WritesOutcome(At(ops, j), ops[j]) {
      WriteChanges(ops, j, j, m);
    }
  }

  /**
   A check on stored data: when the row's preview starts with the newest event and every write
   has its event, the served exceptions and outcome are current, and so is the state unless a
   transition fell between the projector's first two queries.
   */
  lemma CurrentPreviewIsRight(ops: seq<Op>, r: nat, m: nat)
    requires Legal(ops) && r <= m <= |ops| && ServedRow(ops, r, m).Some? && PreviewIsCurrent(ServedRow(ops, r, m).value, At(ops, m).log)
    requires At(ops, m).owed == {} && At(ops, m).lost == {}
    ensures |ServedRow(ops, r, m).value.at| == QUERIES && ServedRow(ops, r, m).value.at[0] < ServedRow(ops, r, m).value.at[1] < r
    ensures ServedRow(ops, r, m).value.exceptions == At(ops, m).view.exceptions
    ensures ServedRow(ops, r, m).value.outcome == At(ops, m).view.outcome
    ensures ServedRight(ops, r, m) <==> !MovesIn(ops, ServedRow(ops, r, m).value.at[0], ServedRow(ops, r, m).value.at[1])
  {
    ServedRightExactly(ops, r, m);
    PreviewTellsLog(ops, r, m);
    FaithfulOverRuns(ops, r);
    StatesAt(ops, r);
    var at := ServedRow(ops, r, m).value.at;
    forall j | at[1] <= j < m
      ensures !WritesException(At(ops, j), ops[j]) && !WritesOutcome(At(ops, j), ops[j]) && !ops[j].Move?
    {
      QuietLog(ops, at[1], j, m);
      LogGrows(ops, at[1], j);
      LogGrows(ops, j + 1, m);
      assert At(ops, j + 1) == Step(At(ops, j), ops[j]);
    }
    NoExceptionWrite(ops, at[2], m);
    NoOutcomeWrite(ops, at[3], m);
  }

  /** One more write changes no row and no log, and spoils no earlier moment. */
  lemma OneMoreWrite(ops: seq<Op>, code: string)
    requires Legal(ops)
    ensures var longer := ops + [Raise(code)];
            && Legal(longer)
            && (forall k | 0 <= k <= |ops| :: At(longer, k) == At(ops, k))
            && At(longer, |longer|) == Step(At(ops, |ops|), Raise(code))
  {
    var longer := ops + [Raise(code)];
    forall k | 0 <= k <= |ops| ensures At(longer, k) == At(ops, k) {
      PrefixDecides(ops, longer, k);
    }
    forall k | 0 <= k < |longer| ensures LegalAt(longer, k) {
      if k < |ops| {
        assert LegalAt(ops, k);
      }
    }
  }

  /**
   Without that, nothing stored can tell: after any served read an exception may be raised
   whose event is never appended, and the same row and log then serve a wrong view.
   */
  lemma HiddenWriteIsServed(ops: seq<Op>, r: nat, code: string)
    requires Legal(ops) && r <= |ops| && ServedRow(ops, r, |ops|).Some?
    ensures var longer := ops + [Raise(code)];
            && Legal(longer)
            && At(longer, |longer|).row == At(ops, |ops|).row && At(longer, |longer|).log == At(ops, |ops|).log
            && ServedRow(longer, r, |longer|) == ServedRow(ops, r, |ops|)
            && RowView(ServedRow(longer, r, |longer|).value) != At(longer, |longer|).view
  {
    var longer := ops + [Raise(code)];
    OneMoreWrite(ops, code);
    assert longer[|ops|].Raise? && ExceptionWritesIn(longer, r, |longer|);
    LateWriteMisleads(longer, r, |longer|);
  }

  lemma LateWriteMisleads(ops: seq<Op>, r: nat, m: nat)
    requires r <= m <= |ops|
    ensures ServedRow(ops, r, m).Some? && ExceptionWritesIn(ops, r, m) ==>
              ServedRow(ops, r, m).value.exceptions != At(ops, m).view.exceptions
  {
    if ServedRow(ops, r, m).Some? && ExceptionWritesIn(ops, r, m) {
      FaithfulOverRuns(ops, r);
      StatesAt(ops, r);
      var b := ServedRow(ops, r, m).value.at[2];
      assert ExceptionWritesIn(ops, b, m);
      ExceptionsCurrentExactly(ops, b, m);
    }
  }

  /** A wrong list of exceptions stays served, and wrong, until the next event. */
  lemma WrongUntilNextEvent(ops: seq<Op>, r: nat, m: nat, later: nat)
    requires Legal(ops) && r <= m <= later <= |ops| && ServedRow(ops, r, m).Some?
    requires ServedRow(ops, r, m).value.exceptions != At(ops, m).view.exceptions && At(ops, later).log == At(ops, m).log
    ensures ServedRow(ops, r, later) == ServedRow(ops, r, m)
    ensures ServedRow(ops, r, later).value.exceptions != At(ops, later).view.exceptions
  {
    ServedIsGathered(ops, ops, r, m);
    var at := ServedRow(ops, r, m).value.at;
    ExceptionsCurrentExactly(ops, at[2], m);
    ExceptionsCurrentExactly(ops, at[2], later);
  }

  // ---------------------------------------------------------------------------
  // Timelines
  // ---------------------------------------------------------------------------

  /**
   The timelines of a served and a live read agree exactly on a box with a single event,
   previewed by the projector: the projection keeps the newest five, newest first, the live
   read all, oldest first.
   */
  lemma TimelinesAgreeExactly(ops: seq<Op>, r: nat, m: nat)
    requires Legal(ops) && r <= m <= |ops| && ServedRow(ops, r, m).Some?
    ensures ServedRow(ops, r, m).value.preview == Ids(At(ops, m).log) <==> |At(ops, m).log| == |ServedRow(ops, r, m).value.preview| == 1
  {
    FaithfulOverRuns(ops, r);
    StatesAt(ops, r);
    IdsDiffer(ops, m);
    ServedExactly(ops, r, m);
    var i := ServedRow(ops, r, m).value.at[1];
    LogGrows(ops, i, m);
    PreviewIsWhole(At(ops, i).log, At(ops, m).log);
  }

  lemma PreviewIsWhole(part: seq<Event>, log: seq<Event>)
    requires part <= log && log != [] && DistinctIds(log)
    ensures Newest(part, PREVIEW_LIMIT) == Ids(log) <==> |log| == |Newest(part, PREVIEW_LIMIT)| == 1
  {
    var preview := Newest(part, PREVIEW_LIMIT);
    if preview == Ids(log) {
      assert preview[0] == log[0].id;
      assert part[|part| - 1] == log[|part| - 1];
    }
    if |log| == |preview| == 1 {
      assert part[0] == log[0];
    }
  }

  // ---------------------------------------------------------------------------
  // Concrete runs
  // ---------------------------------------------------------------------------

  lemma {:induction false} AtStates(ops: seq<Op>, states: seq<State>, k: nat)
    requires |states| == |ops| + 1 && states[0] == START && k <= |ops|
    requires forall i | 0 <= i < |ops| :: states[i + 1] == Step(states[i], ops[i])
    ensures At(ops, k) == states[k]
  {
    if k > 0 {
      AtStates(ops, states, k - 1);
    }
  }

  /** The states of a projector that makes its last queries undisturbed and stores its row. */
  function Finishing(s: State): (states: seq<State>)
    ensures |states| == 6
  {
    var s1 := Step(s, Query(0));
    var s2 := Step(s1, Query(0));
    var s3 := Step(s2, Query(0));
    var s4 := Step(s3, Query(0));
    var s5 := Step(s4, Query(0));
    [s1, s2, s3, s4, s5, Step(s5, Upsert(0))]
  }

  const FINISH: seq<Op> := [Query(0), Query(0), Query(0), Query(0), Query(0), Upsert(0)]

  lemma FinishingSteps(s: State)
    ensures Finishing(s)[0] == Step(s, FINISH[0])
    ensures forall i | 0 <= i < 5 :: Finishing(s)[i + 1] == Step(Finishing(s)[i], FINISH[i + 1])
    ensures forall i | 0 <= i < 6 :: Finishing(s)[i].log == s.log && Finishing(s)[i].view == s.view
  {
  }

  lemma FinishedRow(s: State)
    requires |s.drafts| == 1 && |s.drafts[0].at| == 1
    ensures var row := Finishing(s)[5].row;
            && row.Some? && row.value.state == s.drafts[0].state && row.value.preview == Newest(s.log, PREVIEW_LIMIT)
            && row.value.exceptions == s.view.exceptions && row.value.outcome == s.view.outcome && row.value.tip == Tip(s.log)
  {
    var s1 := Step(s, Query(0));
    assert s1.drafts == [NextQuery(s, s.drafts[0])];
    var s2 := Step(s1, Query(0));
    assert s2.drafts == [NextQuery(s1, s1.drafts[0])];
    var s3 := Step(s2, Query(0));
    assert s3.drafts == [NextQuery(s2, s2.drafts[0])];
    var s4 := Step(s3, Query(0));
    assert s4.drafts == [NextQuery(s3, s3.drafts[0])];
    var s5 := Step(s4, Query(0));
    assert s5.drafts == [NextQuery(s4, s4.drafts[0])];
  }

  /** The states of a run, step by step, each step allowed. */
  ghost predicate Unfolds(ops: seq<Op>, states: seq<State>) {
    && |states| == |ops| + 1 && states[0] == START
    && forall i | 0 <= i < |ops| :: states[i + 1] == Step(states[i], ops[i]) && Allowed(states[i], ops[i])
  }

  lemma UnfoldedRun(ops: seq<Op>, states: seq<State>)
    requires Unfolds(ops, states)
    ensures Legal(ops) && forall k | 0 <= k <= |ops| :: At(ops, k) == states[k]
  {
    forall k | 0 <= k <= |ops| ensures At(ops, k) == states[k] {
      AtStates(ops, states, k);
    }
    forall k | 0 <= k < |ops| ensures LegalAt(ops, k) {
    }
  }

  lemma FinishedUnfolds(front: seq<Op>, states: seq<State>)
    requires Unfolds(front, states)
    ensures Unfolds(front + FINISH, states + Finishing(states[|front|]))
  {
    var n := |front|;
    var ops, all := front + FINISH, states + Finishing(states[n]);
    FinishingSteps(states[n]);
    forall i | 0 <= i < |ops| ensures all[i + 1] == Step(all[i], ops[i]) && Allowed(all[i], ops[i]) {
      if i >= n {
        assert ops[i] == FINISH[i - n];
      }
    }
  }

  /** What is served when the only projector's row has just been stored. */
  predicate Serves(ops: seq<Op>, m: nat, row: Draft, log: seq<Event>) {
    m == |ops| && At(ops, m).log == log && ServedRow(ops, m, m) == Some(row)
  }

  /** A run whose last six steps finish the only projector serves what that projector read. */
  lemma FinishedRun(front: seq<Op>, states: seq<State>, s: State, ops: seq<Op>, m: nat) returns (row: Draft)
    requires Unfolds(front, states) && s == states[|front|] && ops == front + FINISH && m == |ops|
    requires |s.drafts| == 1 && |s.drafts[0].at| == 1 && s.log != []
    ensures Legal(ops) && Serves(ops, m, row, s.log)
    ensures row.preview == Newest(s.log, PREVIEW_LIMIT) && RowView(row) == View(s.drafts[0].state, s.view.exceptions, s.view.outcome)
  {
    FinishedUnfolds(front, states);
    var all := states + Finishing(s);
    UnfoldedRun(ops, all);
    FinishingSteps(s);
    FinishedRow(s);
    var last := Finishing(s)[5];
    assert all[m] == last;
    row := last.row.value;
    assert last.log == s.log && At(ops, m) == last;
    assert !IsStale(s.log, row);
  }

  const MOVE_X := Event("a", 1, MovedTo("x"))
  const MOVE_Y := Event("b", 2, MovedTo("yy"))
  const RAISE_Z := Event("c", 3, Raised(0, "z"))

  lemma Folds()
    ensures Fold([]) == INITIAL && Fold([MOVE_X]) == INITIAL.(state := "x")
    ensures Fold([MOVE_X, MOVE_Y]) == INITIAL.(state := "yy")
    ensures Fold([MOVE_X, MOVE_Y, RAISE_Z]) == View("yy", Exceptions(map[0 := "z"], {}), None)
  {
    FoldOneMore([], MOVE_X);
    FoldOneMore([MOVE_X], MOVE_Y);
    FoldOneMore([MOVE_X, MOVE_Y], RAISE_Z);
    assert [] + [MOVE_X] == [MOVE_X] && [MOVE_X] + [MOVE_Y] == [MOVE_X, MOVE_Y];
    assert [MOVE_X, MOVE_Y] + [RAISE_Z] == [MOVE_X, MOVE_Y, RAISE_Z];
  }

  /** A run unfolds one step further. */
  lemma UnfoldsOneMore(ops: seq<Op>, states: seq<State>, op: Op, next: State)
    requires Unfolds(ops, states) && next == Step(states[|ops|], op) && Allowed(states[|ops|], op)
    ensures Unfolds(ops + [op], states + [next])
  {
  }

  lemma FirstStates(s: State, reading: Draft)
    requires s.drafts == [BLANK] && reading == BLANK.(at := [s.clock], state := s.view.state)
    ensures Step(s, Query(0)) == s.(clock := s.clock + 1, drafts := [reading])
  {
    assert NextQuery(s, BLANK) == reading;
    assert [BLANK][0 := reading] == [reading];
  }

  const MOVED := START.(clock := 1, view := INITIAL.(state := "x"), log := [MOVE_X])
  const READING := MOVED.(clock := 3, drafts := [BLANK.(at := [2], state := "x")])
  const MOVED_ON := READING.(clock := 4, view := INITIAL.(state := "yy"), log := [MOVE_X, MOVE_Y])
  const RAISED := MOVED_ON.(clock := 5, view := View("yy", Exceptions(map[0 := "z"], {}), None), rowsUsed := 1, owed := {Raised(0, "z")})
  const NARRATED := RAISED.(clock := 6, log := [MOVE_X, MOVE_Y, RAISE_Z], owed := {})

  lemma ReadsOneState() returns (ops: seq<Op>, states: seq<State>)
    ensures |ops| == 3 && Unfolds(ops, states) && states[3] == READING
  {
    UnfoldsOneMore([], [START], Move("x", "a", 1), MOVED);
    ops, states := [] + [Move("x", "a", 1)], [START] + [MOVED];
    var begun := MOVED.(clock := 2, drafts := [BLANK]);
    UnfoldsOneMore(ops, states, Begin, begun);
    ops, states := ops + [Begin], states + [begun];
    FirstStates(begun, BLANK.(at := [2], state := "x"));
    UnfoldsOneMore(ops, states, Query(0), READING);
    ops, states := ops + [Query(0)], states + [READING];
  }

  lemma AnotherStateComes(front: seq<Op>, before: seq<State>) returns (ops: seq<Op>, states: seq<State>)
    requires |front| == 3 && Unfolds(front, before) && before[3] == READING
    ensures |ops| == 6 && Unfolds(ops, states) && states[6] == NARRATED
  {
    UnfoldsOneMore(front, before, Move("yy", "b", 2), MOVED_ON);
    ops, states := front + [Move("yy", "b", 2)], before + [MOVED_ON];
    UnfoldsOneMore(ops, states, Raise("z"), RAISED);
    ops, states := ops + [Raise("z")], states + [RAISED];
    assert {Raised(0, "z")} - {Raised(0, "z")} == {};
    UnfoldsOneMore(ops, states, Narrate(Raised(0, "z"), "c", 3), NARRATED);
    ops, states := ops + [Narrate(Raised(0, "z"), "c", 3)], states + [NARRATED];
  }

  /** No prefix of the log tells of the second state and not of the first. */
  lemma NoPrefixIsTorn()
    ensures forall n | 0 <= n <= 3 :: View("x", Exceptions(map[0 := "z"], {}), None) != Fold([MOVE_X, MOVE_Y, RAISE_Z][..n])
  {
    Folds();
    var log := [MOVE_X, MOVE_Y, RAISE_Z];
    assert log[..0] == [] && log[..1] == [MOVE_X] && log[..2] == [MOVE_X, MOVE_Y] && log[..3] == log;
    assert 0 in map[0 := "z"] && 0 !in INITIAL.exceptions.raised;
  }

  /**
   A concrete torn row: the state of the first event beside the exception of the third. It is
   served as current, and no prefix of the log folds to it.
   */
  lemma TornRowIsServed() returns (ops: seq<Op>, m: nat, row: Draft)
    ensures Legal(ops) && Serves(ops, m, row, [MOVE_X, MOVE_Y, RAISE_Z])
    ensures forall n | 0 <= n <= 3 :: RowView(row) != Fold([MOVE_X, MOVE_Y, RAISE_Z][..n])
  {
    var front, states := ReadsOneState();
    front, states := AnotherStateComes(front, states);
    ops, m := front + FINISH, 12;
    row := FinishedRun(front, states, NARRATED, ops, m);
    NoPrefixIsTorn();
  }

  lemma TwoEventsComeFirst() returns (ops: seq<Op>, states: seq<State>, s: State)
    ensures |ops| == 4 && Unfolds(ops, states) && states[4] == s
    ensures s.log == [MOVE_X, MOVE_Y] && |s.drafts| == 1 && |s.drafts[0].at| == 1
  {
    UnfoldsOneMore([], [START], Move("x", "a", 1), MOVED);
    ops, states := [] + [Move("x", "a", 1)], [START] + [MOVED];
    var second := MOVED.(clock := 2, view := INITIAL.(state := "yy"), log := [MOVE_X, MOVE_Y]);
    UnfoldsOneMore(ops, states, Move("yy", "b", 2), second);
    ops, states := ops + [Move("yy", "b", 2)], states + [second];
    var begun := second.(clock := 3, drafts := [BLANK]);
    UnfoldsOneMore(ops, states, Begin, begun);
    ops, states := ops + [Begin], states + [begun];
    var reading := BLANK.(at := [3], state := "yy");
    FirstStates(begun, reading);
    s := begun.(clock := 4, drafts := [reading]);
    UnfoldsOneMore(ops, states, Query(0), s);
    ops, states := ops + [Query(0)], states + [s];
  }

  /** A concrete box with two events, whose served timeline is not its live one. */
  lemma TwoEventTimelinesDiffer() returns (ops: seq<Op>, m: nat, row: Draft)
    ensures Legal(ops) && Serves(ops, m, row, [MOVE_X, MOVE_Y])
    ensures row.preview == ["b", "a"] && Ids([MOVE_X, MOVE_Y]) == ["a", "b"]
  {
    var front, states, s := TwoEventsComeFirst();
    ops, m := front + FINISH, 10;
    row := FinishedRun(front, states, s, ops, m);
  }
}
