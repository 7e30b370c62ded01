/**
 Linking AP items to Gmail threads and compose drafts. Items and source rows are kept in
 creation order and never deleted here, so an item's id is its position. Request strings
 are the trimmed ones; a blank optional field is `None`.
 */
module ThreadLinks {
  import opened Wrappers

  datatype Item = Item(org: string, threadId: Option<string>)

  datatype Kind = GmailThread | GmailMessage | ComposeDraft

  datatype Source = Source(item: nat, kind: Kind, ref: string)

  datatype State = State(items: seq<Item>, sources: seq<Source>)

  datatype Error = ItemNotFound | ThreadAlreadyLinked | DraftAlreadyLinked | SourceRefRequired

  datatype Created = AlreadyLinked(item: nat) | NewItem(item: nat)

  // ---------------------------------------------------------------------------
  // Queries
  // ---------------------------------------------------------------------------

  predicate Visible(s: State, id: nat, org: string) {
    id < |s.items| && s.items[id].org == org
  }

  /** The item carries the thread: in its own column or through a source row. */
  predicate Carries(s: State, i: nat, thread: string)
    requires i < |s.items|
  {
    s.items[i].threadId == Some(thread) || Source(i, GmailThread, thread) in s.sources
  }

  predicate HoldsDraft(s: State, i: nat, draft: string) {
    Source(i, ComposeDraft, draft) in s.sources
  }

  /** The newest of the first `n` items that belongs to the organisation and carries the thread. */
  function NewestCarrier(s: State, org: string, thread: string, n: nat): (found: Option<nat>)
    requires n <= |s.items|
    ensures found.Some? ==> found.value < n && s.items[found.value].org == org && Carries(s, found.value, thread)
    ensures found.None? ==> forall i | 0 <= i < n :: !(s.items[i].org == org && Carries(s, i, thread))
  {
    if n == 0 then None
    else if s.items[n - 1].org == org && Carries(s, n - 1, thread) then Some(n - 1)
    else NewestCarrier(s, org, thread, n - 1)
  }

  function ItemByThread(s: State, org: string, thread: string): Option<nat> {
    NewestCarrier(s, org, thread, |s.items|)
  }

  /** The item named by the newest of the first `n` rows for this draft whose item is the organisation's. */
  function DraftHolder(s: State, org: string, draft: string, n: nat): (found: Option<nat>)
    requires n <= |s.sources|
    ensures found.Some? ==> Visible(s, found.value, org) && HoldsDraft(s, found.value, draft)
    ensures found.None? ==> forall k | 0 <= k < n ::
              !(s.sources[k].kind == ComposeDraft && s.sources[k].ref == draft && Visible(s, s.sources[k].item, org))
  {
    if n == 0 then None
    else
      var row := s.sources[n - 1];
      if row.kind == ComposeDraft && row.ref == draft && Visible(s, row.item, org) then Some(row.item)
      else DraftHolder(s, org, draft, n - 1)
  }

  function ItemByDraft(s: State, org: string, draft: string): (found: Option<nat>)
    ensures found.Some? ==> Visible(s, found.value, org) && HoldsDraft(s, found.value, draft)
    ensures found.None? ==> forall i :: Visible(s, i, org) ==> !HoldsDraft(s, i, draft)
  {
    DraftHolder(s, org, draft, |s.sources|)
  }

  predicate DraftHeldByAnother(s: State, id: nat, draft: string) {
    exists row | row in s.sources :: row.kind == ComposeDraft && row.ref == draft && row.item != id
  }

  // ---------------------------------------------------------------------------
  // Endpoints
  // ---------------------------------------------------------------------------

  /** Inserts a row unless the very same link exists. */
  function WithSource(sources: seq<Source>, row: Source): (r: seq<Source>)
    ensures forall x :: x in r <==> x in sources || x == row
  {
    if row in sources then sources else sources + [row]
  }

  function WithOptional(sources: seq<Source>, item: nat, kind: Kind, ref: Option<string>): (r: seq<Source>)
    ensures forall x :: x in r <==> x in sources || (ref.Some? && x == Source(item, kind, ref.value))
  {
    match ref
    case Some(r) => WithSource(sources, Source(item, kind, r))
    case None => sources
  }

  predicate ThreadTaken(s: State, id: nat, org: string, thread: string) {
    ItemByThread(s, org, thread).Some? && ItemByThread(s, org, thread).value != id
  }

  function GmailLink(s: State, id: nat, org: string, thread: string, message: Option<string>): (State, Result<(), Error>) {
    if !Visible(s, id, org) then (s, Err(ItemNotFound))
    else if ThreadTaken(s, id, org, thread) then (s, Err(ThreadAlreadyLinked))
    else if thread == "" then (s, Err(SourceRefRequired))
    else (State(s.items[id := s.items[id].(threadId := Some(thread))],
                WithOptional(WithSource(s.sources, Source(id, GmailThread, thread)), id, GmailMessage, message)), Ok(()))
  }

  function ComposeLink(s: State, id: nat, org: string, draft: Option<string>, thread: Option<string>): (State, Result<(), Error>) {
    if !Visible(s, id, org) then (s, Err(ItemNotFound))
    else if draft.Some? && DraftHeldByAnother(s, id, draft.value) then (s, Err(DraftAlreadyLinked))
    else if thread.Some? && ThreadTaken(s, id, org, thread.value) then (s, Err(ThreadAlreadyLinked))
    else (State(if thread.Some? then s.items[id := s.items[id].(threadId := thread)] else s.items,
                WithOptional(WithOptional(s.sources, id, ComposeDraft, draft), id, GmailThread, thread)), Ok(()))
  }

  function ComposeCreate(s: State, org: string, draft: Option<string>, thread: Option<string>): (State, Created) {
    var byDraft := if draft.Some? then ItemByDraft(s, org, draft.value) else None;
    var byThread := if thread.Some? then ItemByThread(s, org, thread.value) else None;
    if byDraft.Some? then (s, AlreadyLinked(byDraft.value))
    else if byThread.Some? then (s, AlreadyLinked(byThread.value))
    else
      var id := |s.items|;
      (State(s.items + [Item(org, thread)],
             WithOptional(WithOptional(s.sources, id, ComposeDraft, draft), id, GmailThread, thread)), NewItem(id))
  }

  datatype Op =
    | DoGmailLink(id: nat, org: string, gmailThread: string, message: Option<string>)
    | DoComposeLink(id: nat, org: string, draft: Option<string>, thread: Option<string>)
    | DoComposeCreate(org: string, draft: Option<string>, thread: Option<string>)

  function Step(s: State, op: Op): State {
    match op
    case DoGmailLink(id, org, thread, message) => GmailLink(s, id, org, thread, message).0
    case DoComposeLink(id, org, draft, thread) => ComposeLink(s, id, org, draft, thread).0
    case DoComposeCreate(org, draft, thread) => ComposeCreate(s, org, draft, thread).0
  }

  ghost predicate IsRun(hist: seq<State>, ops: seq<Op>) {
    && |hist| == |ops| + 1
    && forall k | 0 <= k < |ops| :: hist[k + 1] == Step(hist[k], ops[k])
  }

  // ---------------------------------------------------------------------------
  // Invariants over every run
  // ---------------------------------------------------------------------------

  /** Source rows name existing items, and a thread column is backed by a source row. */
  ghost predicate Backed(s: State) {
    && (forall row | row in s.sources :: row.item < |s.items|)
    && (forall i | 0 <= i < |s.items| :: s.items[i].threadId.Some? ==> Source(i, GmailThread, s.items[i].threadId.value) in s.sources)
  }

  /** Within one organisation no two items carry a thread, and no two hold a draft. */
  ghost predicate LinksUnique(s: State) {
    forall i, j | 0 <= i < j < |s.items| && s.items[i].org == s.items[j].org ::
      && (forall t: string :: !(Carries(s, i, t) && Carries(s, j, t)))
      && (forall d: string :: !(HoldsDraft(s, i, d) && HoldsDraft(s, j, d)))
  }

  /** The guard under which a call adds a row. */
  predicate Justified(s: State, op: Op, row: Source) {
    match op
    case DoGmailLink(id, org, thread, message) =>
      && row.item == id && Visible(s, id, org) && row.kind != ComposeDraft
      && (row.kind == GmailThread ==> row.ref == thread && !ThreadTaken(s, id, org, thread))
    case DoComposeLink(id, org, draft, thread) =>
      && row.item == id && Visible(s, id, org) && row.kind != GmailMessage
      && (row.kind == GmailThread ==> thread == Some(row.ref) && !ThreadTaken(s, id, org, row.ref))
      && (row.kind == ComposeDraft ==> draft == Some(row.ref) && !DraftHeldByAnother(s, id, row.ref))
    case DoComposeCreate(org, draft, thread) =>
      && row.item == |s.items| && |Step(s, op).items| == |s.items| + 1 && Step(s, op).items[|s.items|].org == org
      && (row.kind == GmailThread ==> thread == Some(row.ref) && ItemByThread(s, org, row.ref).None?)
      && (row.kind == ComposeDraft ==> draft == Some(row.ref) && ItemByDraft(s, org, row.ref).None?)
  }

  /** One call only adds rows, each under its guard. */
  lemma LinksAdded(s: State, op: Op)
    requires Backed(s)
    ensures Backed(Step(s, op)) && |s.items| <= |Step(s, op).items|
    ensures forall i | 0 <= i < |s.items| :: Step(s, op).items[i].org == s.items[i].org
    ensures forall row | row in s.sources :: row in Step(s, op).sources
    ensures forall row | row in Step(s, op).sources && row !in s.sources :: Justified(s, op, row)
  {
  }

  lemma ThreadsStayApart(s: State, op: Op, i: nat, j: nat, t: string)
    requires Backed(s) && LinksUnique(s)
    requires i < |Step(s, op).items| && j < |Step(s, op).items| && i != j
    requires Step(s, op).items[i].org == Step(s, op).items[j].org
    ensures !(Carries(Step(s, op), i, t) && Carries(Step(s, op), j, t))
  {
    LinksAdded(s, op);
    var after := Step(s, op);
    var rowI, rowJ := Source(i, GmailThread, t), Source(j, GmailThread, t);
    assert Carries(after, i, t) ==> rowI in after.sources;
    assert Carries(after, j, t) ==> rowJ in after.sources;
    assert rowI in after.sources && rowI !in s.sources ==> Justified(s, op, rowI);
    assert rowJ in after.sources && rowJ !in s.sources ==> Justified(s, op, rowJ);
    assert rowI in s.sources ==> Carries(s, i, t);
    assert rowJ in s.sources ==> Carries(s, j, t);
  }

  lemma DraftsStayApart(s: State, op: Op, i: nat, j: nat, d: string)
    requires Backed(s) && LinksUnique(s)
    requires i < |Step(s, op).items| && j < |Step(s, op).items| && i != j
    requires Step(s, op).items[i].org == Step(s, op).items[j].org
    ensures !(HoldsDraft(Step(s, op), i, d) && HoldsDraft(Step(s, op), j, d))
  {
    LinksAdded(s, op);
    var after := Step(s, op);
    var rowI, rowJ := Source(i, ComposeDraft, d), Source(j, ComposeDraft, d);
    assert rowI in after.sources && rowI !in s.sources ==> Justified(s, op, rowI);
    assert rowJ in after.sources && rowJ !in s.sources ==> Justified(s, op, rowJ);
    assert rowI in s.sources && rowJ in s.sources ==> HoldsDraft(s, i, d) && HoldsDraft(s, j, d);
  }

  lemma StepKeepsLinksUnique(s: State, op: Op)
    requires Backed(s) && LinksUnique(s)
    ensures Backed(Step(s, op)) && LinksUnique(Step(s, op))
  {
    LinksAdded(s, op);
    var after := Step(s, op);
    forall i, j | 0 <= i < j < |after.items| && after.items[i].org == after.items[j].org
      ensures forall t: string :: !(Carries(after, i, t) && Carries(after, j, t))
      ensures forall d: string :: !(HoldsDraft(after, i, d) && HoldsDraft(after, j, d))
    {
      forall t: string {
        ThreadsStayApart(s, op, i, j, t);
      }
      forall d: string {
        DraftsStayApart(s, op, i, j, d);
      }
    }
  }

  /** Over every run from an empty store the links stay unique. */
  lemma {:induction false} LinksUniqueOverRuns(hist: seq<State>, ops: seq<Op>, k: nat)
    requires IsRun(hist, ops) && hist[0] == State([], []) && k <= |ops|
    ensures Backed(hist[k]) && LinksUnique(hist[k])
  {
    if k > 0 {
      LinksUniqueOverRuns(hist, ops, k - 1);
      StepKeepsLinksUnique(hist[k - 1], ops[k - 1]);
    }
  }

  /** The only item of its organisation that carries a thread is what the lookup finds. */
  lemma SoleCarrierIsFound(s: State, item: nat, t: string)
    requires LinksUnique(s) && item < |s.items| && Carries(s, item, t)
    ensures ItemByThread(s, s.items[item].org, t) == Some(item)
  {
    assert ItemByThread(s, s.items[item].org, t).Some?;
  }

  /** A carrier stays one, and stays in its organisation. */
  lemma StepKeepsCarrier(s: State, op: Op, item: nat, t: string)
    requires Backed(s) && item < |s.items| && Carries(s, item, t)
    ensures item < |Step(s, op).items| && Step(s, op).items[item].org == s.items[item].org
    ensures Carries(Step(s, op), item, t)
  {
    LinksAdded(s, op);
    assert Source(item, GmailThread, t) in s.sources;
  }

  lemma {:induction false} CarrierStays(hist: seq<State>, ops: seq<Op>, i: nat, j: nat, item: nat, t: string)
    requires IsRun(hist, ops) && hist[0] == State([], []) && i <= j <= |ops|
    requires item < |hist[i].items| && Carries(hist[i], item, t)
    ensures item < |hist[j].items| && hist[j].items[item].org == hist[i].items[item].org
    ensures Carries(hist[j], item, t)
    decreases j
  {
    if i < j {
      CarrierStays(hist, ops, i, j - 1, item, t);
      LinksUniqueOverRuns(hist, ops, j - 1);
      StepKeepsCarrier(hist[j - 1], ops[j - 1], item, t);
    }
  }

  /** The first item to carry a thread keeps it for the rest of the run, and stays the only carrier. */
  lemma FirstCarrierKeepsThread(hist: seq<State>, ops: seq<Op>, i: nat, j: nat, item: nat, t: string)
    requires IsRun(hist, ops) && hist[0] == State([], []) && i <= j <= |ops|
    requires item < |hist[i].items| && Carries(hist[i], item, t)
    ensures item < |hist[j].items| && hist[j].items[item].org == hist[i].items[item].org
    ensures Carries(hist[j], item, t)
    ensures ItemByThread(hist[j], hist[i].items[item].org, t) == Some(item)
  {
    CarrierStays(hist, ops, i, j, item, t);
    LinksUniqueOverRuns(hist, ops, j);
    SoleCarrierIsFound(hist[j], item, t);
  }

  /** Creating from compose adds an item exactly when neither the draft nor the thread is linked in the organisation. */
  lemma CreateAddsExactlyWhenUnlinked(s: State, org: string, draft: Option<string>, thread: Option<string>)
    requires Backed(s)
    ensures |ComposeCreate(s, org, draft, thread).0.items| > |s.items|
       <==> forall i | 0 <= i < |s.items| && s.items[i].org == org ::
              !(draft.Some? && HoldsDraft(s, i, draft.value)) && !(thread.Some? && Carries(s, i, thread.value))
    ensures |ComposeCreate(s, org, draft, thread).0.items| == |s.items| ==> ComposeCreate(s, org, draft, thread).0 == s
  {
  }

  /** The item the endpoint answers with is the organisation's, and is linked to the draft or the thread. */
  lemma CreateAnswersTheHolder(s: State, org: string, draft: Option<string>, thread: Option<string>)
    requires draft.Some? || thread.Some?
    ensures var (after, answer) := ComposeCreate(s, org, draft, thread);
            && Visible(after, answer.item, org)
            && ((draft.Some? && HoldsDraft(after, answer.item, draft.value))
                || (thread.Some? && Carries(after, answer.item, thread.value)))
  {
  }

  // ---------------------------------------------------------------------------
  // What each call does
  // ---------------------------------------------------------------------------

  /** The newest of the organisation's items that carries the thread has the highest number of them. */
  lemma {:induction false} NewestCarrierExactly(s: State, org: string, thread: string, n: nat, i: nat)
    requires i < n <= |s.items| && s.items[i].org == org && Carries(s, i, thread)
    ensures NewestCarrier(s, org, thread, n).Some? && i <= NewestCarrier(s, org, thread, n).value
  {
    if !(s.items[n - 1].org == org && Carries(s, n - 1, thread)) {
      NewestCarrierExactly(s, org, thread, n - 1, i);
    }
  }

  /** The call's item is not the newest of the organisation's that carries the thread, although some item does. */
  predicate NewestElsewhere(s: State, id: nat, org: string, thread: string) {
    exists i | 0 <= i < |s.items| ::
      && i != id && s.items[i].org == org && Carries(s, i, thread)
      && forall j | i < j < |s.items| && s.items[j].org == org :: !Carries(s, j, thread)
  }

  lemma TakenExactly(s: State, id: nat, org: string, thread: string)
    ensures ThreadTaken(s, id, org, thread) <==> NewestElsewhere(s, id, org, thread)
  {
    var found := ItemByThread(s, org, thread);
    if found.Some? {
      forall j | found.value < j < |s.items| && s.items[j].org == org ensures !Carries(s, j, thread) {
        if Carries(s, j, thread) {
          NewestCarrierExactly(s, org, thread, |s.items|, j);
        }
      }
    }
    if i :| 0 <= i < |s.items| && i != id && s.items[i].org == org && Carries(s, i, thread)
            && forall j | i < j < |s.items| && s.items[j].org == org :: !Carries(s, j, thread) {
      NewestCarrierExactly(s, org, thread, |s.items|, i);
    }
  }

  /** Only one item's thread may have changed. */
  predicate OnlyThread(s: State, after: State, id: nat, thread: Option<string>) {
    && |after.items| == |s.items| && id < |s.items| && after.items[id] == Item(s.items[id].org, thread)
    && forall i | 0 <= i < |s.items| && i != id :: after.items[i] == s.items[i]
  }

  /** The rows after are the rows before, in order, followed by these links where they are new. */
  ghost predicate AddsLinks(s: State, after: State, links: set<Source>) {
    && s.sources <= after.sources
    && forall row :: row in after.sources <==> row in s.sources || row in links
  }

  function Link(item: nat, kind: Kind, ref: Option<string>): set<Source> {
    if ref.Some? then {Source(item, kind, ref.value)} else {}
  }

  /** A Gmail link is done exactly for an item of the organisation and a thread that is named and not newest elsewhere; it links thread and message and sets the column. */
  lemma GmailLinkExactly(s: State, id: nat, org: string, thread: string, message: Option<string>)
    ensures var (after, r) := GmailLink(s, id, org, thread, message);
            && (r.Ok? <==> id < |s.items| && s.items[id].org == org && thread != "" && !NewestElsewhere(s, id, org, thread))
            && (r.Err? ==> after == s)
            && (r.Ok? ==> && OnlyThread(s, after, id, Some(thread))
                          && AddsLinks(s, after, {Source(id, GmailThread, thread)} + Link(id, GmailMessage, message)))
            && (r == Err(ItemNotFound) <==> !(id < |s.items| && s.items[id].org == org))
            && (r == Err(ThreadAlreadyLinked) <==> id < |s.items| && s.items[id].org == org && NewestElsewhere(s, id, org, thread))
  {
    TakenExactly(s, id, org, thread);
  }

  /** A compose link is done exactly for an item of the organisation, a draft that no other item of any organisation holds, and a thread not newest elsewhere. */
  lemma ComposeLinkExactly(s: State, id: nat, org: string, draft: Option<string>, thread: Option<string>)
    ensures var (after, r) := ComposeLink(s, id, org, draft, thread);
            var held := draft.Some? && exists row | row in s.sources :: row.kind == ComposeDraft && row.ref == draft.value && row.item != id;
            && (r.Ok? <==> && id < |s.items| && s.items[id].org == org && !held
                           && (thread.Some? ==> !NewestElsewhere(s, id, org, thread.value)))
            && (r.Err? ==> after == s)
            && (r == Err(ItemNotFound) <==> !(id < |s.items| && s.items[id].org == org))
            && (r == Err(DraftAlreadyLinked) <==> id < |s.items| && s.items[id].org == org && held)
            && (r.Ok? ==> && OnlyThread(s, after, id, if thread.Some? then thread else s.items[id].threadId)
                          && AddsLinks(s, after, Link(id, ComposeDraft, draft) + Link(id, GmailThread, thread)))
  {
    if thread.Some? {
      TakenExactly(s, id, org, thread.value);
    }
  }

  /** A new record has the organisation and the thread asked for, and its links; an old one is answered for the draft first, then the thread. */
  lemma ComposeCreateExactly(s: State, org: string, draft: Option<string>, thread: Option<string>)
    ensures var (after, answer) := ComposeCreate(s, org, draft, thread);
            && (answer.NewItem? ==>
                  && answer.item == |s.items| && after.items == s.items + [Item(org, thread)]
                  && AddsLinks(s, after, Link(|s.items|, ComposeDraft, draft) + Link(|s.items|, GmailThread, thread)))
            && (answer.AlreadyLinked? ==>
                  && after == s && answer.item < |s.items| && s.items[answer.item].org == org
                  && if draft.Some? && (exists i: nat | i < |s.items| :: s.items[i].org == org && HoldsDraft(s, i, draft.value))
                     then HoldsDraft(s, answer.item, draft.value)
                     else thread.Some? && Carries(s, answer.item, thread.value))
  {
  }

  // ---------------------------------------------------------------------------
  // The endpoints, step by step
  // ---------------------------------------------------------------------------

  class ItemStore {
    var items: seq<Item>
    var sources: seq<Source>

    function Now(): State
      reads this
    {
      State(items, sources)
    }

    constructor ()
      ensures Now() == State([], [])
    {
      items, sources := [], [];
    }

    method LinkSource(row: Source)
      modifies this`sources
      ensures sources == WithSource(old(sources), row)
    {
      if row !in sources {
        sources := sources + [row];
      }
    }

    method LinkGmailThread(id: nat, org: string, thread: string, message: Option<string>) returns (r: Result<(), Error>)
      modifies this
      ensures (Now(), r) == GmailLink(old(Now()), id, org, thread, message)
    {
      if id >= |items| || items[id].org != org {
        return Err(ItemNotFound);
      }
      var existing := ItemByThread(Now(), org, thread);
      if existing.Some? && existing.value != id {
        return Err(ThreadAlreadyLinked);
      }
      if thread == "" {
        return Err(SourceRefRequired);
      }
      LinkSource(Source(id, GmailThread, thread));
      if message.Some? {
        LinkSource(Source(id, GmailMessage, message.value));
      }
      items := items[id := items[id].(threadId := Some(thread))];
      return Ok(());
    }

    method LinkComposeDraft(id: nat, org: string, draft: Option<string>, thread: Option<string>) returns (r: Result<(), Error>)
      modifies this
      ensures (Now(), r) == ComposeLink(old(Now()), id, org, draft, thread)
    {
      if id >= |items| || items[id].org != org {
        return Err(ItemNotFound);
      }
      if draft.Some? {
        for k := 0 to |sources|
          invariant forall m | 0 <= m < k ::
            !(sources[m].kind == ComposeDraft && sources[m].ref == draft.value && sources[m].item != id)
        {
          var row := sources[k];
          if row.kind == ComposeDraft && row.ref == draft.value && row.item != id {
            return Err(DraftAlreadyLinked);
          }
        }
      }
      if thread.Some? {
        var existing := ItemByThread(Now(), org, thread.value);
        if existing.Some? && existing.value != id {
          return Err(ThreadAlreadyLinked);
        }
      }
      if draft.Some? {
        LinkSource(Source(id, ComposeDraft, draft.value));
      }
      if thread.Some? {
        LinkSource(Source(id, GmailThread, thread.value));
        if items[id].threadId != thread {
          items := items[id := items[id].(threadId := thread)];
        } else {
          assert items == items[id := items[id].(threadId := thread)];
        }
      }
      return Ok(());
    }

    method CreateComposeRecord(org: string, draft: Option<string>, thread: Option<string>) returns (r: Created)
      modifies this
      ensures (Now(), r) == ComposeCreate(old(Now()), org, draft, thread)
    {
      if draft.Some? {
        var k: nat := |sources|;
        while k > 0
          invariant k <= |sources|
          invariant DraftHolder(Now(), org, draft.value, |sources|) == DraftHolder(Now(), org, draft.value, k)
        {
          k := k - 1;
          var row := sources[k];
          if row.kind == ComposeDraft && row.ref == draft.value && Visible(Now(), row.item, org) {
            return AlreadyLinked(row.item);
          }
        }
      }
      if thread.Some? {
        var existing := ItemByThread(Now(), org, thread.value);
        if existing.Some? {
          return AlreadyLinked(existing.value);
        }
      }
      var id := |items|;
      items := items + [Item(org, thread)];
      if draft.Some? {
        LinkSource(Source(id, ComposeDraft, draft.value));
      }
      if thread.Some? {
        LinkSource(Source(id, GmailThread, thread.value));
      }
      return NewItem(id);
    }
  }
}
