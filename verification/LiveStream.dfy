/**
 The dashboard's live stream: three channels that send a payload only when it differs from the
 last one sent, a heartbeat, and the activity ribbon that feeds one of the channels.
 A payload is its serialised text, which is never empty.
 */
module LiveStream {
  import opened Wrappers
  import opened Text

  const TICK_SECONDS := 15
  const HEARTBEAT_SECONDS := 30

  datatype Channel = Stats | Workload | Activity

  datatype Message = Payload(channel: Channel, text: string) | Heartbeat

  /** What one tick fetches for each channel; a failed fetch gives none. */
  datatype Snapshot = Snapshot(stats: Option<string>, workload: Option<string>, activity: Option<string>)

  /** The payloads sent in place of failed fetches. */
  datatype Fallback = Fallback(stats: string, workload: string, activity: string)

  function Fetched(o: Option<string>, fallback: string): string {
    if o.Some? then o.value else fallback
  }

  predicate Serialised(t: Snapshot, fb: Fallback) {
    Current(t, fb, Stats) != "" && Current(t, fb, Workload) != "" && Current(t, fb, Activity) != ""
  }

  function Current(t: Snapshot, fb: Fallback, c: Channel): string {
    match c
    case Stats => Fetched(t.stats, fb.stats)
    case Workload => Fetched(t.workload, fb.workload)
    case Activity => Fetched(t.activity, fb.activity)
  }

  /** A channel's payload is its own fetch, or its own fallback. */
  lemma CurrentExactly(t: Snapshot, fb: Fallback)
    ensures Current(t, fb, Stats) == if t.stats == None then fb.stats else t.stats.value
    ensures Current(t, fb, Workload) == if t.workload == None then fb.workload else t.workload.value
    ensures Current(t, fb, Activity) == if t.activity == None then fb.activity else t.activity.value
  {
  }

  // ---------------------------------------------------------------------------
  // The reference: what a client should see
  // ---------------------------------------------------------------------------

  /** A channel's payloads, tick by tick. */
  function Signal(ticks: seq<Snapshot>, fb: Fallback, c: Channel): (r: seq<string>)
    ensures |r| == |ticks|
  {
    seq(|ticks|, i requires 0 <= i < |ticks| => Current(ticks[i], fb, c))
  }

  /** A sequence without immediate repeats, its last element first in line for comparison. */
  function WithoutRepeats(s: seq<string>): (r: seq<string>)
    ensures r == [] <==> s == []
    ensures s != [] ==> r[|r| - 1] == s[|s| - 1]
  {
    if s == [] then []
    else
      var front := WithoutRepeats(s[..|s| - 1]);
      if front != [] && front[|front| - 1] == s[|s| - 1] then front else front + [s[|s| - 1]]
  }

  predicate NeighboursDiffer(s: seq<string>) {
    forall i | 0 < i < |s| :: s[i - 1] != s[i]
  }

  /** The texts sent on one channel. */
  function Sent(messages: seq<Message>, c: Channel): seq<string> {
    if messages == [] then []
    else
      var last := messages[|messages| - 1];
      Sent(messages[..|messages| - 1], c) + if last.Payload? && last.channel == c then [last.text] else []
  }

  function Heartbeats(messages: seq<Message>): nat {
    if messages == [] then 0
    else Heartbeats(messages[..|messages| - 1]) + if messages[|messages| - 1].Heartbeat? then 1 else 0
  }

  function LastOf(s: seq<string>): string {
    if s == [] then "" else s[|s| - 1]
  }

  lemma {:induction false} SentAppends(a: seq<Message>, b: seq<Message>, c: Channel)
    ensures Sent(a + b, c) == Sent(a, c) + Sent(b, c)
    ensures Heartbeats(a + b) == Heartbeats(a) + Heartbeats(b)
  {
    if b == [] {
      assert a + b == a;
    } else {
      var front := b[..|b| - 1];
      assert (a + b)[..|a + b| - 1] == a + front;
      SentAppends(a, front, c);
    }
  }

  lemma {:induction false} RepeatsAreGone(s: seq<string>)
    ensures NeighboursDiffer(WithoutRepeats(s))
  {
    if s != [] {
      RepeatsAreGone(s[..|s| - 1]);
    }
  }

  // ---------------------------------------------------------------------------
  // The generator
  // ---------------------------------------------------------------------------

  /** What a channel sends when its payload goes from one text to another. */
  function Changed(last: string, now: string): seq<string> {
    if now != last then [now] else []
  }

  predicate SentTo(messages: seq<Message>, stats: seq<string>, workload: seq<string>, activity: seq<string>, beats: nat) {
    && Sent(messages, Stats) == stats && Sent(messages, Workload) == workload && Sent(messages, Activity) == activity
    && Heartbeats(messages) == beats
  }

  lemma OneMore(messages: seq<Message>, m: Message)
    ensures forall c: Channel :: Sent(messages + [m], c) == Sent(messages, c) + if m.Payload? && m.channel == c then [m.text] else []
    ensures Heartbeats(messages + [m]) == Heartbeats(messages) + if m.Heartbeat? then 1 else 0
  {
    assert (messages + [m])[..|messages|] == messages;
  }

  /** What the stream is known to have sent after some ticks. */
  predicate Mirrors(messages: seq<Message>, ticks: seq<Snapshot>, fb: Fallback) {
    && Mirrored(messages, ticks, fb, Stats) && Mirrored(messages, ticks, fb, Workload) && Mirrored(messages, ticks, fb, Activity)
  }

  /** A channel has sent its signal without immediate repeats. */
  predicate Mirrored(messages: seq<Message>, ticks: seq<Snapshot>, fb: Fallback, c: Channel) {
    Sent(messages, c) == WithoutRepeats(Signal(ticks, fb, c))
  }

  lemma SignalOneMore(ticks: seq<Snapshot>, fb: Fallback, t: Snapshot, c: Channel)
    ensures Signal(ticks + [t], fb, c) == Signal(ticks, fb, c) + [Current(t, fb, c)]
  {
  }

  lemma RepeatsOneMore(s: seq<string>, x: string)
    requires x != ""
    ensures WithoutRepeats(s + [x]) == WithoutRepeats(s) + Changed(LastOf(WithoutRepeats(s)), x)
    ensures LastOf(WithoutRepeats(s + [x])) == x
  {
    assert (s + [x])[..|s|] == s;
  }

  method SendChanged(messages: seq<Message>, c: Channel, last: string, now: string) returns (more: seq<Message>)
    ensures Sent(more, c) == Sent(messages, c) + Changed(last, now)
    ensures forall d: Channel | d != c :: Sent(more, d) == Sent(messages, d)
    ensures Heartbeats(more) == Heartbeats(messages)
  {
    more := messages;
    if now != last {
      OneMore(messages, Payload(c, now));
      more := more + [Payload(c, now)];
    }
  }

  predicate Remembers(last: string, messages: seq<Message>, ticks: seq<Snapshot>, fb: Fallback, c: Channel) {
    Mirrored(messages, ticks, fb, c) && last == LastOf(Sent(messages, c))
  }

  /** One more tick: a channel sends exactly when its payload changed. */
  lemma TickRemembers(last: string, messages: seq<Message>, ticks: seq<Snapshot>, fb: Fallback, t: Snapshot, more: seq<Message>, c: Channel)
    requires Remembers(last, messages, ticks, fb, c) && Current(t, fb, c) != ""
    requires Sent(more, c) == Changed(last, Current(t, fb, c))
    ensures Remembers(Current(t, fb, c), messages + more, ticks + [t], fb, c)
  {
    SentAppends(messages, more, c);
    SignalOneMore(ticks, fb, t, c);
    RepeatsOneMore(Signal(ticks, fb, c), Current(t, fb, c));
  }

  /** One heartbeat for every two ticks, the odd tick still pending. */
  predicate Beating(beats: nat, heartbeats: nat, ticks: nat) {
    heartbeats * 2 + beats == ticks && beats < 2
  }

  /** The generator's variables after some ticks. */
  datatype Memory = Memory(stats: string, workload: string, activity: string, beats: nat)

  predicate InStep(mem: Memory, messages: seq<Message>, ticks: seq<Snapshot>, fb: Fallback) {
    && Remembers(mem.stats, messages, ticks, fb, Stats)
    && Remembers(mem.workload, messages, ticks, fb, Workload)
    && Remembers(mem.activity, messages, ticks, fb, Activity)
    && Beating(mem.beats, Heartbeats(messages), |ticks|)
  }

  lemma TickKeepsStep(mem: Memory, messages: seq<Message>, ticks: seq<Snapshot>, fb: Fallback, t: Snapshot, more: seq<Message>, next: Memory)
    requires InStep(mem, messages, ticks, fb) && Serialised(t, fb)
    requires SentTo(more, Changed(mem.stats, next.stats), Changed(mem.workload, next.workload), Changed(mem.activity, next.activity),
                    if mem.beats == 1 then 1 else 0)
    requires next == Memory(Current(t, fb, Stats), Current(t, fb, Workload), Current(t, fb, Activity), 1 - mem.beats)
    ensures InStep(next, messages + more, ticks + [t], fb)
  {
    TickRemembers(mem.stats, messages, ticks, fb, t, more, Stats);
    TickRemembers(mem.workload, messages, ticks, fb, t, more, Workload);
    TickRemembers(mem.activity, messages, ticks, fb, t, more, Activity);
    SentAppends(messages, more, Stats);
  }

  /** One tick: each fetched payload against the last one sent, then the heartbeat. */
  method Tick(t: Snapshot, fb: Fallback, mem: Memory) returns (more: seq<Message>, next: Memory)
    requires mem.beats < 2
    ensures SentTo(more, Changed(mem.stats, next.stats), Changed(mem.workload, next.workload), Changed(mem.activity, next.activity),
                   if mem.beats == 1 then 1 else 0)
    ensures next == Memory(Current(t, fb, Stats), Current(t, fb, Workload), Current(t, fb, Activity), 1 - mem.beats)
  {
    var stats := Fetched(t.stats, fb.stats);
    var workload := Fetched(t.workload, fb.workload);
    var activity := Fetched(t.activity, fb.activity);
    more := SendChanged([], Stats, mem.stats, stats);
    more := SendChanged(more, Workload, mem.workload, workload);
    more := SendChanged(more, Activity, mem.activity, activity);
    var ticksSinceHeartbeat := mem.beats + 1;
    if ticksSinceHeartbeat * TICK_SECONDS >= HEARTBEAT_SECONDS {
      OneMore(more, Heartbeat);
      more := more + [Heartbeat];
      ticksSinceHeartbeat := 0;
    }
    next := Memory(stats, workload, activity, ticksSinceHeartbeat);
  }

  /**
   The generator over any number of ticks: every channel sends its signal without immediate
   repeats, and one tick in two carries a heartbeat.
   */
  method EventGenerator(ticks: seq<Snapshot>, fb: Fallback) returns (messages: seq<Message>)
    requires forall t | t in ticks :: Serialised(t, fb)
    ensures Mirrors(messages, ticks, fb)
    ensures Heartbeats(messages) == |ticks| / 2
  {
    messages := [];
    var mem := Memory("", "", "", 0);
    for i := 0 to |ticks|
      invariant InStep(mem, messages, ticks[..i], fb)
    {
      var more, next := Tick(ticks[i], fb, mem);
      assert ticks[i] in ticks && Serialised(ticks[i], fb);
      TickKeepsStep(mem, messages, ticks[..i], fb, ticks[i], more, next);
      assert ticks[..i] + [ticks[i]] == ticks[..i + 1];
      messages, mem := messages + more, next;
    }
    assert ticks[..|ticks|] == ticks;
  }

  /** A client that keeps the last payload of each channel always shows the current one, and no payload comes twice in a row. */
  lemma ClientIsCurrent(messages: seq<Message>, ticks: seq<Snapshot>, fb: Fallback, c: Channel)
    requires ticks != [] && Mirrors(messages, ticks, fb)
    ensures LastOf(Sent(messages, c)) == Current(ticks[|ticks| - 1], fb, c)
    ensures NeighboursDiffer(Sent(messages, c))
  {
    RepeatsAreGone(Signal(ticks, fb, c));
  }

  // ---------------------------------------------------------------------------
  // The activity ribbon
  // ---------------------------------------------------------------------------

  const KEEP_PREFIXES: seq<string> :=
    ["agent_action:", "operator_action:", "state_transition", "ap_item:", "vendor_inquiry:", "label_changed", "post_to_erp", "bank_match:"]

  const DROP_EXACT: set<string> := {"agent_action:precheck", "governance:precheck:passed", "governance:precheck:failed"}

  datatype AuditRow = AuditRow(id: string, eventType: string)

  predicate EndsWith(s: string, suffix: string) {
    |suffix| <= |s| && s[|s| - |suffix|..] == suffix
  }

  /** The rows that make it to the ribbon. */
  predicate HighSignal(row: AuditRow) {
    var et := Trim(row.eventType);
    && et != "" && et !in DROP_EXACT
    && (exists p | p in KEEP_PREFIXES :: p <= et)
    && ("agent_action:" <= et ==> EndsWith(et, ":completed"))
  }

  type Keep = AuditRow -> bool

  function Kept(keep: Keep, rows: seq<AuditRow>): seq<AuditRow> {
    if rows == [] then [] else (if keep(rows[0]) then [rows[0]] else []) + Kept(keep, rows[1..])
  }

  function FirstOf(s: seq<AuditRow>, n: nat): seq<AuditRow> {
    if |s| <= n then s else s[..n]
  }

  lemma {:induction false} KeptAppends(keep: Keep, a: seq<AuditRow>, b: seq<AuditRow>)
    ensures Kept(keep, a + b) == Kept(keep, a) + Kept(keep, b)
  {
    if a == [] {
      assert a + b == b;
    } else {
      assert (a + b)[1..] == a[1..] + b && (a + b)[0] == a[0];
      KeptAppends(keep, a[1..], b);
      var head := if keep(a[0]) then [a[0]] else [];
      assert Kept(keep, a + b) == head + Kept(keep, a[1..] + b);
      assert Kept(keep, a) == head + Kept(keep, a[1..]);
    }
  }

  lemma KeptOneMore(keep: Keep, rows: seq<AuditRow>, i: nat)
    requires i < |rows|
    ensures Kept(keep, rows[..i + 1]) == Kept(keep, rows[..i]) + if keep(rows[i]) then [rows[i]] else []
  {
    assert rows[..i + 1] == rows[..i] + [rows[i]];
    KeptAppends(keep, rows[..i], [rows[i]]);
    assert [rows[i]][1..] == [];
  }

  lemma KeptIsFull(keep: Keep, rows: seq<AuditRow>, i: nat)
    requires i <= |rows|
    ensures FirstOf(Kept(keep, rows), |Kept(keep, rows[..i])|) == Kept(keep, rows[..i])
  {
    assert rows[..i] + rows[i..] == rows;
    KeptAppends(keep, rows[..i], rows[i..]);
  }

  /** The first kept rows, up to the limit, without looking at the rows after them. */
  method ShapeActivityEvents(keep: Keep, rows: seq<AuditRow>, limit: nat) returns (out: seq<AuditRow>)
    requires limit >= 1
    ensures out == FirstOf(Kept(keep, rows), limit)
  {
    out := [];
    for i := 0 to |rows|
      invariant out == Kept(keep, rows[..i]) && |out| < limit
    {
      KeptOneMore(keep, rows, i);
      if !keep(rows[i]) {
        continue;
      }
      out := out + [rows[i]];
      if |out| >= limit {
        KeptIsFull(keep, rows, i + 1);
        return;
      }
    }
    assert rows[..|rows|] == rows;
  }

  /** What the endpoint answers for a log, and what it would answer without the window. */
  function Ribbon(log: seq<AuditRow>, limit: int): seq<AuditRow> {
    FirstOf(Kept(HighSignal, FirstOf(log, 6 * SafeLimit(limit))), SafeLimit(limit))
  }

  function FullRibbon(log: seq<AuditRow>, limit: int): seq<AuditRow> {
    FirstOf(Kept(HighSignal, log), SafeLimit(limit))
  }

  /** Rows come newest first; the limit is clamped and six times as many rows are fetched. */
  method RecentActivity(log: seq<AuditRow>, limit: int) returns (out: seq<AuditRow>)
    ensures out == Ribbon(log, limit)
  {
    out := ShapeActivityEvents(HighSignal, FirstOf(log, 6 * SafeLimit(limit)), SafeLimit(limit));
  }

  /** A missing or zero limit means twenty; every limit is brought into 1..100. */
  function SafeLimit(limit: int): (r: nat)
    ensures 1 <= r <= 100
  {
    var n := if limit == 0 then 20 else limit;
    if n < 1 then 1 else if n > 100 then 100 else n
  }

  /**
   The ribbon reads only a window of the newest rows. It shows what the whole log would show exactly
   when the window already fills it, or when nothing older is worth showing.
   */
  lemma WindowSufficesExactly(keep: Keep, window: seq<AuditRow>, older: seq<AuditRow>, limit: nat)
    ensures FirstOf(Kept(keep, window), limit) == FirstOf(Kept(keep, window + older), limit)
            <==> |Kept(keep, window)| >= limit || Kept(keep, older) == []
  {
    KeptAppends(keep, window, older);
    var a, b := Kept(keep, window), Kept(keep, older);
    if a + b != [] && |a| < limit && b != [] {
      assert |FirstOf(a + b, limit)| > |a|;
    }
  }

  function Older(log: seq<AuditRow>, n: nat): seq<AuditRow> {
    if |log| <= n then [] else log[n..]
  }

  /**
   The endpoint shows what the whole log would show exactly when the newest rows, six times the
   limit, already fill it, or when nothing older is worth showing.
   */
  lemma RibbonIsWholeExactly(log: seq<AuditRow>, limit: int)
    ensures Ribbon(log, limit) == FullRibbon(log, limit)
       <==> || |Kept(HighSignal, FirstOf(log, 6 * SafeLimit(limit)))| >= SafeLimit(limit)
            || Kept(HighSignal, Older(log, 6 * SafeLimit(limit))) == []
  {
    var n := 6 * SafeLimit(limit);
    assert log == FirstOf(log, n) + Older(log, n);
    WindowSufficesExactly(HighSignal, FirstOf(log, n), Older(log, n), SafeLimit(limit));
  }

  lemma {:induction false} NoiseIsDropped(noise: AuditRow, n: nat)
    requires !HighSignal(noise)
    ensures Kept(HighSignal, seq(n, _ => noise)) == []
  {
    if n > 0 {
      assert seq(n, _ => noise)[1..] == seq(n - 1, _ => noise);
      NoiseIsDropped(noise, n - 1);
    }
  }

  /** A concrete family of logs, one for every limit: as many dropped rows as are fetched hide everything before them. */
  lemma NoiseHidesActivity(limit: int, noise: AuditRow, shown: AuditRow)
    requires !HighSignal(noise) && HighSignal(shown)
    ensures var log := seq(6 * SafeLimit(limit), _ => noise) + [shown];
            Ribbon(log, limit) == [] && FullRibbon(log, limit) == [shown]
  {
    var n := 6 * SafeLimit(limit);
    var front := seq(n, _ => noise);
    var log := front + [shown];
    assert FirstOf(log, n) == front;
    NoiseIsDropped(noise, n);
    KeptAppends(HighSignal, front, [shown]);
    assert [shown][1..] == [];
  }

  /** Such rows exist: a governance check is dropped, a state transition is shown. */
  lemma NoiseExists() returns (noise: AuditRow, shown: AuditRow)
    ensures !HighSignal(noise) && HighSignal(shown)
  {
    noise, shown := AuditRow("a", "governance:precheck:passed"), AuditRow("b", "state_transition");
    TrimIsTrimmed(noise.eventType);
    assert noise.eventType[0] == 'g' && noise.eventType[|noise.eventType| - 1] == 'd';
    assert noise.eventType in DROP_EXACT;
    var et := shown.eventType;
    TrimIsTrimmed(et);
    assert et == KEEP_PREFIXES[2] && KEEP_PREFIXES[2] in KEEP_PREFIXES;
    assert et[0] == 's' && et[|et| - 1] == 'n';
    assert et[0] != "agent_action:"[0] && et[0] != "governance:"[0];
  }

  // ---------------------------------------------------------------------------
  // The filter and the limit
  // ---------------------------------------------------------------------------

  /** The kept rows are exactly the rows the filter keeps, in their order and as often as they occur. */
  lemma {:induction false} KeptExactly(keep: Keep, rows: seq<AuditRow>) returns (at: seq<nat>)
    ensures |at| == |Kept(keep, rows)|
    ensures forall k | 0 <= k < |at| :: at[k] < |rows| && rows[at[k]] == Kept(keep, rows)[k]
    ensures forall j, k | 0 <= j < k < |at| :: at[j] < at[k]
    ensures forall i: nat | i < |rows| :: i in at <==> keep(rows[i])
  {
    at := [];
    if rows != [] {
      var n := |rows| - 1;
      at := KeptExactly(keep, rows[..n]);
      KeptOneMore(keep, rows, n);
      assert rows[..n + 1] == rows;
      assert forall i | 0 <= i < n :: rows[..n][i] == rows[i];
      if keep(rows[n]) {
        at := at + [n];
      }
    }
  }

  /** Which event types are shown: of a kept family, not dropped by name, and an agent's action only once it is completed. */
  lemma ShownExactly(row: AuditRow)
    ensures var et := Trim(row.eventType);
            HighSignal(row)
            <==> && et !in {"agent_action:precheck", "governance:precheck:passed", "governance:precheck:failed"}
                 && (|| ("agent_action:" <= et && EndsWith(et, ":completed"))
                     || "operator_action:" <= et || "state_transition" <= et || "ap_item:" <= et || "vendor_inquiry:" <= et
                     || "label_changed" <= et || "post_to_erp" <= et || "bank_match:" <= et)
  {
    var et := Trim(row.eventType);
    AnyOfEight(KEEP_PREFIXES, et);
    if "agent_action:" <= et {
      OtherFamilies(et);
    }
  }

  lemma AnyOfEight(ps: seq<string>, et: string)
    requires |ps| == 8
    ensures (exists p | p in ps :: p <= et)
       <==> ps[0] <= et || ps[1] <= et || ps[2] <= et || ps[3] <= et || ps[4] <= et || ps[5] <= et || ps[6] <= et || ps[7] <= et
  {
    assert forall i | 0 <= i < 8 :: ps[i] in ps;
  }

  lemma PrefixesDiffer(a: string, b: string, et: string, i: nat)
    requires i < |a| && i < |b| && a[i] != b[i] && a <= et
    ensures !(b <= et)
  {
    assert et[i] == a[i];
  }

  /** No other family starts like an agent's action. */
  lemma OtherFamilies(et: string)
    requires "agent_action:" <= et
    ensures !("operator_action:" <= et) && !("state_transition" <= et) && !("ap_item:" <= et) && !("vendor_inquiry:" <= et)
    ensures !("label_changed" <= et) && !("post_to_erp" <= et) && !("bank_match:" <= et)
  {
    PrefixesDiffer("agent_action:", "operator_action:", et, 0);
    PrefixesDiffer("agent_action:", "state_transition", et, 0);
    PrefixesDiffer("agent_action:", "ap_item:", et, 1);
    PrefixesDiffer("agent_action:", "vendor_inquiry:", et, 0);
    PrefixesDiffer("agent_action:", "label_changed", et, 0);
    PrefixesDiffer("agent_action:", "post_to_erp", et, 0);
    PrefixesDiffer("agent_action:", "bank_match:", et, 0);
  }

  /** A limit within 1 to 100 is kept, a missing one means twenty, and any other is brought to the nearer end. */
  lemma LimitExactly(limit: int)
    ensures 1 <= limit <= 100 ==> SafeLimit(limit) == limit
    ensures limit == 0 ==> SafeLimit(limit) == 20
    ensures limit < 0 ==> SafeLimit(limit) == 1
    ensures limit > 100 ==> SafeLimit(limit) == 100
  {
  }
}
