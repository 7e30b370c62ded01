/**
 One-shot sign-in codes: issued after an OAuth callback, redeemed once for the session
 token. Fresh codes are numbered in issue order. The table is replayed from the history of
 calls, and a declarative condition on the history says exactly which redemptions succeed.
 */
module ExchangeCodes {
  import opened Wrappers

  datatype Entry = Entry(token: string, org: string, expiresAt: int)

  datatype State = State(codes: map<nat, Entry>, issued: nat)

  datatype Error = MissingOrganization | InvalidCode | ExpiredCode

  /** The TTL setting, `None` when it does not parse as an integer. */
  function Ttl(raw: Option<int>): (seconds: int)
    ensures 30 <= seconds <= 600
    ensures raw.Some? && 30 <= raw.value <= 600 ==> seconds == raw.value
    ensures raw.None? ==> seconds == 180
  {
    var value := if raw.Some? then raw.value else 180;
    var capped := if value < 600 then value else 600;
    if capped > 30 then capped else 30
  }

  function Purged(codes: map<nat, Entry>, now: int): map<nat, Entry> {
    map c | c in codes && !(codes[c].expiresAt < now) :: codes[c]
  }

  datatype Call =
    | Issue(now: int, ttl: Option<int>, token: string, org: string)
    | Consume(now: int, code: nat)

  function IssueCode(s: State, now: int, ttl: Option<int>, token: string, org: string): (State, Result<nat, Error>) {
    var kept := Purged(s.codes, now);
    if org == "" then (State(kept, s.issued), Err(MissingOrganization))
    else (State(kept[s.issued := Entry(token, org, now + Ttl(ttl))], s.issued + 1), Ok(s.issued))
  }

  /** The row is removed before its expiry is looked at, so a late attempt also burns the code. */
  function ConsumeCode(s: State, now: int, code: nat): (State, Result<Entry, Error>) {
    var after := State(s.codes - {code}, s.issued);
    if code !in s.codes then (after, Err(InvalidCode))
    else if now > s.codes[code].expiresAt then (after, Err(ExpiredCode))
    else (after, Ok(s.codes[code]))
  }

  function Step(s: State, call: Call): State {
    match call
    case Issue(now, ttl, token, org) => IssueCode(s, now, ttl, token, org).0
    case Consume(now, code) => ConsumeCode(s, now, code).0
  }

  /** The table after a history of calls, starting from an empty one. */
  function Replay(history: seq<Call>): State {
    if history == [] then State(map[], 0)
    else Step(Replay(history[..|history| - 1]), history[|history| - 1])
  }

  predicate Monotone(history: seq<Call>) {
    forall i, j | 0 <= i < j < |history| :: history[i].now <= history[j].now
  }

  /** How many codes the first calls issued: the number the next code will get. */
  function IssuedBy(history: seq<Call>): nat {
    if history == [] then 0
    else
      var last := history[|history| - 1];
      IssuedBy(history[..|history| - 1]) + if last.Issue? && last.org != "" then 1 else 0
  }

  /** Call `i` issued this code, and no later call tried to redeem it. */
  ghost predicate Outstanding(history: seq<Call>, i: nat, code: nat) {
    && i < |history| && history[i].Issue? && history[i].org != ""
    && IssuedBy(history[..i]) == code
    && forall j | i < j < |history| :: history[j] != Consume(history[j].now, code)
  }

  function EntryOf(call: Call): Entry
    requires call.Issue?
  {
    Entry(call.token, call.org, call.now + Ttl(call.ttl))
  }

  lemma {:induction false} IssuedByPrefix(history: seq<Call>, i: nat)
    requires i <= |history|
    ensures IssuedBy(history[..i]) <= IssuedBy(history)
    ensures i < |history| && history[i].Issue? && history[i].org != "" ==> IssuedBy(history[..i]) < IssuedBy(history)
  {
    if i < |history| {
      var front := history[..|history| - 1];
      assert front[..i] == history[..i];
      IssuedByPrefix(front, i);
    } else {
      assert history[..i] == history;
    }
  }

  lemma {:induction false} ReplayCounts(history: seq<Call>)
    ensures Replay(history).issued == IssuedBy(history)
    ensures forall c | c in Replay(history).codes :: c < IssuedBy(history)
  {
    if history != [] {
      ReplayCounts(history[..|history| - 1]);
    }
  }

  /** A stored code was issued by a call of the history and has not been tried since. */
  lemma {:induction false} StoredIsOutstanding(history: seq<Call>, code: nat) returns (i: nat)
    requires code in Replay(history).codes
    ensures Outstanding(history, i, code) && Replay(history).codes[code] == EntryOf(history[i])
  {
    var n := |history| - 1;
    var front := history[..n];
    ReplayCounts(front);
    if history[n].Issue? && history[n].org != "" && code == Replay(front).issued {
      i := n;
    } else {
      i := StoredIsOutstanding(front, code);
      assert front[..i] == history[..i];
    }
  }

  /** Purging only drops codes that have run out by the time of the last call. */
  lemma {:induction false} OutstandingIsStored(history: seq<Call>, i: nat, code: nat)
    requires Monotone(history) && Outstanding(history, i, code)
    ensures code in Replay(history).codes || EntryOf(history[i]).expiresAt < history[|history| - 1].now
    ensures code in Replay(history).codes ==> Replay(history).codes[code] == EntryOf(history[i])
  {
    var n := |history| - 1;
    var front := history[..n];
    ReplayCounts(front);
    if i < n {
      assert front[..i] == history[..i];
      IssuedByPrefix(front, i);
      OutstandingIsStored(front, i, code);
    }
  }

  /** No two calls issue the same code. */
  lemma IssuerIsUnique(history: seq<Call>, i: nat, j: nat, code: nat)
    requires Outstanding(history, i, code) && Outstanding(history, j, code)
    ensures i == j
  {
    if i < j {
      assert history[..j][..i] == history[..i];
      IssuedByPrefix(history[..j], i);
    } else if j < i {
      assert history[..i][..j] == history[..j];
      IssuedByPrefix(history[..i], j);
    }
  }

  /**
   With a clock that does not go back, a redemption succeeds exactly when the code was
   issued, nobody has tried it since, and its clamped TTL has not run out; it then returns
   the token and organisation it was issued with.
   */
  lemma RedeemedExactly(history: seq<Call>, now: int, code: nat, entry: Entry)
    requires Monotone(history + [Consume(now, code)])
    ensures ConsumeCode(Replay(history), now, code).1 == Ok(entry)
       <==> exists i | 0 <= i < |history| ::
              Outstanding(history, i, code) && entry == EntryOf(history[i]) && now <= history[i].now + Ttl(history[i].ttl)
  {
    assert Monotone(history) && forall i | 0 <= i < |history| :: history[i].now <= now by {
      var longer := history + [Consume(now, code)];
      assert forall i | 0 <= i < |history| :: longer[i] == history[i];
      assert longer[|history|].now == now;
    }
    if code in Replay(history).codes {
      var i := StoredIsOutstanding(history, code);
      forall j | 0 <= j < |history| && Outstanding(history, j, code) ensures j == i {
        IssuerIsUnique(history, i, j, code);
      }
    }
    forall i | 0 <= i < |history| && Outstanding(history, i, code)
      ensures code in Replay(history).codes || EntryOf(history[i]).expiresAt < now
    {
      OutstandingIsStored(history, i, code);
    }
  }

  /** Any attempt, in time or late, burns the code: no later attempt ever succeeds. */
  lemma {:induction false} AttemptBurns(history: seq<Call>, j: nat, code: nat, now: int)
    requires j < |history| && history[j].Consume? && history[j].code == code
    requires code < IssuedBy(history[..j])
    ensures ConsumeCode(Replay(history), now, code).1 == Err(InvalidCode)
  {
    var n := |history| - 1;
    var front := history[..n];
    assert Replay(history) == Step(Replay(front), history[n]);
    if j < n {
      assert front[..j] == history[..j];
      AttemptBurns(front, j, code, now);
      IssuedByPrefix(front, j);
      ReplayCounts(front);
    }
  }

  /** Issuing answers with a code nobody had, which is outstanding from then on, and is refused exactly without an organisation. */
  lemma IssueExactly(history: seq<Call>, now: int, ttl: Option<int>, token: string, org: string)
    ensures var r := IssueCode(Replay(history), now, ttl, token, org).1;
            && (r.Err? <==> org == "") && (r.Err? ==> r == Err(MissingOrganization))
            && (r.Ok? ==> && r.value == IssuedBy(history) && r.value !in Replay(history).codes
                          && Outstanding(history + [Issue(now, ttl, token, org)], |history|, r.value))
  {
    ReplayCounts(history);
    var longer := history + [Issue(now, ttl, token, org)];
    assert longer[..|history|] == history;
  }

  /** Issuing drops the codes that have run out, keeps the others, and adds the new one for its clamped lifetime. */
  lemma IssueStores(s: State, now: int, ttl: Option<int>, token: string, org: string, code: nat)
    requires s.issued !in s.codes
    ensures var after := IssueCode(s, now, ttl, token, org).0;
            && (code != s.issued ==>
                  && (code in after.codes <==> code in s.codes && s.codes[code].expiresAt >= now)
                  && (code in after.codes ==> after.codes[code] == s.codes[code]))
            && (s.issued in after.codes <==> org != "")
            && (org != "" ==> after.codes[s.issued] == Entry(token, org, now + Ttl(ttl)))
            && after.issued == s.issued + if org != "" then 1 else 0
  {
  }

  /** A code that is stored but late is refused as expired, one that is not stored as invalid; either way it is gone, and no other code is. */
  lemma ConsumeExactly(s: State, now: int, code: nat)
    ensures var (after, r) := ConsumeCode(s, now, code);
            && (r == Err(InvalidCode) <==> code !in s.codes)
            && (r == Err(ExpiredCode) <==> code in s.codes && now > s.codes[code].expiresAt)
            && code !in after.codes && after.issued == s.issued
            && forall other | other != code ::
                 (other in after.codes <==> other in s.codes) && (other in s.codes ==> after.codes[other] == s.codes[other])
  {
  }

  /** The table itself, updated call by call. */
  class CodeStore {
    var codes: map<nat, Entry>
    var issued: nat

    function Now(): State
      reads this
    {
      State(codes, issued)
    }

    constructor ()
      ensures Now() == Replay([])
    {
      codes, issued := map[], 0;
    }

    method IssueAuthCode(now: int, ttl: Option<int>, token: string, org: string) returns (r: Result<nat, Error>)
      modifies this
      ensures (Now(), r) == IssueCode(old(Now()), now, ttl, token, org)
    {
      codes := Purged(codes, now);
      if org == "" {
        return Err(MissingOrganization);
      }
      var code := issued;
      codes := codes[code := Entry(token, org, now + Ttl(ttl))];
      issued := issued + 1;
      return Ok(code);
    }

    method ConsumeAuthCode(now: int, code: nat) returns (r: Result<Entry, Error>)
      modifies this
      ensures (Now(), r) == ConsumeCode(old(Now()), now, code)
    {
      var row: Option<Entry> := if code in codes then Some(codes[code]) else None;
      codes := codes - {code};
      if row.None? {
        return Err(InvalidCode);
      }
      if now > row.value.expiresAt {
        return Err(ExpiredCode);
      }
      return Ok(row.value);
    }
  }
}
