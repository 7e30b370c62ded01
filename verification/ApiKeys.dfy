/**
 Customer API keys: create, rotate and revoke, and the lineage a chain of rotations forms.
 A key's id is its position in the table; the raw secret and its hash are left out.
 */
module ApiKeys {
  import opened Wrappers
  import opened Text

  const SCOPE_CATALOG: seq<string> := [
    "records:read", "records:write", "intents:execute", "intents:preview", "audit:read", "webhooks:manage",
    "read:ap_items", "write:ap_items", "read:vendors", "write:vendors", "read:reports", "read:audit",
    "manage:webhooks"
  ]

  datatype Error = UnknownScope(token: string) | KeyNotFound | KeyAlreadyRevoked

  // ---------------------------------------------------------------------------
  // Scopes
  // ---------------------------------------------------------------------------

  function Clean(raw: string): string {
    Lower(Trim(raw))
  }

  /** The cleaned, non-blank tokens, or the first one outside the catalog. */
  function CleanedScopes(raw: seq<string>): Result<seq<string>, Error> {
    if raw == [] then Ok([])
    else match CleanedScopes(raw[..|raw| - 1])
      case Err(e) => Err(e)
      case Ok(front) =>
        var token := Clean(raw[|raw| - 1]);
        if token == "" then Ok(front)
        else if token !in SCOPE_CATALOG then Err(UnknownScope(token))
        else Ok(front + [token])
  }

  /** Each token at its first position only. */
  function FirstOccurrences(tokens: seq<string>): seq<string> {
    if tokens == [] then []
    else
      var front := FirstOccurrences(tokens[..|tokens| - 1]);
      if tokens[|tokens| - 1] in front then front else front + [tokens[|tokens| - 1]]
  }

  method ValidateScopes(scopes: Option<seq<string>>) returns (r: Result<seq<string>, Error>)
    ensures scopes.None? ==> r == Ok([])
    ensures scopes.Some? ==> r == (match CleanedScopes(scopes.value)
                                   case Err(e) => Err(e)
                                   case Ok(tokens) => Ok(FirstOccurrences(tokens)))
  {
    if scopes.None? {
      return Ok([]);
    }
    var raw := scopes.value;
    var cleaned: seq<string> := [];
    for i := 0 to |raw|
      invariant CleanedScopes(raw[..i]) == Ok(cleaned)
    {
      assert raw[..i + 1][..i] == raw[..i];
      var token := Clean(raw[i]);
      if token == "" {
        continue;
      }
      if token !in SCOPE_CATALOG {
        ErrorSticks(raw, i + 1);
        return Err(UnknownScope(token));
      }
      cleaned := cleaned + [token];
    }
    assert raw[..|raw|] == raw;
    var seen: set<string> := {};
    var kept: seq<string> := [];
    for i := 0 to |cleaned|
      invariant kept == FirstOccurrences(cleaned[..i])
      invariant forall t :: t in seen <==> t in kept
    {
      assert cleaned[..i + 1][..i] == cleaned[..i];
      if cleaned[i] !in seen {
        seen := seen + {cleaned[i]};
        kept := kept + [cleaned[i]];
      }
    }
    assert cleaned[..|cleaned|] == cleaned;
    return Ok(kept);
  }

  lemma {:induction false} ErrorSticks(raw: seq<string>, i: nat)
    requires i <= |raw| && CleanedScopes(raw[..i]).Err?
    ensures CleanedScopes(raw) == CleanedScopes(raw[..i])
  {
    if i < |raw| {
      var front := raw[..|raw| - 1];
      assert front[..i] == raw[..i];
      ErrorSticks(front, i);
    } else {
      assert raw[..i] == raw;
    }
  }

  /** A scope list is accepted exactly when every token is blank or in the catalog, and keeps every token. */
  lemma {:induction false} ScopesAccepted(raw: seq<string>)
    ensures CleanedScopes(raw).Ok? <==> forall i | 0 <= i < |raw| :: Clean(raw[i]) == "" || Clean(raw[i]) in SCOPE_CATALOG
    ensures CleanedScopes(raw).Ok? ==>
              forall t :: t in CleanedScopes(raw).value <==> t != "" && exists i | 0 <= i < |raw| :: Clean(raw[i]) == t
  {
    if raw != [] {
      ScopesAccepted(raw[..|raw| - 1]);
    }
  }

  /** The kept list loses nothing and adds nothing. */
  lemma {:induction false} FirstOccurrencesCover(tokens: seq<string>, t: string)
    ensures t in FirstOccurrences(tokens) <==> t in tokens
  {
    if tokens != [] {
      var n := |tokens| - 1;
      FirstOccurrencesCover(tokens[..n], t);
      assert tokens == tokens[..n] + [tokens[n]];
    }
  }

  /** Each kept token stands at its first position, and the positions ascend. */
  ghost predicate KeptAt(tokens: seq<string>, kept: seq<string>, at: seq<nat>) {
    && |at| == |kept|
    && (forall k | 0 <= k < |at| :: at[k] < |tokens| && tokens[at[k]] == kept[k] && tokens[at[k]] !in tokens[..at[k]])
    && (forall k, m | 0 <= k < m < |at| :: at[k] < at[m])
  }

  lemma KeptAtLonger(tokens: seq<string>, last: string, kept: seq<string>, at: seq<nat>)
    requires KeptAt(tokens, kept, at)
    ensures KeptAt(tokens + [last], kept, at)
    ensures last !in tokens ==> KeptAt(tokens + [last], kept + [last], at + [|tokens|])
  {
    var longer := tokens + [last];
    assert longer[..|tokens|] == tokens;
    forall k | 0 <= k < |at| ensures longer[..at[k]] == tokens[..at[k]] {
    }
  }

  lemma {:induction false} FirstOccurrencesOrder(tokens: seq<string>) returns (at: seq<nat>)
    ensures KeptAt(tokens, FirstOccurrences(tokens), at)
  {
    at := [];
    if tokens != [] {
      var n := |tokens| - 1;
      var front := tokens[..n];
      at := FirstOccurrencesOrder(front);
      KeptAtLonger(front, tokens[n], FirstOccurrences(front), at);
      FirstOccurrencesCover(front, tokens[n]);
      assert tokens == front + [tokens[n]];
      if tokens[n] !in front {
        at := at + [n];
      }
    }
  }

  /** The kept list repeats nothing, loses nothing and lists tokens in order of first appearance. */
  lemma FirstOccurrencesMeaning(tokens: seq<string>) returns (at: seq<nat>)
    ensures |at| == |FirstOccurrences(tokens)|
    ensures forall k | 0 <= k < |at| ::
              && at[k] < |tokens| && tokens[at[k]] == FirstOccurrences(tokens)[k]
              && forall j | 0 <= j < at[k] :: tokens[j] != tokens[at[k]]
    ensures forall k, m | 0 <= k < m < |at| :: at[k] < at[m]
    ensures forall t :: t in FirstOccurrences(tokens) <==> t in tokens
  {
    at := FirstOccurrencesOrder(tokens);
    forall t ensures t in FirstOccurrences(tokens) <==> t in tokens {
      FirstOccurrencesCover(tokens, t);
    }
    forall k, j | 0 <= k < |at| && 0 <= j < at[k] ensures tokens[j] != tokens[at[k]] {
      assert tokens[..at[k]][j] == tokens[j];
    }
  }

  // ---------------------------------------------------------------------------
  // Keys
  // ---------------------------------------------------------------------------

  /** What a rotation carries over. */
  datatype Identity = Identity(
    org: string, title: string, scopes: seq<string>,
    agentId: Option<string>, agentVersion: Option<string>, expiresAt: Option<string>)

  /** A key row; `rotatedFrom` is the link the rotate response reports. */
  datatype Key = Key(identity: Identity, user: string, active: bool, rotatedFrom: Option<nat>)

  type Table = seq<Key>

  /** The row a caller of this organisation sees under an id. */
  predicate Visible(keys: Table, id: nat, org: string) {
    id < |keys| && keys[id].identity.org == org
  }

  function Revoked(keys: Table, id: nat): Table
    requires id < |keys|
  {
    keys[id := keys[id].(active := false)]
  }

  function Create(keys: Table, identity: Identity, user: string): Table {
    keys + [Key(identity, user, true, None)]
  }

  function Rotate(keys: Table, id: nat, org: string, user: string): (Table, Result<nat, Error>) {
    if !Visible(keys, id, org) then (keys, Err(KeyNotFound))
    else if !keys[id].active then (keys, Err(KeyAlreadyRevoked))
    else (Revoked(keys, id) + [Key(keys[id].identity, user, true, Some(id))], Ok(|keys|))
  }

  /** Revoking answers whether this very call did it. */
  function Revoke(keys: Table, id: nat, org: string): (Table, Result<bool, Error>) {
    if !Visible(keys, id, org) then (keys, Err(KeyNotFound))
    else if !keys[id].active then (keys, Ok(false))
    else (Revoked(keys, id), Ok(true))
  }

  datatype Op =
    | DoCreate(identity: Identity, user: string)
    | DoRotate(id: nat, org: string, user: string)
    | DoRevoke(id: nat, org: string)

  function Step(keys: Table, op: Op): Table {
    match op
    case DoCreate(identity, user) => Create(keys, identity, user)
    case DoRotate(id, org, user) => Rotate(keys, id, org, user).0
    case DoRevoke(id, org) => Revoke(keys, id, org).0
  }

  ghost predicate IsRun(hist: seq<Table>, ops: seq<Op>) {
    && |hist| == |ops| + 1
    && forall k | 0 <= k < |ops| :: hist[k + 1] == Step(hist[k], ops[k])
  }

  /** Rotations link a key to an older one. */
  ghost predicate Linked(keys: Table) {
    forall id | 0 <= id < |keys| :: keys[id].rotatedFrom.Some? ==> keys[id].rotatedFrom.value < id
  }

  /** The key a lineage started from. */
  ghost function Root(keys: Table, id: nat): nat
    requires Linked(keys) && id < |keys|
    decreases id
  {
    match keys[id].rotatedFrom
    case None => id
    case Some(older) => Root(keys, older)
  }

  /** Each key stands for the root of its lineage. */
  ghost predicate Rooted(keys: Table) {
    && Linked(keys)
    && forall id | 0 <= id < |keys| :: Root(keys, id) <= id && keys[id].identity == keys[Root(keys, id)].identity
  }

  ghost predicate SameLineage(keys: Table, i: nat, j: nat)
    requires Linked(keys) && i < |keys| && j < |keys|
  {
    Root(keys, i) == Root(keys, j)
  }

  ghost predicate OneActive(keys: Table)
    requires Linked(keys)
  {
    forall i, j | 0 <= i < j < |keys| && keys[i].active && keys[j].active :: !SameLineage(keys, i, j)
  }

  /** Every row stands for the root of its lineage, and each lineage has at most one active key. */
  ghost predicate LineagesSound(keys: Table) {
    Rooted(keys) && OneActive(keys)
  }

  lemma {:induction false} RootIsStable(keys: Table, later: Table, id: nat)
    requires Linked(keys) && Linked(later) && id < |keys| <= |later|
    requires forall i | 0 <= i < |keys| :: later[i].rotatedFrom == keys[i].rotatedFrom
    ensures Root(later, id) == Root(keys, id)
    decreases id
  {
    if keys[id].rotatedFrom.Some? {
      RootIsStable(keys, later, keys[id].rotatedFrom.value);
    }
  }

  /** No row disappears or changes what it stands for, and a revoked key stays revoked. */
  lemma RowsSurvive(keys: Table, op: Op)
    ensures |keys| <= |Step(keys, op)|
    ensures forall i | 0 <= i < |keys| ::
              && Step(keys, op)[i].(active := true) == keys[i].(active := true)
              && (!keys[i].active ==> !Step(keys, op)[i].active)
  {
  }

  /** A step keeps every row's root. */
  lemma StepKeepsRoots(keys: Table, op: Op)
    requires Linked(keys)
    ensures Linked(Step(keys, op)) && |keys| <= |Step(keys, op)|
    ensures forall id | 0 <= id < |keys| :: Root(Step(keys, op), id) == Root(keys, id)
  {
    var later := Step(keys, op);
    RowsSurvive(keys, op);
    forall i | 0 <= i < |keys| ensures later[i].rotatedFrom == keys[i].rotatedFrom {
      assert later[i].(active := true).rotatedFrom == keys[i].(active := true).rotatedFrom;
    }
    forall id | 0 <= id < |keys| ensures Root(later, id) == Root(keys, id) {
      RootIsStable(keys, later, id);
    }
  }

  lemma StepKeepsLineages(keys: Table, op: Op)
    requires LineagesSound(keys)
    ensures LineagesSound(Step(keys, op))
  {
    var later := Step(keys, op);
    StepKeepsRoots(keys, op);
    RowsSurvive(keys, op);
    forall i | 0 <= i < |keys| ensures later[i].identity == keys[i].identity && (later[i].active ==> keys[i].active) {
      assert later[i].(active := true).identity == keys[i].(active := true).identity;
    }
  }

  /** Over every run from an empty table, lineages stay sound. */
  lemma {:induction false} LineagesOverRuns(hist: seq<Table>, ops: seq<Op>, k: nat)
    requires IsRun(hist, ops) && hist[0] == [] && k <= |ops|
    ensures LineagesSound(hist[k])
  {
    if k > 0 {
      LineagesOverRuns(hist, ops, k - 1);
      StepKeepsLineages(hist[k - 1], ops[k - 1]);
    }
  }

  /** Over every run, no row disappears and a revoked key is never active again. */
  lemma {:induction false} RevokedForever(hist: seq<Table>, ops: seq<Op>, i: nat, j: nat, id: nat)
    requires IsRun(hist, ops) && i <= j <= |ops| && id < |hist[i]|
    ensures id < |hist[j]| && hist[j][id].(active := true) == hist[i][id].(active := true)
    ensures !hist[i][id].active ==> !hist[j][id].active
    decreases j
  {
    if i < j {
      RevokedForever(hist, ops, i, j - 1, id);
      RowsSurvive(hist[j - 1], ops[j - 1]);
    }
  }

  /** A rotation hands the lineage over: the new key is its only active one and stands for the same root. */
  lemma RotateHandsOver(keys: Table, id: nat, org: string, user: string)
    requires LineagesSound(keys) && Rotate(keys, id, org, user).1.Ok?
    ensures var later := Rotate(keys, id, org, user).0;
            var issued := Rotate(keys, id, org, user).1.value;
            && LineagesSound(later) && issued < |later| && later[issued].active
            && Root(later, issued) == Root(later, id)
            && later[issued].identity == later[Root(later, id)].identity
            && forall i | 0 <= i < |later| && later[i].active && i != issued :: Root(later, i) != Root(later, id)
  {
    StepKeepsLineages(keys, DoRotate(id, org, user));
  }

  // ---------------------------------------------------------------------------
  // What each call does
  // ---------------------------------------------------------------------------

  /** All rows but one are as before, and that one differs at most in being revoked. */
  predicate OnlyRevokes(keys: Table, later: Table, id: nat) {
    && id < |keys| <= |later| && !later[id].active
    && later[id] == Key(keys[id].identity, keys[id].user, false, keys[id].rotatedFrom)
    && forall i | 0 <= i < |keys| && i != id :: later[i] == keys[i]
  }

  /** Creating adds one active key, with the identity asked for and no link, and touches no other. */
  lemma CreateAdds(keys: Table, identity: Identity, user: string)
    ensures |Create(keys, identity, user)| == |keys| + 1 && keys <= Create(keys, identity, user)
    ensures var key := Create(keys, identity, user)[|keys|];
            key.active && key.identity == identity && key.user == user && key.rotatedFrom == None
  {
  }

  /** A revocation is refused exactly for a key the organisation does not have; done, it leaves the key inactive and says whether it was active. */
  lemma RevokeExactly(keys: Table, id: nat, org: string)
    ensures var (later, r) := Revoke(keys, id, org);
            && (r.Err? <==> !(id < |keys| && keys[id].identity.org == org))
            && (r.Err? ==> r == Err(KeyNotFound) && later == keys)
            && (r.Ok? ==> |later| == |keys| && OnlyRevokes(keys, later, id) && (r.value <==> keys[id].active))
  {
  }

  /** A rotation is done exactly for an active key of the organisation; it revokes that key and adds one active key with its identity, linked to it. */
  lemma RotateExactly(keys: Table, id: nat, org: string, user: string)
    ensures var (later, r) := Rotate(keys, id, org, user);
            && (r.Ok? <==> id < |keys| && keys[id].identity.org == org && keys[id].active)
            && (r.Err? ==> later == keys && r == Err(if id < |keys| && keys[id].identity.org == org then KeyAlreadyRevoked else KeyNotFound))
            && (r.Ok? ==> |later| == |keys| + 1 && OnlyRevokes(keys, later, id) && r.value == |keys|
                          && later[|keys|] == Key(keys[id].identity, user, true, Some(id)))
  {
  }

  /** The key table, with one method per endpoint. */
  class ApiKeyStore {
    var keys: Table

    constructor ()
      ensures keys == []
    {
      keys := [];
    }

    method RevokeRow(id: nat, org: string) returns (revoked: bool)
      modifies this
      ensures revoked == (Visible(old(keys), id, org) && old(keys)[id].active)
      ensures keys == if revoked then Revoked(old(keys), id) else old(keys)
    {
      revoked := id < |keys| && keys[id].identity.org == org && keys[id].active;
      if revoked {
        keys := keys[id := keys[id].(active := false)];
      }
    }

    method CreateApiKey(org: string, user: string, title: string, scopes: Option<seq<string>>,
                        agentId: Option<string>, agentVersion: Option<string>, expiresAt: Option<string>)
      returns (r: Result<nat, Error>)
      modifies this
      ensures r.Err? ==> keys == old(keys) && scopes.Some? && CleanedScopes(scopes.value) == Err(r.error)
      ensures r.Ok? ==> r.value == |old(keys)| && exists clean: seq<string> ::
                && keys == Create(old(keys), Identity(org, title, clean, agentId, agentVersion, expiresAt), user)
                && (scopes.None? ==> clean == [])
                && (scopes.Some? ==> CleanedScopes(scopes.value).Ok? && clean == FirstOccurrences(CleanedScopes(scopes.value).value))
    {
      var checked := ValidateScopes(scopes);
      if checked.Err? {
        return Err(checked.error);
      }
      var id := |keys|;
      keys := keys + [Key(Identity(org, title, checked.value, agentId, agentVersion, expiresAt), user, true, None)];
      return Ok(id);
    }

    method RotateApiKey(id: nat, org: string, user: string) returns (r: Result<nat, Error>)
      modifies this
      ensures (keys, r) == Rotate(old(keys), id, org, user)
    {
      if id >= |keys| || keys[id].identity.org != org {
        return Err(KeyNotFound);
      }
      var existing := keys[id];
      if !existing.active {
        return Err(KeyAlreadyRevoked);
      }
      var _ := RevokeRow(id, org);
      var issued := |keys|;
      keys := keys + [Key(existing.identity, user, true, Some(id))];
      return Ok(issued);
    }

    method RevokeApiKey(id: nat, org: string) returns (r: Result<bool, Error>)
      modifies this
      ensures (keys, r) == Revoke(old(keys), id, org)
    {
      var revoked := RevokeRow(id, org);
      if !revoked {
        if id < |keys| && keys[id].identity.org == org && !keys[id].active {
          return Ok(false);
        }
        return Err(KeyNotFound);
      }
      return Ok(true);
    }
  }
}
