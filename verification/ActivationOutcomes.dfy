/**
 What each activation endpoint does when it answers that it is done, and when it does so, told
 from the tables before and after the call.
 */
module ActivationOutcomes {
  import opened Wrappers
  import opened Activation

  // ---------------------------------------------------------------------------
  // Roles, addresses and organisations
  // ---------------------------------------------------------------------------

  /** Which stored tokens mean which seat. */
  lemma SeatsOfTokens(raw: RawRole)
    ensures Normalize(raw) == Some(Owner) <==> raw == RawOwner
    ensures Normalize(raw) == Some(Admin) <==> raw == RawAdmin || raw == Cfo || raw == FinancialController
    ensures Normalize(raw) == Some(ReadOnly) <==> raw == RawReadOnly || raw == Viewer
    ensures Normalize(raw) == Some(Api) <==> raw == RawApi
    ensures Normalize(raw) == None <==> raw.UnknownRole?
    ensures HasAdminAccess(raw) <==> raw in {RawOwner, RawApi, RawAdmin, Cfo, FinancialController}
  {
  }

  /** A seat's own token means that seat, and an invite grants what its token means, or a member seat. */
  lemma SeatsRoundTrip(seat: Role, raw: RawRole)
    ensures Normalize(Canonical(seat)) == Some(seat)
    ensures Normalize(raw).Some? ==> Normalize(raw) == Some(InvitedRole(raw))
    ensures raw.UnknownRole? ==> InvitedRole(raw) == Member
  {
  }

  /** The first organisation registered for a domain, and no other, is found. */
  lemma {:induction false} OrgByDomainExactly(orgs: seq<Org>, domain: string)
    ensures OrgByDomain(orgs, domain).None? <==> forall i | 0 <= i < |orgs| :: orgs[i].domain != Some(domain)
    ensures OrgByDomain(orgs, domain).Some? ==>
              exists i | 0 <= i < |orgs| ::
                && orgs[i] == Org(OrgByDomain(orgs, domain).value, Some(domain))
                && forall j | 0 <= j < i :: orgs[j].domain != Some(domain)
  {
    if orgs != [] {
      OrgByDomainExactly(orgs[1..], domain);
      if orgs[0].domain == Some(domain) {
        assert orgs[0] == Org(OrgByDomain(orgs, domain).value, Some(domain));
      } else if OrgByDomain(orgs, domain).Some? {
        var i :| 0 <= i < |orgs| - 1 && orgs[1..][i] == Org(OrgByDomain(orgs, domain).value, Some(domain))
                 && forall j | 0 <= j < i :: orgs[1..][j].domain != Some(domain);
        assert orgs[i + 1] == orgs[1..][i];
        forall j | 0 <= j < i + 1 ensures orgs[j].domain != Some(domain) {
          assert j > 0 ==> orgs[j] == orgs[1..][j - 1];
        }
      }
    }
  }

  /** A sign-in without an invite lands in its domain's organisation, or unprovisioned. */
  lemma ResolveExactly(orgs: seq<Org>, local: string, domain: string)
    requires '@' !in local && '@' !in domain
    ensures Resolve(orgs, local + "@" + domain) ==
            if domain == "" || OrgByDomain(orgs, domain).None? then UNPROVISIONED else OrgByDomain(orgs, domain).value
  {
    DomainOfShort(local, domain);
  }

  /** Of an address with two at signs, the domain is what stands between them. */
  lemma DomainIsBetween(local: string, domain: string, rest: string)
    requires '@' !in local && '@' !in domain
    ensures DomainOf(local + "@" + (domain + "@" + rest)) == Some(domain)
  {
    AfterAtSplits(local, domain + "@" + rest);
    UpToAtStops(domain, rest);
  }

  lemma {:induction false} UpToAtStops(domain: string, rest: string)
    requires '@' !in domain
    ensures UpToAt(domain + "@" + rest) == domain
  {
    var s := domain + "@" + rest;
    if domain != "" {
      assert s[1..] == domain[1..] + "@" + rest;
      UpToAtStops(domain[1..], rest);
    }
  }

  lemma {:induction false} NoAtNoDomain(orgs: seq<Org>, email: Email)
    requires '@' !in email
    ensures DomainOf(email) == None && Resolve(orgs, email) == UNPROVISIONED && MappedOrg(orgs, email) == None
  {
    if email != "" {
      NoAtNoDomain(orgs, email[1..]);
    }
  }

  /** An organisation is registered once, with the domain it was first named with. */
  lemma EnsureOrgExactly(orgs: seq<Org>, id: OrgId, domain: Option<string>)
    ensures orgs <= EnsureOrg(orgs, id, domain)
    ensures exists i | 0 <= i < |EnsureOrg(orgs, id, domain)| :: EnsureOrg(orgs, id, domain)[i].id == id
    ensures EnsureOrg(orgs, id, domain) == orgs <==> exists i | 0 <= i < |orgs| :: orgs[i].id == id
    ensures |EnsureOrg(orgs, id, domain)| > |orgs| ==> EnsureOrg(orgs, id, domain) == orgs + [Org(id, domain)]
  {
    if forall i | 0 <= i < |orgs| :: orgs[i].id != id {
      assert (orgs + [Org(id, domain)])[|orgs|].id == id;
    }
  }

  /** The reusable link is a pending owner link of the address, and none is found only if there is none. */
  lemma {:induction false} PendingLinkExactly(invites: seq<Invite>, org: OrgId, email: Email)
    ensures PendingLink(invites, org, email).None? <==> forall t | 0 <= t < |invites| :: !IsPendingLink(invites[t], org, email)
    ensures PendingLink(invites, org, email).Some? ==>
              && PendingLink(invites, org, email).value < |invites|
              && IsPendingLink(invites[PendingLink(invites, org, email).value], org, email)
  {
    if invites != [] {
      PendingLinkExactly(invites[..|invites| - 1], org, email);
    }
  }

  // ---------------------------------------------------------------------------
  // Using up an invite
  // ---------------------------------------------------------------------------

  predicate Provisioned(org: OrgId) {
    org != "" && org != "default" && org != UNPROVISIONED
  }

  predicate HasRow(users: seq<User>, email: Email) {
    exists i | 0 <= i < |users| :: users[i].email == email
  }

  /** Row `i` is the address's, active, and has the seat and its own token; every other row is as before. */
  predicate SeatedAt(before: State, after: State, i: nat, email: Email, org: OrgId, seat: Role) {
    && i < |after.users| && after.users[i] == User(email, org, Canonical(seat), seat, true)
    && |after.users| == (if HasRow(before.users, email) then |before.users| else |before.users| + 1)
    && (if HasRow(before.users, email) then before.users[i].email == email else i == |before.users|)
    && forall j | 0 <= j < |before.users| && j != i :: after.users[j] == before.users[j]
  }

  /** The invite is marked accepted by that row, and no other invite changes. */
  predicate UsedUp(before: State, after: State, token: nat, i: nat)
    requires token < |before.invites|
  {
    && |after.invites| == |before.invites|
    && after.invites[token] == before.invites[token].(status := Accepted(i))
    && forall t | 0 <= t < |before.invites| && t != token :: after.invites[t] == before.invites[t]
  }

  predicate Honours(before: State, after: State, token: nat, seat: Role)
    requires token < |before.invites|
  {
    var inv := before.invites[token];
    && after.orgs == (if HasRow(before.users, inv.email) then before.orgs else EnsureOrg(before.orgs, inv.org, DomainOf(inv.email)))
    && exists i | 0 <= i < |after.users| :: SeatedAt(before, after, i, inv.email, inv.org, seat) && UsedUp(before, after, token, i)
  }

  lemma FoundExactly(users: seq<User>, email: Email)
    ensures Lookup(users, email).Some? <==> HasRow(users, email)
  {
  }

  /** Accepting a team invite is done exactly when it is a pending, unexpired invite below owner, to a provisioned organisation, and there is a row or a password. */
  lemma AcceptInviteExactly(s: State, token: nat, hasPassword: bool, now: nat)
    ensures AcceptInvite(s, token, hasPassword, now).1 == Done
       <==> && token < |s.invites| && s.invites[token].role != RawOwner && s.invites[token].status == Pending
            && (s.invites[token].expiresAt.None? || now <= s.invites[token].expiresAt.value)
            && Provisioned(s.invites[token].org)
            && (hasPassword || HasRow(s.users, s.invites[token].email))
  {
    if token < |s.invites| {
      FoundExactly(s.users, s.invites[token].email);
      SeatsOfTokens(s.invites[token].role);
    }
  }

  /** Done, it seats the addressee as the invite says, whether the row was there, archived or elsewhere, and changes nothing else. */
  lemma AcceptInviteHonours(s: State, token: nat, hasPassword: bool, now: nat)
    requires AcceptInvite(s, token, hasPassword, now).1 == Done
    ensures token < |s.invites| && Honours(s, AcceptInvite(s, token, hasPassword, now).0, token, InvitedRole(s.invites[token].role))
  {
    var after, email := AcceptInvite(s, token, hasPassword, now).0, s.invites[token].email;
    FoundExactly(s.users, email);
    var i := after.invites[token].status.acceptedBy;
    assert SeatedAt(s, after, i, email, s.invites[token].org, InvitedRole(s.invites[token].role));
    assert UsedUp(s, after, token, i);
  }

  /** What an owner link takes on every path. */
  predicate LinkHonourable(s: State, token: nat, now: nat)
    requires token < |s.invites|
  {
    var inv := s.invites[token];
    && inv.status == Pending && (inv.expiresAt.None? || now <= inv.expiresAt.value)
    && inv.email != "" && Provisioned(inv.org)
    && (forall i | 0 <= i < |s.users| ::
          s.users[i].active && s.users[i].org == inv.org && s.users[i].seat == Owner ==> s.users[i].email == inv.email)
    && (forall i | 0 <= i < |s.users| && s.users[i].email == inv.email :: s.users[i].org in {"", inv.org, UNPROVISIONED})
  }

  /** Activation is done exactly for an owner link that can be honoured, with a row or a password. */
  lemma ActivationExactly(s: State, token: nat, hasPassword: bool, now: nat)
    requires Valid(s)
    ensures AcceptActivation(s, token, hasPassword, now).1 == Done
       <==> && token < |s.invites| && s.invites[token].role == RawOwner && LinkHonourable(s, token, now)
            && (hasPassword || HasRow(s.users, s.invites[token].email))
  {
    if token < |s.invites| {
      FoundExactly(s.users, s.invites[token].email);
      SeatsOfTokens(s.invites[token].role);
      CheckExactly(s, token, now);
    }
  }

  /** The shared checks, apart from where the user is bound. */
  lemma CheckExactly(s: State, token: nat, now: nat)
    requires token < |s.invites|
    ensures var inv := s.invites[token];
            CheckActivation(s, inv, now) == Done
            <==> && inv.status == Pending && (inv.expiresAt.None? || now <= inv.expiresAt.value)
                 && inv.email != "" && Provisioned(inv.org)
                 && (forall i | 0 <= i < |s.users| ::
                       s.users[i].active && s.users[i].org == inv.org && s.users[i].seat == Owner ==> s.users[i].email == inv.email)
  {
    var inv := s.invites[token];
    assert OwnedByAnother(s.users, inv.org, inv.email) <==>
           exists i | 0 <= i < |s.users| :: ActiveOwner(s.users[i], inv.org) && s.users[i].email != inv.email;
    forall i | 0 <= i < |s.users|
      ensures ActiveOwner(s.users[i], inv.org) <==> s.users[i].active && s.users[i].org == inv.org && s.users[i].seat == Owner
    {
    }
  }

  /** Done, activation seats the addressee as owner and changes nothing else. */
  lemma ActivationHonours(s: State, token: nat, hasPassword: bool, now: nat)
    requires AcceptActivation(s, token, hasPassword, now).1 == Done
    ensures token < |s.invites| && Honours(s, AcceptActivation(s, token, hasPassword, now).0, token, Owner)
  {
    var after, email := AcceptActivation(s, token, hasPassword, now).0, s.invites[token].email;
    FoundExactly(s.users, email);
    var i := after.invites[token].status.acceptedBy;
    assert SeatedAt(s, after, i, email, s.invites[token].org, Owner);
    assert UsedUp(s, after, token, i);
  }

  /** A callback with a pending invite is done exactly for the addressee, and for an owner link only if it can be honoured. */
  lemma InvitedCallbackExactly(s: State, email: Email, token: nat, now: nat)
    requires Valid(s) && token < |s.invites| && s.invites[token].status == Pending
    ensures OAuthCallback(s, email, Some(token), now).1 == Done
       <==> && email != "" && email == s.invites[token].email
            && (s.invites[token].role == RawOwner ==> LinkHonourable(s, token, now))
  {
    FoundExactly(s.users, email);
    SeatsOfTokens(s.invites[token].role);
    CheckExactly(s, token, now);
    assert Applies(s, Some(token));
  }

  /** Done, it seats the addressee as the invite says and changes nothing else. */
  lemma InvitedCallbackHonours(s: State, email: Email, token: nat, now: nat)
    requires token < |s.invites| && s.invites[token].status == Pending && OAuthCallback(s, email, Some(token), now).1 == Done
    ensures Honours(s, OAuthCallback(s, email, Some(token), now).0, token, InvitedRole(s.invites[token].role))
  {
    var after := OAuthCallback(s, email, Some(token), now).0;
    FoundExactly(s.users, email);
    assert Applies(s, Some(token));
    var i := after.invites[token].status.acceptedBy;
    assert SeatedAt(s, after, i, email, s.invites[token].org, InvitedRole(s.invites[token].role));
    assert UsedUp(s, after, token, i);
  }

  // ---------------------------------------------------------------------------
  // Signing in without an invite
  // ---------------------------------------------------------------------------

  /** A known address gets its row back as it was, active; nothing else changes. */
  predicate OnlyActivated(before: State, after: State, email: Email) {
    && after == before.(users := after.users) && |after.users| == |before.users|
    && forall i | 0 <= i < |before.users| ::
         after.users[i] == if before.users[i].email == email then before.users[i].(active := true) else before.users[i]
  }

  /** A new address gets one active row: owner of an organisation with at most one row, member of any other. */
  predicate OnlyInserted(before: State, after: State, email: Email, org: OrgId) {
    && after.invites == before.invites && after.orgs == EnsureOrg(before.orgs, org, DomainOf(email))
    && |after.users| == |before.users| + 1 && after.users[..|before.users|] == before.users
    && after.users[|before.users|] ==
       if Headcount(before.users, org) <= 1 then User(email, org, RawOwner, Owner, true) else User(email, org, PlainUser, Member, true)
  }

  lemma {:induction false} HeadcountIsCount(users: seq<User>, org: OrgId)
    ensures Headcount(users, org) == |set i | 0 <= i < |users| && users[i].org == org|
  {
    if users != [] {
      var n := |users| - 1;
      HeadcountIsCount(users[..n], org);
      var front := set i | 0 <= i < |users[..n]| && users[..n][i].org == org;
      var all := set i | 0 <= i < |users| && users[i].org == org;
      assert all == if users[n].org == org then front + {n} else front;
    }
  }

  /** An uninvited callback is done for every address, and either activates its row or inserts one. */
  lemma UninvitedCallbackExactly(s: State, email: Email, token: Option<nat>, now: nat)
    requires Valid(s) && !Applies(s, token)
    ensures OAuthCallback(s, email, token, now).1 == if email == "" then InvalidProfile else Done
    ensures email != "" ==>
              var after := OAuthCallback(s, email, token, now).0;
              if HasRow(s.users, email) then OnlyActivated(s, after, email) else OnlyInserted(s, after, email, Resolve(s.orgs, email))
  {
    FoundExactly(s.users, email);
  }

  /** The extension leaves a known address alone, inserts a new one in its domain's organisation, and refuses the rest. */
  lemma ExtensionExactly(s: State, email: Email)
    requires email != ""
    ensures HasRow(s.users, email) ==> ExtensionSignIn(s, email) == (s, Done)
    ensures !HasRow(s.users, email) && MappedOrg(s.orgs, email).Some? && MappedOrg(s.orgs, email).value != "" ==>
              && ExtensionSignIn(s, email).1 == Done
              && OnlyInserted(s, ExtensionSignIn(s, email).0, email, MappedOrg(s.orgs, email).value)
    ensures !HasRow(s.users, email) && (MappedOrg(s.orgs, email).None? || MappedOrg(s.orgs, email).value == "") ==>
              ExtensionSignIn(s, email) == (s, UnprovisionedEmail)
  {
    FoundExactly(s.users, email);
  }

  lemma MappedOrgExactly(orgs: seq<Org>, local: string, domain: string)
    requires '@' !in local && '@' !in domain
    ensures MappedOrg(orgs, local + "@" + domain) == if domain == "" then None else OrgByDomain(orgs, domain)
  {
    DomainOfShort(local, domain);
  }

  // ---------------------------------------------------------------------------
  // Administration
  // ---------------------------------------------------------------------------

  /** One row is replaced and nothing else changes. */
  predicate OnlyRow(before: State, after: State, i: nat, u: User) {
    && i < |before.users| && after == before.(users := after.users) && |after.users| == |before.users|
    && after.users[i] == u && forall j | 0 <= j < |before.users| && j != i :: after.users[j] == before.users[j]
  }

  /** The seat a role update writes beside its token. */
  function SeatFor(role: RawRole): Role {
    if role == RawAdmin then Admin else if role == RawMember then Member else ReadOnly
  }

  predicate SameOrg(s: State, i: nat, j: nat) {
    i < |s.users| && j < |s.users| && s.users[i].org == s.users[j].org
  }

  /** Setting a role is done exactly for a plain administrator, a colleague, and one of three roles; it then writes token and seat. */
  lemma SetRoleExactly(s: State, actor: nat, target: nat, role: RawRole)
    ensures SetRole(s, actor, target, role).1 == Done
       <==> role in {RawAdmin, RawMember, Viewer} && SameOrg(s, actor, target) && s.users[actor].role == RawAdmin
    ensures SetRole(s, actor, target, role).1 == Done ==>
              OnlyRow(s, SetRole(s, actor, target, role).0, target, s.users[target].(role := role, seat := SeatFor(role)))
  {
  }

  /** An update is done exactly for the user or an administrator of the same organisation, and with a role only for an administrator. */
  lemma UpdateUserExactly(s: State, actor: nat, target: nat, role: Option<RawRole>)
    ensures UpdateUser(s, actor, target, role).1 == Done
       <==> && SameOrg(s, actor, target)
            && (actor == target || s.users[actor].role in {RawOwner, RawApi, RawAdmin, Cfo, FinancialController})
            && (role.Some? ==> role.value in {RawAdmin, RawMember, Viewer}
                               && s.users[actor].role in {RawOwner, RawApi, RawAdmin, Cfo, FinancialController})
    ensures UpdateUser(s, actor, target, role).1 == Done ==>
              OnlyRow(s, UpdateUser(s, actor, target, role).0, target,
                      if role.Some? then s.users[target].(role := role.value, seat := SeatFor(role.value)) else s.users[target])
  {
    if actor < |s.users| {
      SeatsOfTokens(s.users[actor].role);
    }
  }

  /** Archiving is done exactly for a plain administrator and another user of the organisation; the row loses its active flag and no more. */
  lemma DeleteUserExactly(s: State, actor: nat, target: nat)
    ensures DeleteUser(s, actor, target).1 == Done <==> SameOrg(s, actor, target) && actor != target && s.users[actor].role == RawAdmin
    ensures DeleteUser(s, actor, target).1 == Done ==>
              OnlyRow(s, DeleteUser(s, actor, target).0, target, s.users[target].(active := false))
  {
  }

  predicate ManagesTeam(s: State, actor: nat) {
    actor < |s.users| && s.users[actor].seat in {Admin, Owner, Api}
  }

  /** Deactivation is refused besides for the last owner by token. */
  lemma DeactivateExactly(s: State, actor: nat, target: nat)
    ensures DeactivateUser(s, actor, target).1 == Done
       <==> && ManagesTeam(s, actor) && SameOrg(s, actor, target) && actor != target
            && (s.users[target].role == RawOwner ==>
                  exists i | 0 <= i < |s.users| ::
                    i != target && s.users[i].org == s.users[target].org && s.users[i].active && s.users[i].role == RawOwner)
    ensures DeactivateUser(s, actor, target).1 == Done ==>
              OnlyRow(s, DeactivateUser(s, actor, target).0, target, s.users[target].(active := false))
  {
    forall i | 0 <= i < |s.users| ensures Normalize(s.users[i].role) == Some(Owner) <==> s.users[i].role == RawOwner {
      SeatsOfTokens(s.users[i].role);
    }
  }

  lemma ReactivateExactly(s: State, actor: nat, target: nat)
    ensures ReactivateUser(s, actor, target).1 == Done <==> ManagesTeam(s, actor) && SameOrg(s, actor, target)
    ensures ReactivateUser(s, actor, target).1 == Done ==>
              OnlyRow(s, ReactivateUser(s, actor, target).0, target, s.users[target].(active := true))
  {
  }

  /** A team invite is made exactly by an administrator, for a known token below owner and an address without a row. */
  lemma InviteUserExactly(s: State, actor: nat, email: Email, role: RawRole, expiresAt: nat)
    ensures InviteUser(s, actor, email, role, expiresAt).1 == Done
       <==> && actor < |s.users| && s.users[actor].role in {RawOwner, RawApi, RawAdmin, Cfo, FinancialController}
            && !role.UnknownRole? && role != RawOwner && !HasRow(s.users, email)
    ensures InviteUser(s, actor, email, role, expiresAt).1 == Done ==>
              && InviteUser(s, actor, email, role, expiresAt).0 == s.(invites := InviteUser(s, actor, email, role, expiresAt).0.invites)
              && |InviteUser(s, actor, email, role, expiresAt).0.invites| == |s.invites| + 1
              && s.invites <= InviteUser(s, actor, email, role, expiresAt).0.invites
  {
    FoundExactly(s.users, email);
    SeatsOfTokens(role);
    if actor < |s.users| {
      SeatsOfTokens(s.users[actor].role);
    }
  }

  /** Provisioning is refused exactly when the newest active owner has another, non-blank address; it registers the organisation either way. */
  lemma ProvisionExactly(s: State, org: OrgId, email: Email, domain: Option<string>, forceNew: bool, expiresAt: nat)
    ensures var (after, reply) := Provision(s, org, email, domain, forceNew, expiresAt);
            && (reply == Done || reply == OwnerAlreadySet)
            && (reply == OwnerAlreadySet <==> NewestOwner(s.users, org).Some? && NewestOwner(s.users, org).value !in {"", email})
            && after == s.(orgs := EnsureOrg(s.orgs, org, domain), invites := after.invites)
            && s.invites <= after.invites
            && (reply == Done ==> PendingLink(after.invites, org, email).Some?)
  {
    var (after, reply) := Provision(s, org, email, domain, forceNew, expiresAt);
    if reply == Done {
      PendingLinkExactly(s.invites, org, email);
      PendingLinkExactly(after.invites, org, email);
      if |after.invites| > |s.invites| {
        assert IsPendingLink(after.invites[|s.invites|], org, email);
      }
    }
  }
}
