/**
 Workspace activation: owner links, OAuth sign-in, team invites and role updates.

 `State` is the three tables the endpoints touch. Rows are never deleted, so a user's
 id and an invite's token are positions in their table; fresh ids and tokens are then
 distinct by construction. Each endpoint is specified by a function from a state to the
 next state and the reply, and implemented step by step in `Workspace`.
 */
module Activation {
  import opened Wrappers

  type Email = string
  type OrgId = string

  /** The canonical seats of the workspace-governance axis. */
  datatype Role = ReadOnly | Member | Admin | Owner | Api

  /** The tokens found in the legacy `role` column, after trimming and lower-casing. */
  datatype RawRole =
    | RawOwner | RawApi | RawAdmin | RawMember | RawReadOnly
    | Cfo | FinancialController | ApManager | ApClerk | Operator | PlainUser | Viewer
    | UnknownRole(token: string)

  function Normalize(raw: RawRole): Option<Role> {
    match raw
    case RawOwner => Some(Owner)
    case RawApi => Some(Api)
    case RawAdmin => Some(Admin)
    case RawMember => Some(Member)
    case RawReadOnly => Some(ReadOnly)
    case Cfo => Some(Admin)
    case FinancialController => Some(Admin)
    case ApManager => Some(Member)
    case ApClerk => Some(Member)
    case Operator => Some(Member)
    case PlainUser => Some(Member)
    case Viewer => Some(ReadOnly)
    case UnknownRole(_) => None
  }

  function Canonical(role: Role): RawRole {
    match role
    case Owner => RawOwner
    case Api => RawApi
    case Admin => RawAdmin
    case Member => RawMember
    case ReadOnly => RawReadOnly
  }

  /** The seat an invite grants: its own role, or a member seat when the token is unknown. */
  function InvitedRole(raw: RawRole): Role {
    match Normalize(raw)
    case Some(role) => role
    case None => Member
  }

  predicate HasAdminAccess(raw: RawRole) {
    Normalize(raw) == Some(Admin) || Normalize(raw) == Some(Owner) || Normalize(raw) == Some(Api)
  }

  /** A user row. `seat` is the `workspace_role` column, `role` the legacy one. */
  datatype User = User(email: Email, org: OrgId, role: RawRole, seat: Role, active: bool)

  datatype Status = Pending | Accepted(acceptedBy: nat) | Revoked

  datatype Invite = Invite(org: OrgId, email: Email, role: RawRole, status: Status, expiresAt: Option<nat>)

  datatype Org = Org(id: OrgId, domain: Option<string>)

  datatype State = State(users: seq<User>, invites: seq<Invite>, orgs: seq<Org>)

  datatype Reply =
    | Done
    | ActivationNotFound | ActivationNotPending | ActivationExpired | ActivationMissingEmail
    | ActivationMissingOrg | ActivationOwnerExists | ActivationUserBound | PasswordRequired
    | InviteNotFound | ActivationLinkRequired | InviteNotPending | InviteExpired | InviteMissingOrg
    | InviteEmailMismatch | InvalidProfile | Forbidden | InvalidRole | UserExists | UserNotFound
    | CannotDeleteSelf | OwnerAlreadySet | AdminRequired | CannotDeactivateSelf | LastOwnerProtected | UnprovisionedEmail

  const UNPROVISIONED: OrgId := "_unprovisioned"

  // ---------------------------------------------------------------------------
  // Queries
  // ---------------------------------------------------------------------------

  /** The row with this address, if any (addresses are unique). */
  function Lookup(users: seq<User>, email: Email): (found: Option<nat>)
    ensures found.Some? ==> found.value < |users| && users[found.value].email == email
    ensures found.None? ==> forall i | 0 <= i < |users| :: users[i].email != email
  {
    if users == [] then None
    else if users[|users| - 1].email == email then Some(|users| - 1)
    else Lookup(users[..|users| - 1], email)
  }

  /** How many rows, active or not, belong to the organisation. */
  function Headcount(users: seq<User>, org: OrgId): nat {
    if users == [] then 0
    else Headcount(users[..|users| - 1], org) + if users[|users| - 1].org == org then 1 else 0
  }

  predicate ActiveOwner(u: User, org: OrgId) {
    u.active && u.org == org && u.seat == Owner
  }

  /** Some active owner of the organisation has another address. */
  predicate OwnedByAnother(users: seq<User>, org: OrgId, email: Email) {
    exists i | 0 <= i < |users| :: ActiveOwner(users[i], org) && users[i].email != email
  }

  /** The address of the newest active owner row. */
  function NewestOwner(users: seq<User>, org: OrgId): Option<Email> {
    if users == [] then None
    else if ActiveOwner(users[|users| - 1], org) then Some(users[|users| - 1].email)
    else NewestOwner(users[..|users| - 1], org)
  }

  /** The pending owner link of this address in this organisation, newest first. */
  function PendingLink(invites: seq<Invite>, org: OrgId, email: Email): Option<nat> {
    if invites == [] then None
    else if IsPendingLink(invites[|invites| - 1], org, email) then Some(|invites| - 1)
    else PendingLink(invites[..|invites| - 1], org, email)
  }

  predicate IsPendingLink(inv: Invite, org: OrgId, email: Email) {
    inv.org == org && inv.status.Pending? && inv.email == email && Normalize(inv.role) == Some(Owner)
  }

  function EnsureOrg(orgs: seq<Org>, id: OrgId, domain: Option<string>): seq<Org> {
    if exists i | 0 <= i < |orgs| :: orgs[i].id == id then orgs else orgs + [Org(id, domain)]
  }

  function OrgByDomain(orgs: seq<Org>, domain: string): Option<OrgId> {
    if orgs == [] then None
    else if orgs[0].domain == Some(domain) then Some(orgs[0].id)
    else OrgByDomain(orgs[1..], domain)
  }

  function AfterAt(email: Email): Option<string> {
    if email == [] then None
    else if email[0] == '@' then Some(email[1..])
    else AfterAt(email[1..])
  }

  function UpToAt(s: string): string {
    if s == [] || s[0] == '@' then [] else [s[0]] + UpToAt(s[1..])
  }

  /** The text between the first and the second `@`. */
  function DomainOf(email: Email): Option<string> {
    match AfterAt(email)
    case Some(rest) => Some(UpToAt(rest))
    case None => None
  }

  /** The organisation a sign-in without an invite lands in. */
  function Resolve(orgs: seq<Org>, email: Email): OrgId {
    match DomainOf(email)
    case Some(domain) =>
      if domain == "" then UNPROVISIONED
      else (match OrgByDomain(orgs, domain) case Some(id) => id case None => UNPROVISIONED)
    case None => UNPROVISIONED
  }

  predicate Expired(inv: Invite, now: nat) {
    inv.expiresAt.Some? && now > inv.expiresAt.value
  }

  predicate BoundElsewhere(u: User, org: OrgId) {
    u.org != "" && u.org != org && u.org != UNPROVISIONED
  }

  /** The checks every owner link passes before it is honoured, in order. */
  function CheckActivation(s: State, inv: Invite, now: nat): Reply {
    if !inv.status.Pending? then ActivationNotPending
    else if Expired(inv, now) then ActivationExpired
    else if inv.email == "" then ActivationMissingEmail
    else if inv.org == "" || inv.org == "default" || inv.org == UNPROVISIONED then ActivationMissingOrg
    else if OwnedByAnother(s.users, inv.org, inv.email) then ActivationOwnerExists
    else Done
  }

  // ---------------------------------------------------------------------------
  // Endpoints
  // ---------------------------------------------------------------------------

  function Seated(u: User, org: OrgId, role: Role): User {
    u.(org := org, role := Canonical(role), seat := role)
  }

  function Consume(invites: seq<Invite>, token: nat, user: nat): seq<Invite>
    requires token < |invites|
  {
    invites[token := invites[token].(status := Accepted(user))]
  }

  function Provision(s: State, org: OrgId, email: Email, domain: Option<string>, forceNew: bool, expiresAt: nat): (State, Reply) {
    var s1 := s.(orgs := EnsureOrg(s.orgs, org, domain));
    match NewestOwner(s.users, org)
    case Some(owner) =>
      if owner != "" && owner != email then (s1, OwnerAlreadySet) else LinkFor(s1, org, email, forceNew, expiresAt)
    case None => LinkFor(s1, org, email, forceNew, expiresAt)
  }

  function LinkFor(s: State, org: OrgId, email: Email, forceNew: bool, expiresAt: nat): (State, Reply) {
    if !forceNew && PendingLink(s.invites, org, email).Some? then (s, Done)
    else (s.(invites := s.invites + [Invite(org, email, RawOwner, Pending, Some(expiresAt))]), Done)
  }

  function AcceptActivation(s: State, token: nat, hasPassword: bool, now: nat): (State, Reply) {
    if token >= |s.invites| || Normalize(s.invites[token].role) != Some(Owner) then (s, ActivationNotFound)
    else
      var inv := s.invites[token];
      var check := CheckActivation(s, inv, now);
      if check != Done then (s, check)
      else match Lookup(s.users, inv.email)
        case Some(i) =>
          if BoundElsewhere(s.users[i], inv.org) then (s, ActivationUserBound)
          else (s.(users := s.users[i := Seated(s.users[i], inv.org, Owner).(active := true)],
                   invites := Consume(s.invites, token, i)), Done)
        case None =>
          if !hasPassword then (s, PasswordRequired)
          else (State(s.users + [User(inv.email, inv.org, RawOwner, Owner, true)],
                      Consume(s.invites, token, |s.users|),
                      EnsureOrg(s.orgs, inv.org, DomainOf(inv.email))), Done)
  }

  /** The invite a callback honours: a known token that is still pending. */
  predicate Applies(s: State, token: Option<nat>) {
    token.Some? && token.value < |s.invites| && s.invites[token.value].status.Pending?
  }

  /** The row `create_user_from_google` leaves behind for an address it has not seen. */
  function FirstSignIn(s: State, email: Email, org: OrgId): User {
    if Headcount(s.users, org) <= 1 then User(email, org, RawOwner, Owner, true)
    else User(email, org, PlainUser, Member, true)
  }

  function SignInUninvited(s: State, email: Email): State {
    match Lookup(s.users, email)
    case Some(i) => s.(users := s.users[i := s.users[i].(active := true)])
    case None =>
      var org := Resolve(s.orgs, email);
      s.(users := s.users + [FirstSignIn(s, email, org)], orgs := EnsureOrg(s.orgs, org, DomainOf(email)))
  }

  function SignInInvited(s: State, email: Email, token: nat, now: nat): (State, Reply)
    requires token < |s.invites|
  {
    var inv := s.invites[token];
    var role := InvitedRole(inv.role);
    if inv.email != email then (s, InviteEmailMismatch)
    else
      var check := if role == Owner then CheckActivation(s, inv, now) else Done;
      if check != Done then (s, check)
      else match Lookup(s.users, email)
        case Some(i) =>
          if role == Owner && BoundElsewhere(s.users[i], inv.org) then (s, ActivationUserBound)
          else (s.(users := s.users[i := Seated(s.users[i], inv.org, role).(active := true)],
                   invites := Consume(s.invites, token, i)), Done)
        case None =>
          (State(s.users + [User(email, inv.org, Canonical(role), role, true)],
                 Consume(s.invites, token, |s.users|),
                 EnsureOrg(s.orgs, inv.org, DomainOf(email))), Done)
  }

  function OAuthCallback(s: State, email: Email, token: Option<nat>, now: nat): (State, Reply) {
    if email == "" then (s, InvalidProfile)
    else if Applies(s, token) then SignInInvited(s, email, token.value, now)
    else (SignInUninvited(s, email), Done)
  }

  function InviteUser(s: State, actor: nat, email: Email, role: RawRole, expiresAt: nat): (State, Reply) {
    if actor >= |s.users| || !HasAdminAccess(s.users[actor].role) then (s, Forbidden)
    else if Normalize(role) == None || Normalize(role) == Some(Owner) then (s, InvalidRole)
    else if Lookup(s.users, email).Some? then (s, UserExists)
    else
      var inv := Invite(s.users[actor].org, email, Canonical(InvitedRole(role)), Pending, Some(expiresAt));
      (s.(invites := s.invites + [inv]), Done)
  }

  function AcceptInvite(s: State, token: nat, hasPassword: bool, now: nat): (State, Reply) {
    if token >= |s.invites| then (s, InviteNotFound)
    else
      var inv := s.invites[token];
      var role := InvitedRole(inv.role);
      if Normalize(inv.role) == Some(Owner) then (s, ActivationLinkRequired)
      else if !inv.status.Pending? then (s, InviteNotPending)
      else if Expired(inv, now) then (s, InviteExpired)
      else if inv.org == "" || inv.org == "default" || inv.org == UNPROVISIONED then (s, InviteMissingOrg)
      else match Lookup(s.users, inv.email)
        case Some(i) =>
          (s.(users := s.users[i := Seated(s.users[i], inv.org, role).(active := true)],
              invites := Consume(s.invites, token, i)), Done)
        case None =>
          if !hasPassword then (s, PasswordRequired)
          else (State(s.users + [User(inv.email, inv.org, Canonical(role), role, true)],
                      Consume(s.invites, token, |s.users|),
                      EnsureOrg(s.orgs, inv.org, DomainOf(inv.email))), Done)
  }

  /** The three roles the request models let through. */
  predicate Assignable(role: RawRole) {
    role == RawAdmin || role == RawMember || role == Viewer
  }

  function Reseated(u: User, role: RawRole): User {
    match Normalize(role)
    case Some(seat) => u.(role := role, seat := seat)
    case None => u.(role := role)
  }

  function SetRole(s: State, actor: nat, target: nat, role: RawRole): (State, Reply) {
    if !Assignable(role) then (s, InvalidRole)
    else if actor >= |s.users| || s.users[actor].role != RawAdmin then (s, Forbidden)
    else if target >= |s.users| || s.users[target].org != s.users[actor].org then (s, UserNotFound)
    else (s.(users := s.users[target := Reseated(s.users[target], role)]), Done)
  }

  function UpdateUser(s: State, actor: nat, target: nat, role: Option<RawRole>): (State, Reply) {
    if role.Some? && !Assignable(role.value) then (s, InvalidRole)
    else if actor >= |s.users| then (s, UserNotFound)
    else if actor != target && !HasAdminAccess(s.users[actor].role) then (s, Forbidden)
    else if role.Some? && !HasAdminAccess(s.users[actor].role) then (s, Forbidden)
    else if target >= |s.users| || s.users[target].org != s.users[actor].org then (s, UserNotFound)
    else if role.None? then (s, Done)
    else (s.(users := s.users[target := Reseated(s.users[target], role.value)]), Done)
  }

  function DeleteUser(s: State, actor: nat, target: nat): (State, Reply) {
    if actor >= |s.users| || s.users[actor].role != RawAdmin then (s, Forbidden)
    else if target == actor then (s, CannotDeleteSelf)
    else if target >= |s.users| || s.users[target].org != s.users[actor].org then (s, UserNotFound)
    else (s.(users := s.users[target := s.users[target].(active := false)]), Done)
  }

  /** The workspace-admin gate of the team endpoints: the seat, not the legacy role. */
  predicate CanManage(s: State, actor: nat) {
    actor < |s.users| && (s.users[actor].seat == Admin || s.users[actor].seat == Owner || s.users[actor].seat == Api)
  }

  predicate SameTeam(s: State, actor: nat, target: nat) {
    actor < |s.users| && target < |s.users| && s.users[target].org == s.users[actor].org
  }

  /** By the legacy role the user is an owner, and no other active user is. */
  predicate LastOwner(s: State, user: nat)
    requires user < |s.users|
  {
    && Normalize(s.users[user].role) == Some(Owner)
    && forall i | 0 <= i < |s.users| && i != user && s.users[i].org == s.users[user].org && s.users[i].active ::
         Normalize(s.users[i].role) != Some(Owner)
  }

  function DeactivateUser(s: State, actor: nat, target: nat): (State, Reply) {
    if !CanManage(s, actor) then (s, AdminRequired)
    else if !SameTeam(s, actor, target) then (s, UserNotFound)
    else if target == actor then (s, CannotDeactivateSelf)
    else if LastOwner(s, target) then (s, LastOwnerProtected)
    else (s.(users := s.users[target := s.users[target].(active := false)]), Done)
  }

  function ReactivateUser(s: State, actor: nat, target: nat): (State, Reply) {
    if !CanManage(s, actor) then (s, AdminRequired)
    else if !SameTeam(s, actor, target) then (s, UserNotFound)
    else (s.(users := s.users[target := s.users[target].(active := true)]), Done)
  }

  /** The organisation the extension puts a new address in, if its domain has one. */
  function MappedOrg(orgs: seq<Org>, email: Email): Option<OrgId> {
    match DomainOf(email)
    case Some(domain) => if domain == "" then None else OrgByDomain(orgs, domain)
    case None => None
  }

  /** The extension's sign-in: a known address changes nothing, a new one is inserted as by the callback, or refused. */
  function ExtensionSignIn(s: State, email: Email): (State, Reply) {
    if email == "" then (s, InvalidProfile)
    else if Lookup(s.users, email).Some? then (s, Done)
    else match MappedOrg(s.orgs, email)
      case None => (s, UnprovisionedEmail)
      case Some(org) =>
        if org == "" then (s, UnprovisionedEmail)
        else (s.(users := s.users + [FirstSignIn(s, email, org)], orgs := EnsureOrg(s.orgs, org, DomainOf(email))), Done)
  }

  // ---------------------------------------------------------------------------
  // Runs
  // ---------------------------------------------------------------------------

  datatype Op =
    | DoProvision(org: OrgId, email: Email, domain: Option<string>, forceNew: bool, expiresAt: nat)
    | DoActivate(token: nat, hasPassword: bool, now: nat)
    | DoSignIn(email: Email, invite: Option<nat>, now: nat)
    | DoInvite(actor: nat, email: Email, role: RawRole, expiresAt: nat)
    | DoAccept(token: nat, hasPassword: bool, now: nat)
    | DoSetRole(actor: nat, target: nat, role: RawRole)
    | DoUpdate(actor: nat, target: nat, newRole: Option<RawRole>)
    | DoDelete(actor: nat, target: nat)
    | DoDeactivate(actor: nat, target: nat)
    | DoReactivate(actor: nat, target: nat)
    | DoExtension(email: Email)

  function Perform(s: State, op: Op): (State, Reply) {
    match op
    case DoProvision(org, email, domain, forceNew, expiresAt) => Provision(s, org, email, domain, forceNew, expiresAt)
    case DoActivate(token, hasPassword, now) => AcceptActivation(s, token, hasPassword, now)
    case DoSignIn(email, invite, now) => OAuthCallback(s, email, invite, now)
    case DoInvite(actor, email, role, expiresAt) => InviteUser(s, actor, email, role, expiresAt)
    case DoAccept(token, hasPassword, now) => AcceptInvite(s, token, hasPassword, now)
    case DoSetRole(actor, target, role) => SetRole(s, actor, target, role)
    case DoUpdate(actor, target, newRole) => UpdateUser(s, actor, target, newRole)
    case DoDelete(actor, target) => DeleteUser(s, actor, target)
    case DoDeactivate(actor, target) => DeactivateUser(s, actor, target)
    case DoReactivate(actor, target) => ReactivateUser(s, actor, target)
    case DoExtension(email) => ExtensionSignIn(s, email)
  }

  function Step(s: State, op: Op): State {
    Perform(s, op).0
  }

  /** A run: consecutive states are one endpoint call apart. */
  ghost predicate IsRun(hist: seq<State>, ops: seq<Op>) {
    && |hist| == |ops| + 1
    && forall k | 0 <= k < |ops| :: hist[k + 1] == Step(hist[k], ops[k])
  }

  /** Addresses are unique (the column carries a UNIQUE constraint). */
  ghost predicate Valid(s: State) {
    forall i, j | 0 <= i < j < |s.users| :: s.users[i].email != s.users[j].email
  }

  ghost predicate AtMostOneOwner(s: State, org: OrgId) {
    forall i, j | 0 <= i < j < |s.users| :: !(ActiveOwner(s.users[i], org) && ActiveOwner(s.users[j], org))
  }

  /** A new address arrives while the organisation's only row is its active owner. */
  predicate InsertsSecondOwner(s: State, email: Email, home: OrgId, org: OrgId) {
    home == org && Headcount(s.users, org) == 1 && OwnedByAnother(s.users, org, email)
  }

  /** An archived owner comes back while another owner is active. */
  predicate RevivesSecondOwner(s: State, user: nat, org: OrgId)
    requires user < |s.users|
  {
    && !s.users[user].active && s.users[user].org == org && s.users[user].seat == Owner
    && OwnedByAnother(s.users, org, s.users[user].email)
  }

  /** The calls that put a second owner beside an existing one: some sign-ins, and some reactivations. */
  predicate MintsSecondOwner(s: State, op: Op, org: OrgId) {
    match op
    case DoSignIn(email, invite, _) =>
      email != "" && !Applies(s, invite) &&
      (match Lookup(s.users, email)
       case None => InsertsSecondOwner(s, email, Resolve(s.orgs, email), org)
       case Some(i) => RevivesSecondOwner(s, i, org))
    case DoExtension(email) =>
      && ExtensionSignIn(s, email).1 == Done && Lookup(s.users, email).None?
      && InsertsSecondOwner(s, email, MappedOrg(s.orgs, email).value, org)
    case DoReactivate(actor, target) => CanManage(s, actor) && SameTeam(s, actor, target) && RevivesSecondOwner(s, target, org)
    case _ => false
  }

  lemma {:induction false} HeadcountZero(users: seq<User>, org: OrgId)
    requires Headcount(users, org) == 0
    ensures forall i | 0 <= i < |users| :: users[i].org != org
  {
    if users != [] {
      HeadcountZero(users[..|users| - 1], org);
    }
  }

  lemma {:induction false} HeadcountOne(users: seq<User>, org: OrgId)
    requires Headcount(users, org) <= 1
    ensures forall i, j | 0 <= i < j < |users| :: !(users[i].org == org && users[j].org == org)
  {
    if users != [] {
      var front := users[..|users| - 1];
      HeadcountOne(front, org);
      if users[|users| - 1].org == org {
        HeadcountZero(front, org);
      }
    }
  }

  /** The rows keep their addresses, and an address that comes in is new. */
  predicate AddressesGrow(before: seq<User>, after: seq<User>) {
    && |before| <= |after| <= |before| + 1
    && (forall i | 0 <= i < |before| :: after[i].email == before[i].email)
    && (|after| > |before| ==> forall i | 0 <= i < |before| :: before[i].email != after[|before|].email)
  }

  lemma StepGrowsAddresses(s: State, op: Op)
    ensures AddressesGrow(s.users, Step(s, op).users)
  {
  }

  lemma GrownIsValid(s: State, after: State)
    requires Valid(s) && AddressesGrow(s.users, after.users)
    ensures Valid(after)
  {
  }

  /** Every endpoint keeps addresses unique. */
  lemma StepKeepsValid(s: State, op: Op)
    requires Valid(s)
    ensures Valid(Step(s, op))
  {
    StepGrowsAddresses(s, op);
    GrownIsValid(s, Step(s, op));
  }

  lemma InsertKeepsOneOwner(s: State, email: Email, home: OrgId, org: OrgId)
    requires AtMostOneOwner(s, org) && Lookup(s.users, email).None?
    ensures AtMostOneOwner(s.(users := s.users + [FirstSignIn(s, email, home)]), org) <==> !InsertsSecondOwner(s, email, home, org)
  {
    var n, after := |s.users|, s.users + [FirstSignIn(s, email, home)];
    if Headcount(s.users, home) == 0 {
      HeadcountZero(s.users, home);
    } else if Headcount(s.users, home) == 1 {
      HeadcountOne(s.users, home);
    }
    assert forall i | 0 <= i < n :: after[i] == s.users[i] && s.users[i].email != email;
    if InsertsSecondOwner(s, email, home, org) {
      var i :| 0 <= i < n && ActiveOwner(s.users[i], org) && s.users[i].email != email;
      assert ActiveOwner(after[i], org) && ActiveOwner(after[n], org);
    }
  }

  lemma ReviveKeepsOneOwner(s: State, user: nat, org: OrgId)
    requires Valid(s) && AtMostOneOwner(s, org) && user < |s.users|
    ensures AtMostOneOwner(s.(users := s.users[user := s.users[user].(active := true)]), org) <==> !RevivesSecondOwner(s, user, org)
  {
    var after := s.users[user := s.users[user].(active := true)];
    assert forall m | 0 <= m < |s.users| && m != user :: after[m] == s.users[m] && s.users[m].email != s.users[user].email;
    if RevivesSecondOwner(s, user, org) {
      var i :| 0 <= i < |s.users| && ActiveOwner(s.users[i], org) && s.users[i].email != s.users[user].email;
      assert ActiveOwner(after[i], org) && ActiveOwner(after[user], org);
      assert i < user || user < i;
    }
  }

  /** An uninvited sign-in keeps an organisation single-owner exactly when it does not mint a second one. */
  lemma UninvitedKeepsOneOwner(s: State, op: Op, org: OrgId)
    requires Valid(s) && AtMostOneOwner(s, org)
    requires op.DoSignIn? && op.email != "" && !Applies(s, op.invite)
    ensures AtMostOneOwner(Step(s, op), org) <==> !MintsSecondOwner(s, op, org)
  {
    match Lookup(s.users, op.email)
    case None => InsertKeepsOneOwner(s, op.email, Resolve(s.orgs, op.email), org);
    case Some(k) => ReviveKeepsOneOwner(s, k, org);
  }

  /** So does the extension's sign-in. */
  lemma ExtensionKeepsOneOwner(s: State, email: Email, org: OrgId)
    requires AtMostOneOwner(s, org)
    ensures AtMostOneOwner(Step(s, DoExtension(email)), org) <==> !MintsSecondOwner(s, DoExtension(email), org)
  {
    if ExtensionSignIn(s, email).1 == Done && Lookup(s.users, email).None? {
      InsertKeepsOneOwner(s, email, MappedOrg(s.orgs, email).value, org);
    }
  }

  /** And an administrator's reactivation. */
  lemma ReactivationKeepsOneOwner(s: State, actor: nat, target: nat, org: OrgId)
    requires Valid(s) && AtMostOneOwner(s, org)
    ensures AtMostOneOwner(Step(s, DoReactivate(actor, target)), org) <==> !MintsSecondOwner(s, DoReactivate(actor, target), org)
  {
    if CanManage(s, actor) && SameTeam(s, actor, target) {
      ReviveKeepsOneOwner(s, target, org);
    }
  }

  lemma ActivationKeepsOneOwner(s: State, token: nat, hasPassword: bool, now: nat, org: OrgId)
    requires Valid(s) && AtMostOneOwner(s, org)
    ensures AtMostOneOwner(AcceptActivation(s, token, hasPassword, now).0, org)
  {
  }

  lemma InvitedKeepsOneOwner(s: State, email: Email, token: nat, now: nat, org: OrgId)
    requires Valid(s) && AtMostOneOwner(s, org) && token < |s.invites|
    ensures AtMostOneOwner(SignInInvited(s, email, token, now).0, org)
  {
  }

  lemma TeamCallsKeepOneOwner(s: State, op: Op, org: OrgId)
    requires AtMostOneOwner(s, org) && !op.DoActivate? && !op.DoSignIn? && !op.DoExtension? && !op.DoReactivate?
    ensures AtMostOneOwner(Step(s, op), org)
  {
  }

  /** Every other call keeps an organisation single-owner. */
  lemma OtherCallsKeepOneOwner(s: State, op: Op, org: OrgId)
    requires Valid(s) && AtMostOneOwner(s, org)
    requires op.DoSignIn? ==> op.email == "" || Applies(s, op.invite)
    requires !op.DoExtension? && !op.DoReactivate?
    ensures AtMostOneOwner(Step(s, op), org)
  {
    match op
    case DoActivate(token, hasPassword, now) => ActivationKeepsOneOwner(s, token, hasPassword, now, org);
    case DoSignIn(email, invite, now) =>
      if email != "" {
        InvitedKeepsOneOwner(s, email, invite.value, now, org);
      }
    case _ => TeamCallsKeepOneOwner(s, op, org);
  }

  /** One call keeps an organisation single-owner exactly when it is not a minting sign-in or reactivation. */
  lemma StepKeepsOneOwner(s: State, op: Op, org: OrgId)
    requires Valid(s) && AtMostOneOwner(s, org)
    ensures AtMostOneOwner(Step(s, op), org) <==> !MintsSecondOwner(s, op, org)
  {
    if op.DoSignIn? && op.email != "" && !Applies(s, op.invite) {
      UninvitedKeepsOneOwner(s, op, org);
    } else if op.DoExtension? {
      ExtensionKeepsOneOwner(s, op.email, org);
    } else if op.DoReactivate? {
      ReactivationKeepsOneOwner(s, op.actor, op.target, org);
    } else {
      OtherCallsKeepOneOwner(s, op, org);
    }
  }

  lemma {:induction false} RunKeepsValid(hist: seq<State>, ops: seq<Op>, k: nat)
    requires IsRun(hist, ops) && Valid(hist[0]) && k <= |ops|
    ensures Valid(hist[k])
  {
    if k > 0 {
      RunKeepsValid(hist, ops, k - 1);
      StepKeepsValid(hist[k - 1], ops[k - 1]);
    }
  }

  /**
   Over every run an organisation has at most one active owner at every point exactly when
   no call of the run was a minting sign-in or reactivation.
   */
  lemma {:induction false} OneOwnerOverRuns(hist: seq<State>, ops: seq<Op>, org: OrgId)
    requires IsRun(hist, ops) && Valid(hist[0]) && AtMostOneOwner(hist[0], org)
    ensures (forall k | 0 <= k <= |ops| :: AtMostOneOwner(hist[k], org))
       <==> (forall k | 0 <= k < |ops| :: !MintsSecondOwner(hist[k], ops[k], org))
  {
    if forall k | 0 <= k <= |ops| :: AtMostOneOwner(hist[k], org) {
      forall k | 0 <= k < |ops| ensures !MintsSecondOwner(hist[k], ops[k], org) {
        RunKeepsValid(hist, ops, k);
        assert AtMostOneOwner(hist[k + 1], org);
        StepKeepsOneOwner(hist[k], ops[k], org);
      }
    }
    if forall k | 0 <= k < |ops| :: !MintsSecondOwner(hist[k], ops[k], org) {
      forall k | 0 <= k <= |ops| ensures AtMostOneOwner(hist[k], org) {
        OneOwnerUpTo(hist, ops, org, k);
      }
    }
  }

  lemma {:induction false} OneOwnerUpTo(hist: seq<State>, ops: seq<Op>, org: OrgId, k: nat)
    requires IsRun(hist, ops) && Valid(hist[0]) && AtMostOneOwner(hist[0], org) && k <= |ops|
    requires forall m | 0 <= m < |ops| :: !MintsSecondOwner(hist[m], ops[m], org)
    ensures AtMostOneOwner(hist[k], org)
  {
    if k > 0 {
      OneOwnerUpTo(hist, ops, org, k - 1);
      RunKeepsValid(hist, ops, k - 1);
      StepKeepsOneOwner(hist[k - 1], ops[k - 1], org);
    }
  }

  const FOUNDER := User("u@x", "a", RawOwner, Owner, true)
  const COLLEAGUE := User("v@x", "a", RawOwner, Owner, true)
  const LINKED := State([], [Invite("a", "u@x", RawOwner, Pending, Some(9))], [Org("a", Some("x"))])
  const FOUNDED := State([FOUNDER], [Invite("a", "u@x", RawOwner, Accepted(0), Some(9))], [Org("a", Some("x"))])

  lemma FounderIsInvited()
    ensures Provision(State([], [], []), "a", "u@x", Some("x"), false, 9) == (LINKED, Done)
  {
    assert EnsureOrg([], "a", Some("x")) == LINKED.orgs;
    assert PendingLink([], "a", "u@x") == None && NewestOwner([], "a") == None;
    assert [] + [Invite("a", "u@x", RawOwner, Pending, Some(9))] == LINKED.invites;
  }

  lemma FounderActivates()
    ensures AcceptActivation(LINKED, 0, true, 1) == (FOUNDED, Done)
  {
    assert CheckActivation(LINKED, LINKED.invites[0], 1) == Done;
    assert LINKED.orgs[0].id == "a";
    assert Consume(LINKED.invites, 0, 0) == FOUNDED.invites;
    assert EnsureOrg(LINKED.orgs, "a", DomainOf("u@x")) == FOUNDED.orgs;
    assert Lookup(LINKED.users, "u@x") == None;
    assert LINKED.users + [FOUNDER] == FOUNDED.users;
  }

  lemma ColleagueSignsIn()
    ensures SignInUninvited(FOUNDED, "v@x") == FOUNDED.(users := [FOUNDER, COLLEAGUE])
  {
    DomainOfShort("v", "x");
    assert Lookup(FOUNDED.users, "v@x") == None;
    assert FOUNDED.orgs[0].id == "a" && Resolve(FOUNDED.orgs, "v@x") == "a";
    assert FOUNDED.users[..0] == [];
    assert Headcount(FOUNDED.users, "a") == 1;
  }

  /** A concrete run that ends with two owners: the first owner activates, then a colleague signs in. */
  lemma SecondSignInMintsOwner() returns (hist: seq<State>, ops: seq<Op>)
    ensures IsRun(hist, ops) && hist[0] == State([], [], [])
    ensures |ops| == 3 && Perform(hist[1], ops[1]).1 == Done
    ensures !AtMostOneOwner(hist[3], "a")
  {
    ops := [DoProvision("a", "u@x", Some("x"), false, 9), DoActivate(0, true, 1), DoSignIn("v@x", None, 2)];
    var last := FOUNDED.(users := [FOUNDER, COLLEAGUE]);
    hist := [State([], [], []), LINKED, FOUNDED, last];
    FounderIsInvited();
    FounderActivates();
    ColleagueSignsIn();
    assert Step(hist[2], ops[2]) == last;
    assert ActiveOwner(last.users[0], "a") && ActiveOwner(last.users[1], "a");
  }

  /** The domain of `local@domain` when neither part carries an `@`. */
  lemma {:induction false} DomainOfShort(local: string, domain: string)
    requires '@' !in local && '@' !in domain
    ensures DomainOf(local + "@" + domain) == Some(domain)
  {
    AfterAtSplits(local, domain);
    UpToAtWhole(domain);
  }

  lemma {:induction false} AfterAtSplits(local: string, domain: string)
    requires '@' !in local
    ensures AfterAt(local + "@" + domain) == Some(domain)
  {
    var email := local + "@" + domain;
    if local == "" {
      assert email[1..] == domain;
    } else {
      assert email[1..] == local[1..] + "@" + domain;
      AfterAtSplits(local[1..], domain);
    }
  }

  lemma {:induction false} UpToAtWhole(s: string)
    requires '@' !in s
    ensures UpToAt(s) == s
  {
    if s != [] {
      UpToAtWhole(s[1..]);
      assert s == [s[0]] + s[1..];
    }
  }

  // ---------------------------------------------------------------------------
  // Invites
  // ---------------------------------------------------------------------------

  /** The call turned this pending invite into an accepted one. */
  predicate Grants(s: State, op: Op, token: nat) {
    && token < |s.invites| && s.invites[token].status.Pending?
    && token < |Step(s, op).invites| && Step(s, op).invites[token].status.Accepted?
  }

  /** Invites are never withdrawn or rewritten, and an accepted one stays accepted by the same user. */
  lemma InvitesSurvive(s: State, op: Op)
    ensures |s.invites| <= |Step(s, op).invites|
    ensures forall t | 0 <= t < |s.invites| ::
              && Step(s, op).invites[t].(status := Pending) == s.invites[t].(status := Pending)
              && (!s.invites[t].status.Pending? ==> Step(s, op).invites[t] == s.invites[t])
  {
  }

  lemma {:induction false} InvitesSurviveRun(hist: seq<State>, ops: seq<Op>, i: nat, j: nat, token: nat)
    requires IsRun(hist, ops) && i <= j <= |ops| && token < |hist[i].invites|
    requires !hist[i].invites[token].status.Pending?
    ensures token < |hist[j].invites| && hist[j].invites[token] == hist[i].invites[token]
    decreases j
  {
    if i < j {
      InvitesSurviveRun(hist, ops, i, j - 1, token);
      InvitesSurvive(hist[j - 1], ops[j - 1]);
    }
  }

  /** Each invite grants a seat at most once, whatever else happens in the run. */
  lemma {:induction false} InviteGrantsOnce(hist: seq<State>, ops: seq<Op>, i: nat, j: nat, token: nat)
    requires IsRun(hist, ops) && i < j < |ops| && Grants(hist[i], ops[i], token)
    ensures !Grants(hist[j], ops[j], token)
  {
    InvitesSurviveRun(hist, ops, i + 1, j, token);
  }

  /** The call is an administrator's role change of this very row, to a role the request may carry. */
  predicate RoleChangeBy(s: State, op: Op, user: nat)
    requires user < |s.users|
  {
    match op
    case DoSetRole(actor, target, role) =>
      && target == user && actor < |s.users| && s.users[actor].role == RawAdmin && s.users[actor].org == s.users[user].org
      && Assignable(role) && user < |Step(s, op).users| && Step(s, op).users[user] == Reseated(s.users[user], role)
    case DoUpdate(actor, target, Some(role)) =>
      && target == user && actor < |s.users| && HasAdminAccess(s.users[actor].role) && s.users[actor].org == s.users[user].org
      && Assignable(role) && user < |Step(s, op).users| && Step(s, op).users[user] == Reseated(s.users[user], role)
    case _ => false
  }

  predicate SeatGranted(s: State, op: Op, user: nat, token: nat)
    requires user < |s.users| && user < |Step(s, op).users|
  {
    && Grants(s, op, token)
    && Step(s, op).invites[token].status == Accepted(user)
    && s.invites[token].email == s.users[user].email
    && Step(s, op).users[user].org == s.invites[token].org
    && Step(s, op).users[user].seat == InvitedRole(s.invites[token].role)
  }

  /** The row is untouched, or the invite was used up for it. */
  predicate UntouchedOrSeated(s: State, op: Op, user: nat, token: nat)
    requires user < |s.users| && user < |Step(s, op).users|
  {
    (Step(s, op).users[user].seat == s.users[user].seat && Step(s, op).users[user].org == s.users[user].org) || SeatGranted(s, op, user, token)
  }

  lemma ActivationSeats(s: State, op: Op, user: nat)
    requires Valid(s) && user < |s.users| && op.DoActivate?
    ensures user < |Step(s, op).users| && UntouchedOrSeated(s, op, user, op.token)
  {
  }

  lemma AcceptanceSeats(s: State, op: Op, user: nat)
    requires Valid(s) && user < |s.users| && op.DoAccept?
    ensures user < |Step(s, op).users| && UntouchedOrSeated(s, op, user, op.token)
  {
  }

  lemma SignInSeats(s: State, op: Op, user: nat)
    requires Valid(s) && user < |s.users| && op.DoSignIn?
    ensures user < |Step(s, op).users| && UntouchedOrSeated(s, op, user, if op.invite.Some? then op.invite.value else 0)
  {
  }

  /** No call renames a row. */
  lemma AddressesStay(s: State, op: Op, user: nat)
    requires user < |s.users|
    ensures user < |Step(s, op).users| && Step(s, op).users[user].email == s.users[user].email
  {
  }

  /**
   An existing user changes seat or organisation only when an administrator of the same
   organisation changes the role, or when a pending invite for that very address is used
   up; then the new seat and organisation are the invite's.
   */
  lemma SeatChangesAreGranted(s: State, op: Op, user: nat)
    requires Valid(s) && user < |s.users|
    ensures user < |Step(s, op).users| && Step(s, op).users[user].email == s.users[user].email
    ensures Step(s, op).users[user].seat != s.users[user].seat || Step(s, op).users[user].org != s.users[user].org ==>
              || RoleChangeBy(s, op, user)
              || exists token :: SeatGranted(s, op, user, token)
  {
    AddressesStay(s, op, user);
    match op
    case DoActivate(_, _, _) => ActivationSeats(s, op, user);
    case DoAccept(_, _, _) => AcceptanceSeats(s, op, user);
    case DoSignIn(_, _, _) => SignInSeats(s, op, user);
    case _ =>
  }

  /** The row was inserted for a sign-in without an invite; it owns the organisation exactly when at most one row was there. */
  predicate FirstSeen(s: State, op: Op, u: User) {
    && (op.DoExtension? || (op.DoSignIn? && !Applies(s, op.invite)))
    && u.email == op.email && u.active
    && (if op.DoExtension? then MappedOrg(s.orgs, op.email) == Some(u.org) else u.org == Resolve(s.orgs, op.email))
    && u.seat == if Headcount(s.users, u.org) <= 1 then Owner else Member
  }

  lemma NewRowByLink(s: State, op: Op)
    requires (op.DoActivate? || op.DoAccept?) && |Step(s, op).users| > |s.users|
    ensures UsedUpFor(s, op, |s.users|, Step(s, op).users[|s.users|], op.token)
  {
  }

  lemma NewRowBySignIn(s: State, op: Op)
    requires op.DoSignIn? && |Step(s, op).users| > |s.users|
    ensures if Applies(s, op.invite) then UsedUpFor(s, op, |s.users|, Step(s, op).users[|s.users|], op.invite.value)
            else FirstSeen(s, op, Step(s, op).users[|s.users|])
  {
  }

  /** A row's seat comes from an invite to its address that this call used up, or from a first sign-in. */
  lemma NewSeatsAreGranted(s: State, op: Op)
    requires |Step(s, op).users| > |s.users|
    ensures Lookup(s.users, Step(s, op).users[|s.users|].email).None?
    ensures var u := Step(s, op).users[|s.users|];
            || FirstSeen(s, op, u)
            || exists token: nat :: UsedUpFor(s, op, |s.users|, u, token)
  {
    StepGrowsAddresses(s, op);
    if op.DoActivate? || op.DoAccept? {
      NewRowByLink(s, op);
    } else if op.DoSignIn? {
      NewRowBySignIn(s, op);
    }
  }

  predicate UsedUpFor(s: State, op: Op, user: nat, u: User, token: nat) {
    && Grants(s, op, token)
    && Step(s, op).invites[token].status == Accepted(user)
    && u == User(s.invites[token].email, s.invites[token].org, Canonical(InvitedRole(s.invites[token].role)), InvitedRole(s.invites[token].role), true)
  }

  lemma {:induction false} NewestOwnerExactly(users: seq<User>, org: OrgId)
    ensures NewestOwner(users, org).None? <==> forall i | 0 <= i < |users| :: !ActiveOwner(users[i], org)
    ensures NewestOwner(users, org).Some? ==>
              exists i | 0 <= i < |users| :: ActiveOwner(users[i], org) && users[i].email == NewestOwner(users, org).value
  {
    if users != [] {
      NewestOwnerExactly(users[..|users| - 1], org);
    }
  }

  /** A link comes from provisioning, for the address asked for. */
  predicate ProvisionedLink(s: State, op: Op, inv: Invite) {
    && op.DoProvision? && inv.org == op.org && inv.email == op.email && inv.status.Pending? && inv.expiresAt == Some(op.expiresAt)
    && Normalize(inv.role) == Some(Owner)
    && LinkWanted(s, op.org, op.email, op.forceNew)
  }

  /** The newest owner does not stand in the way, and no pending link will do. */
  predicate LinkWanted(s: State, org: OrgId, email: Email, forceNew: bool) {
    && (NewestOwner(s.users, org).None? || NewestOwner(s.users, org).value == "" || NewestOwner(s.users, org).value == email)
    && (forceNew || PendingLink(s.invites, org, email).None?)
  }

  /** A team invite is an administrator's, for the own organisation, to a new address, and for a seat below owner. */
  predicate TeamInvite(s: State, op: Op, inv: Invite) {
    && op.DoInvite? && op.actor < |s.users| && HasAdminAccess(s.users[op.actor].role)
    && inv.org == s.users[op.actor].org && inv.email == op.email && inv.status.Pending? && inv.expiresAt == Some(op.expiresAt)
    && Lookup(s.users, op.email).None?
    && Normalize(inv.role) == Normalize(op.role) && Normalize(inv.role).Some? && Normalize(inv.role) != Some(Owner)
  }

  /** Where invites come from. */
  lemma NewInvitesAreAuthorised(s: State, op: Op)
    ensures |Step(s, op).invites| <= |s.invites| + 1
    ensures |Step(s, op).invites| > |s.invites| ==>
              ProvisionedLink(s, op, Step(s, op).invites[|s.invites|]) || TeamInvite(s, op, Step(s, op).invites[|s.invites|])
    ensures op.DoProvision? ==> (|Step(s, op).invites| > |s.invites| <==> LinkWanted(s, op.org, op.email, op.forceNew))
  {
  }

  /** How many rows actively own the organisation. */
  function OwnerCount(users: seq<User>, org: OrgId): nat {
    if users == [] then 0
    else OwnerCount(users[..|users| - 1], org) + if ActiveOwner(users[|users| - 1], org) then 1 else 0
  }

  lemma {:induction false} OwnersCounted(users: seq<User>, org: OrgId)
    ensures OwnerCount(users, org) == 0 <==> forall i | 0 <= i < |users| :: !ActiveOwner(users[i], org)
    ensures OwnerCount(users, org) <= 1 <==>
              forall i, j | 0 <= i < j < |users| :: !(ActiveOwner(users[i], org) && ActiveOwner(users[j], org))
  {
    if users != [] {
      OwnersCounted(users[..|users| - 1], org);
    }
  }

  /**
   Provisioning looks at the newest owner only. A link it makes means that nobody else owns the
   organisation exactly when there is no owner, or a single one whose address is the link's.
   */
  lemma LinkMeansNoRivalExactly(s: State, org: OrgId, email: Email, forceNew: bool)
    requires Valid(s) && LinkWanted(s, org, email, forceNew)
    ensures !OwnedByAnother(s.users, org, email)
       <==> OwnerCount(s.users, org) == 0 || (OwnerCount(s.users, org) == 1 && NewestOwner(s.users, org) == Some(email))
  {
    OwnersCounted(s.users, org);
    NewestOwnerExactly(s.users, org);
  }

  /** The two owners of the run above: provisioning makes a link for the newer one while the founder owns the organisation. */
  lemma SecondOwnerGetsLink(now: nat)
    ensures var s := FOUNDED.(users := [FOUNDER, COLLEAGUE]);
            var op := DoProvision("a", "v@x", None, false, now);
            && OwnedByAnother(s.users, "a", "v@x")
            && Perform(s, op).1 == Done && |Step(s, op).invites| == |s.invites| + 1
            && ProvisionedLink(s, op, Step(s, op).invites[|s.invites|])
  {
    var s := FOUNDED.(users := [FOUNDER, COLLEAGUE]);
    assert ActiveOwner(s.users[0], "a") && s.users[0].email != "v@x";
    assert NewestOwner(s.users, "a") == Some("v@x");
    assert s.invites[..0] == [] && PendingLink(s.invites, "a", "v@x") == None;
    assert s.orgs[0].id == "a" && EnsureOrg(s.orgs, "a", None) == s.orgs;
  }

  // ---------------------------------------------------------------------------
  // Expired invites
  // ---------------------------------------------------------------------------

  /** The time a call uses to judge an invite, if it judges any. */
  function TimeOf(op: Op): nat {
    if op.DoActivate? || op.DoSignIn? || op.DoAccept? then op.now else 0
  }

  /**
   An invite past its expiry is still honoured exactly when it is for a seat below owner and the
   call is its addressee's OAuth callback: only owner links have their expiry checked there.
   */
  lemma ExpiredGrantsExactly(s: State, op: Op, token: nat)
    requires token < |s.invites| && s.invites[token].status.Pending? && Expired(s.invites[token], TimeOf(op))
    ensures Grants(s, op, token)
       <==> && op.DoSignIn? && op.invite == Some(token)
            && op.email != "" && op.email == s.invites[token].email && InvitedRole(s.invites[token].role) != Owner
  {
  }

  /** A concrete expired invite: refused with a password, honoured by the callback. */
  lemma ExpiredInviteIsHonoured()
    ensures var s := State([], [Invite("a", "v@x", RawMember, Pending, Some(5))], []);
            && Expired(s.invites[0], 9)
            && AcceptInvite(s, 0, true, 9).1 == InviteExpired
            && OAuthCallback(s, "v@x", Some(0), 9).1 == Done && Grants(s, DoSignIn("v@x", Some(0), 9), 0)
  {
  }

  /** A refused call changes nothing, except that provisioning registers the organisation first. */
  lemma RefusalChangesNothing(s: State, op: Op)
    requires Perform(s, op).1 != Done
    ensures Step(s, op).users == s.users && Step(s, op).invites == s.invites
    ensures !op.DoProvision? ==> Step(s, op) == s
  {
  }

  /** Owner links for other addresses are dead while an owner is active, on every path. */
  lemma RivalLinksRefused(s: State, token: nat, hasPassword: bool, now: nat)
    requires token < |s.invites| && Normalize(s.invites[token].role) == Some(Owner)
    requires OwnedByAnother(s.users, s.invites[token].org, s.invites[token].email)
    ensures AcceptActivation(s, token, hasPassword, now).1 != Done
    ensures s.invites[token].status.Pending? ==>
              OAuthCallback(s, s.invites[token].email, Some(token), now).1 != Done
  {
  }

  /** A link that is honoured leaves its addressee as the only active owner. */
  lemma ActivationCrownsAddressee(s: State, token: nat, hasPassword: bool, now: nat)
    requires Valid(s) && AcceptActivation(s, token, hasPassword, now).1 == Done
    ensures token < |s.invites|
    ensures var after := AcceptActivation(s, token, hasPassword, now).0;
            var inv := s.invites[token];
            && (exists i | 0 <= i < |after.users| :: after.users[i].email == inv.email)
            && forall i | 0 <= i < |after.users| :: ActiveOwner(after.users[i], inv.org) <==> after.users[i].email == inv.email
  {
    var after := AcceptActivation(s, token, hasPassword, now).0;
    var u := after.invites[token].status.acceptedBy;
    assert after.users[u].email == s.invites[token].email;
  }

  // ---------------------------------------------------------------------------
  // The endpoints, step by step
  // ---------------------------------------------------------------------------

  /** The user, invite and organisation tables, with one method per endpoint. */
  class Workspace {
    var users: seq<User>
    var invites: seq<Invite>
    var orgs: seq<Org>

    function Now(): State
      reads this
    {
      State(users, invites, orgs)
    }

    constructor ()
      ensures Now() == State([], [], [])
    {
      users, invites, orgs := [], [], [];
    }

    /** Scans the organisation's rows, newest first, for an active owner. */
    method ActiveOwnerEmail(org: OrgId) returns (owner: Option<Email>)
      ensures owner == NewestOwner(users, org)
    {
      var i := |users|;
      assert users[..i] == users;
      while i > 0
        invariant i <= |users|
        invariant NewestOwner(users, org) == NewestOwner(users[..i], org)
      {
        i := i - 1;
        assert users[..i + 1][..i] == users[..i];
        if ActiveOwner(users[i], org) {
          return Some(users[i].email);
        }
      }
      return None;
    }

    /** Scans the organisation's invites, newest first, for a pending owner link of the address. */
    method ExistingPendingActivation(org: OrgId, email: Email) returns (token: Option<nat>)
      ensures token == PendingLink(invites, org, email)
    {
      var i := |invites|;
      assert invites[..i] == invites;
      while i > 0
        invariant i <= |invites|
        invariant PendingLink(invites, org, email) == PendingLink(invites[..i], org, email)
      {
        i := i - 1;
        assert invites[..i + 1][..i] == invites[..i];
        if IsPendingLink(invites[i], org, email) {
          return Some(i);
        }
      }
      return None;
    }

    /** Collects the active owner rows and looks for one with another address. */
    method HasConflictingOwner(org: OrgId, email: Email) returns (conflict: bool)
      ensures conflict == OwnedByAnother(users, org, email)
    {
      conflict := false;
      for i := 0 to |users|
        invariant conflict == exists j | 0 <= j < i :: ActiveOwner(users[j], org) && users[j].email != email
      {
        if ActiveOwner(users[i], org) && users[i].email != email {
          conflict := true;
        }
      }
    }

    method ValidateActivation(inv: Invite, now: nat) returns (reply: Reply)
      ensures reply == CheckActivation(Now(), inv, now)
    {
      if !inv.status.Pending? {
        return ActivationNotPending;
      }
      if Expired(inv, now) {
        return ActivationExpired;
      }
      if inv.email == "" {
        return ActivationMissingEmail;
      }
      if inv.org == "" || inv.org == "default" || inv.org == UNPROVISIONED {
        return ActivationMissingOrg;
      }
      var conflict := HasConflictingOwner(inv.org, inv.email);
      return if conflict then ActivationOwnerExists else Done;
    }

    method ProvisionLink(org: OrgId, email: Email, domain: Option<string>, forceNew: bool, expiresAt: nat)
      returns (reply: Reply)
      modifies this
      ensures (Now(), reply) == Provision(old(Now()), org, email, domain, forceNew, expiresAt)
    {
      orgs := EnsureOrg(orgs, org, domain);
      var owner := ActiveOwnerEmail(org);
      if owner.Some? && owner.value != "" && owner.value != email {
        return OwnerAlreadySet;
      }
      var link: Option<nat> := None;
      if !forceNew {
        link := ExistingPendingActivation(org, email);
      }
      if link.None? {
        invites := invites + [Invite(org, email, RawOwner, Pending, Some(expiresAt))];
      }
      return Done;
    }

    /** `create_user`: registers the organisation and inserts the row. */
    method CreateUser(email: Email, org: OrgId, role: Role) returns (id: nat)
      modifies this`users, this`orgs
      ensures id == |old(users)| && users == old(users) + [User(email, org, Canonical(role), role, true)]
      ensures orgs == EnsureOrg(old(orgs), org, DomainOf(email))
    {
      orgs := EnsureOrg(orgs, org, DomainOf(email));
      id := |users|;
      users := users + [User(email, org, Canonical(role), role, true)];
    }

    /** `create_user_from_google` for an address without a row: insert, then promote a lone user. */
    method CreateUserFromGoogle(email: Email, org: OrgId) returns (id: nat)
      requires Lookup(users, email).None?
      modifies this`users, this`orgs
      ensures id == |old(users)| && users == old(users) + [FirstSignIn(old(Now()), email, org)]
      ensures orgs == EnsureOrg(old(orgs), org, DomainOf(email))
    {
      orgs := EnsureOrg(orgs, org, DomainOf(email));
      var existing := Headcount(users, org);
      var role := if existing == 0 then RawOwner else PlainUser;
      id := |users|;
      users := users + [Reseated(User(email, org, role, Member, true), role)];
      if existing <= 1 && users[id].role != RawOwner {
        users := users[id := Reseated(users[id], RawOwner)];
      }
    }

    method AcceptActivationLink(token: nat, hasPassword: bool, now: nat) returns (reply: Reply)
      modifies this
      ensures (Now(), reply) == AcceptActivation(old(Now()), token, hasPassword, now)
    {
      if token >= |invites| || Normalize(invites[token].role) != Some(Owner) {
        return ActivationNotFound;
      }
      var inv := invites[token];
      var check := ValidateActivation(inv, now);
      if check != Done {
        return check;
      }
      var user := Lookup(users, inv.email);
      var id: nat;
      match user {
        case None =>
          if !hasPassword {
            return PasswordRequired;
          }
          id := CreateUser(inv.email, inv.org, Owner);
        case Some(i) =>
          if BoundElsewhere(users[i], inv.org) {
            return ActivationUserBound;
          }
          id := i;
          users := users[id := Seated(users[id], inv.org, Owner).(active := true)];
      }
      invites := Consume(invites, token, id);
      return Done;
    }

    /** The Google and the Microsoft callback: identical up to the provider's subject id. */
    method Callback(email: Email, inviteToken: Option<nat>, now: nat) returns (reply: Reply)
      modifies this
      ensures (Now(), reply) == OAuthCallback(old(Now()), email, inviteToken, now)
    {
      if email == "" {
        return InvalidProfile;
      }
      var invited := Applies(Now(), inviteToken);
      var org := Resolve(orgs, email);
      var role := Member;
      if invited {
        var inv := invites[inviteToken.value];
        if inv.email != email {
          return InviteEmailMismatch;
        }
        org, role := inv.org, InvitedRole(inv.role);
        if role == Owner {
          var check := ValidateActivation(inv, now);
          if check != Done {
            return check;
          }
        }
      }
      var user := Lookup(users, email);
      var id: nat;
      match user {
        case None =>
          id := CreateUserFromGoogle(email, org);
        case Some(i) =>
          if invited && role == Owner && BoundElsewhere(users[i], org) {
            return ActivationUserBound;
          }
          id := i;
          users := users[id := users[id].(active := true)];
      }
      if invited {
        users := users[id := Seated(users[id], org, role)];
        invites := Consume(invites, inviteToken.value, id);
        assert user.None? ==> users == old(users) + [User(email, org, Canonical(role), role, true)];
        assert user.Some? ==> users == old(users)[id := Seated(old(users)[id], org, role).(active := true)];
      }
      return Done;
    }

    method InviteTeammate(actor: nat, email: Email, role: RawRole, expiresAt: nat) returns (reply: Reply)
      modifies this
      ensures (Now(), reply) == InviteUser(old(Now()), actor, email, role, expiresAt)
    {
      if actor >= |users| || !HasAdminAccess(users[actor].role) {
        return Forbidden;
      }
      var normalized := Normalize(role);
      if normalized.None? || normalized.value == Owner {
        return InvalidRole;
      }
      if Lookup(users, email).Some? {
        return UserExists;
      }
      invites := invites + [Invite(users[actor].org, email, Canonical(normalized.value), Pending, Some(expiresAt))];
      return Done;
    }

    method AcceptTeamInvite(token: nat, hasPassword: bool, now: nat) returns (reply: Reply)
      modifies this
      ensures (Now(), reply) == AcceptInvite(old(Now()), token, hasPassword, now)
    {
      if token >= |invites| {
        return InviteNotFound;
      }
      var inv := invites[token];
      if Normalize(inv.role) == Some(Owner) {
        return ActivationLinkRequired;
      }
      if !inv.status.Pending? {
        return InviteNotPending;
      }
      if Expired(inv, now) {
        return InviteExpired;
      }
      if inv.org == "" || inv.org == "default" || inv.org == UNPROVISIONED {
        return InviteMissingOrg;
      }
      var user := Lookup(users, inv.email);
      var id: nat;
      match user {
        case None =>
          if !hasPassword {
            return PasswordRequired;
          }
          id := CreateUser(inv.email, inv.org, InvitedRole(inv.role));
        case Some(i) =>
          id := i;
          users := users[id := Seated(users[id], inv.org, InvitedRole(inv.role)).(active := true)];
      }
      invites := Consume(invites, token, id);
      return Done;
    }

    method SetUserRole(actor: nat, target: nat, role: RawRole) returns (reply: Reply)
      modifies this
      ensures (Now(), reply) == SetRole(old(Now()), actor, target, role)
    {
      if !Assignable(role) {
        return InvalidRole;
      }
      if actor >= |users| || users[actor].role != RawAdmin {
        return Forbidden;
      }
      if target >= |users| || users[target].org != users[actor].org {
        return UserNotFound;
      }
      users := users[target := Reseated(users[target], role)];
      return Done;
    }

    method PutUser(actor: nat, target: nat, role: Option<RawRole>) returns (reply: Reply)
      modifies this
      ensures (Now(), reply) == UpdateUser(old(Now()), actor, target, role)
    {
      if role.Some? && !Assignable(role.value) {
        return InvalidRole;
      }
      if actor >= |users| {
        return UserNotFound;
      }
      var isAdmin := HasAdminAccess(users[actor].role);
      if actor != target && !isAdmin {
        return Forbidden;
      }
      if role.Some? && !isAdmin {
        return Forbidden;
      }
      if target >= |users| || users[target].org != users[actor].org {
        return UserNotFound;
      }
      if role.Some? && isAdmin {
        users := users[target := Reseated(users[target], role.value)];
      }
      return Done;
    }

    method ArchiveUser(actor: nat, target: nat) returns (reply: Reply)
      modifies this
      ensures (Now(), reply) == DeleteUser(old(Now()), actor, target)
    {
      if actor >= |users| || users[actor].role != RawAdmin {
        return Forbidden;
      }
      if target == actor {
        return CannotDeleteSelf;
      }
      if target >= |users| || users[target].org != users[actor].org {
        return UserNotFound;
      }
      users := users[target := users[target].(active := false)];
      return Done;
    }

    /** Scans the active users for another owner by the legacy role. */
    method IsLastActiveOwner(user: nat) returns (last: bool)
      requires user < |users|
      ensures last == LastOwner(Now(), user)
    {
      last := Normalize(users[user].role) == Some(Owner);
      for i := 0 to |users|
        invariant last <==> && Normalize(users[user].role) == Some(Owner)
                            && forall j | 0 <= j < i && j != user && users[j].org == users[user].org && users[j].active ::
                                 Normalize(users[j].role) != Some(Owner)
      {
        if i != user && users[i].org == users[user].org && users[i].active && Normalize(users[i].role) == Some(Owner) {
          last := false;
        }
      }
    }

    method Deactivate(actor: nat, target: nat) returns (reply: Reply)
      modifies this
      ensures (Now(), reply) == DeactivateUser(old(Now()), actor, target)
    {
      if !CanManage(Now(), actor) {
        return AdminRequired;
      }
      if target >= |users| || users[target].org != users[actor].org {
        return UserNotFound;
      }
      if target == actor {
        return CannotDeactivateSelf;
      }
      var last := IsLastActiveOwner(target);
      if last {
        return LastOwnerProtected;
      }
      if !users[target].active {
        assert users == users[target := users[target].(active := false)];
        return Done;
      }
      users := users[target := users[target].(active := false)];
      return Done;
    }

    method Reactivate(actor: nat, target: nat) returns (reply: Reply)
      modifies this
      ensures (Now(), reply) == ReactivateUser(old(Now()), actor, target)
    {
      if !CanManage(Now(), actor) {
        return AdminRequired;
      }
      if target >= |users| || users[target].org != users[actor].org {
        return UserNotFound;
      }
      if users[target].active {
        assert users == users[target := users[target].(active := true)];
        return Done;
      }
      users := users[target := users[target].(active := true)];
      return Done;
    }

    method SignInFromExtension(email: Email) returns (reply: Reply)
      modifies this
      ensures (Now(), reply) == ExtensionSignIn(old(Now()), email)
    {
      if email == "" {
        return InvalidProfile;
      }
      if Lookup(users, email).Some? {
        return Done;
      }
      var home := MappedOrg(orgs, email);
      if home.None? || home.value == "" {
        return UnprovisionedEmail;
      }
      var id := CreateUserFromGoogle(email, home.value);
      return Done;
    }
  }
}
