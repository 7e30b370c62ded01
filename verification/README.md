# Solden operations: a verified model

Solden is an accounts-payable coordination service. This project models the parts of it that carry their own
logic and proves what they promise, over every input, every state or every run:

- `Activation.dfy` – workspace activation: owner links, password activation, the Google and Microsoft callbacks,
  the mail extension's sign-in, team invites, role changes, archiving and reactivation, as one state machine over users, invites and organisations, with the
  class `Workspace` implementing each endpoint step by step.
- `ActivationOutcomes.dfy` – when each of those endpoints is done, and exactly what it then changes.
- `ExchangeCodes.dfy`, `OneShot.dfy`, `SignedState.dfy` – the one-shot sign-in codes, one-shot tokens under overlapping
  calls, and the signed OAuth state with its base64url encoder and lenient decoder.
- `ApiKeys.dfy`, `KeyRotation.dfy` – scopes, key lineages under create, rotate and revoke, and rotations that overlap.
- `RouteProfile.dfy` – the strict route profile: one predicate, applied to route templates at startup and to
  concrete paths at request time, and the mounted route table under feature-flag flips.
- `Scorecard.dfy` – the extraction scorecard: weighted scores, four-place half-to-even rounding, the rating
  cascade, regression gates and vendor grouping.
- `Recalibration.dfy` – the confidence-gate recalibration batch over a store and its audit log.
- `ThreadLinks.dfy`, `LinkRaces.dfy`, `BulkOps.dfy`, `BoxProjection.dfy` – AP items: thread and draft links by single
  and by overlapping calls, the four bulk endpoints with their idempotency keys, and the read-through projection of a
  box.
- `LaunchTracker.dfy` – the launch-evidence parser, the renderer it inverts, and the release check.
- `BrandCrop.dfy` – cropping an RGBA export to its content plus a margin.
- `LiveStream.dfy` – the dashboard's event generator and the activity ribbon.
- `Wrappers.dfy`, `Text.dfy` – `Option`, `Result`, ASCII trimming and case.

State-changing code is a class whose methods are proved equal, reply and new state, to a function of the old state;
the properties are lemmas about those functions and the runs they generate. Tables without deletion are sequences, so
a row's id is its position and fresh ids are distinct. Timestamps, tokens, the keyed digest, JSON, the gate and the
finance runtime are parameters.

`dafny verify dfyconfig.toml` checks the whole project.

## Where the code differs from what is promised

For each of these the exact condition is proved for all inputs, and a concrete run or input shows the failure.

- **One owner per workspace.** The comment on `create_user_from_google` says later sign-ins keep the default seat, but
  the function promotes a newcomer whenever the organisation had at most one row *before* the insert, so the second
  person to sign in becomes a second owner (`SecondSignInMintsOwner`). `OneOwnerOverRuns` says exactly which calls
  break the rule: such an insert, by a callback or by the mail extension, and an archived owner who comes back beside an
  active one, by signing in or by an administrator's reactivation. Provisioning then looks at the newest
  owner only: `LinkMeansNoRivalExactly` says when its link means that nobody else owns the organisation, and
  `SecondOwnerGetsLink` shows one made beside another owner.
- **Perfect means perfect.** Four-place rounding shows a perfect rating as long as at most one case in 20000 fell short
  (`PerfectExactly`), so the promise holds below 20000 cases and fails from there on (`PerfectCanHideAMiss`).
- **A fresh projection is current.** A projector reads the tables with six queries, and exceptions and outcomes are
  committed before their audit event, which may be lost. `ServedRightExactly` gives the exact condition under which a
  row served as fresh is right; `TornRowIsServed` shows a row mixing two moments that no prefix of the timeline
  describes; `HiddenWriteIsServed` shows that no check of the stored row against the log can exclude a wrong one. The
  box is the fold of its timeline exactly while no write is without its event (`TablesFoldExactly`).
- **One timeline.** The stored preview is the newest five events, newest first, a live read lists all, oldest first
  (`TimelinesAgreeExactly`, `TwoEventTimelinesDiffer`).
- **One active key per lineage.** Rotations that overlap can leave two (`TwoRotationsLeaveTwoKeys`);
  `OneActiveOverRuns` says exactly which steps do.
- **At most once, when calls overlap.** An exchange code is selected and then deleted, an invite is read and later set,
  and neither call looks at what its last statement found: `GrantedOnceExactly` and `ClaimedOnceExactly` say when each
  is still granted once, `OneCodeGrantsTwice` shows a run where not. The linking endpoints check and then write:
  `UniqueOverRaces` is the exact condition, `TwoRecordsForOneThread` the race.
- **A repeated key replays.** Lookup uses the idempotency key as given, the save goes through the audit log, which trims
  it; a key with surrounding blanks, or one an unrelated event holds, runs the batch again (`RepeatIsReplayedExactly`,
  `PaddedKeyRunsTwice`). Keys are shared by all callers
  (`SharedKeyCrossesCallers`, `SharedKeyAnswersWithOthersRows`).
- **Startup and guard agree.** `PassesAgreeExactly` names the four ways they do not, request by request: a route kept by
  its gate alone (`TeamsRouteIsGatedOnly`), one listed by brace-carrying text alone (`SagePanelDisagrees`,
  `OriginalsRouteDisagrees`), one listed with a switched-off gate in its way (`InteractiveFollowsItsFlag`), and one that
  startup drops although the guard admits some of its requests (`BoxRouteIsDroppedButMet`).
- **The tracker round trip.** Parsing strips every value and cuts a line at its first colon or backtick pair, so rendered
  entries come back exactly under the condition in `ParseRenderExactly`; `ColonKeyIsLost` is one that does not.
- **The ribbon's window.** Six times the limit is fetched "so filtering leaves enough"; `RibbonIsWholeExactly` says
  when that is true, and `NoiseHidesActivity` gives a log for every limit where it is not.
- **Expired invites.** A team invite past its expiry is refused by the password path and honoured by the OAuth
  callback (`ExpiredGrantsExactly`, `ExpiredInviteIsHonoured`).

## Model

| member | source | states |
|---|---|---|
| Activation.OneOwnerOverRuns | solden/api/auth.py:173-233 | Over every run of every endpoint modelled, each organisation has at most one active owner at every point if and only if no call was a minting sign-in or reactivation |
| Activation.StepKeepsOneOwner | solden/api/auth.py:871-1028 | One call keeps a single-owner organisation single-owner if and only if it is not a minting sign-in or reactivation |
| Activation.UninvitedKeepsOneOwner | solden/core/auth.py:1247-1302 | A sign-in without an applicable invite keeps one owner if and only if it neither promotes a second row beside a lone owner nor revives an archived owner beside an active one |
| Activation.ExtensionKeepsOneOwner | solden/api/gmail_extension.py:999-1036 | The mail extension's sign-in keeps one owner if and only if it does not insert a second row, promoted, beside a lone owner |
| Activation.ReactivationKeepsOneOwner | solden/api/team_offboarding.py:169-200 | An administrator's reactivation keeps one owner if and only if it does not revive an archived owner beside an active one |
| Activation.OtherCallsKeepOneOwner | solden/api/auth.py:1431-1479 | Every other endpoint, with any number of owner links for different addresses pending, keeps one owner |
| Activation.SecondSignInMintsOwner | solden/core/auth.py:1283-1301 | A concrete run of three calls from an empty store that ends with two active owners |
| Activation.StepKeepsValid | solden/core/stores/auth_store.py:500-586 | Every endpoint keeps user addresses unique |
| Activation.InvitesSurvive | solden/core/stores/auth_store.py:1400-1455 | No invite is withdrawn or rewritten, and an invite that is no longer pending never changes again |
| Activation.InviteGrantsOnce | solden/api/auth.py:941-944 | In every run an invite grants a seat at most once |
| Activation.SeatChangesAreGranted | solden/api/auth.py:709-750 | An existing user's seat or organisation changes only by a same-organisation administrator's role change, to the role asked for, or by using up a pending invite for that address, to the invite's seat and organisation |
| Activation.NewSeatsAreGranted | solden/api/auth.py:979-1002 | A new row carries the seat of an invite to its address that this very call used up, or is a first sign-in, which owns exactly when at most one row was there |
| Activation.NewInvitesAreAuthorised | scripts/provision_customer_activation.py:87-108 | Every invite is a provisioned owner link or an administrator's, for the own organisation, a new address and a seat below owner; provisioning makes a link if and only if the newest owner is none, blank or the address itself, and a new link is forced or none is pending |
| Activation.LinkMeansNoRivalExactly | scripts/provision_customer_activation.py:37-45 | A link that is made means that nobody else owns the organisation if and only if there is no owner, or one whose address is the link's |
| Activation.SecondOwnerGetsLink | scripts/provision_customer_activation.py:87-92 | With two owners, a concrete link is made for the newer one while the other owns the organisation |
| Activation.ExpiredGrantsExactly | solden/api/auth.py:948-956 | A pending invite past its expiry is honoured if and only if the call is its addressee's OAuth callback and the seat is below owner |
| Activation.ExpiredInviteIsHonoured | solden/api/auth.py:1559-1570 | A concrete expired team invite is refused with a password and honoured by the callback |
| Activation.NewestOwnerExactly | scripts/provision_customer_activation.py:37-45 | The owner lookup finds nobody exactly when there is no active owner, and otherwise the address of one |
| Activation.RefusalChangesNothing | solden/api/auth.py:210-233 | A refused call leaves users and invites as they were, and the organisations too unless it was provisioning |
| ActivationOutcomes.AcceptInviteExactly | solden/api/auth.py:1557-1601 | Accepting a team invite is done if and only if it is pending, unexpired, below owner and to a provisioned organisation, and there is a row or a password |
| ActivationOutcomes.AcceptInviteHonours | solden/api/auth.py:1590-1601 | Done, it leaves the addressee's one row active in the invite's organisation with the invite's seat and token, archived or elsewhere before, marks the invite accepted by that row, and changes nothing else |
| ActivationOutcomes.ActivationExactly | solden/api/auth.py:1431-1479 | Password activation is done if and only if the token is an owner link that is pending, unexpired and provisioned, nobody else owns the organisation, the addressee is not bound elsewhere, and there is a row or a password |
| ActivationOutcomes.ActivationHonours | solden/api/auth.py:1460-1485 | Done, it seats the addressee as owner, marks the link and changes nothing else |
| ActivationOutcomes.InvitedCallbackExactly | solden/api/auth.py:941-984 | A callback with a pending invite is done if and only if it is the addressee's and, for an owner link, the link can be honoured |
| ActivationOutcomes.InvitedCallbackHonours | solden/api/auth.py:977-1003 | Done, it seats the addressee as the invite says, marks the invite and changes nothing else |
| ActivationOutcomes.UninvitedCallbackExactly | solden/api/auth.py:957-987 | A callback without a pending invite is done for every address: a known row comes back active and otherwise unchanged, a new one is an owner of an organisation with at most one row and a member of any other |
| ActivationOutcomes.ExtensionExactly | solden/api/gmail_extension.py:999-1036 | The extension leaves a known address alone, inserts a new one in its domain's organisation, and refuses every other |
| ActivationOutcomes.ResolveExactly | solden/api/auth.py:957-975 | A sign-in without an invite lands in the first organisation registered for its domain, or unprovisioned |
| ActivationOutcomes.OrgByDomainExactly | solden/core/stores/auth_store.py:379-393 | An organisation is found for a domain if and only if one is registered, and it is the first |
| ActivationOutcomes.EnsureOrgExactly | solden/core/stores/auth_store.py:478-494 | An organisation is registered once, keeping what was there |
| ActivationOutcomes.SetRoleExactly | solden/api/auth.py:709-750 | Setting a role is done if and only if a plain administrator gives a colleague one of three roles; it writes token and seat of that row only |
| ActivationOutcomes.UpdateUserExactly | solden/api/auth.py:594-650 | An update is done if and only if it is one's own or an administrator's, in one organisation, and with a role only an administrator's; it writes token and seat only |
| ActivationOutcomes.DeleteUserExactly | solden/api/auth.py:654-705 | Archiving is done if and only if a plain administrator archives another user of the organisation; the row loses its active flag only |
| ActivationOutcomes.DeactivateExactly | solden/api/team_offboarding.py:107-166 | Deactivation is done if and only if a manager deactivates a colleague who is not the last owner by token |
| ActivationOutcomes.ReactivateExactly | solden/api/team_offboarding.py:169-200 | Reactivation is done if and only if a manager reactivates a user of the organisation; the row gains its active flag only |
| ActivationOutcomes.InviteUserExactly | solden/api/auth.py:754-811 | A team invite is made if and only if by an administrator, for a known token below owner and an address without a row |
| ActivationOutcomes.ProvisionExactly | scripts/provision_customer_activation.py:79-108 | Provisioning is refused if and only if the newest owner has another, non-blank address; done, a pending owner link is there |
| ActivationOutcomes.SeatsOfTokens | solden/core/auth.py:650-683 | Which stored tokens mean which seat, and which have administrator access |
| Activation.RivalLinksRefused | solden/api/auth.py:187-199 | While an active owner has another address, an owner link is refused on the password path and on both callbacks |
| Activation.ActivationCrownsAddressee | solden/api/auth.py:1431-1495 | After an honoured activation the rows that actively own the organisation are exactly those with the link's address, and there is one |
| Activation.Workspace.ActiveOwnerEmail | scripts/provision_customer_activation.py:37-45 | The early-return scan answers the newest active owner's address |
| Activation.Workspace.ExistingPendingActivation | scripts/provision_customer_activation.py:48-57 | The early-return scan answers the newest pending owner link for the address |
| Activation.Workspace.HasConflictingOwner | solden/api/auth.py:187-199 | True exactly when an active owner of the organisation has another address |
| Activation.Workspace.ProvisionLink | scripts/provision_customer_activation.py:60-108 | New state and reply of provisioning: refusal, reuse of a pending link, or a new link |
| Activation.Workspace.AcceptActivationLink | solden/api/auth.py:1431-1495 | New state and reply of password activation |
| Activation.Workspace.Callback | solden/api/auth.py:932-1009 | New state and reply of the OAuth callback, with and without an applicable invite, including insert-then-promote |
| Activation.Workspace.CreateUserFromGoogle | solden/core/auth.py:1247-1302 | Inserting and then promoting leaves exactly the row the sign-in specification names |
| Activation.Workspace.InviteTeammate | solden/api/auth.py:754-811 | New state and reply of a team invite |
| Activation.Workspace.AcceptTeamInvite | solden/api/auth.py:1544-1604 | New state and reply of accepting a team invite |
| Activation.Workspace.SetUserRole | solden/api/auth.py:709-750 | New state and reply of the role endpoint |
| Activation.Workspace.PutUser | solden/api/auth.py:594-650 | New state and reply of the user update endpoint |
| Activation.Workspace.ArchiveUser | solden/api/auth.py:654-705 | New state and reply of archiving a user |
| Activation.Workspace.IsLastActiveOwner | solden/api/team_offboarding.py:61-73 | True exactly when the user is an owner by the legacy role and no other active user of the organisation is |
| Activation.Workspace.Deactivate | solden/api/team_offboarding.py:107-166 | New state and reply of deactivating a user |
| Activation.Workspace.Reactivate | solden/api/team_offboarding.py:169-200 | New state and reply of reactivating a user |
| Activation.Workspace.SignInFromExtension | solden/api/gmail_extension.py:999-1036 | New state and reply of the mail extension's sign-in |
| ExchangeCodes.Ttl | solden/api/auth.py:303-309 | The lifetime is always within 30 to 600 seconds, is the setting when that is in range, and 180 when unreadable |
| ExchangeCodes.RedeemedExactly | solden/core/stores/auth_store.py:179-198 | Over every history with a clock that does not go back, a redemption succeeds if and only if the code was issued, nobody tried it since, and its clamped lifetime has not run out; it returns what the code was issued with |
| ExchangeCodes.AttemptBurns | solden/api/auth.py:367-385 | After any attempt, in time or late, no later attempt on that code ever succeeds |
| ExchangeCodes.IssuerIsUnique | solden/api/auth.py:336-364 | No two calls of a history issue the same code |
| ExchangeCodes.IssueExactly | solden/api/auth.py:336-364 | Issuing is refused if and only if there is no organisation; the code it answers with was nobody's and is outstanding from then on |
| ExchangeCodes.IssueStores | solden/core/stores/auth_store.py:130-208 | Issuing drops exactly the codes that have run out and adds the new one for its clamped lifetime |
| ExchangeCodes.ConsumeExactly | solden/api/auth.py:367-385 | A late code is refused as expired and an unknown one as invalid; the code is gone and no other is |
| ExchangeCodes.StoredIsOutstanding | solden/core/stores/auth_store.py:130-177 | Whatever is stored was issued by a call of the history and has not been tried since |
| ExchangeCodes.OutstandingIsStored | solden/core/stores/auth_store.py:200-208 | Purging drops only codes that have run out |
| ExchangeCodes.CodeStore.IssueAuthCode | solden/api/auth.py:336-364 | New table and reply of issuing: purge, refuse without an organisation, or store |
| ExchangeCodes.CodeStore.ConsumeAuthCode | solden/api/auth.py:367-385 | New table and reply of consuming: the row goes before its expiry is looked at |
| OneShot.SoundOverRuns | solden/core/stores/auth_store.py:179-198 | Over every run of overlapping calls, any two calls that found one token open overlap: each read it before the other closed it |
| OneShot.StepDoes | solden/core/stores/auth_store.py:179-198 | What each single step does to the open tokens and the claims |
| OneShot.GrantedOnceExactly | solden/core/stores/auth_store.py:1400-1429 | Over every run of overlapping calls a code or invite is granted at most once if and only if no two calls that grant it overlap |
| OneShot.ClaimedOnceExactly | solden/core/stores/auth_store.py:179-198 | Over every run no token is claimed twice if and only if no step reads one that a call has read and not yet closed |
| OneShot.OneCodeGrantsTwice | solden/core/stores/auth_store.py:185-191 | A concrete run in which two calls select one code before either deletes it, and both redeem it |
| SignedState.DecodeEncode | solden/api/auth.py:284-300 | The lenient decoder undoes the padded base64url encoder at every length |
| SignedState.EncodeShape | solden/api/auth.py:284-287 | An encoded body never contains the separator and is padded to whole groups |
| SignedState.UnsignSign | solden/api/auth.py:284-300 | Unsigning a signed payload returns it exactly while it is at most 900 seconds old (or carries no time), and is refused as expired otherwise |
| SignedState.AcceptedIsSigned | solden/api/auth.py:290-296 | Every accepted string is a dot-free body followed by a dot and that body's own digest |
| SignedState.AcceptedExactly | solden/api/auth.py:290-300 | A string is accepted as a payload if and only if it is a dot-free body with its own digest, and the body decodes and loads to that payload in time |
| SignedState.RefusedExactly | solden/api/auth.py:290-296 | A string is refused as malformed if and only if it has no dot, and for its signature if and only if what follows its first dot is not the digest of what precedes it |
| SignedState.DecodeIsLenient | solden/api/auth.py:290-297 | Characters outside the alphabet are skipped wherever they stand in a body |
| SignedState.SignatureIsForced | solden/api/auth.py:290-296 | Nothing but the digest of the body is accepted behind it |
| SignedState.SignIsInjective | solden/api/auth.py:284-287 | Distinct payloads get distinct states |
| ApiKeys.ValidateScopes | solden/api/api_keys.py:117-136 | The two loops return the first unknown token, or the cleaned tokens at their first positions |
| ApiKeys.ScopesAccepted | solden/api/api_keys.py:117-130 | A list is accepted if and only if every token is blank or in the catalog, and then no token is lost |
| ApiKeys.FirstOccurrencesMeaning | solden/api/api_keys.py:130-136 | De-duplication repeats nothing, loses nothing and keeps the order of first appearance |
| ApiKeys.StepKeepsLineages | solden/api/api_keys.py:215-270 | Every call keeps lineages sound: links point back, each key stands for its root's identity, one active key per lineage |
| ApiKeys.LineagesOverRuns | solden/api/api_keys.py:149-288 | Over every run each rotation lineage has at most one active key, with the root's organisation, label, scopes, agent, version and expiry |
| ApiKeys.RevokedForever | solden/core/stores/auth_store.py:852-871 | Over every run no row disappears and a revoked key is never active again |
| ApiKeys.RotateHandsOver | solden/api/api_keys.py:226-270 | After a rotation the new key is the only active one of its lineage and stands for the same root |
| ApiKeys.CreateAdds | solden/core/stores/auth_store.py:692-742 | Creating adds one active key with the identity asked for, and touches no other |
| ApiKeys.RevokeExactly | solden/api/api_keys.py:274-288 | A revocation is refused if and only if the organisation has no such key; done, the key is inactive, the answer says whether it was active, and no other row changes |
| ApiKeys.RotateExactly | solden/api/api_keys.py:215-270 | A rotation is done if and only if the key is the organisation's and active; it revokes it and adds one active key with its identity, linked to it |
| KeyRotation.UndisturbedIsRotate | solden/api/api_keys.py:215-270 | The three steps of a rotation with nothing in between are the atomic rotation |
| KeyRotation.StepDoes | solden/api/api_keys.py:215-270 | What each single step does to the keys and the rotations under way |
| KeyRotation.StepKeepsOneActive | solden/api/api_keys.py:236-262 | One step of overlapping calls keeps one active key per lineage if and only if it does not issue for a rotation overtaken since it began |
| KeyRotation.OneActiveOverRuns | solden/api/api_keys.py:215-270 | Over every run of overlapping calls each lineage always has at most one active key if and only if no rotation issues while a key of its lineage issued since it began is active |
| KeyRotation.OvertakenByRotation | solden/api/api_keys.py:236-262 | The overtaking key was itself issued by a rotation |
| KeyRotation.TwoRotationsLeaveTwoKeys | solden/api/api_keys.py:226-262 | A concrete run of two overlapping rotations leaves two active keys in one lineage |
| ApiKeys.ApiKeyStore.CreateApiKey | solden/api/api_keys.py:149-187 | A refused scope list changes nothing; otherwise exactly one active key with the cleaned scopes is added |
| ApiKeys.ApiKeyStore.RotateApiKey | solden/api/api_keys.py:215-270 | New table and reply of a rotation |
| ApiKeys.ApiKeyStore.RevokeApiKey | solden/api/api_keys.py:274-288 | New table and reply of a revocation |
| RouteProfile.PrefixTestOnSegments | main.py:1109-1112 | The string prefix test is the prefix test on path segments |
| RouteProfile.InstancesListedExactly | main.py:1068-1112 | The tables list every instance of a route template if and only if they list the template without help from brace-carrying text |
| RouteProfile.UnlistedInstanceNeedsBraceText | main.py:1004-1009 | If a listed template has an instance the tables do not list, then an entry, a pattern segment or a prefix carrying a placeholder lists that template |
| RouteProfile.RootedKeptExactly | main.py:1139-1150 | The startup pass keeps a route with a leading slash, under any flags, if and only if it is gated or listed |
| RouteProfile.SwitchedInstanceExactly | main.py:1073-1084 | Some instance of a template is switched off if and only if a gated entry or prefix whose flag is off meets the template |
| RouteProfile.ServedExactly | main.py:1246-1259 | The guard serves all instances of a template if and only if it is listed plainly and no switched-off gate meets it |
| RouteProfile.ListedSomewhereExactly | main.py:1086-1112 | Some request to a template is listed if and only if an entry, a pattern or a prefix meets the template segment by segment |
| RouteProfile.AdmittedSomewhereExactly | main.py:1068-1112 | The guard admits some request to a template if and only if it admits one of finitely many samples, with values from the tables, one word and one hash they do not mention; with all features on, if and only if a listing meets the template |
| RouteProfile.PassesAgreeExactly | main.py:1132-1159 | For all flags at startup and at the request, on every request to a route with a leading slash the guard admits it if and only if startup kept the route, exactly when the route is neither kept by its gate alone, nor listed by braces alone, nor listed with a switched-off gate in its way, nor dropped while the guard admits one of its samples |
| RouteProfile.BoxRouteIsDroppedButMet | solden/api/ap_items_read_routes.py:444-446 | The box route is dropped at startup under all flags, and the guard admits its request for an item named `vendors` |
| RouteProfile.TeamsRouteIsGatedOnly | main.py:1058-1065 | Any route below the Teams prefix other than the interactive one is kept under all flags and served under none |
| RouteProfile.InteractiveFollowsItsFlag | main.py:845-849 | The interactive Teams route is listed plainly and served if and only if the feature is on |
| RouteProfile.GuardServesInstances | main.py:1068-1112 | For a plainly listed template the guard admits an instance exactly when that very path is not switched off |
| RouteProfile.SagePanelDisagrees | main.py:660-663 | A kept template and a request to it that no table admits |
| RouteProfile.ErpReferenceAgrees | main.py:664-667 | The patterns admit every instance of the by-erp-reference entry |
| RouteProfile.OriginalsRouteDisagrees | main.py:1003-1010 | The content-hash route is kept at startup and admits a request segment if and only if it is a 64-digit hash, the placeholder itself, or the word that another pattern matches |
| RouteProfile.FlagsTouchGatedPathsOnly | main.py:1047-1084 | Two flag settings differ only on listed paths that are gated |
| RouteProfile.KeptExactly | main.py:1132-1159 | Whether a route stays mounted is independent of the flags exactly when it is not a listed, gated path without a leading slash |
| RouteProfile.TableDependsOnOriginalOnly | main.py:1132-1159 | After any interleaving of profile applications and flag flips the mounted table is the selection from the original table |
| RouteProfile.MountedTableExactly | main.py:1132-1159 | After any run with an application of the profile, the mounted table is the original one, in order and with multiplicity, without exactly the routes that have a path and are neither gated nor listed |
| RouteProfile.ApplyMountsExactly | main.py:1139-1150 | One application mounts so from the saved original, under any flags, and leaves the flags alone |
| RouteProfile.SlashIsSupplied | main.py:1071 | A path without its leading slash is judged as if it had one |
| RouteProfile.App.ApplyRuntimeSurfaceProfile | main.py:1132-1159 | The loop saves the original once and mounts exactly the selection from it |
| Scorecard.RoundsToOne | scripts/evaluate_invoice_extraction.py:314-346 | A ratio of at most one rounds to 1.0000 exactly when it misses one by at most half a place |
| Scorecard.RoundIsNearest | scripts/evaluate_invoice_extraction.py:331 | Rounding gives the nearest integer, and the even one of two equally near; only one is |
| Scorecard.ScoreIsNearest | scripts/evaluate_invoice_extraction.py:314-331 | A case's score is the matched share of the compared weight to four places, and zero with nothing compared |
| Scorecard.WeighingExactly | scripts/evaluate_invoice_extraction.py:321-329 | One more comparison adds its field's weight to the compared weight, and to the matched weight if and only if it matches |
| Scorecard.Weights | scripts/evaluate_invoice_extraction.py:37-68 | The six weights |
| Scorecard.PartialScore | scripts/evaluate_invoice_extraction.py:331 | A concrete partial match scores 0.8462 |
| Scorecard.SummaryIsNearest | scripts/evaluate_invoice_extraction.py:247-258 | Overall score, perfect rate and every field accuracy are the mean, the share and the share of hits, to four places; a field has an accuracy if and only if it was compared |
| Scorecard.TallyCounts | scripts/evaluate_invoice_extraction.py:236-245 | Sizes, perfect cases, totals and hits are numbers of reports |
| Scorecard.RatingExactly | scripts/evaluate_invoice_extraction.py:204-227 | What each rank of the rating takes |
| Scorecard.GatePassesExactly | scripts/evaluate_invoice_extraction.py:456-487 | What passing a gate takes, on the selected cases and their summary |
| Scorecard.SelectedExactly | scripts/evaluate_invoice_extraction.py:423-442 | A gate selects exactly the named cases, or those its test accepts, in order and each once |
| Scorecard.FiledExactly | scripts/evaluate_invoice_extraction.py:351-353 | A report is filed under a vendor if and only if it is that vendor's, or has none and the vendor is UNKNOWN |
| Scorecard.ScoreIsOneExactly | scripts/evaluate_invoice_extraction.py:314-346 | A case's rounded score is 1.0 if and only if it has expected fields and all of them matched |
| Scorecard.PerfectExactly | scripts/evaluate_invoice_extraction.py:204-268 | The rating is perfect if and only if the dataset is non-empty and at most one case in 20000 fell short |
| Scorecard.PerfectHidesNothingBelow20000 | scripts/evaluate_invoice_extraction.py:204-268 | Below 20000 cases, perfect means every expected field of every case matched |
| Scorecard.PerfectCanHideAMiss | scripts/evaluate_invoice_extraction.py:204-268 | For every size from 20000 up, some dataset with a miss is rated perfect |
| Scorecard.CorrectionNeverHurts | scripts/evaluate_invoice_extraction.py:204-268 | Turning any one mismatch into a match lowers no case score, field accuracy, overall score, perfect rate or rating rank |
| Scorecard.RatingIsMonotone | scripts/evaluate_invoice_extraction.py:204-227 | The rating cascade is monotone in every number it reads |
| Scorecard.CorrectionKeepsGate | scripts/evaluate_invoice_extraction.py:423-498 | A regression gate over the cases it selects passes still after any correction anywhere in the dataset |
| Scorecard.CorrectionSelected | scripts/evaluate_invoice_extraction.py:423-442 | A correction shows among the cases a gate selects as one correction, or not at all |
| Scorecard.UncriticalThresholdFails | scripts/evaluate_invoice_extraction.py:474-480 | A positive threshold on a field that is not critical fails every dataset |
| Scorecard.VendorsPartition | scripts/evaluate_invoice_extraction.py:351-384 | Sizes, hits, totals, scores and perfect cases summed over the vendors equal those of the dataset |
| Scorecard.ScoreCase | scripts/evaluate_invoice_extraction.py:314-346 | The accumulator loop computes the specified report of a case |
| Scorecard.Summarize | scripts/evaluate_invoice_extraction.py:230-268 | The counter loops compute the specified summary |
| Scorecard.GroupByVendor | scripts/evaluate_invoice_extraction.py:351-360 | Grouping files every report under exactly its vendor, in dataset order |
| Scorecard.EvaluateCases | scripts/evaluate_invoice_extraction.py:296-384 | The reports, the summary, and vendor cards that partition the reports and whose parts add up for every measure |
| Recalibration.RecordAfterCommit | scripts/recalibrate_confidence_gate.py:209-248 | What a committed run does to a considered record: blocked ones keep in review with the gate's fields, cleared ones leave exactly when no surviving mark holds them, unrelated codes survive |
| Recalibration.CommitSettles | scripts/recalibrate_confidence_gate.py:311-371 | The same for every record of the organisation that fewer of its rows precede than the limit allows |
| Recalibration.CommitWrites | scripts/recalibrate_confidence_gate.py:308-371 | A committed run rewrites exactly the records within the limit |
| Recalibration.RecordBecomes | scripts/recalibrate_confidence_gate.py:209-248 | What a considered record's every field becomes, by verdict and old row |
| Recalibration.ListedExactly | solden/core/stores/ap_store.py:1665-1709 | The records considered are exactly the organisation's newest, up to the limit, in listing order |
| Recalibration.LimitExactly | solden/core/stores/ap_store.py:1674 | The batch is the limit asked for, brought into 1 to 10000, and 200 when none is |
| Recalibration.OutcomesExactly | scripts/recalibrate_confidence_gate.py:311-371 | There is one outcome for each listed record in review, in order, with its decision and the old and new blocking fields, and no other |
| Recalibration.AuditAdds | scripts/recalibrate_confidence_gate.py:251-289 | A committed run logs only decisions on listed, evaluated records, each as it was and under a new key |
| Recalibration.MarksExactly | scripts/recalibrate_confidence_gate.py:135-145 | A record is in review if and only if one of four marks says so |
| Recalibration.SecondCommitIsIdle | scripts/recalibrate_confidence_gate.py:292-373 | A second committed run changes no row beyond its time stamp, adds no audit event and reports no shifted blockers |
| Recalibration.OthersAreUntouched | scripts/recalibrate_confidence_gate.py:311-330 | Records outside the listing, out of review or without field confidences are untouched |
| Recalibration.AuditCovers | scripts/recalibrate_confidence_gate.py:251-289 | The log only grows, and every evaluated record is accounted for under its key |
| Recalibration.AuditIsComplete | solden/core/stores/ap_store.py:2500-2530 | A log that already holds every key does not grow |
| Recalibration.ListedOnce | solden/core/stores/ap_store.py:1665-1709 | A listing holds only rows of the organisation, each at most once |
| Recalibration.Store.Recalibrate | scripts/recalibrate_confidence_gate.py:292-373 | A dry run changes nothing and reports the same outcomes as a committed run, whose new state is the specified one |
| Recalibration.Store.ApplyClear | scripts/recalibrate_confidence_gate.py:209-231 | The field-by-field update leaves exactly the cleared record |
| Recalibration.Store.ApplyBlockersChanged | scripts/recalibrate_confidence_gate.py:234-248 | The field-by-field update leaves exactly the re-blocked record |
| ThreadLinks.LinksAdded | solden/core/stores/ap_store.py:2161-2228 | A call only adds source rows, each under the guard of its branch |
| ThreadLinks.StepKeepsLinksUnique | solden/api/ap_items_action_routes.py:646-852 | Every call keeps threads and drafts unique within each organisation |
| ThreadLinks.LinksUniqueOverRuns | solden/api/ap_items_action_routes.py:646-955 | Over every run, within an organisation at most one item carries a thread and at most one holds a draft |
| ThreadLinks.FirstCarrierKeepsThread | solden/core/stores/ap_store.py:1515-1537 | The first item to carry a thread carries it, and is the lookup's answer, for the rest of the run |
| ThreadLinks.CreateAddsExactlyWhenUnlinked | solden/api/ap_items_action_routes.py:870-955 | Creating from compose adds an item if and only if neither draft nor thread is linked in the organisation, and changes nothing otherwise |
| ThreadLinks.CreateAnswersTheHolder | solden/api/ap_items_action_routes.py:870-955 | The item answered is the organisation's and is linked to the draft or the thread |
| ThreadLinks.GmailLinkExactly | solden/api/ap_items_action_routes.py:646-689 | A Gmail link is done if and only if the item is the organisation's, the thread is named, and no other item is the newest to carry it; it sets the column, adds the links and changes nothing else |
| ThreadLinks.ComposeLinkExactly | solden/api/ap_items_action_routes.py:755-806 | A compose link is done if and only if the item is the organisation's, no other item of any organisation holds the draft, and no other is the newest to carry the thread; it adds the links and changes nothing else |
| ThreadLinks.ComposeCreateExactly | solden/api/ap_items_action_routes.py:870-955 | A new record has the organisation, thread and links asked for; an old one answers for the draft first, then the thread |
| ThreadLinks.ItemByDraft | solden/core/stores/ap_store.py:2299-2318 | The lookup finds an item of the organisation that holds the draft, and nothing exactly when there is none |
| ThreadLinks.ItemStore.LinkGmailThread | solden/api/ap_items_action_routes.py:646-736 | New items, source rows and reply of the Gmail link endpoint |
| ThreadLinks.ItemStore.LinkComposeDraft | solden/api/ap_items_action_routes.py:740-852 | New items, source rows and reply of the compose link endpoint |
| ThreadLinks.ItemStore.CreateComposeRecord | solden/api/ap_items_action_routes.py:856-1007 | New items, source rows and answer of the compose create endpoint |
| LinkRaces.UndisturbedIsStep | solden/api/ap_items_action_routes.py:646-955 | Checks and writes with nothing in between are the endpoint |
| LinkRaces.NextDoes | solden/api/ap_items_action_routes.py:646-955 | Checks that pass leave a pending call, and a pending call writes once |
| LinkRaces.EffectKeepsUnique | solden/api/ap_items_action_routes.py:662-689 | The writes of a call keep links unique if and only if no source row of that moment gives its thread or draft to another item of the organisation |
| LinkRaces.PassingIsClear | solden/api/ap_items_action_routes.py:870-890 | Checks that pass leave nothing to clash with at that moment |
| LinkRaces.NextKeepsUnique | solden/api/ap_items_action_routes.py:755-806 | One step of overlapping calls keeps links unique if and only if it does not write for a call overtaken since its checks |
| LinkRaces.UniqueOverRaces | solden/api/ap_items_action_routes.py:646-955 | Over every run of overlapping calls links stay unique within each organisation if and only if no call writes after a rival row was written since its checks |
| LinkRaces.TwoRecordsForOneThread | solden/api/ap_items_action_routes.py:884-928 | A concrete race in which two calls both find a thread free and both create a record for it |
| BulkOps.BatchConservesResults | solden/api/ap_items_action_routes.py:2071-2156 | One row per requested id in request order; succeeded plus failed is the total, and nothing failed exactly when every row is ok |
| BulkOps.CallsAreOwned | solden/api/ap_items_action_routes.py:2060-2067 | Every runtime call is for a requested item that belonged to the caller's organisation at that moment |
| BulkOps.TurnExactly | solden/api/ap_items_action_routes.py:2085-2106 | An item reaches the runtime, with the request's own kind, organisation and id, if and only if the organisation owns it and a retry finds it failed; otherwise nothing happens and its row says why |
| BulkOps.RowTellsOutcome | solden/api/ap_items_action_routes.py:2107-2140 | A row is ok if and only if the runtime answered with a status of success of its endpoint; a raised error is told in its row |
| BulkOps.SnoozeRefusalTells | solden/api/ap_items_action_routes.py:2310-2340 | Which reason a refused snooze gives |
| BulkOps.BatchTakesTurns | solden/api/ap_items_action_routes.py:2080-2156 | Each id has its turn in the world its predecessors left |
| BulkOps.SuccessesCount | solden/api/ap_items_action_routes.py:2141-2151 | The succeeded count is the number of ok rows |
| BulkOps.UnreplayedRuns | solden/core/idempotency.py:66-111 | A request that is not replayed runs its batch, answers with its rows and overwrites nothing saved |
| BulkOps.ForeignIdsNeverReachRuntime | solden/api/ap_items_action_routes.py:2060-2067 | If the runtime re-homes nothing, no id foreign at the start reaches it |
| BulkOps.RowsAreIndependent | solden/api/ap_items_action_routes.py:2160-2238 | With distinct ids and a runtime local to its item, each row is what that item alone would have got |
| BulkOps.FailureIsContained | solden/api/ap_items_action_routes.py:2242-2351 | A failure of one item leaves every other row as it was |
| BulkOps.RepeatIsReplayedExactly | solden/core/idempotency.py:40-111 | A repeated request gets the first response and makes no call if and only if its key is unpadded or already saved as given, and no unrelated event holds it |
| BulkOps.PaddedKeyRunsTwice | solden/core/idempotency.py:40-111 | A concrete request repeated under a key with a leading blank reaches the runtime twice |
| BulkOps.ReplyAnswersRequestExactly | solden/core/idempotency.py:40-63 | A response lists the ids asked for if and only if it is no replay or the stored response was for the same ids |
| BulkOps.SharedKeyCrossesCallers | solden/api/ap_items_action_routes.py:2080-2083 | A second caller with the same key, of whatever organisation, endpoint and ids, is answered for its own ids if and only if it is not replayed, or asked for the ids of the first response |
| BulkOps.FreshKeyIsShared | solden/core/idempotency.py:40-111 | Under a fresh, unpadded key a second caller, asking for anything, is given the first caller's rows |
| BulkOps.SharedKeyAnswersWithOthersRows | solden/core/idempotency.py:40-63 | A concrete caller of another organisation, asking for no ids, is given the first caller's row |
| BulkOps.BulkService.TakeTurn | solden/api/ap_items_action_routes.py:2355-2438 | One item's turn in the loop: new items, call log and row |
| BulkOps.BulkService.RunAll | solden/api/ap_items_action_routes.py:2080-2156 | The loop leaves the specified world, rows and success count |
| BulkOps.BulkService.RunBulk | solden/api/ap_items_action_routes.py:2071-2156 | New state and reply of a bulk endpoint with its idempotency key |
| BoxProjection.AccountedOverRuns | solden/core/stores/box_lifecycle_store.py:141-381 | At every moment of every run the tables show exactly what the log tells, what is owed to it, and what was lost, each fact in one of the three |
| BoxProjection.ResolveDoes | solden/core/stores/box_lifecycle_store.py:268-306 | After resolving a raised exception it is resolved, nothing else in the box changes, and its event is owed if and only if it was not resolved before |
| BoxProjection.RaiseDoes | solden/core/stores/box_lifecycle_store.py:178-215 | Raising adds one exception under an unused number with its code, and owes its event |
| BoxProjection.RecordDoes | solden/core/stores/box_lifecycle_store.py:632-675 | The first outcome recorded stays, and its event is owed |
| BoxProjection.MoveDoes | solden/core/stores/ap_store.py:446-576 | A transition moves the state and appends its event in one step |
| BoxProjection.TellingDoes | solden/core/stores/box_lifecycle_store.py:217-245 | An owed event comes or is lost; a resolution may be told again |
| BoxProjection.ProjectingDoes | solden/services/box_projection.py:287-344 | A projector starts a draft, makes one query at a time, and stores its row once all six are made |
| BoxProjection.TablesFoldExactly | solden/core/stores/box_lifecycle_store.py:608-715 | The tables are the fold of the box's whole log if and only if no write is without its event |
| BoxProjection.FaithfulOverRuns | solden/services/box_projection.py:287-344 | Over every run of overlapping projectors and writers, what a draft or the stored row holds is what each of the six queries saw at its own moment, in order |
| BoxProjection.ServedExactly | solden/api/ap_items_read_routes.py:549-573 | A row is served if and only if the log is what it was at the row's last query, and not empty |
| BoxProjection.AnswerRightExactly | solden/api/ap_items_read_routes.py:472-546 | An answer of the read endpoint comes from the projection if and only if no fresh read is asked for and the row may be served, and it is right, whatever states the transitions move to, if and only if its tables were not written since they were read |
| BoxProjection.StaleExactly | solden/api/ap_items_read_routes.py:549-573 | A row is refused if and only if it names no event, or another than the newest there is |
| BoxProjection.ExceptionsCurrentExactly | solden/core/stores/box_lifecycle_store.py:383-414 | Exceptions read earlier are current if and only if none was raised or resolved since |
| BoxProjection.OutcomeCurrentExactly | solden/core/stores/box_lifecycle_store.py:608-660 | An outcome read earlier is current if and only if none was recorded since |
| BoxProjection.GatheredRightExactly | solden/services/box_projection.py:316-321 | A view gathered at three moments is the box's at a later one, whatever states the transitions move to, if and only if no table was written since it was read |
| BoxProjection.ServedRightExactly | solden/api/ap_items_read_routes.py:472-508 | A served row is right at its check, whatever states the transitions move to, if and only if no transition came since its first query, no exception write since its third and no outcome since its fourth |
| BoxProjection.LiveRightExactly | solden/api/ap_items_read_routes.py:510-533 | A live read is right at its last query if and only if the same holds between its own queries; made at one moment it always is |
| BoxProjection.ReadsFoldTheLog | solden/api/ap_items_read_routes.py:472-546 | A read whose tables were not written since is the fold of the whole log if and only if no write is without its event |
| BoxProjection.CurrentPreviewIsRight | solden/services/box_projection.py:348-367 | When a served row's preview starts with the newest event and every write has its event, exceptions and outcome are current, and the row is right if and only if no transition fell between the first two queries |
| BoxProjection.HiddenWriteIsServed | solden/core/stores/box_lifecycle_store.py:178-241 | After any served read, an exception whose event never comes leaves the same row and log, served again and wrong |
| BoxProjection.WrongUntilNextEvent | solden/api/ap_items_read_routes.py:549-573 | A wrong list of exceptions stays served and wrong until the next event |
| BoxProjection.TornRowIsServed | solden/services/box_projection.py:316-321 | A concrete run stores and serves the first event's state beside the third event's exception, which no prefix of the log folds to |
| BoxProjection.TimelinesAgreeExactly | solden/services/box_projection.py:348-367 | Served and live timelines agree if and only if the box has one event and the preview shows it |
| BoxProjection.TwoEventTimelinesDiffer | solden/services/box_projection.py:348-367 | A concrete box with two events whose served timeline is the reverse of the live one |
| LaunchTracker.ParseRender | scripts/validate_launch_evidence.py:60-99 | Parsing any header-free text followed by a rendered tracker returns exactly the rendered entries, for distinct ids, trimmed backtick-free status and owner, and colon-free unreserved artifact keys |
| LaunchTracker.TrackerWordsAreWellWorded | scripts/validate_launch_evidence.py:77-86 | The tracker's own three key words meet the condition the round trip needs of key words |
| LaunchTracker.ClaimedExactly | scripts/validate_launch_evidence.py:77-86 | A dash line is claimed by a key exactly when the text before its first colon is that key's word |
| LaunchTracker.ParseRenderExactly | scripts/validate_launch_evidence.py:60-99 | For header-free text before the first entry and distinct item ids, the rendered entries come back, and nothing else, if and only if every status and owner is trimmed and backtick-free and every artifact has a colon-free unreserved key and a trimmed value |
| LaunchTracker.ColonKeyIsLost | scripts/validate_launch_evidence.py:87-93 | A concrete entry whose artifact key carries a colon does not come back |
| LaunchTracker.ArtifactLineExactly | scripts/validate_launch_evidence.py:87-93 | A rendered artifact line is read as a link with its own value if and only if its key has no colon and is not reserved and its value is trimmed |
| LaunchTracker.KeyValueExactly | scripts/validate_launch_evidence.py:35-37 | A quoted status or owner is read back if and only if it is trimmed and free of backticks |
| LaunchTracker.SectionReadsBack | scripts/validate_launch_evidence.py:68-99 | An entry's section changes no item but its own |
| LaunchTracker.TakeLine | scripts/validate_launch_evidence.py:68-97 | The loop body moves the parser's three variables as the specification of a line says |
| LaunchTracker.LineDoes | scripts/validate_launch_evidence.py:75-97 | What each kind of line does to the item under the last header, and to the links it opens or closes |
| LaunchTracker.HeaderExactly | scripts/validate_launch_evidence.py:67 | A line is a header if and only if, trimmed, it is three hashes, blanks and an id |
| LaunchTracker.BlankLinesDoNotMatter | scripts/validate_launch_evidence.py:87-97 | Blank lines change nothing, anywhere in any text |
| LaunchTracker.BacktickExactly | scripts/validate_launch_evidence.py:35-37 | The first pair of backticks with something between them gives the value |
| LaunchTracker.ArtifactValueExactly | scripts/validate_launch_evidence.py:89-92 | An artifact's value is what follows the first colon, trimmed, without enclosing backticks |
| LaunchTracker.BacktickValueOf | scripts/validate_launch_evidence.py:35-37 | The value of a quoted text is that text |
| LaunchTracker.EvidencedExactly | scripts/validate_launch_evidence.py:131-158 | An item has no problems if and only if it is done, owned, and all its links are set and found |
| LaunchTracker.ProblemsExactly | scripts/validate_launch_evidence.py:131-158 | Each problem is reported if and only if the item has it |
| LaunchTracker.PassesExactly | scripts/validate_launch_evidence.py:23-24 | A release passes if and only if the manifest exists and no required item has a problem; the required items of both modes |
| LaunchTracker.GaPassIsPilotPass | scripts/validate_launch_evidence.py:23-24 | A release that passes in GA mode also passes in pilot mode |
| LaunchTracker.ParseLaunchTrackerItems | scripts/validate_launch_evidence.py:60-99 | The line loop with carried state computes the specified items |
| LaunchTracker.ValidateRelease | scripts/validate_launch_evidence.py:113-193 | One result per required item, in order, with exactly its problems; passed if and only if each is evidenced and the manifest exists |
| BrandCrop.ContentBoxBounds | scripts/brand/crop_brand_assets.py:64-74 | No box comes back exactly for an image without content; otherwise the box holds all content and each side touches some |
| BrandCrop.VisibleExactly | scripts/brand/crop_brand_assets.py:38-45 | A pixel is content if and only if its alpha is at least 128 |
| BrandCrop.BoundsAreUnique | scripts/brand/crop_brand_assets.py:64-74 | Only one box bounds the content |
| BrandCrop.MarginIsNearest | scripts/brand/crop_brand_assets.py:98-99 | The margin is strictly nearer to 4% of the larger side than any other integer, so ties cannot occur |
| BrandCrop.PaddingIsCapped | scripts/brand/crop_brand_assets.py:100-103 | The crop lies inside the image and keeps, on each side, the margin or all there is |
| BrandCrop.CropKeepsContent | scripts/brand/crop_brand_assets.py:86-104 | Nothing is cropped exactly when nothing is visible; otherwise every pixel at or above the threshold is in the crop, unchanged, at one offset |
| BrandCrop.CropIsIdempotent | scripts/brand/crop_brand_assets.py:86-104 | Cropping a cropped image is the identity |
| BrandCrop.WindowsDoNotMatter | scripts/brand/crop_brand_assets.py:86-104 | Cropping first to any window that leaves room for the margin changes nothing about the result |
| LiveStream.EventGenerator | solden/api/dashboard.py:325-399 | After any number of ticks each channel has sent exactly its payload sequence without immediate repeats, and heartbeats number half the ticks, rounded down |
| LiveStream.ClientIsCurrent | solden/api/dashboard.py:345-389 | The last text sent on a channel is its current payload, and no payload is sent twice in a row |
| LiveStream.Tick | solden/api/dashboard.py:340-399 | One tick sends on each channel exactly on change and counts towards the heartbeat |
| LiveStream.CurrentExactly | solden/api/dashboard.py:340-385 | A channel's payload is its own fetch, or its own fallback |
| LiveStream.ShapeActivityEvents | solden/api/dashboard.py:119-142 | The early-exit loop returns the first kept rows up to the limit |
| LiveStream.KeptExactly | solden/api/dashboard.py:119-142 | The kept rows are exactly those the filter keeps, in order and as often as they occur |
| LiveStream.ShownExactly | solden/api/dashboard.py:100-137 | Which event types are shown |
| LiveStream.LimitExactly | solden/api/dashboard.py:76 | What the limit is brought to |
| LiveStream.RecentActivity | solden/api/dashboard.py:56-94 | The ribbon is the first kept rows of a window six times the clamped limit |
| LiveStream.WindowSufficesExactly | solden/api/dashboard.py:78-90 | For any filter, a window shows what the whole log would show if and only if it fills the limit or nothing older is kept |
| LiveStream.RibbonIsWholeExactly | solden/api/dashboard.py:76-90 | The endpoint shows what the whole log would show if and only if the newest rows, six times the clamped limit, fill it or nothing older is kept |
| LiveStream.NoiseHidesActivity | solden/api/dashboard.py:76-90 | For every limit, a log whose newest rows are all dropped shows nothing although an older row is kept |
| LiveStream.NoiseExists | solden/api/dashboard.py:100-142 | A dropped row and a kept row exist |
| Text.TrimIsTrimmed | scripts/validate_launch_evidence.py:73-75 | Trimming leaves no blank at either end and does nothing to trimmed text |
| Text.CaseExactly | scripts/validate_launch_evidence.py:138-146 | Case changes shift the ASCII letters and leave every other character alone |

## Left out

- Activation.Workspace.Callback: provider subject ids, the profile fetch and the issued session token are not modelled; both providers' callbacks are one method, since they differ only there.
- Activation.Workspace.SignInFromExtension: the extension's two sign-in endpoints are one method; tokens and the code exchange are not modelled.
- Activation.Workspace.Deactivate: revoking the user's API keys is not modelled.
- Activation.Workspace.ArchiveUser: only the archive flag of an offboarding; revoking mail access, chat mappings and entity roles is not modelled.
- Activation.Workspace.ProvisionLink: the script's checks on its arguments (non-blank organisation, an address with an at sign) are left to the caller.
- Activation: seat expiry, offboarding beyond the archive flag, entity and box roles, audit side effects, revoking and listing invites.
- Activation: an organisation lookup by domain answers the first row registered for it; two organisations with one domain are otherwise not looked into.
- ExchangeCodes, SignedState: generating secrets and the strength of the digest; fresh codes are numbers in issue order, the digest and JSON are functions.
- ApiKeys: raw secrets, their hashes, listing, and the use of a key; a rotation is one step there and three in KeyRotation.
- RouteProfile: the full tables; the theorems hold for any tables, and the two families with brace-carrying text and the gated Teams paths are written out. Regular expressions are segment patterns, so the engine's treatment of a trailing newline and path converters that span slashes are out.
- Scorecard: normalising and comparing field values, extraction itself, document-type and layout groups, the order of vendor cards, how a gate compares vendor, document type, sender, subject and layout (any test on them), and floating-point error (numbers are exact before rounding).
- Recalibration: the gate's own arithmetic; the audit key is the item with the multiset of blockers rather than a joined string; store failures.
- LinkRaces: the checks of one call are one step, and so are its writes.
- OneShot: what a grant does, and the checks between read and grant, which only keep a call from granting.
- ThreadLinks: source linking by hand, merge and split of items, metadata notes, and audit entries; rows are never unlinked.
- BulkOps: audit entries other than the idempotency record, snooze bookkeeping, and what the finance runtime does; it is an arbitrary function, restricted only where a lemma says so.
- BoxProjection: the summary text and memory record beside the view, condensing of timeline entries, the vendor projector, history snapshots, rebuilds, and failing reads; events carry the order of their timestamps, any state may be moved to, and repeated raises under one key are no step.
- LaunchTracker.ParseRender: splitting text into lines is not modelled; a tracker is given as its lines, and ids and blanks are ASCII.
- LaunchTracker.ValidateRelease: warnings, working statuses and path normalisation; whether a link names a missing file is a parameter.
- BrandCrop: the solid-background path for images without alpha, files and backups.
- LiveStream: connection handling, byte framing and sleeping; the label, tone and wording of a ribbon row (a row is its id and type).
- The marketing, settings, severity, webhook and seed code, which would only add easy members.
