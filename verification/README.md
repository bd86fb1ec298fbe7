# A verified model of the booking, access, device, import and sign-in cores

This project models the parts of the makerspace platform whose correctness depends on many steps together,
and proves what they promise. Each core has a model on values (tables as maps, one function per decision), a
class or method in the shape of the code that is proved against that model, and theorems about all inputs or
all runs. What each decision is and what it writes is also stated a second time, in terms of the columns,
cells and constants that it depends on, and the two are proved to coincide.

- **Bookings** (`BookingModel`, `BookingDesk`, `BookingEffects`, `BookingHistory`, `BookingProtocol`,
  `BookingTheorems`, `BookingRuns`, `BookingAvailability`). Create, approve, reject, cancel, complete,
  no-show, rule changes and deactivation. `BookingProtocol` splits every transaction into micro-steps (wait
  for the row lock of the space, read the space, the booking, the clock, the conflict query, commit) and
  lets any number of them interleave with stale arguments. A commit is shown to equal the operation run
  atomically, and the invariants follow for every interleaving.
- **Access control** (`Closure`, `Rbac`, `RbacColumns`). The two worklists over an arbitrary, possibly
  cyclic implication relation; the pointwise check, the set query, the login payload and the superadmin
  block, which must agree with each other and with the columns they read.
- **Device tokens** (`DeviceModel`, `DeviceStore`, `DeviceProtocol`, `DeviceTheorems`, `DeviceRevocation`,
  `DeviceHistories`). Rotation under row locks, revocation as a series of separate statements,
  authentication as unlocked reads, interleaved.
- **Bulk import** (`ImportModel`, `ImportMerge`, `ImportRows`, `ImportColumns`, `ImportErrors`,
  `ImportPreview`, `ImportQuota`, `ImportUploads`, `ImportCategories`, `ImportDesk`). Row by row application
  as a merge per product name; normalisation, cell by cell; what the preview announces; the quota asked for;
  categories made while other imports make theirs; preview and apply.
- **Social identities** (`SocialModel`, `SocialOutcomes`, `SocialRuns`, `SocialProtocol`, `SocialHistories`,
  `SocialPlays`, `SocialDesk`). Sign-in, linking and unlinking as single steps, and interleaved statement by
  statement under the row lock of the user.
- **Verification codes** (`OtpModel`, `OtpTimelines`, `OtpRuns`, `OtpDesk`), **unused names**
  (`FreshNames`), **the CSP header** (`CspText`, `CspModel`, `CspRewrite`, `CspClosedForm`, `CspDesk`,
  `CspStandard`, `CspAgreement`) and **the warranty report** (`Paging`, `Warranty`).

Times are microseconds, as the database stores them; a booking covers the half-open interval [start, end).
Keys handed out by the database are parameters that must be unused. A refusal leaves the tables as they
were, because its transaction rolls back, except where the code raises only after the commit (device
rotation, wrong verification codes), and there the model keeps the writes.

Five claims one might expect are not true of the code, and the project says exactly what is:

- Completed and no-show bookings may overlap a booking confirmed later. `NaiveClaimFails` builds such a run,
  `NaiveClaimHoldsIff` and `RunSatisfiesNaiveClaimIff` give the exact condition for one call and for whole
  runs, and `HeldMeetOnlyBeforeConfirmation` bounds the overlap in every run.
- An authentication that has read its grant just before the revocation may succeed just after it
  (`EarlyReadStillAuthenticates`); `AuthenticatesAfterwardsIff` says exactly which ones do.
- The CSP parser keeps the case of directive names, the last of several directives with one name, parts that
  are not ASCII, and splits words at characters that are not ASCII whitespace, where section 2.2.1 of CSP
  Level 3 does none of this. `AgreesWithStandardIff` and `AgreesOnDistinctLowercaseIff` state when the
  results coincide, and `RepeatedNameExample`, `UppercaseNameDiffers` and `OtherTextDiffers` where they do
  not.
- The import preview labels every row of a new name as a creation (`PreviewOvercounts`,
  `TwoSawsMakeOneProduct`); `CreatedAsAnnouncedIff` says exactly when its count is that of the application.
- The quota that an import asks for is not always the number of products it creates. Rows named true and 1
  are one name when it counts and two products when it writes (`SomeUploadAsksTooLittle`), and a number is
  counted although its product exists (`NumberAsksForNothingNew`). `CreatedBeyondQuotaIff` says exactly when
  more is created than was asked for, never by more than one, and `CreatedAsAskedIff` when it is the same.

A lookup of a category followed by an insertion is not protected either: `DoublesIff` says exactly when it
makes a second category of one name.

## Model

| member | source | states |
|---|---|---|
| `BookingTheorems.ConfirmedStayDisjoint` | backend/apps/bookings/services_bookings.py:51-168 | In every state of every interleaving of concurrent transactions, two CONFIRMED bookings of one space do not overlap |
| `BookingTheorems.HeldMeetOnlyBeforeConfirmation` | backend/apps/bookings/services_bookings.py:86-152 | Two CONFIRMED, COMPLETED or NO_SHOW bookings of a space share time only before the later of their confirmation moments, and none if the later one was confirmed when created |
| `BookingTheorems.NaiveClaimHoldsIff` | backend/apps/bookings/services_bookings.py:136-168 | If no such bookings overlap, one call keeps it so exactly unless it approves a pending, unended booking of an active space that meets no confirmed booking but a completed or no-show one |
| `BookingTheorems.RunSatisfiesNaiveClaimIff` | backend/apps/bookings/services_bookings.py:136-168 | In every interleaving, no such bookings overlap in any state up to a given one exactly when no call committed before it is such an approval |
| `BookingTheorems.NaiveClaimFails` | backend/apps/bookings/services_bookings.py:136-168 | A reachable state in which a booking approved after its start overlaps a completed one |
| `BookingTheorems.TimelyApprovalIsSafe` | backend/apps/bookings/services_bookings.py:145-152 | An approval no later than the start of the booking never reuses spent time |
| `BookingTheorems.RunsAreSerializable` | backend/apps/bookings/services_bookings.py:16-21 | Whatever an interleaving has committed, some sequence of calls run one at a time commits |
| `BookingRuns.EveryCallCanRun` | backend/apps/bookings/services_bookings.py:16-21 | Conversely, from every state of every interleaving any call on an unlocked space can be run from start to end at any later time, does what it does alone, and leaves nothing else behind |
| `BookingTheorems.AuditReproducesStatuses` | backend/apps/bookings/services_bookings.py:100-107 | Folding the audit log gives every booking's status, and each recorded old status is the replayed one |
| `BookingTheorems.HistoryIsFinal` | backend/apps/audit/models.py:33-39 | The log only grows, bookings keep space and times, the four final statuses are absorbing, and a closed space stays closed |
| `BookingTheorems.DisjointBookingsFit` | backend/apps/bookings/services_bookings.py:116-125 | Pairwise disjoint bookings inside a window have total length at most that of the window |
| `BookingTheorems.UpcomingBookingsFit` | backend/apps/bookings/services_rules.py:24-58 | In every reachable state the confirmed bookings of a space that start now or later last at most 3680 days together and number at most 5,299,200, however the rules were changed |
| `BookingProtocol.CommitIsAtomic` | backend/apps/bookings/services_bookings.py:128-133 | A commit computed from readings taken one by one under the lock equals the operation run in one instant on the current tables |
| `BookingProtocol.RunIsCoherent` | backend/apps/bookings/services_bookings.py:16-21 | The full invariant (rules, rows, disjointness, confirmations, log, fresh readings) holds in every state of every run |
| `BookingProtocol.ExecLeavesOthers` | backend/apps/bookings/models.py:222-227 | An operation on one space changes nothing that a transaction on another space can see, since bookings keep their space |
| `BookingHistory.ExecKeepsSound` | backend/apps/bookings/services_bookings.py:51-253 | Every operation keeps the whole invariant |
| `BookingHistory.OpenSpaceKeepsSound` | backend/apps/bookings/services_spaces.py:58-89 | A new space, with its default rules, keeps the invariant |
| `BookingHistory.DecisionsAreJustified` | backend/apps/bookings/services_bookings.py:51-253 | What an operation decides on real readings is a legal change: allowed transition, allowed length and window, no conflict |
| `BookingHistory.ReplayAppend` | backend/apps/bookings/services_bookings.py:197-216 | A truthful entry keeps the log truthful and moves the replayed statuses by one step |
| `BookingDesk.FreeMeansNoOverlap` | backend/apps/bookings/services_bookings.py:116-125 | The conflict query is empty exactly when every other confirmed booking of the space ends before or starts after |
| `BookingDesk.Desk.CreateBooking` | backend/apps/bookings/services_bookings.py:51-113 | A booking is created exactly when the space is active, the rules in force admit it and, for instant spaces, no confirmed booking overlaps; the stored row has the requested times and is CONFIRMED in an instant space and PENDING in any other, and the log says so; a refusal changes nothing |
| `BookingDesk.Desk.LockedBooking` | backend/apps/bookings/services_bookings.py:128-133 | Gives the current row, NotFound when space or booking is gone, Moved when the row names another space |
| `BookingDesk.Desk.ApproveBooking` | backend/apps/bookings/services_bookings.py:136-168 | Confirms exactly a pending booking of an active space that has not ended and meets no other confirmed booking |
| `BookingDesk.Desk.RejectBooking` | backend/apps/bookings/services_bookings.py:171-192 | Rejects exactly a pending booking |
| `BookingDesk.Desk.Transition` | backend/apps/bookings/services_bookings.py:195-218 | Moves exactly a confirmed booking, which must have ended where the caller asks for that, and logs the old status |
| `BookingDesk.Desk.CancelBooking` | backend/apps/bookings/services_bookings.py:221-229 | Cancels exactly a confirmed booking |
| `BookingDesk.Desk.CompleteBooking` | backend/apps/bookings/services_bookings.py:232-241 | Completes exactly a confirmed booking that has ended |
| `BookingDesk.Desk.MarkNoShow` | backend/apps/bookings/services_bookings.py:244-253 | Moves exactly a confirmed booking that has ended to NO_SHOW |
| `BookingDesk.Desk.UpdateRules` | backend/apps/bookings/services_rules.py:61-141 | Saves exactly when every field is known, the space is active and the resulting rules are within the bounds; then named columns take their values, and nothing else changes |
| `BookingDesk.Desk.DeactivateSpace` | backend/apps/bookings/services_spaces.py:126-146 | Closes exactly an active space and leaves its bookings |
| `BookingEffects.FirstFailedCheckIsRaised` | backend/apps/bookings/services_bookings.py:51-253 | A call is refused exactly when one of its checks fails on the columns, and then with the error of the first that does |
| `BookingEffects.CallsWriteWhatTheyName` | backend/apps/bookings/services_bookings.py:51-253 | The tables change exactly when no check fails, and then only in the row and the log entry that the call names, with the status it stands for |
| `BookingEffects.CommitsWriteWhatTheyName` | backend/apps/bookings/services_bookings.py:16-21 | In every interleaving a transaction that commits does just that for the call it began with, on the tables as they are when it commits and a clock reading from its own time |
| `BookingEffects.NoLockIsLeft` | backend/apps/bookings/services_bookings.py:16-21 | In every interleaving a lock on a space is held only by a running transaction on it |
| `BookingEffects.NewSpaceAdmitsIff` | backend/apps/bookings/models.py:75-87 | A space with its default rules takes requests for half an hour to eight hours that start between an hour and thirty days ahead, and no others |
| `BookingEffects.OpeningWrites` | backend/apps/bookings/services_spaces.py:58-89 | A new space is active with the default rules, and one log entry is written |
| `BookingAvailability.PublishedIsSortedAndDisjoint` | backend/apps/bookings/views_public.py:98-114 | In every reachable state each published slot ends no later than any later slot starts |
| `BookingAvailability.PublishedPredictsConflicts` | backend/apps/bookings/views_public.py:98-114 | For an interval inside the queried window the conflict query answers yes exactly when a published slot overlaps it |
| `BookingAvailability.PublishedIff` | backend/apps/bookings/views_public.py:102-107 | A slot is listed exactly for the confirmed bookings of the space that share time with the queried window |
| `Closure.Close` | backend/apps/accounts/rbac.py:58-68 | The result is the least set that holds the start and is closed under the relation, cycles included |
| `Closure.ExpandMeetsSatisfying` | backend/apps/accounts/rbac.py:58-85 | An action is in the expansion of a set exactly when the set meets the actions that satisfy it |
| `Closure.ExpandIsReach` | backend/apps/accounts/rbac.py:58-68 | An action is in the expansion exactly when a chain of implications leads to it from an action of the set |
| `Closure.SatisfyingIsReach` | backend/apps/accounts/rbac.py:71-85 | The actions that satisfy a request are those from which a chain leads to it |
| `Closure.ExpandImpliedActions` | backend/apps/accounts/rbac.py:58-68 | The worklist terminates with the least closed superset |
| `Closure.ActionsSatisfying` | backend/apps/accounts/rbac.py:71-85 | The reverse worklist terminates with the least set closed under the inverse relation |
| `Rbac.ShippedPolicyIsOverGrantable` | backend/apps/accounts/rbac.py:53-143 | The shipped implications and legacy role sets stay within the grantable actions, so the theorems apply to them |
| `Rbac.FilterMatchesResolution` | backend/apps/accounts/rbac.py:146-179 | The database filter picks a membership exactly when its resolved actions hold the action, for custom, legacy, mismatched and malformed roles |
| `Rbac.SetQueryAgreesWithCan` | backend/apps/accounts/rbac.py:182-324 | For every actor, action and existing makerspace, membership in the set query equals the pointwise check, through forbidden actions, archived and hidden spaces and superadmins |
| `Rbac.MakerspacesForActions` | backend/apps/accounts/rbac.py:212-225 | The union holds exactly the makerspaces where some of the actions is allowed |
| `Rbac.PayloadAgreesWithCan` | backend/apps/accounts/serializers.py:8-37 | Each listed row's batched actions equal the effective actions, and for grantable actions the pointwise check and the set query |
| `Rbac.HiddenBlockIsRefusal` | backend/apps/accounts/rbac.py:420-431 | For a superadmin on a space that is not archived the block applies exactly when the check refuses |
| `RbacColumns.CanIff` | backend/apps/accounts/rbac.py:303-324 | In an existing makerspace the check says yes exactly for an authenticated actor, unless it is archived, who is a superadmin where superadmin access is on or whose active membership names an action that implies the one asked |
| `RbacColumns.CanElsewhereIff` | backend/apps/accounts/rbac.py:303-324 | Without a makerspace only superadmins may act; in one that does not exist also those whom a membership allows it |
| `RbacColumns.SetQueryIff` | backend/apps/accounts/rbac.py:182-209 | The set query holds exactly the makerspaces whose columns allow the action |
| `RbacColumns.EffectiveIff` | backend/apps/accounts/rbac.py:254-265 | Exactly the actions that roles can grant and the columns allow are effective |
| `RbacColumns.HiddenBlockIff` | backend/apps/accounts/rbac.py:420-431 | The block hits exactly superadmins where superadmin access is off and no active membership grants what is asked |
| `RbacColumns.PayloadListsIff` | backend/apps/accounts/serializers.py:12-21 | A membership is listed unless its makerspace is archived, hidden from a superadmin without an active membership, or skipped by the channel |
| `RbacColumns.PayloadShowsIff` | backend/apps/accounts/serializers.py:23-37 | A listed row shows exactly the grantable actions that the columns allow |
| `RbacColumns.ManagersGrant` | backend/apps/accounts/rbac.py:87-131 | By the shipped tables a space manager may do all that roles can grant, and an inventory manager all but printing, machines, events, bookings and the makerspace itself |
| `RbacColumns.HelpersGrant` | backend/apps/accounts/rbac.py:97-131 | By the shipped tables a guest admin hands out and takes back, a machine manager has machines and printing, and a print manager printing |
| `DeviceTheorems.OneLiveTokenPerFamily` | backend/apps/accounts/services_device_tokens.py:21-83 | In every state of every run a family has at most one live token, and it is the last issued |
| `DeviceTheorems.EachTokenMintsOnce` | backend/apps/accounts/services_device_tokens.py:51-83 | Over a whole run a token yields a new pair at most once, also when presented concurrently |
| `DeviceTheorems.FatalStepRevokes` | backend/apps/accounts/services_tokens.py:51-69 | A committed refusal of a rotation and the first write of a revocation leave the grant revoked |
| `DeviceTheorems.SpentOrBlacklistedIsRefused` | backend/apps/accounts/services_device_tokens.py:61-83 | A token that is spent, blacklisted in its row, or failed by the JWT check is refused, as reuse when its row says so |
| `DeviceTheorems.BlacklistedMintsNothing` | backend/apps/accounts/services_device_tokens.py:61-83 | In every run, once a token is on the JWT blacklist only a rotation that had passed the JWT check before can issue a pair for it |
| `DeviceTheorems.RefusedCommitTakesTheFamily` | backend/apps/accounts/services_device_tokens.py:61-92 | A committed refusal, whichever check failed, revokes the family, blacklists all its tokens in both tables and closes the grant, and this survives the error it raises |
| `DeviceTheorems.NoRotationAfterwards` | backend/apps/accounts/services_device_tokens.py:51-92 | After either event no rotation on any family of the grant, later families included, issues a token |
| `DeviceTheorems.AuthenticatesAfterwardsIff` | backend/apps/accounts/authentication.py:32-41 | After either event a request on the grant authenticates exactly if it read the grant as open before the event, has not moved since, and finds its family open |
| `DeviceTheorems.NoAuthenticationAfterwards` | backend/apps/accounts/authentication.py:32-41 | So after either event no request that reads the grant later authenticates |
| `DeviceTheorems.EarlyReadStillAuthenticates` | backend/apps/accounts/authentication.py:32-41 | A run in which a request that had read the grant succeeds after the revocation's first write |
| `DeviceTheorems.RefusalStopsEarlyReadsToo` | backend/apps/accounts/authentication.py:32-41 | After a refused rotation, access tokens of its family fail whenever the grant was read |
| `DeviceHistories.AuthenticatesIff` | backend/apps/accounts/authentication.py:32-41 | In every run a request authenticates exactly if the user was active when it was read, then the grant was active and the user's when it was read, and then the family is theirs and not revoked when it is read |
| `DeviceHistories.SuspendedUserIsRefused` | backend/apps/accounts/authentication.py:32-41 | A request that begins after its user was suspended, and not reinstated, is refused |
| `DeviceHistories.MintsIff` | backend/apps/accounts/services_device_tokens.py:51-83 | In every run a rotation mints exactly if, when it commits, token, family, grant and user allow it, and the token had not expired and was on no JWT blacklist when the library was asked |
| `DeviceHistories.RotationWritesWhatWasAsked` | backend/apps/accounts/services_device_tokens.py:51-92 | In every run its commit writes what the presented token deserves by the tables as they then are |
| `DeviceHistories.EveryRotationCanRun` | backend/apps/accounts/services_device_tokens.py:51-83 | From every state of every run a rotation with unlocked rows can be run from start to end and does what it does alone |
| `DeviceHistories.RevocationClosesItsGrant` | backend/apps/accounts/services_tokens.py:55-57 | In every run the first write of a revocation closes the grant it was asked to revoke, and no other |
| `DeviceHistories.SpentTokensAreBlacklisted` | backend/apps/accounts/services_device_tokens.py:72-83 | From its rotation on a spent token is blacklisted in its row and in the JWT library, and its successor is there |
| `DeviceHistories.NoLockIsLeft` | backend/apps/accounts/services_device_tokens.py:51-57 | In every run a row lock is held only by a running process |
| `DeviceRevocation.FinishedRevocationSettlesAll` | backend/apps/accounts/services_tokens.py:51-69 | When an interleaved revocation has nothing left to do, every family it had listed is revoked with all its tokens blacklisted in both tables, from then on |
| `DeviceRevocation.RevocationMakesProgress` | backend/apps/accounts/services_tokens.py:23-69 | At every point of an interleaved revocation the listed families it is done with are settled, and the current one is as far as its statements say |
| `DeviceRevocation.RevocationTouchesItsFamiliesOnly` | backend/apps/accounts/services_tokens.py:58-61 | However it is interleaved, a revocation writes only rows and blacklistings of the families of its grant that were open when it listed them |
| `DeviceRevocation.WorkShortens` | backend/apps/accounts/services_tokens.py:23-61 | Each statement of a revocation brings it closer to its end |
| `DeviceRevocation.WorkGoesOn` | backend/apps/accounts/services_tokens.py:23-61 | And until then it has a next one, which waits for nothing but row locks |
| `DeviceRevocation.RevokedGetsNoTokens` | backend/apps/accounts/services_device_tokens.py:61-83 | No step adds a token to a revoked family |
| `DeviceTheorems.RunHardens` | backend/apps/accounts/services_tokens.py:23-69 | Over any stretch of a run nothing revoked, rotated or blacklisted comes back, and rows keep their family and grant |
| `DeviceProtocol.CommitIsAtomic` | backend/apps/accounts/services_device_tokens.py:51-83 | A rotation committed from its locked snapshot equals the rotation run at that instant |
| `DeviceProtocol.RunIsCoherent` | backend/apps/accounts/services_device_tokens.py:36-92 | In every state the families are chains and every rotation past its locks still sees the truth |
| `DeviceModel.RotationKeepsChained` | backend/apps/accounts/services_device_tokens.py:72-83 | Whatever a rotation decides, each family stays a chain |
| `DeviceModel.RefusalTakesTheFamily` | backend/apps/accounts/services_device_tokens.py:61-92 | Every refusal revokes exactly that family, blacklists exactly its tokens, leaves its grant closed and issues nothing |
| `DeviceModel.MintExtendsTheChain` | backend/apps/accounts/services_device_tokens.py:72-83 | The rotated token was the last of its family, and the new token is live and the last |
| `DeviceModel.RotationWrites` | backend/apps/accounts/services_device_tokens.py:56-83 | A rotation either spends the token in both tables and adds one live row, or revokes the family, blacklists its tokens in both tables and closes the grant; it writes nothing else |
| `DeviceModel.DecisionIs` | backend/apps/accounts/services_device_tokens.py:56-83 | A token that is spent, or not of an open family of the grant it names, is reuse; then an inactive user and an inactive grant are noticed; then a token that the JWT library refuses is reuse |
| `DeviceStore.Store.IssueNewFamily` | backend/apps/accounts/services_device_tokens.py:21-33 | Adds one open family whose only token is live |
| `DeviceStore.Store.BlacklistDeviceFamily` | backend/apps/accounts/services_tokens.py:23-48 | Revokes the family and blacklists all its tokens in both tables, and the grant if asked |
| `DeviceStore.Store.RevokeDeviceGrant` | backend/apps/accounts/services_tokens.py:51-69 | Undisturbed, revokes the grant and all its open families at once |
| `DeviceStore.Store.RotateDeviceRefresh` | backend/apps/accounts/services_device_tokens.py:36-92 | Issues a pair exactly for a live token of an open family with active user and grant that the JWT library accepts, and puts the spent token on its blacklist; otherwise replies as the first failing check says, and keeps the revocations |
| `ImportMerge.ImportIsMerge` | backend/apps/admin_api/bulk_import.py:81-131 | Row by row application is the merge per name: kept buckets for existing products, first row's buckets for new ones, last setter for every other column |
| `ImportMerge.CreatedCountsNewProducts` | backend/apps/admin_api/bulk_import.py:105-125 | The number created is the number of names the table gained |
| `ImportMerge.CreatedAreTheNewNames` | backend/apps/admin_api/bulk_import.py:256-286 | Without integrity errors one product is created for each new name, as it is stored |
| `ImportMerge.CreatedWithinNewNames` | backend/apps/admin_api/bulk_import.py:256-293 | With integrity errors no more are created than there are new names |
| `ImportMerge.ReapplyingChangesNothing` | backend/apps/admin_api/bulk_import.py:256-286 | Without integrity errors the same rows applied again create nothing and leave the table as it is |
| `ImportMerge.RejectedRowsLeaveNoTrace` | backend/apps/admin_api/bulk_import.py:105-125 | An import ends with the table that its accepted rows alone would have given, categories included |
| `ImportMerge.ImportKeepsStock` | backend/apps/inventory/models.py:97-145 | Rows with sound quantities keep the stock constraints of every product |
| `ImportRows.NoErrorsIffAcceptable` | backend/apps/admin_api/bulk_import.py:141-216 | Normalisation reports no error exactly for rows with all required cells, non-negative whole quantities within the total, known choices, own boxes and own images |
| `ImportRows.UnmappedColumnsTakeDefaults` | backend/apps/admin_api/bulk_import.py:141-216 | In a new product every column that the mapping leaves out has the default of the product table |
| `ImportRows.ProblemsEmptyIff` | backend/apps/admin_api/bulk_import.py:219-227 | The quantity checks are silent exactly when every mapped quantity is a non-negative whole number |
| `ImportRows.AcceptableRowsHoldStock` | backend/apps/admin_api/bulk_import.py:182-195 | A product made of an error-free row satisfies the stock constraints, and has a nonempty name if the cell was a text |
| `ImportColumns.ProductShowsRow` | backend/apps/admin_api/bulk_import.py:141-286 | A row that is not rejected leaves a product under the text of its name cell whose every column shows the cell of its field; a new product has the quantities of the cells, an existing one keeps its own; no other product changes |
| `ImportErrors.ErrorIs` | backend/apps/admin_api/bulk_import.py:141-227 | For every field the listed error is the last problem that its checks find: a blank required cell, a number that is unreadable or negative, too many pieces, a wrong choice, an unknown box or a stray image |
| `ImportErrors.WarnedIff` | backend/apps/admin_api/bulk_import.py:153-156 | A warning is listed exactly for mapped details with a blank cell |
| `ImportPreview.ActionIsRight` | backend/apps/admin_api/bulk_import.py:249-253 | A row is labelled an error exactly when it is not acceptable or its name is falsy, and an update exactly when its name is a text that exists |
| `ImportPreview.PreviewBoundsCreations` | backend/apps/admin_api/bulk_import.py:43-131 | Importing an upload creates at most as many products as its preview labels "create" |
| `ImportPreview.CreatedAsAnnouncedIff` | backend/apps/admin_api/bulk_import.py:43-131 | Without integrity errors an upload creates exactly that many if and only if the rows labelled "create" have names that differ from each other and that no product has |
| `ImportUploads.PreviewOvercounts` | backend/apps/admin_api/bulk_import.py:43-131 | Any acceptable row without a category, uploaded twice where there are no products: two "create" labels, one product |
| `ImportUploads.TwoSawsMakeOneProduct` | backend/apps/admin_api/bulk_import.py:43-131 | Such an upload exists, with the name "Saw" |
| `ImportQuota.AskedAgainstNewNames` | backend/apps/admin_api/bulk_import.py:87-104 | The quota asked for is at least the number of new names less one; exactly when it is less, and exactly when it is equal |
| `ImportQuota.CreatedBeyondQuotaIff` | backend/apps/admin_api/bulk_import.py:87-125 | More products are created than quota was asked for exactly when true and 1 both name rows, all names the database did not return are stored as different new texts, and each is created; then by one |
| `ImportQuota.CreatedAsAskedIff` | backend/apps/admin_api/bulk_import.py:87-125 | Without integrity errors as many are created as were asked for exactly when each name the database did not return brings a new product, or true and 1 merge and one such name brings none |
| `ImportQuota.TextNamesAskRightly` | backend/apps/admin_api/bulk_import.py:87-125 | In particular, when all names are texts the quota is that of the new names, creations stay within it, and without integrity errors they equal it |
| `ImportUploads.TrueAndOneAskForOne` | backend/apps/admin_api/bulk_import.py:87-125 | Acceptable rows named true and 1: quota is asked for one product, and two are created |
| `ImportUploads.SomeUploadAsksTooLittle` | backend/apps/admin_api/bulk_import.py:87-125 | Such an upload exists |
| `ImportUploads.NumberAsksForNothingNew` | backend/apps/admin_api/bulk_import.py:87-104 | A row named by a number whose product exists: quota is asked for one, and no name is new |
| `ImportPreview.ImportingKeepsStock` | backend/apps/admin_api/bulk_import.py:81-131 | Importing any upload keeps the stock constraints of the whole table |
| `ImportDesk.Desk.PreviewImport` | backend/apps/admin_api/bulk_import.py:43-78 | Every row keeps its place and sheet number and has its right label; valid exactly when no row has an error; the three counts add up |
| `ImportDesk.Desk.CategoryForName` | backend/apps/admin_api/bulk_import.py:315-336 | Whatever others commit between any two of its statements, finds the category, makes it, makes it again or fails as the model says |
| `ImportCategories.GivesUpIff` | backend/apps/admin_api/bulk_import.py:315-336 | It fails exactly when others take both candidate slugs in turn and none of them makes the category |
| `ImportCategories.FoundIff` | backend/apps/admin_api/bulk_import.py:315-336 | It finds the category exactly when it is there at the start, or another makes it in a round whose slug was taken |
| `ImportCategories.DoublesIff` | backend/apps/admin_api/bulk_import.py:315-336 | It makes a second category of the name exactly when, in the round that inserts, another has made the first after the lookup without taking the slug |
| `ImportCategories.MadeIsStored` | backend/apps/admin_api/bulk_import.py:318-329 | A category that is made has a slug that was free when it was inserted, which is recorded, and the newest id |
| `ImportCategories.RivalBeforeSearchIsDoubled` | backend/apps/admin_api/bulk_import.py:318-327 | So it does when another commits the category between the lookup and the search for a slug |
| `ImportCategories.FindsOrMakesOne` | backend/apps/admin_api/bulk_import.py:315-336 | Unless it fails the name has a category afterwards; no earlier category has moved, and no other name gained one except by others |
| `ImportCategories.QuietIsWithCategory` | backend/apps/admin_api/bulk_import.py:315-336 | Undisturbed it finds the category or makes it under the first free slug |
| `ImportCategories.NewCategoryIs` | backend/apps/admin_api/bulk_import.py:315-327 | A new category takes the slug of its name, or "category", with the first unused suffix from 2 on if that is taken |
| `ImportDesk.Desk.ApplyImportRow` | backend/apps/admin_api/bulk_import.py:256-286 | One row updates or creates its product as the model says |
| `ImportDesk.Desk.ApplyAll` | backend/apps/admin_api/bulk_import.py:105-125 | The loop leaves the table of the row-by-row fold and reports its exact counts |
| `ImportPreview.RejectedIff` | backend/apps/admin_api/bulk_import.py:289-293 | The sheet numbers reported as failed are those of the rows with an integrity error |
| `ImportDesk.Desk.ApplyImport` | backend/apps/admin_api/bulk_import.py:81-131 | Nothing is written if a row has an error and partial import is off, or the quota refuses the names asked for; otherwise the table is that of the fold |
| `OtpModel.IssueKeepsSound` | backend/apps/accounts/services_registration.py:48-85 | A new challenge comes over a minute after the others and leaves none of them usable |
| `OtpModel.ConfirmKeepsSound` | backend/apps/accounts/services_registration.py:99-141 | A confirmation keeps the bounds on failures, spacing and usability |
| `OtpModel.FailuresWithin` | backend/apps/accounts/services_registration.py:23-24 | Between two moments the failures of a ledger grow at most by five for each challenge that could be open in the window |
| `OtpTimelines.CodeWorksIff` | backend/apps/accounts/services_registration.py:23-24 | A code is accepted for ten minutes after it was sent, and any other code counts as wrong as long |
| `OtpTimelines.SentAgainIff` | backend/apps/accounts/services_registration.py:53-56 | The next code can be sent once more than a minute has passed |
| `OtpTimelines.IssuedIff` | backend/apps/accounts/services_registration.py:53-56 | A code is sent exactly if every earlier one was sent more than a minute ago |
| `OtpTimelines.FiveWrongTriesCloseIt` | backend/apps/accounts/services_registration.py:99-141 | After any series of wrong codes the right one is accepted exactly if there were fewer than five |
| `OtpTimelines.AcceptedIff` | backend/apps/accounts/services_registration.py:107-121 | A code is accepted exactly if it is the last one sent, less than ten minutes ago, not consumed and tried wrongly less than five times |
| `OtpTimelines.IssueWrites` | backend/apps/accounts/services_registration.py:57-71 | A new challenge consumes the older ones that are neither expired nor used up, and changes nothing else of them |
| `OtpTimelines.ConfirmWrites` | backend/apps/accounts/services_registration.py:88-136 | A wrong code adds a failure to the last challenge only, a right one consumes all challenges, and nothing else changes |
| `OtpRuns.RunIsSound` | backend/apps/accounts/services_registration.py:48-141 | In every state of every run each ledger keeps its failures within five, its sends over a minute apart, and all but the last challenge unusable |
| `OtpRuns.OneUsableChallenge` | backend/apps/accounts/models.py:102-107 | In every state of every run each user and email has at most one usable challenge, the last one sent |
| `OtpRuns.StepContinues` | backend/apps/accounts/services_registration.py:88-96 | Exactly the wrong-code comparisons add a failure, one each, and failures are never lost |
| `OtpRuns.WrongCodeBudget` | backend/apps/accounts/services_registration.py:48-141 | In any window of W seconds at most 5 * (W / 60 + 2) wrong codes are compared for a user and email |
| `OtpTimelines.VerifiedIff` | backend/apps/accounts/models.py:65-77 | In every run an email is verified exactly if a code for it was accepted and it has not changed since |
| `OtpTimelines.LastEmailCounts` | backend/apps/accounts/services_registration.py:48-53 | The email that a challenge is sent to and confirmed for is the last one set |
| `OtpDesk.Desk.IssueChallenge` | backend/apps/accounts/services_registration.py:48-85 | Refuses exactly during the cooldown; otherwise the new challenge is the only usable one |
| `OtpDesk.Desk.ConfirmChallenge` | backend/apps/accounts/services_registration.py:99-141 | Accepts exactly the code of the newest usable challenge, then closes all; counts a wrong code although it raises |
| `FreshNames.TakenCandidatesFit` | backend/apps/accounts/services_social_identity.py:113-121 | If the first n candidates are taken there are at least n names |
| `FreshNames.CandidatesDiffer` | backend/apps/accounts/services_social_identity.py:113-121 | Different suffixes give different names |
| `FreshNames.FirstFreeIs` | backend/apps/accounts/services_social_identity.py:113-121 | The name is the base if that is unused, and otherwise the base with the first suffix from 2 on that makes it so |
| `FreshNames.DecimalReadsBack` | backend/apps/accounts/services_social_identity.py:117-120 | A suffix is the decimal numeral of its number |
| `FreshNames.AvailableName` | backend/apps/admin_api/bulk_import.py:315-329 | The loop ends within one candidate more than there are names, with the first free one |
| `SocialModel.SignInKeepsSound` | backend/apps/accounts/services_social_identity.py:17-77 | A sign-in keeps identities one to one and emails and usernames unique, changes nothing when refused, and leaves the subject linked when it succeeds |
| `SocialModel.CreationIff` | backend/apps/accounts/services_social_identity.py:36-64 | An account is created exactly for a new subject with an unused email on the member surface that the staff check does not reject; it has no password, a fresh username, and an email only if verified |
| `SocialModel.AutoLinkNeedsBothVerified` | backend/apps/accounts/services_social_identity.py:46-50 | An existing account gets a new identity only if the email is verified on both sides |
| `SocialModel.ConstraintFiresIff` | backend/apps/accounts/models_social.py:39-47 | Without interference the constraints refuse a sign-in exactly when its verified email belongs to a verified user who has the provider linked to another subject and the staff check does not reject it |
| `SocialModel.LinkKeepsSound` | backend/apps/accounts/services_social_identity.py:80-94 | Explicit linking keeps the invariant and succeeds exactly when the user ends up owning the subject |
| `SocialModel.UnlinkKeepsSound` | backend/apps/accounts/services_social_identity.py:97-110 | Unlinking removes that provider's identity and nothing else, and takes nobody's last credential |
| `SocialModel.LastCredentialIff` | backend/apps/accounts/services_social_identity.py:105-109 | It is refused for that reason exactly when the user has no password and this is the only identity |
| `SocialOutcomes.KnownSubjectSignsIn` | backend/apps/accounts/services_social_identity.py:23-34 | A linked subject signs in to its user unless the staff check rejects it; nothing is written |
| `SocialOutcomes.KnownEmailSignsIn` | backend/apps/accounts/services_social_identity.py:36-77 | An unlinked subject with a known email is linked to its user exactly if both sides verified it, the staff check agrees and the user has no other identity of the provider; otherwise each refusal has its reason |
| `SocialOutcomes.StrangerSignsIn` | backend/apps/accounts/services_social_identity.py:52-77 | Anyone else gets an account on the member surface, with the username of provider and digest and a suffix if needed; the staff surface refuses |
| `SocialOutcomes.LinkIs` | backend/apps/accounts/services_social_identity.py:80-94 | Linking finds its own identity, refuses a subject of somebody else, refuses a second identity of the provider, and otherwise adds one identity |
| `SocialOutcomes.UnlinkIs` | backend/apps/accounts/services_social_identity.py:97-110 | Unlinking is refused without an identity of the provider or if there is neither a password nor an identity of another provider, and otherwise removes that identity alone |
| `SocialRuns.RunIsSound` | backend/apps/accounts/models_social.py:39-47 | Identities stay one to one and nonblank emails unique ignoring case in every state of every run |
| `SocialRuns.NobodyIsLockedOut` | backend/apps/accounts/services_social_identity.py:97-110 | Whoever has a password or an identity at some moment has one at every later moment |
| `SocialRuns.SubjectsStayWithTheirUser` | backend/apps/accounts/services_social_identity.py:23-34 | A subject signs in to the same user until that user unlinks the provider |
| `SocialRuns.ChangedEmailLinksNothing` | backend/apps/accounts/models.py:65-77 | After a change of email nobody is linked to the user by email until the new one has been verified |
| `SocialRuns.UserIsAsLastEdited` | backend/apps/accounts/models.py:65-77 | The row of a user is what the last edit of it made it; a changed address is unverified |
| `SocialProtocol.InterleavingIsCoherent` | backend/apps/accounts/services_social_identity.py:17-110 | However calls interleave, identities stay one to one and emails unique in every state, and what a call has read of its user under the row lock is still true |
| `SocialProtocol.NobodyIsLockedOutConcurrently` | backend/apps/accounts/services_social_identity.py:97-110 | However calls interleave, whoever has a password or an identity at some moment has one at every later moment |
| `SocialProtocol.UnlinkIsAtomic` | backend/apps/accounts/services_social_identity.py:97-110 | An unlinking that commits does what it would do alone at that instant, though its checks were made earlier |
| `SocialProtocol.LinkIsAtomic` | backend/apps/accounts/services_social_identity.py:80-94 | An explicit link that commits does what it would do alone at that instant, though it looked the subject up before it had the lock |
| `SocialProtocol.AutoLinkIsAtomic` | backend/apps/accounts/services_social_identity.py:38-77 | A link by email that commits does what it would do alone at that instant, and the email is then verified on both sides |
| `SocialHistories.UnlinkRemovesWhatWasAsked` | backend/apps/accounts/services_social_identity.py:97-110 | However calls interleave, an unlinking that commits removes the identity of its user and provider and nothing else |
| `SocialHistories.LinkAddsWhatWasAsked` | backend/apps/accounts/services_social_identity.py:80-94 | However calls interleave, a link that commits adds the identity it was asked for and nothing else |
| `SocialHistories.AutoLinkAddsWhatWasAsked` | backend/apps/accounts/services_social_identity.py:38-50 | However calls interleave, a link by email goes to a user who then has the email, verified on both sides |
| `SocialHistories.CreationAddsWhatWasAsked` | backend/apps/accounts/services_social_identity.py:52-77 | However calls interleave, an account is created only on the member surface, for a subject unlinked at the start and an email that nobody had at some moment since, with an unused username, no password, and the email only if verified |
| `SocialPlays.EveryUnlinkCanRun` | backend/apps/accounts/services_social_identity.py:97-110 | Conversely, from every state of every interleaving what unlinks alone can unlink |
| `SocialPlays.EveryLinkCanRun` | backend/apps/accounts/services_social_identity.py:80-94 | What links alone can link |
| `SocialPlays.EveryAutoLinkCanRun` | backend/apps/accounts/services_social_identity.py:38-77 | What links by email alone can do so |
| `SocialPlays.EveryCreationCanRun` | backend/apps/accounts/services_social_identity.py:52-77 | What creates an account alone can create it |
| `SocialHistories.NoLockIsLeft` | backend/apps/accounts/services_social_identity.py:97-99 | However calls interleave, the lock on a user is held only by a running call |
| `SocialDesk.Desk.ResolveSocialIdentity` | backend/apps/accounts/services_social_identity.py:17-77 | Tables and outcome are those of the model; a success leaves the user owning the subject |
| `SocialDesk.Desk.LinkExplicitly` | backend/apps/accounts/services_social_identity.py:80-94 | Tables and outcome are those of the model; done exactly when the user owns the subject |
| `SocialDesk.Desk.UnlinkSocialIdentity` | backend/apps/accounts/services_social_identity.py:97-110 | Tables and outcome are those of the model; the user keeps a credential |
| `CspModel.ParseRendersBack` | backend/apps/accounts/social_csp.py:57-66 | Parsing the rendering of any well-formed directives gives them back, in order |
| `CspModel.ParsePartsWellFormed` | backend/apps/accounts/social_csp.py:60-66 | Whatever is parsed is well formed: distinct names, nonempty tokens |
| `CspRewrite.RewriteKeepsSources` | backend/apps/accounts/social_csp.py:37-73 | No parsed directive or source is dropped or moved, every source the providers need is present, and nothing else is added except 'self' in a new directive |
| `CspRewrite.RewriteIsIdempotent` | backend/apps/accounts/social_csp.py:37-57 | Rewriting a rewritten header changes nothing, whatever the header was |
| `CspClosedForm.RewrittenAt` | backend/apps/accounts/social_csp.py:37-73 | Under each name the rewritten header has the sources it had, or 'self' in a new directive, followed by exactly the missing sources of the configured providers, Google's first |
| `CspClosedForm.RewrittenNames` | backend/apps/accounts/social_csp.py:37-57 | The directives keep their order, and the missing ones among script-src, frame-src and connect-src follow in this order |
| `CspRewrite.AppendDoes` | backend/apps/accounts/social_csp.py:69-73 | Appending keeps all sources, adds the missing ones and changes nothing when none is missing |
| `CspDesk.Policy.constructor` | backend/apps/accounts/social_csp.py:60-66 | The loop fills the dict with the parse of the header |
| `CspDesk.Policy.Append` | backend/apps/accounts/social_csp.py:69-73 | The loop extends the directive's list as the model says |
| `CspDesk.RewriteHeader` | backend/apps/accounts/social_csp.py:37-57 | The middleware rewrites exactly HTML responses that have the header |
| `CspStandard.AgreesWithStandardIff` | backend/apps/accounts/social_csp.py:60-66 | For every header the parse equals that of section 2.2.1 of CSP Level 3 exactly when the directives as each reads them have their names first in the same order and every name ends in the one with the sources it begins with in the other |
| `CspStandard.AgreesOnPlainIff` | backend/apps/accounts/social_csp.py:60-66 | On headers in which both see the same words, that means lowercase names and repeated directives that begin and end with the same sources |
| `CspAgreement.AgreesOnDistinctLowercaseIff` | backend/apps/accounts/social_csp.py:60-66 | With distinct lowercase names the two agree exactly when every part is ASCII with no spaces but ASCII whitespace, or is blank without being ASCII |
| `CspAgreement.AgreesOnDistinctLowercase` | backend/apps/accounts/social_csp.py:60-66 | In particular they agree on plain headers with distinct lowercase names |
| `CspAgreement.RepeatedNameDiffers` | backend/apps/accounts/social_csp.py:60-66 | They differ on a name that comes twice with different sources |
| `CspAgreement.RepeatedNameExample` | backend/apps/accounts/social_csp.py:60-66 | They differ on the header "a b;a c" |
| `CspAgreement.UppercaseNameDiffers` | backend/apps/accounts/social_csp.py:60-66 | They differ on the header "A" |
| `CspAgreement.OtherTextDiffers` | backend/apps/accounts/social_csp.py:60-66 | They differ on a header that is not ASCII and on one with a vertical tab |
| `Paging.PageRows` | backend/apps/admin_api/views_warranty_report.py:183-202 | For any number of lists the loop returns exactly the slice of their concatenation |
| `Paging.WarrantyReport` | backend/apps/admin_api/views_warranty_report.py:87-102 | The answer is the requested page of the concatenated rows, with its links, or "Invalid page" |
| `Paging.PagesAreOneToLast` | backend/apps/admin_api/views_warranty_report.py:160-174 | A page number is accepted exactly when it parses to 1 up to the page "last" names |
| `Paging.PageShows` | backend/apps/admin_api/views_warranty_report.py:87-102 | A page counts all rows, shows as many as were asked for from the place where the pages before it end, and links to its neighbours |
| `Paging.FollowingNextVisitsEveryRow` | backend/apps/admin_api/views_warranty_report.py:87-102 | Following `next` from the first page never meets a dead link, gathers every row once in order and stops exactly on the page "last" names |
| `Paging.PreviousLeadsBack` | backend/apps/admin_api/views_warranty_report.py:177-180 | The `previous` link of a page reached that way leads to the page before |
| `Warranty.FilteredReportIsRowsThatShow` | backend/apps/admin_api/views_warranty_report.py:133-157 | Filtering hosts in the database gives exactly the rows of the unfiltered report whose own columns satisfy the filters, in order |
| `Warranty.RowShowsHost` | backend/apps/admin_api/views_warranty_report.py:203-245 | A row shows its host and what there is of its warranty; only assets show a serial number |
| `Warranty.StatusByDays` | backend/apps/warranty/status.py:19-27 | A warranty is expired before today, expiring soon from today to thirty days on, and active later; without a date it is unknown |
| `Warranty.StatusesSplitTheReport` | backend/apps/warranty/status.py:19-27 | The four status filters split the report: each row is listed under the status it shows and under no other |

## Left out

- Bookings: field validation, custom answers, the quota and the write fence enter as verdicts; notifications, payments, contact fields and deletions are not modelled. The check that a booking ends in the future is modelled although valid rules never reach it.
- Bookings: the moment of a confirmation is the clock reading taken under the space lock. The clock does not run backwards. The row lock on the booking is not modelled, since the space lock suffices.
- Bookings: edits of a space that are not rule changes only keep it active; their contents are not modelled.
- Availability: names of bookers and the switch that hides the list.
- Access control: makerspace ids are numbers, so the comparison of ids as text is left out; the payload's sorted list is a set. Actions passed in are known actions, and an actor has at most one membership per makerspace. Scope helpers for querysets, the hand-out and space-manager predicates are left out.
- Device tokens: JWT signatures, fingerprints and expiry are verdicts of an oracle. The four row locks are taken in one step. Push devices, the time stamps of use and the mark that a family was reused are left out.
- `DeviceTheorems.NoAuthenticationAfterwards`: excludes requests that had read the grant before the revocation; `DeviceTheorems.AuthenticatesAfterwardsIff` covers them.
- Bulk import: one product per name is assumed; the mapping includes the available quantity, which the code reads even when it is unmapped. Cells are texts, whole numbers and booleans. Progress callbacks and audit entries are left out.
- `ImportQuota.TextNamesAskRightly`: needs names that are texts; `ImportQuota.CreatedBeyondQuotaIff` and `ImportQuota.CreatedAsAskedIff` cover all names. Cells that are floating-point numbers, which a set also merges with equal whole numbers, are left out; with them the excess can be more than one.
- `ImportDesk.Desk.ApplyImportRow`: looks its category up undisturbed; `ImportDesk.Desk.CategoryForName` is the lookup with others at work. Which of two categories of one name a later lookup finds is not determined; the model takes the first.
- Verification codes: a code stands for its digest; mail, registration and concurrent requests for a challenge (which take no row lock) are left out.
- Social sign-in: calls that only read, or are refused, make no move but quit, a constraint violation aborts the call, and the locks on identity rows are left out; the row lock of the user is modelled. Case folding, the hash in usernames and the staff check are parameters; display names are left out.
- CSP: configuration and caching; the content type is a flag.
- Warranty report: the queries that order and scope the hosts; a page number computed by floating-point division is exact for counts below 2^53.
- Push messages, mail, Telegram, Stripe, object storage, and all views and permissions around these cores.
