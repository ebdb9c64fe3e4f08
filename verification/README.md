# Termexo relay: routing, forwarding, enrolment and addressing

A model of the relay service and proofs about it, in Dafny 4.11. `dafny verify dfyconfig.toml`
checks the project.

The relay keeps a table of the devices it can reach: over a tunnel of their own, or behind another
relay that announced them. It publishes every change of that table, feeds it into the table of the
relay above, and carries streams along the announced routes under a hop budget. Around that core it
enrols devices with one-time codes, keeps console sessions, prints and recognises device addresses,
opens streams on tunnels and pages through an audit trail.

| file | what it models |
|---|---|
| `Protocol.dfy` | identifiers, the hop budget, announcements and stream prefaces of the shared protocol crate |
| `RoutingTable.dfy` | the table as a value and the effect of every block that runs under the lock |
| `RegistryRuns.dfy` | the registry as a state machine: table invariant and change log |
| `RouteHistory.dfy` | whole runs: chains never lengthen, the best route is installed |
| `LinkScope.dfy` | what ends with a link, and when entries name live links |
| `StepEffects.dfy` | the same blocks entry by entry: what they make of the table and publish, and what a subscriber sees |
| `Sessions.dfy` | tunnel sessions that connect, displace and end in any interleaving |
| `Snapshots.dfy` | increments and snapshots applied to a table |
| `Registry.dfy` | the registry as a class that is updated in place, proved against the state machine |
| `ControlFrames.dfy`, `UpstreamLink.dfy` | the frames two relays exchange, and both ends of the link |
| `ChangeFeed.dfy` | what a log of changes makes of one device at the relay that is fed with it |
| `Convergence.dfy` | one relay's log feeding another relay's table |
| `Interference.dfy` | the same while the rest of the upstream goes on |
| `Resynchronisation.dfy` | the fresh snapshot after lost changes, and what it cannot mend |
| `Forwarding.dfy`, `Network.dfy` | prefaces and hops; a network of relays under any delay, loss or reordering |
| `StreamOpening.dfy` | where a stream starts and where it is carried on |
| `LinkedNetwork.dfy` | a network of relays whose links deliver in order, and what holds once they have |
| `Enrolment.dfy` | one-time codes under concurrent redemption |
| `SessionDeadline.dfy`, `SessionWrites.dfy` | the sliding deadline of console sessions under overlapping requests; how often it is written |
| `Text.dfy`, `Addressing.dfy`, `ChainAddresses.dfy` | device addresses, hosts and paths; address lists across a chain |
| `HostRules.dfy` | which bases, urls and hosts are accepted, and what is printed, character by character |
| `StreamDriver.dfy` | the task that opens streams on a tunnel |
| `AuditPaging.dfy` | the audit trail and its cursor |

How the model reads the source:

- Every block that runs under the registry's lock is one step. A sequence number is drawn in a step
  of its own, so a later step may hold an older number.
- Changes are published after the lock is released (`src/registry.rs:144-146`). The log appends them
  in lock order.
- The model of a snapshot's effect is exact when nothing else touches the table during it; the
  properties over runs hold for any interleaving of its single steps, because each of them is an
  ordinary announcement or withdrawal step.
- `MAX_HOPS` is a positive constant without a value. A lemma that shows a concrete run assumes that
  it is above 2, or above 3.
- Every database call is one step. Resolving a session and redeeming a code are several, and steps of
  others may come between them.
- A tunnel handle is a device id and a number no other tunnel has. The link id the registry is
  called with is always the handle's own (`src/tunnel/session.rs:334-353`).
- The clock, generated ids, poll results and the order of hash maps are parameters or arbitrary
  choices.
- An accepted device id is taken to be a non-empty text of lower-case letters and digits.

Where the code does less than one might expect, the model follows the code:

- When a device's chain turns back through the upstream without going offline first, the upstream is
  told nothing and keeps its older chain (`Convergence.TurningBackLeavesStaleRoute`);
  `Convergence.HeldIffStillShown` says exactly when. `Forwarding.StreamsTerminate` bounds what a
  stream on such a route can do.
- A frame applied after its link was deregistered, as a session that was displaced and is still
  reading can do, leaves an entry (`LinkScope.LateFrameOutlivesItsLink`) that no disconnect removes
  until the link device registers again (`LinkScope.OrphansStay`); the end of that session does
  (`LinkScope.OrphansEndWithNextSession`). `LinkScope.StepKeepsLinksLive` gives the exact condition.
- A snapshot withdraws a device it lists with a longer path than the one in place
  (`Snapshots.LongerPathIsWithdrawn`), so a snapshot that should mend lost changes need not
  (`Resynchronisation.LostOfflineLeavesBehind`); `Resynchronisation.ResyncCatchesUpIff` says exactly
  when it does.
- An enrolment code's deadline is checked at the lookup, not at the burn, so a code can be used after
  it (`Enrolment.WinsIffLookedUpInTime`, `Enrolment.UsedLateIffBurnedLate`).
- Resolving a session writes the deadline without asking whether it is still the one that was read, so
  requests that overlap write more often than once an hour and can move it back
  (`SessionWrites.TwoRequestsWriteTwice`). `SessionDeadline.ExtendMovesBackIff` says exactly when,
  `SessionWrites.WritesAreAmortised` how often, and the `Sequential` lemmas what holds otherwise.
- A link device that registers again leaves its routes on the tunnel it displaced until its next
  snapshot (`LinkScope.StepKeepsTunnelsIff`, `LinkScope.SnapshotRestoresTunnel`).
- The console stops paging at a page that is shorter than it asked for, which a size above 500 always
  is (`AuditPaging.PagingIsCompleteIff`). It asks for 100.
- `src/proxy.rs:99-100` says that the rest of a device path never starts with a slash. It can
  (`Addressing.RestMayStartWithSlash`).
- A relay that advertises subdomain addresses disappears from the address lists of the relays below
  it (`ChainAddresses.RewriteOwn`).

## Model

| member | source | states |
|---|---|---|
| RegistryRuns.TableHoldsInEveryRun | src/registry.rs:90-137 | In every run of draws, registrations, disconnects, announcements and withdrawals: entries are filed under their own id, an entry is direct exactly when its route is, numbers are distinct and were drawn and used, announced chains leave this relay out and fit the budget, no device is both live and withdrawn, and every declared relay id names a live direct entry |
| RegistryRuns.StepKeepsTable | src/registry.rs:226-428 | Each block under the lock keeps that invariant, with a number that may be older than one already installed |
| RegistryRuns.LogRefinesTableInEveryRun | src/registry.rs:165-220 | Replaying every published change from nothing gives exactly what the relay announces, including a downstream link that displaces a destination and appears as Offline |
| RegistryRuns.StepKeepsLogRefinement | src/registry.rs:197-212 | Each step publishes exactly what keeps a subscriber's replay equal to the announcements |
| StepEffects.ReplayShowsDestinations | src/registry.rs:178-194 | In every run, replaying the published changes shows an id if and only if it has an entry that is not a relay on a tunnel of its own, under that id and the entry's name, online, through this relay and then the hops of the entry's route |
| StepEffects.ConnectEffect | src/registry.rs:226-263 | A registration makes the tunnel the device's only route and publishes a desktop Online on this relay's own chain, Offline for a destination that a link displaces, and nothing for any other link |
| StepEffects.AnnounceEffect | src/registry.rs:350-400 | An announcement is recorded and published one hop longer if it meets no route, a longer announced one or an equally long one that was numbered earlier; any other changes nothing and publishes nothing |
| StepEffects.WithdrawEffect | src/registry.rs:403-428 | A withdrawal removes, remembers and publishes Offline exactly what the link announced, and does nothing to anything else |
| RouteHistory.ChainsNeverLengthen | src/registry.rs:519-528 | In every run, between two Offline changes for a device, its published chains never get longer |
| RouteHistory.BestRouteInEveryRun | src/registry.rs:350-400 | Since a device was last absent its route is the direct tunnel if one connected, otherwise the fewest-hops then latest-numbered of all routable announcements that reached the lock, refused ones included |
| RouteHistory.LockOrderDoesNotMatter | src/registry.rs:350-400 | Two runs that offered the same announcements in any order of taking the lock route the device alike |
| RoutingTable.ReplacesIsTotal | src/registry.rs:519-528 | Of two announced routes with distinct numbers exactly one replaces the other |
| RoutingTable.ReplacesIsTransitive | src/registry.rs:519-528 | Replacing is transitive, so with the previous row it is a strict total order |
| LinkScope.DisconnectIsScoped | src/registry.rs:269-299 | A stale disconnect changes nothing; a matching one removes exactly the link's entry, what it announced, its withdrawn records and its relay ids, leaves everything else, and publishes one Offline for each lost entry that is not a relay on a tunnel of its own |
| LinkScope.StepKeepsLinksLive | src/registry.rs:350-428 | A step keeps every announced entry and withdrawn record on a live link if and only if it is not an accepted announcement for a link that is not registered |
| LinkScope.LinksLiveInEveryGuardedRun | src/tunnel/session.rs:323-358 | In every run where a link's frames apply only while it is registered, every announced entry and withdrawn record names a live link |
| LinkScope.LateFrameOutlivesItsLink | src/tunnel/session.rs:124-137 | Without that condition it fails, in every run: a routable frame of a deregistered link leaves an entry behind |
| LinkScope.OrphansStay | src/registry.rs:269-299 | Such an entry outlives every disconnect until the link device registers again, unless its device is registered, announced again or withdrawn |
| LinkScope.OrphansEndWithNextSession | src/registry.rs:269-299 | The end of the next session of the link device takes the entry along |
| LinkScope.StepKeepsTunnelsIff | src/registry.rs:226-263 | A step keeps every announced route on the tunnel its link is registered with, if and only if it is neither another registration of a link device that owns routes nor an accepted announcement that did not come over the registered tunnel |
| LinkScope.SnapshotRestoresTunnel | src/registry.rs:324-344 | After a link device registered again, the snapshot on its new tunnel brings all its routes there |
| Sessions.ReconnectsAreSafeInEveryRun | src/tunnel/session.rs:96-137 | In every interleaving each open session is the registered one or had its tunnel handed back to be closed, never both and never twice; a device is directly online exactly while its last-registered session is open |
| Sessions.StaleEndChangesNothing | src/registry.rs:269-279 | The late cleanup of a displaced session leaves table and log as they were |
| Snapshots.AnnounceNowExact | src/registry.rs:350-400 | With a fresh number an announcement is accepted exactly when it is routable and the current route is absent or announced over at least as many hops; a refused one changes nothing and publishes nothing |
| Snapshots.SnapshotIsExact | src/registry.rs:324-344 | A snapshot with distinct ids has one result whatever order its leftovers come in: which devices become the link's, which are withdrawn and remembered, that nothing else changes, and that each of the first group is published Online once and each of the second Offline once |
| Snapshots.SnapshotHasOutcome | src/registry.rs:324-344 | The same id by id, in terms of the entries: what an uninterrupted snapshot makes of every device, listed or not, with the relay ids unchanged |
| Snapshots.SnapshotRehomesLink | src/registry.rs:324-344 | After a snapshot everything the link owns was in it and is routed over the tunnel it came on, also when an older tunnel of the same link had announced it |
| Snapshots.LongerPathIsWithdrawn | src/registry.rs:324-344 | A longer path from the same link is refused and the snapshot carrying it withdraws the device |
| RegistryObject.Registry.constructor | src/registry.rs:150-157 | A new registry is the empty table that every run starts from |
| RegistryObject.Registry.Connect | src/registry.rs:226-263 | Draws a number, makes the tunnel the device's only route, answered by every later lookup, and leaves all other routes alone; returns the displaced tunnel exactly when it was a direct one; a declared relay id is shown under the link's name |
| RegistryObject.Registry.Disconnect | src/registry.rs:269-299 | If the serial is the registered one, removes the device's entry and all it announced and nothing else, as one step for some order of the link's devices; otherwise does nothing; reports which |
| RegistryObject.Registry.AnnounceDevice | src/registry.rs:350-400 | Reports acceptance exactly; an accepted device is recorded as a desktop with the announced name, its lookups answer the link with the announced chain, and all other routes stay; a refused one leaves table and log alone |
| RegistryObject.Registry.WithdrawDevice | src/registry.rs:403-428 | Removes an announced device of this link, remembers its name, publishes Offline and leaves the rest; ignores a withdrawal for a route the link does not own |
| RegistryObject.Registry.ApplyAnnouncement | src/registry.rs:324-344 | The two loops, `InstallAll` and `WithdrawLeftovers`, compute a snapshot result for some order of the leftovers; when ids are distinct, each id ends with the entry `SnapshotHasOutcome` gives it and no relay id changes |
| RegistryObject.Registry.Announcements | src/registry.rs:165-172 | Lists an id if and only if it has an entry that is not a relay on a tunnel of its own, once, under the entry's name and through this relay; exactly what a replay of the change log has |
| RegistryObject.Registry.RouteTo | src/registry.rs:301-307 | The lookup every stream starts from answers the route in the table and nothing for a device without an entry; chains it answers leave this relay out and fit the budget |
| RegistryObject.Registry.HopNames | src/registry.rs:440-454 | A declared relay id is shown as the name of a live direct link, any other id as itself |
| RegistryObject.Registry.LastKnown | src/registry.rs:313-318 | A device is remembered as withdrawn only while it has no route, under the name and time its withdrawal recorded |
| Convergence.UpstreamConverges | src/upstream/session.rs:284-323 | On a link that owns nothing yet, whatever else the upstream routes: a snapshot followed by every change since the earlier subscription, including those the snapshot reflects, leaves each device routed over this link under the announced name and chain if the chain can be used, and not at all if it is not announced; except that a device somebody else routes keeps its very entry if and only if no offered chain took it over |
| Convergence.ForeignDeviceFollows | src/registry.rs:371-396 | A device on a tunnel of its own or announced by another link keeps its entry until the snapshot or an increment shows a usable chain that is no longer; from then on it is followed like any other |
| Interference.ConvergesAmidOtherActivity | src/upstream/session.rs:306-323 | A device without a route when the link comes up ends up to date when other devices, links and sessions take any steps between the items of the snapshot and the increments, as long as the link lasts and nobody else routes the device |
| Convergence.HeldIffStillShown | src/upstream/session.rs:413-448 | A device nobody else routes is held exactly when a usable chain was shown and no Offline since, which decides when a device whose current chain is unusable is still held |
| Convergence.TurningBackLeavesStaleRoute | src/upstream/session.rs:425-442 | A run in which the downstream's route turns back through the upstream without an Offline, so the upstream keeps an older chain |
| Convergence.IncrementsAreNeverRefused | src/registry.rs:519-528 | After the snapshot every increment with a chain the upstream can use is in the table of the upstream at once: the replacement rule never refuses it |
| Convergence.RepeatsAndIncrementsConverge | src/upstream/session.rs:284-287 | At every point after the snapshot, while increments still repeat it and later, the table of the upstream is up to date with what was announced at that point |
| Convergence.SnapshotIsHeld | src/registry.rs:324-344 | Right after a snapshot on a link that already announced things, the upstream holds exactly what was offered, except that a device it held on a shorter chain is withdrawn |
| Resynchronisation.ResyncCatchesUpIff | src/upstream/session.rs:306-314 | After any changes were lost, the fresh snapshot and the changes still to be had catch the upstream up on a device if and only if it did not hold that device on a chain shorter than the snapshot's, or a later change concerns it; otherwise the device is announced and usable but has no route |
| Resynchronisation.LostOfflineLeavesBehind | src/upstream/session.rs:311-313 | A run in which a lost Offline and a longer chain leave a device without a route after the snapshot meant to mend the loss |
| UpstreamLink.SnapshotFor | src/upstream/session.rs:413-422 | The snapshot lists exactly the entries that are not relays on tunnels of their own and whose chain the upstream can use, under their names and through this relay, each once; this is what a replay of the log announces |
| UpstreamLink.ForwardChanges | src/upstream/session.rs:425-442 | An Offline always becomes a frame and an Online exactly when the upstream is not on its chain, with its id, name and chain; applying the frames is feeding the changes one by one, whatever table they meet |
| UpstreamLink.HandleControlFrame | src/tunnel/session.rs:323-358 | A relay's snapshot has the outcome of `SnapshotHasOutcome`, its DeviceOnline installs and publishes exactly an announcement that can take over, its DeviceOffline withdraws exactly what it announced; pings, and any frame of a desktop, change nothing |
| Forwarding.PathIsCarriedIff | src/upstream/forward.rs:68-89 | Every relay of a path forwards a stream if and only if the path visits no relay twice, none already crossed, and fits the budget; the preface then lists them in order |
| Forwarding.RefusalNamesItsCause | src/upstream/forward.rs:68-89 | The first relay of a path that does not carry the stream refuses it for a loop if the stream had crossed it, whatever the budget, and otherwise for the budget with the hops used |
| Forwarding.StreamsTerminate | src/upstream/forward.rs:43-89 | With arbitrary tables that may change at every hop, links that may form cycles and a preface that may hold anything, a stream is carried on by each relay at most once, by none it had crossed before, and within the budget |
| StreamOpening.OpenStream | src/proxy.rs:516-543 | A stream starts on the device's own tunnel without a hop or on its link with this relay as the only hop, and does not start for a device without an entry |
| StreamOpening.Carry | src/upstream/forward.rs:43-62 | A relay in the middle refuses a stream that crossed it, else one without budget, else one whose target has no entry, and otherwise carries it on over the entry's tunnel with itself as the last hop; this is the hop of `StreamsTerminate` |
| Network.ChainsAreCleanInEveryRun | src/registry.rs:178-194 | In every run of a network, with announcements delayed, lost, repeated or reordered and relays restarting, every published chain names each relay once and starts at its announcer, and every installed route starts at the relay behind its tunnel |
| Network.InstalledRoutesAreFollowable | src/proxy.rs:538-543 | In every run, a stream started on the route a lookup answers, with this relay as its first hop when it leads over a link, is refused by no relay it was announced through, for a loop or for budget |
| Network.SnapshotsWerePublished | src/upstream/session.rs:413-422 | Whatever a relay lists in a snapshot, also after restarts, it has published, so snapshots are among the announcements of the previous row |
| Network.AgreedStreamsArrive | src/upstream/forward.rs:43-62 | When the tables along an installed route agree, the stream crosses exactly the announced relays and is delivered on the direct tunnel the last of them has the device on |
| LinkedNetwork.WorldHoldsInEveryRun | src/upstream/session.rs:284-323 | The invariant behind the next rows, in every run of a network whose links each deliver a snapshot and then the log of their lower end in order, lose changes and send another snapshot any number of times, and are interleaved with sessions, withdrawals, numbers drawn early, competing links, restarts and links that come and go |
| LinkedNetwork.DrainedRoutesAreCurrent | src/registry.rs:350-428 | Whoever else competes for a device and whatever was lost on the way: a route over a link that has delivered everything is still announced by the next relay, and is exactly the chain announced now if that chain can be used |
| LinkedNetwork.SettledTablesAgreeIff | src/upstream/session.rs:306-323 | Once every announced route leads over a link that is up and has delivered everything, so that none is left from a tunnel that ended, the tables along all routes agree with each other if and only if no current chain turns back through the relay that routes over it |
| LinkedNetwork.SettledStreamsArrive | src/upstream/forward.rs:43-62 | And then every stream crosses exactly the announced relays and reaches the device's direct tunnel at the last of them |
| Enrolment.EnrolmentHoldsInEveryRun | src/api/enroll.rs:76-103 | The invariant behind the next rows, over every interleaving of redemptions, cancellations, revocations, deleted accounts and failures: it ties every redemption to its lookup before the deadline, every used code to the reading and the device of its winner, and every device row to its code |
| Enrolment.AtMostOneCredential | src/db/enrollments.rs:139-146 | At most one redemption of a code ever returns a credential |
| Enrolment.UsedExactlyWhenWon | src/db/enrollments.rs:139-155 | A code is used exactly when a redemption won it, and never both used and cancelled |
| Enrolment.StatusIsFate | src/db/enrollments.rs:43-63 | In every run a code reads as used if and only if a redemption won it, as cancelled if it was cancelled instead, and as expired or pending by its deadline otherwise |
| Enrolment.WinnersMatchTheirCode | src/api/enroll.rs:85-90 | The device a credential was returned for is the one the code records and this redemption made, under the name it was given, of the code's kind, and of the code's owner if and only if that account was not deleted since |
| Enrolment.LosersAreRevoked | src/api/enroll.rs:91-101 | Every device row made by a finished losing redemption is revoked |
| Enrolment.SettledStays | src/db/devices.rs:221-227 | Use, user, cancellation and revocation of a row never change once set, and no row disappears |
| Enrolment.CancelledCodesNeverWin | src/db/enrollments.rs:148-155 | After a cancellation no redemption wins, including one that looked the code up before it |
| Enrolment.DeadlineGuardsTheLookup | src/api/enroll.rs:79-83 | Every redemption that got past its lookup, the winner included, looked the code up before the deadline |
| Enrolment.UsedLateIffBurnedLate | src/db/enrollments.rs:139-146 | The time of use is the reading of the winning burn, so a code is used after its deadline if and only if it was burned then; its lookup was in time all the same |
| Enrolment.WinsIffLookedUpInTime | src/api/enroll.rs:79-96 | A redemption with given readings can win if and only if its lookup comes before the deadline, whenever its burn is |
| Enrolment.Database.EnrollWithCode | src/api/enroll.rs:76-103 | Returns a credential exactly when the code is there, unused, uncancelled and before its deadline at the lookup, and no rival settles it before the burn; the winner's row has the given name and the code's kind and owner; a loser leaves its own row revoked and the rival's settlement alone |
| Enrolment.Database.MarkEnrollmentUsed | src/db/enrollments.rs:139-146 | Burns an open code and only an open code |
| Enrolment.Database.CancelEnrollment | src/db/enrollments.rs:148-155 | Cancels an open code and only an open code |
| Enrolment.Database.RevokeDevice | src/db/devices.rs:221-227 | Revokes once; the first timestamp stays |
| Enrolment.Database.DisownDevicesOf | src/db/devices.rs:249-255 | Deleting an account takes the owner off its devices and changes no other row and no other field |
| SessionDeadline.UndisturbedRequestResolves | src/auth/session.rs:56-81 | A request whose database calls come one right after another deletes a session that cannot be used, and slides the deadline of one that can |
| SessionDeadline.DeadlineIsBounded | src/auth/session.rs:34-91 | In every interleaving of the calls of all requests: the deadline is seven days after the highest reading it was written with, or behind that by no more than the furthest a write slipped behind an earlier one; so it is at most seven days after the latest lookup, and more than seven days less an hour and the slip after every answer |
| SessionDeadline.ExtendMovesBackIff | src/db/sessions.rs:55-61 | A write moves the deadline back if and only if the last write since its lookup carried a later reading; it replaces another deadline than its lookup saw if and only if one was written since; otherwise it moves the deadline an hour or more |
| SessionDeadline.DeleteTakesLiveSessionIff | src/auth/session.rs:64-67 | A request that saw a session expired deletes it alive if and only if the last write since its lookup moved the deadline past its reading |
| SessionWrites.WritesAreAmortised | src/auth/session.rs:19-24 | However many requests arrive and overlap: the writes are at most the largest number of requests that were on their way to one at the same time, for every hour less the slip between creation and latest write |
| SessionWrites.CleanWritesAreAmortised | src/auth/session.rs:87-91 | The writes that replaced the deadline their lookup saw are at most one for every hour of use and of what other writes took back |
| SessionWrites.TwoRequestsWriteTwice | src/auth/session.rs:56-81 | Two overlapping requests can write twice in little more than an hour, which is as often as the bound allows, and move the deadline back |
| SessionWrites.SequentialRunsAreBounded | src/auth/session.rs:19-24 | If no two requests are on their way to a write at once, the writes are at most the hours between creation and latest lookup, and the deadline is more than seven days less an hour after every answer |
| SessionWrites.SequentialDeadlineNeverMovesBack | src/auth/session.rs:87-91 | In such runs no step moves the deadline back, whatever the clock does, and one that moves it moves it an hour or more |
| SessionDeadline.RegularUseNeverExpires | src/auth/session.rs:56-81 | A lookup within seven days less an hour, and less the slip, of an answer finds the session alive; one seven days after every reading written does not |
| SessionDeadline.Sessions.ResolveSession | src/auth/session.rs:56-81 | Answers with the account if and only if the row is there, its deadline is ahead and its account exists and is not disabled; then slides the deadline to seven days from now if that is an hour or more; otherwise leaves no such row; touches no other row |
| SessionDeadline.RequestGoesOnIff | src/auth/session.rs:56-81 | In every world a lookup goes on if and only if the row is there and its deadline is ahead, and the check of the account leads to an answer or a write if and only if the account exists and is not disabled in that world; otherwise the session is to be deleted |
| SessionDeadline.RemovalsAreScoped | src/db/sessions.rs:63-84 | Each step that removes sessions removes exactly its own: one token, one account's, or the expired ones; it changes no row and no account |
| SessionDeadline.Sessions.DeleteSessionsOfUser | src/db/sessions.rs:68-74 | Removes exactly the sessions of one account |
| SessionDeadline.Sessions.DeleteExpiredSessions | src/db/sessions.rs:78-84 | Removes exactly the expired sessions and counts them |
| ChainAddresses.ChainIsReported | src/upstream/addresses.rs:37-76 | For any mix of address forms a relay reports its own address and then exactly the path-form relays above it, nearest first, each at its own saturating hop count |
| ChainAddresses.OwnAddressComesFirst | src/state.rs:51-66 | Whatever is above, the first address is this relay's own under its id and host, with no hop |
| ChainAddresses.PathChainCountsHops | src/state.rs:51-66 | With every relay in path form, the relay n hops below the top reports n + 1 addresses; the k-th has hop count k, saturating, the id and host of the relay k above, and that relay's scheme, host and device path |
| ChainAddresses.RewriteOwn | src/upstream/addresses.rs:43-54 | Rewriting an upstream's own address gives its address for the other device one hop further out, and drops it when it is in subdomain form |
| ChainAddresses.ChainNamesEveryRelay | src/upstream/addresses.rs:55-62 | The reported chain names every relay above, nearest first |
| HostRules.AnySpellingReadsBack | src/address.rs:104-132 | Any letter case, any trailing dots, any port after them and any white space around: the host is read as the device it names, and as none when no base is configured |
| HostRules.PrintedPath | src/address.rs:76-86 | Without a base the address of a device is the relay's scheme and host, /d/, the id and a slash |
| HostRules.PrintedSubdomain | src/address.rs:76-86 | With a base it is the relay's scheme, the id, a dot, the base, the port of the relay's host if it has one, and a slash |
| Addressing.RecognisedHostsAreExact | src/config.rs:307-312 | A host is read as a device if and only if the id is valid and the host normalises to id, dot, base |
| Addressing.AdvertisedAddressReadsBack | src/address.rs:76-86 | The host of the advertised subdomain address, with the port of the relay, is read back as the device if and only if that port, without the white space at its end, does not end in a closing bracket |
| Addressing.BracketPortIsAccepted | src/config.rs:256-281 | Public urls with such a port are accepted |
| Addressing.PathAddressReadsBack | src/address.rs:76-86 | The advertised path address reads back as the device's root |
| Addressing.DevicePathsReadBack | src/proxy.rs:103-116 | A path is read as a resource of a device if and only if it is /d/, the id, a slash and the rest, and as a device without its slash if and only if it is /d/ and the id |
| Addressing.RestMayStartWithSlash | src/proxy.rs:99-100 | The documented claim that the rest never starts with a slash is false |
| Addressing.ParsedBasesAreNormal | src/config.rs:324-350 | An accepted base has only valid labels, is lower case, and is accepted again unchanged |
| HostRules.UrlIsAcceptedIff | src/config.rs:256-281 | A public url is accepted with a scheme and host if and only if it is that scheme and host followed by slashes, with white space around, and the host is neither empty nor holds a path, query or fragment mark |
| HostRules.BaseIsAcceptedIff | src/config.rs:324-350 | A base is accepted if and only if its normal form has a dot, only letters, digits, hyphens and dots, no hyphen next to a dot or an end, no empty label and no 64 characters without a dot |
| StreamDriver.Driver.Drive | src/tunnel/session.rs:375-418 | Ends at the first poll that ends it, with that finish: an outbound failure, the peer's end, or a request channel whose handles are all gone; sleeps only after a pass in which every source it polled had nothing. Requests received are those answered, in arrival order and once each, followed by those pending; refusals go to all still queued at an outbound failure and to nobody otherwise |
| StreamDriver.Driver.OpenPending | src/tunnel/session.rs:386-404 | Takes streams for the queue in order until the first poll that has none: if that poll failed it answers all the rest with refusals and says so, and otherwise they stay queued |
| StreamDriver.Driver.DrainRequests | src/tunnel/session.rs:378-384 | Polls the channel only: every poll but the last queues the request it had, in order, and the last is the first that has none or finds it closed |
| AuditPaging.PagingIsCompleteIff | console/src/app/pages/audit-page.ts:118-139 | Paging by the last id while pages are as long as asked for ends, in descending order under any appends; with a target it yields the rows with exactly that target, without one all rows, that existed at the first page, each once, if and only if the size asked for is between 1 and 500 or all of them fit into the one page it gives |
| AuditPaging.OlderIsExact | src/db/audit.rs:55-72 | What lies behind a cursor is exactly the rows with the target asked for, if any, and an id below the cursor, if any, newest first |
| AuditPaging.NewestIsPrefix | src/db/audit.rs:55-72 | One query returns the newest of what lies behind the cursor, up to the limit |
| AuditPaging.CursorCuts | src/db/audit.rs:55-72 | Moving the cursor to a row leaves exactly what follows it |
| AuditPaging.AppendsStayAhead | src/db/audit.rs:37-53 | Events written later never show up behind a cursor |
| AuditPaging.AuditLog.WriteAudit | src/db/audit.rs:37-53 | Appends one event under a number above every earlier one and changes nothing else |
| AuditPaging.AuditLog.List | src/db/audit.rs:55-72 | A page is descending and holds at most 500 rows, each with exactly the target asked for, if any, and an id below the cursor, if any; a row that meets both is missing only if the page is full of newer ones |

## Left out

- WebSocket, TLS, yamux and HTTP: external libraries. A tunnel is an identity, a poll an arbitrary answer.
- The protocol crate's encodings, its device id parser, its backoff and its value of `MAX_HOPS`: the crate is not part of this model.
- The handshake guard `refuse_loop` (`src/upstream/session.rs:149-153`): the chain it checks is not refreshed later, so no property of the network rests on it.
- Resynchronisation.ResyncCatchesUpIff: takes one loss at a time and nobody else routing the device; LinkedNetwork.DrainedRoutesAreCurrent says what holds of the routes that are there after any number of losses amid anything else.
- Interference.ConvergesAmidOtherActivity: a device somebody else routes at the same time may be lost to them and not come back, because a route that is displaced is forgotten; LinkedNetwork.DrainedRoutesAreCurrent says what still holds of the routes that are there.
- LinkedNetwork.SettledTablesAgreeIff: does not claim that a network comes to rest.
- Wrap-around of the 64-bit sequence counter and overflow of 64-bit millisecond clocks: counters and clocks are unbounded integers.
- Two clock readings inside one snapshot may differ by the time it takes; the model uses one.
- Delivery of queued control frames and of close requests: the properties are about what the registry hands back.
- `downstream_links` and `snapshot` (`src/registry.rs:431-437`, `src/registry.rs:457-476`): they only list entries.
- Enrolment with a password, name validation, code spelling, lockout and audit entries of enrolment: short local facts. A database error in the middle of a redemption is the `Abort` step.
- Cookies, random tokens and digests of console sessions: a session is known by its digest.
- Letter case outside ASCII: only ASCII letters are folded in hosts and bases, and only ASCII white space is trimmed.
- The request forwarding, pages, headers and access rules of `src/proxy.rs`: they rewrite single requests and keep no state that the routing depends on.
- The console beyond the paging of its audit page.
