# Verified model of the panel's protocols

Dafny models of the parts of the WINGS V panel whose promises span several functions or a
whole run: field-level config edits, the invite tree, the token-keyed transport, traffic
metering and cut-off, wingsv:// links and multi-replica delivery. `dafny verify dfyconfig.toml`
checks everything.

| file | what it holds |
|---|---|
| ConfigTree, ConfigPatch, ConfigHistory | messages as trees, listing / clearing / merging a patch, one client's stored config under concurrent editors |
| InviteTree, InviteTotals, Suspension, InviteMachine | upward and downward walks, usage of branches, cutting and restoring branches, issuing and redeeming codes |
| RecordStream, StreamRefinement, Handshake, Preference, Dialer | the record transport, its refinement to a byte stream, resolving the derivation, remembering it per peer |
| Traffic, TrafficWindows, Metering, ClientMeter, MeterRefinement, Enforcement | counters and series, window totals, what may be charged, cutting off clients |
| LinkCodec | link bodies and whole links |
| Hub | delivery to devices and panel sessions |
| Wrappers, Sorting, Sums, Text, Bytes | shared vocabulary |

Where the source updates state in place the model does too: each table, hub, memory and
connection is a class whose methods are proved equal to a function of the old state, and the
theorems are about those functions. Database tables are maps, times are parameters, byte
counts are unbounded naturals. A method of a class is a whole operation with nothing in
between; the runs of patch saves, redemptions, cuts and logins, and of resolves and cut-off
cycles take the operations apart into their SQL statements, each one atomic step.

## Where the code and its own comments differ

- invites_tree.go calls a cycle in the tree impossible except in malformed data. Redeeming a
  code from an existing account (handlers/admin/invites.go:247-293) can make one: 1 invites 2,
  then 1, who was never invited, redeems a code of 2. `AcyclicRuns` and `LateRedemption` give
  the exact condition, `LateRedemptionMakesCycle` the run.
- RestoreSubtree promises not to undo a higher cut. It does when the lower cut was made first:
  `RestoreUnderStandingCut` says exactly when, `LowerRestoreReopens` shows it.
- SuspendSubtree drops the sessions of a branch. One whose login was checked before the cut and
  opened after the drop stays: `SuspendedWithSession`. It opens nothing while the cut stands,
  because every request asks again, but serves again after the restore without a login:
  `SlippedServesAfterRestore`.
- Preference promises that an old peer costs one failed attempt. Because a failure does not touch
  a proven entry, a peer proven to be old that stayed silent for over an hour is dialled with the
  new derivation for ever, and so at once is a peer proven to be new that is rolled back:
  `UnreachableExactly` is the exact condition, `StaleIsReached` and `RollbackIsOutOfReach` the runs.
- The patch handler reads, writes the config and writes the marks in separate statements.
  `OverlapExact` says which leaves a save that overlaps others gets wrong. `MarksRightExactly`
  says when its marks are right and, for its own fields and for those whose marks it erases,
  which editors miss a conflict; `VersionCheckSerialises` what a check of the version in the
  write would give.
- service.go says that a blocked tunnel cannot be revived by resolving again. A resolve that
  passed the gate earlier still writes its record: `CutOffSafety` is the exact condition,
  `LateWriteRevives` the run.
- Usage is meant to start again after a reset. Counter rows outlive the records, and a 3x-ui node
  mints the same key again, so a client cut at its limit and reset while cut is charged its whole
  old counter when it returns: `ReturningKeyIsCharged` is the run, `JoinIsFree` and
  `JoinAfterReset` say exactly when a returning record charges nothing of the past.
- The match of an invite code ignores case, the join that builds the tree does not:
  `RedemptionGivesEdge` says exactly when, `RedemptionWithoutEdge` is an input.
- A link whose scheme is not in lower case passes the scheme test and can then never be
  decoded: `OtherSpellingsFail`, `OtherSpellingExample`.
- Bytes that moved before a usage reset but were polled after it are charged to the new
  period: `ResetStartsFromZero` says exactly when a reset starts from zero.

## Model

| member | source | states |
|---|---|---|
| ConfigTree.LookupFindsLeaves | internal/configpatch/configpatch.go:37-56 | a path is listed exactly when a leaf value is found there |
| ConfigTree.ClearMergeIsOverlay | internal/configpatch/configpatch.go:73-78 | clearing the replaced lists and merging lays the patch's leaves over the stored ones, lists and maps whole, for all well-typed trees |
| ConfigTree.OverlayWellTyped | internal/configpatch/configpatch.go:62-86 | the merged config fits the schema again |
| ConfigTree.OverlayLookup | internal/configpatch/configpatch.go:62-86 | every leaf of the patch ends with the patch's value, every other leaf keeps its own |
| ConfigTree.OverlayAssociative | internal/configpatch/configpatch.go:62-86 | two patches applied in turn are one combined patch |
| ConfigTree.AgreementCommutes | internal/configpatch/configpatch.go:62-86 | patches with equal values on all shared leaves can be laid over each other in either order |
| ConfigPatch.RenderInjective | internal/configpatch/configpatch.go:37-43 | dotted spellings identify paths: names without dots never collide |
| ConfigPatch.RenderFromTheTop | internal/configpatch/configpatch.go:37-43 | a path is spelled from its outermost field inwards with dots in between |
| ConfigPatch.NameOfPath | internal/configpatch/configpatch.go:37-56 | a spelling is listed exactly when its own path is touched |
| ConfigPatch.TouchedExactly | internal/configpatch/configpatch.go:40-42 | all leaves are edits but those of type and ver at the very top |
| ConfigPatch.Walk | internal/configpatch/configpatch.go:37-56 | appends the spelling of every populated leaf below a prefix, each once, skipping type and ver at the top only |
| ConfigPatch.Paths | internal/configpatch/configpatch.go:27-35 | the sorted list, without repeats, of exactly the touched leaves; nothing for a missing patch |
| ConfigPatch.ClearReplacedLists | internal/configpatch/configpatch.go:90-102 | the receiver without every list and map the source carries, at any depth |
| ConfigPatch.Apply | internal/configpatch/configpatch.go:62-86 | refuses a missing or empty patch, otherwise the patched config with version and stored type put right |
| ConfigPatch.Conflicts | internal/configpatch/configpatch.go:108-120 | sorted list of exactly the listed paths touched after a positive base version |
| ConfigPatch.Touch | internal/configpatch/configpatch.go:124-132 | the listed paths carry the new version, all others keep theirs |
| ConfigHistory.ConfigRow.Upsert | internal/storage/state.go:28-47 | a whole-config save takes the next version and leaves the marks alone |
| ConfigHistory.ConfigRow.SavePatch | internal/handlers/admin/clients.go:1218-1265 | a save whose statements have nothing in between: nothing to do, or a conflict with exactly the clashing fields, or saved as the next version with the marks of the touched fields raised |
| ConfigHistory.PatchedShape | internal/configpatch/configpatch.go:77-85 | overlay of the edits, stored type, version number of the patch, else the stored one, else 1 |
| ConfigHistory.PatchedFrames | internal/configpatch/configpatch.go:58-86 | leaf by leaf frame of a save, and Paths of the result is the union |
| ConfigHistory.FirstConfig | internal/configpatch/configpatch.go:66-86 | the first patch of a client gives version number 1 unless it sets one, no type, and exactly its edits |
| ConfigHistory.PatchTwice | internal/configpatch/configpatch.go:62-86 | applying a patch again changes nothing |
| ConfigHistory.SavesCommute | internal/configpatch/configpatch.go:62-86 | two saves commute if and only if they agree on shared leaves and on the version number |
| ConfigHistory.MarksAreLastTouches | internal/configpatch/configpatch.go:122-132 | over any history a mark is newer than a version exactly when a later patch touched the field; whole saves leave no mark |
| ConfigHistory.ConflictsExact | internal/configpatch/configpatch.go:104-120 | the conflicts are exactly the fields some patch touched since the editor was opened |
| ConfigHistory.EditsSerialisable | internal/configpatch/configpatch.go:104-120 | a conflict-free patch ends where saving it first and replaying the later patches would have ended, if and only if it sets no version number other than the last one they set |
| ConfigHistory.EditsAcrossPush | internal/storage/state.go:28-47 | with a whole-config save among the later saves a patch serialises if and only if it changes nothing |
| ConfigHistory.AloneIsSaved | internal/storage/state.go:81-100 | the read, the config write and the marks write with nothing in between are the atomic save |
| ConfigHistory.OverlapExact | internal/handlers/admin/clients.go:1224-1262 | whatever happens between a save's read and its write, at each leaf the write gives what saving then would have given if and only if the save edits the leaf or its value is still the one read |
| ConfigHistory.OverlappingSavesLoseEdits | internal/handlers/admin/clients.go:1224-1262 | two saves that read the same row differ from one after the other exactly at leaves only the first edits, unless it changed nothing there; only the second's marks remain, one version too low |
| ConfigHistory.LostEditExample | internal/handlers/admin/clients.go:1224-1262 | two one-field patches of a fresh config, the first of which is lost |
| ConfigHistory.MarksRightExactly | internal/handlers/admin/clients.go:1260-1262 | a save leaves right marks if and only if its config found the version it had read and no other patch landed before its marks; and for every field, its own or another's, exactly which editors are not told of a conflict |
| ConfigHistory.VersionCheckSerialises | internal/storage/state.go:28-100 | in every run of statements in which every config finds the version its save had read, the stored config is that of the saves replayed in the order they landed |
| InviteTree.InviteEdges | internal/storage/invites_tree.go:35-73 | the parent map given by the first usable row of each child |
| InviteTree.BranchesNestOrAvoid | internal/storage/invites_tree.go:155-181 | any two branches are nested or disjoint, cycles included |
| InviteTree.AncestryIsReachable | internal/storage/invites_tree.go:257-286 | the chain holds exactly the others reachable upward, each once, never more than there are edges |
| InviteTree.AncestryOf | internal/storage/invites_tree.go:268-280 | the walk returns the whole chain; the step cap never truncates |
| InviteTree.InviteAncestry | internal/storage/invites_tree.go:261-286 | every member with a non-empty chain, with that chain |
| InviteTree.WalkUp | internal/storage/invites_tree.go:138-153 | depth is min(64, length of the chain); cut iff the member or one of the first 64 inviters is suspended |
| InviteTree.Children | internal/storage/invites_tree.go:164-167 | each member under exactly their inviter, once |
| InviteTree.InviteSubtree | internal/storage/invites_tree.go:159-181 | lists, root first and without repeats, exactly the nodes from which the root is reachable; the cap never truncates |
| InviteTree.UpwardAndDownwardAgree | internal/storage/invites_tree.go:155-181 | being in a branch and having its root in one's ancestry are the same, on any data |
| InviteTotals.SubtreeTotals | internal/storage/admintraffic.go:99-118 | bytes, clients and members of exactly the branch |
| InviteTotals.RollupAdminTraffic | internal/storage/admintraffic.go:69-83 | one row per admin with own and branch usage, not counting the admin among those brought in |
| InviteTotals.UsageMovesUp | internal/storage/admintraffic.go:69-118 | bytes and clients of one member count, as such, for exactly the members whose branch they are in |
| InviteTotals.IdleRow | internal/storage/admintraffic.go:77-79 | without usage all sums are zero and the members brought in are the branch without its root |
| InviteTotals.TotalIsOwnPlusChildren | internal/storage/admintraffic.go:97-118 | on acyclic data a branch is its root's usage plus its children's branches |
| InviteTotals.RootsCarryEverything | internal/storage/admintraffic.go:29-37 | the branches of the roots add up to everybody's own usage |
| Suspension.AdminTables.SuspendSubtree | internal/storage/invites_tree.go:191-219 | refuses unknown ids and owners, otherwise, with nothing in between its two statements, cuts the active non-owners of the branch and drops its sessions |
| Suspension.AdminTables.RestoreSubtree | internal/storage/invites_tree.go:225-239 | clears exactly the rows this root cut |
| Suspension.AdminTables.IsSuspended | internal/storage/invites_tree.go:242-255 | the row's own state and reason |
| Suspension.AdminTables.Login | internal/auth/auth.go:126-141 | with nothing between its check and its insert, a session opens only for an account that is not cut |
| Suspension.AdminTables.Authenticate | internal/auth/auth.go:170-189 | a session stands for its account only while that is not cut |
| Suspension.RestoreUndoesSuspend | internal/storage/invites_tree.go:187-239 | Restore after Suspend is Restore |
| Suspension.CutMarksExactly | internal/storage/invites_tree.go:204-211 | a cut marks exactly the active non-owners of the branch |
| Suspension.InnerCutIsNeutral | internal/storage/invites_tree.go:221-239 | a cut made and lifted under a standing one changes nothing if and only if nobody carried its mark before |
| Suspension.LowerCutSurvives | internal/storage/invites_tree.go:221-239 | a lower cut made first outlives the restore of a higher one |
| Suspension.CutIsComplete | internal/storage/invites_tree.go:187-219 | after a cut every non-owner of the branch is suspended, nobody in it has a session, everybody else is as before |
| Suspension.RestoreUnderStandingCut | internal/storage/invites_tree.go:221-239 | a restore keeps a standing higher cut whole if and only if no non-owner under it carries the restored mark |
| Suspension.LowerRestoreReopens | internal/storage/invites_tree.go:221-239 | the three-step example in which it does not |
| Suspension.SuspendedWithSession | internal/auth/auth.go:126-141 | in every run of statements, once no cut has sessions left to drop, a suspended account holds a session if and only if its login was checked before the cut marked it and opened after the cut dropped the sessions |
| Suspension.SlippedServesAfterRestore | internal/auth/auth.go:183-187 | such a session serves nothing while the cut stands and serves again, without a login, once its root is restored |
| Suspension.LoginOutlivesCut | internal/storage/invites_tree.go:203-219 | the shortest run in which that happens |
| Suspension.SessionIsOpenSince | internal/storage/invites_tree.go:215 | in every run a session is there if and only if a login opened it and no logout or drop of its branch came since |
| Suspension.MarkIsTheStandingCut | internal/storage/invites_tree.go:187-239 | in every run an account carries the mark of a cut if and only if that cut found it active and its root was not restored since; no other decision re-marks or reopens it |
| InviteMachine.InviteTables.CreateInviteWithUses | internal/storage/audit.go:208-237 | a new code with its limit, a negative limit being one use |
| InviteMachine.InviteTables.RedeemInvite | internal/storage/audit.go:299-328 | spends one use of every matching code and records the redemption, or changes nothing |
| InviteMachine.SpentOnlyWhileGood | internal/storage/audit.go:308-315 | a use of a code is spent exactly if it is spelled alike, not expired and not used up |
| InviteMachine.FirstUseStays | internal/storage/audit.go:316-318 | the first redeemer and the time of the first use are kept |
| InviteMachine.FreshLimit | internal/storage/audit.go:208-225 | a fresh code is good for its limit, a negative one meaning one and zero none at all |
| InviteMachine.RedeemedOnce | internal/handlers/admin/invites.go:268-280 | whoever has redeemed a code may not redeem another, and nobody their own |
| InviteMachine.InviteTables.RedeemedInvite | internal/storage/audit.go:330-343 | whether the account has a redemption row or is some code's first user |
| InviteMachine.InviteTables.FindInvite | internal/storage/audit.go:345-368 | a code spelled alike but for case, if there is one |
| InviteMachine.InviteTables.HandleRedeemInvite | internal/handlers/admin/invites.go:247-293 | an existing account redeems a code exactly if it is not in the tree yet, the code found is not its own, and a use can be spent; each refusal with its reason |
| InviteMachine.RunsStayCounted | internal/storage/audit.go:293-328 | under any interleaving of registrations and redemptions by existing accounts, recorded plus pending redemptions of a code stay within its count and its count within its limit |
| InviteMachine.RegisteredRunsKeepElders | internal/auth/auth.go:223-278 | while members only join by registering, every inviter is older than whoever they invited |
| InviteMachine.RegisteredTreeIsAcyclic | internal/auth/auth.go:223-278 | while members join by registering, every edge goes from an older account to a newer one and there is no cycle |
| InviteMachine.AcyclicRuns | internal/handlers/admin/invites.go:247-293 | in every run the tree never has a cycle if and only if no step makes somebody the inviter of an account they are already below |
| InviteMachine.LateRedemption | internal/handlers/admin/invites.go:247-293 | a redemption by an existing account keeps the tree free of cycles if and only if the issuer is not below the account, or the redemption gives no edge |
| InviteMachine.ReadTree | internal/storage/invites_tree.go:56-72 | the map the panel reads has no cycle if the tables have none, and exactly then if nobody has two inviters |
| InviteMachine.ReadEdges | internal/storage/invites_tree.go:38-73 | the map read off the rows of both queries holds edges of the tables only, and an inviter for everybody who has one |
| InviteMachine.LateRedemptionMakesCycle | internal/handlers/admin/invites.go:268-284 | the run from empty tables, past every check of the handler, after which two accounts have invited each other |
| InviteMachine.RedemptionGivesEdge | internal/storage/invites_tree.go:43-58 | a newcomer gets an edge if and only if they typed the code as stored or were its first user |
| InviteMachine.RedemptionWithoutEdge | internal/storage/audit.go:308-326 | a redemption that spends a use and gives no edge |
| RecordStream.BigEndianRoundTrip | internal/tokenaead/tokenaead.go:121 | the length prefix decodes to the length |
| RecordStream.HeadIsMostSignificant | internal/tokenaead/tokenaead.go:121 | the first byte of a number is its most significant |
| RecordStream.NonceRepeats | internal/tokenaead/tokenaead.go:103-107 | two records share a nonce if and only if their numbers agree modulo 2^64 |
| RecordStream.NonceLayout | internal/tokenaead/tokenaead.go:103-107 | four zero bytes, then the counter as eight, most significant first |
| RecordStream.TakeFrame | internal/tokenaead/tokenaead.go:349-364 | every framed chunk is accepted: its ciphertext has 17 to 16400 bytes and comes back with the rest of the stream untouched |
| RecordStream.SizeIsChecked | internal/tokenaead/tokenaead.go:349-358 | a length outside 1 to 16400 is refused with nothing taken beyond it, any other is met exactly |
| RecordStream.CutFrame | internal/tokenaead/tokenaead.go:350-363 | a record cut short is the end of the stream |
| RecordStream.LinkIsFaithful | internal/tokenaead/tokenaead.go:87-163 | under the ideal cipher the framing gives back every text and nothing else |
| RecordStream.ReadRecord | internal/tokenaead/tokenaead.go:350-364 | takes one record off the stream with the length checks |
| RecordStream.AeadConn.Write | internal/tokenaead/tokenaead.go:109-132 | sends the text as consecutive records and reports how much went out whole when the stream breaks |
| RecordStream.AeadConn.Report | internal/tokenaead/tokenaead.go:134-141 | fires once, and only if somebody listens |
| RecordStream.AeadConn.Read | internal/tokenaead/tokenaead.go:143-163 | hands out buffered text, else opens the next record under the next number |
| StreamRefinement.SendingIsFrames | internal/tokenaead/tokenaead.go:109-132 | what a write leaves on the wire is whole records of exactly the bytes it counted, then perhaps a broken one |
| StreamRefinement.ChunksAreFull | internal/tokenaead/tokenaead.go:111-116 | every record of a write but the last carries 16384 bytes of text |
| StreamRefinement.WriteKeepsInv | internal/tokenaead/tokenaead.go:109-132 | a write of any size keeps the stream invariant, also on a breaking wire |
| StreamRefinement.ReadGetsNextRecord | internal/tokenaead/tokenaead.go:143-163 | reading never fails while a whole record is there |
| StreamRefinement.ReadDelivers | internal/tokenaead/tokenaead.go:143-163 | a read that need not wait delivers exactly as much of the text at hand as fits, from its start, and keeps the rest |
| StreamRefinement.ReadKeepsInv | internal/tokenaead/tokenaead.go:143-163 | a read of any size keeps the stream invariant |
| StreamRefinement.StreamRefinesBytes | internal/tokenaead/tokenaead.go:87-163 | over every interleaving, delivered then buffered then in flight is what writes reported; counters differ by the records in flight |
| StreamRefinement.ReadingOnDrains | internal/tokenaead/tokenaead.go:143-163 | from every reachable state, as many non-empty reads as bytes are missing deliver everything the writes reported |
| StreamRefinement.TransportRefinesBytes | internal/tokenaead/tokenaead.go:87-163 | the same for the transport itself under the ideal cipher |
| Handshake.ServerHandshakeAny | internal/tokenaead/tokenaead.go:366-400 | the first accepted derivation that opens the first record, with that record already buffered |
| Handshake.ServerHandshake | internal/tokenaead/tokenaead.go:316-322 | with at most one derivation wraps at once and reports the old one, with several resolves first |
| Handshake.ResolveFindsClient | internal/tokenaead/tokenaead.go:366-400 | a sealed record resolves to its own key pair if accepted, else to none, whatever the order of the list |
| Handshake.ServedIffAccepted | internal/tokenaead/tokenaead.go:262-280 | a client is served if and only if the token matches and its derivation is accepted |
| Handshake.KeysAreApart | internal/tokenaead/tokenaead.go:262-322 | each side reads under the key the other writes under, and the two directions, other tokens and other derivations never share one |
| Handshake.ResolvedReadsAlike | internal/tokenaead/tokenaead.go:387-393 | the resolved connection reads exactly like a plain one of the same derivation |
| Handshake.IdealExists | internal/tokenaead/tokenaead.go:75-85 | the assumptions on the cipher can be met |
| Preference.Preference.Next | internal/tokenaead/preference.go:48-59 | the new derivation unless the peer is remembered as old and recently decided |
| Preference.Preference.Succeeded | internal/tokenaead/preference.go:62-66 | records a proven derivation with the time |
| Preference.Preference.Failed | internal/tokenaead/preference.go:78-89 | flips an unproven entry, keeps a proven one |
| Preference.MemoryIsLastVerdict | internal/tokenaead/preference.go:13-22 | on arbitrary runs an entry is the last success if any, else the opposite of the last failure, else absent; peers are independent |
| Preference.MemoryNeverWrong | internal/tokenaead/preference.go:68-77 | with concurrent connections to a peer of one derivation the entry is absent or right, and stays |
| Preference.DialsRight | internal/tokenaead/preference.go:48-59 | after a report the next dial is right if and only if the peer is new or the entry at most an hour old |
| Preference.StaleForever | internal/tokenaead/preference.go:78-89 | a proven old peer silent for over an hour is never dialled right again |
| Preference.StaleIsReached | internal/tokenaead/preference.go:78-89 | an ordinary history from an empty memory ends there |
| Preference.UnreachableExactly | internal/tokenaead/preference.go:48-89 | whatever the memory holds, a peer is out of reach on every continuation if and only if it speaks the old derivation, a success on record is on the new one or over an hour old, and no connection on the old one is under way |
| Preference.RollbackIsOutOfReach | internal/tokenaead/preference.go:78-89 | a peer that answered on the new derivation once and is rolled back is out of reach at once |
| Preference.Preference.Known | internal/tokenaead/preference.go:91-98 | the remembered derivation, proven or not |
| Preference.UpgradeIsNoticed | internal/tokenaead/preference.go:8-11 | more than an hour after the last success an upgraded peer is tried with the new derivation |
| Dialer.ClientHandshake | internal/tokenaead/tokenaead.go:288-314 | with a memory and a token, keys of the derivation the memory gives now, otherwise the fixed ones; a hook for the first read exactly with a memory |
| Dialer.ReadAndRemember | internal/tokenaead/tokenaead.go:305-312 | the first read's outcome, and no other, goes into the memory |
| Dialer.FirstRoundTellsTheTruth | internal/tokenaead/tokenaead.go:303-312 | the dialer's first read succeeds if and only if the listener accepts the dialled derivation; otherwise it meets the end of the stream or a record it cannot open |
| Traffic.NodeTotals.AccumulateNodeTraffic | internal/storage/traffic.go:189-214 | adds the non-negative growth of each counter and stores the reading; a first reading is a baseline |
| Traffic.NodeTotals.SumNodeTrafficTotals | internal/storage/traffic.go:216-234 | the totals of the given nodes, each once |
| Traffic.RowIsOwnReadings | internal/storage/traffic.go:193-214 | a node's row depends on its own readings alone |
| Traffic.AggregateTrafficSeries | internal/statsview/statsview.go:503-550 | totals of the deltas; points strictly ascending at multiples of the width, each carrying exactly what passed on any node in its own interval, one for every interval with a reading and no other |
| Traffic.BucketBounds | internal/statsview/statsview.go:529 | a moment is put at a multiple of the width whose interval holds it, on either side of zero |
| Traffic.BucketsCarryTotal | internal/statsview/statsview.go:529-538 | the buckets add up to the total, however they are cut |
| Traffic.CoarserIsRegrouped | internal/statsview/statsview.go:529-538 | a width k times as wide gives the regrouped finer series |
| Traffic.SeriesIsAccumulated | internal/statsview/statsview.go:507-550 | the series total is what accumulating every node's readings gives |
| TrafficWindows.SinceCutoff | internal/statsview/statsview.go:308-320 | the samples at or after the cutoff, in order |
| TrafficWindows.SinceKeepsExactly | internal/statsview/statsview.go:312-320 | exactly the samples at or after the cutoff, each as often as it was there |
| TrafficWindows.SinceKeepsOrder | internal/statsview/statsview.go:308-320 | in the order they came |
| TrafficWindows.TailCountsLess | internal/statsview/statsview.go:312-320 | dropping the oldest readings never raises a node's total |
| TrafficWindows.RunsKeep | internal/collector/collector.go:255-268 | in every run the rows are the history's totals and the table keeps a tail of every node's history |
| TrafficWindows.SamplesStayUntilPruned | internal/storage/traffic.go:65-67 | in every run a sample is there until a prune goes beyond it, and nothing older is right after one |
| TrafficWindows.WindowsNestUnderAllTime | internal/statsview/statsview.go:260-270 | a narrower window never exceeds a wider one, nor any window the all-time total, whatever was pruned |
| TrafficWindows.PageTotalsOrdered | internal/statsview/statsview.go:260-270 | hour, day, week and all time are in order |
| Metering.NeverOvercharges | internal/storage/traffic.go:189-214 | in either direction the total never exceeds the true bytes since the first reading, and equals them if and only if no poll interval had both a setback and traffic |
| Metering.TotalIsMonotone | internal/storage/traffic.go:205-210 | the total never goes down |
| ClientMeter.FirstRowIsFair | internal/storage/clienttraffic.go:169-176 | the first row of a client, made at any moment, starts a fair account |
| ClientMeter.ClientNeverOvercharged | internal/storage/clienttraffic.go:100-191 | however counters restart and records come and go, as long as none returns under a key with bytes in its row, a client is never charged more than its peers moved since what the last reset had seen |
| ClientMeter.ClientChargedExactly | internal/storage/clienttraffic.go:100-191 | without restarts, and while no record goes, it is charged exactly what the polls have seen |
| ClientMeter.ChargesOnlyWhatMovesExactly | internal/storage/clienttraffic.go:144-191 | from any state whatever, no continuation without a reset or a returning key charges more than moves, if and only if no reading is above the last one and no chargeable counter is ahead of its row |
| ClientMeter.ResetStartsFromZero | internal/storage/clienttraffic.go:105-138 | after a reset nothing is charged that did not move since, if and only if at the reset no chargeable counter was ahead of its row |
| ClientMeter.JoinIsFree | internal/collector/collector.go:205 | a record that joins charges nothing of the past if and only if the reading with its counter row is not above the last reading and its counters are not ahead of the row |
| ClientMeter.JoinAfterReset | internal/storage/clienttraffic.go:345-359 | once everything read has been charged, or right after a reset, it does so if and only if its counter row is empty |
| ClientMeter.UnpolledBytesAreChargedLate | internal/storage/clienttraffic.go:105-138 | the example of a reset for which that fails |
| MeterRefinement.ReadingRefines | internal/storage/clienttraffic.go:345-359 | the reading the panel charges is, in either direction, the sum over the client's records of their counter rows |
| MeterRefinement.PanelKeepsLedgers | internal/storage/clienttraffic.go:102-220 | in every run of traffic, restarts, polls, records set and removed, accumulations and resets the panel's row of a client is what ClientMeter says, whatever happens to others |
| MeterRefinement.PanelNeverOvercharges | internal/storage/clienttraffic.go:140-191 | so the panel never has more on record as used than the client's peers moved |
| MeterRefinement.PanelChargesExactly | internal/storage/clienttraffic.go:140-191 | and without restarts and with no record going exactly what was seen |
| MeterRefinement.FirstRowMirrors | internal/storage/clienttraffic.go:165-176 | a client gets a row exactly when accumulated with a counted record, with nothing used |
| Metering.TicksStayArmed | internal/storage/clienttraffic.go:53-98 | a reset is armed if and only if there is a period |
| Metering.ResetsAreApart | internal/storage/clienttraffic.go:193-220 | scheduled resets under one period are at least that period apart |
| Metering.ResetFallsDue | internal/storage/clienttraffic.go:102-138 | a reset arms the next exactly its period of days later, and none without a period |
| Metering.LimitFallsDue | internal/storage/clienttraffic.go:49-98 | a new period runs from now, an unchanged one is neither hastened nor delayed, usage and readings stay |
| Metering.NoPeriodNoReset | internal/storage/clienttraffic.go:53-56 | with a period of zero or less nothing falls due |
| Enforcement.SumClientPeers | internal/storage/clienttraffic.go:345-359 | the sum over the client's peers that have counters |
| Enforcement.PanelStore.SetClientDisabled | internal/storage/clienttraffic.go:31-47 | flips the switch of an owned client only |
| Enforcement.PanelStore.SetClientTrafficLimit | internal/storage/clienttraffic.go:49-100 | sets cap and period, re-arms only when needed, leaves usage alone |
| Enforcement.PanelStore.ResetClientTraffic | internal/storage/clienttraffic.go:102-138 | zero usage from the current reading |
| Enforcement.PanelStore.AccumulateClientTraffic | internal/storage/clienttraffic.go:145-191 | folds every counted client's reading in and nobody else's |
| Enforcement.PanelStore.RunDueTrafficResets | internal/storage/clienttraffic.go:196-220 | resets and re-arms exactly the due rows |
| Enforcement.PanelStore.BlockedProvisionedClientIDs | internal/storage/clienttraffic.go:285-298 | exactly the blocked clients that hold a record |
| Enforcement.BlockedExactly | internal/storage/clienttraffic.go:24-29 | a client is blocked exactly if it is switched off or has used up a limit, having used nothing before its first row |
| Enforcement.PanelStore.DeprovisionClient | internal/collector/collector.go:189-212 | the client's records are gone, all others kept |
| Enforcement.PanelStore.EnforceTrafficLimits | internal/collector/collector.go:166-187 | accumulate, reset, then cut everybody blocked |
| Enforcement.PanelStore.ResolveClientConfig | internal/provisioning/service.go:117-222 | the answers in the order of the checks and the records each writes |
| Enforcement.OnlyTheAdmittedAreServed | internal/provisioning/service.go:117-214 | nobody is served and no record changes unless every check passes; then a reported key is taken, a held record answered, and only otherwise the backend decides |
| Enforcement.RefusalNamesTheCheck | internal/provisioning/service.go:117-155 | each refusal is the answer exactly when its check is the first to fail |
| Enforcement.PanelStore.ReplicatePeer | internal/provisioning/service.go:282-305 | the same key on every other node that took it, the asking node and those that are down skipped |
| Enforcement.ReplicasExactly | internal/provisioning/service.go:282-305 | which records replication writes, and that it loses none |
| Enforcement.ResolveRespectsTheGate | internal/provisioning/service.go:127-133 | a blocked client gets nothing and no record changes; otherwise the told key is on record at the asking node and on exactly the others that took a copy, every other record untouched |
| Enforcement.CycleLeavesNoneBlocked | internal/collector/collector.go:166-187 | after a cycle no blocked client has a record and every other record is kept |
| Enforcement.RunsStayAccounted | internal/collector/collector.go:166-212 | with the gate and writes of resolves and all edits between a cycle's statements, a blocked holder is still to be cut, newly blocked, or was given the record while blocked |
| Enforcement.CutOffSafety | internal/collector/collector.go:166-212 | once a cycle is through, a blocked client not blocked only after it listed whom to cut holds a record if and only if there is one that was written while the client was blocked |
| Enforcement.LateIsWrittenWhileBlocked | internal/provisioning/service.go:131-181 | in every run those are exactly the records that a resolve past the gate wrote while the client was blocked and nobody has removed or rightly rewritten since |
| Enforcement.BlockedInBetween | internal/provisioning/service.go:131-133 | a client not blocked at the gate is blocked at the write if and only if some step in between blocked it and it stayed so |
| Enforcement.LateWriteRevives | internal/provisioning/service.go:127-181 | the run of the second case |
| Enforcement.ReturningKeyIsCharged | internal/provisioning/service.go:189-214 | a client cut at its limit, reset while cut and resolved again under the key the node keeps for it is charged its whole old counter without a byte moving, and blocked again if that alone holds the limit |
| LinkCodec.Base64RoundTrip | internal/preview/builder.go:25 | decoding an encoded frame gives the frame |
| LinkCodec.KnownEncodings | internal/preview/builder.go:87-99 | the test vectors of section 10 of RFC 4648 and the letters in which the URL alphabet and the links differ |
| LinkCodec.NormalizeUndoes | internal/preview/parser.go:1239-1245 | normalising either alphabet gives plain base64url |
| LinkCodec.LinkBodyRoundTrip | internal/preview/builder.go:87-99 | the body decodes to its frame in both alphabets |
| LinkCodec.SpaceAroundIsIgnored | internal/preview/parser.go:1239-1241 | white space around a body does no harm |
| LinkCodec.LinkBodyIsSafe | internal/preview/builder.go:87-99 | no underscore, no final dot, and different frames have different bodies |
| LinkCodec.ParseUndoesBuilders | internal/preview/builder.go:17-120 | parsing undoes all three builders |
| LinkCodec.FormatBytes | internal/preview/builder.go:58-120 | the first byte under a link is 0x13 before brotli and 0x12 before zlib |
| LinkCodec.RawDeflateIsRead | internal/preview/parser.go:167-187 | raw deflate is read exactly if there is no zlib header |
| LinkCodec.OtherFormatsFail | internal/preview/parser.go:157-165 | any other first byte, an empty body and an empty deflate payload are refused |
| LinkCodec.PaddedRoundTrip | internal/preview/builder.go:27 | the padded attempt reads back what a padding encoder writes |
| LinkCodec.SecondAttemptDecides | internal/preview/builder.go:25-31 | the padded attempt decides exactly when it succeeds on an equals sign that the trimming left |
| LinkCodec.SecondAttemptExample | internal/preview/builder.go:25-31 | a body for which it does, by a line break before its last equals sign |
| LinkCodec.OtherSpellingsFail | internal/preview/builder.go:20-31 | a scheme not spelled in lower case is always refused as bad base64, by both attempts |
| LinkCodec.OtherSpellingExample | internal/preview/builder.go:20-31 | any body at all under a scheme in capitals |
| Hub.Hub.AttachClient | internal/guardianhub/hub.go:76-86 | the new connection takes over and the previous one is named for closing |
| Hub.Hub.DetachClient | internal/guardianhub/hub.go:88-94 | removes the connection only if it is still the registered one |
| Hub.Hub.AttachAdmin | internal/guardianhub/hub.go:125-132 | one more session of the admin |
| Hub.Hub.DetachAdmin | internal/guardianhub/hub.go:134-143 | one session less, and no empty set is left behind |
| Hub.Hub.DeliverTo | internal/guardianhub/hub.go:180-204 | each session is sent the event once |
| Hub.EachHearsOnce | internal/guardianhub/hub.go:180-204 | each of the sessions once, nobody else, nothing else |
| Hub.Hub.FanoutToAdmin | internal/guardianhub/hub.go:163-168 | every local session of the admin once, and one message to the bus |
| Hub.Hub.BroadcastToAdmins | internal/guardianhub/hub.go:170-178 | every local session once, and one message to the bus |
| Hub.Hub.SendToClient | internal/guardianhub/hub.go:102-123 | sent here, or published, or refused |
| Hub.Hub.OnBus | internal/guardianhub/hub.go:239-276 | device frames always, admin messages only of other replicas |
| Hub.LastToComeStays | internal/guardianhub/hub.go:76-94 | in every run the registered connection of a device is the last that came and has not itself gone, so the late detach of a replaced one changes nothing |
| Hub.PanelsStayUntilTheyGo | internal/guardianhub/hub.go:125-143 | in every run a panel connection is registered for an admin exactly if it came and has not gone since, and no admin is kept without connections |
| Hub.SentUnlessRefused | internal/guardianhub/hub.go:102-123 | a message is refused exactly if it is for a device that is neither here nor said to be online; every other is sent here or owed to every replica |
| Hub.FanoutExactlyOnce | internal/guardianhub/hub.go:163-204 | after the bus drains, a session open throughout got each message for it exactly once and no other |
| Hub.FrameExactlyOnce | internal/guardianhub/hub.go:102-123 | a frame that was not refused, for a device held on one replica, is sent exactly once, to that connection |

## Left out

- Protobuf oneofs and unknown fields: setting a oneof member clears its siblings and unknown
  fields concatenate, neither of which fits a tree of independent fields. wingsv.proto is not
  part of this model; any schema with scalar `type` and `ver` at the top is allowed.
- Clone, clear and merge work on values: a cloned tree has one holder, so aliasing inside it
  is not modelled. proto.Merge itself is a library function and taken as documented.
- ConfigHistory.EditsSerialisable: ranges over atomic patch saves after the base version;
  whole-config saves leave no mark to conflict with, see EditsAcrossPush. Overlapping saves are
  the subject of OverlapExact, MarksRightExactly and VersionCheckSerialises.
- SQL, drivers and schema migration: each table is a map and each statement one step.
- Store errors and the logged-and-ignored failures of the collector.
- updated_at, usernames, avatars and other columns no property depends on.
- InviteMachine.RunsStayCounted: assumes that codes are never issued twice, in any spelling,
  and that account ids increase. The limiter of redemption attempts is a step not taken.
- TrafficWindows.WindowsNestUnderAllTime: assumes that every stored sample is also accumulated
  (the collector only logs when that fails) and that the clock does not go back.
- ClientMeter.ClientNeverOvercharged: for records that do not return under a key whose counter row
  still holds bytes; those that do are the subject of JoinIsFree.
- Key derivation, AES-GCM and token hashing: the cipher is a pair of functions assumed ideal
  among the keys in play; nothing is claimed about secrecy, nor about nonces across connections.
- Concurrent Reads or concurrent Writes on one connection: each side is serialised by its lock.
- The relay's own peers: enforcement is about records, which are cleared even when the relay
  refuses.
- brotli, zlib, deflate and the message wire format: abstract, each pair its own inverse.
- Letters that only Unicode lower-casing maps to ASCII are not recognised in the scheme, and
  only ASCII white space is trimmed.
- Metering.ResetsAreApart, TrafficWindows.RunsKeep and the polls of ClientMeter: each poll, reset
  and prune is one step. The accumulation and the due resets of a cut-off cycle are one step
  each; what edits between their statements can do is covered by Change.
- Hub.FanoutExactlyOnce: local delivery and publishing are one step.
- Closing replaced connections, send errors and JSON envelopes of the hub.
- HTTP handlers, account-service and gRPC clients, live rates, offline detection, previews,
  blobs, logs, pending commands, TOTP and donations: plumbing or display.
