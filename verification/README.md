# Proofs about FTW's protocols, stores and plan arithmetic

This project models the parts of FTW whose correctness cannot be read off one function body, and proves in
Dafny what they keep. Each file is one module, named after the code it follows.

- `cbor.dfy`, `ordering.dfy`, `approvals.dfy`, `base64url.dfy`, `invites.dfy`: the bytes that phones and offer
  keys sign, and the invitation codes and claims, as deterministic CBOR (sections 3 and 4.2.1 of RFC 8949) and
  unpadded base64url (section 5 of RFC 4648), with encoder and decoder.
- `push.dfy`: filling the placeholders of a push sentence in whatever order a Go map is walked.
- `migration.dfy`, `migration_site.dfy`: `ftwctl.py migrate-native` as a step machine on a remote box. Every
  command may be done, fail before its effect or fail after it, and every answer may be anything, in recovery too.
  A run is a function of the box, the world and the arguments, and the theorems are about it over all worlds; the
  tool that changes the box command by command is proved to do what that function says.
- `prefs_queue.dfy`, `schedule_writes.dfy`, `soc_writes.dfy`, `history_cache.dfy`, `heat_refresh.dfy`: the web
  page's write queues and single-flight readers, event by event, each with its plain specification.
- `chart_store.dfy`: the live chart's columns as the transpose of one list of samples.
- `release_gates.dfy`: the two publication gates and every history they allow.
- `nice_axis.dfy`, `plan_windows.dfy`, `plan_soc.dfy`: axis, window sums and battery levels over the reals.
- `config_tree.dfy`, `settings_form.dfy`: path updates on the configuration tree, in place on the heap, and what
  a settings form captures.
- `escaping.dfy`: the two HTML escapes.
- `wrappers.dfy`: Option and Result.

Objects the code updates in place are classes. Their methods are proved against functions of the old state, or
against invariants over everything that has happened, which ghost fields record; the lemmas are about those.

Proofs are by hand: automatic induction is switched off at every lemma, and a proof that needs only the contracts
of some functions hides their bodies.

## Where the code does less than one might expect

Each of these is a lemma with a concrete case, beside the exact condition under which the property does hold.

- A claim whose key id is not UTF-8 is written by `Payload` and refused by `ParseAgentInviteClaim`. A claim that
  `Payload` accepts comes back if and only if its key id is UTF-8 (`ClaimRoundTrip`, `UnreadableClaimExists`).
- The order a map is walked in never shows, for any brace-free arguments, if and only if the sentence is stable:
  once an opening brace starts no placeholder, no closing brace stands outside one (`OrderIndependentIffStable`,
  `UnstableWalksDiffer`). And a value never shows it, over all stable sentences and otherwise brace-free arguments,
  if and only if the value has no brace (`SafeIffBraceFree`, `BracesInAValueShow`).
- Recovery does not always start the old unit: once the flag is set it reloads whatever unit file is on disk. Over
  all worlds it starts the old one if and only if that is the one on disk, or the tool does not switch at all
  (`RecoversOldIffOnDisk`, `SlowRun`). That no override is in place at those starts holds always.
- A restore moves everything in the data directory, and the on-box archive always lies there. The archive leaves the
  path the tool prints if and only if the first recovery wait timed out, the stop after it went through and the
  restore did not fail before its effect (`ArchiveMovesIff`; a world where it does is in `SlowRun` and
  `ArchiveStaysIffNotAdmitted`; `ArchiveIsInsideData`; go/internal/backup/archive.go:871-969). The off-box copy is
  never written.
- A run that reports that the old data is running can have left the native Core's data: if a start of the new command
  took effect and no restore did (`RunData`, `RolledBackData`). Over all worlds that happens if and only if the tool
  switches at all (`RollsBackCleanIffNotAdmitted`, `RolledBackOnNativeData`).
- The preference queue compares joined key names, so names with commas or empty names can make two different key
  sets look alike and lose a change (`CommaLosesAChange` gives the run). Every run of calls with given key sets is
  faithful if and only if neighbouring calls that join alike, the first two aside, set no less the second time
  (`FaithfulIffNested`); plain names always do.
- The newest valid schedule edit is not always sent: a later edit that names no day raises the edit number, and a
  save that still waits behind a slow one is then dropped with nothing in its place (`InvalidEditDropsASave`). The
  last write sent is the newest accepted one if and only if no edit was made while a save waited last with nothing
  accepted since (`LastSentIsNewest`); a removal is never lost (`EveryRemovalIsSent`).
- A caller of the heat-pump refresh may also be answered without a new cycle when the card is gone from the page,
  not only when the page is hidden (`ResolvedOnce` says exactly when, `MissingCardAnswersStale` gives a run).
- A stable release with nothing lower before it can change the schema (`UnpromotedStableChangesSchema`). An order of
  publication keeps one schema in every history with it if and only if each release after the first has a lower one
  before it (`OneSchemaIffLower`), which promoting a beta ensures (`PromotedIsOneSchema`).
- Capturing a settings form twice can change more than capturing it once. Over all states and contents of the fields
  it never does if and only if no password box has a later field, or a checkbox, whose path is its own or leads to it,
  another password box on its own path aside (`CapturesOnceIffKeepsPasswords`, `SharedPathCapturedTwice`).
- The schema gate takes the first of several releases of the highest rank, and tags with leading zeros can share one.
  Its verdict is independent of the list's order if and only if those releases name one schema, or it refuses the tag
  or an entry anyway (`OrderFreeIffTopAgrees`).

## Model

| member | source | states |
|---|---|---|
| Cbor.HeadRoundTrip | go/protocol/envelope.go:95-107 | Every head of a major type and a 64-bit count reads back whatever follows it, and is never taken for null |
| Cbor.HeadBytes | go/protocol/envelope.go:95-107 | A head byte by byte: the type, then the count in the first of no, one, two, four or eight further bytes that hold it, highest byte first |
| Cbor.ShortestHead | go/protocol/envelope.go:95-107 | No bytes that read as a head of this type and count are shorter than the one written, and none as short are others |
| Cbor.LongHead | go/protocol/agents.go:17-22 | A head longer than needed is read as the same type and count |
| Cbor.ShortestItem | go/protocol/envelope.go:95-107 | Any bytes that read as an item are at least as long as its encoding, and as long only if they are its encoding |
| Cbor.FirstByte | go/protocol/envelope.go:95-107 | The top three bits of the first byte name the type, and null is f6 |
| Cbor.ValidUtf8Iff | go/protocol/agents.go:17-22 | The text strings a decoder takes are exactly the UTF-8 of Unicode scalar values |
| Cbor.DecodeEncode | go/protocol/envelope.go:95-107 | Reading an encoded item gives the item and exactly the bytes after it, for nested arrays and maps of any size |
| Cbor.PrefixFree | go/protocol/agents.go:512-526 | Two encodings followed by anything that agree as bytes are of the same item with the same rest |
| Cbor.EncodeInjective | go/protocol/agents.go:512-526 | Items with the same bytes are the same item |
| Ordering.AcceptedListIsSorted | go/protocol/agents.go:613-615 | A list passes sortedUnique exactly when it is the increasing list of its own set |
| Ordering.SortedUniqueIsStrict | go/protocol/agents.go:613-615 | IsSorted together with an unchanged length after Compact is strict increase of all pairs |
| Ordering.StrictListIsUnique | go/protocol/agents.go:613-615 | A set has one strictly increasing list |
| Ordering.FirstDifferenceDecides | go/protocol/agents.go:613-615 | A string is below another exactly when they agree up to a place where the first ends or is smaller |
| Approvals.ApprovalBytesInjective | go/protocol/agents.go:512-526 | Equal approval bytes mean the same kind, box, phone, time and fields, in number and value |
| Approvals.SignedArray | go/protocol/agents.go:510-579 | The signed bytes of each of the five kinds read as one array: tag, kind, box, phone, clock, then every field of the message in its place, the caps as hold time, power and rate |
| Approvals.OfferArray | go/protocol/agents.go:269-272 | What an offer key signs reads as the array of its tag and the offer |
| Approvals.SignedExactly | go/protocol/agents.go:512-579 | An approval is signed exactly when its lists of rights are the increasing lists of their sets and CBOR can count them and the arguments |
| Approvals.SignedBytesDetermineApproval | go/protocol/agents.go:537-579 | Two approvals with the same signed bytes are the same approval for the same box and phone, across all five kinds, nil and empty lists alike and request arguments up to their hash |
| Approvals.SameApprovalSameBytes | go/protocol/agents.go:530-566 | The converse: what that identification calls the same has the same bytes or the same refusal |
| Approvals.OfferIsNoApproval | go/protocol/agents.go:269-272 | No approval has the bytes an offer key signs |
| Approvals.AcceptedRightsAreCanonical | go/protocol/agents.go:514-519 | Signing is refused as unsorted exactly when a list of rights is not the increasing list of its set |
| Approvals.SameConfirmationSameArgs | go/protocol/agents.go:557-579 | Confirmations with the same bytes have argument encodings with the same hash, and the same arguments unless the hash collides on them |
| Base64Url.OctetsOfSextets | go/protocol/agent_invites.go:94 | Bytes cut into six-bit values and joined again are the same, for every length |
| Base64Url.DecodeAfterEncode | go/protocol/agent_invites.go:94-102 | Decoding unpadded base64url text gives back the byte string it was made from |
| Base64Url.EncodedText | go/protocol/agent_invites.go:94 | Each character is the letter of its six bits in its group of three bytes |
| Base64Url.ReadText | go/protocol/agent_invites.go:102 | A text is read exactly when it has letters of the alphabet and line breaks only, and not one letter over a group of four; the bytes read have that text, but for the last letter's spare bits |
| Invites.KeysAreCanonical | go/protocol/agent_invites.go:68-73 | The keys of codes, offers and claims stand in the bytewise order of their encodings that deterministic CBOR asks for |
| Invites.StructRoundTrip | go/protocol/agents.go:17-22 | A struct's map passes strict decoding and each field is found again |
| Invites.StrictMapTakes | go/protocol/agents.go:17-22 | A struct is decoded from one whole map under known names, none twice, and from nothing else |
| Invites.CodeSize | go/protocol/agent_invites.go:77-95 | Every valid code has 116 bytes of CBOR |
| Invites.CodeRoundTrip | go/protocol/agent_invites.go:77-107 | A code is written exactly when it is valid, in 155 of the parser's 512 characters, and parsing gives it back |
| Invites.WrittenCode | go/protocol/agent_invites.go:68-95 | A code's text stands for one map of v, box, home and secret, in this order |
| Invites.AcceptedCodes | go/protocol/agent_invites.go:77-107 | A text is accepted as a code if and only if it has at most 512 characters, and its bytes are one map of exactly the four fields, in any order, each of the right form |
| Invites.WrittenClaim | go/protocol/agent_invites.go:118-137 | A payload is the prefix with its zero byte and one map of the offer, with its three fields, and the secret |
| Invites.WrittenClaims | go/protocol/agent_invites.go:127-137 | A claim is written exactly when its secret has 32 bytes and all of it at most 8192 |
| Invites.AcceptedClaims | go/protocol/agent_invites.go:139-147 | A payload is accepted as a claim if and only if it has the prefix and at most 8192 bytes, and then one map of secret and offer, none twice, a secret of 32 bytes, and an offer of known fields, missing and null ones empty |
| Invites.ClaimRoundTrip | go/protocol/agent_invites.go:127-147 | An accepted payload is within 8192 bytes and parses back to the claim if and only if the key id is UTF-8; otherwise it is refused |
| Invites.UnreadableClaimExists | go/protocol/agent_invites.go:127-147 | A claim that Payload accepts and the parser refuses |
| Invites.ParsedCodeIsValid | go/protocol/agent_invites.go:97-107 | Whatever text is accepted has at most 512 characters and stands for a valid code, whose own encoding is accepted as the same code |
| Push.FillPlaceholders | go/protocol/push.go:28-33 | The loop's text is that of some walk of the map, and for a stable sentence with brace-free arguments that of one substitution that reads no inserted text |
| Push.ReplaceIsSubstitute | go/protocol/push.go:30 | Replacing every {key} is substituting that one key, placeholder by placeholder |
| Push.FillOneMore | go/protocol/push.go:28-33 | Filling one more key after the others is filling them all together |
| Push.WalksAgree | go/protocol/push.go:28-33 | Every walk of brace-free arguments over a stable sentence gives the simultaneous substitution |
| Push.OrderIndependentIffStable | go/protocol/push.go:28-33 | The walk never shows for any brace-free arguments if and only if the sentence is stable |
| Push.UnstableWalksDiffer | go/protocol/push.go:28-33 | For each unstable sentence, arguments and two walks of them that give different texts |
| Push.BracesInAValueShow | go/protocol/push.go:28-33 | An argument with braces makes the walk show in a stable sentence |
| Push.SafeIffBraceFree | go/protocol/push.go:28-33 | Over all stable sentences and otherwise brace-free arguments a value never shows the walk if and only if it has no brace |
| Push.FilledIffAllGiven | go/protocol/push.go:19-26 | A filled stable sentence shows no named placeholder exactly when each of them has an argument |
| Push.JoinedSearchIsSeparate | go/protocol/push.go:19-21 | Searching title, space and body joined finds a placeholder exactly when searching one of them does |
| Push.FindsFirst | go/protocol/push.go:21-26 | The search finds the leftmost run of a to z and underscore in braces, character by character, and nothing exactly when there is none |
| Push.NamedKeysShow | go/protocol/push.go:26 | The named keys of a sentence are those between the braces of its matches |
| Push.RenderPush | go/protocol/push.go:13-24 | Unknown kinds are refused and only they as such; both texts are those of some walk, returned exactly when neither shows a match of the pattern, and else the error is the first match of the two joined; over stable sentences and brace-free arguments it renders exactly when every key shown is given, and gives the substitutions |
| Migration.WaitedFor | scripts/ftwctl.py:438-461 | Polls once at least and changes nothing; ready only on a last answer that passes the test, from the box as it is |
| Migration.WaitEnds | scripts/ftwctl.py:438-461 | Poll by poll: a wait ends at the first answer with the wanted version, health, driver count and, for a 0.x version, complete history, or at a crash, or after its last poll |
| Migration.Identify | scripts/ftwctl.py:477-499 | A healthy version of the full 1.x, 2.x or 3.x pattern on an active service with the old unit loaded, by reads only |
| Migration.OldVersionReads | scripts/ftwctl.py:479-481 | The old versions are exactly the texts made of v, a digit from 1 to 3, two numbers and maybe a beta number |
| Migration.CheckBackup | scripts/ftwctl.py:506-524 | The identity is known as a SHA-256 digest and no override exists, by reads only |
| Migration.StagePackage | scripts/ftwctl.py:525-553 | The old drivers are known; staging leaves service, start command and data alone |
| Migration.Preflight | scripts/ftwctl.py:464-553 | Everything before the stop only reads and stages, and the switch begins only on the old unit, active, without override |
| Migration.StopsIff | scripts/ftwctl.py:464-559 | The service is stopped if and only if box and arguments are admitted and each of the 33 steps before succeeds, is accepted and answers as it must |
| Migration.CompletesIff | scripts/ftwctl.py:464-592 | A migration completes if and only if, further, the five commands of the switch succeed, the polls meet a good answer, the drivers and the identity are confirmed after it, and the cleanup succeeds |
| Migration.StartNew | scripts/ftwctl.py:564-566 | Once through, the new command runs under the override; the data is native exactly when that start took effect |
| Migration.Swap | scripts/ftwctl.py:557-566 | Begins with the stop; while the flag is unset no override is written, and a finished swap has the new command running |
| Migration.Confirm | scripts/ftwctl.py:567-573 | Three answers: the tag ready with the old driver count, no old driver missing, the same identity |
| Migration.Trial | scripts/ftwctl.py:557-573 | Restores nothing, starts only with the override in place, and succeeds only when confirmed |
| Migration.Undo | scripts/ftwctl.py:576-579 | Neither starts nor restores; once done the service is stopped, the override gone and the unit on disk loaded |
| Migration.StartOld | scripts/ftwctl.py:580-581 | One start, in the box as it was, then polls; ready means the old version was seen |
| Migration.PutBack | scripts/ftwctl.py:574-581 | Every recovery start sees no override; it has the unit on disk loaded and a stopped service once the flag was set, and the old unit loaded before |
| Migration.Unpack | scripts/ftwctl.py:583-585 | The archive moves exactly when stop and restore took effect; once through, the data is the archive's |
| Migration.RestoreData | scripts/ftwctl.py:581-587 | Data is restored only right after a stop that succeeded, and a wait is reached only on restored data with the same unit started |
| Migration.Recover | scripts/ftwctl.py:574-589 | Recovery's starts, its end, the place of the archive and the data it leaves, by how its first wait went |
| Migration.RecoverEnds | scripts/ftwctl.py:574-589 | Rolled back if and only if the commands succeed and the old version is seen at once, or after the data was restored; failed if and only if it is seen neither time |
| Migration.RunUntilTheStop | scripts/ftwctl.py:464-559 | In every run without a stop the tool refused or only checked, and nothing has changed; a stop follows only admitted arguments and box |
| Migration.StartsAndRestores | scripts/ftwctl.py:557-592 | In every run and world: starts before recovery see the override; starts in recovery see none and the unit on disk loaded if the flag was set, the old one if not; restores come only in recovery, right after a stop that succeeded |
| Migration.RunEnds | scripts/ftwctl.py:567-592 | Complete means native Core answered with tag, driver count, all old drivers and the same identity; rolled back means the old version was seen healthy with the override gone; both ways of recovery say which unit runs on which data |
| Migration.CompleteAnswers | scripts/ftwctl.py:567-573 | A complete run polled the tag, healthy, with at least the drivers healthy before and its history complete, then named every driver named before, then read the same identity |
| Migration.RolledBackAnswer | scripts/ftwctl.py:581-589 | A rolled-back run's last answer is the version polled at first, healthy, with at least the drivers healthy then |
| Migration.RecoversOldIffOnDisk | scripts/ftwctl.py:576-587 | Over all worlds every recovery start has the old unit loaded if and only if it is the unit on disk or the tool does not switch |
| Migration.SlowRun | scripts/ftwctl.py:557-588 | From every admitted box, a world in which the API is not reached again, however often the waits poll: the unit on disk is started, the archive is moved and recovery fails |
| Migration.ArchiveMovesIff | scripts/ftwctl.py:581-587 | The archive leaves its path exactly when the first recovery wait timed out, its stop went through and the restore did not fail before its effect; the off-box copy stays |
| Migration.ArchiveStaysIffNotAdmitted | scripts/ftwctl.py:557-592 | Over all worlds the archive stays at its path if and only if the tool does not switch |
| Migration.RunData | scripts/ftwctl.py:557-589 | What every run leaves of the data, from its log: the archive's once a restore took effect, else the native Core's once a start before recovery did, else what it was; or native data when recovery starts a native unit from disk |
| Migration.RolledBackData | scripts/ftwctl.py:574-589 | A run that began on old data leaves native, old or restored data, each exactly when its log has a start before recovery or a restore that took effect |
| Migration.RollsBackCleanIffNotAdmitted | scripts/ftwctl.py:557-589 | Over all worlds a rolled-back run never leaves native data if and only if the tool does not switch |
| Migration.RolledBackOnNativeData | scripts/ftwctl.py:574-589 | From every admitted box, a run that rolled back onto the native Core's data |
| Migration.ArchiveIsInsideData | scripts/ftwctl.py:369-377 | The host path of the archive always lies inside the data directory |
| MigrationSite.Site.Remote | scripts/ftwctl.py:464-592 | One command: the log grows by it and the box changes as its outcome says |
| MigrationSite.Site.WaitForVersion | scripts/ftwctl.py:438-461 | The polling loop is the specified wait |
| MigrationSite.Site.Preflight | scripts/ftwctl.py:464-553 | The checks in the tool's order are the specified ones |
| MigrationSite.Site.Trial | scripts/ftwctl.py:557-573 | The body of the try is the specified trial |
| MigrationSite.Site.Recover | scripts/ftwctl.py:574-589 | The except branch is the specified recovery |
| MigrationSite.Site.MigrateNative | scripts/ftwctl.py:464-592 | The tool's run, command by command, is the run of the box, the world and the arguments that the theorems are about |
| PrefsQueue.KeysOfIsTheKeySet | web/plan-prefs.js:233 | Over plain names, sorted and joined keys are equal exactly when the key sets are |
| PrefsQueue.MergeIsSafe | web/plan-prefs.js:252-255 | Dropping a change for the next one is safe on every box exactly when the next sets all it set |
| PrefsQueue.CommaLosesAChange | web/plan-prefs.js:233 | A run of three calls at rest, every write confirmed, whose box lacks what the second call set |
| PrefsQueue.Queue.Save | web/plan-prefs.js:249-261 | A call replaces the last waiting change when their joined keys are equal and waits last otherwise, and a job runs |
| PrefsQueue.Queue.PickNext | web/plan-prefs.js:234-238 | The first waiting job runs unless one does |
| PrefsQueue.Queue.Answers | web/plan-prefs.js:239-243 | Settles exactly the running job's callers, each with that job's change and whether it was confirmed, applies it, and announces a confirmed one to its source |
| PrefsQueue.EachAnswerSettles | web/plan-prefs.js:238-243 | In every run an answer settles the callers from the first open one to the one whose change was sent, all with this change and the answer; the box takes it if applied and its source hears of it if confirmed; no other event settles, writes or announces |
| PrefsQueue.ToldItsAnswer | web/plan-prefs.js:240-243 | In every run each caller is told that the write was confirmed exactly when the answer that settled it said so |
| PrefsQueue.ConfirmedIffAllTold | web/plan-prefs.js:240-243 | Every write was confirmed if and only if every settled caller was told so |
| PrefsQueue.CallsAreTheEvents | web/plan-prefs.js:249-261 | Every call counts, in the order the calls are made |
| PrefsQueue.Queue.Done | web/plan-prefs.js:244-247 | The answered job goes and the next waiting one, if any, runs |
| PrefsQueue.CallersAreSettled | web/plan-prefs.js:230-262 | In every run callers are settled in call order, each once, by its own change or a later one with the same keys, and all of them once nothing runs |
| PrefsQueue.Drained | web/plan-prefs.js:224-262 | A run at rest with every write confirmed leaves every change applied in call order, where neighbours that join alike are nested |
| PrefsQueue.PlainIsNested | web/plan-prefs.js:233 | Over plain names they always are |
| PrefsQueue.FaithfulIffNested | web/plan-prefs.js:230-262 | Every run of calls with these key sets is faithful if and only if neighbours that join alike, the first two aside, are nested |
| PrefsQueue.LosingRun | web/plan-prefs.js:249-261 | For each pair that is not, a run that loses what the first of them set |
| PrefsQueue.AnswerKeeps | web/plan-prefs.js:239-243 | Callers are settled in call order, each once, by its own change or a later one with the same keys |
| PrefsQueue.MergeKeeps | web/plan-prefs.js:252-255 | A replaced waiting change keeps every caller and its order |
| PrefsQueue.MergeRefines | web/plan-prefs.js:252-255 | Putting the newer change in the older one's place leaves what applying both would |
| PrefsQueue.AnswerRefines | web/plan-prefs.js:239-247 | Sending the first job keeps box and remaining jobs equal to all changes in call order |
| ScheduleWrites.Editor.ScheduleSave | web/app.js:4538-4549 | An edit takes a new number and restarts the timer |
| ScheduleWrites.Editor.DoSave | web/app.js:4550-4605 | A valid form joins the queue with its edit's number, an invalid one does not |
| ScheduleWrites.Editor.ClearClicked | web/app.js:4622-4642 | A removal cancels the timer, takes a new number and joins the queue |
| ScheduleWrites.Editor.NextLink | web/app.js:4579-4585 | The first waiting write is sent unless it is a save with an old number |
| ScheduleWrites.LastSentIsNewest | web/app.js:4534-4642 | In every run at rest the last write sent is the newest accepted one if and only if no edit was made while a save waited last with nothing accepted since |
| ScheduleWrites.NewestRemovalIsSent | web/app.js:4622-4642 | A removal that was the newest request is always the last write sent |
| ScheduleWrites.SentExactly | web/app.js:4534-4642 | In every run an accepted write has been sent if and only if its turn has come and it was then a removal or of the newest edit |
| ScheduleWrites.EveryRemovalIsSent | web/app.js:4622-4642 | With nothing waiting every removal has been sent, and a write that was not had an edit made between it and its turn |
| ScheduleWrites.AcceptedAre | web/app.js:4538-4627 | What is accepted, over the events: a removal at each click and a save where an edit's timer fires on a valid form, numbered by the edits and clicks so far |
| ScheduleWrites.SentWasAccepted | web/app.js:4579-4631 | What is sent was accepted, once each, in the order of the edits and clicks |
| ScheduleWrites.SavesAfterRemovalAreNewer | web/app.js:4534-4642 | A save sent after a removal was edited after it, so no older edit brings a removed schedule back |
| ScheduleWrites.SavesGoOutNewest | web/app.js:4579-4585 | In every run each save sent went out at a turn, after the writes before it, while its edit was the newest |
| ScheduleWrites.InvalidEditDropsASave | web/app.js:4558-4580 | A run in which the newest valid edit is never sent |
| SocWrites.Slider.SendSoc | web/app.js:3965-3994 | Sends the pending level unless a write is in flight |
| SocWrites.Slider.Change | web/app.js:3996-4006 | Levels outside 0 to 100 change nothing; others become the newest choice |
| SocWrites.Slider.Answered | web/app.js:3974-3994 | A level is called saved or not confirmed only if its revision is the newest, and the pending level is sent next |
| SocWrites.NewestLevelIsSentLast | web/app.js:3962-4006 | In every run at rest the last write sent carries the newest level chosen |
| SocWrites.OnlyNewestIsShown | web/app.js:3976-3991 | In every run an answer calls a level saved exactly when it confirms the write that carries the newest level chosen, and not confirmed exactly when it refuses that write |
| HistoryCache.Cache.FetchHistory | web/app.js:5292-5314 | A caller gets a read in flight for its key, or one it starts when none is, or unforced an answer under 15 seconds old, and a read is started exactly when none of these serves it; other keys stay |
| HistoryCache.Cache.ReadDone | web/app.js:5306 | An answer replaces its own key's entry and no other |
| HistoryCache.Cache.ReadFailed | web/app.js:5307-5311 | A failed read removes its own entry and no other |
| HistoryCache.Cache.OneReadPerKey | web/app.js:5290-5314 | Two reads of one key are never in flight together |
| HeatRefresh.Card.Refresh | web/heating.js:661-713 | A call joins the waiters while a cycle runs and begins one otherwise |
| HeatRefresh.Card.FinishRefresh | web/heating.js:715-733 | The end of a cycle resolves its callers, and waiters ride on the one follow-up |
| HeatRefresh.AnswersAreFresh | web/heating.js:661-733 | In every run a caller resolved at the end of a cycle is so by a cycle that began after its call and has ended |
| HeatRefresh.NobodyIsLost | web/heating.js:661-733 | When no cycle runs every caller has been resolved |
| HeatRefresh.CycleForACaller | web/heating.js:661-733 | A cycle begins exactly when a caller finds none running, or when one ends on a visible page with the card and a caller waits; and some caller rides it |
| HeatRefresh.NotedAtItsCall | web/heating.js:661-713 | Callers are the calls in turn, and what is noted of each is how many cycles had begun at its call |
| HeatRefresh.ResolvedOnce | web/heating.js:664-733 | Resolved callers stay so, and a step resolves one without a cycle exactly when it finds the card missing itself, or waited when a cycle ended on a hidden page or without the card |
| HeatRefresh.MissingCardAnswersStale | web/heating.js:664-733 | A run in which a waiter on a visible page is answered though no cycle began after its call |
| ChartStore.Store.PushChartData | web/app.js:1019-1085 | A push is dropped exactly within 800 ms of the last; else every column loses its oldest cell past 360 and gains what the poll says, cell by cell, and stays the projection of the samples |
| ChartStore.PushLeaves | web/app.js:1030-1041 | A base column gains the browser's clock or the poll's value |
| ChartStore.BatteriesLeave | web/app.js:1046-1083 | There are columns for the batteries there were and those the poll states; each gains its power unless it is offline, and its target or 0, or gaps if not stated, a new one after gaps |
| ChartStore.EvsLeave | web/app.js:1053-1083 | The same for chargers, with a gap for an offline one |
| ChartStore.Store.LoadHistory | web/app.js:4972-5022 | After a load the columns are those of the stored items alone, cell by cell |
| ChartStore.BatteryLoadLeaves | web/app.js:4998-5016 | The batteries are those some item states, and row i is item i's power, unless offline, and target, or unknown |
| ChartStore.EvLoadLeaves | web/app.js:5007-5020 | The chargers are those some item states, and row i is item i's power, offline or not |
| ChartStore.Store.WriteRow | web/app.js:1030-1071 | One sample goes into every column, known drivers' and new ones' alike, with gaps where a driver is absent |
| ChartStore.Store.EnsureBatteryDriver | web/app.js:163-170 | A new battery's columns hold gaps up to just before the row being written |
| ChartStore.Store.EnsureEvDriver | web/app.js:216-223 | The same for a charger |
| ChartStore.ColumnsHoldSamples | web/app.js:1030-1071 | Cell for cell, row i of a column is sample i's value, unknown where the driver was absent |
| ChartStore.ShiftProjects | web/app.js:1073-1083 | Dropping the oldest value of every column is dropping the oldest sample |
| ChartStore.GapsProject | web/app.js:1061-1071 | After the gaps are pushed every driver column projects the samples again |
| ChartStore.UnnamedIsBlank | web/app.js:163-170 | A driver no sample names is all gaps, so padding a first-seen driver is right |
| ChartStore.PushesSpread | web/app.js:1025-1026 | Pushed times rise by at least 800 ms a push, also when the clock steps back between polls |
| ReleaseGates.OrderPagesAllow | scripts/check-native-release-order.py:25-40 | The order gate passes exactly when every listed entry is valid and none published stands above the target |
| ReleaseGates.VersionOrder | scripts/check-native-release-order.py:17-22 | A beta is below the next and below the stable of its version, a stable below every release of the next patch, and all of a minor below all of the next |
| ReleaseGates.BelowIsAnOrder | scripts/check-native-release-order.py:17-22 | Of two ranks exactly one is below unless they are equal, and below is transitive |
| ReleaseGates.OrderGate | scripts/check-native-release-order.py:25-40 | The whole gate, release by release and version by version: which published releases let which tags through |
| ReleaseGates.BetaAfterBeta | scripts/check-native-release-order.py:25-40 | With only beta b of a version published, beta c of it passes if and only if c is at least b |
| ReleaseGates.OrderIgnoresPaging | scripts/check-native-release-order.py:25-40 | Its verdict depends only on which releases are listed |
| ReleaseGates.CheckSchema | scripts/check-native-schema.py:28-50 | The loops pass exactly when tag, schema and entries are valid and the highest lower marked release, if any, has the schema |
| ReleaseGates.SchemaGate | scripts/check-native-schema.py:28-50 | The gate passes exactly when tag, schema and entries are valid and the release that decides, the first of the highest rank among the published, marked and lower ones, names the schema |
| ReleaseGates.HighestIsHighest | scripts/check-native-schema.py:36-46 | The running maximum is the highest counted release of the whole list, and none when nothing counts |
| ReleaseGates.SchemaIgnoresPaging | scripts/check-native-schema.py:28-50 | Where the releases of the highest counted rank name one schema, the schema gate's verdict depends only on which releases are listed |
| ReleaseGates.OrderFreeIffTopAgrees | scripts/check-native-schema.py:28-50 | Over all schemas the verdict is independent of the list's order if and only if the releases of the highest counted rank name one schema, or the tag or an entry is refused |
| ReleaseGates.VersionsAdvance | scripts/check-native-release-order.py:25-40 | In every history of gated releases a beta is above everything before it, stable versions only rise, and all are on the native line |
| ReleaseGates.OneSchemaLower | scripts/check-native-schema.py:28-50 | A history in which each release after the first has any lower one before it carries one schema |
| ReleaseGates.NextSchemaIsFixed | scripts/check-native-schema.py:28-50 | A release that may join a one-schema history is bound to its schema if and only if it has a lower one there |
| ReleaseGates.OneSchemaIffLower | scripts/check-native-schema.py:28-50 | An order of publication keeps one schema in every history with it if and only if each release after the first has a lower one before it |
| ReleaseGates.PromotedIsOneSchema | scripts/check-native-schema.py:28-50 | When every stable promotes a beta of its version, all releases carry one schema number |
| ReleaseGates.UnpromotedStableChangesSchema | scripts/check-native-schema.py:28-50 | A gated history of a beta and a stable without one of its version, of two schemas |
| NiceAxis.AxisIsNice | web/app.js:333-344 | For every real range and positive count: the axis covers the input and ends within a step of it, its ends are whole multiples of a step of 1, 2, 5 or 10 times a power of ten, zero is a gridline when crossed, and the intervals number at least 0.6 and below 1.5 times the count plus 2 |
| NiceAxis.FloorLog10 | web/app.js:336 | The power of ten at or below a positive number, with less than ten times it above |
| NiceAxis.StepSize | web/app.js:335-338 | The step is 1, 2, 5 or 10 times the power of ten below the rough one, which decides at 1.5, 3 and 7 times it, and so more than two thirds and at most five thirds of the rough one |
| PlanWindows.ForecastMargins | web/plan-forecast.js:7-24 | Null exactly when nothing is shown or something shown lacks a value; else the sums over all actions |
| PlanWindows.OneAction | web/plan-forecast.js:10-21 | One action's part in the sums, in watts times the milliseconds shown: sun above use as forecast and as planned, sun held back, use added |
| PlanWindows.PartsAdd | web/plan-forecast.js:9-23 | The sums over two lists are those over each, added |
| PlanWindows.MarginsAdd | web/plan-forecast.js:7-24 | Margins over a window are those of its two parts, a null part counting zero beside a non-null whole |
| PlanWindows.SpareSunIsExplained | web/plan-forecast.js:16-21 | Forecast spare sun minus planned spare sun never exceeds sun held back plus use added |
| PlanWindows.SumsTell | web/plan-forecast.js:14-21 | Each sum is positive exactly when a shown action has sun beyond its use as forecast, as planned, holds sun back, or adds use |
| PlanWindows.ClipTotalIsSpread | web/ev-plan.js:61-68 | The clipped windows' energy is each window's rate times its overlap with the view |
| PlanWindows.ShownWindows | web/ev-plan.js:61-68 | The windows shown are exactly those with energy that the view meets, each cut to the view, with its energy in proportion and marked partial when shorter |
| PlanWindows.PartialShowsLess | web/ev-plan.js:64-67 | A window is marked partial exactly when less than its energy is shown |
| PlanWindows.PlannedEnergyAdds | web/ev-plan.js:61-70 | Planned car energy over a view is that of its two parts |
| PlanWindows.SortIsInOrder | web/ev-plan.js:68 | The windows shown are the clipped ones, in order of start |
| PlanSoc.StorageEnergyWh | web/plan-soc.js:12-23 | The sum of the finite values, and null when there is none |
| PlanSoc.FillPlanSoC | web/plan-soc.js:67-80 | In place, slot by slot, the array becomes the filled plan |
| PlanSoc.FillTwice | web/plan-soc.js:67-80 | Filling a filled plan changes nothing |
| PlanSoc.FiniteSlotsStay | web/plan-soc.js:50-51 | A slot with a level is unchanged, and no field but the level is written |
| PlanSoc.KnownWhen | web/plan-soc.js:44-80 | A slot ends with a level exactly when it states one or, with positive capacity, a start or an earlier slot does |
| PlanSoc.NoGap | web/plan-soc.js:67-80 | From a known level on, with positive capacity, no slot is left without one |
| PlanSoc.LevelsFromEnergy | web/plan-soc.js:50-65 | A stated level passes through as it is, and one worked out from energy lies in [0,1] |
| PlanSoc.LevelFromPower | web/plan-soc.js:34-80 | In a filled plan a slot that states nothing has the level before it moved by its power, its minutes and the charging or discharging efficiency over the capacity, held between 0 and 1 |
| PlanSoc.StoredLevel | web/plan-soc.js:54-57 | In a filled plan a slot with stored energy has the level that times the capacity is it, or 0 below nothing and 1 above the capacity |
| PlanSoc.SumsAdd | web/plan-soc.js:12-23 | The stored energy is none for nothing finite, the value for one, and the sum of the sums over two lists |
| PlanSoc.ThereAndBack | web/plan-soc.js:34-65 | With efficiencies of at most one, a charge and an equal discharge never end above a non-negative start |
| ConfigTree.SetShape | web/settings.js:383-391 | Setting throws exactly when a value on the way is neither falsy nor an object; else the path shows the value with nothing under it, paths to it are objects, and every other path shows what it did |
| ConfigTree.ThrowsIff | web/settings.js:383-391 | Setting throws if and only if a value on the way is true, a number other than 0 or a text that is not empty |
| ConfigTree.SetTwice | web/settings.js:383-391 | The second of two settings of a path wins, as if alone |
| ConfigTree.SetSame | web/settings.js:383-401 | Setting the plain value a path already shows changes nothing |
| ConfigTree.SetsCommute | web/settings.js:383-391 | Unrelated paths may be set in either order |
| ConfigTree.AfterWrite | web/settings.js:387-390 | One assignment on the heap changes exactly the paths at and below its field |
| ConfigTree.Config.Descend | web/settings.js:387-388 | A falsy field gets a new empty object, an object is entered, and anything else stops the walk |
| ConfigTree.Config.SetByPath | web/settings.js:383-391 | The walk over the mutable objects gives what the path specification gives, the objects stay a tree, and a throw leaves everything as it was |
| ConfigTree.Config.GetByPath | web/settings.js:393-401 | Reads the path, with the default for missing and null alike |
| SettingsForm.Settings.CaptureCurrentTab | web/settings.js:358-381 | Both passes over the page in place are the specified capture, up to a throw |
| SettingsForm.IdentityIffQuiet | web/settings.js:358-381 | Capturing changes nothing exactly on a form without an edit, blank passwords over stored ones aside |
| SettingsForm.AgainIsIdentityIff | web/settings.js:358-381 | A second capture changes nothing exactly when the first has left no edited blank password without its stored value |
| SettingsForm.CapturesOnceIffKeepsPasswords | web/settings.js:358-381 | Over all states and contents of the fields capturing twice is capturing once, if and only if no password box has a later field or a checkbox on its path or one that leads to it, another password box on its own path aside |
| SettingsForm.CaptureTwice | web/settings.js:358-381 | On every such form capturing twice is capturing once |
| SettingsForm.WipedForm | web/settings.js:371-379 | For every other form, a state and contents that the second capture changes |
| SettingsForm.InputCaptured | web/settings.js:360-375 | On a form with unrelated paths a field whose text is the one last taken or given, or a blank password over a stored value, leaves its path; any other leaves its text, or its number times its unit, or null for none |
| SettingsForm.BoxCaptured | web/settings.js:376-380 | The same for checkboxes |
| SettingsForm.Remembers | web/settings.js:374-380 | After a capture each field's remembered text and each checkbox's mark is what it shows, blank passwords aside |
| SettingsForm.BlankNumberReadsDefault | web/settings.js:365-367 | An edited number box without a number leaves its path reading as the default |
| SettingsForm.BlankPasswordKept | web/settings.js:371-372 | A blank password leaves the stored one |
| SettingsForm.CaptureElsewhere | web/settings.js:358-391 | Paths unrelated to the form's are left alone |
| SettingsForm.SharedPathCapturedTwice | web/settings.js:371-374 | Two fields on one path for which capturing twice is not capturing once |
| Escaping.ChainIsOnePass | web/plan.js:48-55 | The five chained replacements equal the single-pass map for every string |
| Escaping.FiveReferences | web/plan.js:48-55 | The five characters become &amp;amp; &amp;lt; &amp;gt; &amp;quot; and &amp;#39; and no other changes |
| Escaping.DecodeEscaped | web/energy-history.js:42-46 | Reading the entities back gives the text that was escaped |
| Escaping.EscapingIsInjective | web/plan.js:48-55 | Texts with the same escape are the same |
| Escaping.EscapesAreTheInertTexts | web/plan.js:48-55 | A text is the escape of something exactly when it has none of < > " ' and every & starts one of the five entities |

## Left out

- Cbor: floats, booleans, tags and indefinite lengths; the decoder's case-insensitive field names, nesting and size limits. A map is the list of its keys and values as encoded, so the sorting of request arguments is not modelled.
- Approvals: SHA-256 is a parameter, ECDSA and curve arithmetic are not modelled. `confirm` does not sign its approve flag, so that flag is not part of what the bytes determine.
- Invites: encode after parse does not hold in Go, whose decoder skips newlines and takes loose trailing bits. X25519 and Noise are not modelled.
- AcceptedCodes, AcceptedClaims: over the items modelled here; field names that differ in case and arrays of numbers in place of byte strings, which the Go decoder also takes, are not modelled.
- Push.RenderPush: takes the catalogue of sentences as a parameter.
- Migration.Quiet: groups commands that leave the modelled box alone; argument checks, the age and digest of the backup and the parsing of answers are free choices of the world. Core's own writes to its data, download_backup, SSH and archives as bytes are not modelled.
- PrefsQueue: `announce` is taken not to throw, since a throw there would skip settling the callers.
- ScheduleWrites: the refusal of a car-limit goal by an older Core, status texts and page refreshes.
- HeatRefresh: device discovery, history reads and rendering; beginControl, endControl and energyDeltas.
- ChartStore: drawing, legends and smoothing; the defaults of the base columns and the number tests of a reading are made by the caller.
- ReleaseGates: parsing of tags and notes; a release carries its rank and marker. The shape of the page list.
- NiceAxis, PlanWindows, PlanSoc: real numbers stand for floating point, so rounding, negative zero and infinities do not occur. chargingPlan's messages are not modelled. fillPlanSoC's options carry efficiencies only.
- ConfigTree: inherited properties, array lengths and the characters of strings as fields, and splitting a path at its dots. The tree shares no object between paths, as parsed JSON.
- SettingsForm: elements with both a path and a checkbox path, and unit scales that are no number.
- Escaping: lone surrogates, which Dafny's characters do not have.
- Not modelled: plan styles and wording, paging of tables, packaging, the setup wizard, drivers and the planner.
