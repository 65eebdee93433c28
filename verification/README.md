# CommonSwarm verification

A Dafny model of the parts of CommonSwarm whose correctness is not visible in any one function,
with proofs. Run `dafny verify dfyconfig.toml` in this directory.

What is modelled, component by component:

- **Turn check** (`CheckState`, `InboxReader`, `InboxRuns`). An agent reads its inbox one page at a
  time behind a saved cursor, caches full bodies, shows previews and only then moves the cursor. The
  page loop and the store are imperative and specified by functions; the runs let rows arrive, checks
  stop at any point and deferred commits of old offers land in any order.
- **Acknowledgement queue** (`AckQueue`, `AckRound`). Ids to acknowledge wait in a rotating queue
  with doubling pauses and a one-day limit. In a step machine other writers, failing requests and
  death may come at any time. The loop over a batch is a class method that is proved to be a run of
  that machine; others write before each of its locked writes, and any of these may throw.
- **Wake channel** (`Channel`, `ChannelRuns`, `Receiver`, `WakeCanary`, `WakeRuns`). Claim, notify with a fresh challenge, echo,
  acknowledge. A step is what runs between two awaits, and a file write may land at any time after it
  was issued or never. `Receiver` has the source's mutable objects, shared between the main loop and
  a receipt call; every method is proved to be one step of the machine. The two `Runs` modules show that
  deliveries are held until answered for, and that whole runs to an ack and to a verified wake exist.
- **Connection tokens** (`Bits`, `Base32`, `Crc32`, `Token`, `TokenLaws`, `Standards`). Base32 of section 6 of RFC
  4648 over an accumulator that is never masked, CRC-32 of section 8 of RFC 1952, the printer, and the
  scanner up to the checked body bytes. A machine word is 32 bits written out, so shifts drop bits as
  they do in JavaScript.
- **CI status publisher** (`StatusHistory`, `StatusDecision`, `StatusReconcile`, `StatusClaims`). Paging a
  history that grows meanwhile, an order-free decision computed with maps, publishing, and what each
  row means spelled out without the parser.
- **Bounded UTF-8 reader** (`Utf8`, `BoundedReader`). Early-rejecting chunked decoding against the
  grammar of section 4 of RFC 3629, and that grammar against the encoding of its section 3.
- **Invite acceptance** (`AcceptLink`), **archive drill** (`Archive`, `ArchiveDrill`, `ArchiveGates`) and **editor
  hooks** (`Hooks`): an interrupted multi-step command, a file-by-file loss and restore where any
  operation may raise, and a settings transformation.

Methods carry the loops and state changes of the source; each is tied by its `ensures` to a function
or a step of a machine, and the lemmas are about those.

Three properties do not hold without a condition, and the exact condition is stated:

- A printed token decodes to its body exactly when the body is not empty: `TokenLaws.RoundTrip`.
- A decoded base32 string is given back by encoding exactly when it is canonical in the sense of
  section 3.5 of RFC 4648: `Base32.EncodeDecode`.
- Uninstalling hooks after installing them equals uninstalling alone exactly when the `hooks` setting
  was absent or a non-empty object with lists for the three events: an install replaces a setting of
  any other shape, `Hooks.UninstallUndoesInstall`.

## Model

| member | source | states |
|---|---|---|
| CheckState.EnqueueKeeps | src/cloud/agent-check.ts:306-307 | merging ids into the queue keeps it free of repeats, adds nothing foreign, and no new id falls to the 200-entry bound when at most 200 come at once |
| CheckState.EnqueueAppends | src/cloud/agent-check.ts:306-307 | when nothing repeats or overflows the queue is followed by exactly the new ids, in order |
| CheckState.CursorOrder | src/cloud/signals.ts:629-638 | cursors are strictly and totally ordered by time, and at one time by id |
| InboxReader.TakePage | src/cloud/agent-check.ts:252-281 | the page loop computes `Take`, whose meaning is `TakeRight` |
| InboxReader.TakeRight | src/cloud/agent-check.ts:252-281 | the rows taken are the longest prefix within the body budget (a first row always fits), all addressed here and strictly after the row before and the cursor; otherwise the page is refused for the first examined row that is foreign or out of order |
| InboxReader.TakenShows | src/cloud/agent-check.ts:252-281 | a page taken shows its first rows, each with its id, time and kind and its whole body or the first 1000 characters of it, marked truncated exactly when cut; it keeps to 4000 characters unless it shows one row, and stops only before a row that does not fit |
| InboxReader.CheckStore.Check | src/cloud/agent-check.ts:188-426 | for each point where a check may stop, the file left behind and the report given: which rows it shows and how, whether there are more, and when the file is untouched |
| InboxReader.CheckStore.Commit | src/cloud/agent-check.ts:365-384 | a deferred commit advances to the named row if it is ahead of the cursor re-read under the lock, and queues the asks and notes up to it; otherwise it writes nothing |
| InboxReader.CachedSound | src/cloud/agent-check.ts:162-186 | the cache write is a state the reader accepts |
| InboxReader.CacheKeeps | src/cloud/agent-check.ts:293-295 | a cached message that is not shown again stays at its place among the others while all fit in 200, and the rows shown are last in any case |
| InboxReader.CommittedSound | src/cloud/agent-check.ts:75-79 | the cursor write is a state the reader accepts, and only queued ids keep a retry record |
| InboxReader.CachedHolds | src/cloud/agent-check.ts:293-296 | every row about to be shown is in the cache with its full body |
| InboxRuns.HonestTake | src/cloud/agent-check.ts:252-282 | on an ordered inbox a check refuses nothing, shows the rows right behind the cursor and always makes progress |
| InboxRuns.CommitFile | src/cloud/agent-check.ts:365-384 | a deferred commit writes exactly when its row is ahead of the saved cursor, whatever landed since its check |
| InboxRuns.StepKeeps | src/cloud/agent-check.ts:188-426 | every step keeps the invariant below and never moves the cursor back |
| InboxRuns.EveryRun | src/cloud/agent-check.ts:252-298 | over any run: every row at or before the cursor was shown, in order and without a gap; a row whose passing landed is not offered again; what is offered was cached just before; the ids ever queued are exactly those of the asks and notes passed; the file is one the reader accepts |
| InboxRuns.CursorNeverMovesBack | src/cloud/agent-check.ts:365-389 | between any two moments of any run with interleaved checks and deferred commits |
| InboxRuns.HasMoreMeans | src/cloud/agent-check.ts:282-282 | after any run, `has_more` is false exactly when the rows shown reach the end of the inbox and do not fill a page |
| InboxRuns.ShownRowsAreCached | src/cloud/agent-check.ts:290-298 | after any run, each row a check shows is in the saved cache |
| InboxRuns.ChecksDrain | src/cloud/agent-check.ts:252-298 | after any run, completed checks bring the cursor to the end of a standing inbox, at most one check per row left |
| AckQueue.StepKeeps | src/cloud/agent-check.ts:329-358 | every request made is counted, whether or not its id is still queued; no queued id is ever sent more often than its record says, no id more often than the day allows, whatever other writers, failures and deaths come between |
| AckQueue.AtMost1447 | src/cloud/agent-check.ts:329-358 | over any run at most 1447 requests are made for any id between one entry into the queue and the next, including requests that leave after the id was dropped |
| AckQueue.DayHoldsMost | src/cloud/agent-check.ts:334-343 | the pauses before request n + 1 fit into 24 hours exactly when n is below 1447 |
| AckQueue.MostIsReached | src/cloud/agent-check.ts:35-39 | the bound is exact: some run makes 1447 requests for one id while it stays queued |
| AckQueue.SpanLate | src/cloud/agent-check.ts:341-342 | the sum of the capped doubling pauses in closed form |
| AckQueue.EachPause | src/cloud/agent-check.ts:341-342 | the first pause is 250 ms, each up to the eighth twice the one before, and every later one a minute |
| AckRound.AckRunner.AckPending | src/cloud/agent-check.ts:308-363 | with others writing before every locked write, the loop is a run of the machine that hears exactly the answers that came and the files others left; it completes unless the queue is empty, a write fails or time runs out; if others left the queue alone, a completed round has removed exactly the ids of its batch that were acknowledged, refused for good or a day old, and after a round cut short ids of its batch at most are gone and the index has not moved |
| AckRound.CheckIsOther | src/cloud/agent-check.ts:386-389 | a check stopped anywhere is one of the steps the queue allows other writers, and it keeps the rotation index |
| AckRound.DeferredCommitIsOther | src/cloud/agent-check.ts:365-384 | so is a deferred commit |
| AckRound.PersistIsQueueWrite | src/cloud/agent-check.ts:316-328 | every write of the queue is one of the steps the inbox runs allow |
| AckRound.PassedOver | src/cloud/agent-check.ts:308-328 | an id that a completed round passes over stays queued and gets closer, though removals shift positions under the index |
| AckRound.CutKeeps | src/cloud/agent-check.ts:316-332 | an id outside the batch of a round cut short stays queued and gets no farther away, though removals have shifted positions under an index that did not move |
| AckRound.EveryIdComesUp | src/cloud/agent-check.ts:308-362 | if no new ids arrive every queued id comes up in a batch within its patience, counted in completed rounds, however many rounds between them are cut short |
| AckRound.EveryRunComesUp | src/cloud/agent-check.ts:308-362 | the same over every run of the machine, with rounds cut short by deadlines, failing writes and deaths at any step |
| AckRound.PatienceBound | src/cloud/agent-check.ts:35-35 | which is at most 2009 completed rounds |
| Channel.StepKeeps | src/cloud/agent-channel.ts:401-540 | every step of the receiver, the receipt tool, the CLI mailbox, a landing write or a restart keeps the protocol invariant |
| Channel.AcksRestOnEchoes | src/cloud/agent-channel.ts:422-444 | over every run an acknowledgement is sent only for a delivery whose challenge was echoed with this host's id and its signal, before the lease ended and after the challenge's own notification step began |
| Channel.OldChallengesNeverConfirm | src/cloud/agent-channel.ts:203-210 | after any run an unconfirmed delivery carries a challenge made by the running receiver, and the only next step that confirms it is an echo of that challenge with this host's id |
| ChannelRuns.HeldUntilReleased | src/cloud/agent-channel.ts:401-540 | over every run a held delivery goes only when its ack was answered without failing, its lease ended or the receiver died |
| ChannelRuns.AckAnswered | src/cloud/agent-channel.ts:439-455 | a failed ack keeps the delivery and its notification; any other answer clears memory and hands the cleared journal to the disk |
| ChannelRuns.HandledByTool | src/cloud/agent-channel.ts:264-518 | after any run, any row claimed in its lease can be notified, confirmed with the tool and acknowledged, and nothing is then held |
| ChannelRuns.HandledByMail | src/cloud/agent-channel.ts:401-518 | likewise with a gateway host, through the journal and the mailbox |
| Receiver.Receiver.constructor | src/cloud/agent-channel.ts:203-211 | restoring the journal is the machine's start step: an unconfirmed delivery gets a new challenge |
| Receiver.Receiver.Confirm | src/cloud/agent-channel.ts:71-81 | a receipt is accepted exactly for this host, this signal and this challenge, and then only the confirmation changes |
| Receiver.Receiver.BeginReceipt | src/cloud/agent-channel.ts:264-276 | the receipt tool up to its journal write is the machine's step |
| Receiver.Receiver.EndReceipt | src/cloud/agent-channel.ts:276-282 | a failed write takes the confirmation back from the very delivery the call was about and from no other, whatever is pending by then |
| Receiver.Receiver.ReadMail | src/cloud/agent-channel.ts:422-432 | reading the mailbox is the machine's step |
| Receiver.Receiver.Turn | src/cloud/agent-channel.ts:419-432 | the main loop takes up a held delivery: it waits for a receipt write, reads the mailbox first exactly when a gateway delivery is notified, unconfirmed and in its lease, or decides at once |
| Receiver.Receiver.Decide | src/cloud/agent-channel.ts:433-470 | the rest of the turn: ack exactly if confirmed and no receipt write is under way (one may have begun during the mailbox read), else drop an expired lease, else notify, each the machine's step |
| Receiver.Receiver.EndAck | src/cloud/agent-channel.ts:439-455 | a failed ack keeps delivery and notification; any other answer clears both and issues the cleared journal |
| Receiver.Receiver.EndNotify | src/cloud/agent-channel.ts:465-483 | a gateway notification that failed is taken back in the journal |
| Receiver.Receiver.Claim | src/cloud/agent-channel.ts:506-518 | a claimed delivery gets a challenge that was never used |
| WakeCanary.StepKeeps | src/cloud/agent-channel.ts:388-550 | every step, failed sends and receipt writes taken back included, keeps the evidence behind a verified wake: which delivery was emitted as the test, that its echo came after, and its ack after that |
| WakeCanary.VerifiedMeansWoken | src/cloud/agent-channel.ts:445-451 | over every run, a verified wake means that the instance named emitted the current test from an idle snapshot, after that the receipt of that very delivery was echoed, after that its ack was accepted, after that the wake was verified, and nothing that clears it happened since |
| WakeRuns.WakeIsVerified | src/cloud/agent-channel.ts:388-451 | after any run that leaves wake mode on and no receiver alive, a fresh instance tested with any nonce and signal, known by its text or its signal and confirmed with the tool or the mailbox, ends verified |
| Base32.Encode | src/cloud/agent-connection-codec.ts:9-25 | the loop over the unmasked 32-bit accumulator prints the RFC's groups, for every byte sequence |
| Base32.Decode | src/cloud/agent-connection-codec.ts:27-42 | the loop reads whole octets out of the letters, dropping everything else |
| Base32.DecodeEncode | src/cloud/agent-connection-codec.ts:9-42 | decoding undoes encoding for every byte sequence |
| Base32.EncodedInjective | src/cloud/agent-connection-codec.ts:9-25 | different bytes print differently |
| Base32.EncodeDecode | src/cloud/agent-connection-token.ts:213-228 | re-encoding gives a string back exactly when fewer than five bits are left over and they are zero |
| Standards.EncodedAt | src/cloud/agent-connection-codec.ts:9-25 | letter k printed is the letter of the alphabet that bits 5k to 5k + 4 of the bytes name, zeros behind the last |
| Standards.DecodedAt | src/cloud/agent-connection-codec.ts:27-42 | each bit read back is that bit of its letter's place in the alphabet, and bits that fill no byte are dropped |
| Crc32.Crc32 | src/cloud/agent-connection-codec.ts:44-53 | the two loops compute the register function |
| Crc32.TableDriven | src/cloud/agent-connection-codec.ts:48-50 | eight rounds per byte equal one lookup in the RFC's table |
| Crc32.RunWindow | src/cloud/agent-connection-codec.ts:46-51 | up to four bytes act as one linear transform of the register with the bytes laid in |
| Crc32.WindowDetected | src/cloud/agent-connection-codec.ts:44-53 | two bodies that differ only inside four consecutive bytes have different checksums |
| Standards.Generator | src/cloud/agent-connection-codec.ts:49-49 | the polynomial has exactly the terms of the generator of section 8 of RFC 1952 |
| Standards.ChecksumOf7F | src/cloud/agent-connection-codec.ts:44-53 | the checksum of the byte 0x7F is 0x12B88320, which fixes the start value, the end value and which way the bits run |
| Token.EncodeToken | src/cloud/agent-connection-codec.ts:71-79 | prints the token of the body |
| Token.Decode | src/cloud/agent-connection-token.ts:108-238 | the marker search, the scanner loop with its look-ahead and the checks compute `Outcome` |
| Token.MarkerSound | src/cloud/agent-connection-token.ts:116-127 | what a marker match consumed is the marker once noise is stripped |
| TokenLaws.MatchExactly | src/cloud/agent-connection-token.ts:116-118 | the matcher finds exactly the stretches from a C to a dot that hold only noise and spell the marker |
| TokenLaws.LeastMarker | src/cloud/agent-connection-token.ts:116-127 | the search returns the marker that starts first, and fails only where none starts |
| TokenLaws.MissingExactly | src/cloud/agent-connection-token.ts:116-124 | text is refused for want of a marker exactly when no position of it starts one |
| Token.ScanSound | src/cloud/agent-connection-token.ts:136-181 | the parts collected are the scanned text once normalized |
| Token.CheckedExactly | src/cloud/agent-connection-token.ts:194-238 | the checks pass exactly for the two parts the printer prints, for a body that is not empty; the shape is wrong exactly when a part is empty, and any other refusal is the checksum's |
| TokenLaws.AcceptedIsPrinted | src/cloud/agent-connection-token.ts:116-238 | every accepted text contains, once noise is stripped, exactly what the printer prints for its body |
| TokenLaws.NoiseIgnored | src/cloud/agent-connection-token.ts:116-238 | whitespace, `*`, `_`, backslashes or backticks anywhere in a token, any letter case, any text before it in which no marker starts, and text after it that starts with a terminator leave the body unchanged |
| TokenLaws.AfterToken | src/cloud/agent-connection-token.ts:136-192 | for any text after the last letter of a token: it decodes if only formatting stands before the end or a terminator; otherwise a dot further on is a wrong shape, a letter a wrong checksum, and anything else changes nothing |
| TokenLaws.Characters | src/cloud/agent-connection-token.ts:108-178 | which characters are noise, which end a token and which count |
| TokenLaws.RoundTrip | src/cloud/agent-connection-codec.ts:71-79 | a printed token decodes to its body exactly when the body is not empty |
| TokenLaws.OneLetterRefused | src/cloud/agent-connection-token.ts:116-238 | replacing any one letter of the body or the checksum is always refused as a checksum failure, also with noise, any letter case, text before it in which no marker starts and terminated text after |
| Utf8.DecoderAgrees | src/cli.ts:1476-1476 | the streaming decoder gives the text of the grammar, or refuses with it, for every byte sequence |
| Utf8.WholeExactly | src/cli.ts:1476-1476 | bytes have a text exactly when they encode Unicode scalar values by section 3 of RFC 3629, and its UTF-16 units stand for those values |
| Utf8.FeedConcat | src/cli.ts:1511-1511 | feeding in two pieces gives what feeding at once gives |
| Utf8.WholeLength | src/cli.ts:1481-1481 | a valid text has between one and three bytes per UTF-16 unit |
| BoundedReader.DecodeChunk | src/cli.ts:1503-1528 | the slice loop decodes the chunk; the text never exceeds maxChars + 2; a stop means malformed bytes or a text over the limit |
| BoundedReader.ReadBounded | src/cli.ts:1458-1591 | for every split into chunks the reader succeeds exactly when the bytes are valid UTF-8 and the text without its one trailing newline fits, returns that text, and each refusal is true of the whole input |
| BoundedReader.StripExactly | src/cli.ts:1433-1441 | a text loses CR LF if it ends in that, else LF if it ends in that, else nothing |
| BoundedReader.AcceptableIsShort | src/cli.ts:1481-1497 | the byte cap and the early bound never refuse an acceptable body |
| StatusHistory.History | scripts/standalone-ci/publish-status.py:124-139 | the paging loop with its set of ids computes `PagesFrom`, whatever the answers |
| StatusHistory.HistoryIsFirstRead | scripts/standalone-ci/publish-status.py:124-139 | however often and whenever rows are added in front while it pages, it refuses or returns the history as it was at the first page read |
| StatusHistory.StandingHistory | scripts/standalone-ci/publish-status.py:124-139 | a history that stands still is returned whole exactly when its rows are valid and fewer than 100000 |
| StatusHistory.PagesValid | scripts/standalone-ci/publish-status.py:129-135 | what comes back has valid rows with distinct ids |
| StatusHistory.PagesExactly | scripts/standalone-ci/publish-status.py:124-139 | whatever the answers, a history comes back exactly when full pages are followed by a short one within a thousand, with valid rows and no id twice, and it is their rows |
| StatusDecision.ParseDescription | scripts/standalone-ci/publish-status.py:97-99 | a printed description, old form or new, parses back to its run, exit code and time |
| StatusClaims.ParseExactly | scripts/standalone-ci/publish-status.py:154-156 | a description is read exactly when it is a run, `exit`, one to three digits and perhaps a time, and as those |
| StatusClaims.DescriptionPrints | scripts/standalone-ci/publish-status.py:97-98 | what is printed for a result is its run, its code without leading zeros and its time |
| StatusClaims.ClaimExactly | scripts/standalone-ci/publish-status.py:153-170 | a row claims exactly this: its own result if it is this run's row as printed, old or new form; its state, code and time if it is a finished row of another run; the receipt's time if it is an old row and the receipt agrees with it on commit, context, code and state |
| StatusClaims.RowRefused | scripts/standalone-ci/publish-status.py:153-170 | every other row is refused, by the reason it conflicts |
| StatusClaims.FinishedClaims | scripts/standalone-ci/publish-status.py:166-168 | the row printed for one result claims that run, code, state and time to every other result |
| StatusClaims.LegacyClaims | scripts/standalone-ci/publish-status.py:161-165 | so does its old form, given its receipt |
| StatusDecision.HistoryDecision | scripts/standalone-ci/publish-status.py:142-175 | the loop over two maps refuses exactly when the pairwise rule fails (a row that makes no claim, a run with two signatures, two runs with one completion time), and otherwise answers true exactly when some row is this run or completed later |
| StatusClaims.DecisionExactly | scripts/standalone-ci/publish-status.py:142-175 | the rule in terms of what the rows claim: all claim something, none of another run shares this completion time, rows of one run agree, two runs have two times |
| StatusDecision.OrderFree | scripts/standalone-ci/publish-status.py:142-175 | refusal and answer are the same for every permutation of the history |
| StatusReconcile.HistoryIsRecent | scripts/standalone-ci/publish-status.py:124-139 | what paging returns while others write is the log but for their rows in front |
| StatusReconcile.Reconcile | scripts/standalone-ci/publish-status.py:178-197 | the log afterwards and the outcome, for every fate of the POST and every three readbacks: nothing is written unless the decision says so, and then at most this one row, in front |
| StatusClaims.OutcomeMeans | scripts/standalone-ci/publish-status.py:178-197 | skipped exactly when the decision settles it; published exactly when it was sent and answered with an id, and one of three readbacks is the first to show a row of that id, shows it as sent, and no history up to it is out of order |
| StatusClaims.DueIsPublished | scripts/standalone-ci/publish-status.py:178-197 | if the context holds only what was printed for earlier results of other runs, the POST is answered and a readback shows the row, the result is published |
| StatusReconcile.PostsOnlyLater | scripts/standalone-ci/publish-status.py:178-182 | a result is sent only when every row of its context is of another run and strictly earlier |
| StatusReconcile.DoneReaches | scripts/standalone-ci/publish-status.py:178-197 | a reconcile that does not fail leaves its context at this result or a later one |
| StatusReconcile.LateRow | scripts/standalone-ci/publish-status.py:180-183 | a row that lands late keeps the newest row the newest result exactly when no row of its context completed after it |
| StatusReconcile.RunKeeps | scripts/standalone-ci/publish-status.py:226-237 | any reconciles in any order, with lost replies and rows of others between: the newest row of a context stays the newest result, no run gets a second row, and the context shows at least the latest result ever reported as published or skipped |
| AcceptLink.Device.PickPrincipal | src/cloud/accept-link.ts:424-477 | the retry loop returns the device's home identity, and alone it succeeds exactly when some candidate name is free or ours |
| AcceptLink.CandidateMeans | src/cloud/accept-link.ts:190-194 | candidates 2 to 5 are the name cut to 78 characters without dashes at its end, a dash and the number; they fit 80 characters and differ from each other and from a name that does not end in their suffix |
| AcceptLink.Device.Accept | src/cloud/accept-link.ts:218-542 | a run cut off at any call keeps the invariant; if it completes it returns the home identity; alone it completes exactly when the invitation or a membership and a candidate name are there |
| AcceptLink.Device.WriteProfile | src/cloud/accept-link.ts:483-511 | the last profile write keeps the invariant, and after a fresh acceptance names the identity |
| AcceptLink.CreatedHome | src/cloud/accept-link.ts:441-454 | an identity created under the first candidate that others do not hold is the home, and there was none before |
| AcceptLink.OneIdentity | src/cloud/accept-link.ts:263-511 | on a fresh device, over any number of runs with others moving during and between them, every completed run returns one and the same identity and no other is created |
| AcceptLink.AtMostOneMade | src/cloud/accept-link.ts:387-481 | on a fresh device any number of runs, none of which need complete, create at most one identity |
| Archive.Disk.CopyBytes | scripts/c1-staging-u9/archive.py:39-63 | an exclusive copy that succeeds holds the verified bytes; one that fails touches nothing else, leaves a file that was there as it was, and without errors it succeeds exactly for free names, matching bytes and a private mode |
| ArchiveDrill.SetAside | scripts/c1-staging-u9/archive.py:116-151 | the legacy file is never touched; success means a verified second copy and a receipt that names both; without errors it succeeds exactly when `MayBegin` |
| ArchiveGates.BeginExactly | scripts/c1-staging-u9/archive.py:114-143 | `MayBegin` is: the reviewed hook, an active timer over an idle service, the measured archive and config as private files of their own, and the three new names free |
| ArchiveDrill.Lose | scripts/c1-staging-u9/archive.py:160-168 | the legacy file is unlinked only while both names lead to the recorded files, two of them, with the recorded bytes; nothing at all changes unless `MayLose`, and without errors it succeeds exactly then |
| ArchiveGates.LoseExactly | scripts/c1-staging-u9/archive.py:153-167 | `MayLose` is: no drift from the first receipt, no receipt of this phase yet, a held idle service, the cutover and start time of the positive control, and two private files of their own, the recorded ones with the recorded bytes |
| ArchiveDrill.PutBack | scripts/c1-staging-u9/archive.py:169-188 | the aside goes only when the legacy path holds the verified bytes; without errors it succeeds exactly when `MayRestore` |
| ArchiveGates.RestoreExactly | scripts/c1-staging-u9/archive.py:169-188 | `MayRestore` is: no drift, a held service, idle or failed as the negative control recorded, bytes that stand under the legacy name or can be brought back from the recorded aside, and a config equal to its saved copy |
| ArchiveGates.ControlExactly | scripts/c1-staging-u9/archive.py:189-207 | the negative control passes only after a positive one and with the archive gone, any other only with the recorded bytes in place |
| ArchiveDrill.Execute | scripts/c1-staging-u9/archive.py:103-211 | every call of every phase, finished or not, is one of the steps below |
| ArchiveDrill.BytesKept | scripts/c1-staging-u9/archive.py:103-211 | through every sequence of phases, each stopped by an error at any file operation, the legacy or the aside path holds the original bytes |
| ArchiveDrill.RestoreReturnsOriginal | scripts/c1-staging-u9/archive.py:169-188 | a restore that finishes leaves the original file (bytes, owner, mode) at the legacy path and no aside |
| Hooks.WithoutOwnHooks | src/cli.ts:8669-8684 | the loop computes the groups kept and where the first of this tool's hooks was |
| Hooks.Install | src/cli.ts:8686-8708 | the loop over the events computes `InstallOf` |
| Hooks.Uninstall | src/cli.ts:8710-8730 | the loop over the events computes `UninstallOf` |
| Hooks.InstallKeepsOthers | src/cli.ts:8686-8708 | every other hook of the three events stays in order with its group's fields, each wanted event holds exactly one hook of this tool and the others none, and all other events and settings are unchanged |
| Hooks.InstallPlaces | src/cli.ts:8686-8708 | what is written, to the letter, and where: the message check where this tool's first group was, if there was one, every other hook last |
| Hooks.UninstallKeepsOthers | src/cli.ts:8710-8730 | likewise, and none of this tool's hooks is left in the three events |
| Hooks.LastInstallWins | src/cli.ts:8686-8708 | an install for any principal and mode erases every trace of the one before, so installing twice is installing once |
| Hooks.UninstallUndoesInstall | src/cli.ts:8686-8730 | uninstalling after an install equals uninstalling alone exactly under the condition given above |
| Hooks.OwnGroupOwn | src/cli.ts:8400-8406 | the recogniser knows every hook the installer writes |
| Hooks.OwnExactly | src/cli.ts:8400-8406 | a hook is this tool's exactly if it is a command of one of the four forms, the bare check or one with a 36-character id |

## Left out

- InboxReader.CheckStore.Commit: a deferred commit that names no row (src/cloud/agent-check.ts:366-376) is not modelled; commits name a last visible row.
- InboxReader.CheckStore.Check: the presence touch, the managed-session proof, the merge of handled asks and the result fields other than messages and `has_more` are not modelled.
- InboxRuns.EveryRun: the inbox is append-only in cursor order; a row that becomes visible behind a row already shown is outside the model.
- AckQueue.AtMost1447: one acking process and a clock that never runs back; work that goes on after the deadline rejected is assumed to stop.
- AckRound.AckRunner.AckPending: two readings of the clock with nothing between them are one reading.
- Channel.StepKeeps: managed acknowledgements, the ack command id and the turn-hook gate are left out; two receivers live on one binding are excluded.
- WakeCanary.VerifiedMeansWoken: other writers of the binding never set `wake_verified_at`, and a new canary starts with `emitted_while_idle` false.
- Token.Decode: text is ASCII; UTF-8, JSON and credential checks after the checksum (src/cloud/agent-connection-token.ts:240-258) are left out, and the letters of extra parts are only counted as parts.
- BoundedReader.ReadBounded: `TextDecoder` is the streaming decoder of `Utf8`; which stream error was reported and the clean-up callback are left out.
- StatusReconcile.RunKeeps: a POST that timed out does not land after a later reconcile (`StatusReconcile.LateRow` says what would happen); one publisher per context that reads its own writes, and one commit at a time; sorting, the duplicate check and argument parsing in `main` are left out.
- StatusDecision.HistoryDecision: receipts arrive as items that passed `candidate`; a time is what its text denotes, and a printed time reads back as itself.
- AcceptLink.Device.Accept: automatic naming only, no duplicate-name option, names that are not released and identities that are not revoked; names are taken as already sanitised, the invitation leads to the workspace it names, and login, origin pinning, the email field and progress messages are left out.
- Archive.Disk.CopyBytes: digests are taken as collision-free, an interrupted write never leaves bytes someone meant to write, and a number freed by an unlink is not handed out again within a phase; a power loss is not modelled.
- ArchiveDrill.Control: the systemd, docker and journal measurements are one input.
- Hooks.Install: the order of object keys is not modelled.
- Signal ids are numbers, and times are instants: their text forms order alike.
- HTTP, MCP transport, processes, signals, timers and locks are steps of the environment that may succeed, fail, or succeed and lose the reply.
- The command table, help text, status rendering, admin views, host detection, the Grok gateway client, site fixtures and packaging: each is validation, formatting or I/O decided within one function.
