# Seld kernel: verified models

Seld's kernel is a set of crash-safe and resumable protocols.  This project models them in
Dafny and proves what each step keeps and what holds over whole runs.  `dafny verify
dfyconfig.toml` checks everything.

| files | protocol |
|---|---|
| `Directory`, `Replacement`, `Exchange`, `Removal` | exact-leaf publication: stage, quarantine, no-replace move, verification, roll back or commit |
| `Append` | durable append with its rollback |
| `CorpusState`, `CorpusCommit`, `CorpusDocuments`, `CorpusCursor`, `CorpusRuns`, `Corpus`, `QmdScope` | the app corpus: documents, content-addressed leaves, state file, index fingerprint, search bindings, checkpoint chain |
| `CorpusProviders` | what the provider rounds deliver, committed to the corpus |
| `MailDelta`, `MailRounds`, `MailLinks`, `MailGaps`, `MailRecovery` | the Outlook folder and message delta machine and its two repairs |
| `OutlookSync`, `OutlookRuns`, `OutlookProgress` | the provider round around it: details, confirmations, failures |
| `DriveSync`, `DriveRuns`, `DriveProgress`, `GmailSync`, `GmailRuns`, `GmailProgress` | a listing spread over time plus a log read from an earlier anchor |
| `Tables`, `Messages`, `MessagesRuns`, `WhatsApp`, `WhatsAppRuns`, `WhatsAppPolls` | cursors over local message stores |
| `Activity`, `ActivityRuns` | session activity under byte and item caps |
| `Lexical`, `LexicalHits` | incremental index against full rebuild; round-robin of hits |
| `JsonText`, `Utf8`, `ExtractedText` | bounded text against its simple form |

Code that changes things step by step is a class or a method with loops, proved equal to a
function of the old state; the theorems about runs are lemmas about those functions.  A
system call that may fail, a foreign process, a provider's answer or a deadline is an
arbitrary choice, or a parameter constrained only by what the provider promises.

## What turned out false, and the exact condition

- Replacing an expected-absent leaf: when the publishing move takes effect and raises, and a
  listing made to find out does not show it, UNPUBLISHED is reported over a published
  replacement (`Replacement.UnnoticedPublication`).  `Replacement.Replace` states that the report
  is true if and only if that did not happen.
- Durable append: bytes a foreign process appends between the comparison and the truncation
  are truncated (`Append.LateByteIsLost`); only content is lost if and only if those bytes
  continue the compared prefix (`Append.LossIsLate`).
- Corpus leaves are named by sixteen digits of their digest; two contents of one object that
  share them overwrite each other (`CorpusCommit.SharedDigitsLoseBytes`).  The leaves stay
  published over every run if and only if no two contents of one object do
  (`CorpusRuns.SafeContents`).
- A reused search scope may stand over a stale external index after two interrupted refreshes
  (`QmdScope.InterruptedTwiceReusesStaleIndex`); `QmdScope.ReuseIsRight` says exactly when it
  does not.
- A Drive file that becomes plain keeps its document (`DriveRuns.PlainFileKeepsItsDocument`), and
  so does any file whose last change came without metadata; the documents are exact if and only
  if no such document is left (`DriveRuns.RoundsEndFaithful`, `DriveRuns.ExactByPages`).
- A Drive scan restarted over stored documents keeps those of files deleted before its anchor
  (`DriveRuns.RestartKeepsDeletedFile`), and so does Gmail after its history expires
  (`GmailRuns.ExpiryKeepsDeletedMessage`).  `DriveRuns.RestartedScan` and
  `GmailRuns.RestartedListing` say exactly when such a scan ends faithful.
- An Outlook removal that the connector refuses to confirm is retained with a coverage gap, but
  the next round neither looks at it again, unless the feeds list it, nor reports the gap
  (`OutlookRuns.UnlistedIsForgotten`, `OutlookRuns.UnconfirmedRemovalIsForgotten`).
- A later Gmail round without a history cursor, as after a listing whose profile gave none, lists
  one page and then crawls the history from the cursor it has just taken: a page of its listing is
  followed by the next one if and only if the round is not of this kind
  (`GmailProgress.NextPageExactly`, `GmailProgress.StrayListingIsGivenUp`).
- A rejected Gmail history continuation is retried unchanged until the history expires
  (`GmailSync.HistoryContinuationStays`).
- WhatsApp delivery restarts from zero when no row has the cursor's row id; a store that gives
  the id to a new message hides that message from paging until the next rescan
  (`WhatsAppRuns.ReusedRowIdIsSkipped`).
- A matching lexical fingerprint implies a built index while one version of the code is in
  use (`Lexical.OneVersionIsAlwaysBuilt`).  With two versions in turn it can stand over empty
  tables (`Lexical.VersionsInTurnLeaveIndexEmpty`).  SQLite commits each of the two drops of
  another version's tables by itself, so a death between them leaves a catalogue over no rows,
  which rebuilds do not repair for unchanged documents and later deletions make worse
  (`Lexical.DeathBetweenDropsLosesRows`).  `Lexical.ReadyMeansAlwaysBuilt` says exactly which
  databases answer every query rightly, and `Lexical.MatchMeansBuilt` and
  `Lexical.MatchOverOpenings` when a match does, from the tables and from their past.

## Model

| member | source | states |
|---|---|---|
| `Directories.Survival` | src/continuity_kernel/atomic.py:1184-1397 | An inode reachable at some moment of an operation, and neither dropped by one of its own steps nor removed by a foreign one, is reachable at every later moment, so at every crash point |
| `Directories.DropsOnlyNew` | src/continuity_kernel/atomic.py:1184-1397 | When all an operation drops is newer than the directory it began with, everything that was there when it began is there at every moment but for what foreign processes remove |
| `Directories.DisplacedLeafSurvives` | src/continuity_kernel/atomic.py:1254-1397 | The leaf an operation displaced is still in the directory unless one of its steps dropped it or a foreign process removed it |
| `Directories.VerifiedWasThere` | src/continuity_kernel/atomic.py:2802-2821 | A verified inode was at the public name at a moment after the operation's last change of that name |
| `Directories.AlwaysPresent` | src/continuity_kernel/atomic.py:985-1146 | If no own step exposes absence and no foreign step removes the leaf, a public name that was present is present at every moment, so at every crash point |
| `Directories.Directory.MoveNoReplace` | src/continuity_kernel/atomic.py:3019-3071 | A move to a free name takes effect, or not, and may raise after taking effect; an occupied target or a missing source is never touched |
| `Directories.Directory.UnlinkIfIdentity` | src/continuity_kernel/atomic.py:2824-2841 | Unlinks only the inode it is given, and says so only when it did |
| `Directories.Directory.Exchange` | src/continuity_kernel/atomic.py:2933-2980 | Two present names trade inodes in one step, or nothing changes |
| `Directories.Directory.Stage` | src/continuity_kernel/atomic.py:2724-2760 | A new inode with exactly the content stands under a fresh private name; the public leaf is left alone; after a failure no inode is dropped but the one it created |
| `Replacement.Replace` | src/continuity_kernel/atomic.py:1184-1397 | Over everything that happened since the call: conservation (the only inode created is the stage, holding the replacement, and no other is dropped but the exact expected leaf of a completed replacement), so at every crash point all that was in the directory is there but for that leaf and what foreign processes remove; and the truth of every ending: return and COMMITTED mean the replacement was read back after displacing the exact expected state; UNPUBLISHED means the prior state is back if and only if no expected-absent publication slipped, and one that slips ends so with the stage at the name; ConflictError keeps the displaced leaf, and leaves the name empty unless what was found is back or the publication slipped; with at most one failed call and nothing foreign, an operation that does not complete leaves the name as it was found, and says UNKNOWN only when a move raised; undisturbed it is a compare-and-swap |
| `Replacement.Rollback` | src/continuity_kernel/atomic.py:2853-2903 | What rolling back leaves at the name and under the private names, for each way it can fail |
| `Replacement.Restore` | src/continuity_kernel/atomic.py:2844-2850 | A quarantined leaf goes back only to a free public name, and no inode is lost |
| `Replacement.Quarantine` | src/continuity_kernel/atomic.py:1219-1246 | The expected leaf is moved aside and confirmed before anything is published; anything else is reported with where it is |
| `Replacement.PublishStage` | src/continuity_kernel/atomic.py:1247-1278 | The stage goes to the public name without replacing anything; when the move raised after its effect, the handler knows unless a listing it made failed to show it |
| `Replacement.Settle` | src/continuity_kernel/atomic.py:1279-1332 | A published stage is verified and the quarantined leaf discarded; every ending short of that can still be rolled back |
| `Replacement.Recover` | src/continuity_kernel/atomic.py:1333-1369 | The exception handler reports the prior state as restored exactly when it is, but for a publication it did not notice |
| `Replacement.FindOut` | src/continuity_kernel/atomic.py:1251-1272 | After a raised move the two names are listed, and the publication is taken to have happened only if it has |
| `Replacement.SlipsExactly` | src/continuity_kernel/atomic.py:1251-1272 | Undisturbed between the raised move and the listings, a publication that took effect slips exactly when one of the two listings fails |
| `Replacement.UnnoticedPublication` | src/continuity_kernel/atomic.py:1251-1278 | A run that slips: the stage is written, the move takes effect and raises, the first listing fails, and the replacement is at the absent name; its ending is the one Replace states for every such run |
| `LeafExchange.ExchangeIfExact` | src/continuity_kernel/atomic.py:985-1146 | Over everything that happened since the call: a name that was present is present at every crash point unless a foreign process removes it; no inode is dropped but its own stage and the expected leaf of a completed exchange, so all else that was in the directory is there at every crash point; every ending tells the truth; after ConflictError whatever the operation found at the name, a competitor included, is what it last put there; if no call fails and nothing foreign happens after its own swap, it ends completed when the swap displaced the leaf that was read, and otherwise the displaced leaf, a competitor included, is back at the name, no private name is left and the ending is not UNKNOWN, unless what was displaced is no regular file; with at most one failed call and nothing foreign it never ends UNKNOWN, and the name is as it was unless it completed; undisturbed it is a compare-and-swap |
| `LeafExchange.TradeNames` | src/continuity_kernel/atomic.py:1039-1043 | After the exchange the stage name holds exactly what the public name held |
| `LeafExchange.Commit` | src/continuity_kernel/atomic.py:1039-1085 | The displaced leaf is dropped only after the replacement was read back and the displaced leaf found to be the exact expected one |
| `LeafExchange.TradeBack` | src/continuity_kernel/atomic.py:2983-3015 | Trading back succeeds only by putting the displaced leaf back at the name |
| `Removal.UnlinkIfExact` | src/continuity_kernel/atomic.py:1486-1574 | Over everything that happened since the call: only the exact expected leaf is ever dropped, so all else that was in the directory is there at every crash point; however it ends, a displaced leaf is back at the name, under a private name, or was the expected one and is dropped; a refusal leaves the name as it was found; with at most one failed call and nothing foreign it never ends UNKNOWN, and the leaf is still at the name unless it was the expected one or a move raised; undisturbed it removes the leaf exactly when it is the expected one |
| `Removal.Judge` | src/continuity_kernel/atomic.py:1512-1574 | The quarantined leaf is unlinked only after it was read and found to be the expected one |
| `Append.File.AppendDurable` | src/continuity_kernel/atomic.py:811-912 | Over everything that happened since the call: success means the file as it was when its size was taken, which extends what it was at the call, followed by the whole content, and nothing cut; RESTORED means exactly that file, or that the size was never taken and nothing written; nothing is cut but after everything there was counted, read and found to be a prefix of the content, so only content is lost if and only if the bytes that arrived after that continue it; with at most one failed call and nothing foreign it never ends UNKNOWN, RESTORED leaves the file as it was at the call, and any other ending has the whole content at its end |
| `Append.File.RestoreExact` | src/continuity_kernel/atomic.py:3220-3243 | Whatever was after the original end when the rollback began is compared before anything is cut, and nothing is cut when it was no prefix of the content |
| `Append.File.WriteAll` | src/continuity_kernel/atomic.py:3299-3305 | Any sequence of short writes appends the whole content or a prefix of it, whatever is appended in between |
| `Append.LossIsLate` | src/continuity_kernel/atomic.py:3220-3243 | What a compared truncation cuts is a prefix of the content exactly when the bytes too late for the comparison continue it |
| `Append.LateByteIsLost` | src/continuity_kernel/atomic.py:3239-3243 | A run of the file: half the content is written, counted and read back, a foreign byte arrives, and the cut to the original end takes it although it is not part of the content |
| `MailDelta.Sync` | src/continuity_kernel/app_corpus_microsoft_delta.py:60-153 | One call, item by item, is the step function the round theorems are about, including every refusal |
| `MailDelta.ListFolders` | src/continuity_kernel/app_corpus_microsoft_delta.py:79-115 | The folder loop and the phase change it may end in |
| `MailDelta.ListMessages` | src/continuity_kernel/app_corpus_microsoft_delta.py:119-153 | The message loop, the candidate bound and the end of a folder or a round |
| `MailDelta.SortedIsSorted` | src/continuity_kernel/app_corpus_microsoft_delta.py:112 | The folder order is increasing and holds exactly the tracked folders |
| `MailRounds.StepProgresses` | src/continuity_kernel/app_corpus_microsoft_delta.py:60-153 | On finite feeds a call succeeds, keeps the checkpoint sound, and completes the round or lowers the lexicographic measure (phase, folders left, pages left) |
| `MailRounds.Round` | src/continuity_kernel/app_corpus_microsoft_delta.py:60-153 | Hence a round terminates, and exactly its last result is complete |
| `MailRounds.WholeRound` | src/continuity_kernel/app_corpus_microsoft_delta.py:60-153 | A round delivers exactly the non-removal items of each folder it reads, once, in feed order, folder after folder; its last result reports the removals listed, or none when more than the limit were |
| `MailRounds.RoundOrder` | src/continuity_kernel/app_corpus_microsoft_delta.py:79-115 | Below the folder limit, the folders read are exactly those whose last mention lists them, in increasing order |
| `MailRounds.RoundDelivers` | src/continuity_kernel/app_corpus_microsoft_delta.py:119-153 | From any sound checkpoint the calls deliver exactly what was pending |
| `MailRounds.AbsorbExact` | src/continuity_kernel/app_corpus_microsoft_delta.py:379-389 | The removal candidates are complete if and only if no more than the limit were removed |
| `MailRounds.AbsorbFirst` | src/continuity_kernel/app_corpus_microsoft_delta.py:379-389 | Each candidate keeps the folder and revision it was first listed with |
| `MailRounds.TrackedByLastMention` | src/continuity_kernel/app_corpus_microsoft_delta.py:88-106 | Below the folder limit the last mention of a folder decides whether it is tracked |
| `MailLinks.NextRoundAsksOn` | src/continuity_kernel/app_corpus_microsoft_delta.py:107-148 | After a whole round the next one asks with exactly the links its feeds ended with: for the folders, and for every folder the round read |
| `MailLinks.GateKeepsLink` | src/continuity_kernel/app_corpus_microsoft_delta.py:88-106 | A tracked folder not listed as removed is read from the link it had |
| `MailGaps.RoundTells` | src/continuity_kernel/app_corpus_microsoft_delta.py:88-115 | At the end of a round the coverage gaps list the folder limit, and the limit of removal candidates, exactly if it was reached |
| `MailGaps.TrackTells` | src/continuity_kernel/app_corpus_microsoft_delta.py:88-106 | A removed folder is listed as a gap exactly when an entry removed one that was tracked by then |
| `MailRecovery.RewindMessagePage` | src/continuity_kernel/app_corpus_microsoft_delta.py:193-217 | The rewind, folder by folder, is the rewind the next theorems are about |
| `MailRecovery.RewindReplays` | src/continuity_kernel/app_corpus_microsoft_delta.py:193-217 | After a page that continued, ended its folder or ended the round, the rewound checkpoint is well formed, starts no later than that folder and restarts it |
| `MailRecovery.RewindCovers` | src/continuity_kernel/app_corpus_microsoft_delta.py:193-217 | Running it on completes and redelivers everything that folder's feed lists from the start |
| `MailRecovery.ClearContinuations` | src/continuity_kernel/app_corpus_microsoft_delta.py:183-190 | The clearing loop drops every continuation and nothing else |
| `MailRecovery.ClearLosesNothing` | src/continuity_kernel/app_corpus_microsoft_delta.py:183-190 | Whatever was still to be delivered or removed is still to come |
| `MailRecovery.FolderStepTraces` | src/continuity_kernel/app_corpus_microsoft_delta.py:79-115 | Every folder step keeps what that needs: continuations stand inside the feed of their link |
| `MailRecovery.MessageStepTraces` | src/continuity_kernel/app_corpus_microsoft_delta.py:119-153 | So does every message step |
| `MailRecovery.ReplayTracksTheSame` | src/continuity_kernel/app_corpus_microsoft_delta.py:183-190 | A folder listing cleared and replayed tracks the same folders as one run straight through |
| `OutlookSync.MailSource.SyncRound` | src/continuity_kernel/app_corpus_providers.py:1262-1347 | One round, message by message, is the round the next theorems are about: the delta moves only after every detail was read, and a gap met before a failure stays recorded |
| `OutlookRuns.FailureLeaves` | src/continuity_kernel/app_corpus_providers.py:184-198 | A failed round delivers nothing and leaves the delta as it was, or without its continuations when one was rejected |
| `OutlookRuns.ClearedPends` | src/continuity_kernel/app_corpus_providers.py:2626-2647 | From the first folder not passed, a delta without its continuations asks again for exactly what the round began with |
| `OutlookSync.EachChangeDelivered` | src/continuity_kernel/app_corpus_providers.py:1270-1303 | A page that is delivered has one document for each of its changes, in order |
| `OutlookSync.CandidateDelivered` | src/continuity_kernel/app_corpus_providers.py:1304-1337 | Every removal candidate is deleted or brought up to date unless its own read was refused, when no read broke |
| `OutlookSync.UnconfirmedExactly` | src/continuity_kernel/app_corpus_providers.py:1304-1337 | The gap is recorded exactly when the connector refused a candidate that was read before any read broke |
| `OutlookRuns.RoundsEndInAgreement` | src/continuity_kernel/app_corpus_providers.py:1261-1347 | However often pages, details and confirmations fail and continuations are rejected while messages leave the mailbox, a round that ends has read every message its feeds list as changed since it began to read messages, and every one listed as removed but those refused, unless these exceed the limit; no message still in the mailbox loses its document, no other message is touched, and a gap stands exactly when a removal was refused |
| `OutlookProgress.RoundMovesOn` | src/continuity_kernel/app_corpus_providers.py:1261-1347 | On finite feeds a round whose changed messages are found or missing, and of whose candidates no read breaks, does not fail, and is done or brings the delta strictly nearer its end |
| `OutlookProgress.Rounds` | src/continuity_kernel/app_corpus_providers.py:1261-1347 | Hence rounds that can read what they ask for end, whatever failed before |
| `OutlookRuns.UnlistedIsForgotten` | src/continuity_kernel/app_corpus_providers.py:1261-1347 | Whatever earlier rounds left unconfirmed, a message the feeds of a round do not name is read by none of its calls and keeps its document as it was |
| `OutlookRuns.UnconfirmedRemovalIsForgotten` | src/continuity_kernel/app_corpus_providers.py:1311-1319 | A mailbox in which a removal is refused once: the next round ends without a gap and the document of the message that left remains |
| `CorpusState.RowsDecide` | src/continuity_kernel/app_corpus.py:978-987 | Indexing depends on the documents only through their keys, digests and paths |
| `CorpusState.BindingKeepsIndexed` | src/continuity_kernel/app_corpus.py:741-760 | Publishing one connection's binding makes it current and no other stale |
| `CorpusCommit.ProposeDrafts` | src/continuity_kernel/app_corpus.py:426-490 | Every record of a proposed state is unchanged or has its leaf among the writes, and a result that counts as no change leaves every row as it was |
| `CorpusDocuments.DocumentsFollow` | src/continuity_kernel/app_corpus.py:426-491 | What an accepted result does to every object: one whose last mention is a deletion is gone; one last delivered is there with that content, parent and details, unless its parent was deleted afterwards; one not mentioned is as it was, unless its parent was deleted |
| `CorpusDocuments.RefusedExactly` | src/continuity_kernel/app_corpus.py:455-460 | A result is refused if and only if one of its documents is too large, or new while there are as many as there may be |
| `CorpusDocuments.ChangedExactly` | src/continuity_kernel/app_corpus.py:426-491 | It counts as a change if and only if one of its documents changes the keys, digests or paths |
| `CorpusProviders.CommitKeepsHolds` | src/continuity_kernel/app_corpus.py:426-491 | A committed result leaves the connection's messages and files with the documents it says they have, whatever it does to attachments |
| `CorpusProviders.OthersKeepHolds` | src/continuity_kernel/app_corpus.py:426-491 | And changes nothing of another connection |
| `CorpusProviders.DriveCommits` | src/continuity_kernel/app_corpus.py:426-491 | So committing a Drive round does to the corpus what the Drive theorems say its deliveries do |
| `CorpusProviders.GmailCommits` | src/continuity_kernel/app_corpus.py:426-491 | The same for Gmail |
| `CorpusProviders.OutlookCommits` | src/continuity_kernel/app_corpus.py:426-491 | The same for Outlook, where a deleted message takes its attachments with it |
| `CorpusCommit.DraftPublishes` | src/continuity_kernel/app_corpus.py:508-516 | After any number of leaf writes, and after the state write, every visible record's leaf is there with its bytes, if no two contents of one object share their digits |
| `CorpusCommit.SharedDigitsLoseBytes` | src/continuity_kernel/app_corpus.py:459-461 | If two contents of an object shared the sixteen digits in a leaf's name, storing the second would overwrite a published leaf |
| `CorpusCursor.StartsFromStored` | src/continuity_kernel/app_corpus.py:1227-1306 | A read starts from the stored checkpoint, the one to resume if there is one and otherwise the last complete one, unless its commit will introduce a recovery epoch; a recorded epoch is kept |
| `CorpusCursor.RewindsExactly` | src/continuity_kernel/app_corpus.py:1227-1300 | Exactly when a read rewinds for a recovery, and the checkpoint it is then given |
| `CorpusCursor.NextReadGoesOn` | src/continuity_kernel/app_corpus.py:493-507 | What a committed result stored is what the next read starts from: its checkpoint, or if an incomplete one had none, what the read before it would have started from |
| `CorpusRuns.RunKeepsSound` | src/continuity_kernel/app_corpus.py:346-531 | Over every interleaving of commits cut short anywhere, failures, configuration, cleanup, binding publications and refresh ends: leaves, fingerprint and checkpoint chain stay sound, if of the contents that occurred no two of one object share the digits of a leaf's name |
| `CorpusRuns.SafeContents` | src/continuity_kernel/app_corpus.py:455-516 | Exactly which contents are safe: over every run from an empty corpus the visible leaves stay published if and only if no two contents of one object share those digits |
| `CorpusRuns.CommitKeepsLeaves` | src/continuity_kernel/app_corpus.py:455-516 | A commit, wherever it dies, keeps every visible record's leaf |
| `CorpusRuns.CommitKeepsIndex` | src/continuity_kernel/app_corpus.py:511-523 | A commit keeps a stored index fingerprint only while it still describes the documents and all bindings are current |
| `CorpusRuns.ChainGrows` | src/continuity_kernel/app_corpus.py:493-507 | Each committed result starts where the connection's previous one ended, the completed checkpoint moves only on complete pages, and a recovery rewind commits at most once |
| `CorpusRuns.ChainStays` | src/continuity_kernel/app_corpus.py:277-308 | Failures, configuration and refreshes never break the chain |
| `CorpusRuns.LeavesNeverChange` | src/continuity_kernel/app_corpus.py:459-516 | No leaf's bytes ever change |
| `Corpora.Corpus.CommitSync` | src/continuity_kernel/app_corpus.py:381-531 | The commit with its loops: given up exactly when the connection's cursor or scope changed during the read, refused exactly when a document is foreign or too much, cut short exactly when it dies before its state is written, and otherwise committed; after it every object is as its last mention and the deletions of its parent since say, and the result says it is indexed exactly when the stored fingerprint is that of the visible documents |
| `Corpora.Corpus.Draw` | src/continuity_kernel/app_corpus.py:426-490 | The document loop is the proposal the theorems about documents and leaves are about |
| `Corpora.Corpus.WriteLeaves` | src/continuity_kernel/app_corpus.py:508-510 | The leaf writes, up to where they are interrupted |
| `Corpora.Corpus.BeginSync` | src/continuity_kernel/app_corpus.py:362-379 | The checkpoint the provider reads from, and the token that guards it |
| `Corpora.Corpus.RecordFailure` | src/continuity_kernel/app_corpus.py:277-308 | Only the status of the entry changes |
| `Corpora.Corpus.Configure` | src/continuity_kernel/app_corpus.py:224-260 | An unchanged adapter without new settings keeps its own |
| `Corpora.Corpus.BeginRefresh` | src/continuity_kernel/app_corpus.py:668-689 | Cleanup removes only content-addressed leaves no visible record names, and all of them if it is not cut short |
| `Corpora.Corpus.PublishBinding` | src/continuity_kernel/app_corpus.py:741-760 | A binding is published only for rows the documents still have |
| `Corpora.Corpus.FinishRefresh` | src/continuity_kernel/app_corpus.py:761-770 | The index fingerprint is stored exactly when every binding is current |
| `QmdScope.Scope.Refresh` | src/continuity_kernel/app_corpus_qmd.py:180-294 | A refresh stopped while copying, before its first command, among its commands or before its manifest: what it leaves in view, index and manifest, and what is then known of the index; it is refused exactly when a record or a leaf is not as it should be, and interrupted only if time runs out, a command fails or the manifest cannot be written; a rebuilt index holds exactly the leaves |
| `QmdScope.ReuseIsRight` | src/continuity_kernel/app_corpus_qmd.py:216-294 | Over any sequence of refreshes, reusing a scope whose manifest and view match is right whatever unfinished commands left, if and only if the last commands that finished were for those rows and none started since did not finish |
| `QmdScope.Scope.Materialize` | src/continuity_kernel/app_corpus_qmd.py:332-365 | A materialisation that has the time finishes, and makes the view equal to the sources; an interrupted one leaves only old files and source copies |
| `QmdScope.Scope.ViewMatches` | src/continuity_kernel/app_corpus_qmd.py:314-330 | The comparison holds exactly when the view equals the sources |
| `QmdScope.Scope.ReadSources` | src/continuity_kernel/app_corpus_qmd.py:295-312 | Sources are read exactly when every leaf has its digest |
| `QmdScope.InterruptedTwiceReusesStaleIndex` | src/continuity_kernel/app_corpus_qmd.py:216-282 | A stale index is reused: to other rows and back while the commands fail |
| `DriveSync.DriveSource.SyncRound` | src/continuity_kernel/app_corpus_providers.py:612-738 | One round works on the checkpoint in place exactly as the round function says, failures included |
| `DriveSync.ChangeDocuments` | src/continuity_kernel/app_corpus_providers.py:829-873 | The change loop, and the one entry that makes the whole page unusable |
| `DriveRuns.RoundsEndFaithful` | src/continuity_kernel/app_corpus_providers.py:612-741 | However the log grows, calls fail, continuations are dropped, pages are replayed and scans restart: when a round is done, every live text file has its document, text or gap note; the documents are faithful if and only if no relic is left from before a scan, and exact if and only if none is of a file without text, which no lingering file at the cursor rules out |
| `DriveProgress.CallMovesOn` | src/continuity_kernel/app_corpus_providers.py:629-738 | On finite listings and change logs, a call that is answered takes exactly the first pending page off, delivers it, and ends the round at its cursor with the last one; one that fails leaves all of them pending |
| `DriveProgress.RoundEnds` | src/continuity_kernel/app_corpus_providers.py:629-738 | So from wherever a round stands it is done as soon as as many calls are answered as pages are pending, however many fail, and has delivered every page, in order |
| `DriveProgress.BootstrapLists` | src/continuity_kernel/app_corpus_providers.py:618-629 | A checkpoint that needs it begins with a whole listing, then reads the changes from the anchor |
| `DriveProgress.NextRoundReadsOn` | src/continuity_kernel/app_corpus_providers.py:341-370 | The next round reads the changes from the cursor the last one ended at |
| `DriveRuns.ExactByPages` | src/continuity_kernel/app_corpus_providers.py:612-741 | After a first scan and any rounds, the documents are exact if and only if no file without text at the cursor was last delivered as a document |
| `DriveRuns.RestartedScan` | src/continuity_kernel/app_corpus_providers.py:612-741 | A scan over stored documents, of any length and with any failures, ends faithful if and only if of every file that had a document the log said something kept by the anchor the scan took, or a page delivered something |
| `DriveRuns.CatchingUpExactly` | src/continuity_kernel/app_corpus_providers.py:699-741 | Reading the log on keeps the documents up to date, and exact if and only if no file without text was last said to have some or changed without metadata |
| `DriveRuns.ListedPage` | src/continuity_kernel/app_corpus_providers.py:663-697 | A listing that shows files as they were at any time since the anchor never harms what the log will settle |
| `DriveRuns.ChangedPage` | src/continuity_kernel/app_corpus_providers.py:699-721 | A stretch of the log settles every file it mentions |
| `DriveRuns.PlainFileKeepsItsDocument` | src/continuity_kernel/app_corpus_providers.py:780-781 | A text file that becomes another type keeps its old document |
| `DriveRuns.RestartKeepsDeletedFile` | src/continuity_kernel/app_corpus_providers.py:612-628 | A scan restarted over stored documents keeps that of a file deleted before the new anchor |
| `GmailSync.GmailSource.SyncRound` | src/continuity_kernel/app_corpus_providers.py:412-533 | One round works on the checkpoint in place exactly as the round function says |
| `GmailSync.MessageDocuments` | src/continuity_kernel/app_corpus_providers.py:875-970 | The detail loop: a missing message is skipped, any other failure has the page read again |
| `GmailRuns.RoundsEndFaithful` | src/continuity_kernel/app_corpus_providers.py:412-533 | Whenever a round is done, expired histories included: every message that had arrived by its cursor and is still there has its document, and none that had left by then has one if and only if no relic of a listing is left, as there never is unless the history expired; no failure in between skips a message |
| `GmailProgress.CallMovesOn` | src/continuity_kernel/app_corpus_providers.py:419-533 | On finite listings and histories, a call that reads its page in full takes exactly the first pending page off and ends the round at its cursor with the last one; any other leaves all of them pending |
| `GmailProgress.RoundEnds` | src/continuity_kernel/app_corpus_providers.py:419-533 | So a round is done as soon as as many calls have read their page in full as pages are pending, however many have not |
| `GmailProgress.RoundDelivers` | src/continuity_kernel/app_corpus_providers.py:419-533 | And has delivered exactly these pages, in order |
| `GmailProgress.NextRoundCrawls` | src/continuity_kernel/app_corpus_providers.py:341-349 | The next round crawls the history from the cursor the last one ended at |
| `GmailProgress.NextPageExactly` | src/continuity_kernel/app_corpus_providers.py:422-533 | A page of a listing is followed by its next one if and only if the round does not stray: a later round without a cursor does |
| `GmailProgress.EndsWithoutCursor` | src/continuity_kernel/app_corpus_providers.py:488-500 | A listing whose profile gives no history cursor makes the next round stray |
| `GmailProgress.StrayListingIsGivenUp` | src/continuity_kernel/app_corpus_providers.py:422-500 | A round that strays gives its listing up at the first call and ends without the pages after it |
| `GmailRuns.RestartedListing` | src/continuity_kernel/app_corpus_providers.py:444-533 | A listing after an expiry, of any length and with any failures, ends faithful if and only if no message that had a document when it began had left by its cursor |
| `GmailRuns.ListingAfterExpiry` | src/continuity_kernel/app_corpus_providers.py:444-533 | The same from the moment the history expires, which sends the round back to a listing over the documents as they are |
| `GmailRuns.HistoryPage` | src/continuity_kernel/app_corpus_providers.py:946-970 | A page of history moves the documents from where it starts to where it stops; read in part it does no harm |
| `GmailSync.HistoryContinuationStays` | src/continuity_kernel/app_corpus_providers.py:2626-2647 | Over any run of failures a history continuation is asked for again with an unchanged checkpoint, and given up if and only if the history expires |
| `GmailSync.ListingContinuationDrops` | src/continuity_kernel/app_corpus_providers.py:2626-2647 | A listing's continuation is given up if and only if a call rejects it |
| `GmailRuns.ExpiryKeepsDeletedMessage` | src/continuity_kernel/app_corpus_providers.py:444-456 | A message that left before the listing that follows an expiry keeps its document |
| `Messages.BoundedMessages` | src/continuity_kernel/apple_messages.py:996-1014 | The delivery loop is the recursive delivery |
| `MessagesRuns.PrefixStable` | src/continuity_kernel/apple_messages.py:996-1014 | Delivering just the rows up to where a delivery stopped gives the same messages, the same last row and a complete budget; the messages are exactly its visible rows |
| `MessagesRuns.MessagesShowRows` | src/continuity_kernel/apple_messages.py:1003-1034 | Every delivered message shows its row: sender, time, attachment, and its whole text if that fits into what the messages before it left and into the limit of one message, and otherwise exactly the beginning that does, flagged |
| `MessagesRuns.StopsWhenSpent` | src/continuity_kernel/apple_messages.py:1007-1008 | A delivery stops short only before a text for which exactly nothing is left |
| `MessagesRuns.ReadSucceedsExactly` | src/continuity_kernel/apple_messages.py:256-319 | Exactly which reads succeed: from a cursor of this store that is not past its rows, or when rebasing from one of the first version whose prefix is as it was |
| `MessagesRuns.Deltas` | src/continuity_kernel/apple_messages.py:256-319 | Reading on from cursor to cursor ends with a complete delta at the last row, and delivers every visible row after the first cursor once, in row order |
| `MessagesRuns.DeltaCovers` | src/continuity_kernel/apple_messages.py:256-319 | A delta covers a non-empty run of the rows after the cursor, all of them when it says it is complete |
| `MessagesRuns.ReadAdvances` | src/continuity_kernel/apple_messages.py:256-319 | A read that finds later rows moves its cursor forward |
| `MessagesRuns.ReplayYieldsTheDelta` | src/continuity_kernel/apple_messages.py:322-390 | Replaying a delta after rows were added yields it again |
| `MessagesRuns.ReplaySucceedsExactly` | src/continuity_kernel/apple_messages.py:322-390 | Exactly which replays succeed: the stretch is of this store, its end is as it was, and its rows and their texts fit the bounds |
| `MessagesRuns.AcceptedTokenMatches` | src/continuity_kernel/apple_messages.py:431-525 | An accepted token is for this project and the present cursor, and its messages and the prefix it ends are as the store has them now |
| `MessagesRuns.TokenAccepted` | src/continuity_kernel/apple_messages.py:393-525 | A token made of a delta, rebased or not, is accepted until the cursor moves |
| `MessagesRuns.DeliveredExactlyOnce` | src/continuity_kernel/apple_messages.py:431-525 | Over any run of additions and acknowledgements of any tokens, the cursor never moves back and what was acknowledged is exactly the visible rows up to it, each once, in row order |
| `MessagesRuns.RepeatIsNoOp` | src/continuity_kernel/apple_messages.py:861-867 | A repeated acknowledgement, at any later point, changes nothing |
| `Tables.Window` | src/continuity_kernel/apple_messages.py:591-638 | The rows between two row ids are the first of those after the lower one |
| `WhatsApp.IsLegacyAddition` | src/continuity_kernel/app_corpus_whatsapp.py:1156-1176 | Trying every bit mask finds a documented addition exactly when there is one |
| `WhatsAppPolls.PollDelivers` | src/continuity_kernel/app_corpus_whatsapp.py:187-237 | A poll below the largest row id that is not refused, settled or not, delivers the non-empty stretch of rows between the old and the new cursor, as many as the limit allows; only an initial rescan of the first release is taken as done instead |
| `WhatsAppPolls.PollProgresses` | src/continuity_kernel/app_corpus_whatsapp.py:187-374 | A poll that is not refused is complete or lowers the measure (rows to come to, rows to review), and the next is not refused while the store stays |
| `WhatsAppPolls.QuietPolls` | src/continuity_kernel/app_corpus_whatsapp.py:187-374 | Hence polling a store that stays ends with a complete poll |
| `WhatsAppPolls.EveryAddedRowIsDelivered` | src/continuity_kernel/app_corpus_whatsapp.py:97-374 | For as long as a store is linked, whenever a poll is complete, every row that was above the cursor when it came in and is still there has been delivered since, however rows and columns change, rescans begin, and polls are refused or cut short; the one exception is the poll at which a checkpoint of the first release takes its initial rescan as done |
| `WhatsAppPolls.ReplySays` | src/continuity_kernel/app_corpus_whatsapp.py:97-185 | A reply is finished exactly when it is complete and no row is known to have vanished; a refused or failed one delivers nothing |
| `WhatsAppPolls.RefusedAfterChangeExactly` | src/continuity_kernel/app_corpus_whatsapp.py:1081-1143 | When columns change under the same rows the next poll is refused unless columns were only added, and then goes on from the same row |
| `WhatsAppPolls.RowsNeverRefuse` | src/continuity_kernel/app_corpus_whatsapp.py:1103-1122 | However the rows change, the next poll is not refused while the schema stays |
| `WhatsAppPolls.BeginningIsTaken` | src/continuity_kernel/app_corpus_whatsapp.py:1081-1143 | A first poll is never refused |
| `WhatsAppRuns.NewRowsLeaveNoGap` | src/continuity_kernel/app_corpus_whatsapp.py:271-323 | A page of new rows is exactly the rows between the old and the new cursor |
| `WhatsAppRuns.ReconcileKeepsOrRestarts` | src/continuity_kernel/app_corpus_whatsapp.py:1081-1143 | A cursor is kept unless its row is gone, and then delivery starts from zero |
| `WhatsAppRuns.EveryStayingRowIsDelivered` | src/continuity_kernel/app_corpus_whatsapp.py:187-374 | From the start of a rescan, or from nothing, to the next steady checkpoint, every row that stays is delivered, however the store changes between pages; the rescan position never passes the cursor |
| `WhatsAppRuns.EnteringRescan` | src/continuity_kernel/app_corpus_whatsapp.py:211-262 | A rescan that comes due or is asked for begins as one from zero |
| `WhatsAppRuns.RescanComesDue` | src/continuity_kernel/app_corpus_whatsapp.py:239-268 | A settled checkpoint with no new rows begins to redeliver its rows, with the first of them, exactly from the moment its rescan is due or when it is asked to; a review that fits into one page puts the next one off by the interval |
| `WhatsAppRuns.ReusedRowIdIsSkipped` | src/continuity_kernel/app_corpus_whatsapp.py:1104-1121 | A new message that takes the row id of a removed high-water row is not delivered by paging |
| `Lexical.Index.Rebuild` | src/continuity_kernel/app_corpus_lexical.py:163-206 | The transaction with its loops is the rebuild the next theorems are about; it fails exactly at the deadline or on changed text that cannot be read, and then everything is as it was |
| `Lexical.RenewedTraces` | src/continuity_kernel/app_corpus_lexical.py:163-206 | A rebuild makes the catalogue that of the selection, keeps the entries of unchanged documents, keeps every row traced to its entry, and loses no row when none was missing |
| `Lexical.RebuiltMeansBuilt` | src/continuity_kernel/app_corpus_lexical.py:163-206 | From tables whose every row is there it leaves one row for each selected document and no other, equal to a fresh one but for when it was fetched; an unchanged document whose row is missing does not get it back |
| `Lexical.ReadyMeansAlwaysBuilt` | src/continuity_kernel/app_corpus_lexical.py:35-82 | Exactly which databases answer every selection from a built index: every row the catalogue names is there, and an empty catalogue does not go with a fingerprint of this version that promises documents |
| `Lexical.Index.Prepare` | src/continuity_kernel/app_corpus_lexical.py:35-82 | A query stops while the tables are configured, fails exactly when they must be rebuilt and a document is too late or a changed one unreadable, or answers from matching or rebuilt tables; from a ready database they are built |
| `Lexical.OpeningsKeepSound` | src/continuity_kernel/app_corpus_lexical.py:103-206 | Whatever versions open the database and wherever they die, between the two drops included, every row is traced to the catalogue, and a catalogue that is not empty is what the fingerprint of its version says; rows may be missing |
| `Lexical.MatchMeansBuilt` | src/continuity_kernel/app_corpus_lexical.py:132-162 | A matching fingerprint means the index is built if and only if every row the catalogue names is there, and it is not empty or nothing is selected |
| `Lexical.MatchOverOpenings` | src/continuity_kernel/app_corpus_lexical.py:103-206 | Over any openings a match means the index is built if and only if the catalogue of the last rebuild is still there with the row of its every entry, or nothing is selected |
| `Lexical.SparedIsFiled` | src/continuity_kernel/app_corpus_lexical.py:108-113 | Every row the catalogue names is there if no version has died between its two drops, leaving a catalogue, since the tables were last dropped whole |
| `Lexical.OneVersionIsAlwaysBuilt` | src/continuity_kernel/app_corpus_lexical.py:103-206 | While one version alone opens the database, wherever it dies, every query is answered from a built index |
| `Lexical.Index.Configure` | src/continuity_kernel/app_corpus_lexical.py:103-129 | Tables of another version are dropped one after the other, each drop taking effect by itself; the fingerprint stays |
| `Lexical.VersionsInTurnLeaveIndexEmpty` | src/continuity_kernel/app_corpus_lexical.py:108-113 | Four openings by two versions: one builds, the other drops the tables and dies, and the first finds its fingerprint matching over empty tables from then on |
| `Lexical.DeathBetweenDropsLosesRows` | src/continuity_kernel/app_corpus_lexical.py:111-113 | Four openings: one version builds, another dies between the drops; of two documents the unchanged one is not found again, and the changed one takes the row id still named for the other and loses its row when that is deselected, while the fingerprint matches |
| `LexicalHits.RoundRobin` | src/continuity_kernel/app_corpus_lexical.py:303-312 | The loop serves the first hits of the rounds, up to the limit |
| `LexicalHits.ServedInTurn` | src/continuity_kernel/app_corpus_lexical.py:303-312 | The hit of rank r of a connection comes after exactly the first r hits of every connection and the hits of rank r of the connections before it |
| `Activity.Scan` | src/continuity_kernel/codex_activity.py:76-107 | The items are exactly the events of the bytes passed, which are whole lines; it stops early only at a cap, and fails exactly on a line over the byte cap |
| `Activity.CodexActivity.Acquire` | src/continuity_kernel/codex_activity.py:28-125 | Every selected file is covered and exhausted unless the items ran out; it fails only for a selection of none or more than sixteen files, or a file that is replaced, cut short or has an oversized line; cursors stay |
| `Activity.CodexActivity.Acknowledge` | src/continuity_kernel/codex_activity.py:127-140 | Accepted exactly for the active acquisition over unchanged cursors |
| `Activity.EventsSplit` | src/continuity_kernel/codex_activity.py:82-107 | Events of adjoining stretches of whole lines concatenate |
| `ActivityRuns.DeliveredExactlyOnce` | src/continuity_kernel/codex_activity.py:28-140 | Under appends, replacements, abandoned and stale acquisitions, the acknowledged items of a file are exactly the events between where it was taken up and its cursor, which stands just after a newline or at the start |
| `JsonText.Flatten` | src/continuity_kernel/app_corpus_text.py:308-334 | The explicit stack emits the recursive leaf sequence, or the part of it among the first values in preorder when the limit is reached |
| `JsonText.VisitsShowLines` | src/continuity_kernel/app_corpus_text.py:316-330 | The lines of the values in preorder are the recursive leaf sequence |
| `Utf8.CutDecodes` | src/continuity_kernel/app_corpus_text.py:923-929 | Cutting the bytes and decoding with errors ignored gives the longest whole-character prefix that fits |
| `Utf8.FitIsLongest` | src/continuity_kernel/app_corpus_text.py:923-929 | It fits, and no longer prefix does |
| `Utf8.CharRoundTrips` | src/continuity_kernel/app_corpus_text.py:915-929 | A well-formed character decodes to itself (section 3 of RFC 3629) |
| `ExtractedText.TrimText` | src/continuity_kernel/app_corpus_text.py:923-929 | The trimmed text is what fits, and is flagged exactly when that is less |
| `ExtractedText.BoundedText.Write` | src/continuity_kernel/app_corpus_text.py:568-579 | Piece by piece, the text stays what fits of everything written |
| `ExtractedText.BoundedText.Line` | src/continuity_kernel/app_corpus_text.py:563-566 | A line break comes before every line but the first |
| `ExtractedText.ReadStream` | src/continuity_kernel/app_corpus_text.py:895-907 | Reading stops at the maximum and returns exactly the first bytes |

## Left out

- Replacement.Replace: one step stands for the stat and the unlink of the public name in the rollback of an expected-absent publication (src/continuity_kernel/atomic.py:2832-2841, 2866-2873); a foreign step between the two is not modelled.
- LeafExchange.ExchangeIfExact: the call without an expected leaf is passed to `Replacement.Replace` by the source and is not repeated here; an exchange call is taken to fail only without effect.
- DriveRuns.RoundsEndFaithful: takes change entries to report the states of the log, an entry to come without metadata each time it is read or never, the last page to be read at the end of the log, and pages no longer than asked for.
- DriveProgress.RoundEnds: takes the provider to serve the same finite pages throughout one round and the last page of changes to give a cursor; without one the changes are read again from the anchor. `GmailProgress.RoundEnds` takes the same of Gmail.
- CorpusProviders.CommitKeepsHolds: takes a result to say the same of messages and files as the provider's deliveries, in the same order; how documents are written is not modelled.
- GmailRuns.RoundsEndFaithful: takes the profile always to give a history cursor; message documents only, attachments and the legacy recovery baseline are not modelled.
- WhatsAppRuns.EveryStayingRowIsDelivered: a rescan begun by a checkpoint of the first version may be ended early by the code on purpose (src/continuity_kernel/app_corpus_whatsapp.py:1339-1345) and is not covered.
- Directories.Directory.MoveNoReplace: inode bytes never change, foreign processes act only on the public name, and private names cannot be guessed; owners, modes, watches and Windows paths are not modelled.
- CorpusRuns.RunKeepsSound: the Slack channel policy is fixed, and whether a record is visible depends on its key, as the one provider with hidden records puts the channel into the object identifier (src/continuity_kernel/app_corpus_providers.py:2089-2107); the bounds on the total content and on the size of the state file are among the points where a commit may die.
- CorpusCommit.ProposeDrafts: malformed state files are not modelled; every stored record has a well-formed path.
- Lexical.Index.Prepare: a row id is one above the largest in use, as SQLite gives it; ranking and the size of the database are not modelled; text is given by its digest.
- JsonText.Flatten: parsing, scalar formatting and whitespace compaction are opaque; object keys are text.
- Utf8.CutDecodes: characters are Unicode scalar values; a JSON string may decode to a lone surrogate, on which the source's encoding raises (src/continuity_kernel/app_corpus_text.py:923-929), and `char` has none.
- The function `append_durable` for a plain path (src/continuity_kernel/atomic.py:3246-3291) truncates a failed append without comparing; only the pinned append is modelled.
- `durable_publish_new` and `_publish_new_by_move`: the same no-replace move with the same confirmation, for a whole path.
- OutlookRuns.RoundsEndInAgreement: takes the connector to serve the same finite feeds throughout one round, and messages to leave the mailbox for good; attachments are not modelled.
- `search`: reads one published state; its test of the bindings is `CorpusState.Current`.
- Google Calendar, Slack and Microsoft calendar rounds: the same page-by-page checkpoints with no log to reconcile.
- Adapters with several sources: the default adapters have one; with several, a late failure drops documents another source has moved past.
- SQLite, full-text ranking, QMD commands, HTTP, OAuth, PDF and OCR processes, HTML and MIME parsing: opaque inputs.
- Locks, descriptors, clocks and timeouts: sections under a lock are steps; deadlines are arbitrary interruptions.
- Digests and fingerprints stand for what they are taken of, except where a truncated digest names a leaf.
