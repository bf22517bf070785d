# A verified model of Zebra

Zebra is an end-to-end encrypted messenger: a Python client seals, numbers and
opens messages and pins its peers' keys; a Node server stores public keys,
messages and forwards and records message digests in an Ethereum contract; a C++
tool keeps an encrypted archive on disk. This project models the parts whose
correctness is not obvious from any one function, and proves what they are for.

`dafny verify dfyconfig.toml` checks everything (Dafny 4.11).

## How it is modelled

Code that computes values is modelled by functions; code that works step by step
by classes and loops, each method proved against the function that says what it
does; and code whose steps interleave with others (transactions, requests
between two awaits, devices over a network) by state machines whose runs are all
finite sequences of enabled actions. Main results hold for every such run.

| files | what they model |
|---|---|
| `Wrappers`, `Encoding`, `Primitives`, `LawsAreConsistent` | results, byte strings, the libraries and their laws, and that the laws can all hold |
| `Messaging`, `Keystore`, `KeyService`, `MessageService` | the client's cryptographic core, key file and services |
| `Sorting`, `Grouping` | stable sorting and grouping into dictionaries, shared by the rest |
| `Inbox`, `InboxOrder`, `RotationDuringPass`, `MainFrame`, `SentPane` | the inbox pass and what its order can change, the own-messages pass and the conversations built from them |
| `Protocol`, `CacheFidelity` | many devices and a network; what the plaintext cache holds |
| `KeyDirectory`, `Reconciliation` | interleaved key publications, and clients checking pins against them |
| `MessageRepository`, `MessageServer`, `BackendServices` | the message tables, requests in flight, and the same requests run one at a time |
| `Provenance`, `Authority`, `Views`, `Paging`, `Anchoring`, `MessageDigest` | what holds of the tables in every run; the contract |
| `Archive`, `ArchiveCommands`, `Conversations` | the C++ archive, its commands, and the conversation viewer |
| `Lockout` | login throttling |

The libraries (X25519, Ed25519, AES-GCM, HKDF, Argon2id, keccak, UTF-8, JSON) are
a record of arbitrary functions, and results state the laws they need: X25519
commutes (section 6.1 of RFC 7748), Ed25519 verifies what was signed (section 5.1
of RFC 8032), AEAD opening gives a plaintext exactly when the ciphertext is its
encryption (section 2 of RFC 5116), UTF-8 is injective and encodes `|` as itself.
Where it matters that a wrong key is noticed (password changes, the archive),
that is assumed outright. `LawsAreConsistent` shows that all of these can hold.
That nobody forges is not a law about functions; it is a guard on what the
environment of `Protocol` may show a client: what the AEAD opens under the key two
users share was encrypted by one of the two for the other, with that nonce and
associated data. Nothing is assumed of who signed what.

## What the proofs found

- `_decrypt_inbox` sorts each sender's messages because of the replay check, but
  its texts, cache and counters depend on the order through the pins alone: a pass
  amounts to its fetches, in order, and then to every message judged on its own by
  the pins they end with. The fallback re-opens what the check holds back; the sort
  decides only which messages take the accepting path, and so which carry the key
  warning.
- Those pins are the first keys offered, so keys being fetched anew for every
  message (client/src/ui/main_frame.py:325-329) they are the same in every order
  exactly when no two answers fetched for one sender clash over a kind of key not
  pinned before. Where they clash, two orders show the same exactly when every
  message has the same verdict by either pins; a sender who rotates the signing key
  between two messages, each answered with its own key, is one whose order shows.
- `signed_payload` leaves open where the ciphertext ends and the nonce begins. It
  is injective between nonces of equal length, as all drawn nonces are, and not
  otherwise.
- `reconcile` looks for the pinned key in the history
  (client/src/services/key_service.py:83), where client/README.md:399-402 speaks of
  the new key. The code's test is the one that makes honest rotations pass.
- `reconcile` can raise a false alarm, and exactly in one way when it could read
  the history: it began without a pin, and before it looked for one a key was
  pinned that was first served after its first request, and that is still current
  at its second.
- A `publishKey` whose COMMIT takes effect and whose answer is lost throws to its
  caller (backend/src/repositories/KeyRepository.js:62, 67, 72, 89-93) and leaves
  the key or the rotation published. It is the only failure that leaves a trace.
- A message can keep its chain row and yet read `failed`: when the commit of
  `recordChainEntry` takes effect but its answer is lost, `markChainFailed`
  overwrites the status. That is the only way the two ever disagree.
- `_decrypt_sent` gives up on a recipient at the first message it cannot fetch keys
  for, leaving later cached messages unlabelled; `_populate` makes up for it. An
  empty text is shown as `[sent]`.
- The archive tool takes an archive it cannot open for one that is absent
  (message-store/Archive.cpp:139, message-store/main.cpp:212-213). With an existing
  archive `get` then answers not found, `list` prints nothing and exits 0, `rekey`
  exits 0 with the old key in force or installs an empty archive, and `add` exits 0
  having replaced every record by the new one. Commands behave as meant exactly
  when none of this happens to them.

## Model

| member | source | states |
|---|---|---|
| Encoding.DecimalInjective | client/src/crypto/messaging.py:74-81 | two integers render alike only when equal, and no rendering holds the delimiter |
| Encoding.DecimalRoundTrip | client/src/crypto/messaging.py:74-81 | a rendering has a sign exactly below zero and no leading zero, and its digits, most significant first, give the magnitude back |
| Messaging.AadInjective | client/src/crypto/messaging.py:74-81 | for ids without a delimiter, two AADs are equal exactly when sender, recipient and number are |
| Messaging.AadFields | client/src/crypto/messaging.py:74-81 | byte for byte, the AAD is the encoded sender, recipient and decimal number with a delimiter byte between any two |
| Messaging.PayloadFields | client/src/crypto/messaging.py:84-97 | byte for byte, the signed payload is those three, the ciphertext and the nonce, with a delimiter byte between any two |
| Messaging.SignedPayloadDetermines | client/src/crypto/messaging.py:84-97 | two signed payloads are equal exactly when the three fields are and ciphertext, delimiter and nonce together are the same bytes, whatever bytes those hold |
| Messaging.SignedPayloadInjective | client/src/crypto/messaging.py:84-97 | between nonces of equal length the payload is injective in all five fields |
| Messaging.SignedPayloadNeedsEqualNonceLengths | client/src/crypto/messaging.py:84-97 | the equal lengths are needed: two different field tuples sign the same bytes |
| Messaging.OpenExactly | client/src/crypto/messaging.py:125-168 | opening yields a text exactly when the signature verifies, the number is new where replay is enforced, and the ciphertext is that text sealed under these very fields; it is a signature error exactly when the signature is wrong, and a replay exactly when it is right and the enforced number is not above the last |
| Messaging.EnforcementIsAFilter | client/src/crypto/messaging.py:153-168 | the replay check turns correctly signed messages with old numbers into ReplayError and changes nothing else; it never outranks the signature check |
| Messaging.KeyAgreement | client/src/crypto/messaging.py:62-71 | both ends derive the same message key, expanded from the exchange |
| Messaging.OpenInvertsSeal | client/src/crypto/messaging.py:100-168 | a sealed envelope opens to its text and number for the recipient, and for the sender with the recipient's public key; with replay enforced only an old number is refused; its digest is the keccak hash of the encoded text |
| Keystore.Keystore.CreateKeys | client/src/crypto/keystore.py:47-72 | refuses an existing keystore; otherwise stores the wrapped keys, their public keys each under its own kind, and empty pins and counters, and leaves the keystore locked but with its KEK |
| Keystore.Keystore.UnlockKeys | client/src/crypto/keystore.py:74-82 | the keys of the file under the password's KEK, or InvalidTag with the wrong KEK left behind |
| Keystore.Keystore.ChangePasswordTo | client/src/crypto/keystore.py:89-106 | re-wraps keys and a non-empty cache under the new KEK; a wrong old password changes nothing |
| Keystore.Keystore.NextSendSeq | client/src/crypto/keystore.py:123-130 | returns one more than the stored counter and stores it |
| Keystore.Keystore.SetRecvSeq | client/src/crypto/keystore.py:138-141 | stores the number as that sender's counter and touches nothing else |
| Keystore.Keystore.PinPeerKey | client/src/crypto/keystore.py:108-113 | sets that key of that user and leaves the other kind and every other user's pins |
| Keystore.Keystore.LoadMessageCache | client/src/crypto/keystore.py:173-189 | a cache saved under the current KEK comes back; one saved under another KEK, a missing one, or any while locked reads as empty |
| Keystore.Keystore.SaveMessageCache | client/src/crypto/keystore.py:191-201 | nothing while locked; otherwise the cache under the current KEK, and only the cache file changes |
| Keystore.DecryptSealed | client/src/crypto/keystore.py:173-201 | a saved cache loads under its own KEK and is empty under any other |
| Keystore.SeparateDomains | client/src/crypto/keystore.py:191-201 | private keys and cache are sealed under different associated data |
| Keystore.KeystoreSurvivesPasswordChanges | client/src/crypto/keystore.py:47-201 | after any run of successful operations, restarts and password changes on a new keystore, the latest password unlocks the keys made at creation, the public keys in the file are those of these keys, the cache loads as last saved (an empty one left under an old KEK included), and pins and counters are what they would be had no password changed |
| KeyService.PinsAreForever | client/src/services/key_service.py:46-59 | fetching keeps every pin there was, adds the first key served of a kind only where none was, and touches nobody else |
| KeyService.FetchReturnsThePin | client/src/services/key_service.py:46-59 | what is returned for a served kind is the pin as it is afterwards; the change flag is raised exactly when a served key differs from an existing pin |
| KeyService.FetchAgain | client/src/services/key_service.py:31-59 | fetching twice against one directory answers the same |
| KeyService.KeyService.FetchAndPinKeys | client/src/services/key_service.py:31-59 | the loop over the key types computes exactly that fetch |
| MessageService.MessageService.SealFor | client/src/services/message_service.py:41-65 | pins, then advances the counter, then seals under the new number; the counter advances even when sealing fails and not when keys are missing or locked |
| MessageService.MessageService.ReceiveMessage | client/src/services/message_service.py:77-123 | opens against the stored counter and moves it to the opened number exactly when that succeeded with replay enforced |
| Inbox.PassIsFetchesThenVerdicts | client/src/ui/main_frame.py:295-365 | for any directory answers, starting counters, cache and order of an inbox: the key file ends as the fetches alone leave it but for the counters; each message ends with its cached text, else its opened text, else the placeholder of its own outcome, judged by the pins then in that file; the cache gains exactly the opened texts; each sender's counter becomes the maximum of its old value and the opened numbers |
| Inbox.FirstOfferIsPinned | client/src/services/key_service.py:46-59 | what those fetches pin: the old pin, else the first key of that kind offered in the order of the pass, and nothing else of the key file |
| InboxOrder.OrdersAgreeExactlyWhen | client/src/ui/main_frame.py:295-365 | two orders of one inbox leave the same texts, cache and counters exactly when every message has the same verdict by the pins the one fetches as by those the other does |
| InboxOrder.PinsAreOrderFreeExactlyWhen | client/src/ui/main_frame.py:325-329 | all orders of an inbox end with the same pins exactly when no two answers fetched for one sender clash over a kind not pinned before |
| InboxOrder.PermutedPassesAgree | client/src/ui/main_frame.py:295-365 | two orders that end with the same pins, as all do when fetched answers do not so clash, leave the same texts, cache and counters |
| InboxOrder.SteadyPassIsOrderFree | client/src/ui/main_frame.py:295-365 | without such clashes the client that begins the pass already gives every verdict, and in ascending order tells who is accepted and warned |
| InboxOrder.UnsteadyAnswersMatter | client/src/ui/main_frame.py:325-331 | a message that opens on its own shows as unverified after one whose answer pinned a signing key its own answer does not have |
| RotationDuringPass.OrderCanMatter | client/src/ui/main_frame.py:325-331 | with lawful primitives, two messages sealed before and after a rotation of the signing key, each fetched with its own: whichever comes first opens and the other shows as unverified |
| Inbox.AscendingPassAcceptsAllNew | client/src/ui/main_frame.py:311-339 | whatever the answers, in ascending order the accepting path falls on exactly the messages opened above the counter the pass began with, and the key warning on those of them whose answer differs from the pin |
| Inbox.GateIsAFilter | client/src/services/message_service.py:92-123 | receiving with replay enforced is receiving without, except that opened messages with old numbers are held back and others move the counter |
| Inbox.VerdictAndLabel | client/src/ui/main_frame.py:315-357 | when an uncached message opens, and the label each way of failing puts on it |
| Grouping.GroupBy | client/src/ui/main_frame.py:306-309 | the dictionary built element by element holds under each key exactly the elements with it, in order, with keys in order of first occurrence |
| Grouping.GroupingPartitions | client/src/ui/main_frame.py:306-313 | visiting every group once, each sorted, loses and repeats nothing |
| MainFrame.VisitingOrder | client/src/ui/main_frame.py:306-313 | the order the pass visits is all of the inbox once, strictly ascending within a sender when numbers are distinct |
| MainFrame.MainFrame.ReceiveOrReopen | client/src/ui/main_frame.py:333-357 | the try block with its replay fallback sets text, warning, cache and counter as the per-message step says |
| MainFrame.MainFrame.DecryptOne | client/src/ui/main_frame.py:313-357 | one turn of the inner loop is the per-message step, and reports whether the cache grew |
| MainFrame.MainFrame.DecryptInbox | client/src/ui/main_frame.py:295-365 | whatever the directory answers, the whole pass over message objects is the per-message steps in an order that visits the inbox once, ascending within a sender, and every object, the cache and the counters end as each message's verdict by the pins then fetched says, with the warning on exactly the new messages of a changed sender when numbers are distinct; without clashing answers, as its verdict by the pins of the start says; the cache is saved exactly when it grew |
| SentPane.FetchFor | client/src/ui/main_frame.py:398-404 | the lazy fetch returns the keys the recipient would have had at the start of the pass, or gives up when there is no exchange key |
| SentPane.DecryptSentBucket | client/src/ui/main_frame.py:390-412 | the inner loop, which may break, leaves every message of the recipient with its own verdict, a cached one possibly for later |
| SentPane.DecryptSent | client/src/ui/main_frame.py:367-418 | no receive counter moves, pins are at most completed, each message has its own verdict, and the cache gains exactly the opened texts and is saved when it grew; a client without a keystore fetches, opens and caches nothing |
| SentPane.OwnVerdict | client/src/services/message_service.py:125-164 | an own message opens exactly when it is uncached, the recipient's exchange key is served, and it opens under that key and the user's own signing key |
| SentPane.Populate | client/src/ui/main_frame.py:242-270 | sent messages without text fall back to the cache and then to the placeholder; every received message is in its sender's thread and every sent one in its recipient's, as often as it was listed and in no other; threads never go back in time; a peer has one exactly when some message has that peer, and a warning exactly when a received message there has one |
| SentPane.ShowSent | client/src/ui/main_frame.py:189-195 | together, with a keystore or without: wherever the pass gave up, each own message shows its cached text, else the text it opens to, else the placeholder |
| SentPane.StepCachesTheVerdict | client/src/ui/main_frame.py:391-412 | the system's step for an own message caches exactly what that verdict opened, nothing under an empty id, and moves no counter |
| Protocol.AcceptedIsSubsequenceOfSealed | client/src/crypto/messaging.py:125-168 | in every run over a transport that drops, repeats, delays, reorders, relabels and alters whatever the AEAD's integrity allows, what B accepts from A is a subsequence of what A sealed for B, texts and all, with strictly increasing numbers |
| Protocol.CountersNeverFall | client/src/crypto/keystore.py:132-141 | between any two moments of a run no receive counter falls |
| Protocol.EverySealedEnvelopeOpens | client/src/services/message_service.py:41-75 | across sends, forwards and failed posts the numbers sealed from A to B strictly increase, and each envelope opens to its exact text and number for the recipient and for the sender, and carries the hash of that text |
| Protocol.SealedIsShown | client/src/ui/main_frame.py:315-357 | in any run, a sealed message shown with its sender's keys served opens to its text and is cached, and is accepted exactly when its number is new |
| Protocol.NewDevicesStart | client/src/crypto/keystore.py:47-82 | devices as creating and unlocking their keystores leave them can begin a run: no pins, no counters, and the public keys of their private keys |
| Protocol.OwnEnvelopesReopen | client/src/services/message_service.py:125-164 | in every run of such devices each envelope a user sealed re-opens on that user's own device to its text |
| Protocol.OwnIsShown | client/src/ui/main_frame.py:390-412 | so the own-messages pass caches that text when the server answers with the recipient's exchange key |
| Protocol.AcceptedWasSealed | client/src/services/message_service.py:105-123 | what opens from a sender was sealed by that sender for this user, number and text, given that what the AEAD opens was encrypted by one of the two |
| Protocol.SealedEnvelopesMayBeShownAgain | client/src/ui/main_frame.py:315-341 | the environment's guards allow showing any sealed envelope at any time, any number of times |
| CacheFidelity.CacheHoldsOriginals | client/src/ui/main_frame.py:315-418 | with a server that returns stored rows faithfully, every cache entry of every run is the text originally sealed under that id, and no placeholder is ever cached |
| CacheFidelity.InboxOpensOriginal | client/src/ui/main_frame.py:332-357 | what an inbox message opens to, replayed or not, is its row's original text |
| CacheFidelity.SentOpensOriginal | client/src/services/message_service.py:125-164 | what an own message re-opens to is its row's original text |
| KeyDirectory.KeyRepository.PublishKey | backend/src/repositories/KeyRepository.js:37-94 | alone, a transaction answers and writes as specified; one that throws leaves a change exactly when its commit took effect unheard and it had one to make |
| KeyDirectory.CommitIsPublish | backend/src/repositories/KeyRepository.js:37-94 | when a transaction commits, the row it locked is still the committed one, so its effect and answer are those of running it alone at that moment |
| KeyDirectory.InterleavingsAreSerial | backend/src/repositories/KeyRepository.js:37-94 | in every interleaving the committed tables and all answers are those of running exactly the committed transactions, heard of or not, in commit order, and history versions are 1 to current-1 without gap or repeat, neighbours holding different keys |
| KeyDirectory.FailedPublishLeavesTrace | backend/src/repositories/KeyRepository.js:59-94 | a publish whose caller got an exception is in that order exactly when its commit took effect and the answer was lost; rolled back, it holds no lock and is nowhere |
| KeyDirectory.LostAnswerPublishes | backend/src/repositories/KeyRepository.js:59-94 | a run in which that happens: the caller gets an exception and the key is current |
| KeyDirectory.HistoryVersionIsFree | backend/scripts/init-db.js:61-70 | the unique key on the history is never hit |
| KeyDirectory.OnlyAcknowledgedChangesShow | backend/src/repositories/KeyRepository.js:59-71 | at any moment of any run the next action changes the tables exactly when it commits a first key or an acknowledged different one; then that key is current, one version up, and the row it replaced is the newest of the history; the commit's status names the version then current, and demands rotation exactly for a different key without acknowledgement |
| Reconciliation.ServedMeansOnceCurrent | backend/src/repositories/KeyRepository.js:71-87 | a key is current or in the history exactly when it was the served key at some moment of the run |
| Reconciliation.ReconcileExactly | client/src/services/key_service.py:69-85 | what the check answers for a pin never served, served by the first request, or come and gone in between |
| Reconciliation.PinMadeDuringCheckAlarms | client/src/services/key_service.py:69-83 | from any start, a run of publications, one fetch and one check that ends in reporting an honest key as substituted |
| Reconciliation.HonestRotationsNeverAlarm | client/src/services/key_service.py:61-85 | while keys change only through publishKey, in every run of any clients' fetches and checks no check begun with a pin and able to read the history reports a substitution, whatever rotations commit before, during or between its requests |
| Reconciliation.FalseAlarmExactlyWhen | client/src/services/key_service.py:61-85 | in every such run a check that read the history reports a substitution exactly when it began without a pin, and the pin it then found is a key first served after its first request and current, not in the history, at its second; one that could not read it, exactly when the pin differs from the key |
| MessageRepository.CreateKeeps | backend/src/repositories/MessageRepository.js:8-28 | an insert keeps every row and the uniqueness of ids and of (recipient, nonce) |
| MessageRepository.FindInExactly | backend/src/repositories/MessageRepository.js:84-93 | a found message is stored, undeleted and has the id; none is found only if there is none |
| MessageRepository.UpdatesKeep | backend/src/repositories/MessageRepository.js:155-239 | deletes, revocations and status changes keep every row's other columns, never undelete or unrevoke, and keep ids and nonces unique |
| MessageRepository.MessageRepository.CreateMessage | backend/src/repositories/MessageRepository.js:8-28 | appends the row, or reports a conflict and changes nothing |
| MessageRepository.MessageRepository.DeleteMessage | backend/src/repositories/MessageRepository.js:155-161 | affects rows exactly when an undeleted message with that id has the user as a party |
| MessageRepository.MessageRepository.RecordEntry | backend/src/repositories/MessageRepository.js:35-54 | chain row and status together or neither, wherever the transaction fails; a lost commit answer looks like a failure |
| MessageServer.RowsAreUnique | backend/src/repositories/MessageRepository.js:8-28 | in every run message ids, share ids, chain ids, transactions and nonces per recipient are unique |
| MessageServer.GetMessageExactly | backend/src/services/MessageService.js:71-88 | in every run getMessage answers the stored undeleted row with the id to its sender, its recipient and whoever holds an unrevoked share of it, forbidden to anybody else, and not found exactly when there is no such row |
| MessageServer.RowsSayWhatWasAsked | backend/src/services/MessageService.js:18-35 | in every run each stored message has the id, parties, envelope and time of a send, and each share those of a forward, of that message by that user to that user |
| MessageServer.SendIsStored | backend/src/repositories/MessageRepository.js:8-28 | a send is stored as asked unless its id, or its nonce for that recipient, is taken |
| MessageServer.ForwardIsItsSteps | backend/src/services/MessageService.js:90-114 | run through without interruption, the queries and the insert of a forward store the share exactly when getMessage admits the forwarder and neither id nor nonce is taken |
| MessageServer.TakingTakesEffect | backend/src/services/MessageService.js:126-157 | a deletion, a withdrawal or a revocation by whom it is open to is in the tables once carried out |
| MessageServer.NothingIsUndone | backend/src/repositories/MessageRepository.js:155-239 | between any two moments of a run no row disappears or changes its parties, crypto fields or time, no deletion is undone or rewritten, and no revocation undone |
| Provenance.EverySharePassedFromHandToHand | backend/src/services/MessageService.js:90-114 | in every run each share, revoked ones included, ends a finite chain of strictly earlier shares of the same message that starts at its sender or recipient |
| Provenance.ReadersHaveAChain | backend/src/services/MessageService.js:71-88 | whoever getMessage admits is a party or holds an active share at the end of such a chain |
| Authority.OnlyTheEntitledTakeAway | backend/src/services/MessageService.js:126-157 | in every run a share is withdrawn only by its maker or through a revocation its message's sender asked for, and a message deleted only by a party, whatever interleaves between check and write |
| Views.EachMessageIsSeenOnce | backend/src/services/MessageService.js:54-69 | in every run an undeleted message is once in its recipient's inbox and once in its sender's sent list, and in no other; a deleted one in none |
| Views.EachShareIsSeenOnce | backend/src/repositories/MessageRepository.js:136-153 | the same for shares, active while unrevoked and their message undeleted |
| Views.SharesShowTheStatus | backend/src/repositories/MessageRepository.js:136-153 | a share is listed with the chain status its message row has, and with no other |
| Views.ViewsAreNewestFirst | backend/src/services/MessageService.js:54-69 | in every page and every whole view no line was made after an earlier one |
| Views.AccessIsWhatTheListsShow | backend/src/services/MessageService.js:71-88 | getMessage admits a user exactly when their inbox or sent list holds the message or their inbox a share of it, and reports not found exactly when no undeleted message has the id |
| Views.RevocationTakesExactlyOne | backend/src/repositories/MessageRepository.js:217-222 | revoking turns that user away unless they are a party, and changes nobody else's access, those they forwarded to included; of the rows it marks exactly those of that message to that user |
| Views.DeletionTakesExactlyOne | backend/src/repositories/MessageRepository.js:155-161 | deleting makes the message unfindable when a party asks, and changes nothing otherwise |
| Views.WithdrawalTakesExactlyOne | backend/src/repositories/MessageRepository.js:233-239 | a share stops being active when its maker withdraws it, and no other share is touched |
| Paging.FirstPageIsTheNewest | backend/src/services/MessageService.js:54-69 | the first `limit` lines of the first page are the first `limit` of the whole merged stream, though each table was cut first |
| Paging.FirstPageLeavesOutNoNewer | backend/src/services/MessageService.js:54-69 | no line of the whole view left out of the first `limit` lines of the first page was made after one of them, and none is left out while there is room |
| Paging.InboxPagesListEachOnce | backend/src/services/MessageService.js:54-63 | over an unchanging store pages 0, limit, 2*limit, ... together hold each inbox line exactly once, and n pages hold all of the newest n*limit |
| Paging.SentPagesListEachOnce | backend/src/services/MessageService.js:65-69 | the same for the sent list |
| Sorting.SortConcat | backend/src/services/MessageService.js:61-68 | stable-sorting two sorted lists put together is merging them, the first list first on ties |
| MessageDigest.RecordsOnce | contracts/src/MessageDigest.sol:44-48 | once a message id is recorded, after any later run of calls a record call for it reverts, whoever sends it and whatever the digest |
| MessageDigest.CallsKeep | contracts/src/MessageDigest.sol:35-48 | no call changes an existing record, the owner or past events; the owner's call alone changes recorders, of the one account named and to what it says; only a recorder records, and then that one id; each appends its own event |
| MessageDigest.MessageDigest.Allow | contracts/src/MessageDigest.sol:35-38 | only the owner changes the recorders: afterwards the account named is one exactly when allowed, and every other is as before |
| MessageDigest.RecordersAreTheAllowed | contracts/src/MessageDigest.sol:20-48 | after any calls by anybody an account is a recorder exactly when the owner's last call naming it allowed it, or there was none and it is the deployer; anybody else's record call is refused |
| MessageDigest.MessageDigest.Write | contracts/src/MessageDigest.sol:44-48 | records digest, time and sender, or reverts with nothing changed |
| Anchoring.RecordedMeansAttested | backend/src/services/BlockchainService.js:60-105 | in every run, failures at every await included, a recorded message has exactly one chain row, and the row's digest, the message's and the contract's record under its key agree |
| Anchoring.RecordedIffOneRowUnlessMarkedOver | backend/src/services/BlockchainService.js:60-105 | in every run, being recorded and having exactly one chain row coincide exactly unless, earlier in the run, the entry was committed unheard and markChainFailed then applied; there is never a second row, and a row's digest is attested even then |
| Anchoring.StatusSaysWhatHappened | backend/src/repositories/MessageRepository.js:35-66 | in every run chain_status is failed exactly when markChainFailed was applied, recorded exactly when it was not and there is a chain row, pending otherwise |
| Anchoring.LostAnswerMarksOver | backend/src/repositories/MessageRepository.js:35-66 | a run in which that happens |
| BackendServices.BlockchainService.GetContract | backend/src/services/BlockchainService.js:36-53 | the memoised contract is always the configured one |
| BackendServices.BlockchainService.RecordDigest | backend/src/services/BlockchainService.js:89-105 | the three outcomes and what each leaves in the tables |
| BackendServices.BlockchainService.OnMessageSent | backend/src/services/BlockchainService.js:60-74 | never throws; leaves the entry, or the failure mark, or nothing when unconfigured |
| BackendServices.MessageService.SendMessage | backend/src/services/MessageService.js:18-35 | fails exactly on a conflict; with the row stored no fate of the chain write is reported to the caller |
| BackendServices.MessageService.ForwardMessage | backend/src/services/MessageService.js:90-114 | adds the share exactly when the forwarder is admitted and the nonce is new |
| BackendServices.MessageService.RevokeAccess | backend/src/services/MessageService.js:126-137 | only the sender of a found message revokes; otherwise nothing changes |
| BackendServices.MessageService.DeleteMessage | backend/src/services/MessageService.js:139-147 | succeeds exactly for a party to an undeleted message, one error otherwise |
| BackendServices.MessageService.DeleteShare | backend/src/services/MessageService.js:149-157 | succeeds exactly for the maker of an unrevoked share, one error otherwise |
| BackendServices.SettledIsItsSteps | backend/src/services/BlockchainService.js:89-105 | the call run at one go, from the stored row on, leaves what its awaits leave one by one, wherever the submission, the wait or a transaction fails, and nothing when unconfigured |
| BackendServices.SettledKeepsDelivery | backend/src/services/BlockchainService.js:60-74 | no fate of the chain write changes anything of any message but the status of the one sent |
| Archive.DecodeHexKey | message-store/Archive.cpp:123-135 | a string decodes exactly when it is the lowercase hexadecimal form of a 32-byte key, and to that key |
| Archive.HexInjective | client/src/crypto/keystore.py:165-166 | no two keys share a hexadecimal form |
| Archive.HexSpells | client/src/crypto/keystore.py:165-166 | each byte is two lowercase digits, the high half first |
| Archive.DecodeUndoesEncode | message-store/Archive.cpp:137-209 | what was written under a key reads back as the same records through the 6+12+16-byte header, and is refused as unauthentic under any other key |
| Archive.Layout | message-store/Archive.cpp:181-209 | the file byte for byte: magic, nonce, tag, ciphertext of the array of four-field objects |
| Archive.DecodeChecks | message-store/Archive.cpp:143-172 | which check fails on which bytes: shorter than 34, wrong magic, unauthentic, not JSON, not an array |
| Archive.FieldsOf | message-store/Archive.cpp:168-177 | a field an item lacks reads as the empty string |
| Archive.WriteAll | message-store/Archive.cpp:218-230 | for any partial writes of at least one byte the loop ends, the temporary file a prefix of the blob throughout, complete exactly when no write failed |
| Archive.Replace | message-store/Archive.cpp:211-239 | the target becomes the whole blob or keeps its old bytes, in the end and at every moment between; it succeeds exactly when open, every write, close and rename do |
| Archive.Save | message-store/Archive.cpp:181-240 | the same for the encoded records, also when no randomness can be had |
| Archive.Load | message-store/Archive.cpp:137-179 | the records of the file, none for a file that is absent or does not open, or which check failed |
| ArchiveCommands.LoadKey | message-store/main.cpp:84-96 | the one key the variable encodes, or none |
| ArchiveCommands.UpsertInto | message-store/main.cpp:120-132 | the first record with that id is replaced in place, or the record appended |
| ArchiveCommands.CmdAdd | message-store/main.cpp:108-142 | exit code and file for any file and any failure, a failed open included: usage error, unreadable archive, failed save, or the upserted records |
| ArchiveCommands.CmdGet | message-store/main.cpp:144-167 | prints the body of the first record with the id, or exits 3, 1 or 2; 3 also for an archive that did not open |
| ArchiveCommands.CmdList | message-store/main.cpp:169-187 | prints id, sender and time of every record in order, or exits 1 or 2; no line and exit 0 for an archive that did not open |
| ArchiveCommands.CmdRekey | message-store/main.cpp:194-227 | nothing for an archive that is absent or whose probe did not open; otherwise what could be read under the new key, or nothing changed and exit 1 or 2 |
| ArchiveCommands.ExitCodes | message-store/main.cpp:84-227 | 2 exactly for a missing or malformed key; 3 exactly for a get that read an archive without the id; 1 for an unreadable archive or a failed save; 0 otherwise, a get then printing the first record with the id |
| ArchiveCommands.RunsAsItsOutcomes | message-store/main.cpp:108-227 | every run, failed opens included: file and reply after each command are determined by the shelf before it, the command and its system calls |
| ArchiveCommands.OutcomeIsAnswer | message-store/main.cpp:108-227 | a command does what is meant exactly when it is not misled, a condition on shelf, command and system calls, met only when an existing archive did not open |
| ArchiveCommands.RunsAsAShelf | message-store/main.cpp:108-227 | a run is throughout, in its file and all its replies, an abstract shelf of records under one key exactly when no command in it was misled by an existing archive that did not open |
| ArchiveCommands.RunsAsAShelfWhenItOpens | message-store/main.cpp:108-227 | a run in which no existing archive fails to open is such a shelf |
| ArchiveCommands.FailedOpenLosesRecords | message-store/Archive.cpp:137-139 | a run of two adds, the second unable to open the archive, that both report success and leave the second record alone |
| ArchiveCommands.ArchiveIsAMap | message-store/main.cpp:108-227 | with any keys and failing saves anywhere, the file exists at every moment exactly when an add has succeeded, opens under exactly one key, and reads as the accepted adds in first-insertion order, replies as meant, exactly when no command was so misled |
| ArchiveCommands.LookupIsLatest | message-store/main.cpp:113-119 | in that map ids are unique and each finds the last record accepted under it |
| ArchiveCommands.AddTouchesOneId | message-store/main.cpp:119-133 | an add leaves what every other id reads alone |
| Conversations.MessageStore.GetConversations | message-store/MessageStore.cpp:17-31 | peers strictly ascending, each thread in time order, each message in exactly its sender's thread, and all threads together the stored multiset |
| Conversations.LessByFirstDifference | message-store/MessageStore.cpp:17-31 | the order of peers and times is decided at the first differing character, a string coming before its extensions |
| Conversations.ThreadsPartition | message-store/MessageStore.cpp:19-30 | threads of distinct peers covering every sender partition the store |
| Lockout.AuthService.LogIn | backend/src/services/AuthService.js:66-86 | the outcome and the stored attempts for any password, count and failing write; success only of a right password, a recorded failure only of a wrong one |
| Lockout.OnlyTheRightPassword | backend/src/services/AuthService.js:74-86 | past the lock a login gets in exactly with the right password and both writes done, and is a recorded failure exactly with a wrong one and its write done |
| Lockout.ClearedExactly | backend/src/repositories/LoginAttemptRepository.js:47-52 | a successful login deletes that user's failures and no other row |
| Lockout.AtMostFiveFailures | backend/src/services/AuthService.js:66-86 | with logins one at a time, no stretch within 900 seconds in which the user does not get in holds more than five recorded wrong passwords |
| Lockout.LockedExactlyWhen | backend/src/repositories/LoginAttemptRepository.js:30-52 | an attempt is turned away exactly when five failures since the last successful login lie in the 900 seconds before it |
| Lockout.OpenAgain | backend/src/repositories/LoginAttemptRepository.js:30-40 | 901 seconds after the last recorded failure the account is open |
| Lockout.LockedAttemptsDoNotExtend | backend/src/services/AuthService.js:66-72 | attempts while locked, and other users' logins, leave the count alone |
| LawsAreConsistent.LawfulPrimitivesExist | client/src/crypto/messaging.py:62-168 | the laws assumed of the messaging primitives and of the cache's JSON can all hold at once |
| LawsAreConsistent.LawfulLibraryExists | message-store/Archive.cpp:42-119 | the laws assumed of the archive's libraries, refusal of other keys included, can all hold at once |

## Left out

- Widgets, dialogs, polling, threads, HTTP clients, routes, controllers, middleware, logging and configuration parsing, beyond the functions cited above.
- The bodies of the cryptographic libraries, base64, UTF-8 and JSON; pins and keys are compared as decoded bytes.
- The SQL engine, collations, schema migrations and user deletion: tables are sequences of rows with the stated unique keys, and users are permanent. The tie order of equal timestamps is insertion order.
- Threads racing on the key file: each keystore operation is one step.
- A keystore after a failed unlock, which holds a wrong KEK, is modelled by Keystore.UnlockKeys but not carried into runs: runs consist of successful operations.
- A second device or a fresh keystore, whose counters start again.
- Keystore.Keystore.SaveMessageCache: failures to write the cache file, which callers swallow, are not modelled.
- Registration, user lookups and the server's own password change; listing the shares or the chain proof of a message; the viewer's inbox and search by id: single-row reads and writes with nothing carried between them.
- Publishing one's own keys at login, and the password stamp in session tokens.
- A crash between re-wrapping the keystore and re-keying the archive: the code does not make the pair atomic.
- Command-line flags and standard input of the archive tool; JSON of another shape inside an authenticated archive, and strings that are not valid UTF-8, which end the process.
- A read error part way through an opened archive.
- A write(2) that returns 0, which the loop would repeat for ever.
- The archive tool's verify command and the file reading of its view command.
- SentPane.Populate: user names, the order of peers and the shell kept for the open chat are not modelled.
- InboxOrder.OrdersAgreeExactlyWhen: the key warning is left out of it, because it does depend on the order.
- MainFrame.MainFrame.DecryptInbox: asks that the inbox's ids differ, as the tables' primary keys make them.
- SentPane.ShowSent: runs the decrypting pass and `_populate` as one step; the window schedules the second for later, and a cache that grew in between is not modelled. It says what is shown of rows that came without text and have an id, as all of the server's answer do, and asks that ids differ.
- Protocol.AcceptedIsSubsequenceOfSealed: rests on trust on first use, the first key served for a peer being that peer's own, and on the AEAD's integrity as a guard on what is shown: what opens under a pair's key was encrypted by one of the two for the other, with that nonce and associated data.
- Gas, fees, forks and reorganisations of the chain: a transaction the network ran stays run.
- Response shapes, of which an entry keeps its row and, for shares, the original's chain status.
