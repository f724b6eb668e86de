# petmail core, modelled in Dafny

Petmail is a secure-mail prototype. Four pieces of its logic are modelled here.

- **Invitations** (`invitation.dfy`, module `Invitations`). This is the rendezvous state machine two nodes run to befriend each other from a shared code.
  - Each invitation row keeps the set of messages it sent (`myMessages`) and the set it has seen from the peer (`theirMessages`). Both are stored comma-joined.
  - It also keeps the number of the peer message it expects next, which goes 1, 2, 3.
  - `processMessages` re-sends what the rendezvous server lost and picks out the new messages. It checks their `r0:<hex>` framing and invitation-key signature. One bad message is meant to abandon the whole batch and unsubscribe; as written, that branch raises AttributeError instead (see "## Findings"). `Invitations.Process` uses the intended branch and `Invitations.ProcessAsWritten` the written one.
  - It then runs the three stage handlers in sequence without `elif`, so one pass can handle several stages. Finally it writes the row back. When a handler raises, the column writes and addressbook inserts made before the exception stay pending on the connection; the model keeps them in the outcome's database.
  - The ACK (message 3) deletes the row.
- **Notifications** (`database.py` in the source, module `Notifications`). The observable database queues a `Notice` per write. `commit` hands every queued notice to each observer of its table, in queue order and registration order, and empties the queue. `get_db` refuses any schema version but 1.
- **Command line** (module `Runner`). This covers:
  - the sub-command options and how they default (basedir inheritance, `restart` forcing `no-open` off, `test` defaulting to the `petmail` suite);
  - the `DISPATCH` table and its lazy-import shims;
  - `WebCommand`'s 0/1 exit codes and the text renderers, which sort by petname or by id;
  - how `run` turns outcomes into exit codes.
- **Message framing** (modules `Framing`, `Channel`, `Delivery`).
  - `split_into` and netstrings.
  - The 8-byte big-endian sequence number.
  - The inbound channel's split of msgC, its new-key-then-old-key fallback and its signed-authenticator check.
  - The outbound channel's sequence-number increment and msgC layout.
  - The msgA/msgB transport envelope.

Shared pieces:
- `Common`: `Result`, `Option`, the Python exceptions, and `Enumerates`, which stands for a Python set iteration order.
- `Text`: Python string operations (`split`, `join`, hex, `%d`).
- `Sorting`: the stable `sorted(key=...)` and Python 2 string order.
- `Crypto`: abstract signing and Box.

Cryptography is abstract.
- Signing is symbolic: a signature is a tag followed by the message, so "verify undoes sign" is a theorem.
- Box is an uninterpreted pair of functions. The one property the channel proofs rely on is the hypothesis `Crypto.BoxPairSound`: a box from `a` to `b` opens with `b`'s private key and `a`'s public key. `Crypto.BoxPairSoundSatisfiable` shows the hypothesis is consistent.
- HKDF, SecretBox, SHA-256 and the re-randomisable identifiers are uninterpreted functions in `Channel.Derivations` and `Delivery.CreateMsgA`'s parameters.
- The invitation's message-2 decryption and checks are the functions `Invitations.Env.decryptM2` and `encryptM2`.

Other inputs become parameters:
- Randomness: generated keys, nonces and the ACK/destroy nonces.
- The SQL engine: a `Statement` maps tables to new tables or an error.
- The rendezvous and web back ends: the `Runner.World` functions.
- Python set iteration order: an `order` sequence.

Where `channel.py` is mid-refactor, the model keeps both the code as written and the evidently intended behaviour; see "## Findings".

## Model

| member | source | states |
|---|---|---|
| Invitations.SplitMessages | petmail/invitation.py:48-51 | None or "" gives the empty set; otherwise no element contains a comma |
| Invitations.PersistRoundTrip | petmail/invitation.py:48-51 | reading back a comma-joined list of non-empty, comma-free strings, in any order, gives exactly its set of elements |
| Invitations.StoredListsRoundTrip | petmail/invitation.py:266-275 | both message sets of a well-formed row survive `",".join` followed by `splitMessages`, in any iteration order |
| Invitations.StrictMessageIsStorable | petmail/invitation.py:39 | a message of the `r0:<hex>` form is non-empty and comma-free, so it can be stored |
| Invitations.OpenMessage | petmail/invitation.py:236-251 | a message that fails the `r0:` pattern is rejected. A matching message whose hex part does not decode, and only such a message, is a TypeError. Otherwise the result is a body iff the invitation key verifies the decoded bytes; the body is exactly the verified content, and a failed verification is a rejection. A body comes only from a strict `r0:` message and is a byte string |
| Invitations.SignedMessage | petmail/invitation.py:285-294 | every sent wire message matches the strict `r0:` hex pattern and opens back to the body that was signed |
| Invitations.SignedMessageInjective | petmail/invitation.py:287 | different bodies have different wire forms |
| Invitations.CheckMessages | petmail/invitation.py:235-251 | the validation loop passes iff every new message opens, and then yields their bodies in order; abandoning means some message was rejected; a crash means a TypeError from some undecodable message |
| Invitations.PassedCheckOpensAll | petmail/invitation.py:235-251 | a passed check means every message in the batch opened |
| Invitations.Send | petmail/invitation.py:285-294 | appends the signed wire message to what was sent; adds it to `myMessages` iff `persist`; nothing else changes |
| Invitations.ProcessM1 | petmail/invitation.py:296-323 | ValueError with the pass unchanged iff their key is not 32 bytes. Otherwise it stores the key in the row and in the `theirTempPubkey` column, sends exactly the `i0:m2:` message built from both temporary keys, adds it to `myMessages`, and expects message 2; nothing else changes |
| Invitations.ProcessM2 | petmail/invitation.py:325-387 | succeeds iff their temporary key is known and the body decrypts and checks; an unknown key is an AssertionError, and any failure leaves the pass unchanged. On success it inserts the unacknowledged contact under the next contact id, raises that counter by one, stores the id in the `addressbook_id` column, sends exactly the ACK message, adds it to `myMessages` and expects message 3 |
| Invitations.ProcessM3 | petmail/invitation.py:389-402 | succeeds iff the body starts with `ACK-`, else ValueError with the pass unchanged. On success it marks its own addressbook entry acked and leaves every other entry as it was, deletes only its invitation row, sends exactly the unpersisted destroy message and unsubscribes |
| Invitations.FirstWithPrefix | petmail/invitation.py:279-283 | finds the first body carrying the prefix, or reports that none does |
| Invitations.FirstWithPrefixUnique | petmail/invitation.py:279-283 | when only one body carries the prefix, it is the one handled, whatever the iteration order |
| Invitations.FindPrefixAndCall | petmail/invitation.py:279-283 | a handler call keeps the evolution rules (counter forward only, `my` grows only by sent messages, deletion only at stage 3); without a matching body nothing happens; a raising handler changes nothing |
| Invitations.StageStep | petmail/invitation.py:258-264 | one stage check: when the counter is not at that stage nothing happens; otherwise the handler call keeps the evolution rules, and a raising handler leaves the pass unchanged |
| Invitations.Advance | petmail/invitation.py:258-264 | the three sequential stage checks keep the evolution rules; a pass that stops on an exception has not deleted the row |
| Invitations.AbandonPass | petmail/invitation.py:245-251 | the intended corrupt-channel branch unsubscribes, writes nothing and sends nothing |
| Invitations.AbandonPassAsWritten | petmail/invitation.py:249 | as written, the branch raises AttributeError and does not unsubscribe |
| Invitations.CorruptBranchAsWrittenRaises | petmail/invitation.py:249 | the as-written branch never unsubscribes and ends differently from the intended one |
| Invitations.Process | petmail/invitation.py:210-277 | missing row: KeyError. Re-sends exactly `myMessages - messages`. A batch that fails validation writes nothing. A raising handler leaves the row in place with only its `theirTempPubkey` and `addressbook_id` columns possibly written. A commit adds exactly the new messages to `theirMessages` and only moves the counter forward. The row disappears only through an ACK. Other invitations are untouched |
| Invitations.ProcessAsWritten | petmail/invitation.py:245-251 | as written, a rejected batch raises AttributeError, writes nothing and does not unsubscribe; every other outcome is the one `Process` gives |
| Invitations.RejectionRaisesAsWritten | petmail/invitation.py:235-251 | as written, one new message failing the pattern or the signature makes the pass raise AttributeError with the database unchanged and the channel still subscribed |
| Invitations.Conclude | petmail/invitation.py:255-277 | after validation: a handler exception skips the write-back and keeps the row, with only the handler columns written and the stage invariant kept; otherwise the row is written back with the unseen messages added, or it was deleted by an ACK |
| Invitations.CommitMeansAllOpened | petmail/invitation.py:235-251 | a committed pass implies every new message passed pattern, hex and signature checks |
| Invitations.RejectionAbandons | petmail/invitation.py:235-251 | with the intended corrupt-channel branch, one new message failing the pattern or signature abandons the batch: unsubscribed, database unchanged |
| Invitations.ProcessPreservesOk | petmail/invitation.py:210-277 | every pass keeps the database invariant: consistent stages, strict messages, ids below the counters, distinct inviteIDs |
| Invitations.StartInvitation | petmail/invitation.py:101-144 | CommandError iff the inviteID is already in use; otherwise a new row with counter 1, one sent message carrying our temporary public key, and an empty `theirMessages` |
| Invitations.StartPreservesOk | petmail/invitation.py:124-144 | starting an invitation keeps the database invariant and uses a fresh row id |
| Invitations.RepollChangesNothing | petmail/test/test_invitation.py:45-52 | polling with nothing new commits the row unchanged and sends nothing |
| Invitations.FirstReplyScenario | petmail/test/test_invitation.py:65-74 | the peer's first message moves the counts from (1, 0, 1) to (2, 1, 2) |
| Invitations.FallThroughScenario | petmail/test/test_invitation.py:76-82 | the peer's messages 1 and 2 together take one pass from counter 1 to 3, add an unacknowledged entry, and give counts (3, 2, 3) |
| Invitations.BadAckScenario | petmail/invitation.py:255-277 | messages 2 and a malformed 3 together: processM3 raises ValueError after processM2 inserted the contact; the contact, the raised contact counter and the `addressbook_id` column stay pending, the row is not written back, and only the ACK went out |
| Invitations.AckScenario | petmail/test/test_invitation.py:95-100 | messages 2 and 3 together: the entry is added and acked, the row is deleted, the channel is unsubscribed, and two messages go out |
| Invitations.StagePrefixesExclusive | petmail/invitation.py:258-264 | no body carries two stage prefixes |
| Notifications.Subscribe | petmail/database.py:23-24 | appends the observer to that table's list only |
| Notifications.Unsubscribe | petmail/database.py:26-27 | ValueError iff the observer is not in that table's list; otherwise the list loses exactly its first occurrence, keeping the order of the rest, and other tables are untouched |
| Notifications.SubscribeUnsubscribe | petmail/database.py:23-27 | unsubscribing a newly subscribed observer restores every table's list |
| Notifications.Reread | petmail/database.py:39-40 | the row under the id, or None; an error iff there is no such table |
| Notifications.InsertRow | petmail/database.py:36-43 | a statement error propagates and changes nothing. Otherwise the statement's write stays on the connection; the new row id is returned, with one insert notice carrying the re-read row queued iff a table is named, unless the re-read raises SqlError, which queues nothing |
| Notifications.InsertDelivered | petmail/database.py:36-62 | a successful insert into a named table reaches exactly that table's observers, in registration order, at the next commit, after what was already queued; a failed re-read adds nothing |
| Notifications.UpdateRow | petmail/database.py:45-51 | a statement error propagates and changes nothing. Otherwise the write stays on the connection, and one update notice with the re-read row is queued iff a table is named, unless the re-read raises SqlError, which queues nothing |
| Notifications.DeleteRow | petmail/database.py:53-55 | always queues `Notice(table, delete, id, None)` after a successful statement; a statement error changes nothing |
| Notifications.Notify | petmail/database.py:60-61 | schedules the notice for each observer, in order |
| Notifications.Commit | petmail/database.py:57-62 | schedules the fan-out of the pending queue after what was already scheduled; empties the queue; leaves the tables and subscriptions alone |
| Notifications.FanoutAppend | petmail/database.py:59-61 | the calls for a longer queue extend the calls for its prefix, so queue order is kept |
| Notifications.FanoutMembers | petmail/database.py:59-61 | a call is scheduled iff its notice was pending and its observer was subscribed to that notice's table |
| Notifications.FanoutOne | petmail/database.py:59-61 | one notice goes to exactly its table's observers, in registration order |
| Notifications.GetDb | petmail/database.py:64-93 | succeeds iff the file opens and is missing or holds version 1. A created file holds version 1. Other versions and unusable files give DBError; an empty version table gives TypeError |
| Notifications.GetDbReopens | petmail/database.py:64-93 | a database that `get_db` created or accepted opens again unchanged |
| Notifications.GetDbCreates | petmail/database.py:76-81 | a missing file is created at version 1 |
| Runner.InheritBasedir | petmail/scripts/runner.py:28-31 | a missing basedir is taken from the parent options; a given one is kept |
| Runner.FindCommand | petmail/scripts/runner.py:116-131 | finds the declared sub-command with that name, or shows that none is declared |
| Runner.ParseArgs | petmail/scripts/runner.py:33-109 | per sub-command arity and defaults. For start/restart the first argument is the basedir and the rest are twistd arguments. `sample` data defaults to "no data". `test` defaults to ["petmail"]. `invite`, `add-mailbox` and `send-basic` store their arguments. Any other count is a usage error |
| Runner.PostOptions | petmail/scripts/runner.py:28-64 | every sub-command but `test` ends with a basedir inherited from the parent when none was given; `restart` forces `no-open` off |
| Runner.ParseOptions | petmail/scripts/runner.py:111-156 | no sub-command is "must specify a command"; an undeclared one is "Unknown command"; the global basedir defaults to `~/.petmail` |
| Runner.RunWithoutCommand | petmail/scripts/runner.py:154-156 | without a sub-command, `run` prints usage and "must specify a command" to stderr and exits 1 |
| Runner.BasedirInherited | petmail/scripts/runner.py:24-31 | a sub-command given no basedir uses the global one |
| Runner.RestartForcesNoOpen | petmail/scripts/runner.py:61-64 | `petmail restart` always has `no-open` off |
| Runner.TestDefaultsToPetmail | petmail/scripts/runner.py:104-109 | `petmail test` with no arguments runs the `petmail` suite |
| Runner.ByPetname | petmail/scripts/runner.py:199 | sorting the addressbook keeps its length |
| Runner.AddressbookOrder | petmail/scripts/runner.py:199 | the addressbook order is sorted by petname, a permutation, and stable |
| Runner.MessagesOrder | petmail/scripts/runner.py:209 | the message order is sorted by id, a permutation, and stable |
| Sorting.SortBySorted | petmail/scripts/runner.py:199 | `sorted(key=...)` gives an ordered result under any total preorder |
| Sorting.SortByStable | petmail/scripts/runner.py:209 | elements sharing a key keep their relative order |
| Sorting.LexLeTotalPreorder | petmail/scripts/runner.py:199 | Python 2 string order is total and transitive |
| Runner.Render | petmail/scripts/runner.py:193-213 | render_text gives exactly `ok + "\n"` for a string `ok`, TypeError for a non-string one and KeyError for a missing one; given entries of the expected types, the other renderers fail with KeyError iff their top-level key is missing; every text ends in a newline |
| Runner.AddressbookLayout | petmail/scripts/runner.py:197-205 | four lines per entry, entry `i` of the petname order at lines 4i to 4i+4 |
| Runner.AddressbookText | petmail/scripts/runner.py:197-205 | the rendered addressbook splits back into exactly its lines plus the empty tail after the final newline |
| Runner.MessagesLayout | petmail/scripts/runner.py:207-213 | two lines per message, message `i` of the id order at lines 2i to 2i+2 |
| Runner.MessagesText | petmail/scripts/runner.py:207-213 | the rendered messages split back into exactly their lines plus the empty tail |
| Runner.TextLines | petmail/scripts/runner.py:205 | `"\n".join(lines) + "\n"` splits back into the lines and one empty string |
| Runner.WebArgs | petmail/scripts/runner.py:220 | the argument dict has exactly the named options, with their values; KeyError iff one is missing |
| Runner.WebCommand | petmail/scripts/runner.py:215-228 | a failed lazy import of `webwait` raises ImportError; an exception of `webwait.command` propagates unchanged; on an ok reply the rendering goes to stdout and the code is 0; otherwise the reply's `err` goes to stderr and the code is 1; the only other exceptions are a KeyError or render_text's TypeError |
| Runner.Handle | petmail/scripts/runner.py:158-181 | a web command returns 0 or 1 or raises its import failure, an exception of `webwait.command`, a KeyError or a TypeError, and writes nothing before `webwait.command` answers |
| Runner.NonWebIgnoresWebwait | petmail/scripts/runner.py:158-181 | a command that is not a web command ends the same whatever `webwait` does: only its lazily imported function decides |
| Runner.Run | petmail/scripts/runner.py:255-279 | a usage error prints usage and message to stderr and exits 1; otherwise the handler's code is the exit code; NoNodeError is printed and exits 1; ImportError is printed with advice and re-raised |
| Runner.RunExitCodes | petmail/scripts/runner.py:255-279 | the exit codes: 1 for usage errors with nothing on stdout, the handler's own code, 1 for NoNodeError, an ImportError re-raised; a web command exits 0 or 1 or propagates its import failure, an exception of `webwait.command`, a KeyError or a TypeError |
| Framing.SplitInto | petmail/test/test_util.py:10-18 | succeeds iff the lengths fit and, without a trailer, use up the string; pieces have exactly the given lengths, plus the remainder iff a trailer is asked for; they concatenate back to the input; otherwise ValueError |
| Framing.SplitIntoExamples | petmail/test/test_util.py:10-18 | the three pinned cases of `split_into` |
| Framing.ParseNetstring | petmail/mailbox/channel.py:105-114 | no decimal header followed by ':' is SilentError; a string too short for the declared length is ValueError; with enough bytes it parses iff the trailer is ',', SilentError otherwise; a parse is the header, ':', data of that length, ',' and the rest |
| Framing.NetstringRoundTrip | petmail/mailbox/channel.py:159 | parsing a netstring gives back the framed data and what follows it |
| Framing.Pack64 | petmail/mailbox/channel.py:148 | `struct.pack(">Q")` succeeds iff 0 <= n < 2^64, giving 8 bytes that read back as n |
| Framing.BigEndianLeadingZero | petmail/mailbox/channel.py:148 | sequence numbers below 2^56 pack with a zero first byte |
| Framing.ImportCheckAsWrittenFails | petmail/mailbox/channel.py:129 | the import-time check as written always fails |
| Framing.ImportCheck | petmail/mailbox/channel.py:129 | the check as intended passes, and every packed sequence number is 8 bytes |
| Text.SplitJoin | petmail/invitation.py:51 | `split` undoes `join` for comma-free pieces |
| Text.HexEncode | petmail/invitation.py:287 | hex encoding gives lower-case digits that decode back to the bytes |
| Text.Decimal | petmail/mailbox/channel.py:108 | `%d` gives digits that `int()` reads back |
| Crypto.VerifySigned | petmail/mailbox/channel.py:115 | verification with the matching key recovers the signed message |
| Channel.DecodeKey | petmail/mailbox/channel.py:77-79 | a key decodes iff it is hex of 32 bytes; TypeError for non-hex, ValueError for a wrong length |
| Channel.DecodeEncodedKey | petmail/mailbox/channel.py:149 | a hex-encoded key decodes back |
| Channel.MsgCReceived | petmail/mailbox/channel.py:41-46 | succeeds iff the message starts with "c0:" and is long enough for the MCID and pubkey2; errors are ValueError; the pieces have their lengths and concatenate back to the message |
| Channel.LookupAsWritten | petmail/mailbox/channel.py:50-61 | always fails: SilentError iff no row has the CID, TypeError otherwise |
| Channel.Lookup | petmail/mailbox/channel.py:50-59 | finds the first row holding the decrypted CID; SilentError "unknown CID" iff none does |
| Channel.LookupAsWrittenFailsOnKnownCID | petmail/mailbox/channel.py:61 | a known CID fails as written but is found as intended |
| Channel.LoadKeysAsWritten | petmail/mailbox/channel.py:77-79 | as written, the new-key slot holds the old-key column and vice versa |
| Channel.LoadKeys | petmail/mailbox/channel.py:67-79 | loads iff all three columns decode; each key comes from its own column |
| Channel.LoadKeysAsWrittenSwaps | petmail/mailbox/channel.py:77-78 | the two loaders succeed together and differ exactly by exchanging the channel keys |
| Channel.DecryptEither | petmail/mailbox/channel.py:81-95 | opens iff either key opens; the new key is tried first; `usedNew` iff the new key opened; SilentError "neither channel key worked" otherwise |
| Channel.DecryptSealedToNewKey | petmail/mailbox/channel.py:84-88 | a box sealed to the new key opens and is reported as new |
| Channel.DecryptSealedToOldKey | petmail/mailbox/channel.py:89-93 | a box sealed to the old key that the new key cannot open still opens, reported as old |
| Channel.SwappedKeysMisreport | petmail/mailbox/channel.py:77-78 | with the keys swapped as written, the new-key flag is reported backwards |
| Channel.MarkUsedNew | petmail/mailbox/channel.py:96-100 | sets the flag on the channel's row only |
| Channel.ParseSignedPartAsWritten | petmail/mailbox/channel.py:105-112 | as written, parsing always fails: SilentError iff the header is missing, TypeError otherwise |
| Channel.ParseSignedPartAsWrittenFails | petmail/mailbox/channel.py:109 | every well-framed signed part fails as written and is recovered by the intended parse |
| Channel.CheckAuthenticator | petmail/mailbox/channel.py:115-121 | accepts iff the signature verifies and covers exactly the expected content; BadSignatureError iff verification fails |
| Channel.CheckAuthenticatorSigned | petmail/mailbox/channel.py:115-121 | what the peer signed is accepted |
| Channel.MsgC2Received | petmail/mailbox/channel.py:81-124 | a decryption failure is SilentError and leaves the table alone. The flag is written iff the new key worked. A body is delivered iff the opened box parses as a netstring whose content the peer signed over pubkey2, and then it is the rest after the netstring. A netstring error (SilentError or ValueError) and the authenticator's BadSignatureError or SilentError propagate |
| Channel.FindId | petmail/mailbox/channel.py:139-143 | the first row with that id, or proof that none has it |
| Channel.SetSeqnum | petmail/mailbox/channel.py:145-146 | sets the sequence number on the rows with that id only |
| Channel.Compose | petmail/mailbox/channel.py:148-174 | builds msgC iff the sequence number packs and the three key columns decode; msgC starts with "c0:" |
| Channel.Send | petmail/mailbox/channel.py:137-177 | AssertionError "missing cid" with the table unchanged for an unknown id; otherwise building succeeds iff the row is sendable |
| Channel.SendIncrements | petmail/mailbox/channel.py:144-147 | each send raises the row's sequence number by exactly one and changes nothing else in the table |
| Channel.ParseMsgC | petmail/mailbox/channel.py:171-174 | parses iff the message starts with "c0:", holds the 32-byte CIDToken and then a netstring; the rest after the netstring is msgD |
| Channel.ParseMsgCRoundTrip | petmail/mailbox/channel.py:171-174 | parsing a composed msgC gives back its token, CIDBox and msgD |
| Channel.SplitMsgD | petmail/mailbox/channel.py:162 | msgD is the 32-byte pubkey2 followed by the box, and it splits back into them |
| Channel.ParseMsgE | petmail/mailbox/channel.py:158-161 | msgE is the 8-byte big-endian sequence number, then a netstring holding the signed authenticator, then the payload |
| Channel.ParseMsgERoundTrip | petmail/mailbox/channel.py:158-161 | parsing a composed msgE gives back its sequence number, signed authenticator and payload |
| Channel.Receive | petmail/mailbox/channel.py:12-23 | a delivered payload came from a "c0:" message whose box opened with a channel key and whose signed content is "ce0:" followed by that box's pubkey2 |
| Channel.ChannelRoundTrip | petmail/mailbox/channel.py:137-174 | what the sender composes, the receiver holding the matching keys receives: the same payload and sequence number, through the new key |
| Channel.InboundSplitMisplacesPubkey2 | petmail/mailbox/channel.py:41-46 | for every MCID length: as sent, pubkey2 follows the CIDBox netstring; an MCID length between 32 and the netstring's length makes the split cut pubkey2 out of that netstring; with a 32-byte MCID it starts with a digit of the length header |
| Channel.InboundRejectsSentMsgE | petmail/mailbox/channel.py:105-107 | a msgE as sent starts with a zero byte, so the inbound parse rejects it for lacking a netstring header |
| Channel.InboundRejectsSentAuthenticator | petmail/mailbox/channel.py:120-121 | the inbound check compares with pubkey2 alone, so the sender's "ce0:" authenticator is rejected |
| Delivery.CreateMsgA | petmail/mailbox/delivery/common.py:14-27 | succeeds iff the STID is hex and the transport key is 32 hex bytes; msgA starts with "a0:" followed by pubkey1 |
| Delivery.ParseMsgA | petmail/mailbox/delivery/common.py:6-9 | msgA is "a0:", a 32-byte pubkey1 and the box; it splits back into them |
| Delivery.ParseMsgB | petmail/mailbox/delivery/common.py:10-12 | errors are SilentError (no header) or ValueError; a parse is the decimal length of the STID, ':', the STID, ',' and msgC, which together make up msgB |
| Delivery.MsgBRoundTrip | petmail/mailbox/delivery/common.py:10-12 | msgB built as `netstring(STID) + msgC` parses back to that STID and msgC |
| Delivery.MsgARoundTrip | petmail/mailbox/delivery/common.py:14-27 | the transport owning the record opens msgA and recovers pubkey1, the re-randomised STID and the msgC |

## Left out

- Cryptography is abstract: NaCl Box, SecretBox, signing, HKDF, SHA-256, `stretch`, HMAC and `rrid`. Box is characterised only by the `Crypto.BoxPairSound` hypothesis.
- SQL: tables are maps or sequences of rows, and a statement is a function. `get_schema` file reading and `executescript` are I/O; the file system is `Notifications.DbFile`.
- `eventually`: a call is appended to a log of scheduled calls rather than actually deferred.
- JSON encoding: payloads are taken as already encoded. `json.dumps` of the channel records and `render_all` (pprint) are not modelled.
- Twisted service plumbing:
  - `InvitationManager` fan-out, `subscribe`/`sendToAll` to rendezvous services, `readyPendingInvitations`, `messagesReceived`'s row lookup.
  - `LocalRetriever` and `HTTPRetriever`.
  - Sending is a log of wire messages.
- Twisted `usage.Options` internals (option syntax, `--help`, usage text): the parser's result is a `Runner.Invocation` value, and the usage text is a parameter.
- `opt_version` and `opt_full_version`.
- `runner.test`, which spawns trial and exits, and `petmail_executable`.
- The modules the lazy-import shims load (`create_node`, `startstop`, `open`, `accept_invitation`, `webwait`): they are parameters of `Runner.World`.
- `OutboundChannel.sendMsgC` is superseded by `createMsgA`. Its SELECT has a stray comma before FROM, and it builds msgB without the netstring and msgA without the "a0:" prefix. The model follows `createMsgA`.
- `sendMsgA`: an empty stub.
- `InboundChannel.bodyReceived` does nothing; the model returns the body.
- The newer channel API used only by `petmail/test/test_channel.py` (`createMsgC`, `parse_msgC`, `process_msgC`, ...) is not part of this model.
- CIDBox checking on receipt: the inbound code shown never opens the CIDBox, so `Channel.Receive` only skips it.
- The "unrecognized rendezvous message prefix" and "no new messages" prints of `processMessages`, and its `assert isinstance(...)` checks: sets of strings are given by the types.
- Invitations.Process / Invitations.RejectionAbandons: use the intended corrupt-channel branch of `petmail/invitation.py:249`, which unsubscribes and returns. The branch as written raises AttributeError; that behaviour is `Invitations.ProcessAsWritten` and `Invitations.RejectionRaisesAsWritten`.
- Invitations: the database is its tables and id counters. The `Notice`s that its inserts, updates and deletes queue, and the commit that delivers them, are modelled only in `Notifications`.
- Runner.Render: addressbook entries and messages are typed records. So the KeyError of a missing per-entry key, the KeyError of an `acked` that is neither False nor True, and the TypeError of `%d` on a non-integer id, cid or seqnum (`petmail/scripts/runner.py:199-212`) are not modelled; JSON objects are not modelled beyond the reply's top level.
- The contents of message 2 (`processM2`'s decryption, signature and channel-record checks): `Invitations.Env.decryptM2` is abstract, and `processM1`'s encryption is `Env.encryptM2`.
- Channel.MsgC2Received: models `msgC2_received` with the keys in their intended slots, and with the signed part read by the intended netstring parse. The as-written pieces are `Channel.LoadKeysAsWritten` and `Channel.ParseSignedPartAsWritten`.
- Channel.Receive: takes the keys already loaded, and checks the authenticator the sender signs ("ce0:" followed by pubkey2) rather than the bare pubkey2 the inbound code compares with.
- Channel.Compose: states success and the "c0:" prefix; the full layout is stated through `Channel.ChannelRoundTrip` rather than in its own contract.
- Runner.ByPetname: its contract gives the length only; order, permutation and stability are in `Runner.AddressbookOrder`, and the same holds for `Runner.ById` and `Runner.MessagesOrder`.
- Python's `int()` on the netstring header is unbounded here, as it is in Python.

## Findings

| source | as written | input that shows it | evidently intended | confidence | as-written member | corrected member |
|---|---|---|---|---|---|---|
| petmail/invitation.py:249 | `self.unsubscribe(self.inviteID)`, but `Invitation` has no `unsubscribe` (only `InvitationManager` does) | any new message failing the `r0:` pattern or the signature | `self.manager.unsubscribe(...)`, as `processM3` does | not executed | Invitations.AbandonPassAsWritten | Invitations.AbandonPass |
| petmail/mailbox/channel.py:61 | `InboundChannel(self.db, their_verfkey_hex)`: two arguments for a three-argument constructor | any MCID whose CID is in the addressbook | build the inbound channel from the row's addressbook id | not executed | Channel.LookupAsWritten | Channel.Lookup |
| petmail/mailbox/channel.py:77-78 | the new-key slot reads `my_old_channel_privkey` and the old-key slot reads `my_new_channel_privkey` | a box only the new key opens is recorded as not using the new key | each slot reads its own column | not executed | Channel.SwappedKeysMisreport | Channel.LoadKeys |
| petmail/mailbox/channel.py:109 | `split_into([...], plus_trailer=True)` without the string to split | any msgD with a netstring header | `split_into(msgD, [...], plus_trailer=True)` | not executed | Channel.ParseSignedPartAsWrittenFails | Framing.NetstringRoundTrip |
| petmail/mailbox/channel.py:129 | `assert struct.calcsize(">Q") == 64`, which compares a byte count with a bit count | importing the module | compare with 8 | not executed | Framing.ImportCheckAsWrittenFails | Framing.ImportCheck |
| petmail/mailbox/channel.py:45-46 | the inbound split takes pubkey2 right after the MCID, but the sender puts `netstring(CIDBox)` after its 32-byte CIDToken; for the 96-byte rrid token of `petmail/test/test_rrid.py:15` the cut lands inside the CIDBox netstring whenever the CIDBox is at least 92 bytes | any msgC composed by `send` | skip the CIDBox netstring before pubkey2 | not executed | Channel.InboundSplitMisplacesPubkey2 | Channel.ChannelRoundTrip |
| petmail/mailbox/channel.py:105-107 | the opened box is read as starting with the signed netstring, but the sender puts the 8-byte sequence number first | any message with sequence number below 2^56 | read the sequence number, then the netstring | not executed | Channel.InboundRejectsSentMsgE | Channel.ChannelRoundTrip |
| petmail/mailbox/channel.py:120 | the signed content is compared with `pubkey2`, but the sender signs `"ce0:" + pubkey2` | any correctly signed message from the peer | compare with `"ce0:" + pubkey2` | not executed | Channel.InboundRejectsSentAuthenticator | Channel.Receive |
