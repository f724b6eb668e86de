/** The invitation rendezvous state machine of `petmail/invitation.py`.

    Each invitation row keeps the messages this side sent (`my`), the
    messages already seen from the peer (`theirs`), and the number of the
    next message expected from the peer (1, 2 or 3). A poll of the
    rendezvous server hands `Process` the set of messages currently on the
    server; it re-sends what the server lost, checks the genuinely new
    messages, and advances 1 -> 2 -> 3, possibly several steps in one pass.

    Database rows are values; a pass returns the new database only when it
    commits. Signing is the symbolic signing of module Crypto; the
    encryption of the second message and its decryption/binding checks are
    functions in `Env`; random nonces are fields of `Env`. */
module Invitations {
  import opened Common
  import opened Text
  import opened Crypto

  // ---------------------------------------------------------------------
  // persisted message lists

  /** `splitMessages(s)`: the empty set for None or "", else the set of
      comma-separated pieces. */
  function SplitMessages(s: Option<string>): (r: set<string>)
    ensures s.None? || s == Some("") ==> r == {}
    ensures s.Some? && s.value != "" ==> forall m :: m in r ==> ',' !in m
  {
    if s.None? || s.value == "" then {} else Elements(Split(s.value, ','))
  }

  /** Storing a set as `",".join(xs)` (xs in any iteration order) and reading
      it back with `splitMessages` gives the same set, provided no element is
      empty or holds a comma. */
  lemma PersistRoundTrip(xs: seq<string>)
    requires forall i :: 0 <= i < |xs| ==> xs[i] != "" && ',' !in xs[i]
    ensures SplitMessages(Some(Join(xs, ','))) == Elements(xs)
  {
    if |xs| > 0 {
      SplitJoin(xs, ',');
      assert Join(xs, ',') != "" by {
        if |xs| > 1 {
          assert |Join(xs, ',')| >= |xs[0]|;
        }
      }
    }
  }

  // ---------------------------------------------------------------------
  // message validity

  const RendezvousPrefix := "r0:"

  /** `r0:` followed by one or more lower-case hex digits. */
  predicate IsStrictMessage(m: string)
  {
    && HasPrefix(m, RendezvousPrefix)
    && |m| > |RendezvousPrefix|
    && forall i :: |RendezvousPrefix| <= i < |m| ==> IsLowerHexDigit(m[i])
  }

  /** `VALID_MESSAGE.search(m)` with `^r0:[0-9a-f]+$`: Python's `$` also
      matches just before a final newline. */
  predicate MatchesValidMessage(m: string)
  {
    || IsStrictMessage(m)
    || (|m| > 0 && m[|m| - 1] == '\n' && IsStrictMessage(m[..|m| - 1]))
  }

  /** A well-formed rendezvous message survives the comma-joined storage. */
  lemma StrictMessageIsStorable(m: string)
    requires IsStrictMessage(m)
    ensures m != "" && ',' !in m
  {
    forall i | 0 <= i < |m|
      ensures m[i] != ','
    {
      if i < |RendezvousPrefix| {
        assert m[i] == RendezvousPrefix[i];
      }
    }
  }

  datatype Opened = Body(body: string) | Rejected | Undecodable(failure: Failure)

  /** One turn of the validation loop: the pattern check (CorruptChannelError,
      caught), hex decoding (TypeError, not caught) and the signature check
      with the invitation key (BadSignatureError, caught). */
  function OpenMessage(p: Primitives, inviteKey: string, m: string): (r: Opened)
    // the pattern decides first: a message that fails it is rejected
    ensures !MatchesValidMessage(m) ==> r.Rejected?
    // a matching message whose hex part does not decode is a TypeError
    ensures r.Undecodable? <==> MatchesValidMessage(m) && HexDecode(m[|RendezvousPrefix|..]).None?
    ensures r.Undecodable? ==> r.failure.TypeError?
    // a decoded message opens iff the invitation key's signature verifies, and
    // the body is then exactly what was signed
    ensures MatchesValidMessage(m) && HexDecode(m[|RendezvousPrefix|..]).Some? ==>
      var v := Verify(p, p.verfOf(inviteKey), HexDecode(m[|RendezvousPrefix|..]).value);
      && (r.Body? <==> v.Some?)
      && (r.Rejected? <==> v.None?)
      && (r.Body? ==> r.body == v.value)
    ensures r.Body? ==> IsStrictMessage(m) && IsBytes(r.body)
  {
    if !MatchesValidMessage(m) then Rejected
    else match HexDecode(m[|RendezvousPrefix|..])
      case None => Undecodable(TypeError("Odd-length string"))
      case Some(sm) =>
        match Verify(p, p.verfOf(inviteKey), sm)
        case None => Rejected
        case Some(b) =>
          assert IsStrictMessage(m) by {
            var h := m[|RendezvousPrefix|..];
            assert |m| > |RendezvousPrefix|;
            assert m[|m| - 1] == h[|h| - 1];
            assert IsHexDigit(h[|h| - 1]);
          }
          Body(b)
  }

  /** The wire form of a message: `"r0:" + hex(sign(inviteKey, msg))`. */
  function SignedMessage(p: Primitives, inviteKey: string, msg: string): (r: string)
    requires IsBytes(msg)
    ensures IsStrictMessage(r)
    ensures OpenMessage(p, inviteKey, r) == Body(msg)
  {
    var sm := Sign(p, inviteKey, msg);
    var r := RendezvousPrefix + HexEncode(sm);
    assert r[|RendezvousPrefix|..] == HexEncode(sm);
    VerifySigned(p, inviteKey, msg);
    r
  }

  /** Different messages have different wire forms. */
  lemma SignedMessageInjective(p: Primitives, inviteKey: string, a: string, b: string)
    requires IsBytes(a) && IsBytes(b) && a != b
    ensures SignedMessage(p, inviteKey, a) != SignedMessage(p, inviteKey, b)
  {
    assert OpenMessage(p, inviteKey, SignedMessage(p, inviteKey, a)) == Body(a);
  }

  datatype Check = Passed(bodies: seq<string>) | Abandon | Crash(failure: Failure)

  /** The validation loop over the new messages in iteration order: the
      first message that does not open decides the outcome. */
  function CheckMessages(p: Primitives, inviteKey: string, order: seq<string>): (r: Check)
    ensures r.Passed? <==> forall i :: 0 <= i < |order| ==> OpenMessage(p, inviteKey, order[i]).Body?
    ensures r.Passed? ==> |r.bodies| == |order|
    ensures r.Passed? ==> forall i :: 0 <= i < |order| ==> r.bodies[i] == OpenMessage(p, inviteKey, order[i]).body
    ensures r.Abandon? ==> exists i :: 0 <= i < |order| && OpenMessage(p, inviteKey, order[i]).Rejected?
    ensures r.Crash? ==>
      && r.failure.TypeError?
      && exists i :: 0 <= i < |order| && OpenMessage(p, inviteKey, order[i]).Undecodable?
  {
    if |order| == 0 then Passed([])
    else match OpenMessage(p, inviteKey, order[0])
      case Rejected => Abandon
      case Undecodable(e) => Crash(e)
      case Body(b) =>
        match CheckMessages(p, inviteKey, order[1..])
        case Passed(bs) =>
          assert forall i :: 1 <= i < |order| ==> order[i] == order[1..][i - 1];
          Passed([b] + bs)
        case Abandon =>
          ghost var i :| 0 <= i < |order[1..]| && OpenMessage(p, inviteKey, order[1..][i]).Rejected?;
          assert order[1..][i] == order[i + 1];
          Abandon
        case Crash(e) =>
          ghost var i :| 0 <= i < |order[1..]| && OpenMessage(p, inviteKey, order[1..][i]).Undecodable?;
          assert order[1..][i] == order[i + 1];
          Crash(e)
  }

  /** When the validation loop passes, every message it was given opened:
      one message that fails the pattern or the signature check is enough to
      stop it. */
  lemma PassedCheckOpensAll(p: Primitives, inviteKey: string, order: seq<string>)
    requires CheckMessages(p, inviteKey, order).Passed?
    ensures forall m :: m in order ==> OpenMessage(p, inviteKey, m).Body?
  {
    forall m | m in order
      ensures OpenMessage(p, inviteKey, m).Body?
    {
      var i :| 0 <= i < |order| && order[i] == m;
    }
  }

  /** A body with the prefix that the validation loop yields comes from
      one of the new messages it was given. */
  lemma BodyFromNewMessage(p: Primitives, inviteKey: string, order: seq<string>, unseen: set<string>, prefix: string)
    requires Enumerates(order, unseen)
    requires CheckMessages(p, inviteKey, order).Passed?
    ensures var bodies := CheckMessages(p, inviteKey, order).bodies;
      (exists i :: 0 <= i < |bodies| && HasPrefix(bodies[i], prefix)) ==>
        exists m :: m in unseen && OpenMessage(p, inviteKey, m).Body? && HasPrefix(OpenMessage(p, inviteKey, m).body, prefix)
  {
    var bodies := CheckMessages(p, inviteKey, order).bodies;
    if i :| 0 <= i < |bodies| && HasPrefix(bodies[i], prefix) {
      assert order[i] in unseen;
    }
  }

  // ---------------------------------------------------------------------
  // rows and the database

  datatype Row = Row(
    petname: string,
    inviteID: string,
    /** the stretched invitation code: the invitation signing key */
    inviteKey: string,
    myTempPrivkey: string,
    theirTempPubkey: Option<Key32>,
    nextExpected: int,
    my: set<string>,
    theirs: set<string>,
    addressbookId: Option<nat>)

  datatype Contact = Contact(petname: string, acked: bool, theirVerfkey: Key32)

  datatype Db = Db(
    invitations: map<nat, Row>,
    addressbook: map<nat, Contact>,
    nextInvitationId: nat,
    nextContactId: nat)

  /** The parts of a pass that the model does not interpret. */
  datatype Env = Env(
    p: Primitives,
    /** processM1: nonce and ciphertext of the `i0:m2a:` body for their temporary key */
    encryptM2: (Row, Key32) -> Bytes,
    /** processM2: decryption, signature and binding checks, giving their verifying key */
    decryptM2: (Row, string) -> Result<Key32, Failure>,
    ackNonce: Bytes,
    destroyNonce: Bytes)

  const M1Prefix := "i0:m1:"
  const M2Prefix := "i0:m2:"
  const M3Prefix := "i0:m3:"
  const AckPrefix := "ACK-"
  const DestroyPrefix := "i0:destroy:"

  lemma PrefixesAreBytes()
    ensures IsBytes(M1Prefix) && IsBytes(M2Prefix) && IsBytes(M3Prefix)
    ensures IsBytes(AckPrefix) && IsBytes(DestroyPrefix)
  {
  }

  /** The state of one pass: the in-memory invitation, the database as the
      connection sees it, the messages sent so far, and whether the row was
      deleted or the rendezvous channel unsubscribed. */
  datatype Pass = Pass(iid: nat, row: Row, db: Db, sent: seq<string>, deleted: bool, unsubscribed: bool)

  /** `Invitation.send(msg, persist)`: signs and sends; remembers the wire
      message in `my` iff `persist`. */
  function Send(env: Env, ps: Pass, msg: string, persist: bool): (r: Pass)
    requires IsBytes(msg)
    ensures r.sent == ps.sent + [SignedMessage(env.p, ps.row.inviteKey, msg)]
    ensures r.row.my == if persist then ps.row.my + {SignedMessage(env.p, ps.row.inviteKey, msg)} else ps.row.my
    ensures r == ps.(sent := r.sent, row := ps.row.(my := r.row.my))
  {
    var signed := SignedMessage(env.p, ps.row.inviteKey, msg);
    var row := if persist then ps.row.(my := ps.row.my + {signed}) else ps.row;
    ps.(row := row, sent := ps.sent + [signed])
  }

  datatype Step = Step(ps: Pass, failure: Option<Failure>)

  /** `b` is the stored row `a` with at most the two columns the handlers
      write directly (`theirTempPubkey`, `addressbook_id`) changed. */
  predicate HandlerColumnsOnly(a: Row, b: Row)
  {
    b == a.(theirTempPubkey := b.theirTempPubkey, addressbookId := b.addressbookId)
  }

  /** `UPDATE invitations SET theirTempPubkey=? WHERE id=?`. */
  function StoreTheirTempPubkey(db: Db, iid: nat, k: Key32): (r: Db)
    ensures r == db.(invitations := r.invitations)
    ensures r.invitations - {iid} == db.invitations - {iid}
    ensures iid in r.invitations <==> iid in db.invitations
    ensures iid in db.invitations ==> r.invitations[iid] == db.invitations[iid].(theirTempPubkey := Some(k))
  {
    if iid in db.invitations then db.(invitations := db.invitations[iid := db.invitations[iid].(theirTempPubkey := Some(k))])
    else db
  }

  /** `UPDATE invitations SET addressbook_id=? WHERE id=?`. */
  function StoreAddressbookId(db: Db, iid: nat, cid: nat): (r: Db)
    ensures r == db.(invitations := r.invitations)
    ensures r.invitations - {iid} == db.invitations - {iid}
    ensures iid in r.invitations <==> iid in db.invitations
    ensures iid in db.invitations ==> r.invitations[iid] == db.invitations[iid].(addressbookId := Some(cid))
  {
    if iid in db.invitations then db.(invitations := db.invitations[iid := db.invitations[iid].(addressbookId := Some(cid))])
    else db
  }

  /** Our second message, once their temporary key `k` is known: the
      encrypted `i0:m2:` body. */
  function SecondMessage(env: Env, row: Row, k: Key32): string
  {
    SignedMessage(env.p, row.inviteKey, M2Prefix + env.encryptM2(row.(theirTempPubkey := Some(k)), k))
  }

  /** Our third message, the ACK. */
  function AckMessage(env: Env, row: Row): string
  {
    SignedMessage(env.p, row.inviteKey, M3Prefix + AckPrefix + env.ackNonce)
  }

  /** The non-persistent destroy message. */
  function DestroyMessage(env: Env, row: Row): string
  {
    SignedMessage(env.p, row.inviteKey, DestroyPrefix + env.destroyNonce)
  }

  /** `processM1`: their temporary public key must be 32 bytes; record it
      (in memory and, uncommitted, in the row), send our encrypted second
      message and remember it in `my`, expect message 2. */
  function ProcessM1(env: Env, ps: Pass, msg: string): (r: Step)
    requires IsBytes(msg)
    ensures r.failure.None? <==> |msg| == 32
    ensures r.failure.Some? ==> r.ps == ps && r.failure.value.ValueError?
    ensures r.failure.None? ==>
      var m2 := SecondMessage(env, ps.row, msg);
      r.ps == ps.(row := ps.row.(theirTempPubkey := Some(msg), nextExpected := 2, my := ps.row.my + {m2}),
                  sent := ps.sent + [m2],
                  db := StoreTheirTempPubkey(ps.db, ps.iid, msg))
  {
    if |msg| != 32 then Step(ps, Some(ValueError("The public key must be exactly 32 bytes long")))
    else
      var theirTemp: Key32 := msg;
      var ps1 := ps.(row := ps.row.(theirTempPubkey := Some(theirTemp)), db := StoreTheirTempPubkey(ps.db, ps.iid, theirTemp));
      var ps2 := Send(env, ps1, M2Prefix + env.encryptM2(ps1.row, theirTemp), true);
      Step(ps2.(row := ps2.row.(nextExpected := 2)), None)
  }

  /** `processM2`: needs their temporary key (an assertion), decrypts and
      checks the body, inserts an unacknowledged addressbook entry under the
      next contact id and records its id in the row (both uncommitted), sends
      the ACK and remembers it in `my`, expects message 3. */
  function ProcessM2(env: Env, ps: Pass, msg: string): (r: Step)
    ensures r.failure.None? <==> ps.row.theirTempPubkey.Some? && env.decryptM2(ps.row, msg).Ok?
    ensures r.failure.Some? ==> r.ps == ps
    ensures r.failure.Some? && ps.row.theirTempPubkey.None? ==> r.failure.value.AssertionError?
    ensures r.failure.None? ==>
      var cid := ps.db.nextContactId;
      var m3 := AckMessage(env, ps.row);
      && r.ps == ps.(row := ps.row.(addressbookId := Some(cid), nextExpected := 3, my := ps.row.my + {m3}),
                     sent := ps.sent + [m3],
                     db := r.ps.db)
      && r.ps.db.addressbook == ps.db.addressbook[cid := Contact(ps.row.petname, false, env.decryptM2(ps.row, msg).value)]
      && r.ps.db.nextContactId == cid + 1
      && r.ps.db.nextInvitationId == ps.db.nextInvitationId
      && r.ps.db.invitations == StoreAddressbookId(ps.db, ps.iid, cid).invitations
  {
    if ps.row.theirTempPubkey.None? then Step(ps, Some(AssertionError("theirTempPubkey")))
    else match env.decryptM2(ps.row, msg)
      case Err(e) => Step(ps, Some(e))
      case Ok(theirVerfkey) =>
        var cid := ps.db.nextContactId;
        var db1 := ps.db.(addressbook := ps.db.addressbook[cid := Contact(ps.row.petname, false, theirVerfkey)],
                          nextContactId := cid + 1);
        var ps1 := ps.(db := StoreAddressbookId(db1, ps.iid, cid), row := ps.row.(addressbookId := Some(cid)));
        var ps2 := Send(env, ps1, M3Prefix + AckPrefix + env.ackNonce, true);
        Step(ps2.(row := ps2.row.(nextExpected := 3)), None)
  }

  /** `processM3`: the body must start with `ACK-` (ValueError otherwise,
      before any write); marks the addressbook entry acknowledged, deletes
      the invitation, sends the non-persistent destroy message and
      unsubscribes. */
  function ProcessM3(env: Env, ps: Pass, msg: string): (r: Step)
    ensures r.failure.None? <==> HasPrefix(msg, AckPrefix)
    ensures r.failure.Some? ==> r.ps == ps && r.failure.value.ValueError?
    ensures r.failure.None? ==>
      && r.ps == ps.(db := r.ps.db, sent := ps.sent + [DestroyMessage(env, ps.row)], deleted := true, unsubscribed := true)
      && r.ps.db.invitations == ps.db.invitations - {ps.iid}
      && r.ps.db.nextContactId == ps.db.nextContactId
      && r.ps.db.nextInvitationId == ps.db.nextInvitationId
      && r.ps.db.addressbook.Keys == ps.db.addressbook.Keys
      // only the invitation's own entry changes, and only its `acked` flag
      && (forall c :: c in ps.db.addressbook && Some(c) != ps.row.addressbookId ==>
            r.ps.db.addressbook[c] == ps.db.addressbook[c])
      && (ps.row.addressbookId.Some? && ps.row.addressbookId.value in ps.db.addressbook ==>
            r.ps.db.addressbook[ps.row.addressbookId.value] == ps.db.addressbook[ps.row.addressbookId.value].(acked := true))
  {
    if !HasPrefix(msg, AckPrefix) then Step(ps, Some(ValueError("bad ACK")))
    else
      var book := ps.db.addressbook;
      var book' := if ps.row.addressbookId.Some? && ps.row.addressbookId.value in book
                   then book[ps.row.addressbookId.value := book[ps.row.addressbookId.value].(acked := true)]
                   else book;
      var ps1 := ps.(db := ps.db.(addressbook := book', invitations := ps.db.invitations - {ps.iid}), deleted := true);
      var ps2 := Send(env, ps1, DestroyPrefix + env.destroyNonce, false);
      Step(ps2.(unsubscribed := true), None)
  }

  /** Index of the first body (in iteration order) with the prefix. */
  function FirstWithPrefix(bodies: seq<string>, prefix: string): (r: Option<nat>)
    ensures r.Some? ==>
      && r.value < |bodies| && HasPrefix(bodies[r.value], prefix)
      && forall j :: 0 <= j < r.value ==> !HasPrefix(bodies[j], prefix)
    ensures r.None? ==> forall j :: 0 <= j < |bodies| ==> !HasPrefix(bodies[j], prefix)
  {
    if |bodies| == 0 then None
    else if HasPrefix(bodies[0], prefix) then Some(0)
    else match FirstWithPrefix(bodies[1..], prefix)
      case None => None
      case Some(i) => Some(i + 1)
  }

  /** When exactly one body carries the prefix, that body is the one found,
      whatever the iteration order. */
  lemma FirstWithPrefixUnique(bodies: seq<string>, prefix: string, b: string)
    requires b in bodies && HasPrefix(b, prefix)
    requires forall j :: 0 <= j < |bodies| && HasPrefix(bodies[j], prefix) ==> bodies[j] == b
    ensures FirstWithPrefix(bodies, prefix).Some?
    ensures bodies[FirstWithPrefix(bodies, prefix).value] == b
  {
  }

  datatype Stage = M1 | M2 | M3

  function PrefixOf(stage: Stage): string
  {
    match stage
    case M1 => M1Prefix
    case M2 => M2Prefix
    case M3 => M3Prefix
  }

  /** The peer message each stage handles. */
  function StageNumber(stage: Stage): int
  {
    match stage
    case M1 => 1
    case M2 => 2
    case M3 => 3
  }

  /** The expected-message counter only moves forward along 1 -> 2 -> 3. */
  predicate Advances(before: int, after: int)
  {
    || after == before
    || (before == 1 && (after == 2 || after == 3))
    || (before == 2 && after == 3)
  }

  /** The counter is 1, 2 or 3; by message 2 their temporary key is known,
      and by message 3 the addressbook entry exists. */
  ghost predicate StageOk(row: Row, book: map<nat, Contact>)
  {
    && 1 <= row.nextExpected <= 3
    && (row.nextExpected >= 2 ==> row.theirTempPubkey.Some?)
    && (row.nextExpected == 3 ==> row.addressbookId.Some? && row.addressbookId.value in book)
  }

  /** Addressbook ids are below the next id to be handed out. */
  ghost predicate BookOk(db: Db)
  {
    forall cid :: cid in db.addressbook ==> cid < db.nextContactId
  }

  /** What the handlers may do to a pass that has not yet deleted its row:
      move the counter forward, add to `my` only messages they also sent,
      leave `theirs` and the other invitations alone, write only the
      `theirTempPubkey` and `addressbook_id` columns of the stored row, only
      add addressbook entries, and delete the row (and unsubscribe) only on
      an ACK while expecting message 3. */
  ghost predicate Evolves(a: Pass, b: Pass, bodies: seq<string>)
  {
    && !a.deleted && !a.unsubscribed
    && Advances(a.row.nextExpected, b.row.nextExpected)
    && b.iid == a.iid
    && b.row.theirs == a.row.theirs
    && b.row.inviteKey == a.row.inviteKey
    && b.row.inviteID == a.row.inviteID
    && a.row.my <= b.row.my
    && a.sent <= b.sent
    && (forall m :: m in b.row.my - a.row.my ==> m in b.sent && IsStrictMessage(m))
    && (StageOk(a.row, a.db.addressbook) ==> StageOk(b.row, b.db.addressbook))
    && (BookOk(a.db) ==> BookOk(b.db))
    && b.db.invitations - {a.iid} == a.db.invitations - {a.iid}
    && (a.iid in b.db.invitations <==> a.iid in a.db.invitations && !b.deleted)
    && (a.iid in b.db.invitations ==>
          && HandlerColumnsOnly(a.db.invitations[a.iid], b.db.invitations[a.iid])
          && (StageOk(a.db.invitations[a.iid], a.db.addressbook) ==> StageOk(b.db.invitations[a.iid], b.db.addressbook)))
    && a.db.addressbook.Keys <= b.db.addressbook.Keys
    && a.db.nextContactId <= b.db.nextContactId
    && b.db.nextInvitationId == a.db.nextInvitationId
    && (b.deleted <==> b.unsubscribed)
    && (b.deleted ==>
          && b.row.nextExpected == 3
          && exists i :: 0 <= i < |bodies| && HasPrefix(bodies[i], M3Prefix + AckPrefix))
  }

  lemma EvolvesReflexive(a: Pass, bodies: seq<string>)
    requires !a.deleted && !a.unsubscribed
    ensures Evolves(a, a, bodies)
  {
  }

  lemma EvolvesTransitive(a: Pass, b: Pass, c: Pass, bodies: seq<string>)
    requires Evolves(a, b, bodies) && Evolves(b, c, bodies)
    ensures Evolves(a, c, bodies)
  {
    forall m | m in c.row.my - a.row.my
      ensures m in c.sent
    {
      if m !in c.row.my - b.row.my {
        assert m in b.row.my - a.row.my;
        assert m in b.sent;
        var i :| 0 <= i < |b.sent| && b.sent[i] == m;
        assert c.sent[i] == m;
      }
    }
  }

  /** The handlers leave every other invitation as it was. */
  lemma EvolvesKeepsOthers(a: Pass, b: Pass, bodies: seq<string>)
    requires Evolves(a, b, bodies)
    ensures forall j :: j != a.iid ==>
      && (j in b.db.invitations <==> j in a.db.invitations)
      && (j in a.db.invitations ==> b.db.invitations[j] == a.db.invitations[j])
  {
    forall j | j != a.iid
      ensures j in b.db.invitations <==> j in a.db.invitations
      ensures j in a.db.invitations ==> b.db.invitations[j] == a.db.invitations[j]
    {
      assert j in b.db.invitations <==> j in b.db.invitations - {a.iid};
      assert j in a.db.invitations <==> j in a.db.invitations - {a.iid};
      if j in a.db.invitations {
        assert b.db.invitations[j] == (b.db.invitations - {a.iid})[j];
      }
    }
  }

  /** Two prefixes read one after the other are one longer prefix. */
  lemma PrefixThenPrefix(s: string, p: string, q: string)
    requires HasPrefix(s, p) && HasPrefix(s[|p|..], q)
    ensures HasPrefix(s, p + q)
  {
    assert s[..|p + q|] == s[..|p|] + s[|p|..][..|q|];
  }

  /** `findPrefixAndCall(prefix, bodies, handler)`, called for the stage
      the row is at: hands the first body with the stage's prefix, prefix
      removed, to the stage's handler. */
  function FindPrefixAndCall(env: Env, stage: Stage, ps: Pass, bodies: seq<string>): (r: Step)
    requires forall i :: 0 <= i < |bodies| ==> IsBytes(bodies[i])
    requires !ps.deleted && !ps.unsubscribed
    requires ps.row.nextExpected == StageNumber(stage)
    ensures Evolves(ps, r.ps, bodies)
    ensures r.ps.deleted ==> stage == M3
    ensures r.failure.Some? ==> r.ps == ps
    ensures FirstWithPrefix(bodies, PrefixOf(stage)).None? ==> r == Step(ps, None)
  {
    match FirstWithPrefix(bodies, PrefixOf(stage))
    case None => Step(ps, None)
    case Some(i) =>
      var msg := bodies[i][|PrefixOf(stage)|..];
      BytesSuffix(bodies[i], |PrefixOf(stage)|);
      match stage
      case M1 => M1Evolves(env, ps, msg, bodies); ProcessM1(env, ps, msg)
      case M2 => M2Evolves(env, ps, msg, bodies); ProcessM2(env, ps, msg)
      case M3 =>
        M3Evolves(env, ps, bodies[i], bodies);
        ProcessM3(env, ps, msg)
  }

  /** What follows a prefix of a byte string is a byte string. */
  lemma BytesSuffix(s: string, n: nat)
    requires IsBytes(s) && n <= |s|
    ensures IsBytes(s[n..])
  {
    forall j | 0 <= j < |s| - n
      ensures s[n..][j] as int < 256
    {
      assert s[n..][j] == s[n + j];
    }
  }

  /** Handling message 1 keeps the evolution rules and never deletes. */
  lemma M1Evolves(env: Env, ps: Pass, msg: string, bodies: seq<string>)
    requires IsBytes(msg)
    requires !ps.deleted && !ps.unsubscribed && ps.row.nextExpected == 1
    ensures Evolves(ps, ProcessM1(env, ps, msg).ps, bodies)
    ensures !ProcessM1(env, ps, msg).ps.deleted
  {
  }

  /** Handling message 2 keeps the evolution rules and never deletes. */
  lemma M2Evolves(env: Env, ps: Pass, msg: string, bodies: seq<string>)
    requires !ps.deleted && !ps.unsubscribed && ps.row.nextExpected == 2
    ensures Evolves(ps, ProcessM2(env, ps, msg).ps, bodies)
    ensures !ProcessM2(env, ps, msg).ps.deleted
  {
  }

  /** Handling message 3 keeps the evolution rules; a deletion comes from
      a body carrying the ACK. */
  lemma M3Evolves(env: Env, ps: Pass, body: string, bodies: seq<string>)
    requires !ps.deleted && !ps.unsubscribed && ps.row.nextExpected == 3
    requires body in bodies && HasPrefix(body, M3Prefix)
    ensures Evolves(ps, ProcessM3(env, ps, body[|M3Prefix|..]).ps, bodies)
  {
    if ProcessM3(env, ps, body[|M3Prefix|..]).failure.None? {
      PrefixThenPrefix(body, M3Prefix, AckPrefix);
    }
  }

  /** The three handler checks in sequence, without `elif`: a handler that
      raised stops the pass; otherwise a pass can take the row from 1 to 3
      and on to deletion at once. */
  function Advance(env: Env, ps: Pass, bodies: seq<string>): (r: Step)
    requires forall i :: 0 <= i < |bodies| ==> IsBytes(bodies[i])
    requires !ps.deleted && !ps.unsubscribed
    ensures Evolves(ps, r.ps, bodies)
    ensures r.failure.Some? ==> !r.ps.deleted
  {
    var s1 := StageStep(env, M1, ps, bodies);
    if s1.failure.Some? then s1
    else
      var s2 := StageStep(env, M2, s1.ps, bodies);
      EvolvesTransitive(ps, s1.ps, s2.ps, bodies);
      if s2.failure.Some? then s2
      else
        var s3 := StageStep(env, M3, s2.ps, bodies);
        EvolvesTransitive(ps, s2.ps, s3.ps, bodies);
        s3
  }

  /** `if self.nextExpectedMessage == n: self.findPrefixAndCall(...)`. */
  function StageStep(env: Env, stage: Stage, ps: Pass, bodies: seq<string>): (r: Step)
    requires forall i :: 0 <= i < |bodies| ==> IsBytes(bodies[i])
    requires !ps.deleted && !ps.unsubscribed
    ensures Evolves(ps, r.ps, bodies)
    ensures r.ps.deleted ==> stage == M3
    ensures r.failure.Some? ==> r.ps == ps
    ensures ps.row.nextExpected != StageNumber(stage) ==> r == Step(ps, None)
  {
    if ps.row.nextExpected == StageNumber(stage) then FindPrefixAndCall(env, stage, ps, bodies)
    else
      EvolvesReflexive(ps, bodies);
      Step(ps, None)
  }

  // ---------------------------------------------------------------------
  // processMessages

  datatype Status = Committed | Abandoned | Raised(failure: Failure)

  datatype Outcome = Outcome(
    /** the database as the connection sees it: written back by a committed
        pass; after a handler raised, holding the earlier handlers' writes,
        which stay pending until the next commit on the connection */
    db: Db,
    /** messages of ours the server had lost, sent again */
    resent: set<string>,
    /** messages sent by the handlers, in order */
    sent: seq<string>,
    unsubscribed: bool,
    status: Status)

  /** The messages of this poll not seen before, neither ours nor theirs. */
  function NewMessages(row: Row, messages: set<string>): set<string>
  {
    messages - row.my - row.theirs
  }

  /** The corrupt-channel branch as intended: unsubscribe from the
      rendezvous channel and return without writing the row. */
  function AbandonPass(db: Db, resent: set<string>): (out: Outcome)
    ensures out.db == db && out.unsubscribed && out.status == Abandoned && out.sent == []
  {
    Outcome(db, resent, [], true, Abandoned)
  }

  /** The corrupt-channel branch as written: `self.unsubscribe(...)` names a
      method `Invitation` does not have, so the handler raises
      AttributeError instead of unsubscribing. */
  function AbandonPassAsWritten(db: Db, resent: set<string>): (out: Outcome)
    ensures out.db == db && !out.unsubscribed && out.status.Raised? && out.status.failure.AttributeError?
  {
    Outcome(db, resent, [], false, Raised(AttributeError("Invitation instance has no attribute 'unsubscribe'")))
  }

  /** As written, a corrupt message never unsubscribes the channel; it
      escapes as an exception from the rendezvous client's poll. */
  lemma CorruptBranchAsWrittenRaises(db: Db, resent: set<string>)
    ensures !AbandonPassAsWritten(db, resent).unsubscribed
    ensures AbandonPassAsWritten(db, resent).status != AbandonPass(db, resent).status
  {
  }

  /** `Invitation(iid, ...).processMessages(messages)`, with the intended
      corrupt-channel branch `AbandonPass` (the code as written is
      `ProcessAsWritten`). `order` is the order
      in which Python iterates the set of new messages (any enumeration; one
      always exists, see `EnumerationExists`). */
  function Process(env: Env, db: Db, iid: nat, messages: set<string>, order: seq<string>): (out: Outcome)
    requires iid in db.invitations ==> Enumerates(order, NewMessages(db.invitations[iid], messages))
    // a missing row is the KeyError of Invitation.__init__
    ensures iid !in db.invitations ==> out.status.Raised? && out.status.failure.KeyError? && out.db == db
    // re-sends exactly what the server lost
    ensures iid in db.invitations ==> out.resent == db.invitations[iid].my - messages
    // a batch the validation loop stops writes nothing
    ensures iid in db.invitations && !CheckMessages(env.p, db.invitations[iid].inviteKey, order).Passed? ==>
      out.db == db
    // a raising handler leaves the row's lists and counter as stored; only
    // the earlier handlers' direct writes are pending on the connection
    ensures out.status.Raised? && iid in db.invitations ==>
      && iid in out.db.invitations
      && HandlerColumnsOnly(db.invitations[iid], out.db.invitations[iid])
    ensures out.status == Abandoned ==> out.unsubscribed && out.sent == []
    // the database as a whole only grows the addressbook
    ensures db.addressbook.Keys <= out.db.addressbook.Keys
    ensures out.db.nextInvitationId == db.nextInvitationId
    ensures BookOk(db) ==> BookOk(out.db)
    // a committed pass records the new messages and only moves forward
    ensures out.status.Committed? && iid in out.db.invitations ==>
      var row := db.invitations[iid];
      var row' := out.db.invitations[iid];
      && row'.theirs == row.theirs + NewMessages(row, messages)
      && row.my <= row'.my
      && (forall m :: m in row'.my - row.my ==> m in out.sent && IsStrictMessage(m))
      && Advances(row.nextExpected, row'.nextExpected)
      && (StageOk(row, db.addressbook) ==> StageOk(row', out.db.addressbook))
      && row'.inviteID == row.inviteID
      && !out.unsubscribed
    // the row disappears only through an ACK
    ensures out.status.Committed? && iid !in out.db.invitations ==>
      && iid in db.invitations
      && out.unsubscribed
      && exists m :: m in NewMessages(db.invitations[iid], messages)
                  && OpenMessage(env.p, db.invitations[iid].inviteKey, m).Body?
                  && HasPrefix(OpenMessage(env.p, db.invitations[iid].inviteKey, m).body, M3Prefix + AckPrefix)
    // other invitations are untouched
    ensures forall j :: j != iid ==>
      (j in out.db.invitations <==> j in db.invitations)
      && (j in db.invitations ==> out.db.invitations[j] == db.invitations[j])
  {
    if iid !in db.invitations then
      Outcome(db, {}, [], false, Raised(KeyError("no pending Invitation")))
    else
      var row := db.invitations[iid];
      var resent := row.my - messages;
      var unseen := NewMessages(row, messages);
      match CheckMessages(env.p, row.inviteKey, order)
      case Abandon =>
        AbandonPass(db, resent)
      case Crash(e) =>
        Outcome(db, resent, [], false, Raised(e))
      case Passed(bodies) =>
        PassedCheckOpensAll(env.p, row.inviteKey, order);
        BodyFromNewMessage(env.p, row.inviteKey, order, unseen, M3Prefix + AckPrefix);
        Conclude(env, db, iid, unseen, resent, bodies)
  }

  /** The rest of a pass once every new message opened: run the handlers
      on the bodies, then write the row back with the new messages recorded
      in `theirs` (unless the ACK deleted it) and commit. A handler's
      exception skips the write-back and the commit, but the writes of the
      handlers before it stay on the connection. */
  function Conclude(env: Env, db: Db, iid: nat, unseen: set<string>, resent: set<string>, bodies: seq<string>): (out: Outcome)
    requires iid in db.invitations
    requires forall i :: 0 <= i < |bodies| ==> IsBytes(bodies[i])
    ensures out.resent == resent
    ensures out.status.Committed? || out.status.Raised?
    // a raising handler leaves the row's lists and counter as stored
    ensures out.status.Raised? ==>
      && iid in out.db.invitations
      && HandlerColumnsOnly(db.invitations[iid], out.db.invitations[iid])
      && (StageOk(db.invitations[iid], db.addressbook) ==> StageOk(out.db.invitations[iid], out.db.addressbook))
      && !out.unsubscribed
    ensures out.status.Committed? && iid in out.db.invitations ==>
      var row := db.invitations[iid];
      var row' := out.db.invitations[iid];
      && row'.theirs == row.theirs + unseen
      && row.my <= row'.my
      && (forall m :: m in row'.my - row.my ==> m in out.sent && IsStrictMessage(m))
      && Advances(row.nextExpected, row'.nextExpected)
      && (StageOk(row, db.addressbook) ==> StageOk(row', out.db.addressbook))
      && row'.inviteID == row.inviteID
      && !out.unsubscribed
    ensures out.status.Committed? && iid !in out.db.invitations ==>
      && out.unsubscribed
      && exists i :: 0 <= i < |bodies| && HasPrefix(bodies[i], M3Prefix + AckPrefix)
    ensures forall j :: j != iid ==>
      (j in out.db.invitations <==> j in db.invitations)
      && (j in db.invitations ==> out.db.invitations[j] == db.invitations[j])
    ensures db.addressbook.Keys <= out.db.addressbook.Keys
    ensures out.db.nextInvitationId == db.nextInvitationId
    ensures BookOk(db) ==> BookOk(out.db)
  {
    var row := db.invitations[iid];
    var st := Advance(env, Pass(iid, row, db, [], false, false), bodies);
    EvolvesKeepsOthers(Pass(iid, row, db, [], false, false), st.ps, bodies);
    if st.failure.Some? then
      Outcome(st.ps.db, resent, st.ps.sent, st.ps.unsubscribed, Raised(st.failure.value))
    else if st.ps.deleted then
      Outcome(st.ps.db, resent, st.ps.sent, st.ps.unsubscribed, Committed)
    else
      var row' := st.ps.row.(theirs := row.theirs + unseen);
      Outcome(st.ps.db.(invitations := st.ps.db.invitations[iid := row']), resent, st.ps.sent, st.ps.unsubscribed, Committed)
  }

  /** A pass commits only if every new message passed the pattern, hex and
      signature checks. */
  lemma CommitMeansAllOpened(env: Env, db: Db, iid: nat, messages: set<string>, order: seq<string>)
    requires iid in db.invitations ==> Enumerates(order, NewMessages(db.invitations[iid], messages))
    requires Process(env, db, iid, messages, order).status.Committed?
    ensures iid in db.invitations
    ensures forall m :: m in NewMessages(db.invitations[iid], messages) ==>
      OpenMessage(env.p, db.invitations[iid].inviteKey, m).Body?
  {
    var row := db.invitations[iid];
    assert CheckMessages(env.p, row.inviteKey, order).Passed?;
    PassedCheckOpensAll(env.p, row.inviteKey, order);
  }

  /** One new message failing the pattern or the signature check abandons
      the batch: with the intended corrupt-channel branch, the channel is
      unsubscribed and nothing is written (as written, see
      `RejectionRaisesAsWritten`). (A
      message that passes the pattern but is not even-length hex raises
      TypeError instead, so such messages are excluded here.) */
  lemma RejectionAbandons(env: Env, db: Db, iid: nat, messages: set<string>, order: seq<string>, bad: string)
    requires iid in db.invitations
    requires Enumerates(order, NewMessages(db.invitations[iid], messages))
    requires forall m :: m in NewMessages(db.invitations[iid], messages) ==>
      !OpenMessage(env.p, db.invitations[iid].inviteKey, m).Undecodable?
    requires bad in NewMessages(db.invitations[iid], messages)
    requires OpenMessage(env.p, db.invitations[iid].inviteKey, bad).Rejected?
    ensures Process(env, db, iid, messages, order).status == Abandoned
    ensures Process(env, db, iid, messages, order).db == db
    ensures Process(env, db, iid, messages, order).unsubscribed
  {
    var row := db.invitations[iid];
    var c := CheckMessages(env.p, row.inviteKey, order);
    assert bad in order;
    forall i | 0 <= i < |order|
      ensures !OpenMessage(env.p, row.inviteKey, order[i]).Undecodable?
    {
      assert order[i] in NewMessages(row, messages);
    }
    assert !c.Passed?;
  }

  /** `processMessages` exactly as written: as `Process`, except that the
      corrupt-channel branch raises the AttributeError of
      `AbandonPassAsWritten` instead of unsubscribing. */
  function ProcessAsWritten(env: Env, db: Db, iid: nat, messages: set<string>, order: seq<string>): (out: Outcome)
    requires iid in db.invitations ==> Enumerates(order, NewMessages(db.invitations[iid], messages))
    ensures Process(env, db, iid, messages, order).status != Abandoned ==> out == Process(env, db, iid, messages, order)
    ensures Process(env, db, iid, messages, order).status == Abandoned ==>
      && out.status.Raised? && out.status.failure.AttributeError?
      && out.db == db && out.sent == [] && !out.unsubscribed
      && out.resent == Process(env, db, iid, messages, order).resent
  {
    var out := Process(env, db, iid, messages, order);
    if out.status == Abandoned then AbandonPassAsWritten(out.db, out.resent) else out
  }

  /** As written, one new message failing the pattern or the signature
      check makes the pass raise AttributeError: nothing is written, and the
      rendezvous channel stays subscribed. */
  lemma RejectionRaisesAsWritten(env: Env, db: Db, iid: nat, messages: set<string>, order: seq<string>, bad: string)
    requires iid in db.invitations
    requires Enumerates(order, NewMessages(db.invitations[iid], messages))
    requires forall m :: m in NewMessages(db.invitations[iid], messages) ==>
      !OpenMessage(env.p, db.invitations[iid].inviteKey, m).Undecodable?
    requires bad in NewMessages(db.invitations[iid], messages)
    requires OpenMessage(env.p, db.invitations[iid].inviteKey, bad).Rejected?
    ensures ProcessAsWritten(env, db, iid, messages, order).status.Raised?
    ensures ProcessAsWritten(env, db, iid, messages, order).status.failure.AttributeError?
    ensures ProcessAsWritten(env, db, iid, messages, order).db == db
    ensures !ProcessAsWritten(env, db, iid, messages, order).unsubscribed
  {
    RejectionAbandons(env, db, iid, messages, order, bad);
  }

  // ---------------------------------------------------------------------
  // the stored-row invariant

  /** What every stored invitation row satisfies: its stage is consistent
      and both message lists hold only well-formed rendezvous messages. */
  ghost predicate RowOk(row: Row, book: map<nat, Contact>)
  {
    && StageOk(row, book)
    && (forall m :: m in row.my ==> IsStrictMessage(m))
    && (forall m :: m in row.theirs ==> IsStrictMessage(m))
  }

  /** Every row is good, ids are below the counters, and no two rows share
      an inviteID. */
  ghost predicate DbOk(db: Db)
  {
    && BookOk(db)
    && (forall iid :: iid in db.invitations ==> iid < db.nextInvitationId && RowOk(db.invitations[iid], db.addressbook))
    && (forall i, j :: (i in db.invitations && j in db.invitations
          && db.invitations[i].inviteID == db.invitations[j].inviteID) ==> i == j)
  }

  /** A stored row's message lists read back exactly: `",".join` in any
      iteration order followed by `splitMessages` is the identity. */
  lemma StoredListsRoundTrip(row: Row, book: map<nat, Contact>, mine: seq<string>, theirs: seq<string>)
    requires RowOk(row, book)
    requires Enumerates(mine, row.my) && Enumerates(theirs, row.theirs)
    ensures SplitMessages(Some(Join(mine, ','))) == row.my
    ensures SplitMessages(Some(Join(theirs, ','))) == row.theirs
  {
    forall i | 0 <= i < |mine|
      ensures mine[i] != "" && ',' !in mine[i]
    {
      StrictMessageIsStorable(mine[i]);
    }
    forall i | 0 <= i < |theirs|
      ensures theirs[i] != "" && ',' !in theirs[i]
    {
      StrictMessageIsStorable(theirs[i]);
    }
    PersistRoundTrip(mine);
    PersistRoundTrip(theirs);
  }

  /** Every pass keeps the invariant, whatever it does. */
  lemma ProcessPreservesOk(env: Env, db: Db, iid: nat, messages: set<string>, order: seq<string>)
    requires DbOk(db)
    requires iid in db.invitations ==> Enumerates(order, NewMessages(db.invitations[iid], messages))
    ensures DbOk(Process(env, db, iid, messages, order).db)
  {
    var out := Process(env, db, iid, messages, order);
    if out.status.Committed? {
      CommitMeansAllOpened(env, db, iid, messages, order);
      var row := db.invitations[iid];
      if iid in out.db.invitations {
        var row' := out.db.invitations[iid];
        forall m | m in row'.theirs
          ensures IsStrictMessage(m)
        {
          if m !in row.theirs {
            assert OpenMessage(env.p, row.inviteKey, m).Body?;
          }
        }
        assert RowOk(row', out.db.addressbook);
      }
      forall j | j in out.db.invitations
        ensures j < out.db.nextInvitationId && RowOk(out.db.invitations[j], out.db.addressbook)
      {
        if j != iid {
          assert RowOk(db.invitations[j], db.addressbook);
        }
      }
    }
  }

  // ---------------------------------------------------------------------
  // startInvitation

  /** The invitation's id: the hex verifying key of the stretched code. */
  function InviteID(p: Primitives, stretched: string): (r: string)
    ensures |r| == 64
  {
    HexEncode(p.verfOf(stretched))
  }

  datatype Started = Started(db: Db, iid: nat, sent: string, subscribed: string)

  /** `InvitationManager.startInvitation`: rejects a code whose inviteID is
      already in use with CommandError; otherwise inserts a row expecting
      message 1, subscribes to the inviteID, and sends (and records) the
      first message carrying our temporary public key. */
  function StartInvitation(env: Env, db: Db, petname: string, stretched: string, myTempPrivkey: string): (r: Result<Started, Failure>)
    ensures r.Err? <==> exists j :: j in db.invitations && db.invitations[j].inviteID == InviteID(env.p, stretched)
    ensures r.Err? ==> r.error.CommandError?
    ensures r.Ok? ==>
      && r.value.iid in r.value.db.invitations
      && var row := r.value.db.invitations[r.value.iid];
      && row.nextExpected == 1
      && row.my == {r.value.sent}
      && row.theirs == {}
      && row.inviteID == r.value.subscribed == InviteID(env.p, stretched)
      && OpenMessage(env.p, stretched, r.value.sent) == Body(M1Prefix + env.p.pubOf(myTempPrivkey))
    ensures r.Ok? ==> r.value.db.addressbook == db.addressbook
    ensures r.Ok? ==> forall j :: j in db.invitations && j != r.value.iid ==>
      j in r.value.db.invitations && r.value.db.invitations[j] == db.invitations[j]
    ensures r.Ok? ==> r.value.iid == db.nextInvitationId && r.value.db.nextInvitationId == db.nextInvitationId + 1
  {
    var inviteID := InviteID(env.p, stretched);
    if exists j :: j in db.invitations.Keys && db.invitations[j].inviteID == inviteID then
      Err(CommandError("invitation code already in use"))
    else
      var iid := db.nextInvitationId;
      var row := Row(petname, inviteID, stretched, myTempPrivkey, None, 1, {}, {}, None);
      var first := SignedMessage(env.p, stretched, M1Prefix + env.p.pubOf(myTempPrivkey));
      var db' := db.(invitations := db.invitations[iid := row.(my := {first})], nextInvitationId := iid + 1);
      Ok(Started(db', iid, first, inviteID))
  }

  /** Starting an invitation keeps the invariant, and its id is new. */
  lemma StartPreservesOk(env: Env, db: Db, petname: string, stretched: string, myTempPrivkey: string)
    requires DbOk(db)
    ensures var r := StartInvitation(env, db, petname, stretched, myTempPrivkey);
      r.Ok? ==> r.value.iid !in db.invitations && DbOk(r.value.db)
  {
    var r := StartInvitation(env, db, petname, stretched, myTempPrivkey);
    if r.Ok? {
      var db' := r.value.db;
      var iid := r.value.iid;
      assert RowOk(db'.invitations[iid], db'.addressbook);
      forall j | j in db'.invitations
        ensures j < db'.nextInvitationId && RowOk(db'.invitations[j], db'.addressbook)
      {
        if j != iid {
          assert RowOk(db.invitations[j], db.addressbook);
        }
      }
    }
  }

  // ---------------------------------------------------------------------
  // the rendezvous as the integration test drives it

  /** The three stage prefixes exclude one another. */
  lemma StagePrefixesExclusive(b: string)
    ensures HasPrefix(b, M1Prefix) ==> !HasPrefix(b, M2Prefix) && !HasPrefix(b, M3Prefix)
    ensures HasPrefix(b, M2Prefix) ==> !HasPrefix(b, M3Prefix)
  {
    if HasPrefix(b, M1Prefix) {
      assert b[4] == b[..6][4] == '1';
    }
    if HasPrefix(b, M2Prefix) {
      assert b[4] == b[..6][4] == '2';
    }
  }

  /** When every new message opens, the validation loop passes and the
      handlers see exactly the opened bodies. */
  lemma BodiesOfNewMessages(p: Primitives, inviteKey: string, order: seq<string>, unseen: set<string>)
    requires Elements(order) == unseen
    requires forall m :: m in unseen ==> OpenMessage(p, inviteKey, m).Body?
    ensures CheckMessages(p, inviteKey, order).Passed?
    ensures var bodies := CheckMessages(p, inviteKey, order).bodies;
      && (forall i :: 0 <= i < |bodies| ==> exists m :: m in unseen && bodies[i] == OpenMessage(p, inviteKey, m).body)
      && (forall m :: m in unseen ==> OpenMessage(p, inviteKey, m).body in bodies)
  {
    var bodies := CheckMessages(p, inviteKey, order).bodies;
    forall i | 0 <= i < |bodies|
      ensures exists m :: m in unseen && bodies[i] == OpenMessage(p, inviteKey, m).body
    {
      assert order[i] in unseen;
    }
    forall m | m in unseen
      ensures OpenMessage(p, inviteKey, m).body in bodies
    {
      var i :| 0 <= i < |order| && order[i] == m;
      assert bodies[i] == OpenMessage(p, inviteKey, m).body;
    }
  }

  /** Two new messages signed with the invitation key: the validation loop
      passes and the handlers see exactly their two bodies. */
  lemma TwoSignedBodies(p: Primitives, inviteKey: string, order: seq<string>, x: Bytes, y: Bytes)
    requires Elements(order) == {SignedMessage(p, inviteKey, x), SignedMessage(p, inviteKey, y)}
    ensures CheckMessages(p, inviteKey, order).Passed?
    ensures var bodies := CheckMessages(p, inviteKey, order).bodies;
      && x in bodies && y in bodies
      && forall j :: 0 <= j < |bodies| ==> bodies[j] == x || bodies[j] == y
  {
    var sx, sy := SignedMessage(p, inviteKey, x), SignedMessage(p, inviteKey, y);
    forall i | 0 <= i < |order|
      ensures OpenMessage(p, inviteKey, order[i]) == Body(x) || OpenMessage(p, inviteKey, order[i]) == Body(y)
    {
      assert order[i] in Elements(order);
    }
    var bodies := CheckMessages(p, inviteKey, order).bodies;
    var ix :| 0 <= ix < |order| && order[ix] == sx;
    var iy :| 0 <= iy < |order| && order[iy] == sy;
    assert bodies[ix] == x && bodies[iy] == y;
  }

  /** Polling again with nothing new writes nothing new and sends nothing
      (the counts stay as they were). */
  lemma RepollChangesNothing(env: Env, db: Db, iid: nat, messages: set<string>, order: seq<string>)
    requires iid in db.invitations
    requires messages <= db.invitations[iid].my + db.invitations[iid].theirs
    requires Enumerates(order, NewMessages(db.invitations[iid], messages))
    ensures var out := Process(env, db, iid, messages, order);
      out.status == Committed && out.db == db && out.sent == [] && !out.unsubscribed
  {
    var row := db.invitations[iid];
    assert NewMessages(row, messages) == {};
    EnumerationOfEmpty(order);
    var ps := Pass(iid, row, db, [], false, false);
    assert Advance(env, ps, []) == Step(ps, None);
    assert row.theirs + {} == row.theirs;
    assert row.(theirs := row.theirs + {}) == row;
  }

  /** Our first message, as `startInvitation` sends it. */
  function FirstMessage(env: Env, row: Row): string
  {
    SignedMessage(env.p, row.inviteKey, M1Prefix + env.p.pubOf(row.myTempPrivkey))
  }

  /** The pass of `FirstReplyScenario`, row by row. */
  lemma FirstReplyOutcome(env: Env, db: Db, iid: nat, k: Key32, messages: set<string>, order: seq<string>)
    requires iid in db.invitations
    requires db.invitations[iid].nextExpected == 1
    requires db.invitations[iid].my == {FirstMessage(env, db.invitations[iid])}
    requires db.invitations[iid].theirs == {}
    requires k != env.p.pubOf(db.invitations[iid].myTempPrivkey)
    requires messages == {FirstMessage(env, db.invitations[iid]),
                          SignedMessage(env.p, db.invitations[iid].inviteKey, M1Prefix + k)}
    requires Enumerates(order, NewMessages(db.invitations[iid], messages))
    ensures var out := Process(env, db, iid, messages, order);
      var row := db.invitations[iid];
      && out.status == Committed
      && iid in out.db.invitations
      && out.db.invitations[iid].my == {FirstMessage(env, row), SecondMessage(env, row, k)}
      && out.db.invitations[iid].theirs == NewMessages(row, messages)
      && out.db.invitations[iid].nextExpected == 2
  {
    var row := db.invitations[iid];
    var key := row.inviteKey;
    var peer := SignedMessage(env.p, key, M1Prefix + k);
    FirstPollNewMessages(env, row, k, messages);
    TwoSignedBodies(env.p, key, order, M1Prefix + k, M1Prefix + k);
    ProcessOfOpened(env, db, iid, messages, order);
    var bodies := CheckMessages(env.p, key, order).bodies;
    FirstReplyConclude(env, db, iid, NewMessages(row, messages), row.my - messages, bodies, k);
  }

  /** The second node's first poll: it finds the peer's first message next
      to its own, records its temporary key and answers with message 2; its
      counts go from (1, 0, 1) to (2, 1, 2). */
  lemma FirstReplyScenario(env: Env, db: Db, iid: nat, k: Key32, messages: set<string>, order: seq<string>)
    requires iid in db.invitations
    requires db.invitations[iid].nextExpected == 1
    requires db.invitations[iid].my == {FirstMessage(env, db.invitations[iid])}
    requires db.invitations[iid].theirs == {}
    requires k != env.p.pubOf(db.invitations[iid].myTempPrivkey)
    requires messages == {FirstMessage(env, db.invitations[iid]),
                          SignedMessage(env.p, db.invitations[iid].inviteKey, M1Prefix + k)}
    requires Enumerates(order, NewMessages(db.invitations[iid], messages))
    ensures var out := Process(env, db, iid, messages, order);
      && out.status == Committed
      && iid in out.db.invitations
      && |out.db.invitations[iid].my| == 2
      && |out.db.invitations[iid].theirs| == 1
      && out.db.invitations[iid].nextExpected == 2
  {
    var row := db.invitations[iid];
    FirstReplyOutcome(env, db, iid, k, messages, order);
    FirstPollNewMessages(env, row, k, messages);
    OwnMessagesDistinct(env, row, k);
    Card2(FirstMessage(env, row), SecondMessage(env, row, k));
  }

  /** The handlers' run and the write-back of `FirstReplyScenario`. */
  lemma FirstReplyConclude(env: Env, db: Db, iid: nat, unseen: set<string>, resent: set<string>,
                           bodies: seq<string>, k: Key32)
    requires iid in db.invitations && db.invitations[iid].nextExpected == 1
    requires db.invitations[iid].my == {FirstMessage(env, db.invitations[iid])}
    requires M1Prefix + k in bodies
    requires forall j :: 0 <= j < |bodies| ==> bodies[j] == M1Prefix + k
    ensures forall j :: 0 <= j < |bodies| ==> IsBytes(bodies[j])
    ensures var out := Conclude(env, db, iid, unseen, resent, bodies);
      var row := db.invitations[iid];
      && out.status == Committed
      && iid in out.db.invitations
      && out.db.invitations[iid].my == {FirstMessage(env, row), SecondMessage(env, row, k)}
      && out.db.invitations[iid].theirs == row.theirs + unseen
      && out.db.invitations[iid].nextExpected == 2
  {
    var row := db.invitations[iid];
    var ps := Pass(iid, row, db, [], false, false);
    forall j | 0 <= j < |bodies|
      ensures !HasPrefix(bodies[j], M2Prefix)
    {
      StagePrefixesExclusive(bodies[j]);
    }
    FirstWithPrefixUnique(bodies, M1Prefix, M1Prefix + k);
    var i := FirstWithPrefix(bodies, M1Prefix).value;
    assert bodies[i][|M1Prefix|..] == k;
    var s1 := FindPrefixAndCall(env, M1, ps, bodies);
    assert s1 == ProcessM1(env, ps, k);
    assert s1.ps.row.my == {FirstMessage(env, row), SecondMessage(env, row, k)};
    assert Advance(env, ps, bodies) == FindPrefixAndCall(env, M2, s1.ps, bodies) == Step(s1.ps, None);
  }

  /** Prefixed bodies with different stage prefixes, or the same prefix and
      different tails, have different wire forms. */
  lemma TailsDiffer(a: string, b: string, x: string, y: string)
    requires |a| == |b| && (a != b || x != y)
    ensures a + x != b + y
  {
    if a != b {
      assert (a + x)[..|a|] == a && (b + y)[..|b|] == b;
    } else {
      assert (a + x)[|a|..] == x && (b + y)[|b|..] == y;
    }
  }

  /** A pass in which every new message opens is the handlers' run over
      the opened bodies. */
  lemma ProcessOfOpened(env: Env, db: Db, iid: nat, messages: set<string>, order: seq<string>)
    requires iid in db.invitations
    requires Enumerates(order, NewMessages(db.invitations[iid], messages))
    requires forall m :: m in NewMessages(db.invitations[iid], messages) ==>
      OpenMessage(env.p, db.invitations[iid].inviteKey, m).Body?
    ensures CheckMessages(env.p, db.invitations[iid].inviteKey, order).Passed?
    ensures Process(env, db, iid, messages, order)
         == Conclude(env, db, iid, NewMessages(db.invitations[iid], messages), db.invitations[iid].my - messages,
                     CheckMessages(env.p, db.invitations[iid].inviteKey, order).bodies)
  {
    var row := db.invitations[iid];
    forall i | 0 <= i < |order|
      ensures OpenMessage(env.p, row.inviteKey, order[i]).Body?
    {
      assert order[i] in NewMessages(row, messages);
    }
  }

  /** Handlers over the bodies of the peer's messages 1 and 2: both are
      handled in one pass. */
  lemma FallThroughAdvance(env: Env, ps: Pass, bodies: seq<string>, k: Key32, c: Bytes)
    requires !ps.deleted && !ps.unsubscribed && ps.row.nextExpected == 1
    requires forall r :: env.decryptM2(r, c).Ok?
    requires M1Prefix + k in bodies && M2Prefix + c in bodies
    requires forall j :: 0 <= j < |bodies| ==> bodies[j] == M1Prefix + k || bodies[j] == M2Prefix + c
    ensures forall j :: 0 <= j < |bodies| ==> IsBytes(bodies[j])
    ensures var r := Advance(env, ps, bodies);
      var key := ps.row.inviteKey;
      && r.failure.None?
      && !r.ps.deleted
      && r.ps.row.nextExpected == 3
      && r.ps.row.my == ps.row.my + {SecondMessage(env, ps.row, k), AckMessage(env, ps.row)}
      && r.ps.db.addressbook.Keys == ps.db.addressbook.Keys + {ps.db.nextContactId}
      && r.ps.db.addressbook[ps.db.nextContactId].petname == ps.row.petname
      && !r.ps.db.addressbook[ps.db.nextContactId].acked
  {
    forall j | 0 <= j < |bodies|
      ensures IsBytes(bodies[j]) && !HasPrefix(bodies[j], M3Prefix)
      ensures HasPrefix(bodies[j], M1Prefix) ==> bodies[j] == M1Prefix + k
      ensures HasPrefix(bodies[j], M2Prefix) ==> bodies[j] == M2Prefix + c
    {
      StagePrefixesExclusive(bodies[j]);
    }
    FirstWithPrefixUnique(bodies, M1Prefix, M1Prefix + k);
    var i1 := FirstWithPrefix(bodies, M1Prefix).value;
    assert bodies[i1][|M1Prefix|..] == k;
    var s1 := FindPrefixAndCall(env, M1, ps, bodies);
    assert s1 == ProcessM1(env, ps, k);
    FirstWithPrefixUnique(bodies, M2Prefix, M2Prefix + c);
    var i2 := FirstWithPrefix(bodies, M2Prefix).value;
    assert bodies[i2][|M2Prefix|..] == c;
    var s2 := FindPrefixAndCall(env, M2, s1.ps, bodies);
    assert s2 == ProcessM2(env, s1.ps, c);
    assert FindPrefixAndCall(env, M3, s2.ps, bodies) == Step(s2.ps, None);
    assert Advance(env, ps, bodies) == Step(s2.ps, None);
  }

  /** The pass of `FallThroughScenario`, row by row. */
  lemma FallThroughOutcome(env: Env, db: Db, iid: nat, k: Key32, c: Bytes, messages: set<string>, order: seq<string>)
    requires iid in db.invitations
    requires db.invitations[iid].nextExpected == 1
    requires db.invitations[iid].my == {FirstMessage(env, db.invitations[iid])}
    requires db.invitations[iid].theirs == {}
    requires k != env.p.pubOf(db.invitations[iid].myTempPrivkey)
    requires forall r :: env.decryptM2(r, c).Ok?
    requires messages == {FirstMessage(env, db.invitations[iid]),
                          SignedMessage(env.p, db.invitations[iid].inviteKey, M1Prefix + k),
                          SignedMessage(env.p, db.invitations[iid].inviteKey, M2Prefix + c)}
    requires Enumerates(order, NewMessages(db.invitations[iid], messages))
    ensures var out := Process(env, db, iid, messages, order);
      var row := db.invitations[iid];
      && out.status == Committed
      && iid in out.db.invitations
      && out.db.invitations[iid].my == {FirstMessage(env, row), SecondMessage(env, row, k), AckMessage(env, row)}
      && out.db.invitations[iid].theirs == {SignedMessage(env.p, row.inviteKey, M1Prefix + k),
                                            SignedMessage(env.p, row.inviteKey, M2Prefix + c)}
      && out.db.invitations[iid].nextExpected == 3
      && out.db.addressbook.Keys == db.addressbook.Keys + {db.nextContactId}
      && out.db.addressbook[db.nextContactId].petname == row.petname
      && !out.db.addressbook[db.nextContactId].acked
  {
    var row := db.invitations[iid];
    var key := row.inviteKey;
    var peer1 := SignedMessage(env.p, key, M1Prefix + k);
    var peer2 := SignedMessage(env.p, key, M2Prefix + c);
    FirstReplyNewMessages(env, row, k, c, messages);
    TwoSignedBodies(env.p, key, order, M1Prefix + k, M2Prefix + c);
    ProcessOfOpened(env, db, iid, messages, order);
    var bodies := CheckMessages(env.p, key, order).bodies;
    FallThroughConclude(env, db, iid, NewMessages(row, messages), row.my - messages, bodies, k, c);
  }

  /** The new message of `FirstReplyScenario`: the peer's first. */
  lemma FirstPollNewMessages(env: Env, row: Row, k: Key32, messages: set<string>)
    requires k != env.p.pubOf(row.myTempPrivkey)
    requires row.my == {FirstMessage(env, row)} && row.theirs == {}
    requires messages == {FirstMessage(env, row), SignedMessage(env.p, row.inviteKey, M1Prefix + k)}
    ensures NewMessages(row, messages) == {SignedMessage(env.p, row.inviteKey, M1Prefix + k),
                                          SignedMessage(env.p, row.inviteKey, M1Prefix + k)}
  {
    var pub := env.p.pubOf(row.myTempPrivkey);
    var peer := SignedMessage(env.p, row.inviteKey, M1Prefix + k);
    TailsDiffer(M1Prefix, M1Prefix, pub, k);
    SignedMessageInjective(env.p, row.inviteKey, M1Prefix + pub, M1Prefix + k);
    DropFirst(FirstMessage(env, row), peer, peer);
  }

  /** The new messages of `FallThroughScenario`: the peer's two. */
  lemma FirstReplyNewMessages(env: Env, row: Row, k: Key32, c: Bytes, messages: set<string>)
    requires k != env.p.pubOf(row.myTempPrivkey)
    requires row.my == {FirstMessage(env, row)} && row.theirs == {}
    requires messages == {FirstMessage(env, row),
                          SignedMessage(env.p, row.inviteKey, M1Prefix + k),
                          SignedMessage(env.p, row.inviteKey, M2Prefix + c)}
    ensures NewMessages(row, messages) == {SignedMessage(env.p, row.inviteKey, M1Prefix + k),
                                          SignedMessage(env.p, row.inviteKey, M2Prefix + c)}
  {
    var key := row.inviteKey;
    var pub := env.p.pubOf(row.myTempPrivkey);
    var peer1 := SignedMessage(env.p, key, M1Prefix + k);
    var peer2 := SignedMessage(env.p, key, M2Prefix + c);
    var mine := FirstMessage(env, row);
    TailsDiffer(M1Prefix, M1Prefix, pub, k);
    SignedMessageInjective(env.p, key, M1Prefix + pub, M1Prefix + k);
    StageMessagesDistinct(env.p, key, pub, c, "");
    StageMessagesDistinct(env.p, key, k, c, "");
    DropFirst(mine, peer1, peer2);
  }

  /** The handlers' run and the write-back of `FallThroughScenario`. */
  lemma FallThroughConclude(env: Env, db: Db, iid: nat, unseen: set<string>, resent: set<string>,
                            bodies: seq<string>, k: Key32, c: Bytes)
    requires iid in db.invitations && db.invitations[iid].nextExpected == 1
    requires db.invitations[iid].my == {FirstMessage(env, db.invitations[iid])}
    requires forall r :: env.decryptM2(r, c).Ok?
    requires M1Prefix + k in bodies && M2Prefix + c in bodies
    requires forall j :: 0 <= j < |bodies| ==> bodies[j] == M1Prefix + k || bodies[j] == M2Prefix + c
    ensures forall j :: 0 <= j < |bodies| ==> IsBytes(bodies[j])
    ensures var out := Conclude(env, db, iid, unseen, resent, bodies);
      var row := db.invitations[iid];
      && out.status == Committed
      && iid in out.db.invitations
      && out.db.invitations[iid].my == {FirstMessage(env, row), SecondMessage(env, row, k), AckMessage(env, row)}
      && out.db.invitations[iid].theirs == row.theirs + unseen
      && out.db.invitations[iid].nextExpected == 3
      && out.db.addressbook.Keys == db.addressbook.Keys + {db.nextContactId}
      && out.db.addressbook[db.nextContactId].petname == row.petname
      && !out.db.addressbook[db.nextContactId].acked
  {
    var row := db.invitations[iid];
    var ps := Pass(iid, row, db, [], false, false);
    FallThroughAdvance(env, ps, bodies, k, c);
    assert row.my + {SecondMessage(env, row, k), AckMessage(env, row)}
        == {FirstMessage(env, row), SecondMessage(env, row, k), AckMessage(env, row)};
  }

  /** The first node's second poll: the peer's messages 1 and 2 arrive
      together; without `elif` both are handled in one pass, an unacknowledged
      addressbook entry appears, messages 2 and 3 go out, and the counts go
      from (1, 0, 1) to (3, 2, 3). */
  lemma FallThroughScenario(env: Env, db: Db, iid: nat, k: Key32, c: Bytes, messages: set<string>, order: seq<string>)
    requires iid in db.invitations
    requires db.invitations[iid].nextExpected == 1
    requires db.invitations[iid].my == {FirstMessage(env, db.invitations[iid])}
    requires db.invitations[iid].theirs == {}
    requires k != env.p.pubOf(db.invitations[iid].myTempPrivkey)
    requires forall r :: env.decryptM2(r, c).Ok?
    requires messages == {FirstMessage(env, db.invitations[iid]),
                          SignedMessage(env.p, db.invitations[iid].inviteKey, M1Prefix + k),
                          SignedMessage(env.p, db.invitations[iid].inviteKey, M2Prefix + c)}
    requires Enumerates(order, NewMessages(db.invitations[iid], messages))
    ensures var out := Process(env, db, iid, messages, order);
      && out.status == Committed
      && iid in out.db.invitations
      && |out.db.invitations[iid].my| == 3
      && |out.db.invitations[iid].theirs| == 2
      && out.db.invitations[iid].nextExpected == 3
      && out.db.addressbook.Keys == db.addressbook.Keys + {db.nextContactId}
      && !out.db.addressbook[db.nextContactId].acked
  {
    FallThroughOutcome(env, db, iid, k, c, messages, order);
    FallThroughCounts(env, db.invitations[iid], k, c, Process(env, db, iid, messages, order).db.invitations[iid]);
  }

  /** The row `FallThroughOutcome` writes holds three messages of ours and
      two of the peer's. */
  lemma FallThroughCounts(env: Env, row: Row, k: Key32, c: Bytes, row': Row)
    requires row'.my == {FirstMessage(env, row), SecondMessage(env, row, k), AckMessage(env, row)}
    requires row'.theirs == {SignedMessage(env.p, row.inviteKey, M1Prefix + k),
                             SignedMessage(env.p, row.inviteKey, M2Prefix + c)}
    ensures |row'.my| == 3 && |row'.theirs| == 2
  {
    OwnMessagesDistinct(env, row, k);
    StageMessagesDistinct(env.p, row.inviteKey, k, c, "");
    Card3(FirstMessage(env, row), SecondMessage(env, row, k), AckMessage(env, row));
    Card2(SignedMessage(env.p, row.inviteKey, M1Prefix + k), SignedMessage(env.p, row.inviteKey, M2Prefix + c));
  }

  lemma Card2<T>(a: T, b: T)
    requires a != b
    ensures |{a, b}| == 2
  {
  }

  lemma Card3<T>(a: T, b: T, c: T)
    requires a != b && a != c && b != c
    ensures |{a, b, c}| == 3
  {
  }

  lemma DropFirst<T>(a: T, b: T, c: T)
    requires a != b && a != c
    ensures {a, b, c} - {a} - {} == {b, c}
  {
  }

  /** Our three messages are three different strings. */
  lemma OwnMessagesDistinct(env: Env, row: Row, k: Key32)
    ensures FirstMessage(env, row) != SecondMessage(env, row, k)
    ensures FirstMessage(env, row) != AckMessage(env, row)
    ensures SecondMessage(env, row, k) != AckMessage(env, row)
  {
    var tail3 := AckPrefix + env.ackNonce;
    assert M3Prefix + AckPrefix + env.ackNonce == M3Prefix + tail3;
    PrefixesAreBytes();
    BytesConcat(AckPrefix, env.ackNonce);
    StageMessagesDistinct(env.p, row.inviteKey, env.p.pubOf(row.myTempPrivkey),
                          env.encryptM2(row.(theirTempPubkey := Some(k)), k), tail3);
  }

  /** Messages of different stages have different wire forms. */
  lemma StageMessagesDistinct(p: Primitives, key: string, x: Bytes, y: Bytes, z: Bytes)
    ensures SignedMessage(p, key, M1Prefix + x) != SignedMessage(p, key, M2Prefix + y)
    ensures SignedMessage(p, key, M1Prefix + x) != SignedMessage(p, key, M3Prefix + z)
    ensures SignedMessage(p, key, M2Prefix + y) != SignedMessage(p, key, M3Prefix + z)
  {
    PrefixesAreBytes();
    BytesConcat(M1Prefix, x);
    BytesConcat(M2Prefix, y);
    BytesConcat(M3Prefix, z);
    TailsDiffer(M1Prefix, M2Prefix, x, y);
    TailsDiffer(M1Prefix, M3Prefix, x, z);
    TailsDiffer(M2Prefix, M3Prefix, y, z);
    SignedMessageInjective(p, key, M1Prefix + x, M2Prefix + y);
    SignedMessageInjective(p, key, M1Prefix + x, M3Prefix + z);
    SignedMessageInjective(p, key, M2Prefix + y, M3Prefix + z);
  }

  /** Handlers over the bodies of the peer's messages 2 and 3: the entry is
      added, acknowledged, and the invitation deleted, in one pass. */
  lemma AckAdvance(env: Env, ps: Pass, bodies: seq<string>, c: Bytes, nonce: Bytes)
    requires !ps.deleted && !ps.unsubscribed && ps.row.nextExpected == 2
    requires ps.row.theirTempPubkey.Some?
    requires forall r :: env.decryptM2(r, c).Ok?
    requires M2Prefix + c in bodies && M3Prefix + AckPrefix + nonce in bodies
    requires forall j :: 0 <= j < |bodies| ==> bodies[j] == M2Prefix + c || bodies[j] == M3Prefix + AckPrefix + nonce
    ensures forall j :: 0 <= j < |bodies| ==> IsBytes(bodies[j])
    ensures var r := Advance(env, ps, bodies);
      && r.failure.None?
      && r.ps.deleted && r.ps.unsubscribed
      && |r.ps.sent| == |ps.sent| + 2
      && ps.db.nextContactId in r.ps.db.addressbook
      && r.ps.db.addressbook[ps.db.nextContactId].acked
  {
    assert M3Prefix + AckPrefix + nonce == M3Prefix + (AckPrefix + nonce);
    forall j | 0 <= j < |bodies|
      ensures IsBytes(bodies[j])
      ensures HasPrefix(bodies[j], M2Prefix) ==> bodies[j] == M2Prefix + c
      ensures HasPrefix(bodies[j], M3Prefix) ==> bodies[j] == M3Prefix + AckPrefix + nonce
    {
      StagePrefixesExclusive(bodies[j]);
    }
    FirstWithPrefixUnique(bodies, M2Prefix, M2Prefix + c);
    var i2 := FirstWithPrefix(bodies, M2Prefix).value;
    assert bodies[i2][|M2Prefix|..] == c;
    var s2 := FindPrefixAndCall(env, M2, ps, bodies);
    assert s2 == ProcessM2(env, ps, c);
    FirstWithPrefixUnique(bodies, M3Prefix, M3Prefix + AckPrefix + nonce);
    var i3 := FirstWithPrefix(bodies, M3Prefix).value;
    assert bodies[i3][|M3Prefix|..] == AckPrefix + nonce;
    var s3 := FindPrefixAndCall(env, M3, s2.ps, bodies);
    assert s3 == ProcessM3(env, s2.ps, AckPrefix + nonce);
  }

  /** The second node's last poll: the peer's messages 2 and 3 (the ACK)
      arrive together; the pass adds the addressbook entry, sees the ACK,
      marks the entry acknowledged, deletes the invitation and unsubscribes. */
  lemma AckScenario(env: Env, db: Db, iid: nat, c: Bytes, nonce: Bytes, messages: set<string>, order: seq<string>)
    requires iid in db.invitations
    requires db.invitations[iid].nextExpected == 2
    requires db.invitations[iid].theirTempPubkey.Some?
    requires forall r :: env.decryptM2(r, c).Ok?
    requires var row := db.invitations[iid];
      && SignedMessage(env.p, row.inviteKey, M2Prefix + c) !in row.my + row.theirs
      && SignedMessage(env.p, row.inviteKey, M3Prefix + AckPrefix + nonce) !in row.my + row.theirs
    requires messages == db.invitations[iid].my + db.invitations[iid].theirs
      + {SignedMessage(env.p, db.invitations[iid].inviteKey, M2Prefix + c),
         SignedMessage(env.p, db.invitations[iid].inviteKey, M3Prefix + AckPrefix + nonce)}
    requires Enumerates(order, NewMessages(db.invitations[iid], messages))
    ensures var out := Process(env, db, iid, messages, order);
      && out.status == Committed
      && iid !in out.db.invitations
      && out.unsubscribed
      && |out.sent| == 2
      && db.nextContactId in out.db.addressbook
      && out.db.addressbook[db.nextContactId].acked
  {
    var row := db.invitations[iid];
    var key := row.inviteKey;
    var a2 := SignedMessage(env.p, key, M2Prefix + c);
    var a3 := SignedMessage(env.p, key, M3Prefix + AckPrefix + nonce);
    assert NewMessages(row, messages) == {a2, a3};
    TwoSignedBodies(env.p, key, order, M2Prefix + c, M3Prefix + AckPrefix + nonce);
    ProcessOfOpened(env, db, iid, messages, order);
    var bodies := CheckMessages(env.p, key, order).bodies;
    var ps := Pass(iid, row, db, [], false, false);
    AckAdvance(env, ps, bodies, c, nonce);
    var st := Advance(env, ps, bodies);
    assert Process(env, db, iid, messages, order) == Outcome(st.ps.db, row.my - messages, st.ps.sent, true, Committed);
  }

  /** Handlers over the bodies of the peer's message 2 and a message 3 that
      is not an ACK: `processM2` runs to completion, then `processM3` raises
      ValueError before writing anything. */
  lemma BadAckAdvance(env: Env, ps: Pass, bodies: seq<string>, c: Bytes, tail: Bytes)
    requires !ps.deleted && !ps.unsubscribed && ps.row.nextExpected == 2
    requires ps.row.theirTempPubkey.Some?
    requires forall r :: env.decryptM2(r, c).Ok?
    requires !HasPrefix(tail, AckPrefix)
    requires M2Prefix + c in bodies && M3Prefix + tail in bodies
    requires forall j :: 0 <= j < |bodies| ==> bodies[j] == M2Prefix + c || bodies[j] == M3Prefix + tail
    ensures forall j :: 0 <= j < |bodies| ==> IsBytes(bodies[j])
    ensures var r := Advance(env, ps, bodies);
      && r.failure.Some? && r.failure.value.ValueError?
      && r.ps == ProcessM2(env, ps, c).ps
  {
    PrefixesAreBytes();
    BytesConcat(M2Prefix, c);
    BytesConcat(M3Prefix, tail);
    forall j | 0 <= j < |bodies|
      ensures IsBytes(bodies[j])
      ensures HasPrefix(bodies[j], M2Prefix) ==> bodies[j] == M2Prefix + c
      ensures HasPrefix(bodies[j], M3Prefix) ==> bodies[j] == M3Prefix + tail
    {
      StagePrefixesExclusive(bodies[j]);
    }
    FirstWithPrefixUnique(bodies, M2Prefix, M2Prefix + c);
    var i2 := FirstWithPrefix(bodies, M2Prefix).value;
    assert bodies[i2][|M2Prefix|..] == c;
    var s2 := FindPrefixAndCall(env, M2, ps, bodies);
    assert s2 == ProcessM2(env, ps, c);
    FirstWithPrefixUnique(bodies, M3Prefix, M3Prefix + tail);
    var i3 := FirstWithPrefix(bodies, M3Prefix).value;
    assert bodies[i3][|M3Prefix|..] == tail;
    var s3 := FindPrefixAndCall(env, M3, s2.ps, bodies);
    assert s3 == ProcessM3(env, s2.ps, tail);
  }

  /** The peer's message 2 arrives with a message 3 that is not an ACK.
      `processM2` inserts the addressbook entry and records its id in the
      row; then `processM3` raises, so the row's message lists and counter
      are not written back and nothing is committed. The insert stays
      pending on the connection, the next commit persists it, and the row
      still expects message 2 with the peer's messages unseen. */
  lemma BadAckScenario(env: Env, db: Db, iid: nat, c: Bytes, tail: Bytes, messages: set<string>, order: seq<string>)
    requires iid in db.invitations
    requires db.invitations[iid].nextExpected == 2
    requires db.invitations[iid].theirTempPubkey.Some?
    requires forall r :: env.decryptM2(r, c).Ok?
    requires !HasPrefix(tail, AckPrefix)
    requires var row := db.invitations[iid];
      && SignedMessage(env.p, row.inviteKey, M2Prefix + c) !in row.my + row.theirs
      && SignedMessage(env.p, row.inviteKey, M3Prefix + tail) !in row.my + row.theirs
    requires messages == db.invitations[iid].my + db.invitations[iid].theirs
      + {SignedMessage(env.p, db.invitations[iid].inviteKey, M2Prefix + c),
         SignedMessage(env.p, db.invitations[iid].inviteKey, M3Prefix + tail)}
    requires Enumerates(order, NewMessages(db.invitations[iid], messages))
    ensures var out := Process(env, db, iid, messages, order);
      var row := db.invitations[iid];
      && out.status.Raised? && out.status.failure.ValueError?
      && out.sent == [AckMessage(env, row)]
      && out.db.addressbook == db.addressbook[db.nextContactId := Contact(row.petname, false, env.decryptM2(row, c).value)]
      && out.db.nextContactId == db.nextContactId + 1
      && iid in out.db.invitations
      && out.db.invitations[iid] == row.(addressbookId := Some(db.nextContactId))
  {
    var row := db.invitations[iid];
    var key := row.inviteKey;
    PrefixesAreBytes();
    BytesConcat(M2Prefix, c);
    BytesConcat(M3Prefix, tail);
    var a2 := SignedMessage(env.p, key, M2Prefix + c);
    var a3 := SignedMessage(env.p, key, M3Prefix + tail);
    assert NewMessages(row, messages) == {a2, a3};
    TwoSignedBodies(env.p, key, order, M2Prefix + c, M3Prefix + tail);
    ProcessOfOpened(env, db, iid, messages, order);
    var bodies := CheckMessages(env.p, key, order).bodies;
    var ps := Pass(iid, row, db, [], false, false);
    BadAckAdvance(env, ps, bodies, c, tail);
    var st := Advance(env, ps, bodies);
    assert Process(env, db, iid, messages, order) == Outcome(st.ps.db, row.my - messages, st.ps.sent, false, Raised(st.failure.value));
  }
}
