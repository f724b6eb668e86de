/** The channel layer of the mailbox protocol: how an addressbook peer's
    message is framed as a msgC and how an inbound msgC is taken apart,
    decrypted with one of two channel keys and authenticated.

    Layout (the module header of `channel.py` and `OutboundChannel.send`):
      msgC = "c0:" ++ CIDToken(32) ++ netstring(CIDBox) ++ msgD
      msgD = pubkey2(32) ++ Box(privkey2 -> channel key, msgE)
      msgE = seqnum(8, big-endian) ++ netstring(sign("ce0:" ++ pubkey2)) ++ payload

    The inbound half of the file parses a different layout from the one the
    outbound half writes. Both are modelled: `MsgCReceived` and
    `MsgC2Received` follow the inbound code, `Receive` follows the layout
    above, and the lemmas near the end show where the two disagree. */
module Channel {
  import opened Common
  import opened Text
  import opened Crypto
  import opened Framing

  const CPrefix: string := "c0:"
  /** Length of a CIDToken: the HKDF output length. */
  const TokenWidth: nat := 32
  /** Length of a Curve25519 public key. */
  const PubkeyWidth: nat := 32
  /** What the sender signs in front of pubkey2. */
  const AuthPrefix: string := "ce0:"

  /** The addressbook columns the channel code reads and writes. */
  datatype Entry = Entry(
    id: int,
    myPrivateCID: string,
    theirVerfkeyHex: string,
    myOldChannelPrivkeyHex: string,
    myNewChannelPrivkeyHex: string,
    theyUsedNewChannelKey: bool,
    nextOutboundSeqnum: int,
    mySignkeyHex: string,
    theirChannelPubkeyHex: string,
    theirCIDKeyHex: string)

  /** The addressbook table in row order. */
  type Addressbook = seq<Entry>

  /** The derivations other than Box and signing, as abstract functions. */
  datatype Derivations = Derivations(
    /** `rrid.decrypt(CID_privkey, MCID)` with the manager's fixed key */
    ridDecrypt: string -> string,
    /** `HKDF(IKM, dkLen=32, info="petmail.org/v1/CIDToken")` */
    cidToken: string -> Key32,
    /** `SecretBox(key).encrypt(m, nonce)`, the random nonce folded in */
    secretSeal: (Key32, string) -> string,
    /** `sha256(m).digest()` */
    digest: string -> Key32)

  /** `PrivateKey(h.decode("hex"))`, `VerifyKey(...)`, `SigningKey(...)`,
      `PublicKey(...)` and `SecretBox(...)` alike: TypeError when `h` is not
      hexadecimal, ValueError when the key is not 32 bytes long. */
  function DecodeKey(h: string): (r: Result<Key32, Failure>)
    ensures r.Ok? <==> HexDecode(h).Some? && |HexDecode(h).value| == 32
    ensures r.Ok? ==> HexDecode(h) == Some(r.value)
    ensures r.Err? ==> (r.error.TypeError? <==> HexDecode(h).None?)
    ensures r.Err? ==> r.error.TypeError? || r.error.ValueError?
  {
    match HexDecode(h)
    case None => Err(TypeError("Non-hexadecimal digit found"))
    case Some(b) =>
      if |b| == 32 then Ok(b) else Err(ValueError("The key must be exactly 32 bytes long"))
  }

  /** A key written with `.encode("hex")` reads back. */
  lemma DecodeEncodedKey(k: Key32)
    ensures DecodeKey(HexEncode(k)) == Ok(k)
  {
  }

  // ---------------------------------------------------------------------
  // the inbound code: msgC_received, lookup, InboundChannel

  datatype Inbound = Inbound(mcid: string, pubkey2: string, enc: string)

  /** `msgC_received`'s split: ValueError unless the message starts with
      "c0:"; then `split_into` at the prefix, a `tokenLength`-byte MCID and a
      32-byte pubkey2, the rest being the ciphertext (ValueError from
      `split_into` when the message is too short). `tokenLength` is
      `rrid.TOKEN_LENGTH`. */
  function MsgCReceived(msgC: string, tokenLength: nat): (r: Result<Inbound, Failure>)
    ensures r.Ok? <==> HasPrefix(msgC, CPrefix) && |CPrefix| + tokenLength + PubkeyWidth <= |msgC|
    ensures r.Err? ==> r.error.ValueError?
    ensures r.Ok? ==> |r.value.mcid| == tokenLength && |r.value.pubkey2| == PubkeyWidth
    ensures r.Ok? ==> msgC == CPrefix + r.value.mcid + r.value.pubkey2 + r.value.enc
  {
    if !HasPrefix(msgC, CPrefix) then Err(ValueError("msgC doesn't start with 'c0:'"))
    else
      Sum3(|CPrefix|, tokenLength, PubkeyWidth);
      match SplitInto(msgC, [|CPrefix|, tokenLength, PubkeyWidth], true)
      case Err(e) => Err(e)
      case Ok(parts) =>
        Concat4(parts);
        assert parts[0] == msgC[..|CPrefix|] == CPrefix;
        Ok(Inbound(parts[1], parts[2], parts[3]))
  }

  /** The first row whose `my_private_CID` is `cid`. */
  function FindCID(book: Addressbook, cid: string): (r: Option<nat>)
    ensures r.Some? ==> r.value < |book| && book[r.value].myPrivateCID == cid
    ensures r.Some? ==> forall j :: 0 <= j < r.value ==> book[j].myPrivateCID != cid
    ensures r.None? ==> forall j :: 0 <= j < |book| ==> book[j].myPrivateCID != cid
  {
    if |book| == 0 then None
    else if book[0].myPrivateCID == cid then Some(0)
    else
      match FindCID(book[1..], cid)
      case None => None
      case Some(j) => Some(j + 1)
  }

  /** `lookup` as written: SilentError for an unknown CID, and a TypeError
      for every known one, because it builds the inbound channel with two
      arguments where the constructor takes three. */
  function LookupAsWritten(d: Derivations, book: Addressbook, mcid: string): (r: Result<int, Failure>)
    ensures r.Err?
    ensures r.error.SilentError? <==> !exists j :: 0 <= j < |book| && book[j].myPrivateCID == d.ridDecrypt(mcid)
  {
    match FindCID(book, d.ridDecrypt(mcid))
    case None => Err(SilentError("unknown CID"))
    case Some(j) => Err(TypeError("__init__() takes exactly 4 arguments (3 given)"))
  }

  /** `lookup` as intended: the addressbook id of the first row holding
      the CID the MCID decrypts to, which the inbound channel is built
      from; SilentError for an unknown CID. */
  function Lookup(d: Derivations, book: Addressbook, mcid: string): (r: Result<int, Failure>)
    ensures r.Ok? <==> exists j :: 0 <= j < |book| && book[j].myPrivateCID == d.ridDecrypt(mcid)
    ensures r.Ok? ==> exists j :: 0 <= j < |book| && book[j].myPrivateCID == d.ridDecrypt(mcid)
                                   && book[j].id == r.value
                                   && forall i :: 0 <= i < j ==> book[i].myPrivateCID != d.ridDecrypt(mcid)
    ensures r.Err? ==> r.error == SilentError("unknown CID")
  {
    match FindCID(book, d.ridDecrypt(mcid))
    case None => Err(SilentError("unknown CID"))
    case Some(j) => Ok(book[j].id)
  }

  /** The channel that lookup fails on: one row whose CID matches. */
  lemma LookupAsWrittenFailsOnKnownCID(d: Derivations, e: Entry, mcid: string)
    requires e.myPrivateCID == d.ridDecrypt(mcid)
    ensures LookupAsWritten(d, [e], mcid).error.TypeError?
    ensures Lookup(d, [e], mcid) == Ok(e.id)
  {
    assert [e][0] == e;
  }

  /** The three keys an inbound channel holds. */
  datatype Keys = Keys(newKey: Key32, oldKey: Key32, verfkey: Key32)

  /** The constructor as written: the new-key slot is filled from the
      old-key column and the old-key slot from the new-key column. */
  function LoadKeysAsWritten(e: Entry): (r: Result<Keys, Failure>)
    ensures r.Ok? ==> HexDecode(e.myOldChannelPrivkeyHex) == Some(r.value.newKey)
    ensures r.Ok? ==> HexDecode(e.myNewChannelPrivkeyHex) == Some(r.value.oldKey)
    ensures r.Ok? ==> HexDecode(e.theirVerfkeyHex) == Some(r.value.verfkey)
  {
    match DecodeKey(e.myOldChannelPrivkeyHex)
    case Err(x) => Err(x)
    case Ok(n) =>
      match DecodeKey(e.myNewChannelPrivkeyHex)
      case Err(x) => Err(x)
      case Ok(o) =>
        match DecodeKey(e.theirVerfkeyHex)
        case Err(x) => Err(x)
        case Ok(v) => Ok(Keys(n, o, v))
  }

  /** The constructor as intended: each key from its own column; TypeError
      or ValueError from the first column that does not hold a 32-byte
      hexadecimal key. */
  function LoadKeys(e: Entry): (r: Result<Keys, Failure>)
    ensures r.Ok? <==> DecodeKey(e.myNewChannelPrivkeyHex).Ok? && DecodeKey(e.myOldChannelPrivkeyHex).Ok?
                        && DecodeKey(e.theirVerfkeyHex).Ok?
    ensures r.Ok? ==> HexDecode(e.myNewChannelPrivkeyHex) == Some(r.value.newKey)
    ensures r.Ok? ==> HexDecode(e.myOldChannelPrivkeyHex) == Some(r.value.oldKey)
    ensures r.Ok? ==> HexDecode(e.theirVerfkeyHex) == Some(r.value.verfkey)
    ensures r.Err? ==> r.error.TypeError? || r.error.ValueError?
  {
    match DecodeKey(e.myNewChannelPrivkeyHex)
    case Err(x) => Err(x)
    case Ok(n) =>
      match DecodeKey(e.myOldChannelPrivkeyHex)
      case Err(x) => Err(x)
      case Ok(o) =>
        match DecodeKey(e.theirVerfkeyHex)
        case Err(x) => Err(x)
        case Ok(v) => Ok(Keys(n, o, v))
  }

  /** The two constructors load the same keys, with the channel keys
      exchanged. */
  lemma LoadKeysAsWrittenSwaps(e: Entry)
    ensures LoadKeysAsWritten(e).Ok? <==> LoadKeys(e).Ok?
    ensures LoadKeys(e).Ok? ==>
      var k := LoadKeys(e).value;
      LoadKeysAsWritten(e).value == Keys(k.oldKey, k.newKey, k.verfkey)
  {
  }

  datatype Opened = Opened(plain: string, usedNew: bool)

  /** The key fallback of `msgC2_received`: open the box with the new
      channel key, and only if that fails with the old one; `usedNew` is set
      exactly when the new key worked; SilentError when neither does. */
  function DecryptEither(p: Primitives, k: Keys, pubkey2: string, enc: string): (r: Result<Opened, Failure>)
    ensures r.Ok? <==> p.boxOpen(k.newKey, pubkey2, enc).Some? || p.boxOpen(k.oldKey, pubkey2, enc).Some?
    ensures r.Ok? ==> (r.value.usedNew <==> p.boxOpen(k.newKey, pubkey2, enc).Some?)
    ensures r.Ok? ==> Some(r.value.plain) == p.boxOpen(if r.value.usedNew then k.newKey else k.oldKey, pubkey2, enc)
    ensures r.Err? ==> r.error == SilentError("neither channel key worked")
  {
    match p.boxOpen(k.newKey, pubkey2, enc)
    case Some(m) => Ok(Opened(m, true))
    case None =>
      match p.boxOpen(k.oldKey, pubkey2, enc)
      case Some(m) => Ok(Opened(m, false))
      case None => Err(SilentError("neither channel key worked"))
  }

  /** A box sealed to the new channel key opens, and is reported as such. */
  lemma DecryptSealedToNewKey(p: Primitives, k: Keys, privkey2: string, m: string)
    requires BoxPairSound(p)
    ensures DecryptEither(p, k, p.pubOf(privkey2), p.boxSeal(privkey2, p.pubOf(k.newKey), m)) == Ok(Opened(m, true))
  {
    var b: string := k.newKey;
    assert p.boxOpen(b, p.pubOf(privkey2), p.boxSeal(privkey2, p.pubOf(b), m)) == Some(m);
  }

  /** A box sealed to the old channel key that the new key cannot open
      still opens, and is reported as not using the new key. */
  lemma DecryptSealedToOldKey(p: Primitives, k: Keys, privkey2: string, m: string)
    requires BoxPairSound(p)
    requires p.boxOpen(k.newKey, p.pubOf(privkey2), p.boxSeal(privkey2, p.pubOf(k.oldKey), m)).None?
    ensures DecryptEither(p, k, p.pubOf(privkey2), p.boxSeal(privkey2, p.pubOf(k.oldKey), m)) == Ok(Opened(m, false))
  {
    var b: string := k.oldKey;
    assert p.boxOpen(b, p.pubOf(privkey2), p.boxSeal(privkey2, p.pubOf(b), m)) == Some(m);
  }

  /** With the keys exchanged as written, a box only the new key opens is
      recorded as not using the new key, and a box only the old key opens
      as using it. */
  lemma SwappedKeysMisreport(p: Primitives, e: Entry, pubkey2: string, enc: string)
    requires LoadKeys(e).Ok?
    requires p.boxOpen(LoadKeys(e).value.newKey, pubkey2, enc).Some?
    requires p.boxOpen(LoadKeys(e).value.oldKey, pubkey2, enc).None?
    ensures DecryptEither(p, LoadKeys(e).value, pubkey2, enc).value.usedNew
    ensures !DecryptEither(p, LoadKeysAsWritten(e).value, pubkey2, enc).value.usedNew
  {
    LoadKeysAsWrittenSwaps(e);
  }

  /** `UPDATE addressbook SET they_used_new_channel_key=1 WHERE id=?`. */
  function MarkUsedNew(book: Addressbook, id: int): (r: Addressbook)
    ensures |r| == |book|
    ensures forall j :: 0 <= j < |r| ==> r[j] == if book[j].id == id then book[j].(theyUsedNewChannelKey := true) else book[j]
  {
    if |book| == 0 then []
    else
      var e := book[0];
      [if e.id == id then e.(theyUsedNewChannelKey := true) else e] + MarkUsedNew(book[1..], id)
  }

  /** The signed-part parse as written: after the header check, `split_into`
      is called without the string to split, a TypeError. */
  function ParseSignedPartAsWritten(msgD: string): (r: Result<(string, string), Failure>)
    ensures r.Err?
    ensures r.error.SilentError? <==> ParseNetstring(msgD) == Err(SilentError("msgD lacks a netstring header"))
  {
    var k := DigitRun(msgD);
    if k == 0 || k == |msgD| || msgD[k] != ':' then Err(SilentError("msgD lacks a netstring header"))
    else
      assert ParseNetstring(msgD) != Err(SilentError("msgD lacks a netstring header"));
      Err(TypeError("split_into() takes at least 2 arguments (2 given)"))
  }

  /** Every well-framed signed part makes the parse as written fail, while
      the intended parse recovers it. */
  lemma ParseSignedPartAsWrittenFails(sm: string, body: string)
    ensures ParseSignedPartAsWritten(Netstring(sm) + body).error.TypeError?
    ensures ParseNetstring(Netstring(sm) + body) == Ok((sm, body))
  {
    NetstringRoundTrip(sm, body);
  }

  /** `verify` then `equal`: BadSignatureError when the signature does not
      check, SilentError when what was signed is not `expected`. */
  function CheckAuthenticator(p: Primitives, vk: Key32, sm: string, expected: string): (r: Result<(), Failure>)
    ensures r.Ok? <==> Verify(p, vk, sm) == Some(expected)
    ensures r.Err? ==> (r.error.BadSignatureError? <==> Verify(p, vk, sm).None?)
    ensures r.Err? && !r.error.BadSignatureError? ==> r.error == SilentError("msgD authentication check failed")
  {
    match Verify(p, vk, sm)
    case None => Err(BadSignatureError)
    case Some(m) =>
      if m != expected then Err(SilentError("msgD authentication check failed")) else Ok(())
  }

  /** What the signer signed is accepted. */
  lemma CheckAuthenticatorSigned(p: Primitives, sk: string, m: string)
    ensures CheckAuthenticator(p, p.verfOf(sk), Sign(p, sk, m), m).Ok?
  {
    VerifySigned(p, sk, m);
  }

  /** `msgC2_received` with the keys in their intended slots and the
      signed part read with the intended netstring parse: decrypt with the
      key fallback (the new-key flag is written and committed at once),
      then a netstring holding a signature by the peer over pubkey2, then
      the body that is handed on. Returns the addressbook after the commit
      together with the body or the error. */
  function MsgC2Received(p: Primitives, book: Addressbook, id: int, k: Keys, pubkey2: string, enc: string)
    : (r: (Addressbook, Result<string, Failure>))
    ensures DecryptEither(p, k, pubkey2, enc).Err? ==> r == (book, Err(SilentError("neither channel key worked")))
    ensures DecryptEither(p, k, pubkey2, enc).Ok? ==>
      r.0 == if DecryptEither(p, k, pubkey2, enc).value.usedNew then MarkUsedNew(book, id) else book
    ensures r.1.Ok? ==>
      exists sm :: ParseNetstring(DecryptEither(p, k, pubkey2, enc).value.plain) == Ok((sm, r.1.value))
                && Verify(p, k.verfkey, sm) == Some(pubkey2)
    // conversely, a box that opens, parses and carries the peer's
    // signature over pubkey2 is delivered
    ensures forall sm, body ::
      DecryptEither(p, k, pubkey2, enc).Ok?
      && ParseNetstring(DecryptEither(p, k, pubkey2, enc).value.plain) == Ok((sm, body))
      && Verify(p, k.verfkey, sm) == Some(pubkey2)
      ==> r.1 == Ok(body)
    // a netstring error (SilentError or ValueError) propagates
    ensures DecryptEither(p, k, pubkey2, enc).Ok? ==>
      var parsed := ParseNetstring(DecryptEither(p, k, pubkey2, enc).value.plain);
      parsed.Err? ==> r.1 == Err(parsed.error) && (r.1.error.SilentError? || r.1.error.ValueError?)
    // after the parse, delivery is decided by the authenticator check,
    // whose BadSignatureError or SilentError propagates
    ensures DecryptEither(p, k, pubkey2, enc).Ok? ==>
      var parsed := ParseNetstring(DecryptEither(p, k, pubkey2, enc).value.plain);
      parsed.Ok? ==>
        var auth := CheckAuthenticator(p, k.verfkey, parsed.value.0, pubkey2);
        && (r.1.Ok? <==> auth.Ok?)
        && (r.1.Err? ==> r.1 == Err(auth.error) && (r.1.error.BadSignatureError? || r.1.error.SilentError?))
  {
    match DecryptEither(p, k, pubkey2, enc)
    case Err(x) => (book, Err(x))
    case Ok(o) =>
      var book' := if o.usedNew then MarkUsedNew(book, id) else book;
      match ParseNetstring(o.plain)
      case Err(x) => (book', Err(x))
      case Ok(parsed) =>
        var (sm, body) := parsed;
        match CheckAuthenticator(p, k.verfkey, sm, pubkey2)
        case Err(x) => (book', Err(x))
        case Ok(_) => (book', Ok(body))
  }

  // ---------------------------------------------------------------------
  // the outbound code: OutboundChannel.send

  /** The first row with the given addressbook id. */
  function FindId(book: Addressbook, id: int): (r: Option<nat>)
    ensures r.Some? ==> r.value < |book| && book[r.value].id == id
    ensures r.Some? ==> forall j :: 0 <= j < r.value ==> book[j].id != id
    ensures r.None? ==> forall j :: 0 <= j < |book| ==> book[j].id != id
  {
    if |book| == 0 then None
    else if book[0].id == id then Some(0)
    else
      match FindId(book[1..], id)
      case None => None
      case Some(j) => Some(j + 1)
  }

  /** `UPDATE addressbook SET next_outbound_seqnum=? WHERE id=?`. */
  function SetSeqnum(book: Addressbook, id: int, n: int): (r: Addressbook)
    ensures |r| == |book|
    ensures forall j :: 0 <= j < |r| ==> r[j] == if book[j].id == id then book[j].(nextOutboundSeqnum := n) else book[j]
  {
    if |book| == 0 then []
    else
      var e := book[0];
      [if e.id == id then e.(nextOutboundSeqnum := n) else e] + SetSeqnum(book[1..], id, n)
  }

  /** Everything `send` needs from a row: a sequence number that packs into
      8 bytes and three columns holding 32-byte hexadecimal keys. */
  predicate Sendable(e: Entry)
  {
    && Pack64(e.nextOutboundSeqnum).Ok?
    && DecodeKey(e.mySignkeyHex).Ok?
    && DecodeKey(e.theirChannelPubkeyHex).Ok?
    && DecodeKey(e.theirCIDKeyHex).Ok?
  }

  /** The msgC `send` builds from a row, a payload already encoded as JSON
      and the freshly generated `privkey2`: StructError when the sequence
      number does not pack, TypeError or ValueError from the first key
      column that is not a 32-byte hexadecimal key. */
  function Compose(p: Primitives, d: Derivations, e: Entry, payload: string, privkey2: string)
    : (r: Result<string, Failure>)
    ensures r.Ok? <==> Sendable(e)
    ensures r.Ok? ==> HasPrefix(r.value, CPrefix)
  {
    match Pack64(e.nextOutboundSeqnum)
    case Err(x) => Err(x)
    case Ok(seqnumS) =>
      match DecodeKey(e.mySignkeyHex)
      case Err(x) => Err(x)
      case Ok(signkey) =>
        match DecodeKey(e.theirChannelPubkeyHex)
        case Err(x) => Err(x)
        case Ok(channelPub) =>
          match DecodeKey(e.theirCIDKeyHex)
          case Err(x) => Err(x)
          case Ok(cidKey) =>
            var pubkey2 := p.pubOf(privkey2);
            var msgE := seqnumS + Netstring(Sign(p, signkey, AuthPrefix + pubkey2)) + payload;
            var msgD := pubkey2 + p.boxSeal(privkey2, channelPub, msgE);
            var cidBox := d.secretSeal(cidKey, seqnumS + d.digest(msgD) + channelPub);
            var msgC := CPrefix + d.cidToken(cidKey + seqnumS) + Netstring(cidBox) + msgD;
            assert msgC[..|CPrefix|] == CPrefix;
            Ok(msgC)
  }

  /** `OutboundChannel.send` up to the msgC: AssertionError for an unknown
      id; otherwise the row's next sequence number is advanced by one and
      committed before the message is built, so it advances even when
      building then fails. */
  function Send(p: Primitives, d: Derivations, book: Addressbook, cid: int, payload: string, privkey2: string)
    : (r: (Addressbook, Result<string, Failure>))
    ensures FindId(book, cid).None? ==> r == (book, Err(AssertionError("missing cid")))
    ensures FindId(book, cid).Some? ==> (r.1.Ok? <==> Sendable(book[FindId(book, cid).value]))
  {
    var i := FindId(book, cid);
    if i.None? then (book, Err(AssertionError("missing cid")))
    else
      var e := book[i.value];
      (SetSeqnum(book, cid, e.nextOutboundSeqnum + 1), Compose(p, d, e, payload, privkey2))
  }

  /** Each send moves the row's sequence number up by exactly one and
      changes nothing else in the table. */
  lemma SendIncrements(p: Primitives, d: Derivations, book: Addressbook, cid: int, payload: string, privkey2: string, j: nat)
    requires j < |book| && book[j].id == cid
    requires forall i :: 0 <= i < |book| && book[i].id == cid ==> i == j
    ensures var r := Send(p, d, book, cid, payload, privkey2).0;
      && |r| == |book|
      && r[j].nextOutboundSeqnum == book[j].nextOutboundSeqnum + 1
      && r[j] == book[j].(nextOutboundSeqnum := book[j].nextOutboundSeqnum + 1)
      && forall i :: 0 <= i < |book| && i != j ==> r[i] == book[i]
  {
    assert FindId(book, cid) == Some(j);
  }

  // ---------------------------------------------------------------------
  // the layout as sent, read back

  /** Reads "c0:", the CIDToken and the netstring holding the CIDBox; the
      rest is msgD. ValueError without the prefix or when the message
      ends inside the token. */
  function ParseMsgC(msgC: string): (r: Result<(string, string, string), Failure>)
    ensures r.Ok? <==> HasPrefix(msgC, CPrefix) && |CPrefix| + TokenWidth <= |msgC|
                       && ParseNetstring(msgC[|CPrefix| + TokenWidth..]).Ok?
    ensures r.Ok? ==> |r.value.0| == TokenWidth
    ensures r.Ok? ==> ParseNetstring(msgC[|CPrefix| + TokenWidth..]) == Ok((r.value.1, r.value.2))
  {
    if !HasPrefix(msgC, CPrefix) then Err(ValueError("msgC doesn't start with 'c0:'"))
    else if |msgC| < |CPrefix| + TokenWidth then Err(ValueError("msgC is too short"))
    else
      match ParseNetstring(msgC[|CPrefix| + TokenWidth..])
      case Err(x) => Err(x)
      case Ok(parsed) => Ok((msgC[|CPrefix|..|CPrefix| + TokenWidth], parsed.0, parsed.1))
  }

  /** Parsing undoes the msgC layout: the token, the CIDBox and msgD come
      back. */
  lemma ParseMsgCRoundTrip(token: string, cidBox: string, msgD: string)
    requires |token| == TokenWidth
    ensures ParseMsgC(CPrefix + token + Netstring(cidBox) + msgD) == Ok((token, cidBox, msgD))
  {
    var msgC := CPrefix + token + Netstring(cidBox) + msgD;
    assert msgC[..|CPrefix|] == CPrefix;
    assert msgC[|CPrefix|..|CPrefix| + TokenWidth] == token;
    assert msgC[|CPrefix| + TokenWidth..] == Netstring(cidBox) + msgD;
    NetstringRoundTrip(cidBox, msgD);
  }

  /** msgD: the 32-byte pubkey2, then the box; ValueError when shorter. */
  function SplitMsgD(msgD: string): (r: Result<(string, string), Failure>)
    ensures r.Ok? <==> PubkeyWidth <= |msgD|
    ensures r.Ok? ==> |r.value.0| == PubkeyWidth && r.value.0 + r.value.1 == msgD
  {
    if |msgD| < PubkeyWidth then Err(ValueError("msgD is too short"))
    else Ok((msgD[..PubkeyWidth], msgD[PubkeyWidth..]))
  }

  /** msgE: the 8-byte sequence number, the netstring holding the signed
      authenticator, then the payload. */
  function ParseMsgE(msgE: string): (r: Result<(nat, string, string), Failure>)
    ensures r.Ok? <==> QWidth <= |msgE| && ParseNetstring(msgE[QWidth..]).Ok?
    ensures r.Ok? ==> r.value.0 == FromBigEndian(msgE[..QWidth])
    ensures r.Ok? ==> ParseNetstring(msgE[QWidth..]) == Ok((r.value.1, r.value.2))
  {
    if |msgE| < QWidth then Err(ValueError("msgE is too short"))
    else
      match ParseNetstring(msgE[QWidth..])
      case Err(x) => Err(x)
      case Ok(parsed) => Ok((FromBigEndian(msgE[..QWidth]), parsed.0, parsed.1))
  }

  /** Parsing undoes the msgE layout for every sequence number that packs:
      the number, the signed authenticator and the payload come back. */
  lemma ParseMsgERoundTrip(n: nat, sm: string, payload: string)
    requires n < Pow256(QWidth)
    ensures ParseMsgE(BigEndian(n, QWidth) + Netstring(sm) + payload) == Ok((n, sm, payload))
  {
    var msgE := BigEndian(n, QWidth) + Netstring(sm) + payload;
    assert msgE[..QWidth] == BigEndian(n, QWidth);
    assert msgE[QWidth..] == Netstring(sm) + payload;
    NetstringRoundTrip(sm, payload);
  }

  datatype Delivered = Delivered(seqnum: nat, payload: string, usedNew: bool)

  /** The inbound side of the layout as sent: take msgC apart, open the
      box with the key fallback, take msgE apart, and accept the payload
      only when the peer's signature covers "ce0:" followed by the pubkey2
      the box came from. */
  function Receive(p: Primitives, k: Keys, msgC: string): (r: Result<Delivered, Failure>)
    ensures r.Ok? ==> HasPrefix(msgC, CPrefix) && |CPrefix| + TokenWidth <= |msgC|
    ensures r.Ok? ==>
      exists pubkey2, enc, plain, sm ::
        && ParseMsgC(msgC).Ok?
        && SplitMsgD(ParseMsgC(msgC).value.2) == Ok((pubkey2, enc))
        && DecryptEither(p, k, pubkey2, enc) == Ok(Opened(plain, r.value.usedNew))
        && ParseMsgE(plain) == Ok((r.value.seqnum, sm, r.value.payload))
        && Verify(p, k.verfkey, sm) == Some(AuthPrefix + pubkey2)
  {
    match ParseMsgC(msgC)
    case Err(x) => Err(x)
    case Ok(c) =>
      match SplitMsgD(c.2)
      case Err(x) => Err(x)
      case Ok(dd) =>
        var (pubkey2, enc) := dd;
        match DecryptEither(p, k, pubkey2, enc)
        case Err(x) => Err(x)
        case Ok(o) =>
          match ParseMsgE(o.plain)
          case Err(x) => Err(x)
          case Ok(e) =>
            var (seqnum, sm, payload) := e;
            match CheckAuthenticator(p, k.verfkey, sm, AuthPrefix + pubkey2)
            case Err(x) => Err(x)
            case Ok(_) => Ok(Delivered(seqnum, payload, o.usedNew))
  }

  /** What one end sends the other receives: the payload and the sequence
      number come back, through the new channel key, when the receiver's
      new key is the one the sender encrypted to and the receiver's
      verifying key matches the sender's signing key. */
  lemma ChannelRoundTrip(p: Primitives, d: Derivations, e: Entry, payload: string, privkey2: string, k: Keys)
    requires BoxPairSound(p)
    requires Sendable(e)
    requires p.pubOf(k.newKey) == DecodeKey(e.theirChannelPubkeyHex).value
    requires k.verfkey == p.verfOf(DecodeKey(e.mySignkeyHex).value)
    ensures Receive(p, k, Compose(p, d, e, payload, privkey2).value) == Ok(Delivered(e.nextOutboundSeqnum, payload, true))
  {
    var seqnumS := Pack64(e.nextOutboundSeqnum).value;
    var signkey := DecodeKey(e.mySignkeyHex).value;
    var channelPub := DecodeKey(e.theirChannelPubkeyHex).value;
    var cidKey := DecodeKey(e.theirCIDKeyHex).value;
    var pubkey2 := p.pubOf(privkey2);
    var auth := AuthPrefix + pubkey2;
    var sm := Sign(p, signkey, auth);
    var msgE := seqnumS + Netstring(sm) + payload;
    var msgD := pubkey2 + p.boxSeal(privkey2, channelPub, msgE);
    var cidBox := d.secretSeal(cidKey, seqnumS + d.digest(msgD) + channelPub);
    var token := d.cidToken(cidKey + seqnumS);
    assert Compose(p, d, e, payload, privkey2).value == CPrefix + token + Netstring(cidBox) + msgD;
    ParseMsgCRoundTrip(token, cidBox, msgD);
    assert SplitMsgD(msgD) == Ok((pubkey2, p.boxSeal(privkey2, channelPub, msgE))) by {
      assert msgD[..PubkeyWidth] == pubkey2;
    }
    DecryptSealedToNewKey(p, k, privkey2, msgE);
    ParseMsgERoundTrip(e.nextOutboundSeqnum, sm, payload);
    VerifySigned(p, signkey, auth);
  }

  // ---------------------------------------------------------------------
  // where the inbound code and the layout as sent disagree

  /** Read with the inbound split for an MCID of `tokenLength` bytes
      (`rrid.TOKEN_LENGTH`, 96 for an rrid token of three 32-byte parts), a
      message as sent does not yield its pubkey2: the sender puts pubkey2
      after the 32-byte CIDToken and the whole CIDBox netstring, while the
      split takes it right after the MCID. Whenever
      `32 <= tokenLength <= |netstring(CIDBox)|` (at 96 this holds for any
      CIDBox of 92 bytes or more; a SecretBox of the 72-byte plaintext has
      112) the "pubkey2" is cut from inside the CIDBox netstring; at 32 it
      starts with a digit of the netstring header, so it differs from the
      sender's pubkey2 whenever that does not start with a digit. */
  lemma InboundSplitMisplacesPubkey2(p: Primitives, d: Derivations, e: Entry, payload: string, privkey2: string,
                                     tokenLength: nat)
    requires Sendable(e)
    ensures var msgC := Compose(p, d, e, payload, privkey2).value;
      && ParseMsgC(msgC).Ok?
      && var cidNetstring := Netstring(ParseMsgC(msgC).value.1);
      var at := |CPrefix| + TokenWidth + |cidNetstring|;
      var r := MsgCReceived(msgC, tokenLength);
      // as sent, pubkey2 follows the CIDToken and the CIDBox netstring
      && at + PubkeyWidth <= |msgC|
      && msgC[at..at + PubkeyWidth] == p.pubOf(privkey2)
      // as read, it is cut from the CIDBox netstring
      && (TokenWidth <= tokenLength <= |cidNetstring| ==>
            r.Ok? && r.value.pubkey2 == cidNetstring[tokenLength - TokenWidth..tokenLength])
      // with a 32-byte MCID it starts with the netstring's length header
      && (tokenLength == TokenWidth ==>
            && r.Ok?
            && IsDigit(r.value.pubkey2[0])
            && (!IsDigit(p.pubOf(privkey2)[0]) ==> r.value.pubkey2 != p.pubOf(privkey2)))
  {
    var token, cidBox, msgD := ComposeLayout(p, d, e, payload, privkey2);
    ParseMsgCRoundTrip(token, cidBox, msgD);
    InboundSplitOfLayout(token, cidBox, msgD, tokenLength);
  }

  /** A composed msgC is "c0:", a 32-byte CIDToken, the CIDBox netstring
      and msgD, which starts with pubkey2. */
  lemma ComposeLayout(p: Primitives, d: Derivations, e: Entry, payload: string, privkey2: string)
    returns (token: string, cidBox: string, msgD: string)
    requires Sendable(e)
    ensures Compose(p, d, e, payload, privkey2) == Ok(CPrefix + token + Netstring(cidBox) + msgD)
    ensures |token| == TokenWidth && PubkeyWidth <= |msgD| && msgD[..PubkeyWidth] == p.pubOf(privkey2)
  {
    var seqnumS := Pack64(e.nextOutboundSeqnum).value;
    var signkey := DecodeKey(e.mySignkeyHex).value;
    var channelPub := DecodeKey(e.theirChannelPubkeyHex).value;
    var cidKey := DecodeKey(e.theirCIDKeyHex).value;
    var pubkey2 := p.pubOf(privkey2);
    var msgE := seqnumS + Netstring(Sign(p, signkey, AuthPrefix + pubkey2)) + payload;
    msgD := pubkey2 + p.boxSeal(privkey2, channelPub, msgE);
    cidBox := d.secretSeal(cidKey, seqnumS + d.digest(msgD) + channelPub);
    token := d.cidToken(cidKey + seqnumS);
    assert msgD[..PubkeyWidth] == pubkey2;
  }

  /** The inbound split of `"c0:" + token + netstring(cidBox) + msgD`, for
      a 32-byte token and an msgD that starts with a 32-byte key. */
  lemma InboundSplitOfLayout(token: string, cidBox: string, msgD: string, tokenLength: nat)
    requires |token| == TokenWidth && PubkeyWidth <= |msgD|
    ensures var ns := Netstring(cidBox);
      var msgC := CPrefix + token + ns + msgD;
      var at := |CPrefix| + TokenWidth + |ns|;
      var r := MsgCReceived(msgC, tokenLength);
      && at + PubkeyWidth <= |msgC|
      && msgC[at..at + PubkeyWidth] == msgD[..PubkeyWidth]
      && (TokenWidth <= tokenLength <= |ns| ==> r.Ok? && r.value.pubkey2 == ns[tokenLength - TokenWidth..tokenLength])
      && (tokenLength == TokenWidth ==> r.Ok? && IsDigit(r.value.pubkey2[0]))
  {
    var ns := Netstring(cidBox);
    var msgC := CPrefix + token + ns + msgD;
    var at := |CPrefix| + TokenWidth + |ns|;
    assert msgC[at..at + PubkeyWidth] == msgD[..PubkeyWidth];
    assert msgC[..|CPrefix|] == CPrefix;
    if TokenWidth <= tokenLength <= |ns| {
      var r := MsgCReceived(msgC, tokenLength).value;
      assert r.pubkey2 == msgC[|CPrefix| + tokenLength..|CPrefix| + tokenLength + PubkeyWidth];
      assert msgC[|CPrefix| + tokenLength..|CPrefix| + tokenLength + PubkeyWidth] == ns[tokenLength - TokenWidth..tokenLength];
    }
    if tokenLength == TokenWidth {
      var r := MsgCReceived(msgC, TokenWidth).value;
      assert msgC[|CPrefix| + TokenWidth] == ns[0] == Decimal(|cidBox|)[0];
      assert r.pubkey2[0] == msgC[|CPrefix| + TokenWidth];
    }
  }

  /** The inbound code reads the opened box as starting with the signed
      netstring, but the box as sent starts with the 8-byte sequence
      number, whose first byte is zero below 2^56: every such message is
      rejected for lacking a netstring header. */
  lemma InboundRejectsSentMsgE(p: Primitives, book: Addressbook, id: int, k: Keys, privkey2: string,
                               n: nat, sm: string, payload: string)
    requires BoxPairSound(p)
    requires n < Pow256(QWidth - 1)
    ensures var msgE := BigEndian(n, QWidth) + Netstring(sm) + payload;
      MsgC2Received(p, book, id, k, p.pubOf(privkey2), p.boxSeal(privkey2, p.pubOf(k.newKey), msgE)).1
        == Err(SilentError("msgD lacks a netstring header"))
  {
    var msgE := BigEndian(n, QWidth) + Netstring(sm) + payload;
    DecryptSealedToNewKey(p, k, privkey2, msgE);
    BigEndianLeadingZero(n, QWidth);
    assert msgE[0] == 0 as char;
    assert DigitRun(msgE) == 0;
  }

  /** The inbound code checks the signed content against pubkey2 alone,
      but the sender signs "ce0:" followed by pubkey2: even a body framed
      the way the inbound code reads it is rejected. */
  lemma InboundRejectsSentAuthenticator(p: Primitives, book: Addressbook, id: int, k: Keys, privkey2: string,
                                        sk: string, payload: string)
    requires BoxPairSound(p)
    requires k.verfkey == p.verfOf(sk)
    ensures var pubkey2 := p.pubOf(privkey2);
      var plain := Netstring(Sign(p, sk, AuthPrefix + pubkey2)) + payload;
      MsgC2Received(p, book, id, k, pubkey2, p.boxSeal(privkey2, p.pubOf(k.newKey), plain)).1
        == Err(SilentError("msgD authentication check failed"))
  {
    var pubkey2 := p.pubOf(privkey2);
    var sm := Sign(p, sk, AuthPrefix + pubkey2);
    var plain := Netstring(sm) + payload;
    DecryptSealedToNewKey(p, k, privkey2, plain);
    NetstringRoundTrip(sm, payload);
    VerifySigned(p, sk, AuthPrefix + pubkey2);
    assert AuthPrefix + pubkey2 != pubkey2 by {
      assert |AuthPrefix + pubkey2| != |pubkey2|;
    }
  }
}
