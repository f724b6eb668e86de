/** The transport envelope around a msgC (`createMsgA`):
      msgA = "a0:" ++ pubkey1(32) ++ Box(privkey1 -> transport key, msgB)
      msgB = netstring(MSTID) ++ msgC
    where MSTID is the re-randomised STID of the transport record.

    The mailbox server's parsers of msgA and msgB are not part of this
    model; `ParseMsgA` and `ParseMsgB` below are the readers the layout
    implies, and the round-trip lemma shows they undo `CreateMsgA`. */
module Delivery {
  import opened Common
  import opened Text
  import opened Crypto
  import opened Framing

  const APrefix: string := "a0:"
  const PubkeyWidth: nat := 32

  /** The transport record fields `createMsgA` reads. */
  datatype TransportRecord = TransportRecord(stidHex: string, transportPubkeyHex: string)

  /** `createMsgA(trec, msgC)`, with `rrid.randomize` and the freshly
      generated `privkey1` as parameters: TypeError when the STID or the
      transport key is not hexadecimal, ValueError when the transport key is
      not 32 bytes long. */
  function CreateMsgA(p: Primitives, randomize: string -> string, trec: TransportRecord, msgC: string, privkey1: string)
    : (r: Result<string, Failure>)
    ensures r.Ok? <==> HexDecode(trec.stidHex).Some? && HexDecode(trec.transportPubkeyHex).Some?
                       && |HexDecode(trec.transportPubkeyHex).value| == PubkeyWidth
    ensures r.Err? ==> (r.error.TypeError? || r.error.ValueError?)
    ensures r.Ok? ==> HasPrefix(r.value, APrefix) && |APrefix| + PubkeyWidth <= |r.value|
                      && r.value[|APrefix|..|APrefix| + PubkeyWidth] == p.pubOf(privkey1)
  {
    match HexDecode(trec.stidHex)
    case None => Err(TypeError("Non-hexadecimal digit found"))
    case Some(stid) =>
      var msgB := Netstring(randomize(stid)) + msgC;
      var pubkey1 := p.pubOf(privkey1);
      match HexDecode(trec.transportPubkeyHex)
      case None => Err(TypeError("Non-hexadecimal digit found"))
      case Some(tpub) =>
        if |tpub| != PubkeyWidth then Err(ValueError("The public key must be exactly 32 bytes long"))
        else
          assert IsBytes(tpub);
          var msgA := APrefix + pubkey1 + p.boxSeal(privkey1, tpub, msgB);
          assert msgA[..|APrefix|] == APrefix;
          assert msgA[|APrefix|..|APrefix| + PubkeyWidth] == pubkey1;
          Ok(msgA)
  }

  /** msgA: the "a0:" prefix, the sender's 32-byte pubkey1, then the box;
      ValueError without the prefix or when the message ends inside the
      key. */
  function ParseMsgA(msgA: string): (r: Result<(string, string), Failure>)
    ensures r.Ok? <==> HasPrefix(msgA, APrefix) && |APrefix| + PubkeyWidth <= |msgA|
    ensures r.Ok? ==> |r.value.0| == PubkeyWidth && msgA == APrefix + r.value.0 + r.value.1
  {
    if !HasPrefix(msgA, APrefix) then Err(ValueError("msgA doesn't start with 'a0:'"))
    else if |msgA| < |APrefix| + PubkeyWidth then Err(ValueError("msgA is too short"))
    else
      var pubkey1 := msgA[|APrefix|..|APrefix| + PubkeyWidth];
      var boxed := msgA[|APrefix| + PubkeyWidth..];
      assert msgA == msgA[..|APrefix|] + pubkey1 + boxed;
      Ok((pubkey1, boxed))
  }

  /** msgB: one netstring holding the MSTID, the rest being msgC, which
      is what the message ends with. */
  function ParseMsgB(msgB: string): (r: Result<(string, string), Failure>)
    ensures !HasNetstringHeader(msgB) ==> r.Err? && r.error.SilentError?
    ensures r.Err? ==> r.error.SilentError? || r.error.ValueError?
    // the leading netstring's length header counts exactly the MSTID
    ensures r.Ok? ==>
      var k := DigitRun(msgB);
      && 0 < k
      && ParseDecimal(msgB[..k]) == |r.value.0|
      && msgB == msgB[..k] + ":" + r.value.0 + "," + r.value.1
    ensures r.Ok? ==> |r.value.0| + |r.value.1| < |msgB| && msgB[|msgB| - |r.value.1|..] == r.value.1
  {
    var r := ParseNetstring(msgB);
    if r.Ok? then
      var k := DigitRun(msgB);
      assert msgB == (msgB[..k] + ":" + r.value.0 + ",") + r.value.1;
      r
    else r
  }

  /** msgB as `createMsgA` builds it parses back into its MSTID and
      msgC. */
  lemma MsgBRoundTrip(mstid: string, msgC: string)
    ensures ParseMsgB(Netstring(mstid) + msgC) == Ok((mstid, msgC))
  {
    NetstringRoundTrip(mstid, msgC);
  }

  /** The transport that owns the record opens the envelope and gets back
      the re-randomised STID and the msgC, with the sender's pubkey1 in
      the clear. */
  lemma MsgARoundTrip(p: Primitives, randomize: string -> string, trec: TransportRecord, msgC: string,
                      privkey1: string, transportPriv: string)
    requires BoxPairSound(p)
    requires HexDecode(trec.transportPubkeyHex) == Some(p.pubOf(transportPriv))
    requires HexDecode(trec.stidHex).Some?
    ensures CreateMsgA(p, randomize, trec, msgC, privkey1).Ok?
    ensures var (pubkey1, boxed) := ParseMsgA(CreateMsgA(p, randomize, trec, msgC, privkey1).value).value;
      && pubkey1 == p.pubOf(privkey1)
      && p.boxOpen(transportPriv, pubkey1, boxed) == Some(Netstring(randomize(HexDecode(trec.stidHex).value)) + msgC)
      && ParseMsgB(p.boxOpen(transportPriv, pubkey1, boxed).value) == Ok((randomize(HexDecode(trec.stidHex).value), msgC))
  {
    var mstid := randomize(HexDecode(trec.stidHex).value);
    var msgB := Netstring(mstid) + msgC;
    var pubkey1 := p.pubOf(privkey1);
    var boxed := p.boxSeal(privkey1, p.pubOf(transportPriv), msgB);
    var msgA := APrefix + pubkey1 + boxed;
    assert CreateMsgA(p, randomize, trec, msgC, privkey1) == Ok(msgA);
    assert msgA[..|APrefix|] == APrefix;
    assert ParseMsgA(msgA) == Ok((pubkey1, boxed)) by {
      assert msgA[|APrefix|..|APrefix| + PubkeyWidth] == pubkey1;
      assert msgA[|APrefix| + PubkeyWidth..] == boxed;
    }
    assert p.boxOpen(transportPriv, pubkey1, boxed) == Some(msgB);
    NetstringRoundTrip(mstid, msgC);
  }
}
