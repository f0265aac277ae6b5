// Upper transport and access layer (mesh/transport/meshx_upper_trans.c, mesh/access/meshx_access.c): the
// message guards, the nonces, and encryption of access messages with an application or device key.

module UpperTransport {
  import opened Bytes
  import opened Mesh
  import opened CcmSpec
  import opened Segments
  import opened TxNode

  const UNSEG_ACCESS_MSG_MAX: nat := 11
  const ACCESS_MSG_MAX: nat := 380

  // ---------- meshx_access_send ----------

  datatype Refusal = BadAddress | BadKeyFlag | BadMicSize | TooLong

  /** The guards, in order; the keys are present. */
  function AccessGuard(c: MsgCtx, len: nat): Option<Refusal> {
    if !IsValidAddress(c.src) || !IsValidAddress(c.dst) then Some(BadAddress)
    else if (c.akf && c.aid == 0) || (!c.akf && c.aid != 0) then Some(BadKeyFlag)
    else if len <= UNSEG_ACCESS_MSG_MAX && !c.seg && c.szmic then Some(BadMicSize)
    else if c.szmic && len > ACCESS_MSG_MAX - 4 then Some(TooLong)
    else if !c.szmic && len > ACCESS_MSG_MAX then Some(TooLong)
    else None
  }

  function TransMicLen(long: bool): nat { if long then 8 else 4 }

  /** Whether lower transport segments the encrypted message. */
  predicate Segmented(c: MsgCtx, len: nat) { c.seg || len + TransMicLen(c.szmic) > UNSEG_ACCESS_MAX }

  /** The receiver reads an 8-octet MIC exactly when the message was segmented and its SZMIC bit is set. */
  function RxMicLen(c: MsgCtx, len: nat): nat { TransMicLen(Segmented(c, len) && c.szmic) }

  /** Every message the guards accept has the same MIC length on both sides. Without the guards the two sides
      disagree exactly for a long MIC on an unsegmented message of at most 7 octets; the guard also refuses
      lengths 8 to 11, where they would agree. */
  lemma GuardMakesMicsAgree(c: MsgCtx, len: nat)
    ensures AccessGuard(c, len).None? ==> TransMicLen(c.szmic) == RxMicLen(c, len)
    ensures TransMicLen(c.szmic) == RxMicLen(c, len) <==> !(c.szmic && !c.seg && len <= 7)
    ensures IsValidAddress(c.src) && IsValidAddress(c.dst) && (c.akf <==> c.aid != 0) && c.szmic && !c.seg && 8 <= len <= 11
            ==> AccessGuard(c, len) == Some(BadMicSize)
  {
  }

  /** A message is accepted if and only if its addresses are assigned ones, an application key goes with an AID and only
      then, and with its MIC it takes at most 384 octets, 32 segments; a long MIC is accepted only where the message will
      be segmented or is longer than 11 octets. */
  lemma AccessAcceptedIff(c: MsgCtx, len: nat)
    ensures AccessGuard(c, len).None? <==>
              && c.src != 0 && c.dst != 0 && !(0xFF00 <= c.src <= 0xFFFB) && !(0xFF00 <= c.dst <= 0xFFFB) && (c.akf <==> c.aid != 0)
              && len + TransMicLen(c.szmic) <= 384 && (c.szmic ==> c.seg || len > 11)
  {
  }

  // ---------- encryption ----------

  function AccessNonce(c: MsgCtx): (n: seq<byte>)
    ensures |n| == 13
  {
    [if c.akf then 1 else 2, 128 * Bit(c.szmic)] + BE(c.seqAuth, 3) + BE(c.src, 2) + BE(c.dst, 2) + BE(c.iv, 4)
  }

  /** The length parameters of encryption, decryption and access receive are 8 bits wide. */
  function Low8(len: nat): nat { len % 256 }

  function Cut(m: seq<byte>): seq<byte> { m[..Low8(|m|)] }

  /** What meshx_upper_trans_send passes on: octets beyond the low 8 bits of the length stay as they are. */
  function UpperPdu(aes: Aes, key: Block, c: MsgCtx, m: seq<byte>): (p: seq<byte>)
    ensures |p| == |m| + TransMicLen(c.szmic)
  {
    var e := Encrypt(aes, key, AccessNonce(c), [], TransMicLen(c.szmic), Cut(m));
    e.text + m[Low8(|m|)..] + e.tag
  }

  // ---------- decryption ----------

  datatype AppKey = AppKey(aid: nat, key: Block)

  /** One decryption in place of the first len octets of p against the tag; the text is unmasked either way. */
  datatype Attempt = Attempt(ok: bool, p: seq<byte>)

  function TryDecrypt(aes: Aes, key: Block, nonce: seq<byte>, p: seq<byte>, len: nat, tag: seq<byte>): (r: Attempt)
    requires len <= |p| && (|tag| == 4 || |tag| == 8) && |nonce| == 13
    ensures |r.p| == |p|
  {
    Attempt(Decrypt(aes, key, nonce, [], Sealed(p[..len], tag)).Some?, CtrFrom(aes, key, nonce, 1, p[..len]) + p[len..])
  }

  function TryAppKeys(aes: Aes, keys: seq<AppKey>, aid: nat, nonce: seq<byte>, p: seq<byte>, len: nat, tag: seq<byte>): (r: Option<seq<byte>>)
    requires len <= |p| && (|tag| == 4 || |tag| == 8) && |nonce| == 13
    ensures r.Some? ==> |r.value| == |p|
    decreases |keys|
  {
    if keys == [] then None
    else if keys[0].aid != aid then TryAppKeys(aes, keys[1..], aid, nonce, p, len, tag)
    else
      var t := TryDecrypt(aes, keys[0].key, nonce, p, len, tag);
      if t.ok then Some(t.p) else TryAppKeys(aes, keys[1..], aid, nonce, t.p, len, tag)
  }

  /** One decryption of a PDU of len octets reads and writes only there: text from its start, MIC at its end. */
  predicate StaysInPdu(len: nat, micLen: nat) { 0 <= len - micLen && (len - micLen) % 256 <= len }

  /** Reception leaves the PDU buffer: some decryption is tried, and the MIC it looks for begins before the PDU. */
  predicate UpperOverruns(appKeys: seq<AppKey>, c: MsgCtx, len: nat) {
    && (c.akf ==> exists i :: 0 <= i < |appKeys| && appKeys[i].aid == c.aid)
    && !StaysInPdu(len, TransMicLen(c.seg && c.szmic))
  }

  /** Exactly for PDUs shorter than their MIC, if there is a key to try; the length then wraps to 248 or more, and so
      many octets from the start of the PDU are overwritten. */
  lemma UpperOverrunsIff(appKeys: seq<AppKey>, c: MsgCtx, len: nat)
    ensures UpperOverruns(appKeys, c, len) <==>
              len < TransMicLen(c.seg && c.szmic) && (c.akf ==> exists i :: 0 <= i < |appKeys| && appKeys[i].aid == c.aid)
    ensures UpperOverruns(appKeys, c, len) ==> (len - TransMicLen(c.seg && c.szmic)) % 256 >= 248
  {
  }

  /** meshx_upper_trans_receive for an access message; nothing is handed up where it leaves the buffer. */
  function UpperReceive(aes: Aes, appKeys: seq<AppKey>, devKey: Block, c: MsgCtx, p: seq<byte>): Option<seq<byte>> {
    var body := |p| - TransMicLen(c.seg && c.szmic);
    if body < 0 then None
    else
      var n, tag := Low8(body), p[body..];
      var r := if c.akf then TryAppKeys(aes, appKeys, c.aid, AccessNonce(c), p[..body], n, tag)
               else
                 var t := TryDecrypt(aes, devKey, AccessNonce(c), p[..body], n, tag);
                 if t.ok then Some(t.p) else None;
      match r
      case None => None
      case Some(q) => Some(q[..n])
  }

  /** The key the sender used is the receiver's device key, or its first application key with that AID. */
  predicate KeyInPlace(appKeys: seq<AppKey>, devKey: Block, c: MsgCtx, key: Block, k: nat) {
    if c.akf then k < |appKeys| && appKeys[k] == AppKey(c.aid, key) && forall i :: 0 <= i < k ==> appKeys[i].aid != c.aid
    else devKey == key
  }

  lemma RightKeyDecrypts(aes: Aes, key: Block, nonce: seq<byte>, m: seq<byte>, rest: seq<byte>, mic: nat)
    requires |nonce| == 13 && (mic == 4 || mic == 8)
    ensures var e := Encrypt(aes, key, nonce, [], mic, m);
            TryDecrypt(aes, key, nonce, e.text + rest, |m|, e.tag) == Attempt(true, m + rest)
  {
    var e := Encrypt(aes, key, nonce, [], mic, m);
    RoundTrip(aes, key, nonce, [], mic, m, e);
    assert (e.text + rest)[..|m|] == e.text && (e.text + rest)[|m|..] == rest;
    CtrInvolution(aes, key, nonce, 1, m);
  }

  lemma {:induction false} FirstAppKey(aes: Aes, keys: seq<AppKey>, aid: nat, nonce: seq<byte>, p: seq<byte>, len: nat,
                                       tag: seq<byte>, k: nat)
    requires len <= |p| && (|tag| == 4 || |tag| == 8) && |nonce| == 13
    requires k < |keys| && keys[k].aid == aid && forall i :: 0 <= i < k ==> keys[i].aid != aid
    requires TryDecrypt(aes, keys[k].key, nonce, p, len, tag).ok
    ensures TryAppKeys(aes, keys, aid, nonce, p, len, tag) == Some(TryDecrypt(aes, keys[k].key, nonce, p, len, tag).p)
    decreases k
  {
    hide TryDecrypt;
    if k > 0 { FirstAppKey(aes, keys[1..], aid, nonce, p, len, tag, k - 1); }
  }

  /** The receiver's context agrees with the sender's in everything the nonce, key and MIC length depend on. */
  predicate SameForUpper(tx: MsgCtx, rx: MsgCtx) {
    && rx.src == tx.src && rx.dst == tx.dst && rx.iv == tx.iv && rx.seqAuth == tx.seqAuth
    && rx.akf == tx.akf && rx.szmic == tx.szmic && (tx.akf ==> rx.aid == tx.aid) && (tx.szmic ==> rx.seg)
  }

  /** Decrypting at the receiver gives the message cut to the low 8 bits of its length. */
  lemma UpperDecrypts(aes: Aes, appKeys: seq<AppKey>, devKey: Block, key: Block, k: nat, tx: MsgCtx, rx: MsgCtx, m: seq<byte>)
    requires SameForUpper(tx, rx) && KeyInPlace(appKeys, devKey, tx, key, k)
    ensures UpperReceive(aes, appKeys, devKey, rx, UpperPdu(aes, key, tx, m)) == Some(Cut(m))
  {
    var n, p := Low8(|m|), UpperPdu(aes, key, tx, m);
    assert AccessNonce(rx) == AccessNonce(tx);
    UpperPduDecrypts(aes, key, tx, m);
    hide UpperPdu, AccessNonce, TryDecrypt, TryAppKeys;
    if tx.akf { FirstAppKey(aes, appKeys, tx.aid, AccessNonce(tx), p[..|m|], n, p[|m|..], k); }
    assert m[..n] + m[n..] == m;
  }

  lemma UpperPduDecrypts(aes: Aes, key: Block, c: MsgCtx, m: seq<byte>)
    ensures TryDecrypt(aes, key, AccessNonce(c), UpperPdu(aes, key, c, m)[..|m|], Low8(|m|), UpperPdu(aes, key, c, m)[|m|..])
            == Attempt(true, m)
  {
    var n, nonce, mic := Low8(|m|), AccessNonce(c), TransMicLen(c.szmic);
    var e, p := Encrypt(aes, key, nonce, [], mic, m[..n]), UpperPdu(aes, key, c, m);
    RightKeyDecrypts(aes, key, nonce, m[..n], m[n..], mic);
    hide AccessNonce, TryDecrypt, CtrFrom, Tag;
    assert p[..|m|] == e.text + m[n..] && p[|m|..] == e.tag;
    assert m[..n] + m[n..] == m;
  }

  /** So a message comes back unchanged if and only if it has at most 255 octets. */
  lemma UpperRoundTrip(aes: Aes, appKeys: seq<AppKey>, devKey: Block, key: Block, k: nat, tx: MsgCtx, rx: MsgCtx, m: seq<byte>)
    requires SameForUpper(tx, rx) && KeyInPlace(appKeys, devKey, tx, key, k)
    ensures UpperReceive(aes, appKeys, devKey, rx, UpperPdu(aes, key, tx, m)) == Some(m) <==> |m| <= 255
  {
    UpperDecrypts(aes, appKeys, devKey, key, k, tx, rx, m);
    WholeIffShort(m);
    hide *;
  }

  lemma WholeIffShort(m: seq<byte>)
    ensures Cut(m) == m <==> |m| <= 255
  {
    assert |Cut(m)| == |m| % 256;
    if |m| <= 255 { assert m[..|m|] == m; }
  }

  /** Longer messages leave all but their first len % 256 octets unencrypted. */
  lemma LongMessageTailIsPlain(aes: Aes, key: Block, c: MsgCtx, m: seq<byte>, i: nat)
    requires Low8(|m|) <= i < |m|
    ensures UpperPdu(aes, key, c, m)[i] == m[i]
  {
    var n := Low8(|m|);
    assert UpperPdu(aes, key, c, m)[i] == m[n..][i - n];
  }

  // ---------- sending from a node ----------

  /** meshx_access_send down to lower transport. */
  function AccessSend(n: Node, aes: Aes, key: Block, c: MsgCtx, m: seq<byte>): (r: Node)
    requires NodeOk(n)
    ensures NodeOk(r)
  {
    if AccessGuard(c, |m|).Some? then n else SendMessage(n, c, UpperPdu(aes, key, WithNumber(n, c), m))
  }

  /** The access layer accepts more than lower transport carries. An accepted access message of more than 372
      octets with its MIC uses up a number and is dropped; up to 372 it fits the segment count. */
  lemma LongAcceptedMessageIsDropped(n: Node, aes: Aes, key: Block, c: MsgCtx, m: seq<byte>)
    requires NodeOk(n) && AccessGuard(c, |m|).None? && !c.ctl
    ensures |m| + TransMicLen(c.szmic) <= 372 <==> SegCount(|m| + TransMicLen(c.szmic), false) <= MAX_SEGMENTS
    ensures |m| + TransMicLen(c.szmic) > 372 ==>
              var pdu := UpperPdu(aes, key, WithNumber(n, c), m);
              AccessSend(n, aes, key, c, m)
              == Drawn(n, c.src, c.iv, Message(WithNumber(n, c).(seg := true), pdu))
  {
    hide UpperPdu;
  }
}
