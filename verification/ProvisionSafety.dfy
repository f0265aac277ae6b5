// What provisioning refuses: every PDU of every content, in every state. The conditions are those of section 5.4 of
// the Mesh Profile, field by field, and of the ciphers, by what was sealed rather than by how it is opened.

module ProvisionSafety {
  import opened Bytes
  import opened CcmSpec
  import opened CmacSpec
  import opened Provision
  import opened LinkReopenExample

  /** The device can still report a failure. */
  predicate Reports(d: Dev) { INVITE <= d.state && d.state != COMPLETE && d.state != FAILED }

  /** The PDU is refused with this code, and nothing else is sent. */
  predicate Refused(d: Dev, o: Out, code: byte) { o.d.state == FAILED && o.d.errCode == code && o.sent == [Failed([code])] }

  lemma FailRefuses(d: Dev, code: byte)
    requires Reports(d)
    ensures Refused(d, Fail(d, code), code)
  {
  }

  // ---------- provisioning data ----------

  /** The first 33 octets are the sealing of m under the session key and the 13 low octets of the session nonce. */
  predicate SealsData(e: Env, d: Dev, b: seq<byte>, n: seq<byte>, m: seq<byte>)
    requires |b| >= 33 && |n| == 13
  {
    |m| == 25 && Sealed(b[..25], b[25..33]) == Encrypt(e.aes, d.keys.sessionKey, n, [], 8, m)
  }

  /** Provisioning data are accepted if and only if they are such a sealing, and then the device has what was sealed and
      answers that it is complete; otherwise it answers that decryption failed, and nothing else. */
  lemma DataAcceptedIffSealed(e: Env, d: Dev, b: seq<byte>, x: seq<byte>, n: seq<byte>)
    requires INVITE <= d.state <= DATA && |b| >= 33 && |n| == 13 && d.keys.sessionNonce == x + n
    ensures var o := Process(e, d, Data(b));
            && (o.d.state != FAILED <==> exists m :: SealsData(e, d, b, n, m))
            && (forall m :: SealsData(e, d, b, n, m) ==> o == Out(d.(state := COMPLETE, data := m), [Complete([])]))
            && (o.d.state == FAILED ==> Refused(d, o, 6))
  {
    assert d.keys.sessionNonce[3..] == n;
    var c := Sealed(b[..25], b[25..33]);
    var t := CtrFrom(e.aes, d.keys.sessionKey, n, 1, b[..25]);
    hide CtrFrom, Tag, Encrypt;
    forall m ensures SealsData(e, d, b, n, m) <==> Decrypt(e.aes, d.keys.sessionKey, n, [], c) == Some(m) {
      RoundTrip(e.aes, d.keys.sessionKey, n, [], 8, m, c);
      SealedLength(e.aes, d.keys.sessionKey, n, m, c);
    }
    if Process(e, d, Data(b)).d.state != FAILED { assert SealsData(e, d, b, n, t); }
  }

  lemma SealedLength(aes: Aes, key: Block, n: seq<byte>, m: seq<byte>, c: Sealed)
    requires |n| == 13 && |c.tag| == 8
    ensures c == Encrypt(aes, key, n, [], 8, m) ==> |m| == |c.text|
    ensures Decrypt(aes, key, n, [], c) == Some(m) ==> |m| == |c.text|
  {
  }

  // ---------- public keys ----------

  /** A public key is accepted if and only if it is a valid one; then the secret is made from it and the own private
      key. Otherwise its format is refused. */
  lemma PublicKeyAcceptedIffValid(e: Env, d: Dev, b: seq<byte>)
    requires INVITE <= d.state <= PUBLIC_KEY && |b| >= 64
    ensures var o := Process(e, d, PublicKey(b));
            && (o.d.state != FAILED <==> e.validKey(b[..64]))
            && (e.validKey(b[..64]) ==> o == Out(d.(state := PUBLIC_KEY, pubRemote := b[..64], secret := e.ecdh(b[..64], d.priv)), []))
            && (!e.validKey(b[..64]) ==> Refused(d, o, 2))
  {
  }

  // ---------- start ----------

  /** The five fields of a Start PDU are within their ranges. Method 2 is output OOB with actions 0 to 4, method 3 input
      OOB with actions 0 to 3, both with sizes 1 to 8. */
  predicate FieldsInRange(algorithm: nat, publicKey: nat, method_: nat, action: nat, size: nat) {
    && (algorithm == 0 || algorithm == 1) && (publicKey == 0 || publicKey == 1)
    && (method_ == 0 || method_ == 1 || (method_ == 2 && action <= 4 && 1 <= size <= 8) || (method_ == 3 && action <= 3 && 1 <= size <= 8))
  }

  /** The device has what the Start PDU asks for: the public key type, static OOB information, or an output or input of at
      least that size with that action. */
  predicate Offered(publicKeyType: nat, staticType: nat, outSize: nat, outActions: nat, inSize: nat, inActions: nat,
                    publicKey: nat, method_: nat, action: nat, size: nat) {
    && publicKey == publicKeyType
    && (method_ == 1 ==> staticType != 0)
    && (method_ == 2 ==> 0 < outSize && size <= outSize && TestBit(outActions, action))
    && (method_ == 3 ==> 0 < inSize && size <= inSize && TestBit(inActions, action))
  }

  /** A Start PDU is accepted if and only if its fields are in range and the capabilities offer what it asks for. Out of
      range its format is refused; not offered, it is refused as unexpected. */
  lemma StartAcceptedIff(e: Env, d: Dev, b: seq<byte>)
    requires INVITE <= d.state <= START && |b| >= 5
    ensures var o, c := Process(e, d, Start(b)), if |d.caps| >= 11 then d.caps else Zeros(11);
            var ok := FieldsInRange(b[0], b[1], b[2], b[3], b[4]);
            var has := Offered(c[3], c[4], c[5], Wide(c[6], c[7]), c[8], Wide(c[9], c[10]), b[1], b[2], b[3], b[4]);
            && (o.d.state != FAILED <==> ok && has)
            && (ok && has ==> o == Out(d.(state := START, start := b[..5]), []))
            && (!ok ==> Refused(d, o, 2)) && (ok && !has ==> Refused(d, o, 5))
  {
    var c := if |d.caps| >= 11 then d.caps else Zeros(11);
    TwoOctets(c, 6);
    TwoOctets(c, 9);
    hide TestBit, FromBE;
  }

  function Wide(high: nat, low: nat): nat { 256 * high + low }

  lemma TwoOctets(s: seq<byte>, i: nat)
    requires i + 2 <= |s|
    ensures FromBE(s[i..i + 2]) == Wide(s[i], s[i + 1])
  {
    var t := s[i..i + 2];
    assert t[..1] == [s[i]] && t[..1][..0] == [];
    assert FromBE(t[..1]) == s[i];
  }

  // ---------- confirmation and random values ----------

  /** A random value is accepted if and only if its confirmation is the one received before. */
  lemma RandomAcceptedIffConfirmed(e: Env, d: Dev, b: seq<byte>)
    requires INVITE <= d.state <= RANDOM && |b| >= 16
    ensures var o, r := Process(e, d, Random(b)), b[..16];
            var fits := Confirmed(e, d, r).cfm == d.cfmRemote;
            && (o.d.state != FAILED <==> fits) && (!fits ==> Refused(d, o, 4) && o.d.keys == d.keys)
            && (fits ==> o.d.state == RANDOM && o.d.randRemote == r && o.d.keys == WithKeys(e, o.d).keys
                         && o.sent == if d.device then [Random(d.rand)] else [])
  {
    hide S1, K1, Cmac;
  }

  /** Two confirmation inputs that differ in the authentication value only. */
  lemma {:induction false} SecondBlockDecides(aes: Aes, key: Block, r: Block, a: Block, b: Block)
    requires OneToOne(aes) && a != b
    ensures Cmac(aes, key, r + a) != Cmac(aes, key, r + b)
  {
    var x := MacStep(aes, key, ZERO_BLOCK, r);
    TwoBlocks(aes, key, r, a);
    TwoBlocks(aes, key, r, b);
    hide Subkey1, Subkey2, Cmac;
    if Cmac(aes, key, r + a) == Cmac(aes, key, r + b) {
      XorCancelsLeft(x, LastBlock(aes, key, a), LastBlock(aes, key, b));
      XorCancels(a, b, Subkey1(aes, key));
    }
  }

  lemma TwoBlocks(aes: Aes, key: Block, r: Block, a: Block)
    ensures Cmac(aes, key, r + a) == MacStep(aes, key, MacStep(aes, key, ZERO_BLOCK, r), LastBlock(aes, key, a))
  {
    hide MacStep, LastBlock;
    var x := MacStep(aes, key, ZERO_BLOCK, r);
    assert (r + a)[..16] == r && (r + a)[16..] == a;
    assert CmacFrom(aes, key, ZERO_BLOCK, r + a) == CmacFrom(aes, key, x, a);
    assert CmacFrom(aes, key, x, a) == FinalStep(aes, key, x, a);
  }

  /** With any block cipher, of two parties that agree on everything but the authentication value, neither accepts the
      other's random value. */
  lemma WrongAuthIsRefused(e: Env, d: Dev, auth: Block, r: Block)
    requires OneToOne(e.aes) && INVITE <= d.state <= RANDOM && |d.auth| == 16 && auth != d.auth
    requires d.cfmRemote == Confirmed(e, d.(auth := auth), r).cfm
    ensures Refused(d, Process(e, d, Random(r)), 4)
  {
    RandomAcceptedIffConfirmed(e, d, r);
    assert r[..16] == r;
    var key := ConfirmationKey(e, d.secret, S1(e.aes, SaltInputs(d)));
    SecondBlockDecides(e.aes, key, r, d.auth, auth);
    hide S1, K1, Cmac;
  }

  // ---------- every PDU: length, order, and what an accepted one does ----------

  /** The shortest body, and the last state in which the PDU is in order. */
  function MinLen(p: Pdu): nat {
    match p
    case Invite(_) => 1
    case Capabilities(_) => 11
    case Start(_) => 5
    case PublicKey(_) => 64
    case Confirmation(_) => 16
    case Random(_) => 16
    case Data(_) => 33
    case _ => 0
  }

  function LastState(p: Pdu): nat {
    match p
    case Invite(_) => INVITE
    case Capabilities(_) => CAPABILITIES
    case Start(_) => START
    case PublicKey(_) => PUBLIC_KEY
    case InputComplete(_) => INPUT_COMPLETE
    case Confirmation(_) => CONFIRMATION
    case Random(_) => RANDOM
    case Data(_) => DATA
    case Complete(_) => COMPLETE
    case _ => LINK_CLOSING
  }

  /** Too short is refused as a format error, out of order as unexpected, an unknown type as such. A device that cannot
      report refuses in silence. */
  lemma OutOfPlaceIsRefused(e: Env, d: Dev, p: Pdu)
    requires !p.Failed? && d.state <= LINK_CLOSING
    requires |p.body| < MinLen(p) || d.state > LastState(p) || p.Unknown?
    ensures var code: byte := if p.Unknown? then 1 else if |p.body| < MinLen(p) then 2 else 3;
            if Reports(d) then Refused(d, Process(e, d, p), code) else Process(e, d, p) == Out(d, [])
  {
    hide S1, K1, Cmac, CtrFrom, Decrypt, ValidStart, Supported;
  }

  /** What the other PDUs do when they are in place. */
  lemma InPlaceIsTaken(e: Env, d: Dev, p: Pdu)
    requires INVITE <= d.state <= LastState(p) && MinLen(p) <= |p.body|
    ensures p.Invite? ==> Process(e, d, p) == Out(d.(state := INVITE, invite := p.body[..1]), [])
    ensures p.Capabilities? ==>
              if p.body[0] != 0 then Process(e, d, p) == Out(d.(state := CAPABILITIES, caps := p.body[..11]), [])
              else Refused(d, Process(e, d, p), 2)
    ensures p.InputComplete? ==> Process(e, d, p) == Out(d.(state := INPUT_COMPLETE), [])
    ensures p.Confirmation? ==>
              Process(e, d, p) == if d.device then Out(d.(state := CONFIRMATION, cfmRemote := p.body[..16]), [Confirmation(d.cfm)])
                                  else Out(d.(state := RANDOM, cfmRemote := p.body[..16]), [Random(d.rand)])
    ensures p.Complete? ==> Process(e, d, p) == Out(d.(state := COMPLETE), [])
  {
    hide S1, K1, Cmac, CtrFrom, Decrypt, ValidStart, Supported;
  }

  /** A failure report is never answered; an empty one is ignored. */
  lemma FailureIsTaken(e: Env, d: Dev, b: seq<byte>)
    ensures Process(e, d, Failed(b)) == Out(if b == [] then d else d.(state := FAILED), [])
  {
  }

  /** Until the link is open no PDU does anything. */
  lemma ClosedLinkIgnores(e: Env, d: Dev, p: Pdu)
    requires d.state < LINK_OPENED
    ensures Step(e, d, Arrives(p)) == Out(d, [])
  {
  }

  /** What the link does to the state: opening counts only from the start, opened only until it is, closing once it is
      being opened, and a link open packet until it is open. */
  lemma LinkMovesState(e: Env, d: Dev, pub: seq<byte>, priv: seq<byte>, rand: seq<byte>, ackOk: bool)
    ensures Step(e, d, LinkOpen) == Out(if d.state == IDLE then d.(state := LINK_OPENING) else d, [])
    ensures Step(e, d, LinkOpened) == Out(if d.state <= LINK_OPENED then d.(state := LINK_OPENED) else d, [])
    ensures Step(e, d, LinkClose) == Out(if d.state >= LINK_OPENED then d.(state := LINK_CLOSING) else d, [])
    ensures Step(e, d, LinkOpenAgain(pub, priv, rand, ackOk))
            == Out(d.(pub := pub, priv := priv, rand := rand,
                      state := if d.state >= LINK_OPENED then d.state else if ackOk then LINK_OPENED else LINK_OPENING), [])
  {
  }

  // ---------- what the application may send, and when ----------

  /** The states in which the call sends its PDU. */
  predicate MaySend(d: Dev, v: Event) {
    match v
    case CallInvite(_) => d.state == LINK_OPENED
    case CallCapabilities(_) => d.state == INVITE
    case CallStart(_) => d.state == CAPABILITIES
    case CallPublicKey(_) => d.state == START || d.state == PUBLIC_KEY
    case CallInputComplete => d.state == PUBLIC_KEY || d.state == INPUT_COMPLETE
    case CallConfirmation(_) => PUBLIC_KEY <= d.state <= CONFIRMATION
    case CallRandom(_) => d.state == CONFIRMATION || d.state == RANDOM
    case CallData(_) => d.state == RANDOM
    case CallComplete => d.state == DATA
    case CallFailed(_) => Reports(d)
    case _ => false
  }

  predicate IsCall(v: Event) {
    v.CallInvite? || v.CallCapabilities? || v.CallStart? || v.CallPublicKey? || v.CallInputComplete? || v.CallConfirmation?
    || v.CallRandom? || v.CallData? || v.CallComplete? || v.CallFailed?
  }

  /** A call sends exactly one PDU, of its own type and content, in exactly those states, and does nothing in others. */
  lemma CallSendsIff(e: Env, d: Dev, v: Event)
    requires IsCall(v)
    ensures var o := Step(e, d, v);
            && (|o.sent| == if MaySend(d, v) then 1 else 0) && (!MaySend(d, v) ==> o.d == d)
            && (MaySend(d, v) ==>
                  match v
                  case CallInvite(b) => o == Out(d.(state := INVITE, invite := b), [Invite(b)])
                  case CallCapabilities(b) => o == Out(d.(state := CAPABILITIES, caps := b), [Capabilities(b)])
                  case CallStart(b) => o == Out(d.(state := START, start := b), [Start(b)])
                  case CallPublicKey(b) => o == Out(d.(state := PUBLIC_KEY, pub := b), [PublicKey(b)])
                  case CallInputComplete => o == Out(d.(state := INPUT_COMPLETE), [InputComplete([])])
                  case CallConfirmation(b) => o == Out(d.(state := CONFIRMATION, cfm := b), [Confirmation(b)])
                  case CallRandom(b) => o == Out(d.(state := RANDOM, rand := b), [Random(b)])
                  case CallComplete => o == Out(d.(state := COMPLETE), [Complete([])])
                  case CallFailed(code) => Refused(d, o, code)
                  case _ => o.d.state == DATA)
  {
    hide Encrypt;
  }

  /** What a device sends as data, and nothing else, its peer takes for the sealing of them. */
  lemma DataSentIsSealing(e: Env, d: Dev, b: seq<byte>, x: seq<byte>, n: seq<byte>)
    requires d.state == RANDOM && |b| == 25 && |n| == 13 && d.keys.sessionNonce == x + n
    ensures var o := Step(e, d, CallData(b));
            |o.sent| == 1 && o.sent[0].Data? && |o.sent[0].body| == 33 && SealsData(e, d, o.sent[0].body, n, b)
  {
    assert d.keys.sessionNonce[3..] == n;
    var c := Encrypt(e.aes, d.keys.sessionKey, n, [], 8, b);
    assert (c.text + c.tag)[..25] == c.text && (c.text + c.tag)[25..33] == c.tag;
    hide CtrFrom, Tag;
  }

  // ---------- what the keys depend on ----------

  function ProvisionerKey(d: Dev): seq<byte> { if d.device then d.pubRemote else d.pub }

  function DeviceKey(d: Dev): seq<byte> { if d.device then d.pub else d.pubRemote }

  predicate WholeTranscript(d: Dev) {
    |d.invite| == 1 && |d.caps| == 11 && |d.start| == 5 && |d.pub| == 64 && |d.pubRemote| == 64
  }

  /** The confirmation inputs are the whole transcript: two records, of either role, have the same inputs if and only if
      they agree in invite, capabilities, start and both public keys. */
  lemma InputsAreTranscript(d: Dev, f: Dev)
    requires WholeTranscript(d) && WholeTranscript(f)
    ensures SaltInputs(d) == SaltInputs(f) <==>
              d.invite == f.invite && d.caps == f.caps && d.start == f.start
              && ProvisionerKey(d) == ProvisionerKey(f) && DeviceKey(d) == DeviceKey(f)
  {
    InputParts(d);
    InputParts(f);
  }

  lemma InputParts(d: Dev)
    requires WholeTranscript(d)
    ensures var s := SaltInputs(d);
            |s| == 145 && s[..1] == d.invite && s[1..12] == d.caps && s[12..17] == d.start && s[17..81] == ProvisionerKey(d) && s[81..] == DeviceKey(d)
  {
    var s := SaltInputs(d);
    assert s == d.invite + d.caps + d.start + (ProvisionerKey(d) + DeviceKey(d));
  }

  function ProvisionerRandom(d: Dev): seq<byte> { if d.device then d.randRemote else d.rand }

  function DeviceRandom(d: Dev): seq<byte> { if d.device then d.rand else d.randRemote }

  /** One octet for each character. */
  function Ascii(s: string): seq<byte> { seq(|s|, i requires 0 <= i < |s| => (s[i] as int) % 256) }

  lemma LabelsAreAscii()
    ensures PRCK == Ascii("prck") && PRSK == Ascii("prsk") && PRSN == Ascii("prsn") && PRDK == Ascii("prdk")
  {
  }

  /** Section 5.4.2.4, in terms of CMAC: the salt is that of the transcript under the zero key, the confirmation that of
      random and authentication value under the key that secret and salt give for "prck". */
  lemma ConfirmationMeetsProfile(e: Env, d: Dev, r: seq<byte>, salt: Block, t: Block)
    requires salt == Cmac(e.aes, ZERO_BLOCK, d.invite + d.caps + d.start + ProvisionerKey(d) + DeviceKey(d))
    requires t == Cmac(e.aes, salt, d.secret)
    ensures Confirmed(e, d, r) == d.(salt := salt, cfm := Cmac(e.aes, Cmac(e.aes, t, Ascii("prck")), r + d.auth))
  {
    InputOrder(d);
    LabelsAreAscii();
    Derivations(e.aes, d.secret, salt, Ascii("prck"), SaltInputs(d));
    hide Cmac, S1, K1, Ascii, SaltInputs;
  }

  lemma InputOrder(d: Dev)
    ensures d.invite + d.caps + d.start + ProvisionerKey(d) + DeviceKey(d) == SaltInputs(d)
  {
  }

  lemma Derivations(aes: Aes, n: seq<byte>, salt: Block, p: seq<byte>, m: seq<byte>)
    ensures S1(aes, m) == Cmac(aes, ZERO_BLOCK, m) && K1(aes, n, salt, p) == Cmac(aes, Cmac(aes, salt, n), p)
  {
    hide Cmac;
  }

  /** Section 5.4.2.5: the session salt is that of confirmation salt, provisioner's and device's random value;
      the three keys are what secret and salt give for "prsk", "prsn" and "prdk". */
  lemma KeysMeetProfile(e: Env, d: Dev, salt: Block, t: Block)
    requires salt == Cmac(e.aes, ZERO_BLOCK, d.salt + ProvisionerRandom(d) + DeviceRandom(d)) && t == Cmac(e.aes, salt, d.secret)
    ensures WithKeys(e, d)
            == d.(keys := Keys(Cmac(e.aes, t, Ascii("prsk")), Cmac(e.aes, t, Ascii("prsn")), Cmac(e.aes, t, Ascii("prdk"))))
  {
    RandomOrder(d);
    LabelsAreAscii();
    var m := d.salt + ProvisionerRandom(d) + DeviceRandom(d);
    KeyParts(e, d);
    Derivations(e.aes, d.secret, salt, Ascii("prsk"), m);
    Derivations(e.aes, d.secret, salt, Ascii("prsn"), m);
    Derivations(e.aes, d.secret, salt, Ascii("prdk"), m);
    hide *;
  }

  lemma RandomOrder(d: Dev)
    ensures d.salt + ProvisionerRandom(d) + DeviceRandom(d)
            == d.salt + (if d.device then d.randRemote + d.rand else d.rand + d.randRemote)
  {
    assert d.salt + ProvisionerRandom(d) + DeviceRandom(d) == d.salt + (ProvisionerRandom(d) + DeviceRandom(d));
  }

  lemma KeyParts(e: Env, d: Dev)
    ensures var s := S1(e.aes, d.salt + (if d.device then d.randRemote + d.rand else d.rand + d.randRemote));
            WithKeys(e, d) == d.(keys := Keys(K1(e.aes, d.secret, s, PRSK), K1(e.aes, d.secret, s, PRSN), K1(e.aes, d.secret, s, PRDK)))
  {
    hide S1, K1;
  }

  lemma LabelsGiveKeys(aes: Aes, secret: seq<byte>, salt: Block, p: seq<byte>, q: seq<byte>)
    requires OneToOne(aes) && |p| == |q| == 4 && p != q
    ensures K1(aes, secret, salt, p) != K1(aes, secret, salt, q)
  {
    LastBlockDecides(aes, Cmac(aes, salt, secret), ZERO_BLOCK, [], p, q);
    assert [] + p == p && [] + q == q;
    hide CmacFrom;
  }

  /** With any block cipher session key, session nonce and device key are three different blocks. */
  lemma KeysDiffer(e: Env, d: Dev)
    requires OneToOne(e.aes)
    ensures var k := WithKeys(e, d).keys;
            k.sessionKey != k.sessionNonce && k.sessionKey != k.deviceKey && k.sessionNonce != k.deviceKey
  {
    var salt := SessionSalt(e, d);
    assert PRSK[3] == 0x6B && PRSN[3] == 0x6E && PRDK[2] == 0x64 && PRSK[2] == 0x73;
    LabelsGiveKeys(e.aes, d.secret, salt, PRSK, PRSN);
    LabelsGiveKeys(e.aes, d.secret, salt, PRSK, PRDK);
    LabelsGiveKeys(e.aes, d.secret, salt, PRSN, PRDK);
    hide K1, SessionSalt;
  }
}
