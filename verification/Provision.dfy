// Provisioning (mesh/provision/meshx_prov.c): the state guards, the key material, and what each PDU does to a
// device record. meshx_pb_adv.c's link states are part of the same state variable.

module Provision {
  import opened Bytes
  import opened CcmSpec
  import opened CmacSpec

  // meshx_prov_state_t
  const IDLE: nat := 0
  const LINK_OPENING: nat := 1
  const LINK_OPENED: nat := 2
  const INVITE: nat := 3
  const CAPABILITIES: nat := 4
  const START: nat := 5
  const PUBLIC_KEY: nat := 6
  const INPUT_COMPLETE: nat := 7
  const CONFIRMATION: nat := 8
  const RANDOM: nat := 9
  const DATA: nat := 10
  const COMPLETE: nat := 11
  const FAILED: nat := 12
  const LINK_CLOSING: nat := 13

  /** Key agreement is a function of a public and a private key. */
  datatype Env = Env(aes: Aes, ecdh: (seq<byte>, seq<byte>) -> seq<byte>, validKey: seq<byte> -> bool)

  datatype Dev = Dev(device: bool, state: nat, invite: seq<byte>, caps: seq<byte>, start: seq<byte>,
                     pub: seq<byte>, priv: seq<byte>, pubRemote: seq<byte>, secret: seq<byte>, auth: seq<byte>,
                     rand: seq<byte>, randRemote: seq<byte>, cfm: seq<byte>, cfmRemote: seq<byte>,
                     salt: Block, keys: Keys, data: seq<byte>, mic: seq<byte>, errCode: nat)

  datatype Keys = Keys(sessionKey: Block, sessionNonce: Block, deviceKey: Block)

  datatype Pdu =
    | Invite(body: seq<byte>) | Capabilities(body: seq<byte>) | Start(body: seq<byte>) | PublicKey(body: seq<byte>)
    | InputComplete(body: seq<byte>) | Confirmation(body: seq<byte>) | Random(body: seq<byte>) | Data(body: seq<byte>)
    | Complete(body: seq<byte>) | Failed(body: seq<byte>) | Unknown(body: seq<byte>)

  datatype Out = Out(d: Dev, sent: seq<Pdu>)

  // ---------- key material ----------

  const PRCK: seq<byte> := [0x70, 0x72, 0x63, 0x6B]
  const PRSK: seq<byte> := [0x70, 0x72, 0x73, 0x6B]
  const PRSN: seq<byte> := [0x70, 0x72, 0x73, 0x6E]
  const PRDK: seq<byte> := [0x70, 0x72, 0x64, 0x6B]

  /** The provisioner's public key comes first on both sides. */
  function SaltInputs(d: Dev): seq<byte> {
    d.invite + d.caps + d.start + (if d.device then d.pubRemote + d.pub else d.pub + d.pubRemote)
  }

  function ConfirmationKey(e: Env, secret: seq<byte>, salt: Block): Block { K1(e.aes, secret, salt, PRCK) }

  /** meshx_prov_generate_confirmation */
  function Confirmed(e: Env, d: Dev, random: seq<byte>): Dev {
    var salt := S1(e.aes, SaltInputs(d));
    d.(salt := salt, cfm := Cmac(e.aes, ConfirmationKey(e, d.secret, salt), random + d.auth))
  }

  function SessionSalt(e: Env, d: Dev): Block {
    S1(e.aes, d.salt + (if d.device then d.randRemote + d.rand else d.rand + d.randRemote))
  }

  /** meshx_prov_calculate_session_device_key */
  function WithKeys(e: Env, d: Dev): Dev {
    var salt := SessionSalt(e, d);
    d.(keys := Keys(K1(e.aes, d.secret, salt, PRSK), K1(e.aes, d.secret, salt, PRSN), K1(e.aes, d.secret, salt, PRDK)))
  }

  // ---------- sending ----------

  function SendInvite(d: Dev, b: seq<byte>): Out {
    if d.state < LINK_OPENED || d.state >= INVITE then Out(d, []) else Out(d.(state := INVITE, invite := b), [Invite(b)])
  }

  /** b in the byte order of the air interface. */
  function SendCapabilities(d: Dev, b: seq<byte>): Out {
    if d.state < INVITE || d.state >= CAPABILITIES then Out(d, [])
    else Out(d.(state := CAPABILITIES, caps := b), [Capabilities(b)])
  }

  function SendStart(d: Dev, b: seq<byte>): Out {
    if d.state < CAPABILITIES || d.state >= START then Out(d, []) else Out(d.(state := START, start := b), [Start(b)])
  }

  function SendPublicKey(d: Dev, b: seq<byte>): Out {
    if d.state < START || d.state > PUBLIC_KEY then Out(d, []) else Out(d.(state := PUBLIC_KEY, pub := b), [PublicKey(b)])
  }

  function SendInputComplete(d: Dev): Out {
    if d.state < PUBLIC_KEY || d.state > INPUT_COMPLETE then Out(d, []) else Out(d.(state := INPUT_COMPLETE), [InputComplete([])])
  }

  function SendConfirmation(d: Dev, b: seq<byte>): Out {
    if d.state < PUBLIC_KEY || d.state > CONFIRMATION then Out(d, [])
    else Out(d.(state := CONFIRMATION, cfm := b), [Confirmation(b)])
  }

  function SendRandom(d: Dev, b: seq<byte>): Out {
    if d.state < CONFIRMATION || d.state > RANDOM then Out(d, []) else Out(d.(state := RANDOM, rand := b), [Random(b)])
  }

  /** meshx_prov_data: the data are encrypted in place under the session key. */
  function SendData(e: Env, d: Dev, b: seq<byte>): Out {
    if d.state < RANDOM || d.state >= DATA then Out(d, [])
    else
      var c := Encrypt(e.aes, d.keys.sessionKey, d.keys.sessionNonce[3..], [], 8, b);
      Out(d.(state := DATA, data := c.text, mic := c.tag), [Data(c.text + c.tag)])
  }

  function SendComplete(d: Dev): Out {
    if d.state < DATA || d.state >= COMPLETE then Out(d, []) else Out(d.(state := COMPLETE), [Complete([])])
  }

  function Fail(d: Dev, code: byte): Out {
    if d.state < INVITE || d.state == COMPLETE || d.state == FAILED then Out(d, [])
    else Out(d.(state := FAILED, errCode := code), [Failed([code])])
  }

  // ---------- receiving ----------

  predicate ValidStart(b: seq<byte>)
    requires |b| >= 5
  {
    && b[0] <= 1 && b[1] <= 1 && b[2] < 4 && (b[2] == 2 ==> b[3] < 5) && (b[2] == 3 ==> b[3] < 4)
    && (b[2] == 2 || b[2] == 3 ==> 1 <= b[4] <= 8)
  }

  predicate Supported(caps: seq<byte>, b: seq<byte>)
    requires |caps| >= 11 && |b| >= 5
  {
    && b[1] == caps[3]
    && (b[2] == 1 ==> caps[4] != 0)
    && (b[2] == 2 ==> caps[5] != 0 && b[4] <= caps[5] && TestBit(FromBE(caps[6..8]), b[3]))
    && (b[2] == 3 ==> caps[8] != 0 && b[4] <= caps[8] && TestBit(FromBE(caps[9..11]), b[3]))
  }

  function RecvInvite(d: Dev, b: seq<byte>): Out {
    if |b| < 1 then Fail(d, 2) else if d.state > INVITE then Fail(d, 3)
    else Out(d.(state := INVITE, invite := b[..1]), [])
  }

  function RecvCapabilities(d: Dev, b: seq<byte>): Out {
    if |b| < 11 then Fail(d, 2) else if d.state > CAPABILITIES then Fail(d, 3) else if b[0] == 0 then Fail(d, 2)
    else Out(d.(state := CAPABILITIES, caps := b[..11]), [])
  }

  /** A device whose capabilities have not been set has them all zero. */
  function RecvStart(d: Dev, b: seq<byte>): Out {
    if |b| < 5 then Fail(d, 2) else if d.state > START then Fail(d, 3) else if !ValidStart(b) then Fail(d, 2)
    else if !Supported(if |d.caps| >= 11 then d.caps else Zeros(11), b) then Fail(d, 5)
    else Out(d.(state := START, start := b[..5]), [])
  }

  function RecvPublicKey(e: Env, d: Dev, b: seq<byte>): Out {
    if |b| < 64 then Fail(d, 2) else if d.state > PUBLIC_KEY then Fail(d, 3) else if !e.validKey(b[..64]) then Fail(d, 2)
    else Out(d.(state := PUBLIC_KEY, secret := e.ecdh(b[..64], d.priv), pubRemote := b[..64]), [])
  }

  function RecvInputComplete(d: Dev): Out {
    if d.state > INPUT_COMPLETE then Fail(d, 3) else Out(d.(state := INPUT_COMPLETE), [])
  }

  function RecvConfirmation(d: Dev, b: seq<byte>): Out {
    if |b| < 16 then Fail(d, 2) else if d.state > CONFIRMATION then Fail(d, 3)
    else
      var c := d.(state := CONFIRMATION, cfmRemote := b[..16]);
      if d.device then SendConfirmation(c, c.cfm) else SendRandom(c, c.rand)
  }

  function RecvRandom(e: Env, d: Dev, b: seq<byte>): Out {
    if |b| < 16 then Fail(d, 2) else if d.state > RANDOM then Fail(d, 3)
    else
      var c := Confirmed(e, d.(randRemote := b[..16]), b[..16]);
      if c.cfm != c.cfmRemote then Fail(c, 4)
      else
        var o := if d.device then SendRandom(c.(state := RANDOM), c.rand) else Out(c.(state := RANDOM), []);
        Out(WithKeys(e, o.d), o.sent)
  }

  function RecvData(e: Env, d: Dev, b: seq<byte>): Out {
    if |b| < 33 then Fail(d, 2) else if d.state > DATA then Fail(d, 3)
    else
      var n := d.keys.sessionNonce[3..];
      var c := d.(data := CtrFrom(e.aes, d.keys.sessionKey, n, 1, b[..25]));
      if Decrypt(e.aes, d.keys.sessionKey, n, [], Sealed(b[..25], b[25..33])).None? then Fail(c, 6)
      else SendComplete(c.(state := DATA))
  }

  function RecvComplete(d: Dev): Out {
    if d.state > COMPLETE then Fail(d, 3) else Out(d.(state := COMPLETE), [])
  }

  function RecvFailed(d: Dev, b: seq<byte>): Out { if |b| < 1 then Out(d, []) else Out(d.(state := FAILED), []) }

  /** meshx_prov_pdu_process */
  function Process(e: Env, d: Dev, p: Pdu): Out {
    match p
    case Invite(b) => RecvInvite(d, b)
    case Capabilities(b) => RecvCapabilities(d, b)
    case Start(b) => RecvStart(d, b)
    case PublicKey(b) => RecvPublicKey(e, d, b)
    case InputComplete(_) => RecvInputComplete(d)
    case Confirmation(b) => RecvConfirmation(d, b)
    case Random(b) => RecvRandom(e, d, b)
    case Data(b) => RecvData(e, d, b)
    case Complete(_) => RecvComplete(d)
    case Failed(b) => RecvFailed(d, b)
    case Unknown(_) => Fail(d, 1)
  }

  // ---------- link state and runs ----------

  datatype Event =
    | LinkOpen                                                    // meshx_pb_adv_link_open
    | LinkOpened                                                  // a link acknowledgement was sent or received
    | LinkOpenAgain(pub: seq<byte>, priv: seq<byte>, rand: seq<byte>, ackOk: bool) // a link open packet at the device
    | LinkClose
    | Arrives(p: Pdu)
    | CallInvite(b: seq<byte>) | CallCapabilities(b: seq<byte>) | CallStart(b: seq<byte>) | CallPublicKey(b: seq<byte>)
    | CallInputComplete | CallGenerate(r: seq<byte>) | CallConfirmation(b: seq<byte>) | CallRandom(b: seq<byte>)
    | CallData(b: seq<byte>) | CallComplete | CallFailed(code: byte) | CallAuth(a: seq<byte>)

  /** The device makes a new key pair and random value before it looks at the state. */
  function RecvLinkOpen(d: Dev, pub: seq<byte>, priv: seq<byte>, rand: seq<byte>, ackOk: bool): Dev {
    var c := d.(pub := pub, priv := priv, rand := rand);
    if d.state >= LINK_OPENED then c else c.(state := if ackOk then LINK_OPENED else LINK_OPENING)
  }

  function Step(e: Env, d: Dev, v: Event): Out {
    match v
    case LinkOpen => if d.state > IDLE then Out(d, []) else Out(d.(state := LINK_OPENING), [])
    case LinkOpened => if d.state > LINK_OPENED then Out(d, []) else Out(d.(state := LINK_OPENED), [])
    case LinkOpenAgain(pub, priv, rand, ackOk) => Out(RecvLinkOpen(d, pub, priv, rand, ackOk), [])
    case LinkClose => if d.state <= LINK_OPENING then Out(d, []) else Out(d.(state := LINK_CLOSING), [])
    case Arrives(p) => if d.state < LINK_OPENED then Out(d, []) else Process(e, d, p)
    case CallInvite(b) => SendInvite(d, b)
    case CallCapabilities(b) => SendCapabilities(d, b)
    case CallStart(b) => SendStart(d, b)
    case CallPublicKey(b) => SendPublicKey(d, b)
    case CallInputComplete => SendInputComplete(d)
    case CallGenerate(r) => Out(Confirmed(e, d, r), [])
    case CallConfirmation(b) => SendConfirmation(d, b)
    case CallRandom(b) => SendRandom(d, b)
    case CallData(b) => SendData(e, d, b)
    case CallComplete => SendComplete(d)
    case CallFailed(code) => Fail(d, code)
    case CallAuth(a) => Out(d.(auth := a), [])
  }

  function Run(e: Env, d: Dev, vs: seq<Event>): Dev
    decreases |vs|
  {
    if vs == [] then d else Run(e, Step(e, d, vs[0]).d, vs[1..])
  }

  /** Whether the event makes a closing link report failure: a failure PDU, or anything that calls
      meshx_prov_failed, which accepts every state but the early ones, COMPLETE and FAILED. */
  predicate Fails(v: Event) {
    match v
    case CallFailed(_) => true
    case Arrives(Failed(b)) => |b| >= 1
    case Arrives(_) => true
    case _ => false
  }

  /** The state never moves backward, except from LINK_CLOSING, and there exactly by failing. */
  lemma StateMovesForward(e: Env, d: Dev, v: Event)
    requires d.state <= LINK_CLOSING
    ensures var s := Step(e, d, v).d.state;
            && s <= LINK_CLOSING
            && (s < d.state <==> d.state == LINK_CLOSING && Fails(v))
            && (s < d.state ==> s == FAILED)
  {
    if v.Arrives? && d.state >= LINK_OPENED { PduMovesForward(e, d, v.p); }
    hide Process, S1, K1, Cmac, Encrypt;
  }

  lemma PduMovesForward(e: Env, d: Dev, p: Pdu)
    requires d.state <= LINK_CLOSING
    ensures var s := Process(e, d, p).d.state;
            && s <= LINK_CLOSING && (d.state <= FAILED ==> d.state <= s <= FAILED)
            && (d.state == LINK_CLOSING ==> s == if Fails(Arrives(p)) then FAILED else LINK_CLOSING)
  {
    hide S1, K1, Cmac, Encrypt, Decrypt, CtrFrom, ValidStart, Supported;
  }

  /** Over any run without a link close, the state never moves backward. */
  lemma {:induction false} StateNeverGoesBack(e: Env, d: Dev, vs: seq<Event>)
    requires d.state <= FAILED && forall i :: 0 <= i < |vs| ==> !vs[i].LinkClose?
    ensures d.state <= Run(e, d, vs).state <= FAILED
    decreases |vs|
  {
    hide Step;
    if vs != [] {
      StateMovesForward(e, d, vs[0]);
      OnlyCloseCloses(e, d, vs[0]);
      StateNeverGoesBack(e, Step(e, d, vs[0]).d, vs[1..]);
    }
  }

  lemma OnlyCloseCloses(e: Env, d: Dev, v: Event)
    requires d.state <= FAILED && !v.LinkClose?
    ensures Step(e, d, v).d.state <= FAILED
  {
    if v.Arrives? && d.state >= LINK_OPENED { PduMovesForward(e, d, v.p); }
    hide Process, S1, K1, Cmac, Encrypt;
  }
}
