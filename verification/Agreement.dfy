// Two-party provisioning: a provisioner and a device that follow the protocol over first-in first-out links,
// their steps interleaved in any way, always agree.

module Agreement {
  import opened Bytes
  import opened CcmSpec
  import opened CmacSpec
  import opened Provision

  /** What the two applications bring to an honest run: the invite, capabilities, start and authentication values,
      the data to be provisioned, and the two device records once the link is open. */
  datatype Honest = Honest(e: Env, p: Dev, d: Dev, invite: seq<byte>, caps: seq<byte>, start: seq<byte>,
                           auth: seq<byte>, data: seq<byte>)

  predicate Fair(h: Honest) {
    && !h.p.device && h.d.device && h.p.state == LINK_OPENED && h.d.state == LINK_OPENED
    && |h.invite| == 1 && |h.caps| == 11 && h.caps[0] != 0
    && |h.start| == 5 && ValidStart(h.start) && Supported(h.caps, h.start)
    && |h.p.pub| == 64 && |h.d.pub| == 64 && h.e.validKey(h.p.pub) && h.e.validKey(h.d.pub)
    && h.e.ecdh(h.d.pub, h.p.priv) == h.e.ecdh(h.p.pub, h.d.priv)
    && |h.p.rand| == 16 && |h.d.rand| == 16 && |h.data| == 25
  }

  // ---------- scripts ----------

  /** What an application does at one point of its script: call a send function, or wait for a PDU. */
  datatype Act = DoInvite | DoCaps | DoStart | DoPublicKey | DoAuth | DoGenerate | DoConfirmation | DoData | Receive

  const PROVISIONER_LEN: nat := 12
  const DEVICE_LEN: nat := 10

  function ProvisionerAct(i: nat): Act {
    match i
    case 0 => DoInvite
    case 2 => DoStart
    case 3 => DoPublicKey
    case 5 => DoAuth
    case 6 => DoGenerate
    case 7 => DoConfirmation
    case 10 => DoData
    case _ => Receive
  }

  function DeviceAct(i: nat): Act {
    match i
    case 1 => DoCaps
    case 4 => DoPublicKey
    case 5 => DoAuth
    case 6 => DoGenerate
    case _ => Receive
  }

  function Call(h: Honest, d: Dev, a: Act): Out {
    match a
    case DoInvite => SendInvite(d, h.invite)
    case DoCaps => SendCapabilities(d, h.caps)
    case DoStart => SendStart(d, h.start)
    case DoPublicKey => SendPublicKey(d, d.pub)
    case DoAuth => Out(d.(auth := h.auth), [])
    case DoGenerate => Out(Confirmed(h.e, d, d.rand), [])
    case DoConfirmation => SendConfirmation(d, d.cfm)
    case DoData => SendData(h.e, d, h.data)
    case Receive => Out(d, [])
  }

  /** Both records, how far each script has got, and the PDUs on their way. */
  datatype Sys = Sys(p: Dev, d: Dev, pi: nat, di: nat, toD: seq<Pdu>, toP: seq<Pdu>)

  predicate CanMove(s: Sys, provisioner: bool) {
    if provisioner then s.pi < PROVISIONER_LEN && (ProvisionerAct(s.pi) == Receive ==> s.toP != [])
    else s.di < DEVICE_LEN && (DeviceAct(s.di) == Receive ==> s.toD != [])
  }

  function Move(h: Honest, s: Sys, provisioner: bool): Sys
    requires CanMove(s, provisioner)
  {
    if provisioner then
      if ProvisionerAct(s.pi) == Receive then
        var o := Process(h.e, s.p, s.toP[0]);
        s.(p := o.d, pi := s.pi + 1, toP := s.toP[1..], toD := s.toD + o.sent)
      else
        var o := Call(h, s.p, ProvisionerAct(s.pi));
        s.(p := o.d, pi := s.pi + 1, toD := s.toD + o.sent)
    else if DeviceAct(s.di) == Receive then
      var o := Process(h.e, s.d, s.toD[0]);
      s.(d := o.d, di := s.di + 1, toD := s.toD[1..], toP := s.toP + o.sent)
    else
      var o := Call(h, s.d, DeviceAct(s.di));
      s.(d := o.d, di := s.di + 1, toP := s.toP + o.sent)
  }

  /** A schedule says who moves next; it may stop anywhere. */
  predicate Runs(h: Honest, s: Sys, who: seq<bool>)
    decreases |who|
  {
    who == [] || (CanMove(s, who[0]) && Runs(h, Move(h, s, who[0]), who[1..]))
  }

  function RunSys(h: Honest, s: Sys, who: seq<bool>): Sys
    requires Runs(h, s, who)
    decreases |who|
  {
    if who == [] then s else RunSys(h, Move(h, s, who[0]), who[1..])
  }

  function Begin(h: Honest): Sys { Sys(h.p, h.d, 0, 0, [], []) }

  // ---------- what both sides compute ----------

  function Secret(h: Honest): seq<byte> { h.e.ecdh(h.d.pub, h.p.priv) }

  function Salt(h: Honest): Block { S1(h.e.aes, h.invite + h.caps + h.start + (h.p.pub + h.d.pub)) }

  function Cfm(h: Honest, r: seq<byte>): Block { Cmac(h.e.aes, ConfirmationKey(h.e, Secret(h), Salt(h)), r + h.auth) }

  function AgreedKeys(h: Honest): Keys {
    var salt := S1(h.e.aes, Salt(h) + (h.p.rand + h.d.rand));
    Keys(K1(h.e.aes, Secret(h), salt, PRSK), K1(h.e.aes, Secret(h), salt, PRSN), K1(h.e.aes, Secret(h), salt, PRDK))
  }

  function Cipher(h: Honest): Sealed {
    Encrypt(h.e.aes, AgreedKeys(h).sessionKey, AgreedKeys(h).sessionNonce[3..], [], 8, h.data)
  }

  /** The provisioner after i steps of its script. */
  function PAt(h: Honest, i: nat): Dev {
    if i == 0 then h.p
    else
      var d := PAt(h, i - 1);
      match i
      case 1 => d.(state := INVITE, invite := h.invite)
      case 2 => d.(state := CAPABILITIES, caps := h.caps)
      case 3 => d.(state := START, start := h.start)
      case 4 => d.(state := PUBLIC_KEY)
      case 5 => d.(state := PUBLIC_KEY, secret := Secret(h), pubRemote := h.d.pub)
      case 6 => d.(auth := h.auth)
      case 7 => d.(salt := Salt(h), cfm := Cfm(h, h.p.rand))
      case 8 => d.(state := CONFIRMATION)
      case 9 => d.(state := RANDOM, cfmRemote := Cfm(h, h.d.rand))
      case 10 => d.(state := RANDOM, randRemote := h.d.rand, cfm := Cfm(h, h.d.rand), keys := AgreedKeys(h))
      case 11 => d.(state := DATA, data := Cipher(h).text, mic := Cipher(h).tag)
      case 12 => d.(state := COMPLETE)
      case _ => d
  }

  /** The device after i steps of its script. */
  function DAt(h: Honest, i: nat): Dev {
    if i == 0 then h.d
    else
      var d := DAt(h, i - 1);
      match i
      case 1 => d.(state := INVITE, invite := h.invite)
      case 2 => d.(state := CAPABILITIES, caps := h.caps)
      case 3 => d.(state := START, start := h.start)
      case 4 => d.(state := PUBLIC_KEY, secret := Secret(h), pubRemote := h.p.pub)
      case 5 => d.(state := PUBLIC_KEY)
      case 6 => d.(auth := h.auth)
      case 7 => d.(salt := Salt(h), cfm := Cfm(h, h.d.rand))
      case 8 => d.(state := CONFIRMATION, cfmRemote := Cfm(h, h.p.rand))
      case 9 => d.(state := RANDOM, randRemote := h.p.rand, cfm := Cfm(h, h.p.rand), keys := AgreedKeys(h))
      case 10 => d.(state := COMPLETE, data := h.data)
      case _ => d
  }

  /** Everything the provisioner sends, in order. */
  function ToDevice(h: Honest): (q: seq<Pdu>)
    ensures |q| == 6
  {
    [Invite(h.invite), Start(h.start), PublicKey(h.p.pub), Confirmation(Cfm(h, h.p.rand)), Random(h.p.rand),
     Data(Cipher(h).text + Cipher(h).tag)]
  }

  function ToProvisioner(h: Honest): (q: seq<Pdu>)
    ensures |q| == 5
  {
    [Capabilities(h.caps), PublicKey(h.d.pub), Confirmation(Cfm(h, h.d.rand)), Random(h.d.rand), Complete([])]
  }

  // How many PDUs have been sent and received after i steps of a script.

  function PSent(i: nat): (k: nat)
    ensures k <= 6
  {
    if i < 1 then 0 else if i < 3 then 1 else if i < 4 then 2 else if i < 8 then 3 else if i < 9 then 4 else if i < 11 then 5 else 6
  }

  function PReceived(i: nat): (k: nat)
    ensures k <= 5 && (i < PROVISIONER_LEN ==> k <= 4)
  {
    if i < 2 then 0 else if i < 5 then 1 else if i < 9 then 2 else if i < 10 then 3 else if i < 12 then 4 else 5
  }

  function DSent(i: nat): (k: nat)
    ensures k <= 5
  {
    if i < 2 then 0 else if i < 5 then 1 else if i < 8 then 2 else if i < 9 then 3 else if i < 10 then 4 else 5
  }

  function DReceived(i: nat): (k: nat)
    ensures k <= 6 && (i < DEVICE_LEN ==> k <= 5)
  {
    if i < 1 then 0 else if i < 3 then 1 else if i < 4 then 2 else if i < 8 then 3 else if i < 9 then 4 else if i < 10 then 5 else 6
  }

  predicate Inv(h: Honest, s: Sys) {
    && s.pi <= PROVISIONER_LEN && s.di <= DEVICE_LEN && DReceived(s.di) <= PSent(s.pi) && PReceived(s.pi) <= DSent(s.di)
    && s.p == PAt(h, s.pi) && s.d == DAt(h, s.di)
    && s.toD == ToDevice(h)[DReceived(s.di)..PSent(s.pi)] && s.toP == ToProvisioner(h)[PReceived(s.pi)..DSent(s.di)]
  }

  // ---------- one step ----------

  /** Step i of the provisioner's script, on the PDU that comes next. */
  function ProvisionerStep(h: Honest, d: Dev, i: nat): Out
    requires i < PROVISIONER_LEN
  {
    if ProvisionerAct(i) == Receive then Process(h.e, d, ToProvisioner(h)[PReceived(i)]) else Call(h, d, ProvisionerAct(i))
  }

  function DeviceStep(h: Honest, d: Dev, i: nat): Out
    requires i < DEVICE_LEN
  {
    if DeviceAct(i) == Receive then Process(h.e, d, ToDevice(h)[DReceived(i)]) else Call(h, d, DeviceAct(i))
  }

  function ProvisionerSends(h: Honest, i: nat): seq<Pdu> {
    match i
    case 0 => [Invite(h.invite)]
    case 2 => [Start(h.start)]
    case 3 => [PublicKey(h.p.pub)]
    case 7 => [Confirmation(Cfm(h, h.p.rand))]
    case 8 => [Random(h.p.rand)]
    case 10 => [Data(Cipher(h).text + Cipher(h).tag)]
    case _ => []
  }

  function DeviceSends(h: Honest, i: nat): seq<Pdu> {
    match i
    case 1 => [Capabilities(h.caps)]
    case 4 => [PublicKey(h.d.pub)]
    case 7 => [Confirmation(Cfm(h, h.d.rand))]
    case 8 => [Random(h.d.rand)]
    case 9 => [Complete([])]
    case _ => []
  }

  // ---------- the records along the scripts ----------

  function StateP(i: nat): nat {
    match i
    case 0 => LINK_OPENED case 1 => INVITE case 2 => CAPABILITIES case 3 => START
    case 8 => CONFIRMATION case 9 => RANDOM case 10 => RANDOM case 11 => DATA case 12 => COMPLETE
    case _ => PUBLIC_KEY
  }

  function StateD(i: nat): nat {
    match i
    case 0 => LINK_OPENED case 1 => INVITE case 2 => CAPABILITIES case 3 => START
    case 8 => CONFIRMATION case 9 => RANDOM case 10 => COMPLETE
    case _ => PUBLIC_KEY
  }

  lemma {:induction false} ProvisionerFields(h: Honest, i: nat)
    requires Fair(h) && i <= PROVISIONER_LEN
    ensures var d := PAt(h, i);
            && !d.device && d.state == StateP(i) && d.pub == h.p.pub && d.priv == h.p.priv && d.rand == h.p.rand
            && (i >= 1 ==> d.invite == h.invite) && (i >= 2 ==> d.caps == h.caps) && (i >= 3 ==> d.start == h.start)
            && (i >= 5 ==> d.secret == Secret(h) && d.pubRemote == h.d.pub) && (i >= 6 ==> d.auth == h.auth)
            && (i >= 7 ==> d.salt == Salt(h)) && (7 <= i <= 9 ==> d.cfm == Cfm(h, h.p.rand))
            && (i >= 9 ==> d.cfmRemote == Cfm(h, h.d.rand)) && (i >= 10 ==> d.keys == AgreedKeys(h))
  {
    hide Cfm, Cipher, Salt, AgreedKeys, ValidStart, Supported;
    if i > 0 { ProvisionerFields(h, i - 1); }
  }

  lemma {:induction false} DeviceFields(h: Honest, i: nat)
    requires Fair(h) && i <= DEVICE_LEN
    ensures var d := DAt(h, i);
            && d.device && d.state == StateD(i) && d.pub == h.d.pub && d.priv == h.d.priv && d.rand == h.d.rand
            && (i >= 1 ==> d.invite == h.invite) && (i >= 2 ==> d.caps == h.caps) && (i >= 3 ==> d.start == h.start)
            && (i >= 4 ==> d.secret == Secret(h) && d.pubRemote == h.p.pub) && (i >= 6 ==> d.auth == h.auth)
            && (i >= 7 ==> d.salt == Salt(h)) && (7 <= i <= 8 ==> d.cfm == Cfm(h, h.d.rand))
            && (i >= 8 ==> d.cfmRemote == Cfm(h, h.p.rand)) && (i >= 9 ==> d.keys == AgreedKeys(h))
  {
    hide Cfm, Cipher, Salt, AgreedKeys, ValidStart, Supported;
    if i > 0 { DeviceFields(h, i - 1); }
  }

  /** Both sides compute the same confirmation salt and, for the same random value, the same confirmation. */
  lemma SameConfirmation(h: Honest, d: Dev, r: seq<byte>)
    requires d.invite == h.invite && d.caps == h.caps && d.start == h.start && d.secret == Secret(h) && d.auth == h.auth
    requires if d.device then d.pub == h.d.pub && d.pubRemote == h.p.pub else d.pub == h.p.pub && d.pubRemote == h.d.pub
    ensures Confirmed(h.e, d, r) == d.(salt := Salt(h), cfm := Cfm(h, r))
  {
  }

  lemma SameKeys(h: Honest, d: Dev)
    requires d.salt == Salt(h) && d.secret == Secret(h)
    requires if d.device then d.rand == h.d.rand && d.randRemote == h.p.rand else d.rand == h.p.rand && d.randRemote == h.d.rand
    ensures WithKeys(h.e, d) == d.(keys := AgreedKeys(h))
  {
  }

  /** The device decrypts exactly the data that were sent. */
  lemma DataDecrypts(h: Honest)
    requires Fair(h)
    ensures var k, c := AgreedKeys(h), Cipher(h);
            && |c.text| == 25 && |c.tag| == 8
            && Decrypt(h.e.aes, k.sessionKey, k.sessionNonce[3..], [], c) == Some(h.data)
            && CtrFrom(h.e.aes, k.sessionKey, k.sessionNonce[3..], 1, c.text) == h.data
  {
    var k := AgreedKeys(h);
    RoundTrip(h.e.aes, k.sessionKey, k.sessionNonce[3..], [], 8, h.data, Cipher(h));
    CtrInvolution(h.e.aes, k.sessionKey, k.sessionNonce[3..], 1, h.data);
    hide AgreedKeys, Tag;
  }

  predicate ProvisionerStepOk(h: Honest, i: nat)
    requires i < PROVISIONER_LEN
  {
    ProvisionerStep(h, PAt(h, i), i) == Out(PAt(h, i + 1), ProvisionerSends(h, i))
  }

  predicate DeviceStepOk(h: Honest, i: nat)
    requires i < DEVICE_LEN
  {
    DeviceStep(h, DAt(h, i), i) == Out(DAt(h, i + 1), DeviceSends(h, i))
  }

  lemma ProvisionerCalls(h: Honest, i: nat)
    requires Fair(h) && i < PROVISIONER_LEN && ProvisionerAct(i) != Receive
    ensures ProvisionerStepOk(h, i)
  {
    ProvisionerFields(h, i);
    if i == 6 { SameConfirmation(h, PAt(h, 6), h.p.rand); }
    hide Cfm, Salt, AgreedKeys, Confirmed, ValidStart, Supported, Tag, CtrFrom;
  }

  // One lemma for each PDU an honest party takes.

  lemma TakesInvite(h: Honest, d: Dev)
    requires |h.invite| == 1 && d.state == LINK_OPENED
    ensures RecvInvite(d, h.invite) == Out(d.(state := INVITE, invite := h.invite), [])
  {
    assert h.invite[..1] == h.invite;
  }

  lemma TakesCapabilities(h: Honest, d: Dev)
    requires |h.caps| == 11 && h.caps[0] != 0 && d.state == INVITE
    ensures RecvCapabilities(d, h.caps) == Out(d.(state := CAPABILITIES, caps := h.caps), [])
  {
    assert h.caps[..11] == h.caps;
  }

  lemma TakesStart(h: Honest, d: Dev)
    requires |h.caps| == 11 && |h.start| == 5 && ValidStart(h.start) && Supported(h.caps, h.start)
    requires d.state == CAPABILITIES && d.caps == h.caps
    ensures RecvStart(d, h.start) == Out(d.(state := START, start := h.start), [])
  {
    hide ValidStart, Supported;
    assert h.start[..5] == h.start;
  }

  lemma TakesPublicKey(h: Honest, d: Dev, b: seq<byte>)
    requires |b| == 64 && h.e.validKey(b) && d.state <= PUBLIC_KEY
    ensures RecvPublicKey(h.e, d, b) == Out(d.(state := PUBLIC_KEY, secret := h.e.ecdh(b, d.priv), pubRemote := b), [])
  {
    assert b[..64] == b;
  }

  lemma TakesConfirmation(d: Dev, b: Block)
    requires d.state == (if d.device then PUBLIC_KEY else CONFIRMATION)
    ensures RecvConfirmation(d, b)
            == if d.device then Out(d.(state := CONFIRMATION, cfmRemote := b), [Confirmation(d.cfm)])
               else Out(d.(state := RANDOM, cfmRemote := b), [Random(d.rand)])
  {
    assert b[..16] == b;
  }

  /** A random value that fits the confirmation received before completes the key agreement. */
  lemma TakesRandom(h: Honest, d: Dev, r: seq<byte>)
    requires |r| == 16 && d.state == (if d.device then CONFIRMATION else RANDOM) && d.cfmRemote == Cfm(h, r)
    requires d.invite == h.invite && d.caps == h.caps && d.start == h.start && d.secret == Secret(h) && d.auth == h.auth
    requires if d.device then d.pub == h.d.pub && d.pubRemote == h.p.pub && d.rand == h.d.rand && r == h.p.rand
             else d.pub == h.p.pub && d.pubRemote == h.d.pub && d.rand == h.p.rand && r == h.d.rand
    ensures RecvRandom(h.e, d, r)
            == Out(d.(state := RANDOM, randRemote := r, salt := Salt(h), cfm := Cfm(h, r), keys := AgreedKeys(h)),
                   if d.device then [Random(d.rand)] else [])
  {
    var c := d.(randRemote := r);
    SameConfirmation(h, c, r);
    SameKeys(h, c.(salt := Salt(h), cfm := Cfm(h, r), state := RANDOM));
    hide Cfm, Salt, AgreedKeys, Confirmed, WithKeys, Secret;
    assert r[..16] == r;
  }

  lemma TakesData(h: Honest, d: Dev)
    requires Fair(h) && d.state == RANDOM && d.keys == AgreedKeys(h)
    ensures RecvData(h.e, d, Cipher(h).text + Cipher(h).tag) == Out(d.(state := COMPLETE, data := h.data), [Complete([])])
  {
    hide AgreedKeys, Cipher, Decrypt, CtrFrom, Fair;
    DataDecrypts(h);
    var b := Cipher(h).text + Cipher(h).tag;
    assert b[..25] == Cipher(h).text && b[25..33] == Cipher(h).tag;
    assert Sealed(b[..25], b[25..33]) == Cipher(h);
  }

  lemma ProvisionerReceives(h: Honest, i: nat)
    requires Fair(h) && i < PROVISIONER_LEN && ProvisionerAct(i) == Receive
    ensures ProvisionerStepOk(h, i)
  {
    hide Cfm, Salt, AgreedKeys, ValidStart, Supported, Cipher, RecvCapabilities, RecvPublicKey, RecvConfirmation, RecvRandom;
    ProvisionerFields(h, i);
    var d := PAt(h, i);
    match i
    case 1 => TakesCapabilities(h, d);
    case 4 => TakesPublicKey(h, d, h.d.pub);
    case 8 => TakesConfirmation(d, Cfm(h, h.d.rand));
    case 9 => TakesRandom(h, d, h.d.rand);
    case 11 =>
  }

  lemma DeviceCalls(h: Honest, i: nat)
    requires Fair(h) && i < DEVICE_LEN && DeviceAct(i) != Receive
    ensures DeviceStepOk(h, i)
  {
    DeviceFields(h, i);
    if i == 6 { SameConfirmation(h, DAt(h, 6), h.d.rand); }
    hide Cfm, Salt, AgreedKeys, Confirmed, ValidStart, Supported, Cipher;
  }

  lemma DeviceReceives(h: Honest, i: nat)
    requires Fair(h) && i < DEVICE_LEN && DeviceAct(i) == Receive
    ensures DeviceStepOk(h, i)
  {
    hide Cfm, Salt, AgreedKeys, ValidStart, Supported, Cipher, RecvInvite, RecvStart, RecvPublicKey, RecvConfirmation,
      RecvRandom, RecvData;
    DeviceFields(h, i);
    var d := DAt(h, i);
    match i
    case 0 => TakesInvite(h, d);
    case 2 => TakesStart(h, d);
    case 3 => TakesPublicKey(h, d, h.p.pub);
    case 7 => TakesConfirmation(d, Cfm(h, h.p.rand));
    case 8 => TakesRandom(h, d, h.p.rand);
    case 9 => TakesData(h, d);
  }

  // ---------- any interleaving ----------

  lemma ProvisionerCounts(h: Honest, i: nat)
    requires i < PROVISIONER_LEN
    ensures PReceived(i + 1) == PReceived(i) + (if ProvisionerAct(i) == Receive then 1 else 0)
    ensures PSent(i) <= PSent(i + 1) && ToDevice(h)[PSent(i)..PSent(i + 1)] == ProvisionerSends(h, i)
  {
    hide Cfm, Cipher;
  }

  lemma DeviceCounts(h: Honest, i: nat)
    requires i < DEVICE_LEN
    ensures DReceived(i + 1) == DReceived(i) + (if DeviceAct(i) == Receive then 1 else 0)
    ensures DSent(i) <= DSent(i + 1) && ToProvisioner(h)[DSent(i)..DSent(i + 1)] == DeviceSends(h, i)
  {
    hide Cfm, Cipher;
  }

  lemma QueueGrows(q: seq<Pdu>, a: nat, b: nat, c: nat)
    requires a <= b <= c <= |q|
    ensures q[a..b] + q[b..c] == q[a..c]
  {
  }

  lemma ProvisionerMoves(h: Honest, s: Sys)
    requires Fair(h) && Inv(h, s) && CanMove(s, true)
    ensures Inv(h, Move(h, s, true))
  {
    hide PAt, DAt, ToDevice, ToProvisioner, ProvisionerSends, Process, Call, Fair, PSent, PReceived, DSent, DReceived;
    var i := s.pi;
    if ProvisionerAct(i) == Receive { ProvisionerReceives(h, i); } else { ProvisionerCalls(h, i); }
    ProvisionerCounts(h, i);
    QueueGrows(ToDevice(h), DReceived(s.di), PSent(i), PSent(i + 1));
    hide ProvisionerAct;
  }

  lemma DeviceMoves(h: Honest, s: Sys)
    requires Fair(h) && Inv(h, s) && CanMove(s, false)
    ensures Inv(h, Move(h, s, false))
  {
    hide PAt, DAt, ToDevice, ToProvisioner, DeviceSends, Process, Call, Fair, PSent, PReceived, DSent, DReceived;
    var i := s.di;
    if DeviceAct(i) == Receive { DeviceReceives(h, i); } else { DeviceCalls(h, i); }
    DeviceCounts(h, i);
    QueueGrows(ToProvisioner(h), PReceived(s.pi), DSent(i), DSent(i + 1));
    hide DeviceAct;
  }

  lemma {:induction false} RunKeeps(h: Honest, s: Sys, who: seq<bool>)
    requires Fair(h) && Inv(h, s) && Runs(h, s, who)
    ensures Inv(h, RunSys(h, s, who))
    decreases |who|
  {
    hide Inv, Fair, CanMove, Move;
    if who != [] {
      if who[0] { ProvisionerMoves(h, s); } else { DeviceMoves(h, s); }
      RunKeeps(h, Move(h, s, who[0]), who[1..]);
    }
  }

  lemma BeginInv(h: Honest)
    ensures Inv(h, Begin(h))
  {
    hide Cfm, Cipher;
  }

  /** Agreement at one point of a run: nobody has failed; once both have taken the other's public key the secrets
      agree; once both have generated confirmations the salts agree; once both have verified the other's confirmation
      the session keys, nonces and device keys agree; and the device ends with exactly the data the provisioner sent. */
  predicate Agrees(h: Honest, s: Sys) {
    && s.p.state <= COMPLETE && s.d.state <= COMPLETE
    && (s.pi >= 5 && s.di >= 4 ==> s.p.secret == s.d.secret)
    && (s.pi >= 7 && s.di >= 7 ==> s.p.salt == s.d.salt)
    && (s.pi >= 10 && s.di >= 9 ==> s.p.keys == s.d.keys)
    && (s.di == DEVICE_LEN ==> s.d.state == COMPLETE && s.d.data == h.data)
  }

  /** Agreement in every honest run, at every point of it. */
  lemma HonestRunsAgree(h: Honest, who: seq<bool>)
    requires Fair(h) && Runs(h, Begin(h), who)
    ensures Agrees(h, RunSys(h, Begin(h), who))
  {
    BeginInv(h);
    RunKeeps(h, Begin(h), who);
    AgreeAt(h, RunSys(h, Begin(h), who));
  }

  lemma AgreeAt(h: Honest, s: Sys)
    requires Fair(h) && Inv(h, s)
    ensures Agrees(h, s)
  {
    ProvisionerFields(h, s.pi);
    DeviceFields(h, s.di);
    hide Cfm, Salt, AgreedKeys, Cipher, Fair, ToDevice, ToProvisioner, PAt, Secret;
  }

  /** An honest run is never stuck before both scripts are done. */
  lemma SomebodyCanMove(h: Honest, s: Sys)
    requires Inv(h, s) && (s.pi < PROVISIONER_LEN || s.di < DEVICE_LEN)
    ensures CanMove(s, true) || CanMove(s, false)
  {
    hide PAt, DAt, ToDevice, ToProvisioner;
  }
}
