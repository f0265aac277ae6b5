// A repeated link open packet in the middle of provisioning: the device draws a new key pair and a new random value
// before it looks at its state. Exactly when the rest of an honest run still agrees.

module LinkReopen {
  import opened Bytes
  import opened CmacSpec
  import opened Provision
  import opened Agreement

  datatype NewKeys = NewKeys(pub: seq<byte>, priv: seq<byte>, rand: seq<byte>)

  /** The new key pair is a proper one. */
  predicate Proper(h: Honest, k: NewKeys) {
    |k.pub| == 64 && h.e.validKey(k.pub) && h.e.ecdh(k.pub, h.p.priv) == h.e.ecdh(h.p.pub, k.priv) && |k.rand| == 16
  }

  function With(d: Dev, k: NewKeys): Dev { d.(pub := k.pub, priv := k.priv, rand := k.rand) }

  /** A link open packet arrives at the device. */
  function Reopened(s: Sys, k: NewKeys, ackOk: bool): Sys { s.(d := RecvLinkOpen(s.d, k.pub, k.priv, k.rand, ackOk)) }

  /** The confirmation salt with another public key of the device in it. */
  function SaltWith(h: Honest, pub: seq<byte>): Block { S1(h.e.aes, h.invite + h.caps + h.start + (h.p.pub + pub)) }

  /** After step i of the device's script: the new key pair does no harm before the device has used the old one, nor
      after the random values have been exchanged; in between what the old keys went into must come out the same. */
  predicate Harmless(h: Honest, i: nat, k: NewKeys) {
    && (i == 4 ==> h.e.ecdh(h.p.pub, k.priv) == h.e.ecdh(h.p.pub, h.d.priv))
    && (5 <= i <= 8 ==> SaltWith(h, k.pub) == Salt(h))
    && (7 <= i <= 8 ==> Cfm(h, k.rand) == Cfm(h, h.d.rand))
  }

  lemma ReopenedIs(h: Honest, s: Sys, k: NewKeys, ackOk: bool)
    requires Fair(h) && Inv(h, s)
    ensures Reopened(s, k, ackOk) == s.(d := With(DAt(h, s.di), k))
  {
    DeviceFields(h, s.di);
    hide DAt, PAt, Cfm, Salt, AgreedKeys, Cipher, Fair, ToDevice, ToProvisioner;
  }

  // ---------- runs do not depend on the device's first keys ----------

  lemma MovesAlike(h: Honest, g: Honest, s: Sys, provisioner: bool)
    requires g == h.(d := g.d) && CanMove(s, provisioner)
    ensures Move(h, s, provisioner) == Move(g, s, provisioner)
  {
  }

  lemma {:induction false} RunsAlike(h: Honest, g: Honest, s: Sys, who: seq<bool>)
    requires g == h.(d := g.d) && Runs(h, s, who)
    ensures Runs(g, s, who) && RunSys(g, s, who) == RunSys(h, s, who)
    decreases |who|
  {
    hide Move, CanMove;
    if who != [] {
      MovesAlike(h, g, s, who[0]);
      RunsAlike(h, g, Move(h, s, who[0]), who[1..]);
    }
  }

  // ---------- up to the provisioner's public key: just another first key pair ----------

  function Renewed(h: Honest, k: NewKeys): Honest { h.(d := With(h.d, k)) }

  lemma RenewedFair(h: Honest, k: NewKeys)
    requires Fair(h) && Proper(h, k)
    ensures Fair(Renewed(h, k))
  {
    hide ValidStart, Supported;
  }

  lemma EarlyRecord(h: Honest, i: nat, k: NewKeys)
    requires Fair(h) && Proper(h, k) && i <= 4 && Harmless(h, i, k)
    ensures With(DAt(h, i), k) == DAt(Renewed(h, k), i)
  {
    hide Cfm, Salt, AgreedKeys, Cipher, ValidStart, Supported;
    if i >= 1 { EarlyRecordBefore(h, i, k); }
  }

  lemma EarlyRecordBefore(h: Honest, i: nat, k: NewKeys)
    requires Fair(h) && Proper(h, k) && 1 <= i <= 4 && Harmless(h, i, k)
    ensures With(DAt(h, i), k) == DAt(Renewed(h, k), i)
  {
    hide Cfm, Salt, AgreedKeys, Cipher, ValidStart, Supported;
    var g := Renewed(h, k);
    assert With(DAt(h, 1), k) == DAt(g, 1);
    assert With(DAt(h, 2), k) == DAt(g, 2);
    assert With(DAt(h, 3), k) == DAt(g, 3);
  }

  lemma EarlyProvisioner(h: Honest, g: Honest, i: nat)
    requires g == h.(d := g.d) && i <= 4
    ensures PAt(h, i) == PAt(g, i)
  {
    hide Cfm, Salt, AgreedKeys, Cipher, Secret;
    if i >= 1 {
      assert PAt(h, 1) == PAt(g, 1);
      assert PAt(h, 2) == PAt(g, 2);
      assert PAt(h, 3) == PAt(g, 3);
    }
  }

  lemma SameCut(a: seq<Pdu>, b: seq<Pdu>, n: nat, i: nat, j: nat)
    requires i <= j <= n <= |a| == |b| && a[..n] == b[..n]
    ensures a[i..j] == b[i..j]
  {
    assert a[i..j] == a[..n][i..j] && b[i..j] == b[..n][i..j];
  }

  lemma EarlyQueues(h: Honest, g: Honest)
    requires g == h.(d := g.d)
    ensures ToDevice(h)[..3] == ToDevice(g)[..3] && ToProvisioner(h)[..1] == ToProvisioner(g)[..1]
  {
    hide Cfm, Cipher;
  }

  lemma EarlyCounts(pi: nat, di: nat)
    requires pi <= PROVISIONER_LEN && di <= 4 && DReceived(di) <= PSent(pi) && PReceived(pi) <= DSent(di)
    ensures pi <= 4 && PSent(pi) <= 3 && DSent(di) <= 1
  {
  }

  lemma EarlyInv(h: Honest, s: Sys, k: NewKeys)
    requires Fair(h) && Proper(h, k) && Inv(h, s) && s.di <= 4 && Harmless(h, s.di, k)
    ensures Inv(Renewed(h, k), s.(d := With(DAt(h, s.di), k)))
  {
    hide PAt, DAt, Fair, ToDevice, ToProvisioner, PSent, DSent, PReceived, DReceived, Proper, Harmless;
    var g := Renewed(h, k);
    EarlyCounts(s.pi, s.di);
    EarlyRecord(h, s.di, k);
    EarlyProvisioner(h, g, s.pi);
    EarlyQueues(h, g);
    SameCut(ToDevice(h), ToDevice(g), 3, DReceived(s.di), PSent(s.pi));
    SameCut(ToProvisioner(h), ToProvisioner(g), 1, PReceived(s.pi), DSent(s.di));
  }

  // ---------- later: the old keys are in use ----------

  /** As Inv, with the new keys in the device's record. */
  predicate LateInv(h: Honest, s: Sys, k: NewKeys) {
    && 5 <= s.di <= DEVICE_LEN && s.pi <= PROVISIONER_LEN && DReceived(s.di) <= PSent(s.pi) && PReceived(s.pi) <= DSent(s.di)
    && s.p == PAt(h, s.pi) && s.d == With(DAt(h, s.di), k)
    && s.toD == ToDevice(h)[DReceived(s.di)..PSent(s.pi)] && s.toP == ToProvisioner(h)[PReceived(s.pi)..DSent(s.di)]
    && (s.di <= 8 ==> Unnoticed(h, k))
  }

  /** The new keys change nothing that is still to be computed from them. */
  predicate Unnoticed(h: Honest, k: NewKeys) { k.rand == h.d.rand && SaltWith(h, k.pub) == Salt(h) }

  lemma LateSalt(h: Honest, d: Dev, k: NewKeys, r: seq<byte>)
    requires d.device && d.pub == k.pub && d.pubRemote == h.p.pub && d.invite == h.invite && d.caps == h.caps && d.start == h.start
    requires d.secret == Secret(h) && d.auth == h.auth && SaltWith(h, k.pub) == Salt(h)
    ensures Confirmed(h.e, d, r) == d.(salt := Salt(h), cfm := Cfm(h, r))
  {
  }

  lemma LateRandom(h: Honest, d: Dev, k: NewKeys)
    requires Fair(h) && Unnoticed(h, k) && d.state == CONFIRMATION && d.cfmRemote == Cfm(h, h.p.rand) && d.rand == k.rand
    requires d.device && d.pub == k.pub && d.pubRemote == h.p.pub && d.invite == h.invite && d.caps == h.caps && d.start == h.start
    requires d.secret == Secret(h) && d.auth == h.auth
    ensures RecvRandom(h.e, d, h.p.rand)
            == Out(d.(state := RANDOM, randRemote := h.p.rand, salt := Salt(h), cfm := Cfm(h, h.p.rand), keys := AgreedKeys(h)),
                   [Random(h.d.rand)])
  {
    var r := h.p.rand;
    var c := d.(randRemote := r);
    LateSalt(h, c, k, r);
    SameKeys(h, c.(salt := Salt(h), cfm := Cfm(h, r), state := RANDOM));
    hide Cfm, Salt, AgreedKeys, Confirmed, WithKeys, Secret, SaltWith;
    assert r[..16] == r;
  }

  lemma LateStep(h: Honest, i: nat, k: NewKeys)
    requires Fair(h) && 5 <= i < DEVICE_LEN && (i <= 8 ==> Unnoticed(h, k))
    ensures DeviceStep(h, With(DAt(h, i), k), i) == Out(With(DAt(h, i + 1), k), DeviceSends(h, i))
  {
    hide Cfm, Salt, AgreedKeys, ValidStart, Supported, Cipher, SaltWith, RecvConfirmation, RecvRandom, RecvData, Confirmed;
    DeviceFields(h, i);
    var d := With(DAt(h, i), k);
    match i
    case 5 =>
    case 6 => LateSalt(h, d, k, k.rand);
    case 7 => TakesConfirmation(d, Cfm(h, h.p.rand));
    case 8 => LateRandom(h, d, k);
    case 9 => TakesData(h, d);
  }

  lemma LateMove(h: Honest, s: Sys, k: NewKeys, provisioner: bool)
    requires Fair(h) && LateInv(h, s, k) && CanMove(s, provisioner)
    ensures LateInv(h, Move(h, s, provisioner), k)
  {
    hide PAt, DAt, ToDevice, ToProvisioner, ProvisionerSends, DeviceSends, Process, Call, Fair, PSent, PReceived, DSent,
      DReceived, Unnoticed;
    if provisioner {
      var i := s.pi;
      if ProvisionerAct(i) == Receive { ProvisionerReceives(h, i); } else { ProvisionerCalls(h, i); }
      ProvisionerCounts(h, i);
      QueueGrows(ToDevice(h), DReceived(s.di), PSent(i), PSent(i + 1));
      hide ProvisionerAct;
    } else {
      var i := s.di;
      LateStep(h, i, k);
      DeviceCounts(h, i);
      QueueGrows(ToProvisioner(h), PReceived(s.pi), DSent(i), DSent(i + 1));
      hide DeviceAct;
    }
  }

  lemma {:induction false} LateRun(h: Honest, s: Sys, k: NewKeys, who: seq<bool>)
    requires Fair(h) && LateInv(h, s, k) && Runs(h, s, who)
    ensures LateInv(h, RunSys(h, s, who), k)
    decreases |who|
  {
    hide LateInv, Fair, CanMove, Move;
    if who != [] {
      LateMove(h, s, k, who[0]);
      LateRun(h, Move(h, s, who[0]), k, who[1..]);
    }
  }

  lemma LateAgrees(h: Honest, s: Sys, k: NewKeys)
    requires Fair(h) && LateInv(h, s, k)
    ensures Agrees(h, s)
  {
    ProvisionerFields(h, s.pi);
    DeviceFields(h, s.di);
    hide Cfm, Salt, AgreedKeys, Cipher, Fair, ToDevice, ToProvisioner, PAt, Secret, SaltWith;
  }

  /** The honest run whose device drew the new random value from the start. */
  function Redrawn(h: Honest, k: NewKeys): Honest { h.(d := h.d.(rand := k.rand)) }

  lemma CfmAlike(h: Honest, k: NewKeys, r: seq<byte>)
    ensures Cfm(Redrawn(h, k), r) == Cfm(h, r) && Salt(Redrawn(h, k)) == Salt(h) && Secret(Redrawn(h, k)) == Secret(h)
    ensures SaltWith(Redrawn(h, k), k.pub) == SaltWith(h, k.pub)
  {
  }

  lemma LateRecord(h: Honest, i: nat, k: NewKeys)
    requires 5 <= i <= 8 && (i >= 7 ==> Cfm(h, k.rand) == Cfm(h, h.d.rand))
    ensures With(DAt(h, i), k) == With(DAt(Redrawn(h, k), i), k)
  {
    var g := Redrawn(h, k);
    CfmAlike(h, k, k.rand);
    CfmAlike(h, k, h.p.rand);
    hide Cfm, Salt, AgreedKeys, Cipher, Secret;
    assert With(DAt(h, 1), k) == With(DAt(g, 1), k);
    assert With(DAt(h, 2), k) == With(DAt(g, 2), k);
    assert With(DAt(h, 3), k) == With(DAt(g, 3), k);
    assert With(DAt(h, 4), k) == With(DAt(g, 4), k);
    assert With(DAt(h, 5), k) == With(DAt(g, 5), k);
    assert With(DAt(h, 6), k) == With(DAt(g, 6), k);
    if i >= 7 { assert With(DAt(h, 7), k) == With(DAt(g, 7), k); }
  }

  lemma {:induction false} LateProvisioner(h: Honest, i: nat, k: NewKeys)
    requires i <= 9 && (i == 9 ==> Cfm(h, k.rand) == Cfm(h, h.d.rand))
    ensures PAt(h, i) == PAt(Redrawn(h, k), i)
    decreases i
  {
    hide Cfm, Salt, AgreedKeys, Cipher, Secret, SaltWith;
    if i > 0 {
      LateProvisioner(h, i - 1, k);
      CfmAlike(h, k, k.rand);
      CfmAlike(h, k, h.p.rand);
    }
  }

  lemma LateQueues(h: Honest, k: NewKeys)
    ensures ToDevice(h)[..5] == ToDevice(Redrawn(h, k))[..5] && ToProvisioner(h)[..2] == ToProvisioner(Redrawn(h, k))[..2]
    ensures Cfm(h, k.rand) == Cfm(h, h.d.rand) ==> ToProvisioner(h)[..3] == ToProvisioner(Redrawn(h, k))[..3]
  {
    hide Cfm, Cipher, Salt, Secret, SaltWith;
    CfmAlike(h, k, k.rand);
    CfmAlike(h, k, h.p.rand);
  }

  lemma LateCounts(pi: nat, di: nat)
    requires pi <= PROVISIONER_LEN && 5 <= di <= 8 && DReceived(di) <= PSent(pi) && PReceived(pi) <= DSent(di)
    ensures pi <= 9 && PSent(pi) <= 5 && DSent(di) <= 3 && (di <= 7 ==> pi <= 8 && DSent(di) <= 2)
  {
  }

  lemma LateEntry(h: Honest, s: Sys, k: NewKeys)
    requires Fair(h) && Proper(h, k) && Inv(h, s) && 5 <= s.di <= 8 && Harmless(h, s.di, k)
    ensures Fair(Redrawn(h, k)) && LateInv(Redrawn(h, k), s.(d := With(DAt(h, s.di), k)), k)
  {
    RedrawnFair(h, k);
    CfmAlike(h, k, k.rand);
    hide PAt, DAt, Fair, ToDevice, ToProvisioner, PSent, DSent, PReceived, DReceived, Cfm, Salt, SaltWith;
    var g := Redrawn(h, k);
    LateCounts(s.pi, s.di);
    LateRecord(h, s.di, k);
    var n := if s.di <= 7 then 2 else 3;
    LateProvisioner(h, s.pi, k);
    LateQueues(h, k);
    SameCut(ToDevice(h), ToDevice(g), 5, DReceived(s.di), PSent(s.pi));
    SameCut(ToProvisioner(h), ToProvisioner(g), n, PReceived(s.pi), DSent(s.di));
  }

  lemma RedrawnFair(h: Honest, k: NewKeys)
    requires Fair(h) && Proper(h, k)
    ensures Fair(Redrawn(h, k))
  {
    hide ValidStart, Supported;
  }

  lemma LastEntry(h: Honest, s: Sys, k: NewKeys)
    requires Inv(h, s) && s.di >= 9
    ensures LateInv(h, s.(d := With(DAt(h, s.di), k)), k)
  {
    hide PAt, DAt, ToDevice, ToProvisioner, PSent, DSent, PReceived, DReceived, Unnoticed;
  }

  /** Where the condition holds, every continuation agrees. */
  lemma HarmlessAgrees(h: Honest, s: Sys, k: NewKeys, ackOk: bool, more: seq<bool>)
    requires Fair(h) && Inv(h, s) && Proper(h, k) && Harmless(h, s.di, k) && Runs(h, Reopened(s, k, ackOk), more)
    ensures Agrees(h, RunSys(h, Reopened(s, k, ackOk), more))
  {
    ReopenedIs(h, s, k, ackOk);
    var t := s.(d := With(DAt(h, s.di), k));
    var g := if s.di <= 4 then Renewed(h, k) else if s.di <= 8 then Redrawn(h, k) else h;
    RunsAlike(h, g, t, more);
    assert g.data == h.data;
    hide Inv, LateInv, Fair, Harmless, Proper, RunSys, Runs, DAt, PAt;
    if s.di <= 4 {
      EarlyInv(h, s, k);
      RenewedFair(h, k);
      RunKeeps(g, t, more);
      AgreeAt(g, RunSys(g, t, more));
    } else {
      if s.di <= 8 { LateEntry(h, s, k); } else { LastEntry(h, s, k); }
      LateRun(g, t, k, more);
      LateAgrees(g, RunSys(g, t, more), k);
    }
  }

  // ---------- where it fails, some continuation disagrees ----------

  /** The provisioner's side and the queues are as in an honest run; nothing is said of the device's record. */
  predicate Mid(h: Honest, s: Sys) {
    && s.pi <= PROVISIONER_LEN && s.di <= DEVICE_LEN && DReceived(s.di) <= PSent(s.pi) && PReceived(s.pi) <= DSent(s.di)
    && s.p == PAt(h, s.pi)
    && s.toD == ToDevice(h)[DReceived(s.di)..PSent(s.pi)] && s.toP == ToProvisioner(h)[PReceived(s.pi)..DSent(s.di)]
  }

  lemma RunCons(h: Honest, s: Sys, who: bool, more: seq<bool>)
    requires CanMove(s, who) && Runs(h, Move(h, s, who), more)
    ensures Runs(h, s, [who] + more) && RunSys(h, s, [who] + more) == RunSys(h, Move(h, s, who), more)
  {
    hide CanMove, Move;
    assert ([who] + more)[0] == who && ([who] + more)[1..] == more;
  }

  lemma {:induction false} RunAppend(h: Honest, s: Sys, a: seq<bool>, b: seq<bool>)
    requires Runs(h, s, a) && Runs(h, RunSys(h, s, a), b)
    ensures Runs(h, s, a + b) && RunSys(h, s, a + b) == RunSys(h, RunSys(h, s, a), b)
    decreases |a|
  {
    hide CanMove, Move;
    if a == [] {
      assert a + b == b;
    } else {
      RunAppend(h, Move(h, s, a[0]), a[1..], b);
      assert (a + b)[0] == a[0] && (a + b)[1..] == a[1..] + b;
    }
  }

  lemma MidMove(h: Honest, s: Sys)
    requires Fair(h) && Mid(h, s) && CanMove(s, true)
    ensures var r := Move(h, s, true); Mid(h, r) && r.pi == s.pi + 1 && r.di == s.di && r.d == s.d
  {
    hide PAt, ToDevice, ToProvisioner, ProvisionerSends, Process, Call, Fair, PSent, PReceived, DSent, DReceived;
    var i := s.pi;
    if ProvisionerAct(i) == Receive { ProvisionerReceives(h, i); } else { ProvisionerCalls(h, i); }
    ProvisionerCounts(h, i);
    QueueGrows(ToDevice(h), DReceived(s.di), PSent(i), PSent(i + 1));
    hide ProvisionerAct;
  }

  lemma CanDrive(h: Honest, s: Sys, target: nat)
    requires Mid(h, s) && s.pi < target <= PROVISIONER_LEN && PReceived(target) <= DSent(s.di)
    ensures CanMove(s, true)
  {
    hide PAt, ToDevice, ToProvisioner, DSent, DReceived, PSent;
  }

  /** The provisioner goes on alone. */
  lemma {:induction false} Drive(h: Honest, s: Sys, target: nat) returns (who: seq<bool>)
    requires Fair(h) && Mid(h, s) && s.pi <= target <= PROVISIONER_LEN && PReceived(target) <= DSent(s.di)
    ensures Runs(h, s, who)
    ensures var r := RunSys(h, s, who); Mid(h, r) && r.pi == target && r.di == s.di && r.d == s.d
    decreases target - s.pi
  {
    hide Fair, Mid, Move, CanMove, PReceived, DSent;
    if s.pi == target {
      who := [];
    } else {
      CanDrive(h, s, target);
      MidMove(h, s);
      var rest := Drive(h, Move(h, s, true), target);
      RunCons(h, s, true, rest);
      who := [true] + rest;
    }
  }

  /** Some schedule from s leads to disagreement. */
  ghost predicate Disagrees(h: Honest, s: Sys, who: seq<bool>) { Runs(h, s, who) && !Agrees(h, RunSys(h, s, who)) }

  lemma DisagreesLater(h: Honest, s: Sys, a: seq<bool>, b: seq<bool>)
    requires Runs(h, s, a) && Disagrees(h, RunSys(h, s, a), b)
    ensures Disagrees(h, s, a + b)
  {
    hide Agrees;
    RunAppend(h, s, a, b);
  }

  lemma DisagreesNext(h: Honest, s: Sys, who: bool, b: seq<bool>)
    requires CanMove(s, who) && Disagrees(h, Move(h, s, who), b)
    ensures Disagrees(h, s, [who] + b)
  {
    hide Agrees, CanMove, Move;
    RunCons(h, s, who, b);
  }

  lemma DisagreesNow(h: Honest, s: Sys)
    requires !Agrees(h, s)
    ensures Disagrees(h, s, [])
  {
  }

  // Step 4: the device sends the new public key beside a secret made with the old private key.

  lemma SendsNewKey(h: Honest, s: Sys, k: NewKeys)
    requires Fair(h) && s.di == 4 && s.d == With(DAt(h, 4), k) && s.toP == []
    ensures CanMove(s, false)
    ensures var a := Move(h, s, false); a.toP == [PublicKey(k.pub)] && a.d.secret == Secret(h) && a.di == 5 && a.pi == s.pi && a.p == s.p
  {
    DeviceFields(h, 4);
    hide DAt, Cfm, Salt, AgreedKeys, Cipher, ValidStart, Supported, Secret;
  }

  lemma TakesNewKey(h: Honest, a: Sys, k: NewKeys)
    requires Fair(h) && Proper(h, k) && a.pi == 4 && a.p == PAt(h, 4) && a.toP == [PublicKey(k.pub)]
    ensures CanMove(a, true)
    ensures var b := Move(h, a, true); b.p.secret == h.e.ecdh(k.pub, h.p.priv) && b.d == a.d && b.pi == 5 && b.di == a.di
  {
    ProvisionerFields(h, 4);
    TakesPublicKey(h, PAt(h, 4), k.pub);
    hide PAt, Cfm, Salt, AgreedKeys, Cipher, ValidStart, Supported, RecvPublicKey, Secret;
  }

  lemma AtFour(h: Honest, s: Sys)
    requires Mid(h, s) && s.di == 4
    ensures s.pi == 4 && s.toP == [] && s.p == PAt(h, 4)
  {
    hide PAt, ToDevice, ToProvisioner;
  }

  lemma BreaksSecret(h: Honest, s: Sys, k: NewKeys) returns (who: seq<bool>)
    requires Fair(h) && Proper(h, k) && Mid(h, s) && s.di == 4 && s.d == With(DAt(h, 4), k)
    requires h.e.ecdh(h.p.pub, k.priv) != h.e.ecdh(h.p.pub, h.d.priv)
    ensures Disagrees(h, s, who)
  {
    assert Secret(h) != h.e.ecdh(k.pub, h.p.priv);
    hide PAt, DAt, Fair, Mid, Move, CanMove, Runs, RunSys, Secret;
    AtFour(h, s);
    SendsNewKey(h, s, k);
    var a := Move(h, s, false);
    TakesNewKey(h, a, k);
    DisagreesNow(h, Move(h, a, true));
    DisagreesNext(h, a, true, []);
    DisagreesNext(h, s, false, [true] + []);
    who := [false] + ([true] + []);
  }

  // Steps 5 and 6: the device is still to make its salt.

  lemma GeneratesOther(h: Honest, s: Sys, k: NewKeys)
    requires Fair(h) && s.di == 6 && s.pi >= 7 && s.pi <= PROVISIONER_LEN && s.p == PAt(h, s.pi) && s.d == With(DAt(h, 6), k)
    requires SaltWith(h, k.pub) != Salt(h)
    ensures CanMove(s, false) && !Agrees(h, Move(h, s, false))
  {
    DeviceFields(h, 6);
    ProvisionerFields(h, s.pi);
    hide PAt, DAt, Cfm, AgreedKeys, Cipher, ValidStart, Supported, Cmac, S1, K1;
  }

  lemma AuthKeepsKeys(h: Honest, s: Sys, k: NewKeys)
    requires s.di == 5 && s.d == With(DAt(h, 5), k)
    ensures CanMove(s, false)
    ensures Move(h, s, false) == s.(d := With(DAt(h, 6), k), di := 6)
  {
    hide Cfm, Salt, AgreedKeys, Cipher;
    assert s.toP + [] == s.toP;
  }

  lemma BreaksSalt(h: Honest, s: Sys, k: NewKeys) returns (who: seq<bool>)
    requires Fair(h) && Mid(h, s) && 5 <= s.di <= 6 && s.d == With(DAt(h, s.di), k) && SaltWith(h, k.pub) != Salt(h)
    ensures Disagrees(h, s, who)
  {
    var a := Drive(h, s, if s.pi < 7 then 7 else s.pi);
    var t := RunSys(h, s, a);
    hide Fair, DAt, PAt, Move, CanMove, Agrees, Runs, RunSys, SaltWith, Salt;
    if t.di == 5 {
      AuthKeepsKeys(h, t, k);
      var u := Move(h, t, false);
      GeneratesOther(h, u, k);
      DisagreesNow(h, Move(h, u, false));
      DisagreesNext(h, u, false, []);
      DisagreesNext(h, t, false, [false] + []);
      DisagreesLater(h, s, a, [false] + ([false] + []));
      who := a + ([false] + ([false] + []));
    } else {
      GeneratesOther(h, t, k);
      DisagreesNow(h, Move(h, t, false));
      DisagreesNext(h, t, false, []);
      DisagreesLater(h, s, a, [false] + []);
      who := a + ([false] + []);
    }
  }

  // Steps 7 and 8: the device's confirmation is made, its random value still to be checked.

  /** The device takes the provisioner's confirmation and answers with its own, made from the old values. */
  lemma ToEight(h: Honest, s: Sys, k: NewKeys) returns (who: seq<bool>)
    requires Fair(h) && Mid(h, s) && 7 <= s.di <= 8 && s.d == With(DAt(h, s.di), k)
    ensures Runs(h, s, who)
    ensures var t := RunSys(h, s, who); Mid(h, t) && t.di == 8 && t.d == With(DAt(h, 8), k)
  {
    if s.di == 8 {
      who := [];
    } else {
      var a := Drive(h, s, if s.pi < 8 then 8 else s.pi);
      var t := RunSys(h, s, a);
      hide Fair, DAt, PAt, Move, CanMove, Runs, RunSys, Mid;
      AnswersConfirmation(h, t, k);
      OneMove(h, t, false);
      RunAppend(h, s, a, [false]);
      who := a + [false];
    }
  }

  lemma OneMove(h: Honest, s: Sys, who: bool)
    requires CanMove(s, who)
    ensures Runs(h, s, [who]) && RunSys(h, s, [who]) == Move(h, s, who)
  {
    RunCons(h, s, who, []);
    assert [who] + [] == [who];
  }

  lemma AnswersConfirmation(h: Honest, s: Sys, k: NewKeys)
    requires Fair(h) && Mid(h, s) && s.di == 7 && s.pi >= 8 && s.d == With(DAt(h, 7), k)
    ensures CanMove(s, false)
    ensures var t := Move(h, s, false); Mid(h, t) && t.di == 8 && t.d == With(DAt(h, 8), k)
  {
    FirstInLine(ToDevice(h), DReceived(7), PSent(s.pi));
    DeviceCounts(h, 7);
    QueueGrows(ToProvisioner(h), PReceived(s.pi), DSent(7), DSent(8));
    AnswerIs(h, k);
    hide DAt, PAt, ToDevice, ToProvisioner, PReceived, Fair, DeviceSends, Process;
  }

  lemma FirstInLine(q: seq<Pdu>, i: nat, j: nat)
    requires i < j <= |q|
    ensures q[i..j] != [] && q[i..j][0] == q[i] && q[i..j][1..] == q[i + 1..j]
  {
  }

  lemma AnswerIs(h: Honest, k: NewKeys)
    requires Fair(h)
    ensures Process(h.e, With(DAt(h, 7), k), ToDevice(h)[3]) == Out(With(DAt(h, 8), k), DeviceSends(h, 7))
  {
    hide Cfm, Salt, AgreedKeys, ValidStart, Supported, Cipher, RecvConfirmation;
    DeviceFields(h, 7);
    TakesConfirmation(With(DAt(h, 7), k), Cfm(h, h.p.rand));
  }

  /** The device recomputes its salt with the new public key when it checks the provisioner's random value. */
  lemma ChecksRandom(h: Honest, s: Sys, k: NewKeys)
    requires Fair(h) && Mid(h, s) && s.di == 8 && s.pi >= 9 && s.d == With(DAt(h, 8), k)
    ensures CanMove(s, false)
    ensures var t := Move(h, s, false);
            && t.pi == s.pi && t.p == s.p && t.di == 9 && t.d.salt == SaltWith(h, k.pub)
            && (SaltWith(h, k.pub) == Salt(h) ==> t.toP == s.toP + [Random(k.rand)])
  {
    FirstInLine(ToDevice(h), DReceived(8), PSent(s.pi));
    CheckIs(h, k);
    hide DAt, PAt, ToDevice, ToProvisioner, PReceived, Fair, Process;
  }

  lemma CheckIs(h: Honest, k: NewKeys)
    requires Fair(h)
    ensures var o := Process(h.e, With(DAt(h, 8), k), ToDevice(h)[4]);
            o.d.salt == SaltWith(h, k.pub) && (SaltWith(h, k.pub) == Salt(h) ==> o.sent == [Random(k.rand)])
  {
    DeviceFields(h, 8);
    FifthPdu(h);
    hide *;
    RandomIs(h, With(DAt(h, 8), k), k);
    ProcessRandom(h, With(DAt(h, 8), k), h.p.rand);
  }

  lemma FifthPdu(h: Honest)
    ensures ToDevice(h)[4] == Random(h.p.rand)
  {
    hide Cfm, Cipher;
  }

  lemma ProcessRandom(h: Honest, d: Dev, r: seq<byte>)
    ensures Process(h.e, d, Random(r)) == RecvRandom(h.e, d, r)
  {
  }

  lemma RandomIs(h: Honest, d: Dev, k: NewKeys)
    requires Fair(h) && d.state == CONFIRMATION && d.cfmRemote == Cfm(h, h.p.rand) && d.rand == k.rand
    requires d.device && d.pub == k.pub && d.pubRemote == h.p.pub && d.invite == h.invite && d.caps == h.caps && d.start == h.start
    requires d.secret == Secret(h) && d.auth == h.auth
    ensures var o := RecvRandom(h.e, d, h.p.rand);
            o.d.salt == SaltWith(h, k.pub) && (SaltWith(h, k.pub) == Salt(h) ==> o.sent == [Random(k.rand)])
  {
    var r := h.p.rand;
    var c := d.(randRemote := r);
    SaltOf(h, c, k, r);
    if SaltWith(h, k.pub) == Salt(h) { LateSalt(h, c, k, r); }
    hide Cfm, Salt, Confirmed, Secret, SaltWith, RecvRandom, Fair;
    TakingRandom(h.e, d, r);
  }

  lemma SaltOf(h: Honest, c: Dev, k: NewKeys, r: seq<byte>)
    requires c.device && c.pub == k.pub && c.pubRemote == h.p.pub && c.invite == h.invite && c.caps == h.caps && c.start == h.start
    ensures Confirmed(h.e, c, r).salt == SaltWith(h, k.pub)
  {
  }

  /** Whether or not the check succeeds, the record keeps the recomputed salt. */
  lemma TakingRandom(e: Env, d: Dev, r: seq<byte>)
    requires |r| == 16 && d.state == CONFIRMATION && d.device
    ensures var o, c := RecvRandom(e, d, r), Confirmed(e, d.(randRemote := r), r);
            o.d.salt == c.salt && (c.cfm == d.cfmRemote ==> o.sent == [Random(d.rand)])
  {
    assert r[..16] == r;
    ConfirmedKeeps(e, d.(randRemote := r), r);
    hide Confirmed, S1, K1, Cmac;
  }

  lemma ConfirmedKeeps(e: Env, d: Dev, r: seq<byte>)
    ensures var c := Confirmed(e, d, r); c == d.(salt := c.salt, cfm := c.cfm)
  {
    hide S1, K1, Cmac;
  }

  /** The provisioner checks the new random value against the confirmation made from the old one. */
  lemma RejectsRandom(h: Honest, s: Sys, k: NewKeys)
    requires Fair(h) && |k.rand| == 16 && s.pi == 9 && s.p == PAt(h, 9) && s.toP == [Random(k.rand)]
    requires Cfm(h, k.rand) != Cfm(h, h.d.rand)
    ensures CanMove(s, true) && !Agrees(h, Move(h, s, true))
  {
    ProvisionerFields(h, 9);
    FailsOn(h, PAt(h, 9), k.rand);
    hide PAt, Cfm, Fair, RecvRandom, Proper;
    ProcessRandom(h, s.p, k.rand);
    hide Process;
  }

  lemma FailsOn(h: Honest, d: Dev, r: seq<byte>)
    requires |r| == 16 && !d.device && d.state == RANDOM && d.cfmRemote == Cfm(h, h.d.rand) && Cfm(h, r) != Cfm(h, h.d.rand)
    requires d.invite == h.invite && d.caps == h.caps && d.start == h.start && d.secret == Secret(h) && d.auth == h.auth
    requires d.pub == h.p.pub && d.pubRemote == h.d.pub
    ensures RecvRandom(h.e, d, r).d.state == FAILED
  {
    assert r[..16] == r;
    SameConfirmation(h, d.(randRemote := r), r);
    hide Cfm, Salt, Confirmed, WithKeys, Secret;
  }

  lemma AtNine(h: Honest, s: Sys)
    requires Mid(h, s) && s.di == 8
    ensures s.pi <= 9 && (s.pi == 9 ==> s.toP == [] && s.p == PAt(h, 9))
  {
    hide PAt, ToDevice, ToProvisioner;
  }

  lemma SaltsDiffer(h: Honest, s: Sys, k: NewKeys)
    requires Fair(h) && s.pi == 9 && s.p == PAt(h, 9) && s.di == 9 && s.d.salt == SaltWith(h, k.pub) && SaltWith(h, k.pub) != Salt(h)
    ensures !Agrees(h, s)
  {
    ProvisionerFields(h, 9);
    hide PAt, Cfm, Salt, SaltWith, AgreedKeys, Cipher;
  }

  lemma BreaksRandom(h: Honest, s: Sys, k: NewKeys) returns (who: seq<bool>)
    requires Fair(h) && Proper(h, k) && Mid(h, s) && 7 <= s.di <= 8 && s.d == With(DAt(h, s.di), k)
    requires SaltWith(h, k.pub) != Salt(h) || Cfm(h, k.rand) != Cfm(h, h.d.rand)
    ensures Disagrees(h, s, who)
  {
    var a := ToEight(h, s, k);
    var t := RunSys(h, s, a);
    AtNine(h, t);
    var b := Drive(h, t, 9);
    var u := RunSys(h, t, b);
    AtNine(h, u);
    hide Fair, DAt, PAt, Move, CanMove, Agrees, Runs, RunSys, SaltWith, Salt, Mid, Cfm;
    ChecksRandom(h, u, k);
    var v := Move(h, u, false);
    var c: seq<bool>;
    if SaltWith(h, k.pub) != Salt(h) {
      SaltsDiffer(h, v, k);
      DisagreesNow(h, v);
      c := [];
    } else {
      assert [] + [Random(k.rand)] == [Random(k.rand)];
      RejectsRandom(h, v, k);
      DisagreesNow(h, Move(h, v, true));
      DisagreesNext(h, v, true, []);
      c := [true] + [];
    }
    DisagreesNext(h, u, false, c);
    DisagreesLater(h, t, b, [false] + c);
    DisagreesLater(h, s, a, b + ([false] + c));
    who := a + (b + ([false] + c));
  }

  // ---------- the exact condition ----------

  /** At any point of an honest run, whatever the schedule so far: after a repeated link open packet every
      continuation of the two scripts agrees if and only if the new keys are harmless at the device's step. */
  lemma LinkOpenHarmlessIff(h: Honest, who: seq<bool>, k: NewKeys, ackOk: bool)
    requires Fair(h) && Runs(h, Begin(h), who) && Proper(h, k)
    ensures var s := RunSys(h, Begin(h), who);
            (forall more | Runs(h, Reopened(s, k, ackOk), more) :: Agrees(h, RunSys(h, Reopened(s, k, ackOk), more)))
            <==> Harmless(h, s.di, k)
  {
    BeginInv(h);
    RunKeeps(h, Begin(h), who);
    var s := RunSys(h, Begin(h), who);
    hide *;
    if Harmless(h, s.di, k) {
      forall more | Runs(h, Reopened(s, k, ackOk), more) ensures Agrees(h, RunSys(h, Reopened(s, k, ackOk), more)) {
        HarmlessAgrees(h, s, k, ackOk, more);
      }
    } else {
      var more := HarmfulDisagrees(h, s, k, ackOk);
      DisagreementIs(h, Reopened(s, k, ackOk), more);
    }
  }

  lemma DisagreementIs(h: Honest, s: Sys, who: seq<bool>)
    requires Disagrees(h, s, who)
    ensures Runs(h, s, who) && !Agrees(h, RunSys(h, s, who))
  {
  }

  lemma HarmfulDisagrees(h: Honest, s: Sys, k: NewKeys, ackOk: bool) returns (more: seq<bool>)
    requires Fair(h) && Inv(h, s) && Proper(h, k) && !Harmless(h, s.di, k)
    ensures Disagrees(h, Reopened(s, k, ackOk), more)
  {
    ReopenedIs(h, s, k, ackOk);
    var t := Reopened(s, k, ackOk);
    InvMid(h, s, k);
    hide Inv, Fair, Proper, Mid, DAt, Agrees, SaltWith, Salt, Cfm, Disagrees, Reopened;
    if s.di == 4 { more := BreaksSecret(h, t, k); }
    else if s.di <= 6 { more := BreaksSalt(h, t, k); }
    else { more := BreaksRandom(h, t, k); }
  }

  lemma InvMid(h: Honest, s: Sys, k: NewKeys)
    requires Inv(h, s)
    ensures Mid(h, s.(d := With(DAt(h, s.di), k)))
  {
    hide PAt, DAt, ToDevice, ToProvisioner;
  }
}
