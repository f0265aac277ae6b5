// That the failure of LinkReopen does happen: with any block cipher, and on concrete values.

module LinkReopenExample {
  import opened Bytes
  import opened CcmSpec
  import opened CmacSpec
  import opened Provision
  import opened Agreement
  import opened LinkReopen

  /** Different plaintexts encrypt differently under one key, as under any block cipher. */
  ghost predicate OneToOne(aes: Aes) { forall k: Block, x: Block, y: Block :: aes(k, x) == aes(k, y) ==> x == y }

  lemma XorCancels(a: Block, b: Block, x: Block)
    requires XorSeq(a, x) == XorSeq(b, x)
    ensures a == b
  {
    XorSeqInvolution(a, x);
    XorSeqInvolution(b, x);
  }

  lemma XorCancelsLeft(x: Block, a: Block, b: Block)
    requires XorSeq(x, a) == XorSeq(x, b)
    ensures a == b
  {
    forall i | 0 <= i < 16 ensures a[i] == b[i] {
      assert XorSeq(x, a)[i] == Xor(x[i], a[i]) && XorSeq(x, b)[i] == Xor(x[i], b[i]);
      XorComm(x[i], a[i]);
      XorComm(x[i], b[i]);
      XorInvolution(a[i], x[i]);
      XorInvolution(b[i], x[i]);
    }
  }

  lemma XorComm(a: byte, b: byte)
    ensures Xor(a, b) == Xor(b, a)
  {
    XorBitsComm(a, b, 8);
  }

  lemma {:induction false} XorBitsComm(a: nat, b: nat, n: nat)
    ensures XorBits(a, b, n) == XorBits(b, a, n)
  {
    if n > 0 { XorBitsComm(a / 2, b / 2, n - 1); }
  }

  /** Two messages that differ in a last partial block only have different MACs. */
  lemma {:induction false} LastBlockDecides(aes: Aes, key: Block, x: Block, f: seq<byte>, a: seq<byte>, b: seq<byte>)
    requires OneToOne(aes) && |f| % 16 == 0 && 1 <= |a| == |b| < 16 && a != b
    ensures CmacFrom(aes, key, x, f + a) != CmacFrom(aes, key, x, f + b)
    decreases |f|
  {
    if f == [] {
      assert f + a == a && f + b == b;
      if CmacFrom(aes, key, x, a) == CmacFrom(aes, key, x, b) {
        XorCancelsLeft(x, LastBlock(aes, key, a), LastBlock(aes, key, b));
        XorCancels(PadLast(a), PadLast(b), Subkey2(aes, key));
        PadLastInjective(a, b);
      }
    } else {
      assert (f + a)[..16] == f[..16] && (f + b)[..16] == f[..16];
      assert (f + a)[16..] == f[16..] + a && (f + b)[16..] == f[16..] + b;
      LastBlockDecides(aes, key, MacStep(aes, key, x, f[..16]), f[16..], a, b);
    }
  }

  /** New keys whose public key differs from the old one in its last octet. */
  predicate LastOctetDiffers(h: Honest, k: NewKeys) {
    |k.pub| == 64 && |h.d.pub| == 64 && k.pub[..63] == h.d.pub[..63] && k.pub[63] != h.d.pub[63]
  }

  lemma OtherSalt(h: Honest, k: NewKeys)
    requires Fair(h) && OneToOne(h.e.aes) && LastOctetDiffers(h, k)
    ensures SaltWith(h, k.pub) != Salt(h)
  {
    var front := h.invite + h.caps + h.start + (h.p.pub + h.d.pub[..63]);
    assert h.invite + h.caps + h.start + (h.p.pub + h.d.pub) == front + [h.d.pub[63]];
    assert h.invite + h.caps + h.start + (h.p.pub + k.pub) == front + [k.pub[63]];
    LastBlockDecides(h.e.aes, ZERO_BLOCK, ZERO_BLOCK, front, [h.d.pub[63]], [k.pub[63]]);
    hide CmacFrom;
  }

  /** Some schedule takes the device to every step of its script. */
  lemma {:induction false} Reaches(h: Honest, s: Sys, i: nat) returns (who: seq<bool>)
    requires Fair(h) && Inv(h, s) && s.di <= i <= DEVICE_LEN && s.pi <= PROVISIONER_LEN
    ensures Runs(h, s, who) && RunSys(h, s, who).di == i
    decreases (DEVICE_LEN - s.di) + (PROVISIONER_LEN - s.pi)
  {
    hide Inv, Fair, Move, CanMove;
    if s.di == i {
      who := [];
    } else {
      SomebodyCanMove(h, s);
      var b := !CanMove(s, false);
      if b { ProvisionerMoves(h, s); } else { DeviceMoves(h, s); }
      MoveCounts(h, s, b);
      var rest := Reaches(h, Move(h, s, b), i);
      RunCons(h, s, b, rest);
      who := [b] + rest;
    }
  }

  lemma MoveCounts(h: Honest, s: Sys, b: bool)
    requires CanMove(s, b)
    ensures var t := Move(h, s, b);
            && t.pi == s.pi + (if b then 1 else 0) && t.di == s.di + (if b then 0 else 1)
            && (s.pi <= PROVISIONER_LEN ==> t.pi <= PROVISIONER_LEN) && (s.di <= DEVICE_LEN ==> t.di <= DEVICE_LEN)
  {
    hide Process, Call;
  }

  /** With any block cipher, a link open packet after the device has sent its public key, with a new public key that
      differs in its last octet, breaks some continuation, at every step before the random values are exchanged. */
  lemma LateLinkOpenBreaks(h: Honest, k: NewKeys, ackOk: bool, i: nat) returns (who: seq<bool>, more: seq<bool>)
    requires Fair(h) && OneToOne(h.e.aes) && Proper(h, k) && LastOctetDiffers(h, k) && 5 <= i <= 8
    ensures Runs(h, Begin(h), who) && RunSys(h, Begin(h), who).di == i
    ensures var s := Reopened(RunSys(h, Begin(h), who), k, ackOk); Runs(h, s, more) && !Agrees(h, RunSys(h, s, more))
  {
    BeginInv(h);
    who := Reaches(h, Begin(h), i);
    RunKeeps(h, Begin(h), who);
    OtherSalt(h, k);
    hide Inv, Runs, RunSys, Agrees, Fair, Proper, Reopened;
    more := HarmfulDisagrees(h, RunSys(h, Begin(h), who), k, ackOk);
    DisagreementIs(h, Reopened(RunSys(h, Begin(h), who), k, ackOk), more);
  }

  // ---------- concrete values ----------

  function Same(k: Block, x: Block): Block { x }

  function Octets(n: nat): seq<byte> { seq(n, _ => 0) }

  function Record(device: bool): Dev {
    Dev(device, LINK_OPENED, [], [], [], Octets(64), [], [], [], [], Octets(16), [], [], [],
        ZERO_BLOCK, Keys(ZERO_BLOCK, ZERO_BLOCK, ZERO_BLOCK), [], [], 0)
  }

  /** All zeros but the number of elements, a cipher that changes nothing and a key agreement that always agrees. */
  function Example(): Honest {
    Honest(Env(Same, (a, b) => [], a => true), Record(false), Record(true), [0], [1] + Octets(10), Octets(5), [], Octets(25))
  }

  /** The conditions of LateLinkOpenBreaks are met. */
  lemma ExampleBreaks(ackOk: bool) returns (who: seq<bool>, more: seq<bool>)
    ensures var h, k := Example(), NewKeys(Octets(63) + [1], [], Octets(16));
            && Runs(h, Begin(h), who) && RunSys(h, Begin(h), who).di == 5
            && var s := Reopened(RunSys(h, Begin(h), who), k, ackOk);
               Runs(h, s, more) && !Agrees(h, RunSys(h, s, more))
  {
    var h, k := Example(), NewKeys(Octets(63) + [1], [], Octets(16));
    assert Fair(h) && Proper(h, k) && OneToOne(h.e.aes) && LastOctetDiffers(h, k) by {
      assert k.pub[..63] == Octets(63) && h.d.pub[..63] == Octets(63);
    }
    hide *;
    who, more := LateLinkOpenBreaks(h, k, ackOk, 5);
  }
}
