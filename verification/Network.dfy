// The network layer (mesh/network/meshx_net.c) on octet sequences: header packing, encryption in place,
// obfuscation, and the receiver's trial of its network keys.

module Network {
  import opened Bytes
  import opened Mesh
  import opened CcmSpec

  const TRANS_PDU_MAX: nat := 20
  const HEADER_LEN: nat := 9

  /** meshx_net_key_value_t; nid has 7 bits. */
  datatype NetKey = NetKey(nid: nat, encryption: Block, privacy: Block)

  /** The packed header and transport PDU buffer. */
  type NetPdu = p: seq<byte> | |p| == 29 witness seq(29, _ => 0)

  function MicLen(ctl: bool): nat { if ctl then 8 else 4 }

  function Ctl(p: NetPdu): bool { p[1] >= 128 }

  function Header(nid: nat, c: MsgCtx): seq<byte>
    requires nid < 128 && Fits(c)
  {
    [nid + 128 * (c.iv % 2), c.ttl + 128 * Bit(c.ctl)] + BE(c.sqn, 3) + BE(c.src, 2) + BE(c.dst, 2)
  }

  function Plaintext(nid: nat, c: MsgCtx, pdu: seq<byte>): NetPdu
    requires nid < 128 && Fits(c) && |pdu| <= TRANS_PDU_MAX
  {
    Header(nid, c) + pdu + Zeros(TRANS_PDU_MAX - |pdu|)
  }

  // ---------- encryption ----------

  function Nonce(p: NetPdu, iv: nat): (n: seq<byte>)
    ensures |n| == 13
  {
    [0, p[1]] + p[2..5] + p[5..7] + [0, 0] + BE(iv, 4)
  }

  /** meshx_net_encrypt: destination and transport PDU become their encryption, the MIC follows them. */
  function Encrypted(aes: Aes, key: NetKey, p: NetPdu, len: nat, iv: nat): NetPdu
    requires len + MicLen(Ctl(p)) <= TRANS_PDU_MAX
  {
    var c := Encrypt(aes, key.encryption, Nonce(p, iv), [], MicLen(Ctl(p)), p[7..9 + len]);
    Splice(Splice(p, 7, c.text), 9 + len, c.tag)
  }

  /** meshx_net_decrypt: the text is unmasked in place whether or not the MIC matches. */
  function Decrypted(aes: Aes, key: NetKey, p: NetPdu, len: nat, iv: nat): NetPdu
    requires len + MicLen(Ctl(p)) <= TRANS_PDU_MAX
  {
    Splice(p, 7, CtrFrom(aes, key.encryption, Nonce(p, iv), 1, p[7..9 + len]))
  }

  predicate MicMatches(aes: Aes, key: NetKey, p: NetPdu, len: nat, iv: nat)
    requires len + MicLen(Ctl(p)) <= TRANS_PDU_MAX
  {
    Decrypt(aes, key.encryption, Nonce(p, iv), [], Sealed(p[7..9 + len], p[9 + len..9 + len + MicLen(Ctl(p))])).Some?
  }

  lemma SameNonce(p: NetPdu, q: NetPdu, iv: nat)
    requires p[..7] == q[..7]
    ensures Nonce(p, iv) == Nonce(q, iv) && Ctl(p) == Ctl(q)
  {
    assert p[1] == p[..7][1] && q[1] == q[..7][1];
    assert p[2..5] == p[..7][2..5] && q[2..5] == q[..7][2..5];
    assert p[5..7] == p[..7][5..7] && q[5..7] == q[..7][5..7];
  }

  /** What Encrypted changes, and what it leaves. */
  lemma EncryptedParts(aes: Aes, key: NetKey, p: NetPdu, len: nat, iv: nat)
    requires len + MicLen(Ctl(p)) <= TRANS_PDU_MAX
    ensures var e, c := Encrypted(aes, key, p, len, iv), Encrypt(aes, key.encryption, Nonce(p, iv), [], MicLen(Ctl(p)), p[7..9 + len]);
            && e[..7] == p[..7] && e[7..9 + len] == c.text && e[9 + len..9 + len + MicLen(Ctl(p))] == c.tag
  {
    hide CtrFrom, Tag, Nonce;
  }

  /** Decrypting in place what was encrypted in place: the MIC matches, header and transport PDU are back. */
  lemma EncryptionRoundTrip(aes: Aes, key: NetKey, p: NetPdu, len: nat, iv: nat)
    requires len + MicLen(Ctl(p)) <= TRANS_PDU_MAX
    ensures var e := Encrypted(aes, key, p, len, iv);
            && Ctl(e) == Ctl(p) && MicMatches(aes, key, e, len, iv)
            && Decrypted(aes, key, e, len, iv)[..9 + len] == p[..9 + len]
  {
    var e, n := Encrypted(aes, key, p, len, iv), Nonce(p, iv);
    var text, mic := p[7..9 + len], MicLen(Ctl(p));
    var c := Encrypt(aes, key.encryption, n, [], mic, text);
    EncryptedParts(aes, key, p, len, iv);
    SameNonce(p, e, iv);
    RoundTrip(aes, key.encryption, n, [], mic, text, c);
    CtrInvolution(aes, key.encryption, n, 1, text);
    hide Encrypt, Encrypted, Nonce, Decrypt, CtrFrom, Tag;
    var d := Decrypted(aes, key, e, len, iv);
    assert d[..7] == e[..7] && d[7..9 + len] == text;
    assert d[..9 + len] == d[..7] + d[7..9 + len];
    assert p[..9 + len] == p[..7] + text;
  }

  // ---------- obfuscation ----------

  function PrivacyPlaintext(p: NetPdu, iv: nat): Block { Zeros(5) + BE(iv, 4) + p[7..14] }

  /** meshx_net_obfuscation: masks octets 1 to 6. */
  function Obfuscated(aes: Aes, key: NetKey, p: NetPdu, iv: nat): NetPdu {
    Splice(p, 1, XorSeq(p[1..7], aes(key.privacy, PrivacyPlaintext(p, iv))))
  }

  /** The mask depends only on octets it leaves alone, so masking again restores them. */
  lemma ObfuscationInvolution(aes: Aes, key: NetKey, p: NetPdu, iv: nat)
    ensures Obfuscated(aes, key, Obfuscated(aes, key, p, iv), iv) == p
    ensures Obfuscated(aes, key, p, iv)[0] == p[0] && Obfuscated(aes, key, p, iv)[7..] == p[7..]
  {
    hide Xor;
    var o, mask := Obfuscated(aes, key, p, iv), aes(key.privacy, PrivacyPlaintext(p, iv));
    assert o[7..14] == p[7..14];
    XorSeqInvolution(p[1..7], mask);
    assert o[1..7] == XorSeq(p[1..7], mask);
    assert p == p[..1] + p[1..7] + p[7..];
  }

  // ---------- sending and receiving ----------

  /** meshx_net_send, up to the choice of interface. */
  function Packet(aes: Aes, key: NetKey, c: MsgCtx, pdu: seq<byte>): NetPdu
    requires key.nid < 128 && Fits(c) && |pdu| + MicLen(c.ctl) <= TRANS_PDU_MAX
  {
    PlaintextCtl(key.nid, c, pdu);
    Obfuscated(aes, key, Encrypted(aes, key, Plaintext(key.nid, c, pdu), |pdu|, c.iv), c.iv)
  }

  lemma PlaintextCtl(nid: nat, c: MsgCtx, pdu: seq<byte>)
    requires nid < 128 && Fits(c) && |pdu| <= TRANS_PDU_MAX
    ensures Ctl(Plaintext(nid, c, pdu)) == c.ctl
  {
  }

  function PacketLen(c: MsgCtx, pdu: seq<byte>): nat { HEADER_LEN + |pdu| + MicLen(c.ctl) }

  /** The IV index picked by the IVI bit; 32-bit unsigned arithmetic. */
  function RxIv(index: nat, ivi: nat): nat {
    if index % 2 != ivi then (index - 1) % 0x1_0000_0000 else index
  }

  /** The receiver picks the sender's IV index exactly when that is its own or the one before. */
  lemma IvChoice(index: nat, sender: nat)
    requires index < 0x1_0000_0000 && sender < 0x1_0000_0000
    ensures RxIv(index, sender % 2) == sender <==> sender == index || sender == (index - 1) % 0x1_0000_0000
  {
  }

  /** One trial: ok, and the buffer it leaves behind. */
  datatype Trial = Trial(ok: bool, p: NetPdu)

  /** The length of the transport PDU, an 8-bit variable. */
  function TransLen(len: nat, ctl: bool): nat { (len - HEADER_LEN - MicLen(ctl)) % 0x100 }

  /** Text and MIC of the trial stay in the 29-octet buffer. */
  predicate InBuffer(len: nat, ctl: bool) { HEADER_LEN + TransLen(len, ctl) + MicLen(ctl) <= 29 }

  /** That is so exactly for packets that hold header and MIC and are no longer than the buffer. */
  lemma InBufferIff(len: nat, ctl: bool)
    requires len < 0x100
    ensures InBuffer(len, ctl) <==> HEADER_LEN + MicLen(ctl) <= len <= 29
  {
  }

  /** A trial that would leave the buffer fails here; KeysOverrun says when there is one. */
  function TryKey(aes: Aes, key: NetKey, p: NetPdu, len: nat, iv: nat): (t: Trial) {
    var q := Obfuscated(aes, key, p, iv);
    var body := TransLen(len, Ctl(q));
    if !InBuffer(len, Ctl(q)) then Trial(false, q)
    else Trial(MicMatches(aes, key, q, body, iv), Decrypted(aes, key, q, body, iv))
  }

  /** A trial within the buffer. */
  lemma TrialIs(aes: Aes, key: NetKey, p: NetPdu, len: nat, iv: nat)
    requires var q := Obfuscated(aes, key, p, iv); HEADER_LEN + MicLen(Ctl(q)) <= len <= 29
    ensures var q := Obfuscated(aes, key, p, iv);
            var body := len - HEADER_LEN - MicLen(Ctl(q));
            && TransLen(len, Ctl(q)) == body
            && TryKey(aes, key, p, len, iv) == Trial(MicMatches(aes, key, q, body, iv), Decrypted(aes, key, q, body, iv))
  {
    hide Obfuscated, MicMatches, Decrypted, Ctl;
  }

  datatype Opened = Opened(key: NetKey, p: NetPdu)

  /** The key loop: every key with the packet's NID is tried on what the trials before it left. */
  function TryKeys(aes: Aes, keys: seq<NetKey>, p: NetPdu, len: nat, iv: nat): (r: Option<Opened>)
    decreases |keys|
  {
    if keys == [] then None
    else if keys[0].nid != p[0] % 128 then TryKeys(aes, keys[1..], p, len, iv)
    else
      var t := TryKey(aes, keys[0], p, len, iv);
      if t.ok then Some(Opened(keys[0], t.p)) else TryKeys(aes, keys[1..], t.p, len, iv)
  }

  // ---------- lengths that leave the buffer ----------

  /** Some trial of the key loop reads and writes outside the 29-octet buffer. */
  predicate KeysOverrun(aes: Aes, keys: seq<NetKey>, p: NetPdu, len: nat, iv: nat)
    decreases |keys|
  {
    if keys == [] then false
    else if keys[0].nid != p[0] % 128 then KeysOverrun(aes, keys[1..], p, len, iv)
    else
      var t := TryKey(aes, keys[0], p, len, iv);
      !InBuffer(len, Ctl(Obfuscated(aes, keys[0], p, iv))) || (!t.ok && KeysOverrun(aes, keys[1..], t.p, len, iv))
  }

  /** What a run of failed trials leaves in the buffer. */
  function Tried(aes: Aes, keys: seq<NetKey>, p: NetPdu, len: nat, iv: nat): NetPdu
    decreases |keys|
  {
    if keys == [] then p
    else Tried(aes, keys[1..], if keys[0].nid == p[0] % 128 then TryKey(aes, keys[0], p, len, iv).p else p, len, iv)
  }

  /** Key i is the first to leave the buffer: none before it does or opens the packet. */
  ghost predicate OverrunsAt(aes: Aes, keys: seq<NetKey>, p: NetPdu, len: nat, iv: nat, i: nat) {
    && i < |keys| && keys[i].nid == p[0] % 128
    && TryKeys(aes, keys[..i], p, len, iv).None? && !KeysOverrun(aes, keys[..i], p, len, iv)
    && !InBuffer(len, Ctl(Obfuscated(aes, keys[i], Tried(aes, keys[..i], p, len, iv), iv)))
  }

  lemma TrialKeepsNid(aes: Aes, key: NetKey, p: NetPdu, len: nat, iv: nat)
    ensures TryKey(aes, key, p, len, iv).p[0] == p[0]
  {
    hide CtrFrom, BE, MicMatches;
  }

  lemma {:induction false} OverrunsSomewhere(aes: Aes, keys: seq<NetKey>, p: NetPdu, len: nat, iv: nat) returns (i: nat)
    requires KeysOverrun(aes, keys, p, len, iv)
    ensures OverrunsAt(aes, keys, p, len, iv, i)
    decreases |keys|
  {
    hide Obfuscated, TryKey, InBuffer, Ctl;
    var q := if keys[0].nid == p[0] % 128 then TryKey(aes, keys[0], p, len, iv).p else p;
    if keys[0].nid == p[0] % 128 && !InBuffer(len, Ctl(Obfuscated(aes, keys[0], p, iv))) {
      i := 0;
      assert keys[..0] == [];
    } else {
      i := OverrunsSomewhere(aes, keys[1..], q, len, iv);
      TrialKeepsNid(aes, keys[0], p, len, iv);
      i := i + 1;
      assert keys[..i][1..] == keys[1..][..i - 1];
    }
  }

  lemma {:induction false} OverrunFound(aes: Aes, keys: seq<NetKey>, p: NetPdu, len: nat, iv: nat, i: nat)
    requires OverrunsAt(aes, keys, p, len, iv, i)
    ensures KeysOverrun(aes, keys, p, len, iv)
    decreases |keys|
  {
    hide Obfuscated, TryKey, InBuffer, Ctl;
    if i == 0 {
      assert keys[..0] == [];
    } else {
      var q := if keys[0].nid == p[0] % 128 then TryKey(aes, keys[0], p, len, iv).p else p;
      assert keys[..i][1..] == keys[1..][..i - 1];
      TrialKeepsNid(aes, keys[0], p, len, iv);
      OverrunFound(aes, keys[1..], q, len, iv, i - 1);
    }
  }

  /** Exactly when reception leaves the buffer. From 17 to 29 octets never. Below 13 and above 29 for every packet with
      the NID of some key. Between, when a key that is tried unmasks a control header, whose MIC is longer. */
  lemma ReceiveOverrunsIff(aes: Aes, keys: seq<NetKey>, p: NetPdu, len: nat, iv: nat)
    requires len < 0x100
    ensures 17 <= len <= 29 ==> !KeysOverrun(aes, keys, p, len, iv)
    ensures len < 13 || len > 29 ==>
              (KeysOverrun(aes, keys, p, len, iv) <==> exists i :: 0 <= i < |keys| && keys[i].nid == p[0] % 128)
    ensures 13 <= len < 17 ==>
              (KeysOverrun(aes, keys, p, len, iv) <==>
               exists i :: 0 <= i < |keys| && keys[i].nid == p[0] % 128 && TryKeys(aes, keys[..i], p, len, iv).None?
                           && !KeysOverrun(aes, keys[..i], p, len, iv)
                           && Ctl(Obfuscated(aes, keys[i], Tried(aes, keys[..i], p, len, iv), iv)))
  {
    InBufferIff(len, true);
    InBufferIff(len, false);
    hide InBuffer, TryKey, TryKeys, Tried, Obfuscated, Ctl;
    if KeysOverrun(aes, keys, p, len, iv) {
      var i := OverrunsSomewhere(aes, keys, p, len, iv);
    } else if len < 13 || len > 29 {
      NoKeyNoOverrun(aes, keys, p, len, iv);
    } else {
      forall i | 0 <= i < |keys| && keys[i].nid == p[0] % 128 && TryKeys(aes, keys[..i], p, len, iv).None?
                 && !KeysOverrun(aes, keys[..i], p, len, iv)
        ensures InBuffer(len, Ctl(Obfuscated(aes, keys[i], Tried(aes, keys[..i], p, len, iv), iv)))
      {
        if !InBuffer(len, Ctl(Obfuscated(aes, keys[i], Tried(aes, keys[..i], p, len, iv), iv))) { OverrunFound(aes, keys, p, len, iv, i); }
      }
    }
  }

  lemma {:induction false} NoKeyNoOverrun(aes: Aes, keys: seq<NetKey>, p: NetPdu, len: nat, iv: nat)
    requires !InBuffer(len, true) && !InBuffer(len, false) && !KeysOverrun(aes, keys, p, len, iv)
    ensures forall i :: 0 <= i < |keys| ==> keys[i].nid != p[0] % 128
    decreases |keys|
  {
    hide InBuffer, TryKey, Obfuscated, Ctl;
    if keys != [] { NoKeyNoOverrun(aes, keys[1..], p, len, iv); }
  }

  /** What the network layer hands up: the context, the 20-octet PDU buffer and the PDU's length. */
  datatype NetIn = NetIn(ctx: MsgCtx, pdu: seq<byte>, len: nat)

  function HeaderCtx(p: NetPdu, iv: nat): MsgCtx {
    MsgCtx(FromBE(p[5..7]), FromBE(p[7..9]), p[1] % 128, Ctl(p), false, false, false, 0, 0, iv, FromBE(p[2..5]), 0)
  }

  /** meshx_net_receive for a packet the message cache lets pass and addressed to this node. */
  function Receive(aes: Aes, keys: seq<NetKey>, index: nat, p: NetPdu, len: nat): Option<NetIn> {
    var iv := RxIv(index, p[0] / 128);
    match TryKeys(aes, keys, p, len, iv)
    case None => None
    case Some(o) =>
      var c := HeaderCtx(o.p, iv);
      if !IsValidAddress(c.src) || !IsValidAddress(c.dst) then None
      else Some(NetIn(c, o.p[9..], TransLen(len, c.ctl)))
  }

  // ---------- round trip ----------

  lemma HeaderParses(nid: nat, c: MsgCtx, pdu: seq<byte>)
    requires nid < 128 && Fits(c) && |pdu| <= TRANS_PDU_MAX
    ensures var p := Plaintext(nid, c, pdu);
            && p[0] == nid + 128 * (c.iv % 2) && p[1] == c.ttl + 128 * Bit(c.ctl)
            && FromBE(p[2..5]) == c.sqn && FromBE(p[5..7]) == c.src && FromBE(p[7..9]) == c.dst && p[9..9 + |pdu|] == pdu
  {
    assert Pow256(2) == 0x1_0000 && Pow256(3) == 0x100_0000;
    FromBEofBE(c.sqn, 3);
    FromBEofBE(c.src, 2);
    FromBEofBE(c.dst, 2);
    hide BE, FromBE, Pow256;
    var p := Plaintext(nid, c, pdu);
    assert p[2..5] == BE(c.sqn, 3) && p[5..7] == BE(c.src, 2) && p[7..9] == BE(c.dst, 2);
  }

  /** The right key's trial on a sent packet succeeds and restores header and transport PDU. */
  lemma RightKeyOpens(aes: Aes, key: NetKey, c: MsgCtx, pdu: seq<byte>)
    requires key.nid < 128 && Fits(c) && |pdu| + MicLen(c.ctl) <= TRANS_PDU_MAX
    ensures var t := TryKey(aes, key, Packet(aes, key, c, pdu), PacketLen(c, pdu), c.iv);
            t.ok && t.p[..9 + |pdu|] == Plaintext(key.nid, c, pdu)[..9 + |pdu|]
  {
    var p := Plaintext(key.nid, c, pdu);
    PlaintextCtl(key.nid, c, pdu);
    var e := Encrypted(aes, key, p, |pdu|, c.iv);
    ObfuscationInvolution(aes, key, e, c.iv);
    EncryptionRoundTrip(aes, key, p, |pdu|, c.iv);
    hide Obfuscated, Encrypted, Decrypted, MicMatches, Plaintext, Ctl, TryKey, TransLen, InBuffer;
    TrialIs(aes, key, Packet(aes, key, c, pdu), PacketLen(c, pdu), c.iv);
  }

  lemma {:induction false} FirstKey(aes: Aes, keys: seq<NetKey>, p: NetPdu, len: nat, iv: nat, k: nat)
    requires k < |keys| && keys[k].nid == p[0] % 128
    requires forall i :: 0 <= i < k ==> keys[i].nid != p[0] % 128
    requires TryKey(aes, keys[k], p, len, iv).ok
    ensures TryKeys(aes, keys, p, len, iv) == Some(Opened(keys[k], TryKey(aes, keys[k], p, len, iv).p))
    decreases k
  {
    hide TryKey;
    if k > 0 { FirstKey(aes, keys[1..], p, len, iv, k - 1); }
  }

  /** The first key of the list that has this NID is the sender's. */
  predicate FirstIsRight(keys: seq<NetKey>, key: NetKey, k: nat) {
    k < |keys| && keys[k] == key && forall i :: 0 <= i < k ==> keys[i].nid != key.nid
  }

  /** Send followed by receive: when the sender's key comes first among those with its NID and the sender's IV
      index is the receiver's or one behind, the receiver gets the sender's ctl, ttl, seq, src, dst and IV index
      and the transport PDU. */
  lemma NetRoundTrip(aes: Aes, keys: seq<NetKey>, key: NetKey, k: nat, index: nat, c: MsgCtx, pdu: seq<byte>)
    requires key.nid < 128 && Fits(c) && |pdu| + MicLen(c.ctl) <= TRANS_PDU_MAX
    requires IsValidAddress(c.src) && IsValidAddress(c.dst) && FirstIsRight(keys, key, k)
    requires index < 0x1_0000_0000 && (c.iv == index || c.iv == (index - 1) % 0x1_0000_0000)
    ensures var r := Receive(aes, keys, index, Packet(aes, key, c, pdu), PacketLen(c, pdu));
            && r.Some? && r.value.len == |pdu| && |r.value.pdu| == TRANS_PDU_MAX && r.value.pdu[..|pdu|] == pdu
            && r.value.ctx == MsgCtx(c.src, c.dst, c.ttl, c.ctl, false, false, false, 0, 0, c.iv, c.sqn, 0)
  {
    hide TryKey, TryKeys, Packet, Plaintext, Fits, FromBE;
    var o, n := Packet(aes, key, c, pdu), PacketLen(c, pdu);
    PacketFirst(aes, key, c, pdu);
    IvChoice(index, c.iv);
    RightKeyOpens(aes, key, c, pdu);
    FirstKey(aes, keys, o, n, c.iv, k);
    OpenedParses(key.nid, c, pdu, TryKey(aes, key, o, n, c.iv).p);
    ChosenIv(key.nid, c.iv, o[0]);
  }

  lemma ChosenIv(nid: nat, iv: nat, b: byte)
    requires nid < 128 && b == nid + 128 * (iv % 2)
    ensures b % 128 == nid && b / 128 == iv % 2
  {
  }

  lemma PacketFirst(aes: Aes, key: NetKey, c: MsgCtx, pdu: seq<byte>)
    requires key.nid < 128 && Fits(c) && |pdu| + MicLen(c.ctl) <= TRANS_PDU_MAX
    ensures var o := Packet(aes, key, c, pdu); o[0] == key.nid + 128 * (c.iv % 2)
  {
    var p := Plaintext(key.nid, c, pdu);
    PlaintextCtl(key.nid, c, pdu);
    var e := Encrypted(aes, key, p, |pdu|, c.iv);
    EncryptedParts(aes, key, p, |pdu|, c.iv);
    ObfuscationInvolution(aes, key, e, c.iv);
    HeaderParses(key.nid, c, pdu);
    hide Encrypted, Obfuscated, Plaintext;
    assert e[0] == e[..7][0] && p[0] == p[..7][0];
  }

  lemma OpenedParses(nid: nat, c: MsgCtx, pdu: seq<byte>, q: NetPdu)
    requires nid < 128 && Fits(c) && |pdu| <= TRANS_PDU_MAX && q[..9 + |pdu|] == Plaintext(nid, c, pdu)[..9 + |pdu|]
    ensures q[9..][..|pdu|] == pdu
    ensures HeaderCtx(q, c.iv) == MsgCtx(c.src, c.dst, c.ttl, c.ctl, false, false, false, 0, 0, c.iv, c.sqn, 0)
  {
    HeaderParses(nid, c, pdu);
    hide FromBE, Plaintext;
    var p, n := Plaintext(nid, c, pdu), 9 + |pdu|;
    assert q[1] == q[..n][1] && p[1] == p[..n][1];
    assert q[2..5] == q[..n][2..5] && p[2..5] == p[..n][2..5];
    assert q[5..7] == q[..n][5..7] && p[5..7] == p[..n][5..7];
    assert q[7..9] == q[..n][7..9] && p[7..9] == p[..n][7..9];
    assert q[9..][..|pdu|] == q[..n][9..] && p[9..n] == p[..n][9..];
  }

  // ---------- a wrong key tried first ----------

  /** Octet i of the key stream that masks a message. */
  function StreamOctet(aes: Aes, key: Block, nonce: seq<byte>, i: nat): byte
    requires 7 <= |nonce| <= 13
  {
    aes(key, CounterBlock(nonce, 1 + i / 16))[i % 16]
  }

  /** The octets a key masks: six of the header, and the key stream over destination and transport PDU. */
  predicate MasksNothing(aes: Aes, key: NetKey, p: NetPdu, body: nat, iv: nat)
    requires body + MicLen(Ctl(p)) <= TRANS_PDU_MAX
  {
    && (forall i :: 0 <= i < 6 ==> aes(key.privacy, PrivacyPlaintext(p, iv))[i] == 0)
    && (forall i :: 0 <= i < body + 2 ==> StreamOctet(aes, key.encryption, Nonce(p, iv), i) == 0)
  }

  lemma XorSeqSame(a: seq<byte>, m: seq<byte>)
    requires |a| <= |m|
    ensures XorSeq(a, m) == a <==> forall i :: 0 <= i < |a| ==> m[i] == 0
  {
    hide Xor;
    forall i | 0 <= i < |a| ensures XorSeq(a, m)[i] == a[i] <==> m[i] == 0 { XorSameIffZero(a[i], m[i]); }
  }

  lemma CtrSame(aes: Aes, key: Block, nonce: seq<byte>, s: seq<byte>)
    requires 7 <= |nonce| <= 13
    ensures CtrFrom(aes, key, nonce, 1, s) == s
            <==> forall i :: 0 <= i < |s| ==> StreamOctet(aes, key, nonce, i) == 0
  {
    var c := CtrFrom(aes, key, nonce, 1, s);
    forall i | 0 <= i < |s| ensures c[i] == s[i] <==> StreamOctet(aes, key, nonce, i) == 0 {
      CtrOctet(aes, key, nonce, 1, s, i / 16, i % 16);
      XorSameIffZero(s[i], StreamOctet(aes, key, nonce, i));
    }
    hide *;
  }

  lemma SpliceSame(p: seq<byte>, off: nat, d: seq<byte>)
    requires off + |d| <= |p|
    ensures Splice(p, off, d) == p <==> p[off..off + |d|] == d
  {
    var q := Splice(p, off, d);
    assert q[off..off + |d|] == d;
    if p[off..off + |d|] == d { assert p == p[..off] + p[off..off + |d|] + p[off + |d|..]; }
  }

  /** Keys are tried in place, and a failed trial is not undone. The keys after it see the packet as it was
      received if and only if the failing key masks nothing of it. */
  lemma TrialLeavesPacketIff(aes: Aes, key: NetKey, p: NetPdu, len: nat, iv: nat)
    requires 17 <= len <= 29
    ensures TryKey(aes, key, p, len, iv).p == p
            <==> MasksNothing(aes, key, p, len - HEADER_LEN - MicLen(Ctl(p)), iv)
  {
    var mask := aes(key.privacy, PrivacyPlaintext(p, iv));
    var q := Obfuscated(aes, key, p, iv);
    XorSeqSame(p[1..7], mask);
    SpliceSame(p, 1, XorSeq(p[1..7], mask));
    var body := len - HEADER_LEN - MicLen(Ctl(q));
    hide XorSeq, Nonce, PrivacyPlaintext, CtrFrom, Obfuscated, TryKey, MicMatches;
    TrialIs(aes, key, p, len, iv);
    var d := Decrypted(aes, key, q, body, iv);
    assert d[..7] == q[..7];
    if q == p {
      CtrSame(aes, key.encryption, Nonce(p, iv), p[7..9 + body]);
      SpliceSame(p, 7, CtrFrom(aes, key.encryption, Nonce(p, iv), 1, p[7..9 + body]));
    } else {
      ObfuscationInvolution(aes, key, p, iv);
      assert q == q[..7] + q[7..] && p == p[..7] + p[7..];
    }
  }
}
