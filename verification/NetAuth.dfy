// What the network layer hears: exactly the packets that CCM sealed under one of its keys.

module NetAuth {
  import opened Bytes
  import opened Mesh
  import opened CcmSpec
  import opened Network

  /** Unmasked packet q of len octets is the sealing of m, destination and transport PDU, under this key. */
  predicate SealedBy(aes: Aes, key: NetKey, q: NetPdu, len: nat, iv: nat, m: seq<byte>) {
    var mic := MicLen(Ctl(q));
    && HEADER_LEN + mic <= len <= 29 && |m| == len - 7 - mic
    && Sealed(q[7..len - mic], q[len - mic..len]) == Encrypt(aes, key.encryption, Nonce(q, iv), [], mic, m)
  }

  /** A trial succeeds if and only if the packet is the sealing of something, and leaves that in its place. */
  lemma TrialOpensIff(aes: Aes, key: NetKey, p: NetPdu, len: nat, iv: nat)
    requires len < 0x100
    ensures var q, t := Obfuscated(aes, key, p, iv), TryKey(aes, key, p, len, iv);
            && (t.ok <==> exists m :: SealedBy(aes, key, q, len, iv, m))
            && forall m :: SealedBy(aes, key, q, len, iv, m) ==> t.p == Splice(q, 7, m)
  {
    var q := Obfuscated(aes, key, p, iv);
    InBufferIff(len, Ctl(q));
    if HEADER_LEN + MicLen(Ctl(q)) <= len <= 29 {
      var body := len - HEADER_LEN - MicLen(Ctl(q));
      assert body + MicLen(Ctl(q)) <= TRANS_PDU_MAX && len == HEADER_LEN + body + MicLen(Ctl(q));
      hide *;
      TrialIs(aes, key, p, len, iv);
      OpensText(aes, key, q, body, iv, len);
    } else {
      OutsideFails(aes, key, p, len, iv);
      hide Obfuscated, TryKey, Encrypt, Nonce;
    }
  }

  lemma OutsideFails(aes: Aes, key: NetKey, p: NetPdu, len: nat, iv: nat)
    requires !InBuffer(len, Ctl(Obfuscated(aes, key, p, iv)))
    ensures !TryKey(aes, key, p, len, iv).ok
  {
    hide Obfuscated, InBuffer;
  }

  lemma OpensText(aes: Aes, key: NetKey, q: NetPdu, body: nat, iv: nat, len: nat)
    requires body + MicLen(Ctl(q)) <= TRANS_PDU_MAX && len == HEADER_LEN + body + MicLen(Ctl(q))
    ensures MicMatches(aes, key, q, body, iv) <==> exists m :: SealedBy(aes, key, q, len, iv, m)
    ensures forall m :: SealedBy(aes, key, q, len, iv, m) ==> Decrypted(aes, key, q, body, iv) == Splice(q, 7, m)
  {
    var mic, n := MicLen(Ctl(q)), Nonce(q, iv);
    var c := Sealed(q[7..len - mic], q[len - mic..len]);
    assert len - mic == 9 + body;
    var d := CtrFrom(aes, key.encryption, n, 1, c.text);
    hide Nonce, Encrypt, Splice, CtrFrom, Tag;
    forall m ensures SealedBy(aes, key, q, len, iv, m) <==> Decrypt(aes, key.encryption, n, [], c) == Some(m) {
      RoundTrip(aes, key.encryption, n, [], mic, m, c);
      if Decrypt(aes, key.encryption, n, [], c) == Some(m) { assert m == d; }
    }
    if MicMatches(aes, key, q, body, iv) { assert SealedBy(aes, key, q, len, iv, d); }
  }

  // ---------- the key loop ----------

  /** Key i is the first to open the packet, and m is what it finds. */
  ghost predicate OpensAt(aes: Aes, keys: seq<NetKey>, p: NetPdu, len: nat, iv: nat, i: nat, m: seq<byte>) {
    && i < |keys| && keys[i].nid == p[0] % 128 && TryKeys(aes, keys[..i], p, len, iv).None?
    && SealedBy(aes, keys[i], Obfuscated(aes, keys[i], Tried(aes, keys[..i], p, len, iv), iv), len, iv, m)
  }

  lemma {:induction false} SomeKeyOpens(aes: Aes, keys: seq<NetKey>, p: NetPdu, len: nat, iv: nat) returns (i: nat, m: seq<byte>)
    requires len < 0x100 && TryKeys(aes, keys, p, len, iv).Some?
    ensures OpensAt(aes, keys, p, len, iv, i, m)
    decreases |keys|
  {
    hide Obfuscated, TryKey, SealedBy;
    var mine := keys[0].nid == p[0] % 128;
    if mine && TryKey(aes, keys[0], p, len, iv).ok {
      TrialOpensIff(aes, keys[0], p, len, iv);
      m :| SealedBy(aes, keys[0], Obfuscated(aes, keys[0], p, iv), len, iv, m);
      i := 0;
      assert keys[..0] == [];
    } else {
      var q := if mine then TryKey(aes, keys[0], p, len, iv).p else p;
      i, m := SomeKeyOpens(aes, keys[1..], q, len, iv);
      TrialKeepsNid(aes, keys[0], p, len, iv);
      i := i + 1;
      assert keys[..i][1..] == keys[1..][..i - 1];
    }
  }

  lemma {:induction false} OpensFound(aes: Aes, keys: seq<NetKey>, p: NetPdu, len: nat, iv: nat, i: nat, m: seq<byte>)
    requires len < 0x100 && OpensAt(aes, keys, p, len, iv, i, m)
    ensures TryKeys(aes, keys, p, len, iv)
            == Some(Opened(keys[i], Splice(Obfuscated(aes, keys[i], Tried(aes, keys[..i], p, len, iv), iv), 7, m)))
    decreases |keys|
  {
    hide Obfuscated, TryKey, SealedBy, Splice;
    if i == 0 {
      assert keys[..0] == [];
      TrialOpensIff(aes, keys[0], p, len, iv);
    } else {
      var q := if keys[0].nid == p[0] % 128 then TryKey(aes, keys[0], p, len, iv).p else p;
      assert keys[..i][1..] == keys[1..][..i - 1];
      TrialKeepsNid(aes, keys[0], p, len, iv);
      OpensFound(aes, keys[1..], q, len, iv, i - 1, m);
    }
  }

  /** What is handed up when q was the sealing of m: header fields of q, destination and PDU of m. */
  predicate HeardAs(x: NetIn, q: NetPdu, len: nat, iv: nat, m: seq<byte>)
    requires |m| >= 2
  {
    && x.ctx == MsgCtx(FromBE(q[5..7]), FromBE(m[..2]), q[1] % 128, Ctl(q), false, false, false, 0, 0, iv, FromBE(q[2..5]), 0)
    && x.len == |m| - 2 && |x.pdu| == 20 && x.len <= 20 && x.pdu[..x.len] == m[2..]
  }

  lemma SplicedHeader(q: NetPdu, len: nat, iv: nat, m: seq<byte>)
    requires 2 <= |m| <= 22
    ensures var o := Splice(q, 7, m);
            && o[0..7] == q[0..7] && o[1] == q[1] && o[2..5] == q[2..5] && o[5..7] == q[5..7] && o[7..9] == m[..2]
            && o[9..][..|m| - 2] == m[2..] && Ctl(o) == Ctl(q)
  {
    assert q[2..5] == q[..7][2..5] && q[5..7] == q[..7][5..7] && m[2..] == Splice(q, 7, m)[9..7 + |m|];
  }

  lemma SealedLength(aes: Aes, key: NetKey, q: NetPdu, len: nat, iv: nat, m: seq<byte>)
    requires SealedBy(aes, key, q, len, iv, m)
    ensures 2 <= |m| <= 22 && |m| - 2 == TransLen(len, Ctl(q))
  {
    hide Encrypt, Nonce;
  }

  /** With key i the first that opens it, as the sealing of m: both addresses decide whether it is handed up, and it is
      handed up as m says. */
  ghost predicate HeardFrom(aes: Aes, keys: seq<NetKey>, p: NetPdu, len: nat, iv: nat, i: nat, m: seq<byte>, r: Option<NetIn>)
    requires OpensAt(aes, keys, p, len, iv, i, m)
  {
    var q := Obfuscated(aes, keys[i], Tried(aes, keys[..i], p, len, iv), iv);
    && |m| >= 2 && (r.Some? <==> IsValidAddress(FromBE(q[5..7])) && IsValidAddress(FromBE(m[..2])))
    && (r.Some? ==> HeardAs(r.value, q, len, iv, m))
  }

  /** A packet is handed up if and only if some key of the node, the first that opens it, finds it to be the sealing of
      some m, and both addresses are valid; then destination and PDU are those of m, the other fields those of the
      unmasked header. Nothing that is not a sealing is ever heard. */
  lemma HeardIffSealed(aes: Aes, keys: seq<NetKey>, index: nat, p: NetPdu, len: nat)
    requires len < 0x100
    ensures var iv, r := RxIv(index, p[0] / 128), Receive(aes, keys, index, p, len);
            && (r.Some? ==> exists i: nat, m: seq<byte> :: OpensAt(aes, keys, p, len, iv, i, m))
            && forall i: nat, m: seq<byte> :: OpensAt(aes, keys, p, len, iv, i, m) ==> HeardFrom(aes, keys, p, len, iv, i, m, r)
  {
    var iv, r := RxIv(index, p[0] / 128), Receive(aes, keys, index, p, len);
    if r.Some? { var i, m := SomeKeyOpens(aes, keys, p, len, iv); }
    hide *;
    forall i: nat, m: seq<byte> | OpensAt(aes, keys, p, len, iv, i, m) ensures HeardFrom(aes, keys, p, len, iv, i, m, r) {
      Heard(aes, keys, index, p, len, i, m);
    }
  }

  lemma Heard(aes: Aes, keys: seq<NetKey>, index: nat, p: NetPdu, len: nat, i: nat, m: seq<byte>)
    requires len < 0x100 && OpensAt(aes, keys, p, len, RxIv(index, p[0] / 128), i, m)
    ensures HeardFrom(aes, keys, p, len, RxIv(index, p[0] / 128), i, m, Receive(aes, keys, index, p, len))
  {
    var iv := RxIv(index, p[0] / 128);
    var q := Obfuscated(aes, keys[i], Tried(aes, keys[..i], p, len, iv), iv);
    OpensFound(aes, keys, p, len, iv, i, m);
    SealedLength(aes, keys[i], q, len, iv, m);
    SplicedHeader(q, len, iv, m);
    hide Obfuscated, Tried, TryKeys, SealedBy, Splice, FromBE, RxIv;
  }
}
