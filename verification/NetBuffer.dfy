// The network layer's routines on the packet buffer they change in place, each proved to leave what Network says.

module NetBuffer {
  import opened Bytes
  import opened Mesh
  import opened CcmSpec
  import opened Ccm
  import opened Network

  /** The bit field and octet copies that fill the 13-octet nonce structure. */
  method FillNonce(a: array<byte>, iv: nat) returns (nonce: seq<byte>)
    requires a.Length == 29
    ensures nonce == Nonce(a[..], iv)
  {
    nonce := [0];
    nonce := nonce + [a[1]];
    nonce := nonce + [a[2], a[3], a[4]];
    nonce := nonce + [a[5], a[6]];
    nonce := nonce + [0, 0];
    nonce := nonce + BE(iv, 4);
    assert a[..][2..5] == [a[2], a[3], a[4]] && a[..][5..7] == [a[5], a[6]];
  }

  method NetEncrypt(aes: Aes, a: array<byte>, len: nat, iv: nat, key: NetKey)
    requires a.Length == 29 && len + MicLen(Ctl(a[..])) <= TRANS_PDU_MAX
    modifies a
    ensures a[..] == Encrypted(aes, key, old(a[..]), len, iv)
  {
    var nonce := FillNonce(a, iv);
    var micLen := if a[1] >= 128 then 8 else 4;
    assert Pow256(2) == 0x1_0000;
    hide Encrypt, Nonce;
    assert a[7..9 + len] == a[..][7..9 + len];
    var ret := EncryptAndTag(aes, key.encryption, 2 + len, nonce, [], a, 7, a, 7, a, 9 + len, micLen);
  }

  method NetObfuscation(aes: Aes, a: array<byte>, iv: nat, key: NetKey)
    requires a.Length == 29
    modifies a
    ensures a[..] == Obfuscated(aes, key, old(a[..]), iv)
  {
    hide Xor, BE;
    assert a[7..14] == a[..][7..14];
    var plain: Block := Zeros(5) + BE(iv, 4) + a[7..14];
    var pecb := aes(key.privacy, plain);
    var i := 0;
    while i < 6
      invariant 0 <= i <= 6
      invariant forall k :: 0 <= k < 29 ==> a[k] == if 1 <= k < 1 + i then Xor(old(a[k]), pecb[k - 1]) else old(a[k])
    {
      a[1 + i] := Xor(a[1 + i], pecb[i]);
      i := i + 1;
    }
    assert pecb == aes(key.privacy, PrivacyPlaintext(old(a[..]), iv));
    var x := XorSeq(old(a[..])[1..7], pecb);
    assert forall k :: 0 <= k < 29 ==> Splice(old(a[..]), 1, x)[k] == a[k];
  }

  method NetDecrypt(aes: Aes, a: array<byte>, len: nat, iv: nat, key: NetKey) returns (ret: int)
    requires a.Length == 29 && len + MicLen(Ctl(a[..])) <= TRANS_PDU_MAX
    modifies a
    ensures a[..] == Decrypted(aes, key, old(a[..]), len, iv)
    ensures ret == 0 <==> MicMatches(aes, key, old(a[..]), len, iv)
  {
    var nonce := FillNonce(a, iv);
    var micLen := if a[1] >= 128 then 8 else 4;
    assert Pow256(2) == 0x1_0000;
    hide Decrypt, Nonce, CtrFrom;
    assert a[7..9 + len] == a[..][7..9 + len] && a[9 + len..9 + len + micLen] == a[..][9 + len..9 + len + micLen];
    ret := AuthDecrypt(aes, key.encryption, 2 + len, nonce, [], a, 7, a, 7, a, 9 + len, micLen);
  }

  method Overwrite(a: array<byte>, off: nat, data: seq<byte>)
    requires off + |data| <= a.Length
    modifies a
    ensures a[..] == Splice(old(a[..]), off, data)
  {
    forall i | 0 <= i < |data| { a[off + i] := data[i]; }
  }

  method FillPlaintext(a: array<byte>, nid: nat, c: MsgCtx, pdu: seq<byte>)
    requires a.Length == 29 && a[..] == Zeros(29) && nid < 128 && Fits(c) && |pdu| <= TRANS_PDU_MAX
    modifies a
    ensures a[..] == Plaintext(nid, c, pdu)
  {
    hide BE;
    var head := [nid + 128 * (c.iv % 2), c.ttl + 128 * Bit(c.ctl)];
    a[0] := head[0];
    a[1] := head[1];
    assert a[..] == head + Zeros(27);
    Overwrite(a, 2, BE(c.sqn, 3));
    assert a[..] == head + BE(c.sqn, 3) + Zeros(24);
    Overwrite(a, 5, BE(c.src, 2));
    assert a[..] == head + BE(c.sqn, 3) + BE(c.src, 2) + Zeros(22);
    Overwrite(a, 7, BE(c.dst, 2));
    assert a[..] == Header(nid, c) + Zeros(20);
    Overwrite(a, 9, pdu);
    assert a[..] == Header(nid, c) + pdu + Zeros(20)[|pdu|..];
    assert Zeros(20)[|pdu|..] == Zeros(20 - |pdu|);
  }

  /** Builds the packet meshx_net_send hands to a bearer. */
  method NetSend(aes: Aes, key: NetKey, c: MsgCtx, pdu: seq<byte>) returns (a: array<byte>, len: nat)
    requires key.nid < 128 && Fits(c) && |pdu| + MicLen(c.ctl) <= TRANS_PDU_MAX
    ensures fresh(a) && a.Length == 29 && a[..] == Packet(aes, key, c, pdu) && len == PacketLen(c, pdu)
  {
    a := new byte[29](_ => 0);
    FillPlaintext(a, key.nid, c, pdu);
    PlaintextCtl(key.nid, c, pdu);
    hide Plaintext, Encrypted, Obfuscated;
    len := 9 + |pdu| + if c.ctl then 8 else 4;
    NetEncrypt(aes, a, |pdu|, c.iv, key);
    NetObfuscation(aes, a, c.iv, key);
  }

  /** The loop over the network keys in meshx_net_receive; keys are the key values in traversal order. */
  method TryNetKeys(aes: Aes, keys: seq<NetKey>, a: array<byte>, len: nat, iv: nat) returns (found: Option<NetKey>, fault: bool)
    requires a.Length == 29 && len < 0x100
    modifies a
    ensures fault <==> KeysOverrun(aes, keys, old(a[..]), len, iv)
    ensures !fault ==> match TryKeys(aes, keys, old(a[..]), len, iv)
                       case None => found == None
                       case Some(o) => found == Some(o.key) && a[..] == o.p
  {
    hide Obfuscated, Decrypted, MicMatches;
    fault := false;
    var i := 0;
    while i < |keys|
      invariant 0 <= i <= |keys|
      invariant TryKeys(aes, keys, old(a[..]), len, iv) == TryKeys(aes, keys[i..], a[..], len, iv)
      invariant KeysOverrun(aes, keys, old(a[..]), len, iv) == KeysOverrun(aes, keys[i..], a[..], len, iv)
    {
      assert keys[i..][0] == keys[i] && keys[i..][1..] == keys[i + 1..];
      if keys[i].nid == a[0] % 128 {
        ghost var p := a[..];
        NetObfuscation(aes, a, iv, keys[i]);
        var netMicLen := if a[1] >= 128 then 8 else 4;
        var transPduLen := (len - 9 - netMicLen) % 0x100;
        if 9 + transPduLen + netMicLen > 29 { return None, true; }
        var ret := NetDecrypt(aes, a, transPduLen, iv, keys[i]);
        if ret == 0 { return Some(keys[i]), false; }
      }
      i := i + 1;
    }
    found := None;
  }

  method NetReceive(aes: Aes, keys: seq<NetKey>, index: nat, data: seq<byte>, len: nat) returns (r: Option<NetIn>, fault: bool)
    requires |data| == 29 && len < 0x100 && index < 0x1_0000_0000
    ensures fault <==> KeysOverrun(aes, keys, data, len, RxIv(index, data[0] / 128))
    ensures !fault ==> r == Receive(aes, keys, index, data, len)
  {
    hide TryKeys, KeysOverrun, FromBE;
    r := None;
    var a := new byte[29](i requires 0 <= i < 29 => data[i]);
    assert a[..] == data;
    var iv := index;
    if iv % 2 != a[0] / 128 { iv := if iv == 0 then 0xFFFF_FFFF else iv - 1; }
    assert iv == RxIv(index, data[0] / 128);
    var found;
    found, fault := TryNetKeys(aes, keys, a, len, iv);
    if fault || found == None { return; }
    var src, dst := FromBE(a[5..7]), FromBE(a[7..9]);
    assert a[5..7] == a[..][5..7] && a[7..9] == a[..][7..9] && a[2..5] == a[..][2..5] && a[9..] == a[..][9..];
    if !IsValidAddress(src) || !IsValidAddress(dst) { return; }
    var ctl := a[1] >= 128;
    r := Some(NetIn(MsgCtx(src, dst, a[1] % 128, ctl, false, false, false, 0, 0, iv, FromBE(a[2..5]), 0),
                    a[9..], (len - 9 - if ctl then 8 else 4) % 0x100));
  }
}
