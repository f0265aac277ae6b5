// Upper transport's routines on the PDU buffer they rewrite in place, each proved to leave what UpperTransport says.

module UpperBuffer {
  import opened Bytes
  import opened Mesh
  import opened CcmSpec
  import opened Ccm
  import opened UpperTransport

  /** meshx_upper_trans_encrypt; the length has been cut to 8 bits by the call. */
  method UpperEncrypt(aes: Aes, a: array<byte>, pduLen: nat, micOff: nat, micLen: nat, c: MsgCtx, key: Block)
    requires pduLen < 256 && pduLen <= micOff && micOff + micLen <= a.Length && (micLen == 4 || micLen == 8)
    modifies a
    ensures var e := Encrypt(aes, key, AccessNonce(c), [], micLen, old(a[..])[..pduLen]);
            a[..] == Splice(Splice(old(a[..]), 0, e.text), micOff, e.tag)
  {
    hide Encrypt, AccessNonce;
    var nonce := AccessNonce(c);
    assert Pow256(2) == 0x1_0000;
    assert a[0..0 + pduLen] == a[..][..pduLen];
    var ret := EncryptAndTag(aes, key, pduLen, nonce, [], a, 0, a, 0, a, micOff, micLen);
  }

  /** The access branch of meshx_upper_trans_send, up to the call of lower transport. */
  method UpperSend(aes: Aes, key: Block, c: MsgCtx, m: seq<byte>) returns (a: array<byte>)
    ensures fresh(a) && a[..] == UpperPdu(aes, key, c, m)
  {
    var transMicLen := if c.szmic then 8 else 4;
    a := new byte[|m| + transMicLen](_ => 0);
    forall i | 0 <= i < |m| { a[i] := m[i]; }
    ghost var p := a[..];
    assert p[..|m|] == m && p[..|m| % 256] == m[..|m| % 256];
    UpperEncrypt(aes, a, |m| % 256, |m|, transMicLen, c, key);
    ghost var e := Encrypt(aes, key, AccessNonce(c), [], transMicLen, m[..|m| % 256]);
    PlacedParts(p, m, e.text, e.tag);
  }

  lemma PlacedParts(p: seq<byte>, m: seq<byte>, text: seq<byte>, tag: seq<byte>)
    requires |p| == |m| + |tag| && p[..|m|] == m && |text| <= |m|
    ensures Splice(Splice(p, 0, text), |m|, tag) == text + m[|text|..] + tag
  {
    var q := Splice(p, 0, text);
    assert q[..|m|] == text + p[..|m|][|text|..];
  }

  method DecryptOnce(aes: Aes, key: Block, nonce: seq<byte>, a: array<byte>, pduLen: nat, micOff: nat, micLen: nat)
    returns (ret: int)
    requires pduLen < 256 && pduLen <= micOff && micOff + micLen == a.Length && (micLen == 4 || micLen == 8) && |nonce| == 13
    modifies a
    ensures var t := TryDecrypt(aes, key, nonce, old(a[..])[..micOff], pduLen, old(a[..])[micOff..]);
            && (ret == 0 <==> t.ok) && a[..] == t.p + old(a[..])[micOff..]
  {
    hide Decrypt, CtrFrom, Splice;
    assert Pow256(2) == 0x1_0000;
    ghost var p := a[..];
    assert a[0..0 + pduLen] == p[..micOff][..pduLen] && a[micOff..micOff + micLen] == p[micOff..];
    hide Pow256;
    ret := AuthDecrypt(aes, key, pduLen, nonce, [], a, 0, a, 0, a, micOff, micLen);
    FrontReplaced(p, CtrFrom(aes, key, nonce, 1, p[..micOff][..pduLen]), micOff);
  }

  lemma FrontReplaced(p: seq<byte>, text: seq<byte>, at: nat)
    requires |text| <= at <= |p|
    ensures Splice(p, 0, text) == text + p[..at][|text|..] + p[at..]
  {
  }

  /** The loop over the application keys with the message's AID. */
  method DecryptApp(aes: Aes, keys: seq<AppKey>, aid: nat, nonce: seq<byte>, a: array<byte>, pduLen: nat, micOff: nat, micLen: nat)
    returns (found: bool)
    requires pduLen < 256 && pduLen <= micOff && micOff + micLen == a.Length && (micLen == 4 || micLen == 8) && |nonce| == 13
    modifies a
    ensures var r := TryAppKeys(aes, keys, aid, nonce, old(a[..])[..micOff], pduLen, old(a[..])[micOff..]);
            (found <==> r.Some?) && (found ==> a[..] == r.value + old(a[..])[micOff..])
  {
    hide TryDecrypt;
    ghost var tag := a[..][micOff..];
    var i := 0;
    while i < |keys|
      invariant 0 <= i <= |keys| && a[..][micOff..] == tag
      invariant TryAppKeys(aes, keys, aid, nonce, old(a[..])[..micOff], pduLen, tag)
                == TryAppKeys(aes, keys[i..], aid, nonce, a[..][..micOff], pduLen, tag)
    {
      assert keys[i..][0] == keys[i] && keys[i..][1..] == keys[i + 1..];
      if keys[i].aid == aid {
        var ret := DecryptOnce(aes, keys[i].key, nonce, a, pduLen, micOff, micLen);
        if ret == 0 { return true; }
      }
      i := i + 1;
    }
    found := false;
  }

  /** Whether the loop over the application keys gets to a decryption. */
  method HasAid(keys: seq<AppKey>, aid: nat) returns (found: bool)
    ensures found <==> exists i :: 0 <= i < |keys| && keys[i].aid == aid
  {
    found := false;
    var i := 0;
    while i < |keys| && !found
      invariant 0 <= i <= |keys|
      invariant found <==> exists j :: 0 <= j < i && keys[j].aid == aid
    {
      found := keys[i].aid == aid;
      i := i + 1;
    }
  }

  /** meshx_upper_trans_receive for an access message, up to the call of the access layer. */
  method UpperReceiveInPlace(aes: Aes, appKeys: seq<AppKey>, devKey: Block, c: MsgCtx, a: array<byte>)
    returns (r: Option<seq<byte>>, fault: bool)
    modifies a
    ensures fault <==> UpperOverruns(appKeys, c, a.Length)
    ensures r == UpperReceive(aes, appKeys, devKey, c, old(a[..]))
  {
    hide TryDecrypt, TryAppKeys, AccessNonce;
    UpperOverrunsIff(appKeys, c, a.Length);
    r, fault := None, false;
    var transMicLen := if c.seg && c.szmic then 8 else 4;
    if a.Length < transMicLen {
      fault := !c.akf;
      if c.akf { fault := HasAid(appKeys, c.aid); }
      return;
    }
    var micOff := a.Length - transMicLen;
    var pduLen := micOff % 256;
    if c.akf {
      var found := DecryptApp(aes, appKeys, c.aid, AccessNonce(c), a, pduLen, micOff, transMicLen);
      if !found { return; }
    } else {
      var ret := DecryptOnce(aes, devKey, AccessNonce(c), a, pduLen, micOff, transMicLen);
      if ret != 0 { return; }
    }
    assert a[..pduLen] == a[..][..micOff][..pduLen];
    r := Some(a[..pduLen]);
  }
}
