// What upper transport hands to the access layer: exactly the messages that CCM sealed under one of its keys.

module UpperAuth {
  import opened Bytes
  import opened Mesh
  import opened CcmSpec
  import opened UpperTransport

  /** The first len octets of p, with this tag, are the sealing of v under the key and the context's nonce. */
  predicate SealedText(aes: Aes, key: Block, nonce: seq<byte>, p: seq<byte>, len: nat, tag: seq<byte>, v: seq<byte>)
    requires len <= |p| && (|tag| == 4 || |tag| == 8) && |nonce| == 13
  {
    |v| == len && Sealed(p[..len], tag) == Encrypt(aes, key, nonce, [], |tag|, v)
  }

  /** One decryption succeeds if and only if that is so for some v, and leaves v in place. */
  lemma DecryptsIff(aes: Aes, key: Block, nonce: seq<byte>, p: seq<byte>, len: nat, tag: seq<byte>)
    requires len <= |p| && (|tag| == 4 || |tag| == 8) && |nonce| == 13
    ensures var t := TryDecrypt(aes, key, nonce, p, len, tag);
            && (t.ok <==> exists v :: SealedText(aes, key, nonce, p, len, tag, v))
            && forall v :: SealedText(aes, key, nonce, p, len, tag, v) ==> t.p == v + p[len..]
  {
    var c := Sealed(p[..len], tag);
    var d := CtrFrom(aes, key, nonce, 1, p[..len]);
    hide CtrFrom, Tag, Encrypt;
    forall v ensures SealedText(aes, key, nonce, p, len, tag, v) <==> Decrypt(aes, key, nonce, [], c) == Some(v) {
      RoundTrip(aes, key, nonce, [], |tag|, v, c);
    }
    if TryDecrypt(aes, key, nonce, p, len, tag).ok { assert SealedText(aes, key, nonce, p, len, tag, d); }
  }

  /** What failed decryptions under these keys leave in the buffer. */
  function Tried(aes: Aes, keys: seq<AppKey>, aid: nat, nonce: seq<byte>, p: seq<byte>, len: nat, tag: seq<byte>): (r: seq<byte>)
    requires len <= |p| && (|tag| == 4 || |tag| == 8) && |nonce| == 13
    ensures |r| == |p|
    decreases |keys|
  {
    if keys == [] then p
    else
      Tried(aes, keys[1..], aid, nonce, if keys[0].aid == aid then TryDecrypt(aes, keys[0].key, nonce, p, len, tag).p else p, len, tag)
  }

  /** Key i is the first with this AID that opens the message, and v is what it finds. */
  ghost predicate OpensAt(aes: Aes, keys: seq<AppKey>, aid: nat, nonce: seq<byte>, p: seq<byte>, len: nat, tag: seq<byte>, i: nat, v: seq<byte>)
    requires len <= |p| && (|tag| == 4 || |tag| == 8) && |nonce| == 13
  {
    && i < |keys| && keys[i].aid == aid && TryAppKeys(aes, keys[..i], aid, nonce, p, len, tag).None?
    && SealedText(aes, keys[i].key, nonce, Tried(aes, keys[..i], aid, nonce, p, len, tag), len, tag, v)
  }

  lemma {:induction false} SomeKeyOpens(aes: Aes, keys: seq<AppKey>, aid: nat, nonce: seq<byte>, p: seq<byte>, len: nat, tag: seq<byte>)
    returns (i: nat, v: seq<byte>)
    requires len <= |p| && (|tag| == 4 || |tag| == 8) && |nonce| == 13 && TryAppKeys(aes, keys, aid, nonce, p, len, tag).Some?
    ensures OpensAt(aes, keys, aid, nonce, p, len, tag, i, v)
    decreases |keys|
  {
    hide TryDecrypt, SealedText;
    var mine := keys[0].aid == aid;
    if mine && TryDecrypt(aes, keys[0].key, nonce, p, len, tag).ok {
      DecryptsIff(aes, keys[0].key, nonce, p, len, tag);
      v :| SealedText(aes, keys[0].key, nonce, p, len, tag, v);
      i := 0;
      assert keys[..0] == [];
    } else {
      var q := if mine then TryDecrypt(aes, keys[0].key, nonce, p, len, tag).p else p;
      i, v := SomeKeyOpens(aes, keys[1..], aid, nonce, q, len, tag);
      i := i + 1;
      assert keys[..i][1..] == keys[1..][..i - 1];
    }
  }

  lemma {:induction false} OpensFound(aes: Aes, keys: seq<AppKey>, aid: nat, nonce: seq<byte>, p: seq<byte>, len: nat, tag: seq<byte>,
                                      i: nat, v: seq<byte>)
    requires len <= |p| && (|tag| == 4 || |tag| == 8) && |nonce| == 13 && OpensAt(aes, keys, aid, nonce, p, len, tag, i, v)
    ensures var r := TryAppKeys(aes, keys, aid, nonce, p, len, tag); r.Some? && r.value[..len] == v
    decreases |keys|
  {
    hide TryDecrypt;
    if i == 0 {
      assert keys[..0] == [];
      DecryptsIff(aes, keys[0].key, nonce, p, len, tag);
    } else {
      var q := if keys[0].aid == aid then TryDecrypt(aes, keys[0].key, nonce, p, len, tag).p else p;
      assert keys[..i][1..] == keys[1..][..i - 1];
      OpensFound(aes, keys[1..], aid, nonce, q, len, tag, i - 1, v);
    }
  }

  /** A PDU is handed up as v if and only if it holds its MIC and is the sealing of v: under the device key, or under the
      first application key with the message's AID that opens it. Nothing that is not a sealing is ever handed up. */
  lemma HandedUpIffSealed(aes: Aes, appKeys: seq<AppKey>, devKey: Block, c: MsgCtx, p: seq<byte>, v: seq<byte>)
    ensures var mic := TransMicLen(c.seg && c.szmic);
            UpperReceive(aes, appKeys, devKey, c, p) == Some(v) <==>
              && mic <= |p|
              && var body := |p| - mic;
                 if c.akf then exists i: nat :: OpensAt(aes, appKeys, c.aid, AccessNonce(c), p[..body], body % 256, p[body..], i, v)
                 else SealedText(aes, devKey, AccessNonce(c), p[..body], body % 256, p[body..], v)
  {
    var mic := TransMicLen(c.seg && c.szmic);
    if mic <= |p| {
      var body, n := |p| - mic, AccessNonce(c);
      var len, tag := body % 256, p[body..];
      hide TryDecrypt, TryAppKeys, AccessNonce, SealedText;
      if c.akf {
        forall i: nat, w: seq<byte> | OpensAt(aes, appKeys, c.aid, n, p[..body], len, tag, i, w)
          ensures UpperReceive(aes, appKeys, devKey, c, p) == Some(w)
        {
          OpensFound(aes, appKeys, c.aid, n, p[..body], len, tag, i, w);
        }
        if TryAppKeys(aes, appKeys, c.aid, n, p[..body], len, tag).Some? {
          var i, w := SomeKeyOpens(aes, appKeys, c.aid, n, p[..body], len, tag);
          assert OpensAt(aes, appKeys, c.aid, n, p[..body], len, tag, i, w);
        }
      } else {
        DecryptsIff(aes, devKey, n, p[..body], len, tag);
        TextLength(aes, devKey, n, p[..body], len, tag);
      }
    }
  }

  lemma TextLength(aes: Aes, key: Block, nonce: seq<byte>, p: seq<byte>, len: nat, tag: seq<byte>)
    requires len <= |p| && (|tag| == 4 || |tag| == 8) && |nonce| == 13
    ensures forall v :: SealedText(aes, key, nonce, p, len, tag, v) ==> (v + p[len..])[..len] == v
  {
  }
}
