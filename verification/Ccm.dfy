// The CCM routine over caller buffers (thirdpart/mbedtls/aes_ccm.c), loop by loop,
// proved to compute the functions of CcmSpec. Input and output may be the same buffer.

module Ccm {
  import opened Bytes
  import opened CcmSpec

  method AesEncrypt(aes: Aes, key: Block, input: array<byte>, output: array<byte>)
    requires input.Length == 16 && output.Length == 16
    modifies output
    ensures output[..] == aes(key, old(input[..]))
  {
    var r := aes(key, input[..]);
    forall i | 0 <= i < 16 { output[i] := r[i]; }
  }

  /** UPDATE_CBC_MAC */
  method UpdateCbcMac(aes: Aes, key: Block, y: array<byte>, b: array<byte>)
    requires y.Length == 16 && b.Length == 16 && y != b
    modifies y
    ensures y[..] == MacStep(aes, key, old(y[..]), b[..])
  {
    var i := 0;
    while i < 16
      invariant 0 <= i <= 16
      invariant forall k :: 0 <= k < i ==> y[k] == Xor(old(y[k]), b[k])
      invariant forall k :: i <= k < 16 ==> y[k] == old(y[k])
    {
      y[i] := Xor(y[i], b[i]);
      i := i + 1;
    }
    assert y[..] == XorSeq(old(y[..]), b[..]);
    AesEncrypt(aes, key, y, y);
  }

  /** CTR_CRYPT; b is scratch. */
  method CtrCrypt(aes: Aes, key: Block, ctr: array<byte>, b: array<byte>,
                  dst: array<byte>, dstOff: nat, src: array<byte>, srcOff: nat, len: nat)
    requires ctr.Length == 16 && b.Length == 16 && len <= 16
    requires b != ctr && b != dst && b != src && dst != ctr
    requires dstOff + len <= dst.Length && srcOff + len <= src.Length
    requires dst == src ==> dstOff == srcOff
    modifies b, dst
    ensures dst[..] == Splice(old(dst[..]), dstOff, XorSeq(old(src[srcOff..srcOff + len]), aes(key, ctr[..])))
  {
    AesEncrypt(aes, key, ctr, b);
    ghost var ks := aes(key, ctr[..]);
    var i := 0;
    while i < len
      invariant 0 <= i <= len
      invariant b[..] == ks
      invariant forall k :: 0 <= k < i ==> dst[dstOff + k] == Xor(old(src[srcOff + k]), ks[k])
      invariant forall k :: srcOff + i <= k < srcOff + len ==> src[k] == old(src[k])
      invariant forall k :: 0 <= k < dst.Length && !(dstOff <= k < dstOff + i) ==> dst[k] == old(dst[k])
    {
      assert b[i] == b[..][i];
      dst[dstOff + i] := Xor(src[srcOff + i], b[i]);
      i := i + 1;
    }
    ghost var x := XorSeq(old(src[srcOff..srcOff + len]), ks);
    assert forall k :: 0 <= k < len ==> dst[dstOff + k] == x[k];
    assert dst[..] == Splice(old(dst[..]), dstOff, x);
  }

  /** memset(b, 0, 16); memcpy(b, src, len) */
  method LoadBlock(b: array<byte>, src: seq<byte>)
    requires b.Length == 16 && |src| <= 16
    modifies b
    ensures b[..] == src + Zeros(16 - |src|)
  {
    forall i | 0 <= i < 16 { b[i] := if i < |src| then src[i] else 0; }
  }

  // ---------- block formatting ----------

  /** Writes flags, nonce and length; false when the length does not fit the field. */
  method FormatFirstBlock(b: array<byte>, length: nat, iv: seq<byte>, hasAdd: bool, tagLen: nat) returns (fits: bool)
    requires b.Length == 16 && 7 <= |iv| <= 13 && 4 <= tagLen <= 16
    modifies b
    ensures fits <==> length < Pow256(15 - |iv|)
    ensures b[..] == FirstBlock(iv, hasAdd, tagLen, length)
  {
    b[0] := Flags(hasAdd, tagLen, 15 - |iv|);
    forall i | 0 <= i < |iv| { b[1 + i] := iv[i]; }
    ghost var head := [Flags(hasAdd, tagLen, 15 - |iv|)] + iv;
    assert b[..16 - (15 - |iv|)] == head;
    fits := WriteLength(b, length, 15 - |iv|, head);
  }

  /** The loop that peels the length off octet by octet, last octet first. */
  method WriteLength(b: array<byte>, length: nat, q: nat, ghost head: seq<byte>) returns (fits: bool)
    requires b.Length == 16 && q <= 15 && b[..16 - q] == head
    modifies b
    ensures fits <==> length < Pow256(q)
    ensures b[..] == head + BE(length, q)
  {
    hide BE, Pow256;
    var i: nat, lenLeft: nat := 0, length;
    assert b[16..] == [];
    while i < q
      invariant 0 <= i <= q
      invariant b[..16 - q] == head
      invariant BE(length, q) == BE(lenLeft, q - i) + b[16 - i..]
      invariant length < Pow256(q) <==> lenLeft < Pow256(q - i)
    {
      LengthOctet(lenLeft, q - i, b[16 - i..]);
      b[15 - i] := lenLeft % 256;
      assert b[15 - i..] == [lenLeft % 256] + b[16 - i..];
      lenLeft := lenLeft / 256;
      i := i + 1;
    }
    fits := lenLeft == 0;
    NoOctets(lenLeft);
    assert b[..] == b[..16 - q] + b[16 - q..];
  }

  lemma LengthOctet(v: nat, n: nat, tail: seq<byte>)
    requires n > 0
    ensures BE(v, n) + tail == BE(v / 256, n - 1) + ([v % 256] + tail)
    ensures v < Pow256(n) <==> v / 256 < Pow256(n - 1)
  {
  }

  lemma NoOctets(v: nat)
    ensures BE(v, 0) == [] && (v < Pow256(0) <==> v == 0)
  {
  }

  method FormatCounter(ctr: array<byte>, iv: seq<byte>)
    requires ctr.Length == 16 && 7 <= |iv| <= 13
    modifies ctr
    ensures ctr[..] == CounterBlock(iv, 1)
  {
    var q := 15 - |iv|;
    forall i | 0 <= i < 16 {
      ctr[i] := if i == 0 then q - 1 else if i <= |iv| then iv[i - 1] else 0;
    }
    ctr[15] := 1;
    BEsmall(1, q);
    assert ctr[..] == [q - 1] + iv + (Zeros(q - 1) + [1]);
  }

  lemma {:induction false} BEsmall(v: byte, n: nat)
    requires n > 0
    ensures BE(v, n) == Zeros(n - 1) + [v]
  {
    if n > 1 {
      BEsmall(0, n - 1);
      assert Zeros(n - 2) + [0] == Zeros(n - 1);
    }
  }

  /** The carry loop over the last q octets. */
  method IncrementCounter(ctr: array<byte>, q: nat, ghost head: seq<byte>, ghost v: nat)
    requires ctr.Length == 16 && 1 <= q <= 15 && |head| == 16 - q
    requires ctr[..] == head + BE(v, q)
    modifies ctr
    ensures ctr[..] == head + BE(v + 1, q)
  {
    hide BE;
    var i := 0;
    ghost var w := v;
    assert Zeros(0) == [];
    while i < q
      invariant 0 <= i <= q
      invariant ctr[..] == head + BE(w, q - i) + Zeros(i)
      invariant BE(v + 1, q) == BE(w + 1, q - i) + Zeros(i)
    {
      LastOctet(w, q - i);
      assert ctr[15 - i] == ctr[..][15 - i] == BE(w, q - i)[q - i - 1];
      var c: int := ctr[15 - i];
      ctr[15 - i] := (c + 1) % 256;
      assert ctr[..] == head + (BE(w / 256, q - i - 1) + [(w % 256 + 1) % 256]) + Zeros(i);
      if ctr[15 - i] != 0 { return; }
      CarriedOctet(BE(w / 256 + 1, q - i - 1), i);
      CarriedOctet(BE(w / 256, q - i - 1), i);
      w := w / 256;
      i := i + 1;
    }
    NoOctets(w);
    NoOctets(w + 1);
  }

  /** Adding one changes the last octet, or carries. */
  lemma LastOctet(w: nat, n: nat)
    requires n > 0
    ensures BE(w, n) == BE(w / 256, n - 1) + [w % 256] && BE(w, n)[n - 1] == w % 256
    ensures (w % 256 + 1) % 256 != 0 ==> BE(w + 1, n) == BE(w / 256, n - 1) + [(w % 256 + 1) % 256]
    ensures (w % 256 + 1) % 256 == 0 ==> BE(w + 1, n) == BE(w / 256 + 1, n - 1) + [0]
  {
    if (w % 256 + 1) % 256 != 0 {
      assert (w + 1) / 256 == w / 256 && (w + 1) % 256 == w % 256 + 1;
    } else {
      assert (w + 1) / 256 == w / 256 + 1 && (w + 1) % 256 == 0;
    }
  }

  lemma CarriedOctet(front: seq<byte>, i: nat)
    ensures front + [0] + Zeros(i) == front + Zeros(i + 1)
  {
    assert [0] + Zeros(i) == Zeros(i + 1);
  }

  // ---------- the three phases ----------

  lemma AbsorbSplit(aes: Aes, key: Block, y: Block, s: seq<byte>, n: nat)
    requires n == if |s| > 16 then 16 else |s|
    requires n > 0
    ensures CbcMac(aes, key, y, Pad16(s)) == CbcMac(aes, key, MacStep(aes, key, y, s[..n] + Zeros(16 - n)), Pad16(s[n..]))
  {
    PadSplit(s, n);
    hide Pad16, MacStep;
  }

  lemma PadSplit(s: seq<byte>, n: nat)
    requires n == (if |s| > 16 then 16 else |s|) && n > 0
    ensures |Pad16(s)| >= 16 && Pad16(s)[..16] == s[..n] + Zeros(16 - n) && Pad16(s)[16..] == Pad16(s[n..])
  {
    PadLength(|s|, n);
  }

  lemma PadLength(len: nat, n: nat)
    requires n == (if len > 16 then 16 else len) && n > 0
    ensures (len - n) % 16 == len % 16 || n == len
    ensures n == len ==> (16 - len % 16) % 16 == 16 - n
  {
  }

  lemma {:induction false} CbcMacAppend(aes: Aes, key: Block, y: Block, s: seq<byte>, t: seq<byte>)
    requires |s| % 16 == 0 && |t| % 16 == 0
    ensures CbcMac(aes, key, y, s + t) == CbcMac(aes, key, CbcMac(aes, key, y, s), t)
    decreases |s|
  {
    if s == [] {
      assert s + t == t;
    } else {
      CbcMacAppend(aes, key, MacStep(aes, key, y, s[..16]), s[16..], t);
      assert (s + t)[..16] == s[..16] && (s + t)[16..] == s[16..] + t;
    }
  }

  /** First block and associated data. */
  method AuthenticateHeader(aes: Aes, key: Block, y: array<byte>, b: array<byte>, add: seq<byte>)
    requires y.Length == 16 && b.Length == 16 && y != b && |add| <= 0xFF00
    modifies y, b
    ensures y[..] == CbcMac(aes, key, ZERO_BLOCK, old(b[..]) + AddBlocks(add))
  {
    forall i | 0 <= i < 16 { y[i] := 0; }
    assert y[..] == ZERO_BLOCK;
    ghost var b0: Block := old(b[..]);
    assert b[..] == b0;
    HeaderStep(aes, key, b0, AddBlocks(add));
    UpdateCbcMac(aes, key, y, b);
    assert y[..] == MacStep(aes, key, ZERO_BLOCK, b0);
    if |add| > 0 {
      AbsorbAdd(aes, key, y, b, add);
    } else {
      assert add == [];
    }
  }

  method AbsorbAdd(aes: Aes, key: Block, y: array<byte>, b: array<byte>, add: seq<byte>)
    requires y.Length == 16 && b.Length == 16 && y != b && 0 < |add| <= 0xFF00
    modifies y, b
    ensures y[..] == CbcMac(aes, key, old(y[..]), AddBlocks(add))
  {
    var useLen := if |add| < 14 then |add| else 14;
    ghost var whole := BE(|add|, 2) + add;
    BEtwo(|add|);
    AbsorbSplit(aes, key, y[..], whole, useLen + 2);
    LoadBlock(b, [|add| / 256, |add| % 256] + add[..useLen]);
    assert whole[..useLen + 2] == [|add| / 256, |add| % 256] + add[..useLen];
    assert whole[useLen + 2..] == add[useLen..];
    UpdateCbcMac(aes, key, y, b);
    AbsorbRest(aes, key, y, b, add, useLen);
  }

  lemma BEtwo(v: nat)
    requires v < 65536
    ensures BE(v, 2) == [v / 256, v % 256]
  {
    assert BE(v, 2) == BE(v / 256, 1) + [v % 256];
    assert BE(v / 256, 1) == BE(v / 256 / 256, 0) + [v / 256 % 256];
  }

  lemma HeaderStep(aes: Aes, key: Block, b0: Block, rest: seq<byte>)
    requires |rest| % 16 == 0
    ensures CbcMac(aes, key, ZERO_BLOCK, b0 + rest) == CbcMac(aes, key, MacStep(aes, key, ZERO_BLOCK, b0), rest)
  {
    assert (b0 + rest)[..16] == b0 && (b0 + rest)[16..] == rest;
  }

  /** The while loop over associated data left after its first block. */
  method AbsorbRest(aes: Aes, key: Block, y: array<byte>, b: array<byte>, add: seq<byte>, start: nat)
    requires y.Length == 16 && b.Length == 16 && y != b && start <= |add|
    modifies y, b
    ensures y[..] == CbcMac(aes, key, old(y[..]), Pad16(add[start..]))
  {
    var src := start;
    while src < |add|
      invariant start <= src <= |add|
      invariant CbcMac(aes, key, old(y[..]), Pad16(add[start..])) == CbcMac(aes, key, y[..], Pad16(add[src..]))
      decreases |add| - src
    {
      var useLen := if |add| - src > 16 then 16 else |add| - src;
      AbsorbSplit(aes, key, y[..], add[src..], useLen);
      LoadBlock(b, add[src..src + useLen]);
      assert add[src..][..useLen] == add[src..src + useLen];
      assert add[src..][useLen..] == add[src + useLen..];
      UpdateCbcMac(aes, key, y, b);
      src := src + useLen;
    }
    assert Pad16(add[src..]) == [];
  }

  lemma CryptSplit(aes: Aes, key: Block, nonce: seq<byte>, i: nat, s: seq<byte>, n: nat)
    requires 7 <= |nonce| <= 13
    requires n == if |s| > 16 then 16 else |s|
    ensures CtrFrom(aes, key, nonce, i, s)
            == XorSeq(s[..n], aes(key, CounterBlock(nonce, i))) + CtrFrom(aes, key, nonce, i + 1, s[n..])
  {
    if |s| <= 16 {
      assert s[..n] == s && s[n..] == [];
      assert CtrFrom(aes, key, nonce, i + 1, []) == [];
    }
  }

  /** The plaintext seen by the MAC: the input when encrypting, the output when decrypting. */
  ghost function Plain(aes: Aes, key: Block, nonce: seq<byte>, decrypt: bool, i: nat, s: seq<byte>): (r: seq<byte>)
    requires 7 <= |nonce| <= 13
    ensures |r| == |s|
  {
    if decrypt then CtrFrom(aes, key, nonce, i, s) else s
  }

  lemma PlainSplit(aes: Aes, key: Block, nonce: seq<byte>, decrypt: bool, i: nat, s: seq<byte>, n: nat)
    requires 7 <= |nonce| <= 13
    requires n == if |s| > 16 then 16 else |s|
    ensures Plain(aes, key, nonce, decrypt, i, s)[..n]
            == if decrypt then XorSeq(s[..n], aes(key, CounterBlock(nonce, i))) else s[..n]
    ensures Plain(aes, key, nonce, decrypt, i, s)[n..] == Plain(aes, key, nonce, decrypt, i + 1, s[n..])
  {
    CryptSplit(aes, key, nonce, i, s, n);
  }

  /** One turn of the payload loop: MAC before masking when encrypting, after it when decrypting. */
  method CryptBlock(aes: Aes, key: Block, decrypt: bool, y: array<byte>, b: array<byte>, ctr: array<byte>,
                    input: array<byte>, src: nat, output: array<byte>, dst: nat, useLen: nat)
    requires y.Length == 16 && b.Length == 16 && ctr.Length == 16 && useLen <= 16
    requires y != b && b != ctr && y != ctr && input != y && input != b && input != ctr && output != y && output != b && output != ctr
    requires src + useLen <= input.Length && dst + useLen <= output.Length && (input == output ==> src == dst)
    modifies y, b, output
    ensures var masked := XorSeq(old(input[src..src + useLen]), aes(key, ctr[..]));
            && output[..] == Splice(old(output[..]), dst, masked)
            && y[..] == MacStep(aes, key, old(y[..]),
                                (if decrypt then masked else old(input[src..src + useLen])) + Zeros(16 - useLen))
  {
    if !decrypt {
      LoadBlock(b, input[src..src + useLen]);
      UpdateCbcMac(aes, key, y, b);
    }
    CtrCrypt(aes, key, ctr, b, output, dst, input, src, useLen);
    if decrypt {
      LoadBlock(b, output[dst..dst + useLen]);
      UpdateCbcMac(aes, key, y, b);
    }
  }

  /** What the payload loop has left to do: i is the next counter, rest the text still to process,
      and finishing from here yields the masked text `cipher` and the MAC value `mac`. */
  ghost predicate Owes(aes: Aes, key: Block, nonce: seq<byte>, decrypt: bool, y: seq<byte>, i: nat, rest: seq<byte>,
                       cipher: seq<byte>, mac: Block)
  {
    && 7 <= |nonce| <= 13 && |y| == 16
    && CtrFrom(aes, key, nonce, i, rest) == cipher
    && CbcMac(aes, key, y, Pad16(Plain(aes, key, nonce, decrypt, i, rest))) == mac
  }

  /** One turn of the payload loop and the counter step that ends it. */
  method PayloadStep(aes: Aes, key: Block, decrypt: bool, y: array<byte>, b: array<byte>, ctr: array<byte>,
                     input: array<byte>, src: nat, output: array<byte>, dst: nat, useLen: nat, nonce: seq<byte>,
                     ghost i: nat, ghost rest: seq<byte>, ghost cipher: seq<byte>, ghost mac: Block)
    requires y.Length == 16 && b.Length == 16 && ctr.Length == 16 && 7 <= |nonce| <= 13
    requires y != b && b != ctr && y != ctr
    requires input != y && input != b && input != ctr && output != y && output != b && output != ctr
    requires src + |rest| <= input.Length && dst + |rest| <= output.Length && (input == output ==> src == dst)
    requires input[src..src + |rest|] == rest && useLen == (if |rest| > 16 then 16 else |rest|) && useLen > 0
    requires ctr[..] == CounterBlock(nonce, i)
    requires Owes(aes, key, nonce, decrypt, y[..], i, rest, cipher, mac)
    modifies y, b, ctr, output
    ensures |cipher| == |rest| && output[..] == Splice(old(output[..]), dst, cipher[..useLen])
    ensures ctr[..] == CounterBlock(nonce, i + 1)
    ensures input[src + useLen..src + |rest|] == rest[useLen..]
    ensures Owes(aes, key, nonce, decrypt, y[..], i + 1, rest[useLen..], cipher[useLen..], mac)
  {
    hide CtrFrom, Pad16, CbcMac, Plain, BE;
    assert input[src..src + useLen] == rest[..useLen];
    assert input[src + useLen..src + |rest|] == rest[useLen..];
    PayloadTurn(aes, key, nonce, decrypt, i, rest, useLen, y[..]);
    CryptBlock(aes, key, decrypt, y, b, ctr, input, src, output, dst, useLen);
    IncrementCounter(ctr, 15 - |nonce|, [14 - |nonce|] + nonce, i);
  }

  /** PayloadStep, with the output described from the start of the message. */
  method PayloadAdvance(aes: Aes, key: Block, decrypt: bool, y: array<byte>, b: array<byte>, ctr: array<byte>,
                        input: array<byte>, inOff: nat, output: array<byte>, outOff: nat, length: nat, done: nat,
                        nonce: seq<byte>, ghost out0: seq<byte>, ghost i: nat, ghost rest: seq<byte>,
                        ghost whole: seq<byte>, ghost mac: Block) returns (useLen: nat)
    requires y.Length == 16 && b.Length == 16 && ctr.Length == 16 && 7 <= |nonce| <= 13
    requires y != b && b != ctr && y != ctr
    requires input != y && input != b && input != ctr && output != y && output != b && output != ctr
    requires inOff + length <= input.Length && outOff + length <= output.Length && (input == output ==> inOff == outOff)
    requires done < length == |whole| && |rest| == length - done && |out0| == output.Length
    requires input[inOff + done..inOff + length] == rest
    requires output[..] == Splice(out0, outOff, whole[..done])
    requires ctr[..] == CounterBlock(nonce, i)
    requires Owes(aes, key, nonce, decrypt, y[..], i, rest, whole[done..], mac)
    modifies y, b, ctr, output
    ensures 0 < useLen <= |rest| && (useLen == 16 || useLen == |rest|)
    ensures output[..] == Splice(out0, outOff, whole[..done + useLen])
    ensures ctr[..] == CounterBlock(nonce, i + 1)
    ensures input[inOff + done + useLen..inOff + length] == rest[useLen..]
    ensures Owes(aes, key, nonce, decrypt, y[..], i + 1, rest[useLen..], whole[done + useLen..], mac)
  {
    hide CtrFrom, Pad16, CounterBlock;
    useLen := if length - done > 16 then 16 else length - done;
    SpliceAppend(out0, outOff, whole, done, useLen);
    PayloadStep(aes, key, decrypt, y, b, ctr, input, inOff + done, output, outOff + done, useLen, nonce,
                i, rest, whole[done..], mac);
  }

  /** The payload loop. */
  method CryptPayload(aes: Aes, key: Block, decrypt: bool, y: array<byte>, b: array<byte>, ctr: array<byte>,
                      input: array<byte>, inOff: nat, output: array<byte>, outOff: nat, length: nat, nonce: seq<byte>)
    requires y.Length == 16 && b.Length == 16 && ctr.Length == 16 && 7 <= |nonce| <= 13
    requires y != b && b != ctr && y != ctr
    requires input != y && input != b && input != ctr && output != y && output != b && output != ctr
    requires inOff + length <= input.Length && outOff + length <= output.Length && (input == output ==> inOff == outOff)
    requires ctr[..] == CounterBlock(nonce, 1)
    modifies y, b, ctr, output
    ensures var text := old(input[inOff..inOff + length]);
            && output[..] == Splice(old(output[..]), outOff, CtrFrom(aes, key, nonce, 1, text))
            && y[..] == CbcMac(aes, key, old(y[..]), Pad16(Plain(aes, key, nonce, decrypt, 1, text)))
    ensures ctr[..1 + |nonce|] == [14 - |nonce|] + nonce
  {
    hide CtrFrom, CbcMac, Pad16, Plain, Owes, Splice;
    ghost var rest, out0 := input[inOff..inOff + length], output[..];
    ghost var whole := CtrFrom(aes, key, nonce, 1, rest);
    ghost var mac := CbcMac(aes, key, y[..], Pad16(Plain(aes, key, nonce, decrypt, 1, rest)));
    ghost var i := 1;
    var done := 0;
    assert whole[..done] == [] && whole[done..] == whole;
    NothingDone(aes, key, nonce, decrypt, y[..], i, rest, out0, outOff);
    while done < length
      invariant 0 <= done <= length && |rest| == length - done
      invariant ctr[..] == CounterBlock(nonce, i)
      invariant output[..] == Splice(out0, outOff, whole[..done])
      invariant input[inOff + done..inOff + length] == rest
      invariant Owes(aes, key, nonce, decrypt, y[..], i, rest, whole[done..], mac)
    {
      var useLen := PayloadAdvance(aes, key, decrypt, y, b, ctr, input, inOff, output, outOff, length, done, nonce,
                                   out0, i, rest, whole, mac);
      rest := rest[useLen..];
      done := done + useLen;
      i := i + 1;
    }
    assert whole[..done] == whole;
    NothingOwed(aes, key, nonce, decrypt, y[..], i, rest, whole[done..], mac);
  }

  lemma NothingDone(aes: Aes, key: Block, nonce: seq<byte>, decrypt: bool, y: Block, i: nat, rest: seq<byte>,
                    out0: seq<byte>, outOff: nat)
    requires 7 <= |nonce| <= 13 && outOff <= |out0|
    ensures Splice(out0, outOff, []) == out0
    ensures Owes(aes, key, nonce, decrypt, y, i, rest, CtrFrom(aes, key, nonce, i, rest),
                 CbcMac(aes, key, y, Pad16(Plain(aes, key, nonce, decrypt, i, rest))))
  {
  }

  lemma NothingOwed(aes: Aes, key: Block, nonce: seq<byte>, decrypt: bool, y: Block, i: nat, rest: seq<byte>,
                    cipher: seq<byte>, mac: Block)
    requires Owes(aes, key, nonce, decrypt, y, i, rest, cipher, mac) && rest == []
    ensures y == mac
  {
    assert Pad16(Plain(aes, key, nonce, decrypt, i, rest)) == [];
  }

  lemma PayloadTurn(aes: Aes, key: Block, nonce: seq<byte>, decrypt: bool, i: nat, s: seq<byte>, n: nat, y: Block)
    requires 7 <= |nonce| <= 13
    requires n == (if |s| > 16 then 16 else |s|) && n > 0
    ensures var masked := XorSeq(s[..n], aes(key, CounterBlock(nonce, i)));
            && CtrFrom(aes, key, nonce, i, s) == masked + CtrFrom(aes, key, nonce, i + 1, s[n..])
            && CbcMac(aes, key, y, Pad16(Plain(aes, key, nonce, decrypt, i, s)))
               == CbcMac(aes, key, MacStep(aes, key, y, (if decrypt then masked else s[..n]) + Zeros(16 - n)),
                         Pad16(Plain(aes, key, nonce, decrypt, i + 1, s[n..])))
  {
    CryptSplit(aes, key, nonce, i, s, n);
    PlainSplit(aes, key, nonce, decrypt, i, s, n);
    AbsorbSplit(aes, key, y, Plain(aes, key, nonce, decrypt, i, s), n);
  }

  lemma SpliceAppend(buf: seq<byte>, off: nat, s: seq<byte>, done: nat, n: nat)
    requires done + n <= |s| && off + |s| <= |buf|
    ensures Splice(Splice(buf, off, s[..done]), off + done, s[done..][..n]) == Splice(buf, off, s[..done + n])
    ensures s[done..][n..] == s[done + n..]
  {
  }

  // ---------- entry points ----------

  /** Resets the counter field and masks the MAC with key stream block 0. */
  method MaskTag(aes: Aes, key: Block, y: array<byte>, b: array<byte>, ctr: array<byte>, nonce: seq<byte>)
    requires y.Length == 16 && b.Length == 16 && ctr.Length == 16 && 7 <= |nonce| <= 13
    requires y != b && b != ctr && y != ctr
    requires ctr[..1 + |nonce|] == [14 - |nonce|] + nonce
    modifies y, b, ctr
    ensures y[..] == XorSeq(old(y[..]), aes(key, CounterBlock(nonce, 0)))
  {
    var q := 15 - |nonce|;
    var i := 0;
    while i < q
      invariant 0 <= i <= q
      invariant ctr[..1 + |nonce|] == [14 - |nonce|] + nonce
      invariant ctr[16 - i..] == Zeros(i)
      invariant y[..] == old(y[..])
    {
      ctr[15 - i] := 0;
      assert ctr[15 - i..] == [0] + ctr[16 - i..];
      assert [0] + Zeros(i) == Zeros(i + 1);
      i := i + 1;
    }
    BEsmall(0, q);
    assert Zeros(q) == Zeros(q - 1) + [0];
    assert ctr[..] == ctr[..1 + |nonce|] + ctr[1 + |nonce|..];
    assert ctr[..] == CounterBlock(nonce, 0);
    CtrCrypt(aes, key, ctr, b, y, 0, y, 0, 16);
    assert y[..] == XorSeq(old(y[..]), aes(key, CounterBlock(nonce, 0)));
  }

  lemma MacAssembled(aes: Aes, key: Block, nonce: seq<byte>, add: seq<byte>, tagLen: nat, m: seq<byte>)
    requires 4 <= tagLen <= 16 && 7 <= |nonce| <= 13
    ensures CbcMac(aes, key, CbcMac(aes, key, ZERO_BLOCK, FirstBlock(nonce, |add| > 0, tagLen, |m|) + AddBlocks(add)), Pad16(m))
            == CbcMac(aes, key, ZERO_BLOCK, MacInput(nonce, add, tagLen, m))
  {
    CbcMacThree(aes, key, ZERO_BLOCK, FirstBlock(nonce, |add| > 0, tagLen, |m|), AddBlocks(add), Pad16(m));
  }

  lemma CbcMacThree(aes: Aes, key: Block, y: Block, h: Block, a: seq<byte>, p: seq<byte>)
    requires |a| % 16 == 0 && |p| % 16 == 0
    ensures CbcMac(aes, key, CbcMac(aes, key, y, h + a), p) == CbcMac(aes, key, y, h + (a + p))
  {
    CbcMacAppend(aes, key, y, h + a, p);
    assert h + a + p == h + (a + p);
  }

  method CopyTag(y: array<byte>, tag: array<byte>, tagOff: nat, tagLen: nat)
    requires y != tag && tagLen <= y.Length && tagOff + tagLen <= tag.Length
    modifies tag
    ensures tag[..] == Splice(old(tag[..]), tagOff, y[..tagLen])
  {
    forall i | 0 <= i < tagLen { tag[tagOff + i] := y[i]; }
  }

  /** Masks the payload and leaves the masked MAC in y. */
  method CryptAndMac(aes: Aes, key: Block, decrypt: bool, length: nat, iv: seq<byte>, add: seq<byte>,
                     input: array<byte>, inOff: nat, output: array<byte>, outOff: nat, tagLen: nat,
                     b: array<byte>) returns (y: array<byte>)
    requires Admissible(|iv|, |add|, tagLen, length)
    requires b.Length == 16 && b[..] == FirstBlock(iv, |add| > 0, tagLen, length)
    requires b != input && b != output
    requires inOff + length <= input.Length && outOff + length <= output.Length && (input == output ==> inOff == outOff)
    modifies b, output
    ensures fresh(y) && y.Length == 16
    ensures var text := old(input[inOff..inOff + length]);
            var plain := Plain(aes, key, iv, decrypt, 1, text);
            && output[..] == Splice(old(output[..]), outOff, CtrFrom(aes, key, iv, 1, text))
            && y[..tagLen] == Tag(aes, key, iv, add, tagLen, plain)
  {
    hide CtrFrom, Pad16, FirstBlock, Splice, Plain, AddBlocks, CounterBlock;
    y := new byte[16];
    var ctr := new byte[16];
    ghost var text := input[inOff..inOff + length];
    AuthenticateHeader(aes, key, y, b, add);
    FormatCounter(ctr, iv);
    CryptPayload(aes, key, decrypt, y, b, ctr, input, inOff, output, outOff, length, iv);
    MacAssembled(aes, key, iv, add, tagLen, Plain(aes, key, iv, decrypt, 1, text));
    MaskTag(aes, key, y, b, ctr, iv);
  }

  /** ccm_auth_crypt: -1 with nothing written, or 0 with text and tag in the caller's buffers. */
  method AuthCrypt(aes: Aes, key: Block, decrypt: bool, length: nat, iv: seq<byte>, add: seq<byte>,
                   input: array<byte>, inOff: nat, output: array<byte>, outOff: nat,
                   tag: array<byte>, tagOff: nat, tagLen: nat) returns (ret: int)
    requires inOff + length <= input.Length && outOff + length <= output.Length && (input == output ==> inOff == outOff)
    requires tagLen <= 16 ==> tagOff + tagLen <= tag.Length
    modifies output, tag
    ensures ret == (if Admissible(|iv|, |add|, tagLen, length) then 0 else -1)
    ensures ret != 0 ==> output[..] == old(output[..]) && tag[..] == old(tag[..])
    ensures ret == 0 ==>
              var text := old(input[inOff..inOff + length]);
              var out := Splice(old(output[..]), outOff, CtrFrom(aes, key, iv, 1, text));
              && (tag != output ==> output[..] == out)
              && tag[..] == Splice(if tag == output then out else old(tag[..]), tagOff,
                                   Tag(aes, key, iv, add, tagLen, Plain(aes, key, iv, decrypt, 1, text)))
  {
    if tagLen < 4 || tagLen > 16 || tagLen % 2 != 0 { return -1; }
    if |iv| < 7 || |iv| > 13 { return -1; }
    if |add| > 0xFF00 { return -1; }
    var b := new byte[16];
    var fits := FormatFirstBlock(b, length, iv, |add| > 0, tagLen);
    if !fits { return -1; }
    var y := CryptAndMac(aes, key, decrypt, length, iv, add, input, inOff, output, outOff, tagLen, b);
    CopyTag(y, tag, tagOff, tagLen);
    ret := 0;
  }

  /** mbedtls_ccm_encrypt_and_tag */
  method EncryptAndTag(aes: Aes, key: Block, length: nat, iv: seq<byte>, add: seq<byte>,
                       input: array<byte>, inOff: nat, output: array<byte>, outOff: nat,
                       tag: array<byte>, tagOff: nat, tagLen: nat) returns (ret: int)
    requires inOff + length <= input.Length && outOff + length <= output.Length && (input == output ==> inOff == outOff)
    requires tagLen <= 16 ==> tagOff + tagLen <= tag.Length
    modifies output, tag
    ensures ret == (if Admissible(|iv|, |add|, tagLen, length) then 0 else -1)
    ensures ret != 0 ==> output[..] == old(output[..]) && tag[..] == old(tag[..])
    ensures ret == 0 ==>
              var c := Encrypt(aes, key, iv, add, tagLen, old(input[inOff..inOff + length]));
              var out := Splice(old(output[..]), outOff, c.text);
              && (tag != output ==> output[..] == out)
              && tag[..] == Splice(if tag == output then out else old(tag[..]), tagOff, c.tag)
  {
    ret := AuthCrypt(aes, key, false, length, iv, add, input, inOff, output, outOff, tag, tagOff, tagLen);
  }

  /** mbedtls_ccm_auth_decrypt: 0 exactly when the specification decrypts. The masked text is left in
      the output even when the tag is wrong. */
  method AuthDecrypt(aes: Aes, key: Block, length: nat, iv: seq<byte>, add: seq<byte>,
                     input: array<byte>, inOff: nat, output: array<byte>, outOff: nat,
                     tag: array<byte>, tagOff: nat, tagLen: nat) returns (ret: int)
    requires inOff + length <= input.Length && outOff + length <= output.Length && (input == output ==> inOff == outOff)
    requires tagLen <= 16 ==> tagOff + tagLen <= tag.Length
    requires tag == output ==> tagOff >= outOff + length
    modifies output
    ensures ret == 0 <==> Admissible(|iv|, |add|, tagLen, length)
                          && Decrypt(aes, key, iv, add, Sealed(old(input[inOff..inOff + length]),
                                                               old(tag[tagOff..tagOff + tagLen]))).Some?
    ensures output[..] == if Admissible(|iv|, |add|, tagLen, length)
                          then Splice(old(output[..]), outOff, CtrFrom(aes, key, iv, 1, old(input[inOff..inOff + length])))
                          else old(output[..])
  {
    hide Tag, CtrFrom;
    var checkTag := new byte[16];
    ret := AuthCrypt(aes, key, true, length, iv, add, input, inOff, output, outOff, checkTag, 0, tagLen);
    if ret != 0 { return; }
    assert tag[tagOff..tagOff + tagLen] == old(tag[tagOff..tagOff + tagLen]);
    var same := SameTag(tag, tagOff, checkTag, tagLen);
    if !same { ret := -1; }
  }

  /** The constant-time comparison loop. */
  method SameTag(tag: array<byte>, tagOff: nat, checkTag: array<byte>, tagLen: nat) returns (same: bool)
    requires tagOff + tagLen <= tag.Length && tagLen <= checkTag.Length
    ensures same <==> tag[tagOff..tagOff + tagLen] == checkTag[..tagLen]
  {
    var diff, i := 0, 0;
    while i < tagLen
      invariant 0 <= i <= tagLen
      invariant 0 <= diff < 256
      invariant diff == 0 <==> forall k :: 0 <= k < i ==> tag[tagOff..tagOff + tagLen][k] == checkTag[k]
    {
      XorZeroIffEqual(tag[tagOff + i], checkTag[i]);
      diff := Or(diff, Xor(tag[tagOff + i], checkTag[i]));
      i := i + 1;
    }
    same := diff == 0;
  }
}
