// The 3GPP check octet of PB-ADV transactions (common/meshx_3gpp_crc.c): the table loop, the bitwise reflected
// CRC-8 of 3GPP TS 27.010 section 5.2.1.6 it stands for, and what the check detects.

module Crc {

  const POLY: bv8 := 0xE0

  // ---------- the bitwise definition ----------

  /** One division step, least significant bit first. */
  function Shift(x: bv8): bv8 { if x & 1 == 1 then (x >> 1) ^ POLY else x >> 1 }

  function Division(x: bv8): bv8 { Shift(Shift(Shift(Shift(Shift(Shift(Shift(Shift(x)))))))) }

  function Run(fcs: bv8, s: seq<bv8>): bv8
    decreases |s|
  {
    if s == [] then fcs else Run(Division(fcs ^ s[0]), s[1..])
  }

  /** The check octet. */
  function Fcs(s: seq<bv8>): bv8 { 0xFF - Run(0xFF, s) }

  // ---------- the table ----------

  // crc8_table as a function of its index, sixteen entries a row.

  function Row0(k: bv8): bv8 {
    if k == 0 then 0x00 else if k == 1 then 0x91 else if k == 2 then 0xE3 else if k == 3 then 0x72 else if k == 4 then 0x07 else
    if k == 5 then 0x96 else if k == 6 then 0xE4 else if k == 7 then 0x75 else if k == 8 then 0x0E else if k == 9 then 0x9F else
    if k == 10 then 0xED else if k == 11 then 0x7C else if k == 12 then 0x09 else if k == 13 then 0x98 else if k == 14 then 0xEA else
    0x7B
  }

  function Row1(k: bv8): bv8 {
    if k == 0 then 0x1C else if k == 1 then 0x8D else if k == 2 then 0xFF else if k == 3 then 0x6E else if k == 4 then 0x1B else
    if k == 5 then 0x8A else if k == 6 then 0xF8 else if k == 7 then 0x69 else if k == 8 then 0x12 else if k == 9 then 0x83 else
    if k == 10 then 0xF1 else if k == 11 then 0x60 else if k == 12 then 0x15 else if k == 13 then 0x84 else if k == 14 then 0xF6 else
    0x67
  }

  function Row2(k: bv8): bv8 {
    if k == 0 then 0x38 else if k == 1 then 0xA9 else if k == 2 then 0xDB else if k == 3 then 0x4A else if k == 4 then 0x3F else
    if k == 5 then 0xAE else if k == 6 then 0xDC else if k == 7 then 0x4D else if k == 8 then 0x36 else if k == 9 then 0xA7 else
    if k == 10 then 0xD5 else if k == 11 then 0x44 else if k == 12 then 0x31 else if k == 13 then 0xA0 else if k == 14 then 0xD2 else
    0x43
  }

  function Row3(k: bv8): bv8 {
    if k == 0 then 0x24 else if k == 1 then 0xB5 else if k == 2 then 0xC7 else if k == 3 then 0x56 else if k == 4 then 0x23 else
    if k == 5 then 0xB2 else if k == 6 then 0xC0 else if k == 7 then 0x51 else if k == 8 then 0x2A else if k == 9 then 0xBB else
    if k == 10 then 0xC9 else if k == 11 then 0x58 else if k == 12 then 0x2D else if k == 13 then 0xBC else if k == 14 then 0xCE else
    0x5F
  }

  function Row4(k: bv8): bv8 {
    if k == 0 then 0x70 else if k == 1 then 0xE1 else if k == 2 then 0x93 else if k == 3 then 0x02 else if k == 4 then 0x77 else
    if k == 5 then 0xE6 else if k == 6 then 0x94 else if k == 7 then 0x05 else if k == 8 then 0x7E else if k == 9 then 0xEF else
    if k == 10 then 0x9D else if k == 11 then 0x0C else if k == 12 then 0x79 else if k == 13 then 0xE8 else if k == 14 then 0x9A else
    0x0B
  }

  function Row5(k: bv8): bv8 {
    if k == 0 then 0x6C else if k == 1 then 0xFD else if k == 2 then 0x8F else if k == 3 then 0x1E else if k == 4 then 0x6B else
    if k == 5 then 0xFA else if k == 6 then 0x88 else if k == 7 then 0x19 else if k == 8 then 0x62 else if k == 9 then 0xF3 else
    if k == 10 then 0x81 else if k == 11 then 0x10 else if k == 12 then 0x65 else if k == 13 then 0xF4 else if k == 14 then 0x86 else
    0x17
  }

  function Row6(k: bv8): bv8 {
    if k == 0 then 0x48 else if k == 1 then 0xD9 else if k == 2 then 0xAB else if k == 3 then 0x3A else if k == 4 then 0x4F else
    if k == 5 then 0xDE else if k == 6 then 0xAC else if k == 7 then 0x3D else if k == 8 then 0x46 else if k == 9 then 0xD7 else
    if k == 10 then 0xA5 else if k == 11 then 0x34 else if k == 12 then 0x41 else if k == 13 then 0xD0 else if k == 14 then 0xA2 else
    0x33
  }

  function Row7(k: bv8): bv8 {
    if k == 0 then 0x54 else if k == 1 then 0xC5 else if k == 2 then 0xB7 else if k == 3 then 0x26 else if k == 4 then 0x53 else
    if k == 5 then 0xC2 else if k == 6 then 0xB0 else if k == 7 then 0x21 else if k == 8 then 0x5A else if k == 9 then 0xCB else
    if k == 10 then 0xB9 else if k == 11 then 0x28 else if k == 12 then 0x5D else if k == 13 then 0xCC else if k == 14 then 0xBE else
    0x2F
  }

  function Row8(k: bv8): bv8 {
    if k == 0 then 0xE0 else if k == 1 then 0x71 else if k == 2 then 0x03 else if k == 3 then 0x92 else if k == 4 then 0xE7 else
    if k == 5 then 0x76 else if k == 6 then 0x04 else if k == 7 then 0x95 else if k == 8 then 0xEE else if k == 9 then 0x7F else
    if k == 10 then 0x0D else if k == 11 then 0x9C else if k == 12 then 0xE9 else if k == 13 then 0x78 else if k == 14 then 0x0A else
    0x9B
  }

  function Row9(k: bv8): bv8 {
    if k == 0 then 0xFC else if k == 1 then 0x6D else if k == 2 then 0x1F else if k == 3 then 0x8E else if k == 4 then 0xFB else
    if k == 5 then 0x6A else if k == 6 then 0x18 else if k == 7 then 0x89 else if k == 8 then 0xF2 else if k == 9 then 0x63 else
    if k == 10 then 0x11 else if k == 11 then 0x80 else if k == 12 then 0xF5 else if k == 13 then 0x64 else if k == 14 then 0x16 else
    0x87
  }

  function RowA(k: bv8): bv8 {
    if k == 0 then 0xD8 else if k == 1 then 0x49 else if k == 2 then 0x3B else if k == 3 then 0xAA else if k == 4 then 0xDF else
    if k == 5 then 0x4E else if k == 6 then 0x3C else if k == 7 then 0xAD else if k == 8 then 0xD6 else if k == 9 then 0x47 else
    if k == 10 then 0x35 else if k == 11 then 0xA4 else if k == 12 then 0xD1 else if k == 13 then 0x40 else if k == 14 then 0x32 else
    0xA3
  }

  function RowB(k: bv8): bv8 {
    if k == 0 then 0xC4 else if k == 1 then 0x55 else if k == 2 then 0x27 else if k == 3 then 0xB6 else if k == 4 then 0xC3 else
    if k == 5 then 0x52 else if k == 6 then 0x20 else if k == 7 then 0xB1 else if k == 8 then 0xCA else if k == 9 then 0x5B else
    if k == 10 then 0x29 else if k == 11 then 0xB8 else if k == 12 then 0xCD else if k == 13 then 0x5C else if k == 14 then 0x2E else
    0xBF
  }

  function RowC(k: bv8): bv8 {
    if k == 0 then 0x90 else if k == 1 then 0x01 else if k == 2 then 0x73 else if k == 3 then 0xE2 else if k == 4 then 0x97 else
    if k == 5 then 0x06 else if k == 6 then 0x74 else if k == 7 then 0xE5 else if k == 8 then 0x9E else if k == 9 then 0x0F else
    if k == 10 then 0x7D else if k == 11 then 0xEC else if k == 12 then 0x99 else if k == 13 then 0x08 else if k == 14 then 0x7A else
    0xEB
  }

  function RowD(k: bv8): bv8 {
    if k == 0 then 0x8C else if k == 1 then 0x1D else if k == 2 then 0x6F else if k == 3 then 0xFE else if k == 4 then 0x8B else
    if k == 5 then 0x1A else if k == 6 then 0x68 else if k == 7 then 0xF9 else if k == 8 then 0x82 else if k == 9 then 0x13 else
    if k == 10 then 0x61 else if k == 11 then 0xF0 else if k == 12 then 0x85 else if k == 13 then 0x14 else if k == 14 then 0x66 else
    0xF7
  }

  function RowE(k: bv8): bv8 {
    if k == 0 then 0xA8 else if k == 1 then 0x39 else if k == 2 then 0x4B else if k == 3 then 0xDA else if k == 4 then 0xAF else
    if k == 5 then 0x3E else if k == 6 then 0x4C else if k == 7 then 0xDD else if k == 8 then 0xA6 else if k == 9 then 0x37 else
    if k == 10 then 0x45 else if k == 11 then 0xD4 else if k == 12 then 0xA1 else if k == 13 then 0x30 else if k == 14 then 0x42 else
    0xD3
  }

  function RowF(k: bv8): bv8 {
    if k == 0 then 0xB4 else if k == 1 then 0x25 else if k == 2 then 0x57 else if k == 3 then 0xC6 else if k == 4 then 0xB3 else
    if k == 5 then 0x22 else if k == 6 then 0x50 else if k == 7 then 0xC1 else if k == 8 then 0xBA else if k == 9 then 0x2B else
    if k == 10 then 0x59 else if k == 11 then 0xC8 else if k == 12 then 0xBD else if k == 13 then 0x2C else if k == 14 then 0x5E else
    0xCF
  }

  function Table(i: bv8): bv8 {
    if i < 0x10 then Row0(i & 15)
    else if i < 0x20 then Row1(i & 15)
    else if i < 0x30 then Row2(i & 15)
    else if i < 0x40 then Row3(i & 15)
    else if i < 0x50 then Row4(i & 15)
    else if i < 0x60 then Row5(i & 15)
    else if i < 0x70 then Row6(i & 15)
    else if i < 0x80 then Row7(i & 15)
    else if i < 0x90 then Row8(i & 15)
    else if i < 0xA0 then Row9(i & 15)
    else if i < 0xB0 then RowA(i & 15)
    else if i < 0xC0 then RowB(i & 15)
    else if i < 0xD0 then RowC(i & 15)
    else if i < 0xE0 then RowD(i & 15)
    else if i < 0xF0 then RowE(i & 15)
    else RowF(i & 15)
  }

  lemma TableIsDivision(i: bv8)
    ensures Table(i) == Division(i)
  {
  }

  /** meshx_3gpp_crc: the table loop computes the bitwise definition. */
  method Crc3gpp(data: array<bv8>, length: nat) returns (r: bv8)
    requires length <= data.Length
    ensures r == Fcs(data[..length])
  {
    hide Table, Division;
    var fcs, p, len := 0xFF as bv8, 0, length;
    assert data[0..length] == data[..length];
    while len > 0
      invariant p + len == length && Run(fcs, data[p..length]) == Run(0xFF, data[..length])
      decreases len
    {
      len := len - 1;
      TableIsDivision(fcs ^ data[p]);
      assert data[p..length][0] == data[p] && data[p..length][1..] == data[p + 1..length];
      fcs := Table(fcs ^ data[p]);
      p := p + 1;
    }
    assert data[p..length] == [];
    r := 0xFF - fcs;
  }

  // ---------- what the check detects ----------

  function Unshift(y: bv8): bv8 { if y & 0x80 != 0 then ((y ^ POLY) << 1) | 1 else y << 1 }

  /** Every division step can be undone, so it is a bijection on the register. */
  lemma ShiftBijective(x: bv8)
    ensures Unshift(Shift(x)) == x && Shift(Unshift(x)) == x
  {
  }

  lemma ShiftOneToOne(x: bv8, y: bv8)
    ensures Shift(x) == Shift(y) <==> x == y
  {
    ShiftBijective(x);
    ShiftBijective(y);
    hide *;
  }

  lemma DivisionOneToOne(x: bv8, y: bv8)
    ensures Division(x) == Division(y) <==> x == y
  {
    var a1, b1 := Shift(x), Shift(y);
    var a2, b2 := Shift(a1), Shift(b1);
    var a3, b3 := Shift(a2), Shift(b2);
    var a4, b4 := Shift(a3), Shift(b3);
    var a5, b5 := Shift(a4), Shift(b4);
    var a6, b6 := Shift(a5), Shift(b5);
    var a7, b7 := Shift(a6), Shift(b6);
    hide Shift;
    ShiftOneToOne(x, y);
    ShiftOneToOne(a1, b1);
    ShiftOneToOne(a2, b2);
    ShiftOneToOne(a3, b3);
    ShiftOneToOne(a4, b4);
    ShiftOneToOne(a5, b5);
    ShiftOneToOne(a6, b6);
    ShiftOneToOne(a7, b7);
  }

  lemma XorCancels(a: bv8, d: bv8, e: bv8)
    ensures a ^ d == a ^ e <==> d == e
    ensures d ^ a == e ^ a <==> d == e
  {
  }

  /** Each step is one to one in the register and in the octet. */
  lemma StepOneToOne(a: bv8, b: bv8, d: bv8, e: bv8)
    ensures Division(a ^ d) == Division(b ^ d) <==> a == b
    ensures Division(a ^ d) == Division(a ^ e) <==> d == e
  {
    hide Division;
    DivisionOneToOne(a ^ d, b ^ d);
    DivisionOneToOne(a ^ d, a ^ e);
    XorCancels(d, a, b);
    XorCancels(a, d, e);
  }

  lemma {:induction false} RunOneToOne(a: bv8, b: bv8, s: seq<bv8>)
    ensures Run(a, s) == Run(b, s) <==> a == b
    decreases |s|
  {
    if s != [] {
      StepOneToOne(a, b, s[0], s[0]);
      hide Division;
      RunOneToOne(Division(a ^ s[0]), Division(b ^ s[0]), s[1..]);
    }
  }

  lemma {:induction false} RunAppend(a: bv8, s: seq<bv8>, t: seq<bv8>)
    ensures Run(a, s + t) == Run(Run(a, s), t)
    decreases |s|
  {
    hide Division;
    if s == [] {
      assert s + t == t;
    } else {
      assert (s + t)[0] == s[0] && (s + t)[1..] == s[1..] + t;
      RunAppend(Division(a ^ s[0]), s[1..], t);
    }
  }

  lemma FcsIsComplement(s: seq<bv8>, t: seq<bv8>)
    ensures Fcs(s) == Fcs(t) <==> Run(0xFF, s) == Run(0xFF, t)
  {
    hide Run;
    ComplementOneToOne(Run(0xFF, s), Run(0xFF, t));
  }

  lemma ComplementOneToOne(a: bv8, b: bv8)
    ensures 0xFF - a == 0xFF - b <==> a == b
  {
  }

  lemma OneOctetRuns(p: seq<bv8>, x: bv8, y: bv8, q: seq<bv8>)
    ensures Run(0xFF, p + [x] + q) == Run(0xFF, p + [y] + q) <==> x == y
  {
    hide *;
    var r := Run(0xFF, p);
    assert Run(0xFF, p + [x] + q) == Run(Division(r ^ x), q) by { OctetRun(p, x, q); }
    assert Run(0xFF, p + [y] + q) == Run(Division(r ^ y), q) by { OctetRun(p, y, q); }
    StepOneToOne(r, r, x, y);
    RunOneToOne(Division(r ^ x), Division(r ^ y), q);
  }

  /** Changing any one octet of a message always changes its check octet. */
  lemma OneOctetChangeDetected(p: seq<bv8>, x: bv8, y: bv8, q: seq<bv8>)
    ensures Fcs(p + [x] + q) == Fcs(p + [y] + q) <==> x == y
  {
    hide *;
    OneOctetRuns(p, x, y, q);
    FcsIsComplement(p + [x] + q, p + [y] + q);
  }

  lemma OctetRun(p: seq<bv8>, x: bv8, q: seq<bv8>)
    ensures Run(0xFF, p + [x] + q) == Run(Division(Run(0xFF, p) ^ x), q)
  {
    hide Division;
    RunAppend(0xFF, p, [x] + q);
    assert p + [x] + q == p + ([x] + q);
    assert ([x] + q)[0] == x && ([x] + q)[1..] == q;
  }

  lemma Residue(r: bv8, c: bv8)
    ensures Division(r ^ c) == 0xCF <==> c == 0xFF - r
  {
  }

  lemma SingleRun(a: bv8, c: bv8)
    ensures Run(a, [c]) == Division(a ^ c)
  {
    hide Division;
    assert [c][1..] == [];
  }

  /** The receiver's test: running over a message and an octet ends at 0xCF exactly when the octet is the
      message's check octet. */
  lemma CheckAcceptsExactlyFcs(s: seq<bv8>, c: bv8)
    ensures Run(0xFF, s + [c]) == 0xCF <==> c == Fcs(s)
  {
    RunAppend(0xFF, s, [c]);
    var r := Run(0xFF, s);
    SingleRun(r, c);
    Residue(r, c);
    assert c == Fcs(s) <==> c == 0xFF - r;
    hide *;
  }
}
