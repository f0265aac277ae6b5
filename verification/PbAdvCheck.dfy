// The check octet at the PB-ADV receiver: nothing is processed that does not have the check octet its start packet
// carried, whatever arrives, and a message damaged on its way is dropped.

module PbAdvCheck {
  import opened Bytes
  import Crc
  import opened PbAdv

  // ---------- arbitrary packets ----------

  /** Some start packet among the traffic announced this length and check octet. */
  predicate Announced(ts: seq<Traffic>, len: nat, fcs: bv8) {
    exists i :: 0 <= i < |ts| && ts[i].Any? && ts[i].p.Start? && ts[i].p.totalLen == len && ts[i].p.fcs == fcs
  }

  /** s has the length and the check octet of a start packet. */
  ghost predicate Vouched(ts: seq<Traffic>, s: seq<byte>) { Announced(ts, |s|, Check(s)) }

  /** h: the traffic so far; base: how many PDUs had been processed before. */
  ghost predicate Checked(r: Rx, h: seq<Traffic>, base: nat) {
    && RxOk(r) && base <= |r.processed|
    && (r.len != 0 ==> Announced(h, r.len, r.fcs))
    && (r.waiting ==> r.len != 0 && r.missing == {} && Check(r.data[..r.len]) == r.fcs)
    && forall k :: base <= k < |r.processed| ==> Vouched(h, r.processed[k])
  }

  lemma AnnouncedGrows(h: seq<Traffic>, t: Traffic, len: nat, fcs: bv8)
    requires Announced(h, len, fcs)
    ensures Announced(h + [t], len, fcs)
  {
    var i :| 0 <= i < |h| && h[i].Any? && h[i].p.Start? && h[i].p.totalLen == len && h[i].p.fcs == fcs;
    assert (h + [t])[i] == h[i];
  }

  lemma CheckedGrows(r: Rx, h: seq<Traffic>, t: Traffic, base: nat)
    requires Checked(r, h, base)
    ensures Checked(r, h + [t], base)
  {
    hide Check, Announced;
    if r.len != 0 { AnnouncedGrows(h, t, r.len, r.fcs); }
    forall k | base <= k < |r.processed| ensures Vouched(h + [t], r.processed[k]) {
      assert Vouched(h, r.processed[k]);
      AnnouncedGrows(h, t, |r.processed[k]|, Check(r.processed[k]));
    }
  }

  /** Storing a segment of a message not yet complete. */
  lemma StoredChecked(r: Rx, i: nat, off: nat, d: seq<byte>, h: seq<Traffic>, base: nat)
    requires Checked(r, h, base) && r.len != 0 && !r.waiting
    ensures Checked(Stored(r, i, off, d), h, base)
  {
    hide Check, Splice, Announced, Vouched;
  }

  lemma RecvChecked(r: Rx, p: Packet, h: seq<Traffic>, base: nat)
    requires Checked(r, h, base)
    ensures Checked(Recv(r, p), h + [Any(p)], base)
  {
    var g := h + [Any(p)];
    CheckedGrows(r, h, Any(p), base);
    if p.Start? {
      assert Announced(g, p.totalLen, p.fcs) by { assert g[|h|] == Any(p); }
      var u := (if r.len == 0 then r.(missing := Bits(p.lastSeg + 1)) else r)
               .(len := p.totalLen, num := p.num, lastSeg := p.lastSeg, fcs := p.fcs);
      hide Check, Announced, Vouched, Stored, SegNum;
      if 1 <= p.totalLen <= DATA_MAX && 0 in u.missing { StoredChecked(u, 0, 0, p.data, g, base); }
    } else {
      hide Check, Announced, Vouched, Stored, SegNum;
      if r.len != 0 && !r.waiting { StoredChecked(r, p.index, Offset(p.index), p.data, g, base); }
    }
  }

  lemma DelayChecked(r: Rx, ackOk: bool, h: seq<Traffic>, base: nat)
    requires Checked(r, h, base) && r.waiting
    ensures Checked(HandleDelay(r, ackOk), h, base)
  {
    hide Check, Announced;
    assert Vouched(h, r.data[..r.len]);
  }

  lemma {:induction false} RunChecked(r: Rx, h: seq<Traffic>, ts: seq<Traffic>, base: nat)
    requires Checked(r, h, base)
    ensures Checked(TakeAll(r, ts), h + ts, base)
    decreases |ts|
  {
    if ts == [] {
      assert h + ts == h;
    } else {
      match ts[0] {
        case Any(p) => RecvChecked(r, p, h, base);
        case Due(ackOk) =>
          if r.waiting { DelayChecked(r, ackOk, h, base); }
          CheckedGrows(Take(r, ts[0]), h, ts[0], base);
      }
      hide Take, Checked;
      RunChecked(Take(r, ts[0]), h + [ts[0]], ts[1..], base);
      assert (h + [ts[0]]) + ts[1..] == h + ts;
    }
  }

  /** Over every sequence of packets of any content and of due acknowledgements: everything that is processed has the
      length and the check octet that a start packet among them carried. */
  lemma OnlyCheckedIsProcessed(r: Rx, num: nat, ts: seq<Traffic>, k: nat)
    requires Ready(r, num) && |r.processed| <= k < |TakeAll(r, ts).processed|
    ensures Vouched(ts, TakeAll(r, ts).processed[k])
  {
    assert Checked(r, [], |r.processed|);
    RunChecked(r, [], ts, |r.processed|);
    assert [] + ts == ts;
    hide Vouched, TakeAll;
  }

  // ---------- what a packet has to be like ----------

  /** While a message is under way with its start packet stored, packets of other transactions do nothing. */
  lemma OtherTransactionsAreIgnored(r: Rx, p: Packet)
    requires RxOk(r) && r.len != 0 && 0 !in r.missing && p.num != r.num
    ensures Recv(r, p) == r
  {
    hide Check, Stored;
  }

  /** Nothing of a transaction that has been acknowledged is taken again. */
  lemma AcknowledgedIsIgnored(r: Rx, p: Packet)
    requires RxOk(r) && p.num == r.acked
    ensures Recv(r, p) == r
  {
    hide Check, Stored;
  }

  /** A continuation does something if and only if it is of the transaction under way, one of the missing segments, and as
      long as that segment of the message is; then it is stored at that segment's place. */
  lemma ContinuationIsTakenIff(r: Rx, p: Packet)
    requires Consistent(r) && !r.fault && p.Continue? && p.index > 0
    ensures var fits := r.len != 0 && p.num == r.num && p.index in r.missing && p.index < SegNum(r.len)
                        && |p.data| == End(r.len, p.index) - Offset(p.index);
            && (Recv(r, p) != r <==> fits)
            && (fits ==> Offset(p.index) + |p.data| <= DATA_MAX
                         && Recv(r, p).data == Splice(r.data, Offset(p.index), p.data) && Recv(r, p).missing == r.missing - {p.index})
  {
    hide Check;
    if r.len != 0 && 0 < p.index < SegNum(r.len) {
      Tiles(r.len, p.index);
      LastLength(r.len, p.index);
    }
    hide SegNum, Offset, End, Splice;
  }

  /** A start packet begins a message, at a receiver with none under way, if and only if it is not of the acknowledged
      transaction, announces 1 to 65 octets in as many segments as they take, and is itself as long as the first of them. */
  lemma StartIsTakenIff(r: Rx, p: Packet)
    requires RxOk(r) && p.Start? && r.len == 0 && !r.fault && !r.failed && !r.waiting
    ensures var fits := p.num != r.acked && 1 <= p.totalLen <= DATA_MAX && p.lastSeg + 1 == SegNum(p.totalLen)
                        && |p.data| == End(p.totalLen, 0);
            (fits ==> |p.data| <= DATA_MAX && Recv(r, p).data == Splice(r.data, 0, p.data) && Recv(r, p).missing == Bits(p.lastSeg + 1) - {0}
                      && (Recv(r, p).len == p.totalLen || (Recv(r, p).len == 0 && p.lastSeg == 0 && Check(p.data) != p.fcs)))
            && (!fits ==> Recv(r, p).data == r.data && 0 <= Recv(r, p).len && (Recv(r, p).len != 0 ==> Armed(Recv(r, p))))
  {
    if 1 <= p.totalLen <= DATA_MAX { Tiles(p.totalLen, 0); }
    if p.lastSeg == 0 && |p.data| == p.totalLen <= DATA_MAX { assert Splice(r.data, 0, p.data)[..p.totalLen] == p.data; }
    hide Check, Splice;
  }

  // ---------- numbers and failure ----------

  /** Twenty octets travel in the start packet and twenty-three in each continuation, in order; there are no more packets
      than that takes. */
  lemma OctetIsIn(num: nat, m: seq<byte>, k: nat)
    requires k < |m|
    ensures var i, at := if k < 20 then 0 else 1 + (k - 20) / 23, if k < 20 then k else (k - 20) % 23;
            && i < SegNum(|m|) && at < |Fragment(num, m, i).data| && Fragment(num, m, i).data[at] == m[k]
            && (k == |m| - 1 ==> i + 1 == SegNum(|m|))
  {
    hide Check;
  }

  /** Each transaction number belongs to exactly one role: below 0x80 the device accepts it, from there on the
      provisioner does. */
  lemma NumbersArePartitioned(num: nat)
    requires num < 0x100
    ensures NumAllowed(true, num) <==> !NumAllowed(false, num)
    ensures NumAllowed(true, num) <==> num / 0x80 == 0
  {
  }

  /** A complete message is processed if and only if its number is one of the other role's; otherwise the receiver
      has failed. */
  lemma ProcessedIffAllowed(r: Rx, ackOk: bool)
    requires RxOk(r) && !r.failed
    ensures var s := HandleDelay(r, ackOk);
            && (s.processed != r.processed <==> NumAllowed(r.device, r.num)) && (s.failed <==> !NumAllowed(r.device, r.num))
            && (!s.failed ==> s.processed == r.processed + [r.data[..r.len]])
  {
    if NumAllowed(r.device, r.num) { assert |HandleDelay(r, ackOk).processed| == |r.processed| + 1; }
  }

  lemma TakeFailed(r: Rx, t: Traffic)
    requires RxOk(r) && r.failed && !r.waiting
    ensures var s := Take(r, t); s.failed && !s.waiting && s.processed == r.processed
  {
    hide Check, Splice;
  }

  /** A receiver that has failed processes nothing any more, whatever arrives. */
  lemma {:induction false} FailedProcessesNothing(r: Rx, ts: seq<Traffic>)
    requires RxOk(r) && r.failed && !r.waiting
    ensures TakeAll(r, ts).processed == r.processed
    decreases |ts|
  {
    if ts != [] {
      TakeFailed(r, ts[0]);
      hide Take;
      FailedProcessesNothing(Take(r, ts[0]), ts[1..]);
    }
  }

  // ---------- a damaged message ----------

  /** Packet i of m, but announced with check octet f. */
  function Damaged(num: nat, m: seq<byte>, f: bv8, i: nat): Packet
    requires 1 <= |m| && i < SegNum(|m|)
  {
    var p := Fragment(num, m, i);
    if p.Start? then p.(fcs := f) else p
  }

  function ApplyDamaged(r: Rx, num: nat, m: seq<byte>, f: bv8, e: Event): (s: Rx)
    requires RxOk(r) && 1 <= |m|
    ensures RxOk(s)
  {
    match e
    case Arrives(i) => if i < SegNum(|m|) then Recv(r, Damaged(num, m, f, i)) else r
    case DelayOver(ackOk) => if r.waiting then HandleDelay(r, ackOk) else r
  }

  function RunDamaged(r: Rx, num: nat, m: seq<byte>, f: bv8, es: seq<Event>): (s: Rx)
    requires RxOk(r) && 1 <= |m|
    ensures RxOk(s)
    decreases |es|
  {
    if es == [] then r else RunDamaged(ApplyDamaged(r, num, m, f, es[0]), num, m, f, es[1..])
  }

  /** Some of m is in the buffer, and some is missing. */
  ghost predicate Partial(r: Rx, num: nat, m: seq<byte>, f: bv8)
    requires RxOk(r) && 1 <= |m| <= DATA_MAX
  {
    var n := SegNum(|m|);
    && r.len == |m| && r.num == num && r.lastSeg == n - 1 && r.fcs == f && r.missing <= Bits(n) && 0 !in r.missing && r.missing != {}
    && forall i :: 0 <= i < n && i !in r.missing ==> InPlace(r.data, m, i)
  }

  ghost predicate Dropping(r: Rx, num: nat, m: seq<byte>, f: bv8, p0: seq<seq<byte>>) {
    && RxOk(r) && 1 <= |m| <= DATA_MAX && !r.failed && !r.waiting && r.acked != num && r.processed == p0
    && (r.len == 0 || Partial(r, num, m, f))
  }

  /** Storing a segment of m: what is missing shrinks, and when nothing is missing any more the message is dropped. */
  lemma StoredDrops(r: Rx, num: nat, m: seq<byte>, f: bv8, i: nat)
    requires RxOk(r) && 1 <= |m| <= DATA_MAX && i < SegNum(|m|) && i in r.missing && !r.failed && !r.waiting && Check(m) != f
    requires var n := SegNum(|m|);
             && r.len == |m| && r.num == num && r.acked != num && r.lastSeg == n - 1 && r.fcs == f
             && r.missing <= Bits(n) && (i == 0 || 0 !in r.missing)
             && forall j :: 0 <= j < n && j !in r.missing ==> InPlace(r.data, m, j)
    ensures Offset(i) <= End(|m|, i) <= |m|
    ensures var s := Stored(r, i, Offset(i), m[Offset(i)..End(|m|, i)]);
            && !s.waiting && !s.failed && s.acked == r.acked && s.processed == r.processed && s.missing == r.missing - {i}
            && if s.missing == {} then s.len == 0 else Partial(s, num, m, f)
  {
    var g, n := r.(fcs := Check(m)), SegNum(|m|);
    StoredKeeps(g, num, m, i);
    Tiles(|m|, i);
    Tiles(|m|, n - 1);
    var d := m[Offset(i)..End(|m|, i)];
    var t := Stored(g, i, Offset(i), d);
    assert Receiving(t, num, m);
    assert forall j :: 0 <= j < n && j !in t.missing ==> InPlace(t.data, m, j);
    hide Check, Splice, SegNum, Offset, End, InPlace, Receiving, Stored, Complete;
    StoredBoth(r, g, i, Offset(i), d);
    if r.missing - {i} == {} { AllInPlace(t.data, m, n); }
    StoredOutcome(r, i, Offset(i), d, t.data, m);
  }

  lemma StoredBoth(r: Rx, g: Rx, i: nat, off: nat, d: seq<byte>)
    requires RxOk(r) && g == r.(fcs := g.fcs) && off + |d| <= DATA_MAX
    ensures Stored(g, i, off, d).data == Splice(r.data, off, d) && Stored(g, i, off, d).missing == r.missing - {i}
  {
    hide Check, Splice;
  }

  /** What storing does when the last segment completes a message with another check octet. */
  lemma StoredOutcome(r: Rx, i: nat, off: nat, d: seq<byte>, data: seq<byte>, m: seq<byte>)
    requires RxOk(r) && !r.failed && off + |d| <= DATA_MAX && data == Splice(r.data, off, d) && r.len == |m| && Check(m) != r.fcs
    requires r.missing - {i} == {} ==> data[..|m|] == m
    ensures Stored(r, i, off, d)
            == r.(missing := r.missing - {i}, data := data, len := if r.missing - {i} == {} then 0 else r.len)
  {
    hide Check, Splice;
  }

  lemma StartDrops(r: Rx, num: nat, m: seq<byte>, f: bv8, p0: seq<seq<byte>>)
    requires Dropping(r, num, m, f, p0) && Check(m) != f
    ensures var s := Recv(r, Damaged(num, m, f, 0));
            Dropping(s, num, m, f, p0)
            && (r.len == 0 ==> s.missing == Bits(SegNum(|m|)) - {0} && (s.len == 0 <==> s.missing == {})) && (r.len != 0 ==> s == r)
  {
    hide Check, Stored;
    Tiles(|m|, 0);
    if r.len == 0 {
      StoredDrops(r.(missing := Bits(SegNum(|m|)), len := |m|, num := num, lastSeg := SegNum(|m|) - 1, fcs := f), num, m, f, 0);
    }
  }

  lemma ContinueDrops(r: Rx, num: nat, m: seq<byte>, f: bv8, i: nat, p0: seq<seq<byte>>)
    requires Dropping(r, num, m, f, p0) && Check(m) != f && 0 < i < SegNum(|m|)
    ensures var s := Recv(r, Damaged(num, m, f, i));
            Dropping(s, num, m, f, p0) && (r.len == 0 ==> s == r)
            && (r.len != 0 ==> s.missing == r.missing - {i} && (s.len == 0 <==> s.missing == {}))
  {
    hide Check, Stored;
    Tiles(|m|, i);
    if r.len != 0 && i in r.missing {
      LastLength(|m|, i);
      StoredDrops(r, num, m, f, i);
    }
  }

  lemma ApplyDrops(r: Rx, num: nat, m: seq<byte>, f: bv8, e: Event, p0: seq<seq<byte>>)
    requires Dropping(r, num, m, f, p0) && Check(m) != f
    ensures Dropping(ApplyDamaged(r, num, m, f, e), num, m, f, p0)
  {
    hide Recv, Damaged, Check;
    if e.Arrives? && e.i < SegNum(|m|) {
      if e.i == 0 { StartDrops(r, num, m, f, p0); } else { ContinueDrops(r, num, m, f, e.i, p0); }
    }
  }

  /** Packets of m announced with a check octet that is not m's: in whatever order and number they come, and whenever
      an acknowledgement would be due, none is due and nothing is processed. */
  lemma {:induction false} DamagedIsNeverProcessed(r: Rx, num: nat, m: seq<byte>, f: bv8, es: seq<Event>, p0: seq<seq<byte>>)
    requires Dropping(r, num, m, f, p0) && Check(m) != f
    ensures Dropping(RunDamaged(r, num, m, f, es), num, m, f, p0)
    decreases |es|
  {
    if es != [] {
      ApplyDrops(r, num, m, f, es[0], p0);
      hide ApplyDamaged, Check;
      DamagedIsNeverProcessed(ApplyDamaged(r, num, m, f, es[0]), num, m, f, es[1..], p0);
    }
  }

  predicate OnlyContinuations(es: seq<Event>) { forall k :: 0 <= k < |es| ==> es[k].Arrives? && es[k].i > 0 }

  lemma {:induction false} DroppedWhenAllCame(r: Rx, num: nat, m: seq<byte>, f: bv8, es: seq<Event>, p0: seq<seq<byte>>)
    requires Dropping(r, num, m, f, p0) && Check(m) != f && OnlyContinuations(es) && (r.len == 0 <==> r.missing == {})
    ensures var s := RunDamaged(r, num, m, f, es); s.len == 0 <==> r.missing <= Indices(es)
    decreases |es|
  {
    hide Check;
    if es != [] {
      var i := es[0].i;
      ApplyDrops(r, num, m, f, es[0], p0);
      if i < SegNum(|m|) { ContinueDrops(r, num, m, f, i, p0); }
      var s := ApplyDamaged(r, num, m, f, es[0]);
      assert s.missing == r.missing - {i} by { MissingInRange(r, num, m, f, i, p0); }
      hide ApplyDamaged, Dropping;
      DroppedWhenAllCame(s, num, m, f, es[1..], p0);
    }
  }

  lemma MissingInRange(r: Rx, num: nat, m: seq<byte>, f: bv8, i: nat, p0: seq<seq<byte>>)
    requires Dropping(r, num, m, f, p0) && (r.len == 0 <==> r.missing == {})
    ensures i >= SegNum(|m|) ==> i !in r.missing
  {
  }

  lemma ReadyDrops(r: Rx, num: nat, m: seq<byte>, f: bv8)
    requires Ready(r, num) && 1 <= |m| <= DATA_MAX
    ensures Dropping(r, num, m, f, r.processed)
  {
  }

  /** After its start packet, the message is dropped, with room for the next one, if and only if every continuation has
      come. */
  lemma DamagedIsDroppedIff(r: Rx, num: nat, m: seq<byte>, f: bv8, es: seq<Event>)
    requires Ready(r, num) && 1 <= |m| <= DATA_MAX && Check(m) != f && OnlyContinuations(es)
    ensures var s := RunDamaged(r, num, m, f, [Arrives(0)] + es);
            && !s.waiting && s.processed == r.processed && (s.len == 0 <==> Bits(SegNum(|m|)) - {0} <= Indices(es))
  {
    ReadyDrops(r, num, m, f);
    Tiles(|m|, 0);
    StartDrops(r, num, m, f, r.processed);
    var t := ApplyDamaged(r, num, m, f, Arrives(0));
    hide Recv, Damaged, Check, Dropping;
    DroppedWhenAllCame(t, num, m, f, es, r.processed);
    DamagedIsNeverProcessed(t, num, m, f, es, r.processed);
    assert ([Arrives(0)] + es)[0] == Arrives(0) && ([Arrives(0)] + es)[1..] == es;
    DroppingSays(RunDamaged(t, num, m, f, es), num, m, f, r.processed);
  }

  lemma DroppingSays(r: Rx, num: nat, m: seq<byte>, f: bv8, p0: seq<seq<byte>>)
    requires Dropping(r, num, m, f, p0)
    ensures !r.waiting && r.processed == p0
  {
  }

  // ---------- one octet changed ----------

  /** Different octets differ in some bit. */
  lemma OctetsDiffer(x: byte, y: byte)
    requires x != y
    ensures Octet(x) != Octet(y)
  {
    hide TestBit, Pow2;
    if Octet(x) == Octet(y) {
      SameMasks(TestBit(x, 7), TestBit(x, 6), TestBit(x, 5), TestBit(x, 4), TestBit(x, 3), TestBit(x, 2), TestBit(x, 1), TestBit(x, 0),
                TestBit(y, 7), TestBit(y, 6), TestBit(y, 5), TestBit(y, 4), TestBit(y, 3), TestBit(y, 2), TestBit(y, 1), TestBit(y, 0));
      hide Octet;
      EightBits(x, y);
    }
  }

  lemma EightBits(x: byte, y: byte)
    requires TestBit(x, 7) == TestBit(y, 7) && TestBit(x, 6) == TestBit(y, 6) && TestBit(x, 5) == TestBit(y, 5)
    requires TestBit(x, 4) == TestBit(y, 4) && TestBit(x, 3) == TestBit(y, 3) && TestBit(x, 2) == TestBit(y, 2)
    requires TestBit(x, 1) == TestBit(y, 1) && TestBit(x, 0) == TestBit(y, 0)
    ensures x == y
  {
    assert Pow2(8) == 256;
    hide TestBit, Pow2;
    forall j | 0 <= j < 8 ensures TestBit(x, j) == TestBit(y, j) {
      assert j == 0 || j == 1 || j == 2 || j == 3 || j == 4 || j == 5 || j == 6 || j == 7;
    }
    SameBits(x, y, 8);
  }

  lemma SameMasks(a7: bool, a6: bool, a5: bool, a4: bool, a3: bool, a2: bool, a1: bool, a0: bool,
                  b7: bool, b6: bool, b5: bool, b4: bool, b3: bool, b2: bool, b1: bool, b0: bool)
    requires Masked(a7, 0x80) | Masked(a6, 0x40) | Masked(a5, 0x20) | Masked(a4, 0x10)
             | Masked(a3, 0x08) | Masked(a2, 0x04) | Masked(a1, 0x02) | Masked(a0, 0x01)
             == Masked(b7, 0x80) | Masked(b6, 0x40) | Masked(b5, 0x20) | Masked(b4, 0x10)
                | Masked(b3, 0x08) | Masked(b2, 0x04) | Masked(b1, 0x02) | Masked(b0, 0x01)
    ensures a7 == b7 && a6 == b6 && a5 == b5 && a4 == b4 && a3 == b3 && a2 == b2 && a1 == b1 && a0 == b0
  {
  }

  function AsBits(s: seq<byte>): seq<bv8> { seq(|s|, i requires 0 <= i < |s| => Octet(s[i])) }

  lemma CheckIs(s: seq<byte>)
    ensures Check(s) == Crc.Fcs(AsBits(s))
  {
    hide Crc.Fcs;
    assert AsBits(s) == seq(|s|, i requires 0 <= i < |s| => Octet(s[i]));
  }

  lemma BitsAround(p: seq<byte>, x: byte, q: seq<byte>)
    ensures AsBits(p + [x] + q) == AsBits(p) + [Octet(x)] + AsBits(q)
  {
    hide Octet;
  }

  /** A message with any one octet changed has another check octet. */
  lemma OneOctetChangesCheck(p: seq<byte>, x: byte, y: byte, q: seq<byte>)
    requires x != y
    ensures Check(p + [x] + q) != Check(p + [y] + q)
  {
    hide *;
    OctetsDiffer(x, y);
    Crc.OneOctetChangeDetected(AsBits(p), Octet(x), Octet(y), AsBits(q));
    CheckIs(p + [x] + q);
    CheckIs(p + [y] + q);
    BitsAround(p, x, q);
    BitsAround(p, y, q);
  }

  /** So a message of which any one octet was changed on its way is dropped, and never processed. */
  lemma OneOctetChangedIsDropped(r: Rx, num: nat, p: seq<byte>, x: byte, y: byte, q: seq<byte>, es: seq<Event>, more: seq<Event>)
    requires Ready(r, num) && |p| + 1 + |q| <= DATA_MAX && x != y && OnlyContinuations(es)
    requires Bits(SegNum(|p| + 1 + |q|)) - {0} <= Indices(es)
    ensures var m, f := p + [y] + q, Check(p + [x] + q);
            var s := RunDamaged(r, num, m, f, [Arrives(0)] + es);
            s.len == 0 && !s.waiting && RunDamaged(s, num, m, f, more).processed == r.processed
  {
    var m, f := p + [y] + q, Check(p + [x] + q);
    OneOctetChangesCheck(p, x, y, q);
    hide Check;
    DamagedIsDroppedIff(r, num, m, f, es);
    ReadyDrops(r, num, m, f);
    DamagedIsNeverProcessed(r, num, m, f, [Arrives(0)] + es, r.processed);
    var s := RunDamaged(r, num, m, f, [Arrives(0)] + es);
    hide RunDamaged, Dropping;
    DamagedIsNeverProcessed(s, num, m, f, more, r.processed);
    DroppingSays(RunDamaged(s, num, m, f, more), num, m, f, r.processed);
  }
}
