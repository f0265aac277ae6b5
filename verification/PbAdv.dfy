// PB-ADV transactions (mesh/provision/meshx_pb_adv.c): cutting a provisioning PDU into a start and continuation
// packets, and rebuilding it from them.

module PbAdv {
  import opened Bytes
  import Crc

  const START_MAX: nat := 20
  const CONTINUE_MAX: nat := 23
  const DATA_MAX: nat := 65

  /** The check octet of a PDU. */
  function Check(s: seq<byte>): bv8 { Crc.Fcs(seq(|s|, i requires 0 <= i < |s| => Octet(s[i]))) }

  function Masked(b: bool, m: bv8): bv8 { if b then m else 0 }

  /** The octet as bits. */
  function Octet(x: byte): bv8 {
    Masked(TestBit(x, 7), 0x80) | Masked(TestBit(x, 6), 0x40) | Masked(TestBit(x, 5), 0x20) | Masked(TestBit(x, 4), 0x10)
    | Masked(TestBit(x, 3), 0x08) | Masked(TestBit(x, 2), 0x04) | Masked(TestBit(x, 1), 0x02) | Masked(TestBit(x, 0), 0x01)
  }

  datatype Packet =
    | Start(num: nat, lastSeg: nat, totalLen: nat, fcs: bv8, data: seq<byte>)
    | Continue(num: nat, index: nat, data: seq<byte>)

  // ---------- fragments ----------

  /** meshx_calc_seg_num */
  function SegNum(len: nat): nat {
    if len <= START_MAX then 1 else (len - START_MAX + CONTINUE_MAX - 1) / CONTINUE_MAX + 1
  }

  function Offset(i: nat): nat { if i == 0 then 0 else START_MAX + CONTINUE_MAX * (i - 1) }

  function End(len: nat, i: nat): nat { if i + 1 >= SegNum(len) then len else Offset(i + 1) }

  function Fragment(num: nat, m: seq<byte>, i: nat): Packet
    requires 1 <= |m| && i < SegNum(|m|)
  {
    Tiles(|m|, i);
    var d := m[Offset(i)..End(|m|, i)];
    if i == 0 then Start(num, SegNum(|m|) - 1, |m|, Check(m), d) else Continue(num, i, d)
  }

  /** Fragment i is the octets from Offset(i) to End(len, i): they follow one another without gap or overlap,
      start at 0, end at the length, and fit their packets. */
  lemma Tiles(len: nat, i: nat)
    requires 1 <= len && i < SegNum(len)
    ensures Offset(0) == 0 && End(len, SegNum(len) - 1) == len
    ensures i + 1 < SegNum(len) ==> End(len, i) == Offset(i + 1)
    ensures 0 < End(len, i) - Offset(i) <= (if i == 0 then START_MAX else CONTINUE_MAX)
    ensures i + 1 < SegNum(len) ==> End(len, i) - Offset(i) == (if i == 0 then START_MAX else CONTINUE_MAX)
    ensures End(len, i) <= len
  {
  }

  function Fragments(num: nat, m: seq<byte>, k: nat): (r: seq<Packet>)
    requires 1 <= |m| && k <= SegNum(|m|)
    ensures |r| == k
  {
    if k == 0 then [] else Fragments(num, m, k - 1) + [Fragment(num, m, k - 1)]
  }

  /** What the first k fragments carry, put together. */
  function Payloads(num: nat, m: seq<byte>, k: nat): seq<byte>
    requires 1 <= |m| && k <= SegNum(|m|)
  {
    if k == 0 then [] else Payloads(num, m, k - 1) + Fragment(num, m, k - 1).data
  }

  /** Together the fragments carry the message, once. */
  lemma {:induction false} FragmentsCarryMessage(num: nat, m: seq<byte>, k: nat)
    requires 1 <= |m| && 1 <= k <= SegNum(|m|)
    ensures End(|m|, k - 1) <= |m| && Payloads(num, m, k) == m[..End(|m|, k - 1)]
    ensures k == SegNum(|m|) ==> Payloads(num, m, k) == m
  {
    hide Check;
    Tiles(|m|, k - 1);
    if k > 1 {
      FragmentsCarryMessage(num, m, k - 1);
      Tiles(|m|, k - 2);
    } else {
      assert Payloads(num, m, 0) == [];
    }
  }

  /** pb_adv_send_trans; accepted is how many packets the bearer takes before it refuses one. The offset is an
      8-bit variable. */
  method SendTrans(num: nat, data: array<byte>, len: nat, accepted: nat) returns (sent: seq<Packet>, ok: bool)
    requires 1 <= len <= data.Length && len < 256
    ensures ok <==> accepted >= SegNum(len)
    ensures sent == Fragments(num, data[..len], if ok then SegNum(len) else accepted)
  {
    hide Check;
    sent, ok := [], true;
    var segmentNum := SegNum(len);
    var dataOffset, index := 0, 0;
    while index < segmentNum
      invariant index <= segmentNum && index <= accepted
      invariant index < segmentNum ==> dataOffset == Offset(index)
      invariant sent == Fragments(num, data[..len], index)
    {
      Tiles(len, index);
      if index == accepted { return sent, false; }
      if index == 0 {
        var segmentLen := if segmentNum == 1 then len else 20;
        assert data[0..segmentLen] == data[..len][0..segmentLen];
        sent := sent + [Start(num, segmentNum - 1, len, Check(data[..len]), data[0..segmentLen])];
        dataOffset := (dataOffset + segmentLen) % 256;
      } else {
        var segmentLen := if segmentNum == index + 1 then len - dataOffset else 23;
        assert data[dataOffset..dataOffset + segmentLen] == data[..len][dataOffset..dataOffset + segmentLen];
        sent := sent + [Continue(num, index, data[dataOffset..dataOffset + segmentLen])];
        dataOffset := (dataOffset + segmentLen) % 256;
      }
      index := index + 1;
    }
  }

  // ---------- the receiver ----------

  /** recv_seg as the set of missing segments. waiting: the delayed acknowledgement is due. fault: the C code
      would write outside the buffer. processed: the PDUs handed to meshx_prov_pdu_process. */
  datatype Rx = Rx(device: bool, failed: bool, acked: nat, num: nat, lastSeg: nat, fcs: bv8, missing: set<nat>,
                   len: nat, data: seq<byte>, waiting: bool, fault: bool, processed: seq<seq<byte>>)

  predicate RxOk(r: Rx) { |r.data| == DATA_MAX && r.len <= DATA_MAX }

  /** meshx_pb_adv_recv_prov_pdu */
  function Complete(r: Rx): (s: Rx)
    requires RxOk(r)
    ensures RxOk(s) && s.processed == r.processed
  {
    if r.failed then r
    else if Check(r.data[..r.len]) != r.fcs then r.(len := 0)
    else r.(waiting := true)
  }

  function Stored(r: Rx, i: nat, off: nat, d: seq<byte>): (s: Rx)
    requires RxOk(r)
    ensures RxOk(s) && s.processed == r.processed
  {
    if off + |d| > DATA_MAX then r.(fault := true)
    else
      var t := r.(missing := r.missing - {i}, data := Splice(r.data, off, d));
      if t.missing == {} then Complete(t) else t
  }

  /** meshx_pb_adv_recv_trans_start on an open link. */
  function RecvStart(r: Rx, p: Packet): (s: Rx)
    requires RxOk(r) && p.Start?
    ensures RxOk(s) && s.processed == r.processed
  {
    if r.acked == p.num then r
    else if p.totalLen == 0 || p.totalLen > DATA_MAX || SegNum(p.totalLen) - 1 != p.lastSeg then r
    else
      var t := if r.len == 0 then r.(missing := Bits(p.lastSeg + 1)) else r;
      if 0 !in t.missing then t
      else
        var u := t.(len := p.totalLen, num := p.num, lastSeg := p.lastSeg, fcs := p.fcs);
        if |p.data| != (if p.lastSeg == 0 then p.totalLen else START_MAX) then u
        else Stored(u, 0, 0, p.data)
  }

  /** meshx_pb_adv_recv_trans_continue on an open link; the required length is cut to 8 bits, the offset of
      segment 0 wraps. */
  function RecvContinue(r: Rx, p: Packet): (s: Rx)
    requires RxOk(r) && p.Continue?
    ensures RxOk(s) && s.processed == r.processed
  {
    if r.acked == p.num || r.num != p.num || r.len == 0 || p.index > r.lastSeg || p.index !in r.missing then r
    else if |p.data| != (if p.index < r.lastSeg then CONTINUE_MAX
                         else (r.len - START_MAX - CONTINUE_MAX * (r.lastSeg - 1)) % 256) then r
    else if p.index == 0 then r.(fault := true)
    else Stored(r, p.index, Offset(p.index), p.data)
  }

  function Recv(r: Rx, p: Packet): (s: Rx)
    requires RxOk(r)
    ensures RxOk(s) && s.processed == r.processed
  {
    if p.Start? then RecvStart(r, p) else RecvContinue(r, p)
  }

  predicate NumAllowed(device: bool, num: nat) { if device then num < 0x80 else 0x80 <= num < 0x100 }

  /** meshx_pb_adv_handle_delay for a transaction acknowledgement; ackOk: the bearer took it. */
  function HandleDelay(r: Rx, ackOk: bool): (s: Rx)
    requires RxOk(r)
    ensures RxOk(s)
  {
    var t := r.(acked := if ackOk then r.num else r.acked, len := 0, waiting := false);
    if NumAllowed(r.device, r.num) then t.(processed := r.processed + [r.data[..r.len]]) else t.(failed := true)
  }

  // ---------- one message ----------

  datatype Event = Arrives(i: nat) | DelayOver(ackOk: bool)

  function Apply(r: Rx, num: nat, m: seq<byte>, e: Event): (s: Rx)
    requires RxOk(r) && 1 <= |m|
    ensures RxOk(s)
  {
    match e
    case Arrives(i) => if i < SegNum(|m|) then Recv(r, Fragment(num, m, i)) else r
    case DelayOver(ackOk) => if r.waiting then HandleDelay(r, ackOk) else r
  }

  function Run(r: Rx, num: nat, m: seq<byte>, es: seq<Event>): (s: Rx)
    requires RxOk(r) && 1 <= |m|
    ensures RxOk(s)
    decreases |es|
  {
    if es == [] then r else Run(Apply(r, num, m, es[0]), num, m, es[1..])
  }

  /** Segment i of m is in place. */
  predicate InPlace(data: seq<byte>, m: seq<byte>, i: nat)
    requires |data| == DATA_MAX && 1 <= |m| <= DATA_MAX && i < SegNum(|m|)
  {
    Tiles(|m|, i);
    data[Offset(i)..End(|m|, i)] == m[Offset(i)..End(|m|, i)]
  }

  /** Reassembly of m under way. */
  ghost predicate Receiving(r: Rx, num: nat, m: seq<byte>)
    requires RxOk(r) && 1 <= |m| <= DATA_MAX
  {
    var n := SegNum(|m|);
    && r.len == |m| && r.num == num && r.acked != num && r.lastSeg == n - 1 && r.fcs == Check(m)
    && r.missing <= Bits(n) && 0 !in r.missing && (r.waiting <==> r.missing == {})
    && forall i :: 0 <= i < n && i !in r.missing ==> InPlace(r.data, m, i)
  }

  /** Every state a run of one message's packets leads to: d0 is the buffer at its start, p0 what had been
      processed by then. */
  ghost predicate Inv(r: Rx, num: nat, m: seq<byte>, d0: seq<byte>, p0: seq<seq<byte>>) {
    && RxOk(r) && 1 <= |m| <= DATA_MAX && |d0| == DATA_MAX && !r.failed && !r.fault && NumAllowed(r.device, num)
    && r.data[|m|..] == d0[|m|..]
    && |p0| <= |r.processed| && r.processed[..|p0|] == p0
    && (forall k :: |p0| <= k < |r.processed| ==> r.processed[k] == m)
    && ((r.len == 0 && !r.waiting) || Receiving(r, num, m))
  }

  lemma {:induction false} AllInPlace(data: seq<byte>, m: seq<byte>, k: nat)
    requires |data| == DATA_MAX && 1 <= |m| <= DATA_MAX && 1 <= k <= SegNum(|m|)
    requires forall i :: 0 <= i < k ==> InPlace(data, m, i)
    ensures End(|m|, k - 1) <= |m| && data[..End(|m|, k - 1)] == m[..End(|m|, k - 1)]
  {
    Tiles(|m|, k - 1);
    assert InPlace(data, m, k - 1);
    if k > 1 {
      AllInPlace(data, m, k - 1);
      Tiles(|m|, k - 2);
      var a, b := Offset(k - 1), End(|m|, k - 1);
      assert data[..b] == data[..a] + data[a..b] && m[..b] == m[..a] + m[a..b];
    }
  }

  lemma OffsetOrder(len: nat, i: nat, j: nat)
    requires 1 <= len && i < j < SegNum(len)
    ensures End(len, i) <= Offset(j)
  {
    Tiles(len, i);
  }

  lemma StoredElsewhere(data: seq<byte>, m: seq<byte>, i: nat, j: nat)
    requires |data| == DATA_MAX && 1 <= |m| <= DATA_MAX && i < SegNum(|m|) && j < SegNum(|m|)
    requires i == j || InPlace(data, m, j)
    ensures Offset(i) <= End(|m|, i) <= |m|
    ensures InPlace(Splice(data, Offset(i), m[Offset(i)..End(|m|, i)]), m, j)
  {
    Tiles(|m|, i);
    Tiles(|m|, j);
    hide Splice, SegNum, Offset, End;
    if i == j {
      SpliceHere(data, Offset(i), m[Offset(i)..End(|m|, i)]);
    } else {
      if i < j { OffsetOrder(|m|, i, j); } else { OffsetOrder(|m|, j, i); }
      SpliceElsewhere(data, Offset(i), m[Offset(i)..End(|m|, i)], Offset(j), End(|m|, j));
    }
  }

  /** Storing a missing segment keeps the reassembly; storing the last one makes the acknowledgement due. */
  lemma StoredKeeps(r: Rx, num: nat, m: seq<byte>, i: nat)
    requires RxOk(r) && 1 <= |m| <= DATA_MAX && i < SegNum(|m|) && i in r.missing && !r.failed && !r.waiting
    requires var n := SegNum(|m|);
             && r.len == |m| && r.num == num && r.acked != num && r.lastSeg == n - 1 && r.fcs == Check(m)
             && r.missing <= Bits(n) && (i == 0 || 0 !in r.missing)
             && forall j :: 0 <= j < n && j !in r.missing ==> InPlace(r.data, m, j)
    ensures Offset(i) <= End(|m|, i) <= |m|
    ensures var s := Stored(r, i, Offset(i), m[Offset(i)..End(|m|, i)]);
            && Receiving(s, num, m) && s.missing == r.missing - {i}
            && s == r.(missing := s.missing, data := s.data, waiting := s.waiting) && s.data[|m|..] == r.data[|m|..]
  {
    hide Check, Splice, SegNum, Offset, End;
    var n := SegNum(|m|);
    Tiles(|m|, i);
    var d := m[Offset(i)..End(|m|, i)];
    SpliceElsewhere(r.data, Offset(i), d, |m|, DATA_MAX);
    var data := Splice(r.data, Offset(i), d);
    assert data[|m|..] == data[|m|..DATA_MAX] && r.data[|m|..] == r.data[|m|..DATA_MAX];
    forall j | 0 <= j < n && j !in r.missing - {i} ensures InPlace(data, m, j) { StoredElsewhere(r.data, m, i, j); }
    if r.missing - {i} == {} {
      AllInPlace(data, m, n);
      Tiles(|m|, n - 1);
      assert data[..|m|] == m;
    }
    hide InPlace;
  }

  lemma StartKeeps(r: Rx, num: nat, m: seq<byte>, d0: seq<byte>, p0: seq<seq<byte>>)
    requires Inv(r, num, m, d0, p0)
    ensures Inv(RecvStart(r, Fragment(num, m, 0)), num, m, d0, p0)
    ensures RecvStart(r, Fragment(num, m, 0)) ==
              if r.acked == num || r.len != 0 then r
              else
                var t := r.(missing := Bits(SegNum(|m|)), len := |m|, num := num, lastSeg := SegNum(|m|) - 1, fcs := Check(m));
                Stored(t, 0, 0, Fragment(num, m, 0).data)
  {
    hide Check, Stored;
    Tiles(|m|, 0);
    if r.acked != num && r.len == 0 {
      var t := r.(missing := Bits(SegNum(|m|)), len := |m|, num := num, lastSeg := SegNum(|m|) - 1, fcs := Check(m));
      StoredKeeps(t, num, m, 0);
    }
  }

  lemma ContinueKeeps(r: Rx, num: nat, m: seq<byte>, i: nat, d0: seq<byte>, p0: seq<seq<byte>>)
    requires Inv(r, num, m, d0, p0) && 0 < i < SegNum(|m|)
    ensures Inv(RecvContinue(r, Fragment(num, m, i)), num, m, d0, p0)
    ensures RecvContinue(r, Fragment(num, m, i)) ==
              if r.acked == num || r.num != num || r.len == 0 || i !in r.missing then r
              else Stored(r, i, Offset(i), Fragment(num, m, i).data)
  {
    hide Check, Stored;
    Tiles(|m|, i);
    if r.acked != num && r.num == num && r.len != 0 && i in r.missing {
      LastLength(|m|, i);
      StoredKeeps(r, num, m, i);
    }
  }

  lemma LastLength(len: nat, i: nat)
    requires 1 <= len <= DATA_MAX && 0 < i < SegNum(len)
    ensures i == SegNum(len) - 1 ==> (len - START_MAX - CONTINUE_MAX * (i - 1)) % 256 == len - Offset(i) == End(len, i) - Offset(i)
  {
  }

  lemma DelayKeeps(r: Rx, num: nat, m: seq<byte>, ackOk: bool, d0: seq<byte>, p0: seq<seq<byte>>)
    requires Inv(r, num, m, d0, p0) && r.waiting
    ensures var s := HandleDelay(r, ackOk);
            Inv(s, num, m, d0, p0) && s.processed == r.processed + [m] && s.acked == (if ackOk then num else r.acked) && s.len == 0
  {
    hide Check;
    var n := SegNum(|m|);
    AllInPlace(r.data, m, n);
    Tiles(|m|, n - 1);
    assert r.data[..|m|] == m;
    assert (r.processed + [m])[..|p0|] == r.processed[..|p0|];
  }

  lemma ApplyKeeps(r: Rx, num: nat, m: seq<byte>, e: Event, d0: seq<byte>, p0: seq<seq<byte>>)
    requires Inv(r, num, m, d0, p0)
    ensures Inv(Apply(r, num, m, e), num, m, d0, p0)
  {
    hide RecvStart, RecvContinue, HandleDelay, Inv, Check;
    match e
    case Arrives(i) =>
      if i == 0 { StartKeeps(r, num, m, d0, p0); } else if i < SegNum(|m|) { ContinueKeeps(r, num, m, i, d0, p0); }
    case DelayOver(ackOk) =>
      if r.waiting { DelayKeeps(r, num, m, ackOk, d0, p0); }
  }

  /** Whatever order, repetition and loss the packets of one message meet: nothing outside its octets of the
      buffer is written, and nothing but the message itself is ever processed. */
  lemma {:induction false} PacketsRebuildOnlyTheMessage(r: Rx, num: nat, m: seq<byte>, es: seq<Event>, d0: seq<byte>, p0: seq<seq<byte>>)
    requires Inv(r, num, m, d0, p0)
    ensures Inv(Run(r, num, m, es), num, m, d0, p0)
    decreases |es|
  {
    hide Apply, Inv;
    if es != [] {
      ApplyKeeps(r, num, m, es[0], d0, p0);
      assert RxOk(r) && 1 <= |m| by { InvBasics(r, num, m, d0, p0); }
      PacketsRebuildOnlyTheMessage(Apply(r, num, m, es[0]), num, m, es[1..], d0, p0);
    }
  }

  lemma InvBasics(r: Rx, num: nat, m: seq<byte>, d0: seq<byte>, p0: seq<seq<byte>>)
    requires Inv(r, num, m, d0, p0)
    ensures RxOk(r) && 1 <= |m| <= DATA_MAX
  {
  }

  /** A receiver ready for transaction num. */
  predicate Ready(r: Rx, num: nat) {
    RxOk(r) && r.len == 0 && !r.waiting && !r.failed && !r.fault && r.acked != num && NumAllowed(r.device, num)
  }

  lemma ReadyInv(r: Rx, num: nat, m: seq<byte>)
    requires Ready(r, num) && 1 <= |m| <= DATA_MAX
    ensures Inv(r, num, m, r.data, r.processed)
  {
  }

  // ---------- completion ----------

  function Indices(es: seq<Event>): set<nat>
    decreases |es|
  {
    if es == [] then {} else (if es[0].Arrives? then {es[0].i} else {}) + Indices(es[1..])
  }

  predicate OnlyPackets(es: seq<Event>) { forall k :: 0 <= k < |es| ==> es[k].Arrives? }

  lemma {:induction false} MissingShrinks(r: Rx, num: nat, m: seq<byte>, es: seq<Event>, d0: seq<byte>, p0: seq<seq<byte>>)
    requires Inv(r, num, m, d0, p0) && r.len != 0 && OnlyPackets(es)
    ensures var s := Run(r, num, m, es); s.len == |m| && s.missing == r.missing - Indices(es) && (s.waiting <==> s.missing == {})
    decreases |es|
  {
    if es != [] {
      OnePacket(r, num, m, es[0].i, d0, p0);
      hide Inv, Apply;
      MissingShrinks(Apply(r, num, m, es[0]), num, m, es[1..], d0, p0);
    }
  }

  lemma OnePacket(r: Rx, num: nat, m: seq<byte>, i: nat, d0: seq<byte>, p0: seq<seq<byte>>)
    requires Inv(r, num, m, d0, p0) && r.len != 0
    ensures var s := Apply(r, num, m, Arrives(i));
            Inv(s, num, m, d0, p0) && s.len == |m| && s.missing == r.missing - {i} && s.processed == r.processed
  {
    ApplyKeeps(r, num, m, Arrives(i), d0, p0);
    hide RecvStart, RecvContinue, Check, Stored;
    if i == 0 { StartKeeps(r, num, m, d0, p0); }
    else if i < SegNum(|m|) {
      ContinueKeeps(r, num, m, i, d0, p0);
      if i in r.missing { StoredKeeps(r, num, m, i); }
    }
  }

  /** A start packet followed by the continuations, in any order and with any repetitions, completes the message
      if and only if every continuation is among them. */
  lemma AnyOrderCompletes(r: Rx, num: nat, m: seq<byte>, es: seq<Event>)
    requires Ready(r, num) && 1 <= |m| <= DATA_MAX && OnlyPackets(es)
    ensures var s := Run(r, num, m, [Arrives(0)] + es);
            && (s.waiting <==> Bits(SegNum(|m|)) - {0} <= Indices(es))
            && (s.waiting ==> s.data[..|m|] == m && s.len == |m|)
  {
    ReadyInv(r, num, m);
    StartKeeps(r, num, m, r.data, r.processed);
    Tiles(|m|, 0);
    var t := Apply(r, num, m, Arrives(0));
    FirstPacket(r, num, m);
    MissingShrinks(t, num, m, es, r.data, r.processed);
    assert ([Arrives(0)] + es)[0] == Arrives(0) && ([Arrives(0)] + es)[1..] == es;
    PacketsRebuildOnlyTheMessage(t, num, m, es, r.data, r.processed);
    hide Inv, Apply;
    var s := Run(t, num, m, es);
    if s.waiting { WaitingHolds(s, num, m, r.data, r.processed); }
  }

  lemma FirstPacket(r: Rx, num: nat, m: seq<byte>)
    requires Ready(r, num) && 1 <= |m| <= DATA_MAX
    ensures var t := Apply(r, num, m, Arrives(0));
            Inv(t, num, m, r.data, r.processed) && t.len == |m| && t.missing == Bits(SegNum(|m|)) - {0}
  {
    hide Check, Stored;
    ReadyInv(r, num, m);
    StartKeeps(r, num, m, r.data, r.processed);
    Tiles(|m|, 0);
    StoredKeeps(r.(missing := Bits(SegNum(|m|)), len := |m|, num := num, lastSeg := SegNum(|m|) - 1, fcs := Check(m)), num, m, 0);
    hide RecvStart;
  }

  lemma WaitingHolds(r: Rx, num: nat, m: seq<byte>, d0: seq<byte>, p0: seq<seq<byte>>)
    requires Inv(r, num, m, d0, p0) && r.waiting
    ensures r.data[..|m|] == m && r.len == |m|
  {
    hide Check;
    AllInPlace(r.data, m, SegNum(|m|));
    Tiles(|m|, SegNum(|m|) - 1);
  }

  // ---------- processed once ----------

  lemma {:induction false} AckedIgnoresAll(r: Rx, num: nat, m: seq<byte>, es: seq<Event>)
    requires RxOk(r) && 1 <= |m| && r.acked == num && !r.waiting
    ensures Run(r, num, m, es) == r
    decreases |es|
  {
    hide Check;
    if es != [] { AckedIgnoresAll(r, num, m, es[1..]); }
  }

  function AllPackets(n: nat): (r: seq<Event>)
    ensures OnlyPackets(r)
  {
    if n == 0 then [] else AllPackets(n - 1) + [Arrives(n - 1)]
  }

  lemma {:induction false} IndicesAppend(a: seq<Event>, b: seq<Event>)
    ensures Indices(a + b) == Indices(a) + Indices(b)
    decreases |a|
  {
    if a == [] { assert a + b == b; }
    else {
      assert (a + b)[0] == a[0] && (a + b)[1..] == a[1..] + b;
      IndicesAppend(a[1..], b);
    }
  }

  lemma {:induction false} AllIndices(n: nat)
    ensures Indices(AllPackets(n)) == Bits(n)
  {
    if n > 0 {
      AllIndices(n - 1);
      IndicesAppend(AllPackets(n - 1), [Arrives(n - 1)]);
      assert Indices([Arrives(n - 1)]) == {n - 1};
    }
  }

  lemma {:induction false} RunAppend(r: Rx, num: nat, m: seq<byte>, a: seq<Event>, b: seq<Event>)
    requires RxOk(r) && 1 <= |m|
    ensures Run(r, num, m, a + b) == Run(Run(r, num, m, a), num, m, b)
    decreases |a|
  {
    hide Apply;
    if a == [] { assert a + b == b; }
    else {
      assert (a + b)[0] == a[0] && (a + b)[1..] == a[1..] + b;
      RunAppend(Apply(r, num, m, a[0]), num, m, a[1..], b);
    }
  }

  /** The whole message again, and its acknowledgement. */
  lemma SecondRound(r: Rx, num: nat, m: seq<byte>, d0: seq<byte>, p0: seq<seq<byte>>)
    requires Inv(r, num, m, d0, p0) && Ready(r, num)
    ensures var es := [Arrives(0)] + AllPackets(SegNum(|m|)) + [DelayOver(true)];
            Run(r, num, m, es).processed == r.processed + [m]
  {
    var n := SegNum(|m|);
    AllIndices(n);
    AnyOrderCompletes(r, num, m, AllPackets(n));
    ReadyInv(r, num, m);
    var a := [Arrives(0)] + AllPackets(n);
    PacketsRebuildOnlyTheMessage(r, num, m, a, r.data, r.processed);
    NothingProcessed(r, num, m, a);
    RunAppend(r, num, m, a, [DelayOver(true)]);
    var s := Run(r, num, m, a);
    DelayKeeps(s, num, m, true, r.data, r.processed);
    hide Inv, HandleDelay, Check;
    assert [DelayOver(true)][1..] == [] && Run(s, num, m, [DelayOver(true)]) == HandleDelay(s, true);
  }

  lemma {:induction false} NothingProcessed(r: Rx, num: nat, m: seq<byte>, es: seq<Event>)
    requires RxOk(r) && 1 <= |m| && OnlyPackets(es)
    ensures Run(r, num, m, es).processed == r.processed
    decreases |es|
  {
    hide Recv;
    if es != [] {
      NothingProcessed(Apply(r, num, m, es[0]), num, m, es[1..]);
    }
  }

  /** A complete message is processed when its acknowledgement is due. It is never processed again, whatever is
      sent again, if and only if the bearer took that acknowledgement. */
  lemma ProcessedOnceIffAckWasSent(r: Rx, num: nat, m: seq<byte>, ackOk: bool)
    requires RxOk(r) && 1 <= |m| <= DATA_MAX && Inv(r, num, m, r.data, r.processed) && r.waiting
    ensures var s := HandleDelay(r, ackOk);
            && s.processed == r.processed + [m]
            && ((forall es :: Run(s, num, m, es).processed == s.processed) <==> ackOk)
  {
    DelayKeeps(r, num, m, ackOk, r.data, r.processed);
    var s := HandleDelay(r, ackOk);
    if ackOk {
      forall es ensures Run(s, num, m, es).processed == s.processed { AckedIgnoresAll(s, num, m, es); }
    } else {
      hide Check, HandleDelay;
      SecondRound(s, num, m, r.data, r.processed);
      var es := [Arrives(0)] + AllPackets(SegNum(|m|)) + [DelayOver(true)];
      assert Run(s, num, m, es).processed != s.processed;
    }
  }

  // ---------- a start packet of the wrong length ----------

  /** A start packet whose header is right but whose payload has the wrong length is refused too late: its
      missing-segment bits stay, and the start packet of the next message does not reset them. That next message
      waits for exactly its own continuations if and only if it has as many segments. */
  lemma AfterBadStartCountRightIffSame(r: Rx, bad: Packet, num: nat, m: seq<byte>)
    requires Ready(r, num) && bad.Start? && r.acked != bad.num && 1 <= bad.totalLen <= DATA_MAX && 1 <= |m| <= DATA_MAX
    requires bad.lastSeg == SegNum(bad.totalLen) - 1 && |bad.data| != (if bad.lastSeg == 0 then bad.totalLen else START_MAX)
    ensures var s := RecvStart(RecvStart(r, bad), Fragment(num, m, 0));
            s.missing == Bits(SegNum(|m|)) - {0} <==> SegNum(|m|) == bad.lastSeg + 1
  {
    hide Check;
    Tiles(|m|, 0);
    var k, n := bad.lastSeg + 1, SegNum(|m|);
    var s := RecvStart(RecvStart(r, bad), Fragment(num, m, 0));
    assert s.missing == Bits(k) - {0};
    if k < n { assert n - 1 in Bits(n) - {0} && n - 1 !in Bits(k) - {0}; }
    if n < k { assert k - 1 in Bits(k) - {0} && k - 1 !in Bits(n) - {0}; }
  }

  // ---------- packets of any kind: when a write leaves the buffer ----------

  datatype Traffic = Any(p: Packet) | Due(ackOk: bool)

  function Take(r: Rx, t: Traffic): (s: Rx)
    requires RxOk(r)
    ensures RxOk(s)
  {
    match t
    case Any(p) => Recv(r, p)
    case Due(ackOk) => if r.waiting then HandleDelay(r, ackOk) else r
  }

  function TakeAll(r: Rx, ts: seq<Traffic>): (s: Rx)
    requires RxOk(r)
    ensures RxOk(s)
    decreases |ts|
  {
    if ts == [] then r else TakeAll(Take(r, ts[0]), ts[1..])
  }

  /** A message under way has the segment count of its length and a number that has not been acknowledged. */
  predicate Consistent(r: Rx) {
    RxOk(r) && (r.len != 0 ==> r.lastSeg == SegNum(r.len) - 1 && r.acked != r.num)
  }

  /** A message is under way whose start packet was not stored. */
  predicate Armed(r: Rx) { r.len != 0 && 0 in r.missing }

  /** A start packet with a right header and a payload of the wrong length, at a receiver with no message under way. */
  predicate BadStart(r: Rx, p: Packet) {
    && p.Start? && r.len == 0 && r.acked != p.num && 1 <= p.totalLen <= DATA_MAX && p.lastSeg == SegNum(p.totalLen) - 1
    && |p.data| != (if p.lastSeg == 0 then p.totalLen else START_MAX)
  }

  /** A continuation that claims to be segment 0; its offset wraps to 65533. */
  predicate ZeroContinue(r: Rx, p: Packet) {
    p.Continue? && p.index == 0 && p.num == r.num && |p.data| == (if r.lastSeg == 0 then r.len + 3 else CONTINUE_MAX)
  }

  lemma LastFits(len: nat, i: nat)
    requires 1 <= len <= DATA_MAX && 1 <= i < SegNum(len)
    ensures i < SegNum(len) - 1 ==> Offset(i) + CONTINUE_MAX <= DATA_MAX
    ensures i == SegNum(len) - 1 ==> Offset(i) + (len - START_MAX - CONTINUE_MAX * (i - 1)) % 256 <= DATA_MAX
  {
    Tiles(len, i);
  }

  /** Exactly which packet writes outside the buffer in a given state. */
  lemma FaultIff(r: Rx, p: Packet)
    requires Consistent(r) && !r.fault
    ensures Recv(r, p).fault <==> Armed(r) && ZeroContinue(r, p)
  {
    hide Check;
    if p.Continue? && r.len != 0 && p.index <= r.lastSeg && p.index > 0 { LastFits(r.len, p.index); }
  }

  lemma StoredFields(r: Rx, i: nat, off: nat, d: seq<byte>)
    requires RxOk(r)
    ensures var s := Stored(r, i, off, d);
            && s.acked == r.acked && s.num == r.num && s.lastSeg == r.lastSeg && (s.len == r.len || s.len == 0)
            && (off + |d| <= DATA_MAX ==> s.missing == r.missing - {i}) && (off + |d| > DATA_MAX ==> s == r.(fault := true))
  {
    hide Check, Splice;
  }

  lemma TakeConsistent(r: Rx, t: Traffic)
    requires Consistent(r)
    ensures Consistent(Take(r, t))
  {
    hide Check, SegNum, Stored;
    if t.Any? && t.p.Start? {
      var u := (if r.len == 0 then r.(missing := Bits(t.p.lastSeg + 1)) else r)
               .(len := t.p.totalLen, num := t.p.num, lastSeg := t.p.lastSeg, fcs := t.p.fcs);
      if RxOk(u) { StoredFields(u, 0, 0, t.p.data); }
    } else if t.Any? {
      StoredFields(r, t.p.index, Offset(t.p.index), t.p.data);
    }
  }

  /** Only a bad start arms a receiver, and every bad start does. */
  lemma ArmedIffBadStart(r: Rx, t: Traffic)
    requires Consistent(r) && !Armed(r)
    ensures Armed(Take(r, t)) <==> t.Any? && BadStart(r, t.p)
  {
    hide Check, Stored;
    if t.Any? && t.p.Start? && r.len == 0 && 1 <= t.p.totalLen <= DATA_MAX && t.p.lastSeg == SegNum(t.p.totalLen) - 1 {
      var u := r.(missing := Bits(t.p.lastSeg + 1), len := t.p.totalLen, num := t.p.num, lastSeg := t.p.lastSeg, fcs := t.p.fcs);
      Tiles(t.p.totalLen, 0);
      assert 0 in u.missing;
      StoredFields(u, 0, 0, t.p.data);
    } else if t.Any? && t.p.Continue? {
      StoredFields(r, t.p.index, Offset(t.p.index), t.p.data);
    }
  }

  predicate NoBadStart(r: Rx, ts: seq<Traffic>)
    requires RxOk(r)
    decreases |ts|
  {
    ts == [] || (!(ts[0].Any? && BadStart(r, ts[0].p)) && NoBadStart(Take(r, ts[0]), ts[1..]))
  }

  lemma {:induction false} FaultNeedsBadStart(r: Rx, ts: seq<Traffic>)
    requires Consistent(r) && !r.fault && !Armed(r) && NoBadStart(r, ts)
    ensures !TakeAll(r, ts).fault
    decreases |ts|
  {
    if ts != [] {
      TakeConsistent(r, ts[0]);
      ArmedIffBadStart(r, ts[0]);
      if ts[0].Any? { FaultIff(r, ts[0].p); }
      hide Take, Consistent, Armed, BadStart;
      FaultNeedsBadStart(Take(r, ts[0]), ts[1..]);
    }
  }

  predicate Faults(r: Rx, ts: seq<Traffic>)
    requires RxOk(r)
  {
    NoBadStart(r, ts) && TakeAll(r, ts).fault
  }

  /** Whatever packets arrive, of whatever transactions and content: without a further bad start some of them can
      make a write leave the buffer if and only if a bad start is behind. */
  lemma FaultReachableIffArmed(r: Rx)
    requires Consistent(r) && !r.fault
    ensures (exists ts :: Faults(r, ts)) <==> Armed(r)
  {
    if Armed(r) {
      var p := Continue(r.num, 0, seq(if r.lastSeg == 0 then r.len + 3 else CONTINUE_MAX, _ => 0));
      FaultIff(r, p);
      var ts := [Any(p)];
      assert ts[1..] == [] && TakeAll(r, ts) == TakeAll(Take(r, Any(p)), []);
      assert NoBadStart(Take(r, Any(p)), []);
      assert Faults(r, ts);
    } else {
      forall ts ensures !Faults(r, ts) { if NoBadStart(r, ts) { FaultNeedsBadStart(r, ts); } }
    }
  }

  /** The smallest case: a start packet announcing 30 octets in two segments with 5 octets in it, then a continuation
      numbered 0. That the next message has two segments as well does not help. */
  lemma BadStartThenZeroContinueFaults(r: Rx, num: nat, five: seq<byte>, more: seq<byte>)
    requires Ready(r, num) && |five| == 5 && |more| == CONTINUE_MAX
    ensures RecvContinue(RecvStart(r, Start(num, 1, 30, 0, five)), Continue(num, 0, more)).fault
  {
    assert SegNum(30) == 2 && 0 in Bits(2);
  }
}
