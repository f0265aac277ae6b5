// The PB-ADV device structure (mesh/provision/meshx_pb_adv.c) and the receive routines that change it in place,
// each proved to do what the step function of PbAdv says.

module PbAdvDevice {
  import opened Bytes
  import opened PbAdv

  class Device {
    const device: bool
    var failed: bool
    var ackedTransNum: nat
    var rxTransNum: nat
    var lastSegNum: nat
    var fcs: bv8
    var recvSeg: set<nat>
    var transDataLen: nat
    const data: array<byte>
    var ackDelay: bool
    ghost var fault: bool
    ghost var processed: seq<seq<byte>>

    ghost predicate Valid()
      reads this
    {
      data.Length == DATA_MAX && transDataLen <= DATA_MAX
    }

    ghost function Abs(): (r: Rx)
      requires Valid()
      reads this, data
      ensures RxOk(r)
    {
      Rx(device, failed, ackedTransNum, rxTransNum, lastSegNum, fcs, recvSeg, transDataLen, data[..], ackDelay, fault, processed)
    }

    /** The state after a link has been opened. */
    constructor (device: bool)
      ensures Valid() && fresh(data) && this.device == device
      ensures forall num :: NumAllowed(device, num) ==> Ready(Abs(), num)
      ensures Abs().processed == []
    {
      this.device, failed := device, false;
      ackedTransNum := if device then 0xFF else 0;
      rxTransNum, lastSegNum, fcs, recvSeg, transDataLen := 0, 0, 0, {}, 0;
      data := new byte[DATA_MAX](_ => 0);
      ackDelay, fault, processed := false, false, [];
    }

    /** meshx_pb_adv_recv_prov_pdu; the acknowledgement timer is started instead of the PDU being processed. */
    method RecvProvPdu()
      requires Valid()
      modifies this
      ensures Valid() && data[..] == old(data[..]) && Abs() == Complete(old(Abs()))
    {
      hide Check;
      if failed { return; }
      var sum := Check(data[..transDataLen]);
      assert data[..transDataLen] == data[..][..transDataLen];
      if sum != fcs { transDataLen := 0; return; }
      ackDelay := true;
    }

    method StoreSegment(i: nat, off: nat, d: seq<byte>)
      requires Valid() && off + |d| <= DATA_MAX
      modifies this, data
      ensures Valid() && Abs() == Stored(old(Abs()), i, off, d)
    {
      hide Complete;
      recvSeg := recvSeg - {i};
      forall k | 0 <= k < |d| { data[off + k] := d[k]; }
      assert data[..] == Splice(old(data[..]), off, d);
      if recvSeg == {} { RecvProvPdu(); }
    }

    method RecvTransStart(p: Packet) returns (ok: bool)
      requires Valid() && p.Start?
      modifies this, data
      ensures Valid() && Abs() == RecvStart(old(Abs()), p)
    {
      hide Stored, SegNum;
      if ackedTransNum == p.num { return true; }
      if p.totalLen == 0 || p.totalLen > 65 { return false; }
      if SegNum(p.totalLen) - 1 != p.lastSeg { return false; }
      if transDataLen == 0 { MarkAll(p.lastSeg); }
      if 0 !in recvSeg { return false; }
      transDataLen := p.totalLen;
      rxTransNum := p.num;
      lastSegNum := p.lastSeg;
      fcs := p.fcs;
      if p.lastSeg == 0 {
        if |p.data| != transDataLen { return false; }
      } else {
        if |p.data| != 20 { return false; }
      }
      assert |p.data| <= DATA_MAX;
      StoreSegment(0, 0, p.data);
      ok := true;
    }

    method MarkAll(lastSeg: nat)
      modifies this`recvSeg
      ensures recvSeg == Bits(lastSeg + 1)
    {
      recvSeg := {};
      var i := 0;
      while i <= lastSeg
        invariant i <= lastSeg + 1 && recvSeg == Bits(i)
      {
        recvSeg := recvSeg + {i};
        i := i + 1;
      }
    }

    /** For a continuation numbered 0 the C code writes far outside the buffer; PbAdv.FaultIff says when one gets here. */
    method RecvTransContinue(p: Packet) returns (ok: bool)
      requires Valid() && p.Continue?
      modifies this, data
      ensures Valid() && Abs() == RecvContinue(old(Abs()), p)
    {
      hide Stored;
      if ackedTransNum == p.num { return true; }
      if rxTransNum != p.num { return false; }
      if transDataLen == 0 { return false; }
      if p.index > lastSegNum { return false; }
      if p.index !in recvSeg { return false; }
      if p.index < lastSegNum {
        if |p.data| != 23 { return false; }
      } else {
        var requiredLen := (transDataLen - 20 - 23 * (lastSegNum - 1)) % 256;
        if |p.data| != requiredLen { return false; }
      }
      if p.index == 0 {
        fault := true;
        return false;
      }
      if Offset(p.index) + |p.data| > DATA_MAX {
        OutsideBuffer(Abs(), p.index, p.data);
        fault := true;
        return false;
      }
      StoreSegment(p.index, 20 + 23 * (p.index - 1), p.data);
      ok := true;
    }

    /** meshx_pb_adv_handle_delay, transaction acknowledgement. */
    method HandleTransAckDelay(ackOk: bool)
      requires Valid()
      modifies this
      ensures Valid() && data[..] == old(data[..]) && Abs() == HandleDelay(old(Abs()), ackOk)
    {
      if ackOk { ackedTransNum := rxTransNum; }
      ackDelay := false;
      var dataLen := transDataLen;
      transDataLen := 0;
      if device {
        if !(rxTransNum <= 0x7F) { failed := true; return; }
      } else {
        if !(0x80 <= rxTransNum <= 0xFF) { failed := true; return; }
      }
      assert data[..dataLen] == data[..][..dataLen];
      processed := processed + [data[..dataLen]];
    }
  }

  lemma OutsideBuffer(r: Rx, i: nat, d: seq<byte>)
    requires RxOk(r) && Offset(i) + |d| > DATA_MAX
    ensures Stored(r, i, Offset(i), d) == r.(fault := true)
  {
  }
}
