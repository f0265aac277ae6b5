// Freshness of numbers, said of the 13 octets that CCM gets.

module NonceOctets {
  import opened Bytes
  import opened Mesh
  import opened TxNode
  import opened Scheduler
  import opened Messages
  import opened Freshness
  import Network
  import UpperTransport
  import opened NonceFormat

  /** A frame that the network layer can put into a packet. */
  predicate Packable(d: Draw) {
    d.use.OnAir? && Fits(d.use.ctx) && |d.use.frame| + Network.MicLen(d.use.ctx.ctl) <= Network.TRANS_PDU_MAX
  }

  /** The nonce of its packet under a network key with this NID. */
  function NetworkNonce(nid: nat, d: Draw): seq<byte>
    requires nid < 128 && Packable(d)
  {
    Network.Nonce(Network.Plaintext(nid, d.use.ctx, d.use.frame), d.use.ctx.iv)
  }

  /** An access message that has been numbered, to be segmented or whole. */
  predicate Encrypts(d: Draw) { NumbersMessage(d) && !d.use.ctx.ctl }

  lemma {:induction false} LogIsTraced(n: Node, es: seq<Step>)
    requires Initial(n) && Legal(n, es)
    ensures Traced(Exec(n, es).log)
  {
    InitialSched(n);
    RunGood(n, es);
  }

  /** Every frame of a run fits a packet. */
  lemma FramesPack(n: Node, es: seq<Step>, i: nat)
    requires Initial(n) && Legal(n, es) && i < |Exec(n, es).log| && Exec(n, es).log[i].use.OnAir?
    ensures Packable(Exec(n, es).log[i])
  {
    LogIsTraced(n, es);
    assert DrawOk(Exec(n, es).log, Exec(n, es).log[i]);
  }

  /** Over every guarded run, two frames with the same network nonce, octet for octet, under whatever keys, are one
      frame, or carry the saturated number. */
  lemma NetworkNoncesFresh(n: Node, es: seq<Step>, i: nat, j: nat, a: nat, b: nat)
    requires Initial(n) && Legal(n, es) && Guarded(n, es) && i < |Exec(n, es).log| && j < |Exec(n, es).log|
    requires var log := Exec(n, es).log;
             && log[i].use.OnAir? && log[j].use.OnAir? && a < 128 && b < 128
             && Packable(log[i]) && Packable(log[j]) && NetworkNonce(a, log[i]) == NetworkNonce(b, log[j])
    ensures i == j || Exec(n, es).log[i].sqn == SEQ_MAX
  {
    var log := Exec(n, es).log;
    LogIsTraced(n, es);
    NonceFreshness(n, es);
    assert DrawOk(log, log[i]) && DrawOk(log, log[j]);
    hide Initial, Legal, Guarded, Exec;
    SameFrameNumbers(log[i], log[j], a, b);
    assert SameNonce(log[i], log[j]) && SameNonce(log[j], log[i]);
  }

  lemma SameFrameNumbers(d: Draw, e: Draw, a: nat, b: nat)
    requires a < 128 && b < 128 && Packable(d) && Packable(e) && NetworkNonce(a, d) == NetworkNonce(b, e)
    ensures d.use.ctx.src == e.use.ctx.src && d.use.ctx.iv == e.use.ctx.iv && d.use.ctx.sqn == e.use.ctx.sqn
  {
    PlaintextNonceIs(a, d.use.ctx, d.use.frame, NetworkNonce(a, d));
    PlaintextNonceIs(b, e.use.ctx, e.use.frame, NetworkNonce(b, e));
    hide NetworkNonce, FromBE;
  }

  /** Over every guarded run, two numbered access messages with the same application or device nonce, octet for octet,
      are one message, or carry the saturated number. */
  lemma AccessNoncesFresh(n: Node, es: seq<Step>, i: nat, j: nat)
    requires Initial(n) && Legal(n, es) && Guarded(n, es) && i < |Exec(n, es).log| && j < |Exec(n, es).log|
    requires var log := Exec(n, es).log;
             && Encrypts(log[i]) && Encrypts(log[j])
             && UpperTransport.AccessNonce(log[i].use.ctx) == UpperTransport.AccessNonce(log[j].use.ctx)
    ensures i == j || Exec(n, es).log[i].sqn == SEQ_MAX
  {
    var log := Exec(n, es).log;
    LogIsTraced(n, es);
    NonceFreshness(n, es);
    assert DrawOk(log, log[i]) && DrawOk(log, log[j]);
    AccessNonceIff(log[i].use.ctx, log[j].use.ctx);
    hide Initial, Legal, Guarded, Exec;
    assert SameNonce(log[i], log[j]) && SameNonce(log[j], log[i]);
  }
}
