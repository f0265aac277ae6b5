// Addresses and the per-message context handed between layers.

module Mesh {

  const SEQ_MAX: nat := 0xFFFFFF

  /** meshx_msg_ctx_t. The keys and the interface travel separately. */
  datatype MsgCtx = MsgCtx(src: nat, dst: nat, ttl: nat, ctl: bool, seg: bool, szmic: bool, akf: bool, aid: nat,
                           opcode: nat, iv: nat, sqn: nat, seqAuth: nat)

  /** Every field fits the width the context structure gives it. */
  predicate Fits(c: MsgCtx) {
    && c.src < 0x1_0000 && c.dst < 0x1_0000 && c.ttl < 128 && c.aid < 64 && c.opcode < 128
    && c.iv < 0x1_0000_0000 && c.sqn <= SEQ_MAX && c.seqAuth <= SEQ_MAX
  }

  predicate IsValidAddress(a: nat) { a != 0 && !(0xFF00 <= a <= 0xFFFB) }

  function Bit(b: bool): nat { if b then 1 else 0 }
}
