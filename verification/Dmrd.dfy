/** The DMRD packet that all parts of the bridge exchange. */
module Dmrd {
  import opened LinkControl

  datatype Packet = Packet(
    seqNo: nat, src: Id, dst: Id, repeater: nat, slot: bool, groupCall: bool,
    frameType: nat, dtypeOrVSeq: nat, streamId: nat, dmrData: seq<bv8>)

  /** A data-sync frame of type "terminator with link control". */
  predicate IsTerminator(p: Packet) {
    p.frameType == 2 && p.dtypeOrVSeq == 2
  }
}
