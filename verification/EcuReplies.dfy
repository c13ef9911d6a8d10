/** One module's answer to one request (simulator/src/vehicle.rs, `EcuReply`). */
module EcuReplies {
  import opened Hex
  import opened Can

  datatype EcuReply = EcuReply(responseId: nat, payload: seq<Byte>)
  {
    function Id(): CanId {
      if responseId > 0x7FF then Extended(responseId) else Standard(responseId)
    }

    function Address(): string {
      Id().ToHex()
    }
  }
}
