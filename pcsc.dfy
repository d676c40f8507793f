/**
 * The PC/SC side both card readers talk to, reduced to what the readers observe: the reply to a
 * transmitted command, the zero-filled receive buffer the reply lands in, and the actions taken on
 * the card reader and on the insertion monitor.
 */
module Pcsc {
  import opened Prelude

  /**
   * What a transmit yields: the bytes the card answered, or a fault (the reader library throws,
   * for example when the card is removed or the answer does not fit the receive buffer).
   */
  datatype Reply = Answer(bytes: seq<byte>) | Fault

  /** An action on the connected card reader, in the order the reader takes them. */
  datatype ReaderAction = Connect(readerName: string) | Transmit(command: seq<byte>) | Disconnect

  /** An action on the card-insertion monitor. */
  datatype MonitorAction = MonitorStart(readerName: string) | MonitorCancel

  /** A freshly allocated receive buffer of `size` bytes after `bytes` have been received into it. */
  function ReceiveBuffer(bytes: seq<byte>, size: nat): (buffer: seq<byte>)
    requires |bytes| <= size
    ensures |buffer| == size
    ensures buffer[..|bytes|] == bytes
    ensures forall i | |bytes| <= i < size :: buffer[i] == 0
  {
    bytes + Zeros(size - |bytes|)
  }

  /** The reply, if any, that fits a receive buffer of `size` bytes; anything else ends in an exception. */
  function Received(reply: Reply, size: nat): (r: Option<seq<byte>>)
    ensures r.Some? <==> reply.Answer? && |reply.bytes| <= size
    ensures r.Some? ==> r.value == reply.bytes
  {
    match reply
    case Answer(bytes) => if |bytes| <= size then Some(bytes) else None
    case Fault => None
  }
}
