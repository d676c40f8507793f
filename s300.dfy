/**
 * The FeliCa card reader (PaSoRiS300Reader): one Polling command wrapped in a reader pseudo-APDU,
 * the status check on the answer, and the IDm and PMm copied out of fixed offsets of the receive
 * buffer; plus the same start/stop state of the insertion monitor as the Suica reader.
 */
module S300Reader {
  import opened Prelude
  import opened Iso7816
  import opened Pcsc
  import SuicaReader

  /** The receive buffer is 256 bytes. */
  const ResponseSize: nat := 256
  /** IDm and PMm are eight bytes each. */
  const IdLength: nat := 8
  /** Offsets of IDm and PMm in the answer. */
  const IdmOffset: nat := 1
  const PmmOffset: nat := 9

  /** FeliCa Polling: command code 00, system code FF FF (any system), request code 01, time slot 00. */
  const PollingFrame: seq<byte> := [0x00, 0xFF, 0xFF, 0x01, 0x00]
  /** The reader's pass-through instruction: CLA FF, INS FE, P1 P2 00 00. */
  const PollingHeader := Header(0xFF, 0xFE, 0x00, 0x00)

  /** What the CardDetected event carries. */
  datatype CardDetect = CardDetect(idm: seq<byte>, pmm: seq<byte>)

  // ---------------------------------------------------------------------------------------------
  // Specification

  /** The status check: at least two bytes back and the last two are 90 00. */
  predicate Accepts(response: seq<byte>, length: nat): (ok: bool)
    requires length <= |response|
    ensures ok <==> SuicaReader.Response(response, length).IsSuccess()
  {
    !(length < 2 || response[length - 2] != 0x90 || response[length - 1] != 0x00)
  }

  /** The event a reply leads to: the eight bytes at offset 1 and at offset 9 of the buffer, if accepted. */
  function Detection(reply: Reply): (r: Option<CardDetect>)
    ensures r.Some? ==> reply.Answer? && 2 <= |reply.bytes| <= ResponseSize
    ensures r.Some? ==> |r.value.idm| == IdLength && |r.value.pmm| == IdLength
  {
    match Received(reply, ResponseSize)
    case None => None
    case Some(bytes) =>
      var buffer := ReceiveBuffer(bytes, ResponseSize);
      if Accepts(buffer, |bytes|)
      then Some(CardDetect(buffer[IdmOffset..IdmOffset + IdLength], buffer[PmmOffset..PmmOffset + IdLength]))
      else None
  }

  /** The request always sent, and the reader actions around it. */
  function PollingRequest(): seq<byte> {
    Encode(WithData(PollingHeader, PollingFrame))
  }

  function CardTrace(readerName: string): seq<ReaderAction> {
    [Connect(readerName), Transmit(PollingRequest()), Disconnect]
  }

  function Raised(reply: Reply): seq<CardDetect> {
    var event := Detection(reply);
    if event.Some? then [event.value] else []
  }

  // ---------------------------------------------------------------------------------------------
  // The handler's steps

  /** The five Polling bytes, written one by one. */
  method BuildPollingCommand() returns (pollingCommand: array<byte>)
    ensures pollingCommand[..] == PollingFrame
  {
    pollingCommand := new byte[5];
    pollingCommand[0] := 0x00;
    pollingCommand[1] := 0xFF;
    pollingCommand[2] := 0xFF;
    pollingCommand[3] := 0x01;
    pollingCommand[4] := 0x00;
  }

  /** The pseudo-APDU: header FF FE 00 00, Lc = the payload length, then the payload copied in. */
  method BuildRequest(pollingCommand: array<byte>) returns (request: array<byte>)
    ensures request[..] == Encode(WithData(PollingHeader, pollingCommand[..]))
  {
    request := new byte[pollingCommand.Length + 5];
    request[0] := 0xFF;
    request[1] := 0xFE;
    request[2] := 0x00;
    request[3] := 0x00;
    request[4] := ToByte(pollingCommand.Length);
    ghost var head := [0xFF, 0xFE, 0x00, 0x00, ToByte(pollingCommand.Length)];
    for i := 0 to pollingCommand.Length
      invariant request[..5 + i] == head + pollingCommand[..i]
    {
      request[5 + i] := pollingCommand[i];
      assert request[..5 + i + 1] == request[..5 + i] + [pollingCommand[i]];
    }
    assert request[..] == request[..5 + pollingCommand.Length];
  }

  /**
   * The transmit into a receive buffer: the answer's bytes land at its start and their count is
   * returned; an answer that does not fit, or a fault, is the exception (None).
   */
  method TransmitInto(reply: Reply, response: array<byte>) returns (length: Option<nat>)
    modifies response
    ensures length.Some? <==> Received(reply, response.Length).Some?
    ensures length.Some? ==> length.value == |reply.bytes|
    ensures length.Some? ==> response[..] == reply.bytes + old(response[|reply.bytes|..])
  {
    var received := Received(reply, response.Length);
    if received.None? {
      return None;
    }
    var bytes := received.value;
    for i := 0 to |bytes|
      invariant response[..i] == bytes[..i]
      invariant response[i..] == old(response[i..])
    {
      response[i] := bytes[i];
      assert response[..i + 1] == response[..i] + [bytes[i]];
    }
    return Some(|bytes|);
  }

  /** `source.AsSpan(from, count).CopyTo(...)` into a fresh array of `count` bytes. */
  method CopySlice(source: array<byte>, from: nat, count: nat) returns (target: array<byte>)
    requires from + count <= source.Length
    ensures target[..] == source[from..from + count]
  {
    target := new byte[count];
    for i := 0 to count
      invariant target[..i] == source[from..from + i]
    {
      target[i] := source[from + i];
      assert target[..i + 1] == target[..i] + [source[from + i]];
    }
  }

  /** One card as the handler reads it: send the polling request, check the status, copy the IDs. */
  method ReadCard(reply: Reply) returns (request: seq<byte>, event: Option<CardDetect>)
    ensures request == PollingRequest()
    ensures event == Detection(reply)
  {
    var pollingCommand := BuildPollingCommand();
    var requestBytes := BuildRequest(pollingCommand);
    request := requestBytes[..];

    var response := new byte[ResponseSize](_ => 0);
    assert response[..] == Zeros(ResponseSize);
    var length := TransmitInto(reply, response);
    if length.None? {
      return request, None;
    }
    var n := length.value;
    assert response[..] == ReceiveBuffer(reply.bytes, ResponseSize);

    if n < 2 || response[n - 2] != 0x90 || response[n - 1] != 0x00 {
      return request, None;
    }

    var idm := CopySlice(response, IdmOffset, IdLength);
    var pmm := CopySlice(response, PmmOffset, IdLength);
    event := Some(CardDetect(idm[..], pmm[..]));
  }

  // ---------------------------------------------------------------------------------------------
  // Properties

  /** The request is exactly FF FE 00 00 05 00 FF FF 01 00: ten bytes, Lc = 5, the frame unchanged. */
  lemma PollingRequestBytes()
    ensures PollingRequest() == [0xFF, 0xFE, 0x00, 0x00, 0x05, 0x00, 0xFF, 0xFF, 0x01, 0x00]
    ensures |PollingRequest()| == 10
    ensures Decode(PollingRequest()) == Some(WithData(PollingHeader, PollingFrame))
  {
    RoundTrip(WithData(PollingHeader, PollingFrame));
  }

  /** An event comes exactly from an answer that fits the buffer and ends in 90 00; both IDs are 8 bytes. */
  lemma DetectIffStatus(reply: Reply)
    ensures Detection(reply).Some? <==>
      reply.Answer? && 2 <= |reply.bytes| <= ResponseSize
      && reply.bytes[|reply.bytes| - 2..] == [0x90, 0x00]
    ensures Detection(reply).Some? ==>
      |Detection(reply).value.idm| == IdLength && |Detection(reply).value.pmm| == IdLength
  {
    if reply.Answer? && 2 <= |reply.bytes| <= ResponseSize {
      var bytes := reply.bytes;
      var buffer := ReceiveBuffer(bytes, ResponseSize);
      assert buffer[|bytes| - 2] == bytes[|bytes| - 2] && buffer[|bytes| - 1] == bytes[|bytes| - 1];
      assert bytes[|bytes| - 2..] == [bytes[|bytes| - 2], bytes[|bytes| - 1]];
    }
  }

  /** A full answer (a leading byte, IDm, PMm, anything, then 90 00) yields exactly that IDm and PMm. */
  lemma FullAnswerIds(first: byte, idm: seq<byte>, pmm: seq<byte>, rest: seq<byte>)
    requires |idm| == IdLength && |pmm| == IdLength
    requires 1 + 16 + |rest| + 2 <= ResponseSize
    ensures Detection(Answer([first] + idm + pmm + rest + [0x90, 0x00])) == Some(CardDetect(idm, pmm))
  {
    var bytes := [first] + idm + pmm + rest + [0x90, 0x00];
    var buffer := ReceiveBuffer(bytes, ResponseSize);
    assert buffer[|bytes| - 2] == 0x90 && buffer[|bytes| - 1] == 0x00;
    assert buffer[IdmOffset..IdmOffset + IdLength] == bytes[1..9] == idm;
    assert buffer[PmmOffset..PmmOffset + IdLength] == bytes[9..17] == pmm;
  }

  /**
   * There is no check that the answer is long enough to hold the IDs: a bare 90 00 is accepted,
   * and IDm and PMm are then read from the zero-filled rest of the buffer.
   */
  lemma BareStatusAccepted()
    ensures Detection(Answer([0x90, 0x00])) == Some(CardDetect(Zeros(IdLength), Zeros(IdLength)))
  {
    var buffer := ReceiveBuffer([0x90, 0x00], ResponseSize);
    assert buffer[IdmOffset..IdmOffset + IdLength] == Zeros(IdLength);
    assert buffer[PmmOffset..PmmOffset + IdLength] == Zeros(IdLength);
  }

  // ---------------------------------------------------------------------------------------------
  // The reader object

  class PaSoRiS300Reader {
    var isRunning: bool
    /** Every start and cancel of the insertion monitor. */
    var monitorLog: seq<MonitorAction>
    /** Every action on a connected card reader. */
    var trace: seq<ReaderAction>
    /** Every CardDetected event raised. */
    var raised: seq<CardDetect>

    constructor ()
      ensures !isRunning && monitorLog == [] && trace == [] && raised == []
    {
      isRunning := false;
      monitorLog := [];
      trace := [];
      raised := [];
    }

    /**
     * Starts monitoring the first reader; `readers` is what the PC/SC context lists. Refused when
     * already running or when there is no reader, and then nothing changes.
     */
    method Start(readers: seq<string>) returns (started: bool)
      modifies this
      ensures started == (!old(isRunning) && |readers| > 0)
      ensures isRunning == (old(isRunning) || started)
      ensures monitorLog == old(monitorLog) + (if started then [MonitorStart(readers[0])] else [])
      ensures trace == old(trace) && raised == old(raised)
    {
      if isRunning {
        return false;
      }
      if |readers| == 0 {
        return false;
      }
      monitorLog := monitorLog + [MonitorStart(readers[0])];
      isRunning := true;
      return true;
    }

    /** Cancels the monitor if it is running; does nothing otherwise. */
    method Stop()
      modifies this
      ensures !isRunning
      ensures monitorLog == old(monitorLog) + (if old(isRunning) then [MonitorCancel] else [])
      ensures trace == old(trace) && raised == old(raised)
    {
      if !isRunning {
        return;
      }
      monitorLog := monitorLog + [MonitorCancel];
      isRunning := false;
    }

    /** The insertion handler: connect, poll, raise the event if accepted, always disconnect. */
    method OnCardInserted(readerName: string, reply: Reply)
      modifies this
      ensures trace == old(trace) + CardTrace(readerName)
      ensures raised == old(raised) + Raised(reply)
      ensures isRunning == old(isRunning) && monitorLog == old(monitorLog)
    {
      var request, event := ReadCard(reply);
      trace := trace + [Connect(readerName), Transmit(request), Disconnect];
      if event.Some? {
        raised := raised + [event.value];
      }
    }
  }
}
