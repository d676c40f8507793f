/**
 * The Suica card reader (PaSoRiSuicaReader): the two command builders, the response split into
 * data and status words, the fixed sequence of commands that reads a card, and the start/stop
 * state of the insertion monitor.
 */
module SuicaReader {
  import opened Prelude
  import opened Iso7816
  import opened Pcsc

  /** The receive buffer holds 256 data bytes plus SW1 and SW2. */
  const ReceiveSize: nat := 258
  /** Number of history records read. */
  const HistoryCount: nat := 20
  /** GET DATA, SELECT, READ, SELECT, then one READ per history record. */
  const CommandCount: nat := 24

  // ---------------------------------------------------------------------------------------------
  // Building commands

  /** The case-3 builder: header, Lc = `(byte)data.Length`, then the data copied in. */
  method CreateDataCommand(cla: byte, ins: byte, p1: byte, p2: byte, data: seq<byte>)
    returns (command: array<byte>)
    ensures command[..] == Encode(WithData(Header(cla, ins, p1, p2), data))
  {
    command := new byte[4 + 1 + |data|];
    command[0], command[1], command[2], command[3] := cla, ins, p1, p2;
    command[4] := ToByte(|data|);
    ghost var head := [cla, ins, p1, p2, ToByte(|data|)];
    for i := 0 to |data|
      invariant command[..5 + i] == head + data[..i]
    {
      command[5 + i] := data[i];
      assert command[..5 + i + 1] == command[..5 + i] + [data[i]];
    }
    assert command[..] == command[..5 + |data|];
  }

  /** The case-2 builder: header and Le = `(byte)le`. */
  method CreateLeCommand(cla: byte, ins: byte, p1: byte, p2: byte, le: int32)
    returns (command: array<byte>)
    ensures command[..] == Encode(WithLe(Header(cla, ins, p1, p2), ToByte(le)))
  {
    command := new byte[5];
    command[0], command[1], command[2], command[3] := cla, ins, p1, p2;
    command[4] := ToByte(le);
  }

  // ---------------------------------------------------------------------------------------------
  // Responses

  /** A receive buffer and the number of bytes the card returned into it. */
  datatype Response = Response(buffer: seq<byte>, length: nat)
  {
    /** The count never exceeds the buffer; the reader library guarantees it. */
    predicate Framed() {
      length <= |buffer|
    }

    /** Everything before the two status bytes, or nothing when fewer than two came back. */
    function Data(): (d: seq<byte>)
      requires Framed()
      ensures length >= 2 ==> |d| == length - 2
      ensures length < 2 ==> d == []
      ensures d <= buffer
    {
      buffer[..if length >= 2 then length - 2 else 0]
    }

    /** The first status byte, right after the data; 00 when fewer than two bytes came back. */
    function SW1(): (sw: byte)
      requires Framed()
      ensures length < 2 ==> sw == 0x00
      ensures length >= 2 ==> sw == buffer[|Data()|]
    {
      if length >= 2 then buffer[length - 2] else 0x00
    }

    /** The second status byte, right after SW1: the last byte received, or 00. */
    function SW2(): (sw: byte)
      requires Framed()
      ensures length < 2 ==> sw == 0x00
      ensures length >= 2 ==> sw == buffer[|Data()| + 1]
    {
      if length >= 2 then buffer[length - 1] else 0x00
    }

    /** Normal processing: SW1 SW2 = 90 00. */
    predicate IsSuccess(): (ok: bool)
      requires Framed()
      ensures ok <==> length >= 2 && buffer[length - 2..length] == [0x90, 0x00]
    {
      SW1() == 0x90 && SW2() == 0x00
    }
  }

  /** Transmits into a fresh 258-byte buffer; None stands for the exception the reply ends in. */
  function SendCommand(reply: Reply): (r: Option<Response>)
    ensures r.Some? ==> r.value.Framed() && |r.value.buffer| == ReceiveSize
  {
    match Received(reply, ReceiveSize)
    case None => None
    case Some(bytes) => Some(Response(ReceiveBuffer(bytes, ReceiveSize), |bytes|))
  }

  predicate Succeeded(r: Option<Response>)
    requires r.Some? ==> r.value.Framed()
  {
    r.Some? && r.value.IsSuccess()
  }

  /** A reply the reader goes on from: it fits the buffer and ends in 90 00. */
  predicate Succeeds(reply: Reply) {
    Succeeded(SendCommand(reply))
  }

  /** The data part of a successful reply. */
  function DataOf(reply: Reply): seq<byte>
    requires Succeeds(reply)
  {
    SendCommand(reply).value.Data()
  }

  /** A card answer of `payload` followed by SW1 SW2 splits back into exactly those three parts. */
  lemma FrameRoundTrip(payload: seq<byte>, sw1: byte, sw2: byte)
    requires |payload| + 2 <= ReceiveSize
    ensures var r := SendCommand(Answer(payload + [sw1, sw2]));
      && r.Some? && r.value.length == |payload| + 2
      && r.value.Data() == payload && r.value.SW1() == sw1 && r.value.SW2() == sw2
  {
    var bytes := payload + [sw1, sw2];
    var buffer := ReceiveBuffer(bytes, ReceiveSize);
    assert buffer[..|payload|] == bytes[..|payload|] == payload;
    assert buffer[|payload|] == bytes[|payload|] == sw1;
    assert buffer[|payload| + 1] == bytes[|payload| + 1] == sw2;
  }

  /** With fewer than two bytes back there is no data, both status words are 0, and no success. */
  lemma ShortResponse(r: Response)
    requires r.Framed() && r.length < 2
    ensures r.Data() == [] && r.SW1() == 0 && r.SW2() == 0 && !r.IsSuccess()
  {
  }

  // ---------------------------------------------------------------------------------------------
  // The card-read sequence

  const GetDataHeader := Header(0xFF, 0xCA, 0x00, 0x00)
  const SelectHeader := Header(0xFF, 0xA4, 0x00, 0x01)
  /** Service code 0x008B, little-endian: the balance area. */
  const AccessArea: seq<byte> := [0x8B, 0x00]
  /** Service code 0x090F, little-endian: the usage history. */
  const HistoryArea: seq<byte> := [0x0F, 0x09]

  function ReadBinary(block: byte): CommandApdu {
    WithLe(Header(0xFF, 0xB0, 0x00, block), 0x00)
  }

  /** The k-th command of a card read. */
  function CardCommand(k: nat): CommandApdu
    requires k < CommandCount
  {
    if k == 0 then WithLe(GetDataHeader, 0x00)
    else if k == 1 then WithData(SelectHeader, AccessArea)
    else if k == 2 then ReadBinary(0)
    else if k == 3 then WithData(SelectHeader, HistoryArea)
    else ReadBinary(ToByte(k - 4))
  }

  /** The bytes of the first n commands, in order. */
  function CommandBytes(n: nat): (cmds: seq<seq<byte>>)
    requires n <= CommandCount
    ensures |cmds| == n
    ensures forall k | 0 <= k < n :: cmds[k] == Encode(CardCommand(k))
  {
    seq(n, k requires 0 <= k < n => Encode(CardCommand(k)))
  }

  /** The card's reply to command k; the card gives no more replies than it is asked for. */
  function ReplyTo(replies: seq<Reply>, k: nat): Reply {
    if k < |replies| then replies[k] else Fault
  }

  /** The first command, from `from` on, whose reply does not succeed; CommandCount if none. */
  function FirstFailure(replies: seq<Reply>, from: nat): (k: nat)
    requires from <= CommandCount
    decreases CommandCount - from
    ensures from <= k <= CommandCount
    ensures forall j | from <= j < k :: Succeeds(ReplyTo(replies, j))
    ensures k < CommandCount ==> !Succeeds(ReplyTo(replies, k))
  {
    if from == CommandCount || !Succeeds(ReplyTo(replies, from)) then from
    else FirstFailure(replies, from + 1)
  }

  /** How many commands go out: up to and including the first failure. */
  function SentCount(replies: seq<Reply>): nat {
    Min(FirstFailure(replies, 0) + 1, CommandCount)
  }

  function SentCommands(replies: seq<Reply>): seq<seq<byte>> {
    CommandBytes(SentCount(replies))
  }

  /** What the SuicaRead event carries: the IDm, the balance block and the history blocks. */
  datatype SuicaRead = SuicaRead(idm: seq<byte>, accessBlock: seq<byte>, history: seq<seq<byte>>)

  /** The data of the first n history reads. */
  function HistoryBlocks(replies: seq<Reply>, n: nat): (blocks: seq<seq<byte>>)
    requires n <= HistoryCount
    requires forall j | 0 <= j < 4 + n :: Succeeds(ReplyTo(replies, j))
    ensures |blocks| == n
  {
    seq(n, i requires 0 <= i < n => DataOf(ReplyTo(replies, 4 + i)))
  }

  /** The event a card read raises: one exactly when every reply succeeds. */
  function CardEvent(replies: seq<Reply>): Option<SuicaRead> {
    if FirstFailure(replies, 0) < CommandCount then None
    else
      Some(SuicaRead(DataOf(ReplyTo(replies, 0)), DataOf(ReplyTo(replies, 2)),
                     HistoryBlocks(replies, HistoryCount)))
  }

  /** What happens on the reader for one card: connect, the commands sent, and always a disconnect. */
  function CardTrace(readerName: string, replies: seq<Reply>): seq<ReaderAction> {
    [Connect(readerName)] + Transmits(SentCommands(replies)) + [Disconnect]
  }

  /** The events one card read raises: none, or its SuicaRead. */
  function Raised(replies: seq<Reply>): seq<SuicaRead> {
    var event := CardEvent(replies);
    if event.Some? then [event.value] else []
  }

  function Transmits(cmds: seq<seq<byte>>): (actions: seq<ReaderAction>)
    ensures |actions| == |cmds|
    ensures forall k | 0 <= k < |cmds| :: actions[k] == Transmit(cmds[k])
  {
    seq(|cmds|, k requires 0 <= k < |cmds| => Transmit(cmds[k]))
  }

  /** One more command sent extends the list by that command. */
  lemma CommandBytesGrow(n: nat)
    requires n < CommandCount
    ensures CommandBytes(n + 1) == CommandBytes(n) + [Encode(CardCommand(n))]
  {
  }

  /** One more history block read extends the blocks by that block. */
  lemma HistoryBlocksGrow(replies: seq<Reply>, n: nat)
    requires n < HistoryCount
    requires forall j | 0 <= j < 5 + n :: Succeeds(ReplyTo(replies, j))
    ensures HistoryBlocks(replies, n + 1) == HistoryBlocks(replies, n) + [DataOf(ReplyTo(replies, 4 + n))]
  {
  }

  /** If replies before k succeed and reply k does not, the read stops at k. */
  lemma StopsAt(replies: seq<Reply>, k: nat)
    requires k < CommandCount
    requires forall j | 0 <= j < k :: Succeeds(ReplyTo(replies, j))
    requires !Succeeds(ReplyTo(replies, k))
    ensures FirstFailure(replies, 0) == k
    ensures SentCommands(replies) == CommandBytes(k + 1)
    ensures CardEvent(replies) == None
  {
  }

  /**
   * One card read as the handler performs it: each command is built, sent and checked in turn; the
   * first failure ends the read with no event, and only a read whose every reply succeeds yields one.
   */
  method ReadCard(replies: seq<Reply>) returns (sent: seq<seq<byte>>, event: Option<SuicaRead>)
    ensures sent == SentCommands(replies)
    ensures event == CardEvent(replies)
  {
    var ok, idm, accessBlock;
    sent, ok, idm, accessBlock := ReadHead(replies);
    if !ok {
      return sent, None;
    }
    var records;
    sent, records := ReadHistory(replies, sent);
    if records.None? {
      return sent, None;
    }
    event := Some(SuicaRead(idm, accessBlock, records.value));
  }

  /**
   * SendCommand for the k-th command of a read: the command goes out after the k before it, and
   * the card's k-th reply comes back as a response. A response that does not succeed is the
   * first failure, and the read ends there.
   */
  method Exchange(replies: seq<Reply>, k: nat, before: seq<seq<byte>>, command: array<byte>)
    returns (sent: seq<seq<byte>>, response: Option<Response>)
    requires k < CommandCount && before == CommandBytes(k) && command[..] == Encode(CardCommand(k))
    requires forall j | 0 <= j < k :: Succeeds(ReplyTo(replies, j))
    ensures response == SendCommand(ReplyTo(replies, k))
    ensures sent == CommandBytes(k + 1)
    ensures Succeeded(response) <==> FirstFailure(replies, 0) > k
    ensures !Succeeded(response) ==> sent == SentCommands(replies)
  {
    sent := before + [command[..]];
    CommandBytesGrow(k);
    response := SendCommand(ReplyTo(replies, k));
    if !Succeeded(response) {
      StopsAt(replies, k);
    }
  }

  /** The first four commands: GET DATA for the IDm, SELECT and READ the balance, SELECT the history. */
  method ReadHead(replies: seq<Reply>)
    returns (sent: seq<seq<byte>>, ok: bool, idm: seq<byte>, accessBlock: seq<byte>)
    ensures ok <==> FirstFailure(replies, 0) >= 4
    ensures !ok ==> sent == SentCommands(replies)
    ensures ok ==> sent == CommandBytes(4)
    ensures ok ==> idm == DataOf(ReplyTo(replies, 0)) && accessBlock == DataOf(ReplyTo(replies, 2))
  {
    var command := CreateLeCommand(0xFF, 0xCA, 0x00, 0x00, 0x00);
    var response;
    sent, response := Exchange(replies, 0, [], command);
    if !Succeeded(response) {
      return sent, false, [], [];
    }
    idm := response.value.Data();

    command := CreateDataCommand(0xFF, 0xA4, 0x00, 0x01, AccessArea);
    sent, response := Exchange(replies, 1, sent, command);
    if !Succeeded(response) {
      return sent, false, [], [];
    }

    command := CreateLeCommand(0xFF, 0xB0, 0x00, 0x00, 0x00);
    sent, response := Exchange(replies, 2, sent, command);
    if !Succeeded(response) {
      return sent, false, [], [];
    }
    accessBlock := response.value.Data();

    command := CreateDataCommand(0xFF, 0xA4, 0x00, 0x01, HistoryArea);
    sent, response := Exchange(replies, 3, sent, command);
    if !Succeeded(response) {
      return sent, false, [], [];
    }
    ok := true;
  }

  /** The twenty READs of the history, each stopping the read on failure; `head` is what went before. */
  method ReadHistory(replies: seq<Reply>, head: seq<seq<byte>>)
    returns (sent: seq<seq<byte>>, records: Option<seq<seq<byte>>>)
    requires FirstFailure(replies, 0) >= 4 && head == CommandBytes(4)
    ensures sent == SentCommands(replies)
    ensures records.Some? <==> FirstFailure(replies, 0) == CommandCount
    ensures records.Some? ==> records.value == HistoryBlocks(replies, HistoryCount)
  {
    sent := head;
    var blocks: seq<seq<byte>> := [];
    for i := 0 to HistoryCount
      invariant FirstFailure(replies, 0) >= 4 + i
      invariant sent == CommandBytes(4 + i)
      invariant blocks == HistoryBlocks(replies, i)
    {
      var command := CreateLeCommand(0xFF, 0xB0, 0x00, ToByte(i), 0x00);
      assert CardCommand(4 + i) == ReadBinary(ToByte(i));
      var response;
      sent, response := Exchange(replies, 4 + i, sent, command);
      if !Succeeded(response) {
        return sent, None;
      }
      HistoryBlocksGrow(replies, i);
      blocks := blocks + [response.value.Data()];
    }
    records := Some(blocks);
  }

  // ---------------------------------------------------------------------------------------------
  // Properties of the card read

  /** The event is raised exactly when all 24 replies succeed, and then it holds 20 history blocks. */
  lemma EventIffAllSucceed(replies: seq<Reply>)
    ensures CardEvent(replies).Some?
      <==> forall k | 0 <= k < CommandCount :: Succeeds(ReplyTo(replies, k))
    ensures CardEvent(replies).Some? ==> |CardEvent(replies).value.history| == HistoryCount
  {
  }

  /** The commands always go out in the same order: what is sent is a non-empty prefix of the 24. */
  lemma SentIsPrefix(replies: seq<Reply>)
    ensures var sent := SentCommands(replies);
      1 <= |sent| <= CommandCount && sent == CommandBytes(CommandCount)[..|sent|]
  {
    var sent, all := SentCommands(replies), CommandBytes(CommandCount);
    assert forall k | 0 <= k < |sent| :: all[..|sent|][k] == sent[k];
  }

  /** The fixed command bytes: GET DATA, SELECT 008B, READ, SELECT 090F, then READ block i. */
  lemma CommandOrder()
    ensures var cmds := CommandBytes(CommandCount);
      && cmds[0] == [0xFF, 0xCA, 0x00, 0x00, 0x00]
      && cmds[1] == [0xFF, 0xA4, 0x00, 0x01, 0x02, 0x8B, 0x00]
      && cmds[2] == [0xFF, 0xB0, 0x00, 0x00, 0x00]
      && cmds[3] == [0xFF, 0xA4, 0x00, 0x01, 0x02, 0x0F, 0x09]
      && forall i | 0 <= i < HistoryCount :: cmds[4 + i] == [0xFF, 0xB0, 0x00, i, 0x00]
  {
    LeLayout(GetDataHeader, 0x00);
    LeLayout(ReadBinary(0).header, 0x00);
    assert Encode(CardCommand(1)) == [0xFF, 0xA4, 0x00, 0x01, 0x02] + AccessArea;
    assert Encode(CardCommand(3)) == [0xFF, 0xA4, 0x00, 0x01, 0x02] + HistoryArea;
    forall i | 0 <= i < HistoryCount
      ensures Encode(CardCommand(4 + i)) == [0xFF, 0xB0, 0x00, i, 0x00]
    {
      LeLayout(ReadBinary(i).header, 0x00);
    }
  }

  /** Every command sent is a well-formed short APDU that decodes back to itself. */
  lemma CommandsDecode(k: nat)
    requires k < CommandCount
    ensures Decode(Encode(CardCommand(k))) == Some(CardCommand(k))
  {
    RoundTrip(CardCommand(k));
  }

  /**
   * Every card handled leaves a trace that starts with the connect, sends 1 to 24 commands and
   * ends with the only disconnect, whether the read succeeded, stopped or faulted.
   */
  lemma TraceAlwaysDisconnects(readerName: string, replies: seq<Reply>)
    ensures var t := CardTrace(readerName, replies);
      && 3 <= |t| <= CommandCount + 2
      && t[0] == Connect(readerName)
      && t[|t| - 1] == Disconnect
      && forall i | 0 <= i < |t| - 1 :: t[i] != Disconnect
  {
    var t := CardTrace(readerName, replies);
    var middle := Transmits(SentCommands(replies));
    forall i | 0 <= i < |t| - 1
      ensures t[i] != Disconnect
    {
      if i > 0 {
        assert t[i] == middle[i - 1];
      }
    }
  }

  // ---------------------------------------------------------------------------------------------
  // The reader object

  class PaSoRiSuicaReader {
    var isRunning: bool
    /** Every start and cancel of the insertion monitor. */
    var monitorLog: seq<MonitorAction>
    /** Every action on a connected card reader. */
    var trace: seq<ReaderAction>
    /** Every SuicaRead event raised. */
    var raised: seq<SuicaRead>

    constructor ()
      ensures !isRunning && monitorLog == [] && trace == [] && raised == []
    {
      isRunning := false;
      monitorLog := [];
      trace := [];
      raised := [];
    }

    /**
     * Starts monitoring the first reader; `readers` is what the PC/SC context lists. Refused when
     * already running or when there is no reader, and then nothing changes.
     */
    method Start(readers: seq<string>) returns (started: bool)
      modifies this
      ensures started == (!old(isRunning) && |readers| > 0)
      ensures isRunning == (old(isRunning) || started)
      ensures monitorLog == old(monitorLog) + (if started then [MonitorStart(readers[0])] else [])
      ensures trace == old(trace) && raised == old(raised)
    {
      if isRunning {
        return false;
      }
      if |readers| == 0 {
        return false;
      }
      monitorLog := monitorLog + [MonitorStart(readers[0])];
      isRunning := true;
      return true;
    }

    /** Cancels the monitor if it is running; does nothing otherwise. */
    method Stop()
      modifies this
      ensures !isRunning
      ensures monitorLog == old(monitorLog) + (if old(isRunning) then [MonitorCancel] else [])
      ensures trace == old(trace) && raised == old(raised)
    {
      if !isRunning {
        return;
      }
      monitorLog := monitorLog + [MonitorCancel];
      isRunning := false;
    }

    /** The insertion handler: connect, read the card, raise the event if any, always disconnect. */
    method OnCardInserted(readerName: string, replies: seq<Reply>)
      modifies this
      ensures trace == old(trace) + CardTrace(readerName, replies)
      ensures raised == old(raised) + Raised(replies)
      ensures isRunning == old(isRunning) && monitorLog == old(monitorLog)
    {
      var sent, event := ReadCard(replies);
      var actions := [Connect(readerName)] + Transmits(sent) + [Disconnect];
      assert actions == CardTrace(readerName, replies);
      trace := trace + actions;
      if event.Some? {
        raised := raised + [event.value];
      }
    }
  }
}
