/**
 * The motor board's serial command line (MotorController): a speed command is the ASCII line
 * `+W <channel>,<value>\n`, assembled in a 32-byte buffer and written to the serial port.
 */
module Motor {
  import opened Prelude

  datatype MotorChannel = Motor1 | Motor2

  /** A speed command as the board reads it back from a line. */
  datatype SpeedCommand = SpeedCommand(channel: MotorChannel, value: int)

  // ASCII codes on the line.
  const Plus: byte := 0x2B
  const LetterW: byte := 0x57
  const Space: byte := 0x20
  const Comma: byte := 0x2C
  const Minus: byte := 0x2D
  const Newline: byte := 0x0A
  const Digit0: byte := 0x30
  const Digit1: byte := 0x31
  const Digit2: byte := 0x32

  /** The size of the buffer rented for one line. */
  const BufferSize: nat := 32
  /** The number starts after `+W `, the channel digit and the comma. */
  const NumberStart: nat := 5

  predicate IsDigit(b: byte) {
    0x30 <= b <= 0x39
  }

  predicate AllDigits(s: seq<byte>) {
    forall i | 0 <= i < |s| :: IsDigit(s[i])
  }

  /** The channel digit: `2` for Motor2 and `1` for everything else. */
  function ChannelByte(channel: MotorChannel): (b: byte)
    ensures b == Digit2 <==> channel == Motor2
    ensures b == Digit1 <==> channel == Motor1
  {
    match channel
    case Motor1 => Digit1
    case Motor2 => Digit2
  }

  /** The decimal digits of `n`, most significant first, with no leading zero. */
  function Digits(n: nat): (s: seq<byte>)
    decreases n
    ensures |s| >= 1 && AllDigits(s)
    ensures s[0] == Digit0 ==> n == 0
  {
    if n < 10 then [0x30 + n] else Digits(n / 10) + [0x30 + n % 10]
  }

  /** The text Utf8Formatter writes for an integer: `-` only for a negative value, then its digits. */
  function Decimal(value: int): (s: seq<byte>)
    ensures |s| >= 1 && (s[0] == Minus <==> value < 0)
    ensures forall i | 0 <= i < |s| :: s[i] != Newline
  {
    if value < 0 then [Minus] + Digits(-value) else Digits(value)
  }

  /** The line SetSpeed writes for a channel and a value. */
  function Line(channel: MotorChannel, value: int): (line: seq<byte>)
    ensures |line| >= 7 && line[|line| - 1] == Newline
    ensures forall i | 0 <= i < |line| - 1 :: line[i] != Newline
  {
    [Plus, LetterW, Space, ChannelByte(channel), Comma] + Decimal(value) + [Newline]
  }

  // ---------------------------------------------------------------------------------------------
  // Reading a line back: the inverse of Line, used to state that the encoding loses nothing.

  /** The number a non-empty run of decimal digits denotes. */
  function DigitsValue(s: seq<byte>): nat
    requires AllDigits(s)
  {
    if s == [] then 0 else DigitsValue(s[..|s| - 1]) * 10 + (s[|s| - 1] - 0x30)
  }

  function ParseDecimal(text: seq<byte>): Option<int>
  {
    if |text| >= 2 && text[0] == Minus && AllDigits(text[1..]) then Some(-(DigitsValue(text[1..]) as int))
    else if |text| >= 1 && AllDigits(text) then Some(DigitsValue(text))
    else None
  }

  function ParseLine(line: seq<byte>): Option<SpeedCommand>
  {
    if |line| < NumberStart + 2 || line[..3] != [Plus, LetterW, Space] || line[4] != Comma
      || line[|line| - 1] != Newline || (line[3] != Digit1 && line[3] != Digit2)
    then None
    else
      match ParseDecimal(line[NumberStart..|line| - 1])
      case None => None
      case Some(value) => Some(SpeedCommand(if line[3] == Digit2 then Motor2 else Motor1, value))
  }

  function Pow10(k: nat): (p: nat)
    ensures p >= 1
  {
    if k == 0 then 1 else 10 * Pow10(k - 1)
  }

  // ---------------------------------------------------------------------------------------------
  // Properties of the line

  lemma {:induction false} DigitsRoundTrip(n: nat)
    decreases n
    ensures DigitsValue(Digits(n)) == n
  {
    var s := Digits(n);
    if n >= 10 {
      DigitsRoundTrip(n / 10);
      assert s[..|s| - 1] == Digits(n / 10);
    }
  }

  /** The decimal text reads back as the value it was written from. */
  lemma DecimalRoundTrip(value: int)
    ensures ParseDecimal(Decimal(value)) == Some(value)
  {
    if value < 0 {
      DigitsRoundTrip(-value);
      assert Decimal(value)[1..] == Digits(-value);
    } else {
      DigitsRoundTrip(value);
    }
  }

  /** Every line reads back as the channel and value it was written from. */
  lemma LineRoundTrip(channel: MotorChannel, value: int)
    ensures ParseLine(Line(channel, value)) == Some(SpeedCommand(channel, value))
  {
    var line := Line(channel, value);
    assert line[NumberStart..|line| - 1] == Decimal(value);
    DecimalRoundTrip(value);
  }

  /** Distinct (channel, value) pairs give distinct lines. */
  lemma LineInjective(c1: MotorChannel, v1: int, c2: MotorChannel, v2: int)
    requires Line(c1, v1) == Line(c2, v2)
    ensures c1 == c2 && v1 == v2
  {
    LineRoundTrip(c1, v1);
    LineRoundTrip(c2, v2);
  }

  /**
   * A line is `+W `, the channel digit, `,`, the decimal text and one `\n`: 6 bytes more than the
   * number, and its only newline is the last byte.
   */
  lemma LineLayout(channel: MotorChannel, value: int)
    ensures var line := Line(channel, value);
      && |line| == NumberStart + |Decimal(value)| + 1
      && line[..NumberStart] == [0x2B, 0x57, 0x20, ChannelByte(channel), 0x2C]
      && line[NumberStart..|line| - 1] == Decimal(value)
      && line[|line| - 1] == Newline
      && forall i | 0 <= i < |line| - 1 :: line[i] != Newline
  {
    var line := Line(channel, value);
    assert line[NumberStart..|line| - 1] == Decimal(value);
    forall i | NumberStart <= i < |line| - 1
      ensures line[i] != Newline
    {
      assert line[i] == Decimal(value)[i - NumberStart];
    }
  }

  /** A number below 10^k has at most k digits. */
  lemma {:induction false} DigitsLength(n: nat, k: nat)
    requires k >= 1 && n < Pow10(k)
    decreases n
    ensures |Digits(n)| <= k
  {
    if n >= 10 {
      assert k != 1 by {
        assert Pow10(1) == 10;
      }
      DigitsLength(n / 10, k - 1);
    }
  }

  /**
   * For every 32-bit value the text has at most 11 bytes and the line at most 17, so the number
   * always fits the 27 bytes the 32-byte buffer leaves after `+W <channel>,`.
   */
  lemma LineFitsBuffer(channel: MotorChannel, value: int32)
    ensures |Decimal(value)| <= 11
    ensures |Line(channel, value)| <= 17 <= BufferSize
  {
    assert Pow10(10) == 10_000_000_000;
    var magnitude: nat := if value < 0 then -(value as int) else value;
    DigitsLength(magnitude, 10);
    LineLayout(channel, value);
  }

  /** The most negative 32-bit value gives the longest line, exactly 17 bytes. */
  lemma LongestLine(channel: MotorChannel)
    ensures |Line(channel, -0x8000_0000)| == 17
  {
    assert Digits(2147483648) == [0x32, 0x31, 0x34, 0x37, 0x34, 0x38, 0x33, 0x36, 0x34, 0x38];
    LineLayout(channel, -0x8000_0000);
  }

  // ---------------------------------------------------------------------------------------------
  // Building the line in a buffer

  /**
   * Utf8Formatter.TryFormat of an integer into `buffer[start..]`: when the text fits it is
   * written there and its length returned; otherwise nothing is reported written.
   */
  method TryFormat(value: int, buffer: array<byte>, start: nat) returns (ok: bool, bytesWritten: nat)
    requires start <= buffer.Length
    modifies buffer
    ensures ok == (|Decimal(value)| <= buffer.Length - start)
    ensures bytesWritten == if ok then |Decimal(value)| else 0
    ensures buffer[..start] == old(buffer[..start])
    ensures ok ==> buffer[start..start + bytesWritten] == Decimal(value)
  {
    var text := Decimal(value);
    if |text| > buffer.Length - start {
      return false, 0;
    }
    for i := 0 to |text|
      invariant buffer[..start] == old(buffer[..start])
      invariant buffer[start..start + i] == text[..i]
    {
      buffer[start + i] := text[i];
    }
    return true, |text|;
  }

  /** `+W `, the channel byte and the comma at the start of the buffer. */
  method WriteHeader(buffer: array<byte>, channel: MotorChannel) returns (pos: nat)
    requires buffer.Length == BufferSize
    modifies buffer
    ensures pos == NumberStart
    ensures buffer[..pos] == [Plus, LetterW, Space, ChannelByte(channel), Comma]
  {
    buffer[0], buffer[1], buffer[2] := Plus, LetterW, Space;
    pos := 3;
    buffer[pos] := ChannelByte(channel);
    pos := pos + 1;
    buffer[pos] := Comma;
    pos := pos + 1;
  }

  /** The body of SetSpeed up to the write: the line and its length in a fresh 32-byte buffer. */
  method FormatLine(channel: MotorChannel, value: int32) returns (buffer: array<byte>, pos: nat)
    ensures buffer.Length == BufferSize && pos <= buffer.Length
    ensures buffer[..pos] == Line(channel, value)
  {
    buffer := new byte[BufferSize];
    pos := WriteHeader(buffer, channel);
    ghost var header := buffer[..pos];

    LineFitsBuffer(channel, value);
    var ok, bytesWritten := TryFormat(value, buffer, pos);
    pos := pos + bytesWritten;
    ghost var text := buffer[NumberStart..pos];
    assert buffer[..pos] == header + text;

    buffer[pos] := Newline;
    pos := pos + 1;
    assert buffer[..pos] == buffer[..pos - 1] + [Newline];
  }

  /** The serial port of the motor board: whether it is open and every byte written to it. */
  class MotorController {
    var isOpen: bool
    var written: seq<byte>

    constructor ()
      ensures !isOpen && written == []
    {
      isOpen := false;
      written := [];
    }

    method Open()
      modifies this
      ensures isOpen && written == old(written)
    {
      isOpen := true;
    }

    method Close()
      modifies this
      ensures !isOpen && written == old(written)
    {
      isOpen := false;
    }

    /** Writes the speed line; on a closed port the write fails and nothing is sent. */
    method SetSpeed(channel: MotorChannel, value: int32) returns (sent: bool)
      modifies this
      ensures sent == old(isOpen) && isOpen == old(isOpen)
      ensures written == old(written) + (if sent then Line(channel, value) else [])
    {
      var buffer, pos := FormatLine(channel, value);
      if isOpen {
        written := written + buffer[..pos];
        sent := true;
      } else {
        sent := false;
      }
    }
  }
}
