/**
 * The KL2500LED command vocabulary: every operation either builds the ASCII
 * command handed to the device port or interprets the port's answer.
 *
 * The port itself is an oracle outside the model. A command sent with a
 * prefix test is answered by `Option<string>`: `None` when no reply line
 * started with the expected prefix, `Some(p)` with the prefix stripped off
 * otherwise. Output power is counted in integer tenths (the value after the
 * `(int)(value * 10.0)` truncation) and temperature as the raw register value.
 */
module Protocol {
  import opened Wrappers
  import opened Numerals

  /** What one protocol operation hands to the port. */
  datatype Transmission =
    /** Sent and answered; the reply must start with `prefix`. */
    | Checked(command: string, prefix: string)
    /** Sent without looking at the answer. */
    | Unchecked(command: string)

  /** Memory slots for saved settings; slot numbers on the wire start at 1. */
  datatype SettingsLocation = PowerUp | M1 | M2 | M3 | M4 {
    function Ordinal(): (k: nat)
      ensures k < 5
    {
      match this
      case PowerUp => 0
      case M1 => 1
      case M2 => 2
      case M3 => 3
      case M4 => 4
    }
  }

  datatype RemoteType = Momentary | Toggle {
    function Ordinal(): (k: nat)
      ensures k < 2
    {
      match this
      case Momentary => 0
      case Toggle => 1
    }
  }

  /** Highest output power the setter transmits, in tenths. */
  const MaxTenths: nat := 1000
  /** Minimum digit count of every numeric argument field. */
  const FieldWidth: nat := 4
  /** Every command is a three-character opcode followed by its argument. */
  const OpcodeLength: nat := 3

  /**
   * The command and expected reply prefix of each getter: the opcode with
   * "?" appended (and ";" for the version queries) is sent, and the opcode
   * itself is the prefix stripped from the reply.
   */
  const FirmwareVersionQuery: Transmission := Checked("0ID?;", "0ID")
  const ProtocolVersionQuery: Transmission := Checked("0PV?;", "0PV")
  const OutputPowerQuery: Transmission := Checked("0BR?", "0BR")
  const ShutterEnableQuery: Transmission := Checked("0SH?", "0SH")
  const LockEnableQuery: Transmission := Checked("0LK?", "0LK")
  const TemperatureQuery: Transmission := Checked("0TX?", "0TX")

  // ---------------------------------------------------------------------------
  // Version strings
  // ---------------------------------------------------------------------------

  /**
   * FirmwareVersion and ProtocolVersion, the replies to `FirmwareVersionQuery`
   * and `ProtocolVersionQuery`: the reply payload, or the empty
   * string when the prefix test failed. An empty payload is therefore
   * indistinguishable from a failed exchange.
   */
  function Version(reply: Option<string>): (v: string)
    ensures reply.Some? ==> v == reply.value
    ensures v == "" <==> reply.None? || reply.value == ""
  {
    reply.GetOr("")
  }

  // ---------------------------------------------------------------------------
  // Output power
  // ---------------------------------------------------------------------------

  /** The setter's clamp: Math.Min(Math.Max(tenths, 0), 1000). */
  function ClampTenths(tenths: int): (c: nat)
    ensures c <= MaxTenths
    ensures tenths <= 0 ==> c == 0
    ensures tenths >= MaxTenths ==> c == MaxTenths
    ensures 0 <= tenths <= MaxTenths ==> c == tenths
  {
    if tenths < 0 then 0 else if tenths > MaxTenths then MaxTenths else tenths
  }

  /** The OutputPower setter: "0BR" and the clamped power as `{n:x4}`. */
  function SetOutputPower(tenths: int): (m: Transmission)
    ensures m.Unchecked?
    ensures |m.command| == OpcodeLength + FieldWidth
    ensures m.command[..OpcodeLength] == "0BR"
    ensures IsLowerNumeral(m.command[OpcodeLength..], 16)
    ensures IsNumeral(m.command[OpcodeLength..], 16)
    ensures Value(m.command[OpcodeLength..], 16) == ClampTenths(tenths)
  {
    var field := Format(ClampTenths(tenths), 16, FieldWidth);
    HexPowers();
    DigitsLength(ClampTenths(tenths), 16, FieldWidth);
    var command := "0BR" + field;
    assert command[OpcodeLength..] == field;
    Unchecked(command)
  }

  /**
   * Hexadecimal reply decoding shared by the OutputPower and
   * TemperatureCelsius getters: a failed prefix test and a payload the
   * parser rejects both give `None` (the source's NaN); otherwise the
   * payload's value read as a two's-complement 32-bit `int`.
   */
  function ReadHex(reply: Option<string>): (r: Option<int>)
    ensures r.None? <==> reply.None? || !ParsesAsHex(reply.value)
    ensures r.Some? ==> -Int32Limit <= r.value < Int32Limit
    ensures r.Some? ==> (r.value - Value(reply.value, 16)) % Word32 == 0
    ensures r.Some? && |reply.value| < MaxHexDigits ==> r.value == Value(reply.value, 16)
    ensures r.Some? ==>
      (r.value < 0 <==> |reply.value| == MaxHexDigits && CharValue(reply.value[0]).value >= 8)
  {
    match reply
    case None => None
    case Some(payload) =>
      if ParsesAsHex(payload) then
        HexSign(payload);
        TryParseHex(payload)
      else
        None
  }

  /** The OutputPower getter, in tenths: the reply to `OutputPowerQuery`. */
  function OutputPower(reply: Option<string>): (r: Option<int>)
    ensures r.None? <==> reply.None? || !ParsesAsHex(reply.value)
    ensures r.Some? ==> -Int32Limit <= r.value < Int32Limit
    ensures r.Some? ==> (r.value - Value(reply.value, 16)) % Word32 == 0
    ensures r.Some? && |reply.value| < MaxHexDigits ==> r.value == Value(reply.value, 16)
  {
    ReadHex(reply)
  }

  /** The TemperatureCelsius getter, as the raw register value: the reply to `TemperatureQuery`. */
  function TemperatureRaw(reply: Option<string>): (r: Option<int>)
    ensures r.None? <==> reply.None? || !ParsesAsHex(reply.value)
    ensures r.Some? ==> -Int32Limit <= r.value < Int32Limit
    ensures r.Some? ==> (r.value - Value(reply.value, 16)) % Word32 == 0
    ensures r.Some? && |reply.value| < MaxHexDigits ==> r.value == Value(reply.value, 16)
    ensures r.Some? ==>
      (r.value < 0 <==> |reply.value| == MaxHexDigits && CharValue(reply.value[0]).value >= 8)
  {
    ReadHex(reply)
  }

  // ---------------------------------------------------------------------------
  // Saved settings
  // ---------------------------------------------------------------------------

  /** The slot argument: ordinal + 1 as `{n:0000}`. */
  function SlotField(location: SettingsLocation): (f: string)
    ensures |f| == FieldWidth
    ensures IsNumeral(f, 10) && Value(f, 10) == location.Ordinal() + 1
  {
    DigitsLength(location.Ordinal() + 1, 10, FieldWidth);
    Format(location.Ordinal() + 1, 10, FieldWidth)
  }

  /** The two settings operations; they share the slot argument and differ in the opcode. */
  datatype SettingsAction = Save | Restore {
    function Opcode(): (op: string)
      ensures |op| == OpcodeLength
    {
      match this
      case Save => "0PS"
      case Restore => "0PR"
    }
  }

  /**
   * SaveSettings and RestoreSettings: the opcode and the slot; the command is
   * also the expected reply prefix.
   */
  function SettingsCommand(action: SettingsAction, location: SettingsLocation): (m: Transmission)
    ensures m.Checked? && m.prefix == m.command
    ensures |m.command| == OpcodeLength + FieldWidth
    ensures m.command[..OpcodeLength] == action.Opcode()
    ensures IsNumeral(m.command[OpcodeLength..], 10)
    ensures Value(m.command[OpcodeLength..], 10) == location.Ordinal() + 1
  {
    var command := action.Opcode() + SlotField(location);
    assert command[OpcodeLength..] == SlotField(location);
    assert command[..OpcodeLength] == action.Opcode();
    Checked(command, command)
  }

  function SaveSettings(location: SettingsLocation): Transmission {
    SettingsCommand(Save, location)
  }

  function RestoreSettings(location: SettingsLocation): Transmission {
    SettingsCommand(Restore, location)
  }

  /** Result of SaveSettings and RestoreSettings: whether the prefix test passed. */
  function Acknowledged(reply: Option<string>): (ok: bool)
    ensures ok <==> reply.Some?
  {
    reply.Some?
  }

  // ---------------------------------------------------------------------------
  // Shutter and lock flags
  // ---------------------------------------------------------------------------

  /** A boolean argument: 1 or 0 as `{n:0000}`. */
  function FlagField(enabled: bool): (f: string)
    ensures |f| == FieldWidth
    ensures IsNumeral(f, 10) && Value(f, 10) == (if enabled then 1 else 0)
  {
    var n := if enabled then 1 else 0;
    DigitsLength(n, 10, FieldWidth);
    Format(n, 10, FieldWidth)
  }

  /** Flag getters: set only when the prefix test passed and the payload is the "on" field. */
  function ReadFlag(reply: Option<string>): (enabled: bool)
    ensures enabled <==> reply == Some("0001")
    ensures enabled <==> reply == Some(FlagField(true))
  {
    FlagFieldValues();
    reply == Some("0001")
  }

  function SetFlag(opcode: string, enabled: bool): (m: Transmission)
    requires |opcode| == OpcodeLength
    ensures m.Unchecked? && |m.command| == OpcodeLength + FieldWidth
    ensures m.command[..OpcodeLength] == opcode
    ensures m.command[OpcodeLength..] == FlagField(enabled)
    ensures ReadFlag(Some(m.command[OpcodeLength..])) == enabled
  {
    var command := opcode + FlagField(enabled);
    assert command[OpcodeLength..] == FlagField(enabled);
    assert command[..OpcodeLength] == opcode;
    FlagFieldsDiffer();
    Unchecked(command)
  }

  /** The ShutterEnable setter; feeding its argument back to the getter yields `enabled`. */
  function SetShutterEnable(enabled: bool): (m: Transmission)
    ensures m.Unchecked? && |m.command| == OpcodeLength + FieldWidth
    ensures m.command[..OpcodeLength] == "0SH"
    ensures IsNumeral(m.command[OpcodeLength..], 10)
    ensures Value(m.command[OpcodeLength..], 10) == (if enabled then 1 else 0)
    ensures ShutterEnable(Some(m.command[OpcodeLength..])) == enabled
  {
    SetFlag("0SH", enabled)
  }

  /** The ShutterEnable getter: the reply to `ShutterEnableQuery`. */
  function ShutterEnable(reply: Option<string>): (enabled: bool)
    ensures enabled <==> reply == Some("0001")
  {
    ReadFlag(reply)
  }

  /** The LockEnable setter; feeding its argument back to the getter yields `enabled`. */
  function SetLockEnable(enabled: bool): (m: Transmission)
    ensures m.Unchecked? && |m.command| == OpcodeLength + FieldWidth
    ensures m.command[..OpcodeLength] == "0LK"
    ensures IsNumeral(m.command[OpcodeLength..], 10)
    ensures Value(m.command[OpcodeLength..], 10) == (if enabled then 1 else 0)
    ensures LockEnable(Some(m.command[OpcodeLength..])) == enabled
  {
    SetFlag("0LK", enabled)
  }

  /** The LockEnable getter: the reply to `LockEnableQuery`. */
  function LockEnable(reply: Option<string>): (enabled: bool)
    ensures enabled <==> reply == Some("0001")
  {
    ReadFlag(reply)
  }

  lemma FlagFieldValues()
    ensures FlagField(true) == "0001"
    ensures FlagField(false) == "0000"
  {
    assert Digits(1, 10) == "1";
    assert Digits(0, 10) == "0";
    assert Zeros(3) == "000";
  }

  lemma FlagFieldsDiffer()
    ensures FlagField(true) != FlagField(false)
  {
    FlagFieldValues();
  }

  // ---------------------------------------------------------------------------
  // Remote type
  // ---------------------------------------------------------------------------

  /** The RemoteType setter: "0SF" and the ordinal, used as its own expected reply prefix; the result is dropped. */
  function SetRemoteType(remote: RemoteType): (m: Transmission)
    ensures m.Checked? && m.prefix == m.command
    ensures |m.command| == OpcodeLength + FieldWidth
    ensures m.command[..OpcodeLength] == "0SF"
    ensures IsNumeral(m.command[OpcodeLength..], 10)
    ensures Value(m.command[OpcodeLength..], 10) == remote.Ordinal()
  {
    DigitsLength(remote.Ordinal(), 10, FieldWidth);
    var field := Format(remote.Ordinal(), 10, FieldWidth);
    var command := "0SF" + field;
    assert command[OpcodeLength..] == field;
    Checked(command, command)
  }
}
