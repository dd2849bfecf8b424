/** Properties relating the encoders and decoders of the KL2500LED protocol. */
module ProtocolProperties {
  import opened Wrappers
  import opened Numerals
  import opened Protocol

  /** The argument field of a seven-character command. */
  function Field(m: Transmission): string
    requires |m.command| == OpcodeLength + FieldWidth
  {
    m.command[OpcodeLength..]
  }

  /**
   * Feeding the OutputPower setter's hex field back as the getter's payload
   * yields the clamped power: nothing is lost besides the clamp.
   */
  lemma OutputPowerRoundTrip(tenths: int)
    ensures OutputPower(Some(Field(SetOutputPower(tenths)))) == Some(ClampTenths(tenths))
  {
    ShortHexParse(Field(SetOutputPower(tenths)));
  }

  /** Both clamps: every non-positive power is sent as 0x0000, every power of at least 1000 as 0x03e8. */
  lemma OutputPowerCommands(tenths: int)
    ensures tenths <= 0 ==> SetOutputPower(tenths).command == "0BR0000"
    ensures tenths >= MaxTenths ==> SetOutputPower(tenths).command == "0BR03e8"
  {
    FormatOneDigit(0, 16, FieldWidth);
    assert Zeros(3) == "000";
    Thousand();
  }

  /**
   * Each getter sends its opcode followed by "?" ("?;" for the versions) and
   * strips that opcode from the reply; the power, shutter and lock getters
   * query the opcode their setters write.
   */
  lemma QueryCommands(tenths: int, enabled: bool)
    ensures FirmwareVersionQuery.Checked?
    ensures FirmwareVersionQuery.command == FirmwareVersionQuery.prefix + "?;"
    ensures ProtocolVersionQuery.Checked?
    ensures ProtocolVersionQuery.command == ProtocolVersionQuery.prefix + "?;"
    ensures TemperatureQuery.Checked?
    ensures TemperatureQuery.command == TemperatureQuery.prefix + "?"
    ensures OutputPowerQuery.Checked?
    ensures OutputPowerQuery.command == OutputPowerQuery.prefix + "?"
    ensures OutputPowerQuery.prefix == SetOutputPower(tenths).command[..OpcodeLength]
    ensures ShutterEnableQuery.Checked?
    ensures ShutterEnableQuery.command == ShutterEnableQuery.prefix + "?"
    ensures ShutterEnableQuery.prefix == SetShutterEnable(enabled).command[..OpcodeLength]
    ensures LockEnableQuery.Checked?
    ensures LockEnableQuery.command == LockEnableQuery.prefix + "?"
    ensures LockEnableQuery.prefix == SetLockEnable(enabled).command[..OpcodeLength]
  {
    assert "0ID?;" == "0ID" + "?;";
    assert "0PV?;" == "0PV" + "?;";
    assert "0TX?" == "0TX" + "?";
    assert "0BR?" == "0BR" + "?";
    assert "0SH?" == "0SH" + "?";
    assert "0LK?" == "0LK" + "?";
  }

  /** The slot field is "000" followed by the digit ordinal + 1. */
  lemma SlotFieldDigits(location: SettingsLocation)
    ensures SlotField(location) == "000" + [Alphabet[location.Ordinal() + 1]]
  {
    FormatOneDigit(location.Ordinal() + 1, 10, FieldWidth);
    assert Zeros(3) == "000";
  }

  /** A settings command is its opcode, "000" and the single digit ordinal + 1. */
  lemma SettingsCommandDigits(action: SettingsAction, location: SettingsLocation)
    ensures SettingsCommand(action, location).command
      == action.Opcode() + "000" + [Alphabet[location.Ordinal() + 1]]
  {
    SlotFieldDigits(location);
  }

  /** The wire slot of each memory location, as a literal table. */
  function WireSlot(location: SettingsLocation): string {
    match location
    case PowerUp => "0001"
    case M1 => "0002"
    case M2 => "0003"
    case M3 => "0004"
    case M4 => "0005"
  }

  /** PowerUp..M4 are saved as "0PS0001".."0PS0005" and restored as "0PR0001".."0PR0005". */
  lemma SettingsCommandTable(location: SettingsLocation)
    ensures SaveSettings(location).command == "0PS" + WireSlot(location)
    ensures RestoreSettings(location).command == "0PR" + WireSlot(location)
  {
    SettingsCommandDigits(Save, location);
    SettingsCommandDigits(Restore, location);
    var digit := Alphabet[location.Ordinal() + 1];
    assert "000" + [digit] == WireSlot(location) by {
      match location
      case PowerUp => assert digit == '1';
      case M1 => assert digit == '2';
      case M2 => assert digit == '3';
      case M3 => assert digit == '4';
      case M4 => assert digit == '5';
    }
  }

  /** SaveSettings and RestoreSettings commands differ only in the third character. */
  lemma SaveRestoreDifferInOpcodeOnly(location: SettingsLocation)
    ensures |SaveSettings(location).command| == |RestoreSettings(location).command|
    ensures SaveSettings(location).command[2] == 'S'
    ensures RestoreSettings(location).command[2] == 'R'
    ensures forall i :: 0 <= i < |SaveSettings(location).command| && i != 2 ==>
      SaveSettings(location).command[i] == RestoreSettings(location).command[i]
  {
    var save := SaveSettings(location).command;
    var restore := RestoreSettings(location).command;
    assert save[2] == save[..OpcodeLength][2];
    assert restore[2] == restore[..OpcodeLength][2];
    assert save[OpcodeLength..] == restore[OpcodeLength..];
    forall i | 0 <= i < |save| && i != 2 ensures save[i] == restore[i] {
      if i < OpcodeLength {
        assert save[i] == save[..OpcodeLength][i];
        assert restore[i] == restore[..OpcodeLength][i];
      } else {
        assert save[i] == save[OpcodeLength..][i - OpcodeLength];
        assert restore[i] == restore[OpcodeLength..][i - OpcodeLength];
      }
    }
  }

  /** Distinct slots give distinct commands, and no save command is a restore command. */
  lemma SettingsCommandsDistinct(a: SettingsLocation, b: SettingsLocation)
    ensures SaveSettings(a).command == SaveSettings(b).command ==> a == b
    ensures RestoreSettings(a).command == RestoreSettings(b).command ==> a == b
    ensures SaveSettings(a).command != RestoreSettings(b).command
  {
    assert SaveSettings(a).command[2] != RestoreSettings(b).command[2] by {
      SaveRestoreDifferInOpcodeOnly(a);
      SaveRestoreDifferInOpcodeOnly(b);
    }
  }

  /** The flag setters transmit 0001 for true and 0000 for false. */
  lemma FlagCommandTable()
    ensures SetShutterEnable(true).command == "0SH0001"
    ensures SetShutterEnable(false).command == "0SH0000"
    ensures SetLockEnable(true).command == "0LK0001"
    ensures SetLockEnable(false).command == "0LK0000"
  {
    FlagFieldValues();
    FlagCommandSplit("0SH", true);
    FlagCommandSplit("0SH", false);
    FlagCommandSplit("0LK", true);
    FlagCommandSplit("0LK", false);
  }

  /** A flag command is its opcode followed by the flag field. */
  lemma FlagCommandSplit(opcode: string, enabled: bool)
    requires |opcode| == OpcodeLength
    ensures SetFlag(opcode, enabled).command == opcode + FlagField(enabled)
  {
    var c := SetFlag(opcode, enabled).command;
    assert c == c[..OpcodeLength] + c[OpcodeLength..];
  }

  /** A failed exchange and every payload other than 0001 read as false. */
  lemma FlagReadsFalse(reply: Option<string>)
    requires reply.None? || reply.value != "0001"
    ensures !ShutterEnable(reply) && !LockEnable(reply)
  {
    FlagFieldValues();
  }

  /** The remote-type command is "0SF000" and the single digit of the ordinal. */
  lemma RemoteTypeCommandDigits(remote: RemoteType)
    ensures SetRemoteType(remote).command == "0SF000" + [Alphabet[remote.Ordinal()]]
  {
    FormatOneDigit(remote.Ordinal(), 10, FieldWidth);
    assert Zeros(3) == "000";
  }

  /** The remote types are sent as 0000 and 0001, each used as its own expected reply prefix. */
  lemma RemoteTypeCommandTable()
    ensures SetRemoteType(Momentary) == Checked("0SF0000", "0SF0000")
    ensures SetRemoteType(Toggle) == Checked("0SF0001", "0SF0001")
  {
    RemoteTypeCommandDigits(Momentary);
    RemoteTypeCommandDigits(Toggle);
  }
}
