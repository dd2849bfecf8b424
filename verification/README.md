# KL2500LED command codec

A model of the SCHOTT KL2500LED light source's command vocabulary, the
`Protocol` class. Every operation of that class either builds the short ASCII
command that goes to the device port or interprets the port's answer:

- queries: a three-character opcode followed by `?` (`0BR?`, `0SH?`, `0LK?`,
  `0TX?`) or `?;` (`0ID?;`, `0PV?;`), whose reply is expected to start with
  that opcode;
- setters and settings commands: an opcode (`0BR` output power, `0PS`/`0PR`
  save/restore settings, `0SH` shutter, `0LK` lock, `0SF` remote type)
  followed by a four-digit argument field;
- arguments written with the .NET formats `{n:x4}` (lower-case hexadecimal,
  at least four digits) and `{n:0000}` (decimal, at least four digits);
- replies read back with `int.TryParse(..., NumberStyles.HexNumber, ...)`, by
  exact comparison with `"0001"`, or taken verbatim.

The device port is an oracle outside the model. A command that the source
sends with a prefix test is answered by an `Option<string>`: `None` when the
prefix test failed and `Some(p)` with the stripped payload otherwise. A setter
returns the `Transmission` it hands to the port: `Checked(command, prefix)`
for a send checked against a reply prefix, `Unchecked(command)` for a send whose answer is
ignored. Output power is counted in integer tenths, the value after the
source's `(int)(value * 10.0)` truncation, and temperature is the raw register
value, so no floating point enters the model; `None` stands for the source's
`Double.NaN`.

Files:

- `wrappers.dfy` — `Option`.
- `numerals.dfy` — module `Numerals`: digit strings in bases 2..16, the
  zero-padded formats, and the 32-bit hexadecimal parser with two's-complement
  wrap-around.
- `protocol.dfy` — module `Protocol`: the queries, setters and reply decoders.
- `properties.dfy` — module `ProtocolProperties`: round trips, command tables
  and distinctness of the commands.

The result of SaveSettings and RestoreSettings is `Protocol.Acknowledged`,
which is exactly whether the prefix test passed; the RemoteType setter builds
the same kind of self-prefixed command and drops the result.

## Model

| member | source | states |
|---|---|---|
| Numerals.Format | SCHOTT/KL2500LED/Communication/Protocol.cs:52 | `{n:x4}` / `{n:0000}`: a numeral of only lower-case digits of the base, whose value is n, padded with leading zeros to the width and never truncated |
| Numerals.TryParseHex | SCHOTT/KL2500LED/Communication/Protocol.cs:47 | hex parsing succeeds exactly on one to eight hex digits of either case; the result is a 32-bit int congruent to the numeral's value modulo 2^32 |
| Numerals.HexSign | SCHOTT/KL2500LED/Communication/Protocol.cs:157 | a parsed value is negative exactly when all eight digits are present and the leading digit is 8..f |
| Numerals.HexFormatRoundTrip | SCHOTT/KL2500LED/Communication/Protocol.cs:47-52 | every value below 16^4 formats as exactly four hex digits and parses back to itself |
| Protocol.Version | SCHOTT/KL2500LED/Communication/Protocol.cs:30-35 | FirmwareVersion/ProtocolVersion return the payload on a passed prefix test; the result is empty exactly when the test failed or the payload itself was empty |
| Protocol.ClampTenths | SCHOTT/KL2500LED/Communication/Protocol.cs:52 | the clamped power lies in 0..1000, is the input when already in range, 0 below and 1000 above |
| Protocol.SetOutputPower | SCHOTT/KL2500LED/Communication/Protocol.cs:52 | the setter sends, without a prefix test, "0BR" and exactly four lower-case hex digits whose value is the clamped power |
| Protocol.ReadHex | SCHOTT/KL2500LED/Communication/Protocol.cs:47-48 | shared hex decoding: `None` exactly when the prefix test failed or the payload is not 1..8 hex digits; otherwise a 32-bit value congruent to the payload's hex value modulo 2^32, equal to it below eight digits, and negative exactly for eight digits led by 8..f |
| Protocol.OutputPower | SCHOTT/KL2500LED/Communication/Protocol.cs:44-50 | the getter fails exactly when the prefix test fails or the payload is not 1..8 hex digits; otherwise the payload's hex value as a two's-complement 32-bit int (the plain hex value below eight digits), in tenths |
| Protocol.TemperatureRaw | SCHOTT/KL2500LED/Communication/Protocol.cs:154-160 | the temperature getter fails on the same two conditions; otherwise the payload's hex value as a two's-complement 32-bit int, negative exactly for eight digits led by 8..f |
| Protocol.SlotField | SCHOTT/KL2500LED/Communication/Protocol.cs:74 | the slot argument is four decimal digits whose value is the location's ordinal plus one |
| Protocol.SettingsCommand | SCHOTT/KL2500LED/Communication/Protocol.cs:72-85 | SaveSettings ("0PS") and RestoreSettings ("0PR"): the opcode and four decimal digits of ordinal + 1, sent with the command itself as the expected reply prefix |
| Protocol.Acknowledged | SCHOTT/KL2500LED/Communication/Protocol.cs:72-85 | the result of SaveSettings and RestoreSettings is exactly whether the prefix test passed; the payload is discarded |
| Protocol.FlagField | SCHOTT/KL2500LED/Communication/Protocol.cs:99 | a boolean argument is four decimal digits with value 1 for true and 0 for false |
| Protocol.ReadFlag | SCHOTT/KL2500LED/Communication/Protocol.cs:94-97 | a flag reads true only after a passed prefix test, and exactly when the payload is the setter's field for true |
| Protocol.SetFlag | SCHOTT/KL2500LED/Communication/Protocol.cs:99 | a flag setter sends, without a prefix test, the opcode followed by exactly the flag field ("0001" for true, "0000" for false), which the flag getter reads back as the value set |
| Protocol.SetShutterEnable | SCHOTT/KL2500LED/Communication/Protocol.cs:90-100 | the shutter setter sends "0SH" and four decimal digits of value 1 for true and 0 for false, which the shutter getter reads back as the value set |
| Protocol.ShutterEnable | SCHOTT/KL2500LED/Communication/Protocol.cs:92-97 | the shutter getter is true exactly when the prefix test passed and the payload is "0001" |
| Protocol.SetLockEnable | SCHOTT/KL2500LED/Communication/Protocol.cs:105-115 | the lock setter sends "0LK" and four decimal digits of value 1 for true and 0 for false, which the lock getter reads back as the value set |
| Protocol.LockEnable | SCHOTT/KL2500LED/Communication/Protocol.cs:107-112 | the lock getter is true exactly when the prefix test passed and the payload is "0001" |
| Protocol.SetRemoteType | SCHOTT/KL2500LED/Communication/Protocol.cs:140-144 | "0SF" and four decimal digits of the enum ordinal, with the command itself as the expected prefix |
| ProtocolProperties.OutputPowerRoundTrip | SCHOTT/KL2500LED/Communication/Protocol.cs:47-52 | the setter's hex field, fed back as the getter's payload, reads as the clamped power |
| ProtocolProperties.OutputPowerCommands | SCHOTT/KL2500LED/Communication/Protocol.cs:52 | every power of at most 0 is sent as "0BR0000" and every power of at least 1000 as "0BR03e8" |
| ProtocolProperties.QueryCommands | SCHOTT/KL2500LED/Communication/Protocol.cs:30-154 | every getter query is checked, its command is the expected prefix followed by "?" ("?;" for the two version queries), and the power, shutter and lock queries use the opcode their setters write |
| ProtocolProperties.SlotFieldDigits | SCHOTT/KL2500LED/Communication/Protocol.cs:74 | every slot field is "000" followed by the single digit ordinal + 1 |
| ProtocolProperties.SettingsCommandDigits | SCHOTT/KL2500LED/Communication/Protocol.cs:74-83 | every settings command is its opcode, "000" and the single digit ordinal + 1 |
| ProtocolProperties.SettingsCommandTable | SCHOTT/KL2500LED/Communication/Protocol.cs:58-85 | for every location, saving sends "0PS" and restoring "0PR" followed by the wire slot "0001".."0005" (PowerUp..M4) |
| ProtocolProperties.SaveRestoreDifferInOpcodeOnly | SCHOTT/KL2500LED/Communication/Protocol.cs:72-85 | for one location the save and restore commands have equal length and differ only in the third character, S against R |
| ProtocolProperties.SettingsCommandsDistinct | SCHOTT/KL2500LED/Communication/Protocol.cs:72-85 | distinct locations give distinct save (and restore) commands, and no save command equals a restore command |
| ProtocolProperties.FlagCommandTable | SCHOTT/KL2500LED/Communication/Protocol.cs:90-115 | shutter and lock send "0SH0001"/"0LK0001" for true and "0SH0000"/"0LK0000" for false |
| ProtocolProperties.FlagReadsFalse | SCHOTT/KL2500LED/Communication/Protocol.cs:94-112 | a failed prefix test and every payload other than "0001" read as false for both flags |
| ProtocolProperties.RemoteTypeCommandDigits | SCHOTT/KL2500LED/Communication/Protocol.cs:142 | the remote-type command is "0SF000" followed by the single digit of the enum ordinal |
| ProtocolProperties.RemoteTypeCommandTable | SCHOTT/KL2500LED/Communication/Protocol.cs:120-144 | Momentary is sent as "0SF0000" and Toggle as "0SF0001", each used as its own expected reply prefix |

## Left out

- The RemoteType getter (Protocol.cs:135-138): it relies on a port call that strips the prefix without a test and on `Enum.Parse`, including its exceptions, which are .NET library behaviour.
- The device port (`ITextProtocol`): line framing, terminators, timeouts and buffering are not part of this model; a reply is an injected `Option<string>`. The echo flag and the positional `true` arguments passed to the port, whose meaning is not visible in Protocol.cs, are dropped.
- Floating point: the `* 0.1`, `* 0.0625 - 273.15` and `(int)(value * 10.0)` conversions and `Double.NaN`; power is in integer tenths after truncation, temperature is the raw value, and NaN is `None`.
- `KL2500LEDComPort` and `KL2500LEDThreadedComPort`: port discovery, the handshake (`0ID?` answered by `0IDKL 2500 LED V`, `;` terminated, 250 ms), the threaded connection supervisor and the closing worker live in base classes that are not part of this model.
- Numerals.TryParseHex: leading and trailing white space, trailing NUL characters, and numerals longer than eight characters that begin with zeros, are rejected by the model; the .NET parser may accept them.
- Numerals.Format: defined for non-negative values only; every named enum member and the clamped power give a value of at least zero.
- SettingsLocation and RemoteType: modelled as their named members only. C# enums are open, so the source also accepts casts of other integers: a location cast from 9999 sends "0PS10000" (eight characters), and negative casts send a signed field such as "0PS-0002"; the model's seven-character command contracts do not cover these.
