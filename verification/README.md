# OpenSprinkler client: query builders, command results and option decoders

This project models the pure logic of a TypeScript client for the
OpenSprinkler irrigation controller's HTTP API. Three parts are modelled.

- **The query builders of `OpenSprinklerClient`.** Each method turns a
  password and a typed parameter object into a flat query map of numbers
  and strings, which it then hands to the HTTP library. Each builder is a
  pure function from `(pw, params)` to `map<string, QVal>`. Optional
  TypeScript fields are `Option` values.
- **`CommandResult`.** This is the reply of every mutating call. It holds a
  sparse return-code table and its messages, with an "Unknown error"
  fallback and a success predicate.
- **`OptionsResultUtil`.** This holds the dotted-decimal rendering of an IP
  byte list, and the decoding of the two notification-enable bit masks
  into records of booleans.

Every builder is paired with a reader: the device's side, which recovers
the typed parameters from the query. Each builder also has a canonical form
of its parameters: what the builder actually tells the device, once dropped
and merged fields have been dropped or merged. For the six fixed-shape
builders (setPassword, manualStartProgram and the like) the canonical form
is the parameters themselves. For each builder the model proves three
things:

- reading the query gives back the password and the canonical parameters;
- building from the canonical parameters sends the same query;
- so two calls send the same query exactly when their passwords and
  canonical parameters agree.

The decoders are paired with their inverses. A dotted string is parsed back
into its numbers, and a record of booleans is packed back into a mask.

Modules, one per file:

| file | module | what it holds |
|---|---|---|
| wrappers.dfy | Wrappers | `Option` |
| decimal.dfy | Decimal | `toString` of integers, and a parser that inverts it |
| text.dfy | Text | `join` with a separator, and a `split` that undoes it |
| json.dfy | Json | `JSON.stringify` of nested integer arrays, and a parser |
| bits.dfy | Bits | bit strings, `&` on 32-bit words, mask tests |
| query.dfy | Query | the query vocabulary and the readers of single keys |
| client.dfy | Client | the builders, except the station-attributes one |
| station_attributes.dfy | StationAttributes | setStationNamesAndAttributesAdvanced: builder, reader, sizes |
| read_back.dfy | ReadBack | readers and canonical forms for the builders in Client |
| command_result.dfy | CommandResults | return codes, messages, `CommandResult` |
| options_result.dfy | OptionsResults | `OptionsResultUtil` and the notification records |

## Model

| member | source | states |
|---|---|---|
| Client.PasswordOnlyQuery | src/opensprinkler-client.ts:24-29 | the read-only calls send exactly `{pw}`; the same map serves getOptions (72-77), getStationNamesAndAttributes (98-103), getSpecialStationData (110-115), getStationStatus (179-184), getPrograms (258-263) and getAllAggregated (439-456) |
| Client.SetPasswordQuery | src/opensprinkler-client.ts:86-91 | the keys are exactly pw, npw and cpw, each carrying its argument |
| Client.ManualStartProgramQuery | src/opensprinkler-client.ts:240-244 | the keys are exactly pw, pid and uwt, with the arguments as given |
| Client.ProgramIndexQuery | src/opensprinkler-client.ts:320-338 | deleteProgram and moveProgramUp send exactly pw and pid |
| Client.DeleteLogDataQuery | src/opensprinkler-client.ts:413-418 | the keys are exactly pw and day; day is the number, or the string "all" |
| Client.ChangeJavascriptUrlQuery | src/opensprinkler-client.ts:426-431 | the keys are exactly pw and jsp |
| ReadBack.FixedQueriesReadBack | src/opensprinkler-client.ts:24-29 | every argument of the fixed-shape calls is read back unchanged from its query, including both forms of `day`; the calls are at 24-29, 86-91, 240-244, 320-338, 413-418 and 426-431 |
| ReadBack.SamePasswordOnlyQuery | src/opensprinkler-client.ts:24-29 | two password-only queries are equal if and only if the passwords are |
| ReadBack.SameSetPasswordQuery | src/opensprinkler-client.ts:86-91 | equal queries if and only if pw, npw and cpw all agree |
| ReadBack.SameManualStartProgramQuery | src/opensprinkler-client.ts:240-244 | equal queries if and only if pw, pid and uwt all agree |
| ReadBack.SameProgramIndexQuery | src/opensprinkler-client.ts:320-338 | equal queries if and only if pw and pid agree |
| ReadBack.SameDeleteLogDataQuery | src/opensprinkler-client.ts:413-418 | equal queries if and only if pw and day agree; a day number never collides with "all" |
| ReadBack.SameChangeJavascriptUrlQuery | src/opensprinkler-client.ts:426-431 | equal queries if and only if pw and jsp agree |
| Client.SetControllerVariablesQuery | src/opensprinkler-client.ts:50-58 | pw is always sent; en is always sent, as 1 when `en` is true and as 0 when it is false or absent |
| Client.ControllerVariablesKeys | src/opensprinkler-client.ts:50-58 | no key outside pw, en, rd, re, rsn, rbt, ap and update is ever sent |
| Client.RestartFlagsSentWhenTrue | src/opensprinkler-client.ts:52-53 | rsn and rbt are present, as 1, if and only if the flag is true; false and absent send nothing alike |
| Client.UpdateFlagsSentWhenTrue | src/opensprinkler-client.ts:57-58 | ap and update are present, as 1, if and only if the flag is true |
| Client.ControllerNumbersPassedThrough | src/opensprinkler-client.ts:55-56 | rd and re are present if and only if supplied, 0 included, with the value unchanged |
| ReadBack.CanonicalControllerVariables | src/opensprinkler-client.ts:52-58 | what the device learns: flags only as set or unset, and en always, as a boolean |
| ReadBack.ControllerVariablesReadBack | src/opensprinkler-client.ts:50-58 | reading the query gives back the password and the canonical parameters |
| ReadBack.ControllerVariablesCanonicalSendsSame | src/opensprinkler-client.ts:50-58 | canonicalising the parameters first sends the same query |
| ReadBack.SameControllerVariablesQuery | src/opensprinkler-client.ts:50-58 | two calls send equal queries if and only if their passwords and canonical parameters agree |
| StationAttributes.StationAttributesIndexKey | src/opensprinkler-client.ts:154-162 | for each of the nine letters, key `<letter><idx>` is present if and only if that map is given and has idx; it then carries that entry |
| StationAttributes.StationAttributesKeys | src/opensprinkler-client.ts:152-165 | every key sent is pw, sid, st or sd, or `<letter><digits>` naming an entry actually given; absent maps send nothing |
| StationAttributes.StationAttributesScalars | src/opensprinkler-client.ts:152-165 | pw is always sent; sid, st and sd are present if and only if supplied, with their values, and no map entry overwrites them |
| StationAttributes.StationAttributesSize | src/opensprinkler-client.ts:152-165 | the query has 1 + the sizes of the given maps + the number of supplied scalars keys, so nothing overwrites anything |
| StationAttributes.ScalarKeysAreNotIndexKeys | src/opensprinkler-client.ts:152-165 | pw, sid, st and sd do not have the letter-and-digits shape, so no map entry can land on them |
| StationAttributes.LetterIndexOfLetter | src/opensprinkler-client.ts:154-162 | the nine prefixes s, m, n, i, j, k, d, p, g are distinct |
| StationAttributes.IndexKeyInjective | src/opensprinkler-client.ts:154 | distinct indices give distinct keys under one prefix |
| StationAttributes.IndexKeyRebuilt | src/opensprinkler-client.ts:154 | a letter-and-canonical-digits key is rebuilt from its letter and index |
| StationAttributes.SpreadKeepsOthers | src/opensprinkler-client.ts:154-162 | spreading the maps leaves every key alone that is not an index key of a map still to be spread |
| StationAttributes.SpreadIndexKey | src/opensprinkler-client.ts:154-162 | after spreading, an index key of a pending map is present exactly when that map has the index, with its entry |
| StationAttributes.SpreadSize | src/opensprinkler-client.ts:154-162 | spreading adds exactly as many keys as the maps have entries |
| StationAttributes.PrefixedSize | src/opensprinkler-client.ts:154 | one spread line writes one key per entry of its map |
| StationAttributes.ReadIndexedQuery | src/opensprinkler-client.ts:154-162 | reading the keys with one prefix back out of the query gives exactly that map's entries |
| StationAttributes.StrsRoundTrip | src/opensprinkler-client.ts:154 | the names map is read back as given, and an absent one as empty |
| StationAttributes.NumsRoundTrip | src/opensprinkler-client.ts:155-162 | each numeric map is read back as given, and an absent one as empty |
| StationAttributes.CanonicalStationAttributes | src/opensprinkler-client.ts:152-165 | the canonical parameters: every map present (an absent map and an empty one send the same), scalars unchanged |
| StationAttributes.StationAttributesReadBack | src/opensprinkler-client.ts:152-165 | reading the query gives back the password and the canonical parameters |
| StationAttributes.CanonicalSendsSame | src/opensprinkler-client.ts:152-165 | leaving a map out and passing it empty send the same query |
| StationAttributes.SameStationAttributesQuery | src/opensprinkler-client.ts:152-165 | two calls send equal queries if and only if the passwords and the canonical parameters agree |
| Client.ManualStationRunQuery | src/opensprinkler-client.ts:205-216 | pw, sid and en are always sent; t exactly when en = 1 and t is supplied; ssta exactly when en = 0 and ssta is supplied; never both |
| ReadBack.CanonicalManualStationRun | src/opensprinkler-client.ts:211-216 | what the device learns: the timer only when opening, the shift flag only when closing |
| ReadBack.ManualStationRunReadBack | src/opensprinkler-client.ts:205-216 | reading the query gives back the password and the canonical parameters |
| ReadBack.ManualStationRunCanonicalSendsSame | src/opensprinkler-client.ts:205-216 | canonicalising first sends the same query |
| ReadBack.SameManualStationRunQuery | src/opensprinkler-client.ts:205-216 | equal queries if and only if the passwords and canonical parameters agree |
| Client.ChangeProgramQuery | src/opensprinkler-client.ts:290-299 | pw and pid are always sent; with en the keys are exactly {pw, pid, en}; otherwise with uwt they are exactly {pw, pid, uwt} |
| Client.ChangeProgramContent | src/opensprinkler-client.ts:300-305 | without en and uwt, the keys are pw, pid and whichever of name, v, from, to are supplied; v is the JSON text of the program tuple |
| Client.ProgramOfJson | src/opensprinkler-client.ts:285 | a JSON value is accepted as a program tuple only when it spells one |
| Client.EncodeProgram | src/opensprinkler-client.ts:302 | the program tuple's `JSON.stringify` text is a bracketed array |
| Client.ProgramRoundTrip | src/opensprinkler-client.ts:302 | the program tuple is recovered from its `JSON.stringify` text |
| ReadBack.CanonicalChangeProgram | src/opensprinkler-client.ts:296-305 | what the device learns: en alone, else uwt alone, else the content fields |
| ReadBack.ChangeProgramReadBack | src/opensprinkler-client.ts:290-305 | reading the query gives back the password and the canonical parameters |
| ReadBack.ChangeProgramContentReadBack | src/opensprinkler-client.ts:300-305 | without en and uwt, every parameter is read back as given, v through JSON parsing |
| ReadBack.ChangeProgramCanonicalSendsSame | src/opensprinkler-client.ts:290-305 | canonicalising first sends the same query |
| ReadBack.SameChangeProgramQuery | src/opensprinkler-client.ts:290-305 | equal queries if and only if the passwords and canonical parameters agree |
| Client.StartRunOnceProgramQuery | src/opensprinkler-client.ts:359-365 | pw and t (as JSON text) are always sent; cnt, int and uwt each exactly when supplied, unchanged |
| Client.EncodeDurations | src/opensprinkler-client.ts:361 | the durations' `JSON.stringify` text is a bracketed array |
| Client.DurationsRoundTrip | src/opensprinkler-client.ts:361 | the duration list is recovered from its `JSON.stringify` text |
| ReadBack.RunOnceReadBack | src/opensprinkler-client.ts:359-365 | every parameter is read back exactly as given |
| ReadBack.SameRunOnceQuery | src/opensprinkler-client.ts:359-365 | equal queries if and only if the passwords and parameters are equal |
| Client.GetLogDataQuery | src/opensprinkler-client.ts:394-398 | start, end, hist and type are each present exactly when supplied, with no exclusivity between start/end and hist |
| ReadBack.LogDataReadBack | src/opensprinkler-client.ts:394-398 | every filter is read back exactly as given |
| ReadBack.SameLogDataQuery | src/opensprinkler-client.ts:394-398 | equal queries if and only if the passwords and filters are equal |
| Client.PauseQueueQuery | src/opensprinkler-client.ts:473-478 | repl is present exactly when supplied; dur exactly when supplied without repl; never both |
| ReadBack.CanonicalPauseQueue | src/opensprinkler-client.ts:474-478 | what the device learns: dur is dropped when repl is given |
| ReadBack.PauseQueueReadBack | src/opensprinkler-client.ts:473-478 | reading the query gives back the password and the canonical parameters |
| ReadBack.SamePauseQueueQuery | src/opensprinkler-client.ts:473-478 | equal queries if and only if the passwords and canonical parameters agree |
| Query.ReadNum | src/opensprinkler-client.ts:55-56 | a number is read under a key exactly when a number was sent there |
| Query.ReadBit | src/opensprinkler-client.ts:54 | a `0 \| 1` is read exactly when 0 or 1 was sent |
| Query.ReadFlag | src/opensprinkler-client.ts:52-53 | a flag reads as set exactly when 1 was sent, and never as false |
| Decimal.NatToDecimal | src/opensprinkler-client.ts:154 | the rendering of an index is canonical decimal (no leading zeros) and denotes the index |
| Decimal.CanonicalRoundTrip | src/opensprinkler-client.ts:154 | every canonical digit string is the rendering of the number it denotes |
| Decimal.NatToDecimalInjective | src/opensprinkler-client.ts:154 | distinct numbers render differently |
| Decimal.IntToDecimal | src/result/options-result.ts:86 | `toString` of a safe integer (|x| <= 2^53): canonical digits denoting x when x >= 0; otherwise "-" followed by canonical digits denoting -x |
| Decimal.ParseIntPrefixRoundTrip | src/result/options-result.ts:86 | the parser stops exactly where a rendered integer ends and returns that integer |
| Decimal.ParseIntRoundTrip | src/result/options-result.ts:86 | every integer is parsed back from its rendering |
| Text.Join | src/result/options-result.ts:86 | the joined string starts with the first piece |
| Text.SplitJoin | src/result/options-result.ts:86 | splitting undoes joining when no piece contains the separator |
| Text.JoinCount | src/result/options-result.ts:86 | joining n separator-free pieces puts exactly n - 1 separators in |
| Json.Stringify | src/opensprinkler-client.ts:302 | the text is non-empty and starts with "[", "-" or a digit, as `JSON.stringify` of an integer or array does |
| Json.ParseStringify | src/opensprinkler-client.ts:302 | every integer-array value is parsed back from its `JSON.stringify` text |
| Json.IntArrayRoundTrip | src/opensprinkler-client.ts:361 | a list of integers is recovered from its JSON array value |
| OptionsResults.ParseIpAddress | src/result/options-result.ts:85-87 | the output splits on "." into exactly the bytes' decimal renderings, with one dot fewer than bytes; the empty list gives "" |
| OptionsResults.Renderings | src/result/options-result.ts:86 | the i-th piece is `toString` of byte i and contains no dot |
| OptionsResults.IpAddressRoundTrip | src/result/options-result.ts:85-87 | reading the dotted string back gives the byte list: nothing is lost |
| OptionsResults.FourBytesThreeDots | src/result/options-result.ts:85-87 | a four-byte address has exactly three dots |
| OptionsResults.ZeroIpAddress | src/result/options-result.ts:85-87 | [0, 0, 0, 0] renders as "0.0.0.0", with no padding |
| OptionsResults.IpAddressExample | src/result/options-result.ts:85-87 | [10, 0, 0, 1] renders as "10.0.0.1" |
| OptionsResults.ParseNotificationEvents | src/result/options-result.ts:89-100 | the eight fields, in declared order, are the low eight bits of `ife` |
| OptionsResults.NotificationFieldIsBit | src/result/options-result.ts:68-77 | field k is true if and only if bit k of `ife` is set, for k = 0..7 |
| OptionsResults.NotificationIgnoresHighBits | src/result/options-result.ts:91-98 | decoding `ife` and decoding `ife % 256` agree |
| OptionsResults.NotificationMaskRoundTrip | src/result/options-result.ts:89-100 | decoding the mask of a record gives the record back |
| OptionsResults.NotificationDecodeEncode | src/result/options-result.ts:89-100 | re-encoding a decoded mask keeps exactly its low eight bits |
| OptionsResults.NoNotifications | src/result/options-result.ts:91-98 | ife = 0 turns every event off |
| OptionsResults.AllNotifications | src/result/options-result.ts:91-98 | ife = 255 turns every event on |
| OptionsResults.NotificationExample | src/result/options-result.ts:91-98 | ife = 5 turns on exactly programScheduled and flowSensorStatusUpdate |
| OptionsResults.NotificationMasks | src/result/options-result.ts:91-98 | the masks 0x01 to 0x80 test bits 0 to 7 |
| OptionsResults.ParseExtendedNotificationEvents | src/result/options-result.ts:102-107 | stationStart and flowAlert are bits 0 and 1 of `ife2` |
| OptionsResults.ExtendedFieldIsBit | src/result/options-result.ts:79-82 | field k is true if and only if bit k of `ife2` is set, for k = 0, 1 |
| OptionsResults.ExtendedIgnoresHighBits | src/result/options-result.ts:104-105 | decoding `ife2` and decoding `ife2 % 4` agree |
| OptionsResults.ExtendedMaskRoundTrip | src/result/options-result.ts:102-107 | decoding the mask of a record gives the record back |
| OptionsResults.ExtendedDecodeEncode | src/result/options-result.ts:102-107 | re-encoding a decoded mask keeps exactly its low two bits |
| OptionsResults.ExtendedMasks | src/result/options-result.ts:104-105 | the masks 0x01 and 0x02 test bits 0 and 1 |
| Bits.MaskTest | src/result/options-result.ts:91 | `x & 2^k` on the 32-bit word is non-zero if and only if bit k of that word is set |
| Bits.UnpackPack | src/result/options-result.ts:89-100 | unpacking a packed bit string gives it back |
| Bits.PackUnpack | src/result/options-result.ts:89-100 | packing the low n bits gives the remainder modulo 2^n |
| Bits.UnpackBit | src/result/options-result.ts:91-98 | bit k is the parity of x divided by 2^k |
| CommandResults.ReturnCode.Value | src/result/command-result.ts:1-11 | every code's wire value is one of 1, 2, 3, 16, 17, 18, 19, 32 and 48 |
| CommandResults.CommandResult.IsSuccess | src/result/command-result.ts:32-34 | a reply is a success exactly when its integer is recognised as the Success code |
| CommandResults.CodeOf | src/result/command-result.ts:1-11 | the code found for a wire value has that value; no code is found for any other integer |
| CommandResults.CodeOfValue | src/result/command-result.ts:1-11 | each of the nine codes is found from its wire value, so the values are distinct |
| CommandResults.FromJson | src/result/command-result.ts:40-42 | the raw integer is stored unchanged, recognised or not |
| CommandResults.SuccessIffOne | src/result/command-result.ts:32-34 | a reply is a success if and only if its code is 1, and then says "Success" |
| CommandResults.KnownMessage | src/result/command-result.ts:36-38 | `message` of each documented code is that code's entry in the table at lines 13-23, and only Success is a success |
| CommandResults.UnknownCode | src/result/command-result.ts:36-38 | any integer outside the nine codes reads "Unknown error" and is not a success |
| CommandResults.MessageNeverEmpty | src/result/command-result.ts:36-38 | the message is never empty |
| CommandResults.MessagesDistinguishCodes | src/result/command-result.ts:13-23 | the message is "Unknown error" exactly for unknown codes, and two known codes have equal messages if and only if they are equal |
| CommandResults.MessagesInjective | src/result/command-result.ts:13-23 | distinct codes have distinct table entries |
| CommandResults.MessageIsNotUnknown | src/result/command-result.ts:13-23 | no table entry reads "Unknown error" |

## Left out

- The HTTP requests are not modelled: the `axios` calls, `async`/`Promise` plumbing and the endpoint paths (`/cv`, `/cs`, …). Each builder models only the query map the method passes.
- The read-only calls' responses are cast without any check, so there is nothing to verify in them.
- `getDebugPrintout` takes no parameters and returns the firmware's body unchanged, so there is no query to model.
- `CommandResult.fromJson` applied to a reply body is left out, because the body is network input. The model takes the decoded `{result}` record.
- The result type declarations are left out (controller variables, programs, station status, log data, station names and attributes, special station data). So are the RebootCause and WeatherErrorCode enumerations. They hold no logic.
- Query order is left out: `Object.entries` iteration order and the HTTP library's serialisation order. The query is a map.
- `Record<number, …>` indices are non-negative integers. Negative or fractional keys are left out, which `Object.entries` would render as "-1" or "1.5".
- Decimal.IntToDecimal: agrees with JavaScript's `toString` only for the safe integers, |x| <= 2^53. Above 2^53, not every integer is a JavaScript number, and `toString` prints the shortest round-trip digits padded with zeros: 2^64 prints as "18446744073709552000". The model prints the exact digits ("18446744073709551616"). From 10^21 on, JavaScript also switches to exponent form ("1e+21"). The same applies to OptionsResults.ParseIpAddress, to the `Object.entries` keys built by StationAttributes.IndexKey, and to the numbers Json.Stringify writes.
- Every numeric query value is an integer: t, dur, rd, re, pid, sid, st, cnt, the map values and the rest. Fractional JavaScript numbers, and how the HTTP library renders them, are left out.
- CommandResult is an immutable datatype. The source class has a mutable public `result` field, but nothing in the client reassigns it.
- JSON numbers are integers. Magnitudes above 2^53 are covered by the Decimal.IntToDecimal line above. Fractions, `NaN` and `Infinity` are left out. Non-integer `ife`, `ife2` and IP bytes are left out for the same reason.
- OptionsResults.ParseIpAddress: bytes are not checked against 0..255, just as the source does not check them. A negative "byte" renders with its minus sign.
- Bits.MaskTest: `&` is modelled on the low 32 bits of the integer, as ToInt32 takes them. Reading the result as signed or unsigned does not change whether it is zero, so only that is modelled.
- Client.SetControllerVariablesQuery: its own contract states only pw and en. The other keys are stated by the four lemmas after it.
- StationAttributes.StationAttributesQuery carries no contract of its own. What it sends is stated by StationAttributesIndexKey, StationAttributesKeys, StationAttributesScalars, StationAttributesSize and the read-back lemmas.
