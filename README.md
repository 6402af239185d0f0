# CN105 receive path, modelled in Dafny

This project models the receive side of `CN105Climate`, the ESPHome component that talks to
Mitsubishi heat pumps over their CN105 serial connector. It has three parts.

- **Frame decoder.** It works one byte at a time, in place, on the fixed receive buffer
  `storedInputData`.
  - Its cursor is `foundStart`, `bytesRead`, `dataLength` and `command`.
  - A frame is a 5-byte header `[sync, command, idHi, idLo, length]`, `length` payload bytes
    and a checksum byte equal to `(0xFC - sum of the preceding bytes) mod 256`.
- **Dispatcher.** It routes a frame whose checksum matches.
  - By command: acknowledgement 0x61, data 0x62, handshake reply 0x7A.
  - A data frame by sub-type: settings 0x02, room temperature 0x03, status 0x06, function
    blocks 0x20/0x22.
- **Settings reconciliation.** It resolves three sources against each other: the
  locally wanted settings and the bookkeeping of their pending request, the unit's
  acknowledgements, and the settings the unit reports, which the infrared remote may have
  changed.

Files:

- `heatpump.dfy` (module `Heatpump`):
  - the value types: bytes, the setting enumerations that replace the C strings of the
    value maps, and the settings, wanted-settings, status and function records;
  - the byte-to-value tables, as an abstract `ValueMaps`.
- `framestream.dfy` (module `FrameStream`):
  - the frame format and checksum;
  - `Split`: the frames a whole byte stream contains and the partial frame at its end;
  - `Step`: the same, one byte at a time;
  - lemmas proving the two agree, which makes the result independent of how the transport
    chunks the stream.
- `decode.dfy` (module `Decode`): the field decoding of settings and room temperature frames
  (iSee offset, the `b - 128` half-degree encoding, the nibbles of `data[10]`).
- `reconcile.dfy` (module `Reconcile`):
  - `SessionState`: everything the receive path updates;
  - one pure function per operation (`AfterAck`, `HeatpumpUpdated`, `OnData`, `Dispatch`,
    `OnFrame`, ...);
  - the reconciliation properties, proved about those functions.
- `climatemodes.dfy` (module `ClimateModes`): the mappings from unit settings to the climate
  entity's mode, fan mode and swing mode.
- `cn105.dfy` (module `CN105`): the class `CN105Climate`.
  - It holds the buffer as an `array<byte>`, the cursor and session as fields, and the
    decoder and handler methods.
  - Each method is proved against the pure functions above: `Session() == F(old(Session()), ...)`.
  - The ghost field `scan` and the invariant `Valid()` tie the cursor and the buffer contents
    to `FrameStream.Step`, so every byte fed to `Parse` advances the stream-level decoder
    exactly.

Temperatures are integers in half degrees Celsius. `HEADER[0]`, `HEADER[2]`, `HEADER[3]` and
`MAX_DATA_BYTES` are parameters (`FrameStream.Framing`). `Globals.h`, which defines them, is
not part of this model.

## Model

| member | source | states |
|---|---|---|
| FrameStream.FrameLength | components/cn105/hp_readings.cpp:14-24 | a frame is header, payload and checksum: longer than its 5-byte header and at most 261 bytes |
| FrameStream.ChecksumBalances | components/cn105/hp_readings.cpp:69-76 | the checksum byte is exactly the one byte that brings the frame's sum to 0xFC modulo 256 |
| FrameStream.ResidueSteps | components/cn105/hp_readings.cpp:69-74 | wrapping the 8-bit running sum at every addition, and the 8-bit subtraction from 0xFC, give the residues of the unwrapped sums |
| FrameStream.HeaderCommand | components/cn105/hp_readings.cpp:86-96 | a non-zero command exists only for a complete header whose bytes 2 and 3 match the protocol id, and it is then byte 1 |
| FrameStream.DataLength | components/cn105/hp_readings.cpp:86-96 | the length is -1 exactly while fewer than 5 bytes are held, and byte 4 afterwards |
| FrameStream.HeaderOfNextByte | components/cn105/hp_readings.cpp:86-96 | length and command are read when the fifth byte is stored (the length even when the id mismatches) and kept afterwards |
| FrameStream.StepInFrame | components/cn105/hp_readings.cpp:37-55 | inside a frame, a byte extends the frame, completes it at its declared length, or drops it when the declared length cannot fit the buffer |
| FrameStream.SplitShape | components/cn105/hp_readings.cpp:26-58 | every extracted frame starts with the sync byte, is exactly as long as its header says and fits the buffer; the partial frame is well formed |
| FrameStream.SplitSnoc | components/cn105/hp_readings.cpp:26-58 | the byte-at-a-time decoder extends the whole-stream extraction exactly: Split(s + [b]) == Step(Split(s), b) |
| FrameStream.RunSplits | components/cn105/hp_readings.cpp:98-106 | feeding a stream chunk by chunk yields the frames of the whole stream |
| FrameStream.ChunkedDecodingAgrees | components/cn105/hp_readings.cpp:98-106 | decoding a then b equals decoding a + b from the reset state |
| FrameStream.FramesGrow | components/cn105/hp_readings.cpp:26-58 | frames already extracted are never taken back: those of a prefix are a prefix of those of the whole |
| FrameStream.NoSyncNoFrame | components/cn105/hp_readings.cpp:30-36 | a stream without the sync byte yields no frame and leaves nothing started |
| FrameStream.RoomyBufferNeedsNoGuard | components/cn105/cn105.h:175 | with a buffer of at least 261 bytes the capacity guard never fires and the guarded and unguarded decoders agree |
| FrameStream.UnguardedAcceptsOversizedFrame | components/cn105/hp_readings.cpp:37-48 | as written, a frame announcing 255 payload bytes is accepted whatever the buffer size; the guarded decoder drops it |
| FrameStream.SingleByteCorruptionDetected | components/cn105/hp_readings.cpp:61-83 | changing any one byte of a frame with a valid checksum, the checksum included, invalidates it |
| Decode.ModeIndex | components/cn105/hp_readings.cpp:139-140 | the mode index is the mode byte less 8 when iSee is set, and the byte is recovered from flag and index |
| Decode.DirectHalfDegrees | components/cn105/hp_readings.cpp:146-149 | a non-zero temperature byte b is b - 128 half degrees, within (-128, 128), and distinct bytes give distinct temperatures |
| Decode.NibblesAreMasks | components/cn105/hp_readings.cpp:165-169 | the wide vane index is data[10] & 0x0F and the adjustment flag is (data[10] & 0xF0) == 0x80, i.e. 0x80 <= data[10] < 0x90 |
| Decode.SettingsTemperature | components/cn105/hp_readings.cpp:146-155 | the set temperature is the direct encoding of data[11] when non-zero, else the table entry for data[5] |
| Decode.DecodeSettings | components/cn105/hp_readings.cpp:134-166 | iSee iff data[4] > 8; mode from data[4] less the iSee offset; wide vane from the low nibble of data[10]; connected |
| Decode.SettingsDependOnlyOnTheirBytes | components/cn105/hp_readings.cpp:134-166 | decoded settings depend only on data[3], 4, 6, 7, 10, 11, and on data[5] only when data[11] is zero |
| Decode.DecodeRoomTemperature | components/cn105/hp_readings.cpp:198-205 | the room temperature is the direct encoding of data[6] when non-zero, else the table entry for data[3] |
| Reconcile.InitialSession | components/cn105/cn105.h:178-191 | a session starts with no change pending, the status all off, the counter at zero, no response time, `wideVaneAdj` off and the wanted settings equal to the current ones |
| Reconcile.Published | components/cn105/hp_readings.cpp:353-369 | publishing takes every reported field into currentSettings except the wide vane, and marks it connected |
| Reconcile.Confirmed | components/cn105/hp_readings.cpp:285-288 | confirming keeps the wanted settings and clears the change and its bookkeeping |
| Reconcile.Seeded | components/cn105/hp_readings.cpp:176-183 | the first report becomes the wanted settings with the change and bookkeeping cleared |
| Reconcile.AfterAck | components/cn105/hp_readings.cpp:280-299 | after an acknowledgement no change is pending; with a pending change the current settings become the wanted ones; without one neither current nor wanted settings change |
| Reconcile.AfterVaneRequest | components/cn105/extraComponents.cpp:10-20 | a vane request makes the position wanted and marks a change pending and not sent, leaving the current settings alone |
| Reconcile.SecondAckKeepsSettings | components/cn105/hp_readings.cpp:280-299 | a second acknowledgement in a row changes neither current nor wanted settings |
| Reconcile.FirstSettingsAreAdopted | components/cn105/hp_readings.cpp:176-187 | the first settings frame seeds the wanted settings and then matches them, so the current settings are untouched |
| Reconcile.MatchingReportConfirms | components/cn105/hp_readings.cpp:397-407 | a report equal to the wanted settings clears the change and its bookkeeping and nothing else |
| Reconcile.PendingChangeIgnoresStaleReport | components/cn105/hp_readings.cpp:414-419 | while a local change is pending, a differing report changes nothing |
| Reconcile.ExternalChangeIsAdopted | components/cn105/hp_readings.cpp:420-424 | with no change pending, a differing report is taken into the current settings (wide vane aside), the wanted settings untouched |
| Reconcile.SettingsReportIdempotent | components/cn105/hp_readings.cpp:176-187 | receiving the same settings twice in a row has the effect of receiving them once |
| Reconcile.RequestThenAckCommits | components/cn105/hp_readings.cpp:280-299 | a vane request followed by an acknowledgement commits the requested position with no change left pending |
| Reconcile.BookkeepingKept | components/cn105/hp_readings.cpp:108-123 | every frame and every vane request keeps "no change pending implies not sent and no deferred request" |
| Reconcile.SettingsKeepBookkeeping | components/cn105/hp_readings.cpp:176-187 | a settings frame keeps that bookkeeping invariant |
| Reconcile.ChecksumGatesFrame | components/cn105/hp_readings.cpp:108-123 | a frame with a bad checksum changes nothing, the response time included; a good one always records the response time |
| Reconcile.ForeignFrameOnlyStamps | components/cn105/hp_readings.cpp:312-329 | a frame whose id bytes mismatch has command 0, which no branch handles: at most the response time is recorded |
| Reconcile.OnlyAcksAndSettingsFramesChangeSettings | components/cn105/hp_readings.cpp:312-329 | only a checksum-valid acknowledgement or settings frame can change the current settings |
| Reconcile.DataFramesChangeOnlyTheirPart | components/cn105/hp_readings.cpp:193-265 | each sub-type's whole effect. Room temperature (0x03) replaces the status room temperature and shows it. Status (0x06) resets the counter, replaces operating and frequency and shows the kept room temperature. A function frame of length 0x10 sets its own block to payload bytes 1-15; at another length, or with an unknown sub-type, nothing changes |
| ClimateModes.ClimateModeOf | components/cn105/hp_readings.cpp:542-566 | the climate mode is off exactly when the power is off; AUTO shows as heat-cool |
| ClimateModes.ClimateFanModeOf | components/cn105/hp_readings.cpp:517-529 | automatic fan mode exactly for AUTO and quiet exactly for QUIET |
| ClimateModes.ClimateSwingModeOf | components/cn105/hp_readings.cpp:493-497 | vertical swing exactly when the vane is SWING |
| ClimateModes.ClimateModeDeterminesMode | components/cn105/hp_readings.cpp:542-566 | with the power on, the shown mode determines the unit mode |
| ClimateModes.ClimateFanModeDeterminesFan | components/cn105/hp_readings.cpp:517-529 | the shown fan mode determines the fan speed |
| CN105.CN105Climate.constructor | components/cn105/cn105.h:175-199 | the object decodes with the value tables and framing it is given, the buffer has the configured capacity, the cursor is in its reset state, and the session is the initial one |
| CN105.CN105Climate.InitBytePointer | components/cn105/hp_readings.cpp:7-12 | the cursor is reset to no frame, nothing read, length -1, command 0 |
| CN105.CN105Climate.Parse | components/cn105/hp_readings.cpp:26-58 | the stream decoder advances by Step. Outside a frame, a non-sync byte changes nothing; the sync byte is stored at 0 with bytesRead 1. Storing the checksum byte at dataLength + 5 processes the frame and resets the cursor. Every other byte leaves the session unchanged. Inside a frame the byte is written at bytesRead, and no other buffer cell changes |
| CN105.CN105Climate.ProcessInput | components/cn105/hp_readings.cpp:98-106 | all available bytes are parsed in order (the decoder advances by Run over them); the result says whether there was any |
| CN105.CN105Climate.ParseFrameByte | components/cn105/hp_readings.cpp:37-55 | the in-frame branch of parse: same contract as Parse for a started frame. The byte is written at bytesRead and every other buffer cell is kept |
| CN105.CN105Climate.StoreFrameByte | components/cn105/hp_readings.cpp:38-54 | the byte is stored and the header checked; it reports the frame complete exactly when the byte stored is at dataLength + 5, and then the cursor stays in the frame on that byte; else the cursor tracks the extended frame or is reset when the frame cannot fit. Only the cell at bytesRead is written |
| CN105.CN105Climate.CheckHeader | components/cn105/hp_readings.cpp:86-96 | at index 4 the length is byte 4 and the command byte 1 when bytes 2 and 3 match; elsewhere nothing changes |
| CN105.CN105Climate.CheckSum | components/cn105/hp_readings.cpp:61-83 | true iff the byte at bytesRead is (0xFC - sum of the first dataLength + 5 bytes) mod 256 |
| CN105.CN105Climate.ProcessDataPacket | components/cn105/hp_readings.cpp:108-123 | the session becomes OnFrame of the held frame: dispatched with the response time recorded when the checksum matches, unchanged otherwise |
| CN105.CN105Climate.ProcessCommand | components/cn105/hp_readings.cpp:312-330 | the session becomes Dispatch: acknowledgement, data frame, handshake, or no change |
| CN105.CN105Climate.GetDataFromResponsePacket | components/cn105/hp_readings.cpp:124-278 | the session becomes OnData of the payload, by sub-type |
| CN105.CN105Climate.SettingsReceived | components/cn105/hp_readings.cpp:134-189 | the settings branch: flags taken from data[10] and data[11], wanted settings seeded on the first run, then reconciled |
| CN105.CN105Climate.UpdateSuccess | components/cn105/hp_readings.cpp:280-299 | the session becomes AfterAck of the old one |
| CN105.CN105Climate.WantedSettingsUpdateSuccess | components/cn105/hp_readings.cpp:372-382 | the current settings become the wanted ones and the target temperature is shown |
| CN105.CN105Climate.ExtTempUpdateSuccess | components/cn105/hp_readings.cpp:384-390 | the shown current temperature becomes the status room temperature |
| CN105.CN105Climate.HeatpumpUpdate | components/cn105/hp_readings.cpp:392-427 | the session becomes HeatpumpUpdated: confirm, ignore, or publish the report |
| CN105.CN105Climate.PublishStateToHA | components/cn105/hp_readings.cpp:353-369 | the current settings become Published of the report, and the target temperature is shown |
| CN105.CN105Climate.CheckPowerAndModeSettings | components/cn105/hp_readings.cpp:533-540 | power and mode are taken from the report, nothing else in the current settings changes |
| CN105.CN105Climate.CheckFanSettings | components/cn105/hp_readings.cpp:514-516 | the fan is taken from the report, nothing else changes |
| CN105.CN105Climate.CheckVaneSettings | components/cn105/hp_readings.cpp:489-491 | the vane is taken from the report, nothing else changes |
| CN105.CN105Climate.StatusChanged | components/cn105/hp_readings.cpp:333-350 | the status becomes the received one and its room temperature is shown |
| CN105.CN105Climate.ControlVane | components/cn105/extraComponents.cpp:10-20 | the session becomes AfterVaneRequest, and the invariant holds |

## Left out

- Serial I/O: `processInput` takes the available bytes as a sequence, and the clock reading
  `CUSTOM_MILLIS` is a parameter `now`. `ProcessInput` passes one clock reading to every
  byte of a call.
- Logging and publishing are not modelled: `ESP_LOG*`, `hpPacketDebug`, `debug*`,
  `publish_state` of the climate entity and sensors, `updateAction`, and
  `programUpdateInterval` after a handshake reply.
- The climate entity's `mode`, `fan_mode` and `swing_mode` fields are not class fields.
  Their mappings are the pure functions of `ClimateModes`.
- The `buildAndSendRequestsInfoPackets` call at the end of `updateSuccess` (encoder and
  scheduler) is not modelled. Neither are `createPacket` and `createInfoPacket`, or any
  request/response round trip.
- `lookupByteMapValue` and the value maps are abstract: `ValueMaps` holds one arbitrary
  table per field. The tables give whole degrees, doubled into half degrees.
- `heatpumpFunctions::setData1/2` are not modelled. A function block is kept as the raw
  bytes `data[1..16]`.
- `operator==` on settings (`SameSettings`) is taken as equality of every field but
  `connected`. `hasChanged` is taken as inequality.
- `setVaneSetting` is not modelled. `ControlVane` takes it to set the wanted vane to the
  chosen value.
- Floating point: `(float)temp / 2` becomes integer half degrees, so temperatures are exact.
- The timer part of `heatpumpStatus` (sub-type 0x05) is not modelled. Unknown sub-types
  (0x04, 0x05, 0x09 and the default) change nothing, as in the source.
- The commented-out `settingsChanged` at components/cn105/hp_readings.cpp:429-483 is dead
  code and is not modelled.
- Initial state of the cursor: `dataLength` is declared 0 in components/cn105/cn105.h:198,
  but the model starts from the reset state of `initBytePointer` (-1). This changes no
  behaviour. With 0, `parse` takes the length branch at indexes 1 to 3. There
  `bytesRead == 5` fails and `bytesRead` is incremented, exactly as in the -1 branch. At
  index 4, `checkHeader` has already overwritten `dataLength`.
- Initial state of the session: `firstRun`, `lastResponseMs` (components/cn105/cn105.h:161)
  and `wideVaneAdj` (components/cn105/cn105.h:183) have no initialiser in the source. The
  model starts `firstRun` true, `lastResponseMs` at 0 and `wideVaneAdj` false.
- CN105.CN105Climate.constructor: `currentSettings{}` and `wantedSettings{}`
  (components/cn105/cn105.h:157-158) are zero-initialised in the source: null strings,
  temperature 0, flags false. The model starts both from an arbitrary `initial` parameter
  instead, because a null setting string has no value among the enumerations. As in the
  source, the first settings frame leaves `currentSettings` at that initial value: it
  seeds the wanted settings and then matches them (`Reconcile.FirstSettingsAreAdopted`).
- Stale bytes: the settings decoder reads `data[11]` whatever the frame length, so a short
  frame reads bytes of an earlier frame. The model reads the same buffer. It therefore
  requires a buffer of at least 17 bytes (`MIN_CAPACITY`) and states frame effects over
  `storedInputData[5..]`, not over the frame alone.
- Restructuring of `parse`:
  - The in-frame branch is a separate method, `ParseFrameByte`, whose storing part is
    `StoreFrameByte`.
  - The settings branch of `getDataFromResponsePacket` is `SettingsReceived`.
  - Order and effect are unchanged.
- CN105.CN105Climate.Parse: the model adds the capacity guard described under Findings. A
  frame whose declared length does not fit the buffer is dropped after its header.
- CN105.CN105Climate.ProcessInput: its contract states the decoder's advance (`Run`) and
  the invariant, not the session effect of each completed frame. Those are stated by
  `Parse` per byte.

## Findings

| source | as written | input that shows it | evidently intended | confidence | as-written member | corrected member |
|---|---|---|---|---|---|---|
| components/cn105/hp_readings.cpp:37-48 | the byte is stored at `storedInputData[bytesRead]` with no bound check; a frame is complete only at index `dataLength + 5`, where `dataLength` is any byte value | the header `[HEADER[0], 0x62, HEADER[2], HEADER[3], 0xFF]` followed by 256 non-sync bytes: indexes up to 260 are written, beyond a `MAX_DATA_BYTES` buffer smaller than 261 | a frame whose declared length cannot fit the buffer is dropped once its header is read | not executed | FrameStream.UnguardedAcceptsOversizedFrame | CN105.CN105Climate.Parse |
