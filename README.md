# BK Light ACT1026 device protocol, modelled in Dafny

This project models the core of the BK Light ACT1026 Home Assistant integration. That core is the code that drives a 32×32 BLE LED matrix.

- **Frame encoder** (`Frame`, with `LittleEndian` and `Crc32`). `_build_frame` puts a 15-byte header in front of the PNG bytes. The header holds the total length and the payload length (both 2 bytes, little-endian), the marker `02`, two pairs of reserved zero bytes, the CRC-32 of the payload alone (`binascii.crc32`, the zlib/gzip CRC of RFC 1952, section 8), and the suffix `00 65`. A total length that needs more than two bytes raises `OverflowError`; here that is `Err(LengthOverflow)`. `Frame.Parse` reads a frame back, and two lemmas show that building and parsing are inverse in both directions.
- **Protocol constants** (`Protocol`). These are the handshake and acknowledgment byte strings, the UUIDs, the display size and the defaults from `const.py`, with lemmas about their structure.
- **Notification classifier and wait** (`Ack`). `_notification_handler` acts on the `_ack_stage`/`_ack_event` pair, here `AckState`. `_wait_for_ack` is also modelled. The transport is replaced by a *window*: the notifications delivered before the waiter resumes. The waiter is woken exactly when the event is set at the end of the window; otherwise it times out.
- **Handshake** (`Handshake`). This is the write/wait sequence of `send_image` as the function `Transfer` of the frame and a scripted `Exchange`. The script says whether each write returns or raises, and which notifications arrive during each wait and each inter-stage sleep. The result is the success flag, the writes issued (including their `response` flag) and the acknowledgment state left behind.
- **Device session** (`Device`). The class `BKLightDevice` has the fields of the Python object: `client`, `_is_connected` (`connected`), `_ack_stage`, `_ack_event` (`ackSignalled`), `_brightness`, `rotation`, plus a log of the GATT writes issued. Its methods `Connect`, `Disconnect`, `SendImage`, `SetBrightness`, `NotificationHandler` and `WaitForAck` change these fields step by step. `Connect`, `NotificationHandler`, `WaitForAck` and `SendImage` are proved against the pure functions `ConnectOutcome`, `Notify`, `Wait` and `Transfer`. `SetBrightness` sets `brightness` to `Clamp` of its argument and touches no other field. `Disconnect`'s contract gives the new `client` and `connected` fields directly. Every method keeps the invariant `connected ⇒ client present`. Discovery (`find_device_by_address` uncached, then without `cached` after a `TypeError`, then cached) is the function `Discover` of a `ConnectScript`.
- **Side helpers**. `MacAddress` models `is_valid_mac_address` and the upper-casing in `validate_input`. `Scan` models, from the `scan_devices` service, the LED name filter, the RSSI signal label and the RSSI-descending listing order.

The radio and the image library are parameters; time is replaced by windows of delivered notifications. A `ConnectScript` gives the scanner and connection results. An `Exchange` gives the write results and the notifications. `SendImage` receives the bytes `_adjust_image` would return, or `None` when it raises.

Reading of the source: lines 168, 170 and 172 of `bk_light_device.py` show `b"\\x00\\x00"` and `b"\\x00\\x65"`. The model reads each as the two bytes it evidently denotes. Only under that reading is the header 15 bytes long, matching the `+ 15` of line 164.

Behaviour of the code worth noting:
- Every notification of five bytes or more sets `_ack_event`, even one that is not recognised. Only its stage is ignored.
- When no device is found, `connect` returns false but leaves whatever client it held, possibly a stale unlinked one, in place. Only the exception paths drop the client.
- `disconnect` checks for a client at all, not the connected flag.
- `_ack_stage` is reset once per send, before stage 1. `Handshake.StageNotResetBeforeFrame` shows what that allows: a stage-3 acknowledgment seen early, followed by any unrecognised notification in the frame window, completes the send.

## Model

| member | source | states |
|---|---|---|
| LittleEndian.ToBytes | custom_components/bk_light/bk_light_device.py:166-171 | `to_bytes(width, "little")` succeeds exactly when n < 256^width; the bytes then number `width` and decode back to n |
| LittleEndian.DecodeEncode | custom_components/bk_light/bk_light_device.py:166-171 | decoding the little-endian bytes of n gives n |
| LittleEndian.EncodeDecode | custom_components/bk_light/bk_light_device.py:166-171 | re-encoding a decoded byte string at its own width gives it back |
| LittleEndian.EncodeInjective | custom_components/bk_light/bk_light_device.py:171 | two encodings of the same width are equal exactly when the numbers are |
| Crc32.Checksum | custom_components/bk_light/bk_light_device.py:171 | `binascii.crc32` is an unsigned 32-bit value |
| Crc32.RegisterAppend | custom_components/bk_light/bk_light_device.py:171 | the CRC register over a + b is the register over a, then continued over b |
| Crc32.UpdateAppend | custom_components/bk_light/bk_light_device.py:171 | a running CRC can be continued: update(crc, a + b) = update(update(crc, a), b) |
| Crc32.CheckValue | custom_components/bk_light/bk_light_device.py:171 | CRC-32 of "123456789" is 0xCBF43926, the standard check value |
| Frame.FitsBound | custom_components/bk_light/bk_light_device.py:163-166 | a payload fits exactly when it has at most 65520 bytes (total length below 65536) |
| Frame.Frame | custom_components/bk_light/bk_light_device.py:161-174 | the frame is 15 bytes longer than the payload and ends with the payload unchanged |
| Frame.BuildFrame | custom_components/bk_light/bk_light_device.py:161-174 | the step-by-step build fails (overflow) exactly when the payload does not fit, and otherwise yields the frame |
| Frame.FrameLayout | custom_components/bk_light/bk_light_device.py:163-173 | field by field: total length = payload length + 15, marker 02, zeros at 3-4 and 7-8, payload length at 5-6, CRC-32 of the payload at 9-12, 00 65 at 13-14, payload from 15 |
| Frame.ParseFrame | custom_components/bk_light/bk_light_device.py:161-174 | every built frame parses back to its payload |
| Frame.ParsedHeader | custom_components/bk_light/bk_light_device.py:163-172 | the first 15 bytes of a frame that parses are the header of its payload |
| Frame.FrameOfParse | custom_components/bk_light/bk_light_device.py:161-174 | every byte string that parses is exactly the frame of the payload it yields |
| Frame.ChecksumOverPayloadOnly | custom_components/bk_light/bk_light_device.py:171 | the checksum bytes of two frames agree exactly when the CRC-32 of their payloads agree; header bytes do not enter |
| Frame.HundredBytePayload | custom_components/bk_light/bk_light_device.py:163-169 | a 100-byte payload gives total-length bytes 73 00 and payload-length bytes 64 00 |
| Protocol.AckPrefixesDistinct | custom_components/bk_light/const.py:31-35 | the five 5-byte acknowledgment prefixes are pairwise distinct |
| Protocol.MessagesSelfDescribing | custom_components/bk_light/const.py:29-35 | each of the seven fixed messages begins with its own length, 2 bytes little-endian |
| Protocol.StageThreeIsItsOwnPrefix | custom_components/bk_light/const.py:35 | the stage-3 acknowledgment is 5 bytes long, so its prefix is the whole message |
| Protocol.AcksEchoCommand | custom_components/bk_light/const.py:29-34 | the stage-1 acks share bytes 2-3 (01 80) with the first handshake, the stage-2 acks (05 80) with the second |
| Ack.Classify | custom_components/bk_light/bk_light_device.py:53-63 | the announced stage is 0..3 |
| Ack.ClassifyExactly | custom_components/bk_light/bk_light_device.py:53-63 | stage 1, 2, 3 is announced exactly when the first five bytes equal one of that stage's prefixes |
| Ack.ClassifyReference | custom_components/bk_light/bk_light_device.py:54-63 | each reference acknowledgment, with any bytes after it, is classified as its stage |
| Ack.NotifyIgnoresShort | custom_components/bk_light/bk_light_device.py:53 | a notification shorter than 5 bytes changes neither the stage nor the event |
| Ack.NotifySignals | custom_components/bk_light/bk_light_device.py:53-64 | a notification of 5+ bytes always sets the event; an unrecognised one keeps the stage, a recognised one sets it |
| Ack.NotifyPrefixOnly | custom_components/bk_light/bk_light_device.py:54 | bytes after the fifth never change the effect |
| Ack.DeliverSignals | custom_components/bk_light/bk_light_device.py:53-64 | after a window the event is set exactly when it already was or some notification had 5+ bytes |
| Ack.DeliverQuiet | custom_components/bk_light/bk_light_device.py:53 | a window of short notifications leaves the state unchanged |
| Ack.DeliverStageBound | custom_components/bk_light/bk_light_device.py:55-63 | the stage stays within 0..3 |
| Ack.DeliverLastRecognised | custom_components/bk_light/bk_light_device.py:55-63 | the stage after a window is that of its last recognised notification |
| Ack.WaitAckedExactly | custom_components/bk_light/bk_light_device.py:151-159 | the wait returns true exactly when the waiter was woken and the stage then equals the expected one; it never changes the stage |
| Ack.WaitLeavesEventClear | custom_components/bk_light/bk_light_device.py:154-155 | after any wait, woken or timed out, the event is clear |
| Ack.WaitTimesOut | custom_components/bk_light/bk_light_device.py:154-159 | with no wake-up the wait returns false and changes nothing; no timeout escapes it |
| Ack.WaitSucceeds | custom_components/bk_light/bk_light_device.py:154-156 | a window ending with a notification of the expected stage makes the wait true |
| Handshake.WriteOrder | custom_components/bk_light/bk_light_device.py:202-224 | the writes are a non-empty prefix of HANDSHAKE_FIRST (no response), HANDSHAKE_SECOND (no response), frame (with response) |
| Handshake.Outcome | custom_components/bk_light/bk_light_device.py:203-231 | success exactly when no write raised and the stage-1 and stage-3 waits returned true; success means all three writes |
| Handshake.StageOneMandatory | custom_components/bk_light/bk_light_device.py:205-207 | a failed stage-1 wait gives false after exactly one write |
| Handshake.StageOneTimeout | custom_components/bk_light/bk_light_device.py:205-207 | when stage 1 never answers, the send fails and the frame is never written |
| Handshake.StageTwoTolerated | custom_components/bk_light/bk_light_device.py:210-222 | once stage 1 is acknowledged and the second write returns, the frame is written whatever the stage-2 wait gives |
| Handshake.StageNotResetBeforeFrame | custom_components/bk_light/bk_light_device.py:203-224 | the stage is reset only before stage 1, so a stage 3 already seen plus any unrecognised 5+-byte notification completes the send |
| Handshake.ExpectedExchange | custom_components/bk_light/bk_light_device.py:202-227 | stage-1 ack, no stage-2 ack, stage-3 ack: the send succeeds with all three writes |
| Device.Attempts | custom_components/bk_light/bk_light_device.py:74-95 | one to three lookups are made, the uncached one first |
| Device.DiscoverFinds | custom_components/bk_light/bk_light_device.py:74-103 | discovery finds the device exactly when one of the lookups made finds it |
| Device.DiscoverRaises | custom_components/bk_light/bk_light_device.py:76-95 | discovery raises exactly when a lookup made fails, or both the uncached lookup and the one without `cached` raise TypeError |
| Device.DiscoverUncachedHit | custom_components/bk_light/bk_light_device.py:76-87 | an uncached hit is final; no fallback is tried |
| Device.ConnectReusesLiveLink | custom_components/bk_light/bk_light_device.py:69-70 | with a present, connected client, connect is true without discovery and changes nothing |
| Device.ConnectSucceeds | custom_components/bk_light/bk_light_device.py:66-115 | connect is true exactly when the link was live or a device was found and connect and subscribe returned; success leaves a live link |
| Device.ConnectDeviceMissing | custom_components/bk_light/bk_light_device.py:97-103 | no device found: false, state untouched |
| Device.ConnectErrorReleases | custom_components/bk_light/bk_light_device.py:117-136 | every exception path ends with no client and the flag cleared |
| Device.ConnectConsistent | custom_components/bk_light/bk_light_device.py:66-136 | connect preserves `connected ⇒ client present` |
| Device.Clamp | custom_components/bk_light/bk_light_device.py:243-245 | the result lies in [0.1, 1.0], equals the input when the input is in range, and is the nearer bound otherwise |
| Device.ClampIdempotent | custom_components/bk_light/bk_light_device.py:245 | clamping twice is clamping once |
| Device.DefaultBrightnessKept | custom_components/bk_light/const.py:9 | the default brightness 0.85 is inside the range and the clamp keeps it |
| Device.AdjustPlanSteps | custom_components/bk_light/bk_light_device.py:176-187 | rotation by the negated angle exactly when rotation ≠ 0, darkening exactly when brightness < 1.0, PNG encoding always last |
| Device.AdjustPlanIdentity | custom_components/bk_light/bk_light_device.py:178-186 | rotation 0 and brightness 1.0 leave only the encoding |
| Device.BKLightDevice.constructor | custom_components/bk_light/bk_light_device.py:32-45 | a new session has no client, the flag clear, stage 0, the event clear, and the given address, rotation and brightness |
| Device.BKLightDevice.NotificationHandler | custom_components/bk_light/bk_light_device.py:47-64 | the handler updates stage and event as `Notify` |
| Device.BKLightDevice.ReceiveNotifications | custom_components/bk_light/bk_light_device.py:111 | the transport running the handler once per notification leaves the state `Deliver` gives |
| Device.BKLightDevice.WaitForAck | custom_components/bk_light/bk_light_device.py:151-159 | the result and the new state are those of `Wait` |
| Device.BKLightDevice.AbandonClient | custom_components/bk_light/bk_light_device.py:117-136 | the exception handler ends with no client and the flag cleared |
| Device.BKLightDevice.Connect | custom_components/bk_light/bk_light_device.py:66-136 | result and link fields are those of `ConnectOutcome`; the invariant is kept |
| Device.BKLightDevice.Disconnect | custom_components/bk_light/bk_light_device.py:138-149 | with a client: always ends with no client and the flag clear; without: nothing changes |
| Device.BKLightDevice.SendImage | custom_components/bk_light/bk_light_device.py:189-231 | connects first when the link is not live; false with no writes and no ack change when that fails, when the image step raises or when the frame overflows; otherwise result, writes and ack state are those of `Transfer` |
| Device.BKLightDevice.RunExchange | custom_components/bk_light/bk_light_device.py:202-231 | the handshake steps produce exactly what `Transfer` describes |
| Device.BKLightDevice.SetBrightness | custom_components/bk_light/bk_light_device.py:243-245 | the new brightness is `Clamp` of the argument |
| MacAddress.Split | custom_components/bk_light/config_flow.py:31 | `str.split` always yields at least one piece |
| MacAddress.JoinSplit | custom_components/bk_light/config_flow.py:31 | joining the pieces of a split on ':' gives the text back |
| MacAddress.SplitJoin | custom_components/bk_light/config_flow.py:31 | splitting a join of separator-free pieces gives the pieces back |
| MacAddress.SeparatorNotStripped | custom_components/bk_light/config_flow.py:34-41 | a group with a separator character 0x1C-0x1F before its hex digit is rejected; one with a tab or space before it is accepted |
| MacAddress.NotSixGroupsRejected | custom_components/bk_light/config_flow.py:31-33 | a text that does not split into six groups is rejected, the empty string included |
| MacAddress.WrongGroupLengthRejected | custom_components/bk_light/config_flow.py:35-37 | a group of length other than two is rejected |
| MacAddress.HexPairsAccepted | custom_components/bk_light/config_flow.py:34-39 | six pairs of hex digits joined by ':' are accepted |
| MacAddress.ValidLength | custom_components/bk_light/config_flow.py:31-37 | every accepted address has 17 characters |
| MacAddress.Upper | custom_components/bk_light/config_flow.py:58 | upper-casing keeps the length and maps each character |
| MacAddress.SplitUpper | custom_components/bk_light/config_flow.py:58-60 | upper-casing commutes with splitting on ':' |
| MacAddress.ValidUpper | custom_components/bk_light/config_flow.py:58-60 | validity is unaffected by upper-casing |
| MacAddress.ValidateAddressExactly | custom_components/bk_light/config_flow.py:58-61 | `validate_input` accepts exactly the valid addresses and passes them on upper-cased and 17 characters long |
| Scan.LedDevicesMembers | custom_components/bk_light/services.py:40-47 | a device is kept exactly when it was discovered and its name is non-empty and starts with LED_BLE_, BK_LIGHT or BJ_LED |
| Scan.LedDevicesCounts | custom_components/bk_light/services.py:40-47 | each LED device is kept as many times as it was discovered, every other device not at all |
| Scan.LedDevicesInOrder | custom_components/bk_light/services.py:40-47 | the kept devices form a subsequence of the discovered ones, order kept |
| Scan.SignalBuckets | custom_components/bk_light/services.py:53-56 | non-zero RSSI: > -60 Excellent, (-75, -60] Good, (-85, -75] Fair, otherwise Weak |
| Scan.SignalFalsyIsWeak | custom_components/bk_light/services.py:53-56 | a missing RSSI or an RSSI of 0 is labelled Weak |
| Scan.SignalMonotone | custom_components/bk_light/services.py:54-56 | among non-zero values a higher RSSI never gets a worse label |
| Scan.Insert | custom_components/bk_light/services.py:77 | inserting adds exactly the one device |
| Scan.SortByRssiDescending | custom_components/bk_light/services.py:77 | the listing is ordered by RSSI, highest first, a missing RSSI counting as -100 |
| Scan.SortByRssiPermutes | custom_components/bk_light/services.py:77 | the listing is a permutation of the discovered devices |
| Scan.SortByRssiStable | custom_components/bk_light/services.py:77 | devices with equal keys keep their discovery order |

## Left out

- BLE transport (`BleakScanner`, `BleakClient`): its results are scripted (`ConnectScript`, `Exchange`). Every write goes to the write characteristic, so the log records only the bytes and the `response` flag. The `start_notify`, `stop_notify` and `disconnect` calls are not logged; only their effect on the session fields is modelled.
- asyncio: the event, the 5 s and 2 s timeouts and the `delay` sleeps are not modelled as time. Each wait and each sleep is one window of delivered notifications. Notifications arriving during image preprocessing are not modelled; the stage reset at line 203 erases their effect anyway. Notifications arriving during a write that raises, or after `send_image` returns, are not modelled either.
- The link dropping in the background (`client.is_connected` turning false) is not an operation of the model. All methods are specified for every state that satisfies the invariant, including a held but unlinked client.
- Image processing (PIL rotation, `ImageEnhance`, PNG encoding): only `_adjust_image`'s branch decisions are modelled (`AdjustPlan`); `SendImage` receives its output bytes.
- Device.Clamp: brightness is a Dafny `real`, so float rounding (0.1 is not exact in binary) and NaN are not modelled.
- MacAddress.ParsesAsHex: models `int(part, 16)` for ASCII two-character parts only. It accepts two hex digits, or one hex digit after a sign or whitespace, or before whitespace, where whitespace is tab to carriage return and space (the ASCII separators 0x1C-0x1F are not stripped from an ASCII string). A part holding a non-ASCII character is always rejected by the model, although `int` accepts non-ASCII decimal digits and non-ASCII whitespace.
- MacAddress.Upper: models ASCII upper-casing only. `str.upper` also maps non-ASCII letters, some of them to several characters.
- Scan.SortKey: models the RSSI attribute as missing (key -100) or an integer. A present attribute holding `None` would make `sorted` raise `TypeError`; that case is not modelled.
- Logging, the `name[:30]` display truncation and the `"N/A"` formatting of the listing are presentation only.
- The `is_connected` and `brightness` properties are plain reads of the `connected` and `brightness` fields.
- `__init__.py` (setup and unload), `image.py` (entity and clock rendering), the config and options flow steps and their schemas, the test connection in `validate_input`, and `diagnostic.py`: platform glue, UI and a standalone tool, not part of this model.
