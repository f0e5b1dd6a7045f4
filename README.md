# VideoCue, modelled in Dafny

VideoCue is a desktop controller for PTZ (pan/tilt/zoom) cameras. It drives
each camera over VISCA-over-IP (UDP), shows the camera's NDI video stream,
lets a USB game controller steer the selected camera, keeps a camera list
with stored presets and a cue list of camera presets, and runs itself
under a supervisor that restarts it once without NDI after a crash.

This project models the logic at the heart of that application and proves
what the code promises about it:

- `ViscaCommands`, `ViscaIP`: the wrapping sequence counter, the 8-byte
  datagram header (`>BHxI`), the command encoders with their clamps, and
  the reply decoders with their vendor alias tables, proved as
  encode/decode round trips.
- `NdiVideo`: the NDI reception worker as a state machine over an abstract
  stream of capture events (video, audio, metadata, none, error): frame
  release accounting, one-in-(skip+1) conversion, the three recovery
  stages in order, the stream metrics counters, stop and cleanup, and
  the source cache.
- `ConfigManager`, `CueManager`, `Video`: the camera list, the preset
  lists and the cue list as list operations, with cue normalisation and
  the preset dictionary round trip.
- `CameraWidget`, `MainWindow`, `ControllerPreferences`, `CameraAddDialog`,
  `UsbController`: the state logic inside the widgets, with timers as
  explicit calls. This covers the connection indicator, the retry
  back-off, auto pan, the camera selection, button availability, and the
  joystick and D-pad classification.
- `NetMask`, `NetworkInterface`, `Tally`, `Utils`, `Text`: subnet membership
  (prefix matching as in section 3.1 of RFC 4632), the interface choice,
  the IP pattern search, error truncation, and the Python string
  operations these rely on, with the list operations several modules share
  (`Seqs`: `list.index`, swapping two entries, appending only the new entries of a list, powers of two).
- `Supervisor`: the crash exit-code classification and the two-run
  supervisor.

Identifiers (`uuid4`), the list of network interfaces, the camera's
answers, the NDI SDK's capture results and the child process's exit
codes are parameters. Floating-point values are modelled as exact reals.

## Model

| member | source | states |
|---|---|---|
| ViscaCommands.HexValue | videocue/controllers/visca_commands.py:120-124 | `int(c, 16)` on one character: a value below 16 exactly for the digits 0-9, a-f and A-F, None (the ValueError) otherwise |
| ViscaCommands.ExtractSingleNibble | videocue/controllers/visca_commands.py:120-124 | the character at `position` after the 16-character header read as a hex digit; None when the index is out of range or the character is not a digit |
| ViscaCommands.SingleNibbleOfReply | videocue/controllers/visca_commands.py:120-124 | in the hex text of any reply of 11 bytes or more, offset 5 after the header is the low nibble of byte 10 |
| ViscaCommands.ExtractFourNibbles | videocue/controllers/visca_commands.py:126-134 | the four nibbles at offsets 5, 7, 9, 11 combine to a value below 65536 |
| ViscaCommands.FourNibblesOfReply | videocue/controllers/visca_commands.py:126-134 | on the hex text of a reply of 14 bytes or more, the reader combines the low nibbles of bytes 10 to 13 |
| ViscaCommands.NibblesRecombine | videocue/controllers/visca_commands.py:126-134 | splitting a value below 65536 into four nibbles and shifting them back together gives the value |
| ViscaCommands.FourNibblesRoundTrip | videocue/controllers/visca_commands.py:126-134 | for any 8-byte header and reply bytes, the reader gives back the value encoded as `0p 0q 0r 0s` |
| ViscaIP.NextSeqProperties | videocue/controllers/visca_ip.py:123-128 | the next sequence number is the current one plus 1, wrapping to 0 at 99999990; it always fits the 32-bit header field and always differs from the current one |
| ViscaIP.Header | videocue/controllers/visca_ip.py:139-144 | `struct.pack(">BHxI")`: 8 bytes: payload type 1, the length as 16-bit big-endian, a zero pad byte, the sequence number as 32-bit big-endian |
| ViscaIP.Packet | videocue/controllers/visca_ip.py:130-145 | the datagram is the 8-byte header followed by the command bytes unchanged |
| ViscaIP.PacketRoundTrip | videocue/controllers/visca_ip.py:130-145 | decoding a built datagram gives back the payload length, the sequence number and the command |
| ViscaIP.HeaderHexLength | videocue/controllers/visca_ip.py:306-311 | the header's hex text has exactly the 16 characters the reply parsers skip |
| ViscaIP.Round | videocue/controllers/visca_ip.py:227-239 | Python's `round`: the nearest integer, ties going to the even one |
| ViscaIP.Trunc | videocue/controllers/visca_ip.py:270-282 | Python's `int()` on a float: truncation toward zero for both signs |
| ViscaIP.HexDigits | videocue/controllers/visca_ip.py:455 | `format(n, "X")`: non-empty upper-case hex digits that read back as n, with a leading zero only for n = 0 |
| ViscaIP.HexBytes | videocue/controllers/visca_ip.py:136-137 | `bytes.fromhex`: one byte per pair of hex digits |
| ViscaIP.Format02XByte | videocue/controllers/visca_ip.py:475-476 | `f"{n:02X}"` of a byte is its two hex digits, and `bytes.fromhex` reads them back as the byte |
| ViscaIP.FieldCommand | videocue/controllers/visca_ip.py:264-268 | the command is built iff the formatted fields are whole pairs of hex digits, and then its bytes are the prefix, `bytes.fromhex(fields)` and the suffix; otherwise `bytes.fromhex` fails and nothing is sent |
| ViscaIP.SetPanTiltSpeedLimit | videocue/controllers/visca_ip.py:257-268 | limits that fit a byte are sent as `81 01 06 11 pp tt FF`; a negative limit on either axis is formatted with a minus sign, which `bytes.fromhex` rejects, so nothing is sent |
| ViscaIP.SignedFieldRefused | videocue/controllers/visca_ip.py:264-268 | a negative field renders with a sign, so the field text is not valid for `bytes.fromhex` |
| ViscaIP.PanSpeed | videocue/controllers/visca_ip.py:227-232 | the pan speed byte is `round(speed * 12)` clamped to 1..24: the rounded value in range, else the nearer bound |
| ViscaIP.TiltSpeed | videocue/controllers/visca_ip.py:234-239 | the tilt speed byte is `round(speed * 10)` clamped to 1..20, the same way |
| ViscaIP.DirectionBytes | videocue/controllers/visca_ip.py:713-722 | every direction code is two bytes from 01..03 |
| ViscaIP.DirectionBytesInjective | videocue/controllers/visca_ip.py:713-722 | the nine direction codes are pairwise different |
| ViscaIP.Move | videocue/controllers/visca_ip.py:241-251 | `81 01 06 01 pp tt d1 d2 FF` with both speeds in their ranges and the direction's code |
| ViscaIP.TwoFields | videocue/controllers/visca_ip.py:264-268 | two formatted byte fields parse back as those two bytes |
| ViscaIP.SpeedNibble | videocue/controllers/visca_ip.py:274-275 | the zoom/focus speed is `int(speed * 7)` when that is in 0..7, 7 above the range and 0 below it |
| ViscaIP.ZoomIn | videocue/controllers/visca_ip.py:270-275 | speed 0 sends the zoom stop; any other speed sends `81 01 04 07 2n FF` with n the clamped speed nibble `SpeedNibble(speed)` |
| ViscaIP.ZoomOut | videocue/controllers/visca_ip.py:277-282 | speed 0 sends the zoom stop; any other speed sends `81 01 04 07 3n FF` with n the clamped speed nibble `SpeedNibble(speed)` |
| ViscaIP.FocusNear | videocue/controllers/visca_ip.py:410-415 | speed 0 sends the focus stop; any other speed sends `81 01 04 08 2n FF` with n the clamped speed nibble `SpeedNibble(speed)` |
| ViscaIP.FocusFar | videocue/controllers/visca_ip.py:417-422 | speed 0 sends the focus stop; any other speed sends `81 01 04 08 3n FF` with n the clamped speed nibble `SpeedNibble(speed)` |
| ViscaIP.Drive | videocue/controllers/visca_ip.py:270-282 | speed 0 sends the given stop command; any other speed sends `81 01 04 cc hn FF` with the direction nibble h and the speed nibble n = `SpeedNibble(speed)`, `int(speed * 7)` clamped to 0..7 |
| ViscaIP.SetAutofocus | videocue/controllers/visca_ip.py:401-404 | `81 01 04 38 cc FF` with cc 02 when enabling and 03 when disabling |
| ViscaIP.StartAutoPan | videocue/controllers/visca_ip.py:443-457 | a pan speed that fits a byte is sent as `81 01 06 10 pp 00 FF`; a negative one is rejected by `bytes.fromhex` and nothing is sent |
| ViscaIP.OneField | videocue/controllers/visca_ip.py:443-457 | one formatted byte field parses back as the byte; a negative one is rejected for its sign |
| ViscaIP.ZoomDirectionsDiffer | videocue/controllers/visca_ip.py:270-282 | at non-zero speeds, zoom in never sends what zoom out sends, and focus near never sends what focus far sends |
| ViscaIP.PresetCommand | videocue/controllers/visca_ip.py:464-494 | a command is sent iff the preset number is in 0..254, as `81 01 04 3F aa pp FF`; otherwise it is refused |
| ViscaIP.RecallPreset | videocue/controllers/visca_ip.py:464-478 | sent iff the preset number is in 0..254, as `81 01 04 3F 02 pp FF` |
| ViscaIP.StorePreset | videocue/controllers/visca_ip.py:480-494 | sent iff the preset number is in 0..254, as `81 01 04 3F 01 pp FF` |
| ViscaIP.PresetRecallStoreDiffer | videocue/controllers/visca_ip.py:464-494 | recall and store carry the same preset number and differ only in the action byte, 02 against 01 |
| ViscaIP.SetExposureMode | videocue/controllers/visca_ip.py:496-508 | every mode except UNKNOWN is sent as `81 01 04 39 cc FF` with cc the mode's code from the table; UNKNOWN is refused |
| ViscaIP.SetValue | videocue/controllers/visca_ip.py:510-518 | the value is clamped to 0..max and sent as four nibbles `0p 0q 0r 0s` |
| ViscaIP.SetValueRoundTrip | videocue/controllers/visca_ip.py:510-518 | the four nibbles a setter sends read back, through the four-nibble reader, as the clamped value |
| ViscaIP.SetIris | videocue/controllers/visca_ip.py:510-518 | `81 01 04 4B 0p 0q 0r 0s FF` with the value clamped to the protocol's iris range |
| ViscaIP.SetShutter | videocue/controllers/visca_ip.py:520-528 | `81 01 04 4A 0p 0q 0r 0s FF` with the value clamped to the protocol's shutter range |
| ViscaIP.SetGain | videocue/controllers/visca_ip.py:530-538 | `81 01 04 4C 0p 0q 0r 0s FF` with the value clamped to the protocol's gain range |
| ViscaIP.SetBacklightComp | videocue/controllers/visca_ip.py:540-543 | `81 01 04 33 cc FF` with cc 02 when enabling and 03 when disabling |
| ViscaIP.SetBrightness | videocue/controllers/visca_ip.py:545-554 | `81 01 04 4D 0p 0q 0r 0s FF` with the value clamped to the protocol's brightness range |
| ViscaIP.SetRedGain | videocue/controllers/visca_ip.py:574-582 | `81 01 04 43 0p 0q 0r 0s FF` with the value clamped to 0..255 |
| ViscaIP.SetBlueGain | videocue/controllers/visca_ip.py:584-592 | `81 01 04 44 0p 0q 0r 0s FF` with the value clamped to 0..255 |
| ViscaIP.SetWhiteBalanceMode | videocue/controllers/visca_ip.py:556-568 | every mode except UNKNOWN is sent as `81 01 04 35 cc FF` with cc the mode's code from the table; UNKNOWN is refused |
| ViscaIP.SetVideoFormat | videocue/controllers/visca_ip.py:705-709 | every known format is sent as `81 01 06 35 ff FF` with its code; UNKNOWN is refused |
| ViscaIP.HexPairOfByte | videocue/controllers/visca_ip.py:343-345 | the two hex digits of a byte parse back as that byte |
| ViscaIP.QueryFocusMode | videocue/controllers/visca_ip.py:288-300 | a reply longer than 3 bytes reads AUTO iff the byte before the terminator has low nibble 2 and MANUAL iff it has low nibble 3; anything else reads UNKNOWN |
| ViscaIP.QueryExposureMode | videocue/controllers/visca_ip.py:302-333 | a reply of 11 bytes or more reads the exposure table at the low nibble of byte 10; a shorter reply reads UNKNOWN |
| ViscaIP.NibbleFiveOf | videocue/controllers/visca_ip.py:305-310 | offset 5 after the header is the low nibble of byte 10, and raises for a shorter reply |
| ViscaIP.FocusRoundTrip | videocue/controllers/visca_ip.py:288-300 | the code the autofocus setter sends, echoed in a reply, reads back as AUTO or MANUAL accordingly |
| ViscaIP.ModeReplyNibble | videocue/controllers/visca_ip.py:302-315 | a `90 50 0p FF` reply behind any header is long enough and carries p at offset 5 after the header |
| ViscaIP.ExposureRoundTrip | videocue/controllers/visca_ip.py:302-333 | the code byte `SetExposureMode(m)` sends, placed in a `90 50 cc FF` reply, reads back as m; UNKNOWN is exactly the mode that is never sent |
| ViscaIP.ExposureAliases | videocue/controllers/visca_ip.py:317-325 | the BirdDog code 0F also reads as BRIGHT; a code outside the table reads as UNKNOWN |
| ViscaIP.ExposureShortReply | videocue/controllers/visca_ip.py:305-310 | a reply of fewer than 11 bytes reads as UNKNOWN: it is too short, or reading offset 5 raises |
| ViscaIP.QueryLastValueByte | videocue/controllers/visca_ip.py:335-374 | iris, shutter and gain as written: a value is read exactly for a reply of 6 bytes or more, and it is the byte just before the terminator |
| ViscaIP.QueryFourNibbleValue | videocue/controllers/visca_ip.py:634-651 | the four-nibble reader of the colour gains: a value below 65536 |
| ViscaIP.FourNibbleValueRoundTrip | videocue/controllers/visca_ip.py:634-670 | every value below 65536 is read back from its standard reply |
| ViscaIP.ColorGainRoundTrip | videocue/controllers/visca_ip.py:574-592 | the red and blue gains read back what their setters send |
| ViscaIP.IrisSeventeenMisread | videocue/controllers/visca_ip.py:335-348 | the standard reply for iris 17 is read as 1 by the last-byte reader and as 17 by the four-nibble reader |
| ViscaIP.LastValueByteAgreesBelowSixteen | videocue/controllers/visca_ip.py:335-374 | the last-byte reader returns the value from its standard reply iff the value is below 16 |
| ViscaIP.QueryBrightnessAsWritten | videocue/controllers/visca_ip.py:376-399 | whenever the as-written reader returns a value, the corrected reader returns the same one: its only fault is refusing good replies |
| ViscaIP.ErrorReplyShowsPair | videocue/controllers/visca_ip.py:379-383 | an error reply's status byte 0x60 or 0x61 shows as "60" or "61" in its hex text, so the as-written test refuses every error reply |
| ViscaIP.QueryBrightness | videocue/controllers/visca_ip.py:376-399 | corrected reading: a value below 65536, and never from an error reply |
| ViscaIP.BrightnessRoundTrip | videocue/controllers/visca_ip.py:545-554 | every brightness the setter can send is read back from its reply, whatever the header |
| ViscaIP.BrightnessRejectedBySequenceNumber | videocue/controllers/visca_ip.py:379-383 | a valid brightness reply whose header carries sequence number 0x60 is refused as written and read correctly by the corrected reader |
| ViscaIP.QueryWhiteBalanceMode | videocue/controllers/visca_ip.py:594-632 | a reply of 10 bytes or more reads the white-balance table at the byte before the terminator; a shorter reply reads UNKNOWN |
| ViscaIP.WhiteBalanceRoundTrip | videocue/controllers/visca_ip.py:556-632 | the code byte `SetWhiteBalanceMode(m)` sends, placed in a `90 50 cc FF` reply, reads back as m; UNKNOWN is exactly the mode that is never sent |
| ViscaIP.WhiteBalanceAliases | videocue/controllers/visca_ip.py:615-624 | the BirdDog codes 6 and 10 read as INDOOR and MANUAL; a code outside the table reads as UNKNOWN |
| ViscaIP.QueryBacklightComp | videocue/controllers/visca_ip.py:672-685 | a reply of 11 bytes or more reads on iff the low nibble of byte 10 is 2; a shorter reply gives None |
| ViscaIP.BacklightRoundTrip | videocue/controllers/visca_ip.py:540-543 | the code the backlight setter sends, echoed in a reply, reads back as the setting |
| ViscaIP.QueryVideoFormat | videocue/controllers/visca_ip.py:687-703 | a reply of 10 bytes or more reads its second reply byte (byte 9) as the format code when it is at most 0x0E, UNKNOWN beyond; a shorter reply reads UNKNOWN |
| ViscaIP.VideoFormatRoundTrip | videocue/controllers/visca_ip.py:687-709 | the code the format setter sends, as the second reply byte, reads back as the format |
| ViscaIP.ViscaClient.constructor | videocue/controllers/visca_ip.py:83-91 | a new client: the given address, the default port when none is given, sequence number 0, no socket, nothing sent |
| ViscaIP.ViscaClient.GetSeqNum | videocue/controllers/visca_ip.py:123-128 | returns the current counter and advances it to the next sequence number |
| ViscaIP.ViscaClient.BuildPacket | videocue/controllers/visca_ip.py:130-145 | always advances the counter; the packet is built iff the command fits the 16-bit length field, and it is the header with the old counter followed by the command |
| ViscaIP.ViscaClient.Close | videocue/controllers/visca_ip.py:98-108 | the socket is closed |
| ViscaIP.ViscaClient.SendCommand | videocue/controllers/visca_ip.py:147-171 | succeeds iff the command was built, fits the length field and the transport accepted it; a refused command changes nothing; a failure closes the socket; only a success adds a datagram |
| ViscaIP.ViscaClient.QueryCommand | videocue/controllers/visca_ip.py:173-225 | a socket that cannot be had gives None with the counter unchanged; a failed `sendto` gives None with the counter advanced and nothing logged as sent; otherwise the packet is logged with the current counter, a datagram is returned as the reply with the socket left open, an OS error on receive closes the socket and gives None, and a timeout closes the socket and raises `ViscaTimeoutError` |
| NdiVideo.StreamMetrics.constructor | videocue/controllers/ndi_video.py:32-38 | all five stream counters start at zero |
| NdiVideo.StreamMetrics.OnStart | videocue/controllers/ndi_video.py:46-49 | a start adds one to the active gauge and to the start count, and changes nothing else |
| NdiVideo.StreamMetrics.OnConnected | videocue/controllers/ndi_video.py:52-54 | a connection adds one to the connected gauge only |
| NdiVideo.StreamMetrics.OnFailed | videocue/controllers/ndi_video.py:57-59 | a failure adds one to the failure count only |
| NdiVideo.StreamMetrics.OnStop | videocue/controllers/ndi_video.py:62-69 | a stop counts one stop and lowers the active gauge (and the connected one if the stream was connected), never below zero, so counters stay non-negative |
| NdiVideo.Contribution | videocue/controllers/ndi_video.py:52-60 | what one worker adds between start and stop: at most one connection and one failure, nothing to the other counters |
| NdiVideo.ConvertFrame | videocue/controllers/ndi_video.py:1186-1286 | an image is produced iff the format is BGRA, RGBA or UYVY and the data covers `line_stride * height` bytes (and, for UYVY, the RGB conversion is non-empty); the image has the frame's size, and UYVY gives RGB888 at `width * 3` bytes per line |
| NdiVideo.SkipWraps | videocue/controllers/ndi_video.py:905-906 | with the skip counter in `1..abs(frame_skip + 1)`, `skip_count % (frame_skip + 1) == 0` holds exactly at the top of the range |
| NdiVideo.Probe | videocue/controllers/ndi_video.py:1021-1069 | the probe stage runs once, only with a receiver; it resumes polling iff it saw frames and the receiver was recreated and reconnected |
| NdiVideo.Recover | videocue/controllers/ndi_video.py:950-1070 | one recovery round: flags only go from unset to set; the manual reconnect is tried every round until it succeeds and is marked only then; recreation follows a manual attempt; the probe follows recreation; no stage runs without a receiver |
| NdiVideo.RecoverRoundCompleteness | videocue/controllers/ndi_video.py:950-1070 | without a receiver a round does nothing; no stage brings back a lost receiver; a round that does not resume has marked recreation, and the probe too when a receiver is left |
| NdiVideo.FailingManualReconnectNeverExhausts | videocue/controllers/ndi_video.py:956-979 | while every manual reconnect fails its flag is never set, so the recovery never counts as exhausted, however many rounds run |
| NdiVideo.ManualDoneThenOneFailedRoundExhausts | videocue/controllers/ndi_video.py:981-1075 | once the manual reconnect has succeeded, one round whose recreation and probe do not reconnect marks all three stages |
| NdiVideo.NdiVideoThread.constructor | videocue/controllers/ndi_video.py:466-492 | a new worker keeps the source name, defaults `frame_skip` to 6, is not running, holds no SDK resources and has counted nothing |
| NdiVideo.NdiVideoThread.FailOnce | videocue/controllers/ndi_video.py:1095-1097 | a worker's failure is counted the first time only |
| NdiVideo.NdiVideoThread.Fail | videocue/controllers/ndi_video.py:1095-1127 | a failure exit counts the failure once and emits that exit's error signal |
| NdiVideo.NdiVideoThread.Stop | videocue/controllers/ndi_video.py:1143-1161 | `stop()` clears the running flag and sets the stop event |
| NdiVideo.NdiVideoThread.Cleanup | videocue/controllers/ndi_video.py:1441-1477 | receiver, finder and conversion buffers are released; the stop is counted only if the start was, so a second cleanup changes no counter |
| NdiVideo.NdiVideoThread.SkipOrConvert | videocue/controllers/ndi_video.py:904-935 | every `frame_skip + 1`-th video frame is converted (and emitted when conversion succeeds); the counter restarts at 0 after a conversion and stays below `abs(frame_skip + 1)` |
| NdiVideo.NdiVideoThread.OnVideo | videocue/controllers/ndi_video.py:869-938 | the first frame after a (re)connect counts the stream connected once; the frame is freed after the skip step, except with `frame_skip == -1`, where the modulo raises first and the frame stays held |
| NdiVideo.NdiVideoThread.OnNoFrame | videocue/controllers/ndi_video.py:950-1102 | below the threshold an empty poll only counts; from it on a recovery round runs, which either resumes from a zero count with the first-frame flag set or, when all stages are marked, ends the loop as a failure |
| NdiVideo.NdiVideoThread.Handle | videocue/controllers/ndi_video.py:862-1127 | one poll: video frames count and reset the empty-poll count; an error frame and only it ends with the receive error; every SDK frame is freed except one held when the body raises; the frame-skip and recovery invariants are kept |
| NdiVideo.NdiVideoThread.PollLoop | videocue/controllers/ndi_video.py:862-1127 | over the whole loop, frames seen == converted * abs(frame_skip + 1) + skip counter; the probe is marked only after recreation, and recreation and manual marks only after a manual attempt; a no-frames failure means all stages marked |
| NdiVideo.NdiVideoThread.ReceptionLoop | videocue/controllers/ndi_video.py:528-1141 | a missing source or receiver ends before the loop with its error; otherwise the loop's invariants hold at exit, and a failure exit is counted once and emits one error |
| NdiVideo.NdiVideoThread.Run | videocue/controllers/ndi_video.py:494-527 | `run()` always cleans up: every start is matched by one stop, the active and connected gauges return to their values, a failure is counted iff the worker failed, and one error is emitted per failed or unstarted run |
| NdiVideo.SourceCache.constructor | videocue/controllers/ndi_video.py:28 | the source cache starts empty |
| NdiVideo.SourceCache.AddAll | videocue/controllers/ndi_video.py:1519-1527 | the cache becomes the old names followed by the polled names not yet cached, each once, in poll order (`Seqs.NewItems`); no name appears twice |
| NdiVideo.SourceCache.DiscoverAndCache | videocue/controllers/ndi_video.py:1479-1560 | returns 0 without NDI; otherwise each poll appends its new names to the cache, and polling stops at the first poll after which the expected count is reached, the timeout has passed, or nothing is expected (then after one poll), no earlier poll meeting any of these; it returns the size of the cache, which holds exactly the old names and every polled name |
| NdiVideo.SourceCache.PollUntilStopped | videocue/controllers/ndi_video.py:1513-1549 | the `while True` loop: at least one poll, the cache is the old one grown by each poll in turn, and the loop leaves at the first poll that meets a stop condition, after exactly one poll when nothing is expected |
| NdiVideo.CacheStep | videocue/controllers/ndi_video.py:1519-1527 | one poll adds exactly the names it brought: afterwards a name is cached iff it was before or the poll returned it |
| NdiVideo.CacheAfterHolds | videocue/controllers/ndi_video.py:1519-1560 | the cache after k polls holds exactly the old names and every name polled so far |
| ConfigManager.FirstWithId | videocue/models/config_manager.py:161-162 | the index of the first camera with this id, every earlier camera having another id; none iff no camera has it |
| ConfigManager.WithoutId | videocue/models/config_manager.py:135 | the cameras kept by the filter are exactly those whose id differs |
| ConfigManager.Renumbered | videocue/models/config_manager.py:137-138 | after renumbering each camera's position is its list index and nothing else changes |
| ConfigManager.LastWithId | videocue/models/config_manager.py:144 | the dict comprehension maps an id to a camera with that id (the last one listed); no entry iff no camera has it |
| ConfigManager.Picked | videocue/models/config_manager.py:147-150 | the rebuilt list holds only configured cameras whose id was listed, at most one per listed id |
| ConfigManager.LastIndexBelow | videocue/models/config_manager.py:153-154 | the last index below the bound holding this id, none later below the bound |
| ConfigManager.AliasedPositions | videocue/models/config_manager.py:153-154 | renumbering in place gives an id listed twice the position of its last occurrence in every entry |
| ConfigManager.ReorderWithDistinctIds | videocue/models/config_manager.py:141-157 | with distinct ids in the list, the reordered cameras are distinct and numbered 0..n-1 in list order |
| ConfigManager.PickedDistinct | videocue/models/config_manager.py:147-150 | distinct listed ids give distinct cameras |
| ConfigManager.LastIndexOfDistinct | videocue/models/config_manager.py:153-154 | among distinct ids each entry's last occurrence is its own index |
| ConfigManager.InsertByPosition | videocue/models/config_manager.py:313-315 | inserting into a position-sorted list keeps it sorted and adds exactly that camera |
| ConfigManager.SortByPosition | videocue/models/config_manager.py:313-315 | the sorted list is ordered by position and a permutation of the cameras |
| ConfigManager.SortKeepsSortedList | videocue/models/config_manager.py:313-315 | sorting is stable: a list already in position order comes back unchanged |
| ConfigManager.GetCamerasIsListOrder | videocue/models/config_manager.py:313-315 | when positions are the list indices, `get_cameras` returns the list itself |
| ConfigManager.FirstPresetNamed | videocue/models/config_manager.py:220-221 | the index of the first preset with this name, none earlier; none iff no preset has it |
| ConfigManager.WithoutPresetNamed | videocue/models/config_manager.py:212 | the presets kept are exactly those with another name |
| Seqs.Swap | videocue/models/config_manager.py:250-255 | the two entries trade places, every other one stays, and the list is a permutation of the old one |
| Seqs.NewItems | videocue/models/cue_manager.py:170-174 | the entries to append: exactly the incoming values not already held, with no value twice |
| Seqs.NewItemsStep | videocue/models/cue_manager.py:170-174 | one more incoming entry is appended exactly when neither the list nor the entries appended so far hold it |
| Seqs.AppendNewItems | videocue/controllers/ndi_video.py:1519-1527 | appending the new entries keeps a list free of duplicates |
| Seqs.NewItemsNone | videocue/models/cue_manager.py:170-174 | nothing is new when every incoming entry is already held |
| Seqs.NewItemsSettled | videocue/models/cue_manager.py:160-178 | after the new entries are appended once, a second pass with the same input adds nothing |
| ConfigManager.BaseNames | videocue/models/config_manager.py:182-183 | each camera's stored name cut at the first "(" and trimmed, in list order |
| ConfigManager.BaseName | videocue/models/config_manager.py:179-183 | `split("(")[0].strip()` has no "(" and is already trimmed |
| Text.StripKeepsOut | videocue/models/config_manager.py:183 | stripping only removes characters, so a character absent before is absent after |
| ConfigManager.FirstIndexOf | videocue/models/config_manager.py:181-188 | the index of the first equal base name, none earlier; none iff absent |
| ConfigManager.FirstIndexAt | videocue/models/config_manager.py:181-188 | the first match found is the first index holding the name |
| ConfigManager.BaseNameIgnoresAddress | videocue/models/config_manager.py:179-183 | names differing only after "(" have the same base, the trimmed part before it |
| ConfigManager.BeforeParen | videocue/models/config_manager.py:179 | `split("(")[0]` of a name followed by "(" is that name |
| ConfigManager.Config.constructor | videocue/models/config_manager.py:61-77 | the default schema: no cameras, default video size 512x288, frame skip 6, NDI video and single-instance mode on |
| ConfigManager.Config.IndexOfCamera | videocue/models/config_manager.py:161-162 | the search loop finds the first camera with this id |
| ConfigManager.Config.IndexOfPreset | videocue/models/config_manager.py:219-221 | the search loop finds the first preset with this name |
| ConfigManager.Config.AddCamera | videocue/models/config_manager.py:105-131 | a camera is appended with the fresh id, position = previous count, no presets, port 52381 and the default video size unless given; positions stay list indices |
| ConfigManager.Config.RemoveCamera | videocue/models/config_manager.py:133-139 | every camera with that id is removed and the rest renumbered 0..n-1 in order |
| ConfigManager.Config.ReorderCameras | videocue/models/config_manager.py:141-157 | the cameras follow the id list (unknown ids skipped, unlisted cameras dropped) and each entry gets the last index its camera occupies; with distinct ids, positions are 0..n-1 |
| ConfigManager.Config.RenumberAliased | videocue/models/config_manager.py:153-154 | the renumbering loop, where writing a position reaches every entry sharing the camera, gives the aliased positions |
| ConfigManager.Config.UpdateCamera | videocue/models/config_manager.py:159-165 | only the first camera with that id takes the given fields (the auto-pan preset keys included); with no such camera nothing changes |
| ConfigManager.SavedAutoPanPresets | videocue/ui/camera_widget.py:1503-1505 | the saved auto-pan preset names, or "" for a key the camera entry lacks |
| ConfigManager.AutoPanSelectionRestored | videocue/ui/camera_widget.py:1566-1568 | saving the two auto-pan selections through `update_camera` and reading them back gives them again, and nothing else in the camera entry changes |
| ConfigManager.Config.GetCamera | videocue/models/config_manager.py:167-172 | a camera with that id, and none iff no camera has it |
| ConfigManager.Config.GetCameraByNdiName | videocue/models/config_manager.py:174-190 | the first camera whose base name equals the searched one is returned with its stored name replaced by the full searched name; otherwise none and no change |
| ConfigManager.Config.IndexOfBaseName | videocue/models/config_manager.py:181-188 | the search loop finds the first camera with that base name |
| ConfigManager.Config.UpdateCameraNdiName | videocue/models/config_manager.py:192-197 | the first camera with that id takes the new NDI name; nothing else changes |
| ConfigManager.Config.AddPreset | videocue/models/config_manager.py:199-206 | the preset is appended to the first camera with that id only |
| ConfigManager.Config.RemovePreset | videocue/models/config_manager.py:208-214 | every preset with that name goes, from that camera only |
| ConfigManager.Config.UpdatePresetName | videocue/models/config_manager.py:216-226 | the first preset with the old name is renamed and true returned; false and no change for an unknown camera or name |
| ConfigManager.Config.UpdatePreset | videocue/models/config_manager.py:228-240 | the first preset with that name takes the new pan, tilt and zoom; false and no change otherwise |
| ConfigManager.Config.ReorderPreset | videocue/models/config_manager.py:242-261 | the first preset with that name trades places with its upper or lower neighbour iff the direction is "up" and it is not first or "down" and it is not last; otherwise false and no change; every preset list stays a permutation |
| ConfigManager.Config.GetPresets | videocue/models/config_manager.py:263-266 | the presets of the first camera with that id, or an empty list |
| ConfigManager.Config.GetCameras | videocue/models/config_manager.py:313-315 | the cameras ordered by position, a permutation of the list |
| ConfigManager.Config.SetDefaultVideoSize | videocue/models/config_manager.py:268-271 | stores `[width, height]` and changes no other preference |
| ConfigManager.Config.SetVideoFrameSkip | videocue/models/config_manager.py:277-280 | stores the frame skip and changes no other preference |
| ConfigManager.Config.SetNdiVideoEnabled | videocue/models/config_manager.py:286-289 | stores the NDI video flag and changes no other preference |
| ConfigManager.Config.SetSingleInstanceMode | videocue/models/config_manager.py:295-298 | stores the single-instance flag and changes no other preference |
| ConfigManager.Config.SetUsbControllerName | videocue/models/config_manager.py:304-307 | stores the USB controller name |
| ConfigManager.VideoFrameSkip | videocue/models/config_manager.py:282-284 | the stored frame skip, 6 when missing |
| ConfigManager.FlagOrTrue | videocue/models/config_manager.py:291-302 | a stored flag, true when missing |
| ConfigManager.PreferenceRoundTrip | videocue/models/config_manager.py:277-293 | setting then getting the frame skip and NDI flag gives back the values set |
| ConfigManager.PositionsStayIndices | videocue/models/config_manager.py:105-139 | adding and removing cameras keeps positions equal to list indices, so `get_cameras` returns the list in its own order |
| CueManager.AsValues | videocue/models/cue_manager.py:71-75 | a clean column list seen as loaded JSON: one string per column, in order |
| CueManager.DedupColumnsClean | videocue/models/cue_manager.py:61-75 | the kept columns are non-empty and distinct, and are exactly the non-empty strings of the loaded list |
| CueManager.DedupColumns | videocue/models/cue_manager.py:61-75 | the columns kept so far stay first, and each loaded entry adds at most one column |
| CueManager.DedupColumnsKeepsClean | videocue/models/cue_manager.py:65-75 | a column list that is already clean is kept unchanged |
| CueManager.CleanPresetMap | videocue/models/cue_manager.py:127-138 | the cleaned presets keep exactly the non-empty camera ids, each mapped to its preset when that is a non-empty string and to null otherwise |
| CueManager.NormalizeCueShape | videocue/models/cue_manager.py:85-142 | a normalised cue is well formed (non-empty id and name, string cue number, clean presets object), and its id is either the fresh one or its own, never one seen before unless fresh |
| CueManager.NormalizeCue | videocue/models/cue_manager.py:85-142 | the cue's id field holds the returned id; an id is kept only when it is a non-empty string not seen before, otherwise the fresh id replaces it and a change is reported |
| CueManager.LegacyCueMigrated | videocue/models/cue_manager.py:101-120 | a legacy cue's `camera_id`/`preset_uuid` pair becomes its presets object, its legacy `cue` its cue number, and the change is reported |
| CueManager.NormalizeCueKeepsWellFormed | videocue/models/cue_manager.py:85-142 | a well-formed cue with an unseen id is left as it is and reports no change |
| CueManager.NormalizeList | videocue/models/cue_manager.py:81-148 | non-objects are dropped, so the list never grows |
| CueManager.NormalizeListClean | videocue/models/cue_manager.py:81-148 | after normalisation every cue is well formed and no two cues share an id |
| CueManager.FreshForTail | videocue/models/cue_manager.py:87-90 | the fresh ids left for the rest of the list stay fresh after the head takes its id |
| CueManager.ConsUnique | videocue/models/cue_manager.py:87-90 | a cue whose id no later cue has keeps the ids unique |
| CueManager.NormalizeListIdempotent | videocue/models/cue_manager.py:81-148 | normalising a normalised cue list changes nothing and reports no change |
| CueManager.NormalizeIdempotent | videocue/models/cue_manager.py:54-150 | loading data that is already normalised reports no change, so nothing is saved back |
| CueManager.Normalize | videocue/models/cue_manager.py:54-150 | a missing cue list leaves no cues and reports a change; neither the cue list nor the column list grows |
| CueManager.NormalizeClean | videocue/models/cue_manager.py:54-150 | whatever was loaded, the columns are distinct and non-empty, the cues well formed with unique ids; a missing cue list always reports a change |
| CueManager.FirstCueWithId | videocue/models/cue_manager.py:180-185 | the index of the first cue with this id, none earlier; none iff no cue has it |
| CueManager.InsertPresets | videocue/models/cue_manager.py:210-216 | the presets of a new cue cover exactly the given columns; each holds a given string preset or null, and all are null when no presets are given |
| CueManager.DuplicatedPresets | videocue/models/cue_manager.py:237-250 | a duplicate's presets cover exactly the given columns, each the source cue's string preset or null |
| CueManager.ClampIndex | videocue/models/cue_manager.py:225 | `max(0, min(index, n))` lies in [0, n], is the index inside that range and the nearer end outside it |
| CueManager.WithoutCueId | videocue/models/cue_manager.py:284 | the cues kept are exactly those with another id |
| CueManager.WithoutCueIdShrinks | videocue/models/cue_manager.py:282-286 | the list gets shorter iff some cue had that id |
| CueManager.Cues.constructor | videocue/models/cue_manager.py:17-21 | loading stores the normalised columns and cues and saves back iff normalisation changed something; with fresh new ids the result is valid |
| CueManager.Cues.NormalizeColumns | videocue/models/cue_manager.py:57-75 | the column loop keeps each non-empty string once, in first-occurrence order, and reports a change iff the list was missing or differs |
| CueManager.Cues.NormalizeCueList | videocue/models/cue_manager.py:81-148 | the cue loop computes the normalised list and its change flag |
| CueManager.Cues.CueById | videocue/models/cue_manager.py:180-185 | a cue with that id, none iff no cue has it |
| CueManager.Cues.SyncCameraColumns | videocue/models/cue_manager.py:160-178 | with no columns they become the loaded ids; otherwise the columns become the old ones followed by exactly the loaded ids not yet present, each once, in loaded order (`Seqs.NewItems`); the columns stay distinct |
| CueManager.Cues.AddCue | videocue/models/cue_manager.py:187-199 | a cue with the fresh id, the given number and name and a null preset per column is appended; a fresh id keeps the list valid |
| CueManager.Cues.InsertCueAt | videocue/models/cue_manager.py:201-230 | the new cue is inserted at the clamped index, everything else keeps its order |
| CueManager.Cues.DuplicateCueAt | videocue/models/cue_manager.py:232-250 | none and no change for an unknown id; otherwise a copy of the cue's number, name and column presets is inserted at the clamped index under the fresh id |
| CueManager.Cues.UpdateCueField | videocue/models/cue_manager.py:252-263 | succeeds iff the cue exists and the field is "cue_number" or "name"; then only that field of the first such cue changes |
| CueManager.Cues.UpdateCameraPreset | videocue/models/cue_manager.py:265-278 | an existing cue's preset for that camera is set, or nulled for an empty or absent preset; false and no change otherwise |
| CueManager.Cues.RemoveCue | videocue/models/cue_manager.py:280-288 | every cue with that id is dropped, and true is returned iff one was |
| CueManager.Cues.PresetForCamera | videocue/models/cue_manager.py:290-302 | the mapped preset iff the cue exists and maps that camera to a non-empty string |
| CueManager.PresetRoundTrip | videocue/models/cue_manager.py:265-302 | setting a camera's preset and reading it back gives that preset, or none after clearing it |
| Video.Presets | videocue/models/video.py:21-30 | there are five sizes, all 16:9, with strictly increasing widths |
| Video.PresetsLabelled | videocue/models/video.py:21-30 | each size is labelled "W x H" with its own dimensions |
| Video.PresetLabelled | videocue/models/video.py:24-30 | the k-th size is labelled with its own dimensions |
| Video.GetDefault | videocue/models/video.py:32-35 | the default is one of the sizes: 512 by 288, labelled with its dimensions |
| Video.NamedPreset | videocue/models/video.py:41-45 | a preset built from a name alone has pan, tilt and zoom 0 |
| Video.ToDict | videocue/models/video.py:47-54 | the dictionary has exactly the keys name, pan, tilt and zoom, holding the preset's fields |
| Video.FromDict | videocue/models/video.py:56-63 | fails iff the name is missing; otherwise it takes the name, and pan, tilt and zoom default to 0 |
| Video.PresetRoundTrip | videocue/models/video.py:47-63 | `from_dict(to_dict(p))` gives p back |
| Video.NameOnlyDefaults | videocue/models/video.py:56-63 | a dictionary holding only a name gives that name's preset at pan, tilt and zoom 0 |
| Video.DictRoundTrip | videocue/models/video.py:47-63 | a dictionary with the four keys survives `from_dict` then `to_dict` unchanged |
| Text.StripLeftSpec | videocue/models/config_manager.py:179 | `strip()` removes exactly the leading whitespace |
| Text.StripRightSpec | videocue/models/config_manager.py:179 | `strip()` removes exactly the trailing whitespace |
| Text.StripSpec | videocue/models/config_manager.py:179-183 | the stripped text is a slice of its input, and it neither begins nor ends with whitespace |
| Text.StripKeepsTrimmed | videocue/ui/camera_add_dialog.py:538 | text without surrounding whitespace is left as it is |
| Text.StripIdempotent | videocue/models/config_manager.py:179-183 | stripping twice is the same as stripping once |
| Text.CountChar | videocue/ui/camera_add_dialog.py:549 | `count(c)` is at most the length, and 0 iff c does not occur |
| Text.Find | videocue/ui/main_window.py:564-565 | the first index of c, with no earlier c, or -1 iff c does not occur |
| Text.BeforeFirst | videocue/models/config_manager.py:179 | `split(c)[0]` is the longest prefix without c, ended by c or by the end of the text |
| Text.Slice | videocue/ui/main_window.py:566 | the length of `s[a:b]` is clamped to the text and is empty when a >= b |
| Text.NatDecimal | videocue/ui/main_window.py:1038 | `str(n)` of a natural number is a non-empty run of digits |
| Text.ThreeDigits | videocue/models/video.py:25-29 | a three-digit number is written with its three digits |
| Text.DigitsOfDecimal | videocue/ui/main_window.py:1038 | reading back the digits of `str(n)` gives n |
| Text.DecimalIsDigitRun | videocue/ui/main_window.py:1038 | `str(n)` is a digit run that `int()` accepts |
| Text.ParseDecimal | videocue/ui/main_window.py:1038 | `int(str(n)) == n` |
| Text.Split | videocue/ui/main_window.py:1038-1039 | `split(c)` gives at least one piece, and no piece contains c |
| Text.SplitAround | videocue/ui/main_window.py:1038-1039 | splitting `s + c + t` gives the pieces of s followed by the pieces of t |
| Text.SplitJoin | videocue/ui/main_window.py:1038-1039 | joining the pieces with c gives back the text |
| CameraWidget.DisplayName | videocue/ui/camera_widget.py:208-219 | the shown name starts with the NDI name, so a label never hides the source it names |
| CameraWidget.DisplayNameShowsAddress | videocue/ui/camera_widget.py:208-219 | the shown name always contains the address, ignoring case |
| CameraWidget.DisplayNameIdempotent | videocue/ui/camera_widget.py:208-219 | formatting a shown name again with the same address changes nothing |
| CameraWidget.RetryStep | videocue/ui/camera_widget.py:1964-1981 | below the limit of 3 the count goes up by one and the next retry waits 2^count seconds; at the limit the count is reset and nothing is scheduled |
| CameraWidget.RetryDelays | videocue/ui/camera_widget.py:1964-1981 | n retries in a row produce n delays, one per retry |
| CameraWidget.RetryBackoff | videocue/ui/camera_widget.py:1964-1981 | from a fresh count the retries wait 2, 4 and 8 seconds, then give up and the count starts over |
| CameraWidget.RetryDelaysCycle | videocue/ui/camera_widget.py:1964-1981 | from any count within the limit, the k-th retry waits 2^(c+1) seconds when c = (count + k) mod 4 is below 3, and gives up with no retry scheduled when c = 3 |
| CameraWidget.AddressableSlots | videocue/controllers/visca_ip.py:464-494 | a preset slot can be stored and recalled exactly when it is in 0..254 |
| CameraWidget.NextTarget | videocue/ui/camera_widget.py:1618-1625 | every tick flips the auto-pan target to the other side |
| CameraWidget.TickSides | videocue/ui/camera_widget.py:1616-1625 | the ticks alternate: the k-th tick aims at the starting side when k is even and at the other side when k is odd |
| Seqs.IndexOf | videocue/ui/camera_widget.py:1635 | `list.index` gives a position holding the value, and no earlier position holds it |
| CameraWidget.IndexOfFirstNamed | videocue/ui/camera_widget.py:1630-1635 | `presets.index` of the first preset with a name is that preset's own position |
| CameraWidget.AutoPanSlot | videocue/ui/camera_widget.py:1628-1638 | the slot a tick recalls is the position of the first preset with the name, and None iff no preset has it |
| CameraWidget.DuplicateNameUnreachable | videocue/ui/camera_widget.py:2003-2036 | a preset stored under a name already in use is never the one its name recalls |
| CameraWidget.DuplicateNameExample | videocue/ui/camera_widget.py:2003-2036 | two presets stored as "Wide": recalling "Wide" goes to slot 0, not to slot 1 |
| CameraWidget.NewNameRecallsStoredSlot | videocue/ui/camera_widget.py:2003-2036 | a preset stored under a new name is the one its name recalls |
| CameraWidget.ExposureControlsFor | videocue/ui/camera_widget.py:1648-1682 | iris is shown iff the mode is manual or iris priority, shutter iff manual or shutter priority, gain iff manual, and brightness iff bright |
| CameraWidget.ExposureControlsConsistent | videocue/ui/camera_widget.py:1648-1682 | gain is shown only with iris and shutter, brightness only alone, and auto mode shows none |
| CameraWidget.WhiteBalanceControlsFor | videocue/ui/camera_widget.py:1756-1776 | the red and blue gains are shown iff the mode is manual, and the one-push button iff the mode is one-push |
| CameraWidget.WhiteBalanceControlsExclusive | videocue/ui/camera_widget.py:1756-1776 | the manual gains and the one-push button are never shown together |
| CameraWidget.ClampBrightness | videocue/ui/camera_widget.py:766 | the slider keeps its value within 0 to 41 and leaves a value in range as it is |
| CameraWidget.BrightnessAfter | videocue/ui/camera_widget.py:2238-2243 | one press moves the brightness by the step toward 41 or 0 and stops at the end of the range |
| CameraWidget.BrightnessRoundTrip | videocue/ui/camera_widget.py:2225-2265 | away from the ends, one press up followed by one press down gives back the value |
| CameraWidget.Widget.constructor | videocue/ui/camera_widget.py:66-98 | a new tile is not selected, not connected, has a retry count of 0, has auto pan stopped and aimed left, and has brightness 21 |
| CameraWidget.Widget.FormatDisplayName | videocue/ui/camera_widget.py:190-224 | the cached name is returned unless there is none or a refresh is forced; otherwise the name is formatted from the given or the tile's own NDI name and address, and cached |
| CameraWidget.Widget.UpdateStatusIndicator | videocue/ui/camera_widget.py:1795-1810 | the connection state becomes the outcome; losing the connection shows the reconnect button, regaining it hides the button, and the controls are enabled iff connected |
| CameraWidget.Widget.RetryConnection | videocue/ui/camera_widget.py:1964-1981 | the timer restarts with 2^count seconds and one reconnection is scheduled, or at the limit the count resets and the reconnect button is shown |
| CameraWidget.Widget.StartRetryMechanism | videocue/ui/camera_widget.py:1983-1990 | a connected tile does nothing; otherwise the count resets and a first retry is scheduled |
| CameraWidget.Widget.StopRetryMechanism | videocue/ui/camera_widget.py:1992-1995 | the retry timer stops and the count is reset |
| CameraWidget.Widget.AutoPanTick | videocue/ui/camera_widget.py:1616-1638 | the target flips; the slot of the first preset named on the old target side is recalled when it is in 0..254, and nothing is sent for a missing preset or a slot above 254 |
| CameraWidget.Widget.OnStartAutoPan | videocue/ui/camera_widget.py:1571-1603 | a missing or placeholder preset, or the same preset on both sides, changes nothing; otherwise the timer runs every delay, auto pan is on, and the left preset is recalled at once when its slot is in 0..254 |
| CameraWidget.Widget.OnStopAutoPan | videocue/ui/camera_widget.py:1605-1613 | the timer stops and auto pan is off |
| CameraWidget.Widget.OnExposureModeChanged | videocue/ui/camera_widget.py:1648-1682 | exactly the controls the mode leaves to the operator are shown; a sent command's outcome updates the indicator |
| CameraWidget.Widget.OnWhiteBalanceModeChanged | videocue/ui/camera_widget.py:1756-1776 | exactly the white balance controls of the mode are shown; a sent command's outcome updates the indicator |
| CameraWidget.Widget.HandleUsbBrightness | videocue/ui/camera_widget.py:2225-2265 | only the selected tile in bright mode moves its brightness by one step within [0, 41]; a brightness that changes sends the brightness command for the new value and the send's outcome sets the connection indicator (camera_widget.py:1711-1721); otherwise nothing is sent and the indicator stays |
| CameraWidget.Widget.StorePresetDialog | videocue/ui/camera_widget.py:2003-2036 | with a name entered and the slot (the preset count) in 0..254, the position is stored in that slot and the preset is appended iff the camera accepts; a slot above 254 sends nothing and appends nothing; nothing is done without a name |
| CameraWidget.Widget.StorePresetDialogChecked | videocue/ui/camera_widget.py:2003-2036 | the corrected dialog also refuses a name already in use, so a stored preset is always the one its name recalls; the slot range and acceptance rules are those of the dialog as written |
| CameraWidget.Widget.RecallPreset | videocue/ui/camera_widget.py:2038-2060 | the slot of the first preset with the name is recalled when it is in 0..254 and the outcome updates the indicator; a slot above 254 sends nothing and marks the camera disconnected; nothing happens without such a preset |
| MainWindow.ExtractIpFromNdiName | videocue/ui/main_window.py:561-567 | without both "(" and ")" the default address 192.168.1.100 is returned |
| MainWindow.ExtractIpRoundTrip | videocue/ui/main_window.py:561-567 | a name of the form "Name (address)" gives back the trimmed address |
| MainWindow.ExtractIpClosingFirst | videocue/ui/main_window.py:563-566 | when ")" comes before "(", the slice is empty and so is the result |
| MainWindow.ParseParts | videocue/ui/main_window.py:1038-1039 | the piece list parses iff every piece is an integer `int` accepts, and then holds their values in order |
| MainWindow.Pad | videocue/ui/main_window.py:1041-1044 | padding keeps the parts and appends zeros up to the common length |
| MainWindow.IsNewerVersion | videocue/ui/main_window.py:1035-1049 | a version is newer only when both versions parse |
| MainWindow.GreaterIrreflexive | videocue/ui/main_window.py:1046 | list `>` is irreflexive |
| MainWindow.GreaterAsymmetric | videocue/ui/main_window.py:1046 | list `>` is asymmetric |
| MainWindow.NewerIrreflexive | videocue/ui/main_window.py:1035-1049 | no version is newer than itself |
| MainWindow.NewerAsymmetric | videocue/ui/main_window.py:1035-1049 | two versions are never each newer than the other |
| MainWindow.NonNumericNeverNewer | videocue/ui/main_window.py:1047-1049 | a version with a non-integer piece is never newer or older, since `ValueError` makes the answer false |
| MainWindow.ParsePartsSnoc | videocue/ui/main_window.py:1038 | parsing pieces plus one more is the parse of the pieces extended by that piece's value |
| MainWindow.TrailingZeroNotNewer | videocue/ui/main_window.py:1041-1046 | zero padding makes a trailing ".0" irrelevant: "1.0" is neither newer nor older than "1" |
| MainWindow.SplitTrailingZero | videocue/ui/main_window.py:1038 | `(v + ".0").split(".")` is `v.split(".")` followed by "0" |
| MainWindow.ParseZero | videocue/ui/main_window.py:1038 | `int("0")` is 0 |
| MainWindow.IndexOf | videocue/ui/main_window.py:607 | `cameras.index(camera)`: the first index holding that camera; none iff absent |
| MainWindow.Highlighted | videocue/ui/main_window.py:695-701 | the tiles keep their widgets and connection flags, and exactly the one at the index is selected |
| MainWindow.StopOnLeave | videocue/ui/main_window.py:683-692 | a stop for the previously selected camera iff the option is on, its index is valid and it is connected |
| MainWindow.RemoveKeepsDistinct | videocue/ui/main_window.py:569-601 | removing a tile keeps the widgets distinct |
| MainWindow.SwapKeepsDistinct | videocue/ui/main_window.py:603-651 | swapping two tiles keeps the widgets distinct |
| MainWindow.SwapFollowsSelection | videocue/ui/main_window.py:620-623 | after a swap the adjusted selection index points to the same camera |
| MainWindow.Window.constructor | videocue/ui/main_window.py:40-92 | a window starts with its tiles, each a distinct widget, selection index 0 and no stop sent |
| MainWindow.Window.SelectedCamera | videocue/ui/main_window.py:703-707 | the selected camera iff the index is in range |
| MainWindow.Window.SelectCameraAtIndex | videocue/ui/main_window.py:678-701 | out-of-range indices change nothing; otherwise the previous camera gets a stop when the option is on, its index is valid and it is connected, and the tiles keep their widgets and connection flags with exactly the target selected; the widgets stay distinct |
| MainWindow.Window.SelectCamera | videocue/ui/main_window.py:670-676 | with cameras, the selection moves to the index plus the offset modulo the count, with the same stop and highlight as selecting that index; with none nothing changes |
| MainWindow.Window.MoveCameraLeft | videocue/ui/main_window.py:603-626 | the camera swaps with its left neighbour and the selection stays on the camera it was on; nothing for the first or an unknown camera; the widgets stay distinct |
| MainWindow.Window.MoveCameraRight | videocue/ui/main_window.py:628-651 | the camera swaps with its right neighbour and the selection stays on the camera it was on; nothing for the last or an unknown camera; the widgets stay distinct |
| MainWindow.Window.RemoveCamera | videocue/ui/main_window.py:569-601 | after confirmation the camera is dropped and the rest keep their order, widgets and connection flags; with tiles left, the index is clamped to the last tile, that tile alone is highlighted, and the stop goes to the camera now at the clamped index when the option is on and it is connected; with none left nothing else changes; without confirmation nothing changes |
| MainWindow.RemoveLeftOfSelection | videocue/ui/main_window.py:597-600 | removing a camera left of the selected one keeps the index, so the selection moves on to the camera that slid into its place |
| UsbController.NoConfig | videocue/controllers/usb_controller.py:171-173 | without a configuration, brightness control is off with buttons 3 and 0, the stick mode is "single" and the vertical axis is not inverted |
| UsbController.Trunc | videocue/controllers/usb_controller.py:213 | `int(x)` truncates toward zero: less than one below x in magnitude, never above it, with x's sign |
| UsbController.AxisValue | videocue/controllers/usb_controller.py:212-214 | the quantised reading lies in [-1, 1], keeps the sign, and for an in-range reading is less than 0.001 below it in magnitude |
| UsbController.DeadZone | videocue/controllers/usb_controller.py:326-333 | a stick reading counts as centred iff its magnitude is at most 0.15, and is kept as it is otherwise |
| UsbController.HatDirection | videocue/controllers/usb_controller.py:292-310 | the D-pad direction has exactly the pressed unit vector, and is STOP iff the pad is centred or the reading is out of range |
| UsbController.HatRoundTrip | videocue/controllers/usb_controller.py:292-310 | each direction is reached by its own D-pad vector |
| UsbController.HatSignal | videocue/controllers/usb_controller.py:273-310 | the D-pad emits its direction (after the optional y inversion) at the D-pad speed, or STOP at speed 0 |
| UsbController.StickDirection | videocue/controllers/usb_controller.py:343-366 | the stick direction never points against the stick; it is STOP iff centred, diagonal iff both axes pass 0.6, and otherwise horizontal iff the x reading dominates |
| UsbController.StickDirectionSymmetric | videocue/controllers/usb_controller.py:343-366 | mirroring the stick left-right or up-down mirrors the direction |
| UsbController.StickSpeed | videocue/controllers/usb_controller.py:339-340 | the stick speed is the configured one for any direction and 0 when centred |
| UsbController.TriggerSignal | videocue/controllers/usb_controller.py:246-271 | a trigger zooms (out for axis 4, in for axis 5) at `(value + 1) / 2 * zoom_speed` unless the reading is at most -0.9, which stops the zoom |
| UsbController.ButtonAction | videocue/controllers/usb_controller.py:166-204 | a brightness signal comes exactly from the two brightness buttons with brightness control on |
| UsbController.ButtonActionsOnePerButton | videocue/controllers/usb_controller.py:166-204 | each action signal is emitted by one button only |
| UsbController.NoConfigButtons | videocue/controllers/usb_controller.py:169-204 | without a configuration only buttons 1, 2, 4 and 5 have an action |
| UsbController.Controller.constructor | videocue/controllers/usb_controller.py:53-73 | a new controller has no joystick, centred axes, direction STOP and has emitted nothing |
| UsbController.Controller.CheckHotplug | videocue/controllers/usb_controller.py:90-112 | a new device is announced by name and the stick state is kept; a vanished one is reported and the left stick reset with STOP and zoom stop, the right stick kept; otherwise nothing changes |
| UsbController.Controller.HandleButtonDown | videocue/controllers/usb_controller.py:166-204 | a press is announced, followed by the button's action signal if it has one |
| UsbController.Controller.HandleButtonUp | videocue/controllers/usb_controller.py:206-208 | a release is announced |
| UsbController.Controller.UpdateMovementDirection | videocue/controllers/usb_controller.py:312-370 | the direction of the dead-zoned, optionally inverted stick is emitted with its speed only when it differs from the current one, which it replaces |
| UsbController.Controller.HandleAxisMotion | videocue/controllers/usb_controller.py:210-271 | the quantised reading is announced and stored for its axis; the left stick always updates the direction, the right stick only in dual mode, and the triggers zoom; readings stay in [-1, 1] |
| UsbController.Controller.HandleHatMotion | videocue/controllers/usb_controller.py:273-277 | only hat 0 emits, with the D-pad signal |
| UsbController.Controller.ResetState | videocue/controllers/usb_controller.py:372-378 | the left stick is centred, the direction becomes STOP, and STOP and zoom stop are emitted |
| UsbController.HoldingStickEmitsOnce | videocue/controllers/usb_controller.py:367-370 | holding the stick still emits the direction once: a second identical reading emits only the axis announcement |
| NetMask.BitsValue | videocue/utils/network_interface.py:27 | an address octet written as bits reads back as the same number |
| NetMask.SameNetworkLeadingBits | videocue/utils/network_interface.py:33 | two addresses share the network of prefix length p iff their first p bits agree |
| NetMask.SameNetworkExtremes | videocue/utils/network_interface.py:33 | every pair of addresses shares the /0 network, and only equal addresses share a /32 network |
| NetMask.SameNetworkNested | videocue/utils/network_interface.py:33 | addresses in the same network also share every shorter-prefix network around it |
| NetMask.MaskInjective | videocue/utils/network_interface.py:27 | different prefix lengths have different masks |
| NetMask.PrefixOfMaskFrom | videocue/utils/network_interface.py:27 | finds the prefix length, from p up, whose mask is the given bits, and None iff no such length exists |
| NetMask.MaskPrefix | videocue/utils/network_interface.py:27 | a dotted mask reads as a netmask first and as a host mask second, and None iff it is neither |
| NetMask.NetmaskPrefixRoundTrip | videocue/utils/network_interface.py:27 | the netmask of prefix length p reads back as p |
| NetMask.HostmaskPrefixRoundTrip | videocue/utils/network_interface.py:27 | the host mask of a prefix length strictly between 0 and 32 reads back as that length |
| NetMask.NumAddressesShrinks | videocue/utils/network_interface.py:120 | a longer prefix has fewer addresses, half as many for each extra bit |
| NetworkInterface.NewInterface | videocue/utils/network_interface.py:18-22 | the fields are kept, and an empty description falls back to the name |
| NetworkInterface.ListInterfaces | videocue/utils/network_interface.py:48-77 | exactly the addresses of interfaces that are not down, that are IPv4 and that are neither loopback nor link-local are listed, each named after its interface |
| NetworkInterface.FallbackInterfaces | videocue/utils/network_interface.py:82-91 | every non-loopback host address is listed as interface "default" with netmask 255.255.255.0 and the address as its description (the constructor puts the name there for an empty address), and every entry is one of the host addresses |
| NetworkInterface.BestMatch | videocue/utils/network_interface.py:98-126 | the interface the lookup should return: on the camera's subnet, none on it with fewer addresses, every earlier one on it with more |
| NetworkInterface.BestMatchUnique | videocue/utils/network_interface.py:98-126 | at most one interface is the best match, so the lookup's answer is determined |
| NetworkInterface.ParseOctet | videocue/utils/network_interface.py:32 | an accepted octet has one to three ASCII digits, no leading zero, and a value of at most 255 |
| NetworkInterface.ParseAddress | videocue/utils/network_interface.py:32 | an accepted address has exactly four dot-separated octets, each accepted, giving 32 bits |
| NetworkInterface.ParsePrefixLength | videocue/utils/network_interface.py:27 | a netmask written as a prefix length is at most 32 |
| NetworkInterface.NetmaskPrefix | videocue/utils/network_interface.py:27 | a netmask that is not a prefix length is read as a dotted mask; one accepted in either form gives a length of at most 32 |
| NetworkInterface.Network | videocue/utils/network_interface.py:24-27 | the network exists iff neither field holds a '/' and both parse; its address is the interface address masked by the prefix |
| NetworkInterface.IsOnSameSubnet | videocue/utils/network_interface.py:29-35 | true iff the network and the target both parse and the target shares the interface's network; false on every parse error |
| NetworkInterface.PrefixExtremes | videocue/utils/network_interface.py:29-35 | on a /0 network every address is on the subnet; on a /32 network only the interface's own address is |
| NetworkInterface.OwnAddressOnSubnet | videocue/utils/network_interface.py:29-35 | an interface whose network parses is on its own subnet |
| NetworkInterface.FirstSmallest | videocue/utils/network_interface.py:120 | `min` with a key returns the first accepted element of smallest key, and None iff nothing is accepted |
| NetworkInterface.FindInterface | videocue/utils/network_interface.py:98-126 | None iff no interface is on the camera's subnet; otherwise the first matching interface whose network has the fewest addresses |
| NetworkInterface.ChosenIp | videocue/utils/network_interface.py:145-147 | the address of the interface chosen for the camera, and None iff none is chosen |
| NetworkInterface.ChoicesAt | videocue/utils/network_interface.py:144-147 | the k-th choice is the interface address chosen for the k-th camera |
| NetworkInterface.ChoicesNone | videocue/utils/network_interface.py:149-150 | every choice is None iff no camera has an interface |
| NetworkInterface.PreferredInterfaceIp | videocue/utils/network_interface.py:129-157 | None iff no camera has an interface (and always for no cameras); otherwise the address chosen for the most cameras, the first chosen among equals |
| Tally.TallyOf | videocue/utils/network_interface.py:143-147 | the counting loop's dictionary: no more entries than choices, and every key is one of the choices |
| Tally.CountPositive | videocue/utils/network_interface.py:147 | a value is counted iff it was chosen |
| Tally.KeyIndex | videocue/utils/network_interface.py:147 | the position of a key in the dictionary, and None iff it is absent |
| Tally.Increment | videocue/utils/network_interface.py:147 | an existing key's count goes up by one in place; a new key is appended with count 1 |
| Tally.TallyOfTallied | videocue/utils/network_interface.py:143-147 | the dictionary the loop builds holds each chosen value once, with how often it was chosen, in the order of first choice |
| Tally.FirstMaximum | videocue/utils/network_interface.py:153 | `max` with a key gives the first entry whose count is the largest |
| Tally.MaxIsMostChosen | videocue/utils/network_interface.py:153 | the first entry with the largest count is the value chosen most often, and the first chosen among equals |
| Tally.TallyEmpty | videocue/utils/network_interface.py:149-150 | the dictionary is empty iff nothing was chosen |
| Tally.TallyMaximum | videocue/utils/network_interface.py:143-153 | `max` over the built dictionary is the value chosen most often, and the first chosen among equals |
| Utils.TruncateError | videocue/utils/__init__.py:54-65 | the result is a prefix of the message, of length `max_length` capped at the message's length, or with a negative bound that many characters short of the whole |
| Utils.TruncateIdempotent | videocue/utils/__init__.py:54-65 | truncating a second time to the same bound changes nothing |
| Utils.ShortMessageKept | videocue/utils/__init__.py:54-65 | a message of at most 50 characters is shown whole under the default bound |
| Utils.RunEnd | videocue/utils/__init__.py:69 | a greedy `\d+` stops at the first non-digit after `i`, having read only digits |
| Utils.MatchAt | videocue/utils/__init__.py:69 | a match of the pattern at `i` is a dotted quad whose last run of digits is taken whole |
| Utils.MatchAtComplete | videocue/utils/__init__.py:69 | the pattern matches at `i` iff a dotted quad starts at `i` |
| Utils.SearchFrom | videocue/utils/__init__.py:82 | `search` returns the leftmost position from `i` at which the pattern matches, and nothing iff it matches nowhere |
| Utils.ExtractIpFromUrl | videocue/utils/__init__.py:72-83 | None iff the pattern matches nowhere in the URL |
| Utils.ExtractIpNone | videocue/utils/__init__.py:72-83 | None iff no dotted quad occurs anywhere in the URL |
| Utils.ExtractIpLeftmost | videocue/utils/__init__.py:72-83 | a found address is a dotted quad cut out of the URL at the first position where one starts |
| Utils.ExtractsAddress | videocue/utils/__init__.py:72-83 | an address with no digits before it and none right after it is extracted whole from the URL |
| ControllerPreferences.Buttons | videocue/ui/controller_preferences_dialog.py:206-213 | a button list offers buttons 0, 1, 2, 3, 6, 7, 8 and 9, in that order |
| ControllerPreferences.ComboItems | videocue/ui/controller_preferences_dialog.py:205-291 | the two brightness lists offer only the buttons, and the focus, stop and menu lists offer "None" first |
| ControllerPreferences.NoneAlwaysEnabled | videocue/ui/controller_preferences_dialog.py:451-454 | the "None" entry of a list is always enabled |
| ControllerPreferences.DistinctSelectionsStayEnabled | videocue/ui/controller_preferences_dialog.py:419-468 | when no two lists select the same button, the item each list selects stays enabled in that list |
| ControllerPreferences.DefaultsDistinct | videocue/ui/controller_preferences_dialog.py:505-531 | the five default buttons (3, 0, 1, 2, 7) differ, and each is offered by its own list |
| ControllerPreferences.DefaultsEnabled | videocue/ui/controller_preferences_dialog.py:419-531 | with the default mappings, each list's own default item is enabled |
| ControllerPreferences.DefaultsTakenElsewhere | videocue/ui/controller_preferences_dialog.py:419-531 | with the default mappings, each default button is disabled in the four other lists |
| ControllerPreferences.ConfiguredButton | videocue/ui/controller_preferences_dialog.py:505-528 | a list is given the value stored under its key (a button or null), or the list's default when the key is missing |
| ControllerPreferences.SaveButtonMappings | videocue/ui/controller_preferences_dialog.py:630-640 | each list's current data, null for "None", is stored under its key; every other key is kept |
| ControllerPreferences.SavedSelectionsReload | videocue/ui/controller_preferences_dialog.py:505-528 | loading what was saved asks every list for its own saved selection, "None" included |
| ControllerPreferences.EmptyConfigSelectsDefaults | videocue/ui/controller_preferences_dialog.py:505-531 | with nothing configured, every list is given its default button and offers it |
| ControllerPreferences.ButtonMappings.constructor | videocue/ui/controller_preferences_dialog.py:205-291 | each list first selects its first item, and every item is enabled |
| ControllerPreferences.ButtonMappings.IsUsedElsewhere | videocue/ui/controller_preferences_dialog.py:456-464 | true iff some other list selects the button |
| ControllerPreferences.ButtonMappings.UpdateButtonAvailability | videocue/ui/controller_preferences_dialog.py:419-468 | every "None" item is enabled, and a button item is enabled iff no other list selects that button |
| ControllerPreferences.ButtonMappings.LoadButtonMappings | videocue/ui/controller_preferences_dialog.py:505-534 | each list selects its configured or default button when it offers it, and keeps its selection otherwise; the availability then matches the new selections |
| ControllerPreferences.Stepped | videocue/ui/controller_preferences_dialog.py:576-593 | a slider step moves the value by 5 within the range, stopping at the end |
| ControllerPreferences.SteppedRoundTrip | videocue/ui/controller_preferences_dialog.py:576-593 | away from the ends, a step up followed by a step down gives back the value, and the other way round too |
| ControllerPreferences.SteppedMonotone | videocue/ui/controller_preferences_dialog.py:576-593 | stepping keeps the order of two slider positions |
| ControllerPreferences.Slider.constructor | videocue/ui/controller_preferences_dialog.py:576-593 | a slider holds its range and a value inside it |
| ControllerPreferences.Slider.Step | videocue/ui/controller_preferences_dialog.py:576-593 | the value takes one step of 5 up or down, clamped to the range |
| ControllerPreferences.CheckBox.constructor | videocue/ui/controller_preferences_dialog.py:552-556 | a check box holds its checked state |
| ControllerPreferences.OnBButtonPressed | videocue/ui/controller_preferences_dialog.py:552-556 | a focused check box is toggled, and a focused slider is left alone |
| ControllerPreferences.OnMovementDirection | videocue/ui/controller_preferences_dialog.py:558-581 | right steps a focused slider up by 5 and left steps it down by 5, within its range; other directions and other widgets are unchanged |
| ControllerPreferences.OnBrightnessButton | videocue/ui/controller_preferences_dialog.py:583-593 | a focused slider steps by 5 up or down within its range, and a check box is unchanged |
| CameraAddDialog.BoxFor | videocue/ui/camera_add_dialog.py:390-399 | a discovered name gets a box labelled with it, checked and enabled exactly when no existing camera has that NDI name |
| CameraAddDialog.CheckedTexts | videocue/ui/camera_add_dialog.py:534 | the selection holds exactly the labels of checked boxes, in box order |
| CameraAddDialog.DiscoverySelectsNewCameras | videocue/ui/camera_add_dialog.py:386-404 | right after discovery the selection is exactly the discovered names not yet added, in discovery order |
| CameraAddDialog.Dots | videocue/ui/camera_add_dialog.py:193 | `"." * n` is n dots |
| CameraAddDialog.Dialog.constructor | videocue/ui/camera_add_dialog.py:71-85 | a new dialog has no boxes, no dots, neither guard flag set, no timer, an enabled "Search" button and both manual boxes unchecked |
| CameraAddDialog.Dialog.IsCameraAlreadyAdded | videocue/ui/camera_add_dialog.py:473-478 | true iff some existing camera config has exactly this `ndi_source_name` |
| CameraAddDialog.Dialog.SelectedNdiCameras | videocue/ui/camera_add_dialog.py:532-542 | the checked discovered names in order, followed by the trimmed manual NDI name when its box is checked and it is non-empty |
| CameraAddDialog.Dialog.IpAddress | videocue/ui/camera_add_dialog.py:544-551 | the trimmed manual IP iff its box is checked and the text has exactly three dots; nothing otherwise |
| CameraAddDialog.Dialog.SelectionExcludesExisting | videocue/ui/camera_add_dialog.py:392-396 | no already added camera is ever among the selected discovered names |
| CameraAddDialog.Dialog.StartSearch | videocue/ui/camera_add_dialog.py:140-171 | a search starts iff none is in progress and the previous discovery thread is not running; then the flag is set, the button disabled and reading "Searching." and the animation at one dot |
| CameraAddDialog.Dialog.UpdateLoadingAnimation | videocue/ui/camera_add_dialog.py:188-195 | the dot count advances modulo 4 and the button reads "Searching" followed by that many dots |
| CameraAddDialog.Dialog.OnCamerasDiscovered | videocue/ui/camera_add_dialog.py:308-437 | ignored while results are being processed; otherwise the boxes are replaced by one per discovered name, the selection becomes the names not yet added, the button is re-enabled and both guard flags are cleared |
| CameraAddDialog.Dialog.OnDiscoveryError | videocue/ui/camera_add_dialog.py:440-456 | a discovery error clears the search flag, stops the animation and re-enables the "Search" button |
| CameraAddDialog.Dialog.Toggle | videocue/ui/camera_add_dialog.py:394-399 | a click flips only an enabled box, so an already added camera can never be selected |
| CameraAddDialog.SearchGuardScenario | videocue/ui/camera_add_dialog.py:140-154 | a search blocks a second start until its results are handled; after that a new search can start |
| Supervisor.IsAbnormalExit | videocue.py:73-88 | an exit code is abnormal exactly when it is negative or, on Windows, above 0x7FFFFFFF (the 0xC0000000 test adds nothing); zero is never abnormal |
| Supervisor.ChildArgs | videocue.py:93 | the forwarded arguments are the command line without any `--child-process`, every other argument kept, one fewer per dropped flag |
| Supervisor.ChildArgsKeepsOthers | videocue.py:93 | a command line without the child flag is forwarded unchanged and in order |
| Supervisor.ChildCommand | videocue.py:102-110 | the child command starts with the interpreter and ends with `--child-process` |
| Supervisor.ChildFlagExactlyOnce | videocue.py:93-110 | whatever the supervisor was given, the child sees `--child-process` exactly once |
| Supervisor.ChildEnv | videocue.py:95-100 | the child environment is the parent's plus the supervised-child and child-role marks, with NDI disabled on the recovery run and an inherited `VIDEOCUE_DISABLE_NDI` kept with its value on the first run; every other variable is passed unchanged |
| Supervisor.RunWithSupervisor | videocue.py:91-155 | a failed launch returns 1; a normal exit returns its code; only an abnormal exit relaunches, once, with NDI disabled, after the safe-mode dialog; the recovery run's code is returned, with a crash dialog if it also crashed, or 1 if it cannot start |

## Left out

- Network I/O: the UDP socket of `ViscaIP` (`_get_socket`, `send_command`, `query_command`, `close`, the lock and timeouts) is an abstract outcome. A send succeeds or fails, and a query yields a reply, None after an OS error, or a raised timeout. No reply is matched to its sequence number, as in the source. HTTP update checks are not modelled.
- The NDI SDK, `_ndi_lock`, Qt signals, threads and the finder discovery chain that resolves a source (ndi_video.py:685-812) are replaced by an abstract event sequence. The per-frame handlers at ndi_video.py:1114-1128 are modelled by the `Raised` event: the loop exits as failed, and a video frame held when the exception struck is never freed (the leak is tracked). Not modelled: `KeyboardInterrupt` (ndi_video.py:1111-1113), which leaves the loop without marking failure, and the fatal and setup handlers at ndi_video.py:1129-1141, which catch exceptions from outside the per-frame body.
- UYVY to RGB pixel conversion, QImage construction, the fps ratio, `_NDIMemoryProbe` and `_get_process_rss_mb` are left out. They are floating-point pixel math or process diagnostics. `NdiVideo.ConvertFrame` keeps the format and size guards and the shape of the image.
- JSON load and save of the configuration and the cue list, `uuid4`, `resource_path`, `get_app_data_dir`, the single-instance lock, logging and the exception hooks are left out as file and environment I/O. Fresh ids are passed in.
- `get_network_interfaces` reads psutil and the host name; `NetworkInterface.ListInterfaces` and `NetworkInterface.FallbackInterfaces` model its filtering over the reported addresses instead.
- NetworkInterface.FallbackInterfaces: that the fallback netmask "255.255.255.0" parses as a /24 is not proved; only the netmask text is stated.
- Qt layout, styling, message boxes, dialogs and QTimer scheduling are left out. Timers are fields holding their interval and are fired by explicit method calls. Focus movement along Qt's focus chain in the preferences dialog is not modelled.
- Python strings are sequences of characters. `lower()` and `strip()` are modelled on ASCII only. The `\d` of the IP pattern is modelled as ASCII digits, while Python's `re` also accepts other Unicode decimal digits.
- Floating-point speeds and axis readings are exact reals; IEEE rounding is not modelled.
- ViscaIP.ViscaClient.QueryCommand: the raised `ViscaTimeoutError` is the `TimeoutRaised` outcome; the query readers take the reply only, so the error's passage through `query_*` to the connection test thread (camera_widget.py:44-46) is not modelled.
- ConfigManager.Config.UpdateCamera: the patch carries the NDI source name, VISCA address and port, video size and the two auto-pan preset keys; any other keyword argument `cam.update(kwargs)` would accept is not modelled.
- CueManager: a missing key and a JSON null are one value (`Null`) in the cue dictionaries.
- Supervisor: the decision in `main()` about whether to supervise at all (videocue.py:470-486) is not modelled; `Supervisor.RunWithSupervisor` starts at the supervisor.
- The VISCA commands outside the core listed here (menu, picture flip and the rest) and the float speed labels of the preferences dialog are not modelled.

## Findings

| source | as written | input that shows it | evidently intended | confidence | as-written member | corrected member |
|---|---|---|---|---|---|---|
| videocue/controllers/visca_ip.py:335-374 | `query_iris`, `query_shutter` and `query_gain` read only the byte before the terminator (`hex[-4:-2]`) | the reply `0p 0q 0r 0s` for iris 17 is `00 00 01 01`, which reads as 1 | the value of the four nibbles, as `extract_four_nibbles` and the colour gain queries read it | high, not executed | ViscaIP.IrisSeventeenMisread | ViscaIP.QueryFourNibbleValue |
| videocue/controllers/visca_ip.py:379-383 | `query_brightness` refuses any reply whose hex text contains "60" or "61" anywhere, header included | a valid brightness reply whose header carries sequence number 0x60 is refused | refuse only an error reply, recognised by its status byte | medium, not executed | ViscaIP.BrightnessRejectedBySequenceNumber | ViscaIP.QueryBrightness |
| videocue/ui/camera_widget.py:2003-2036 | `store_preset_dialog` stores a preset under a name already in use, in slot `len(presets)` | two presets stored as "Wide": recalling "Wide" goes to slot 0, and slot 1 is never recalled | refuse a duplicate name, as the rename dialog does | medium, not executed | CameraWidget.DuplicateNameExample | CameraWidget.Widget.StorePresetDialogChecked |
