# nl-mirror, modelled in Dafny

nl-mirror mirrors a phone's screen and audio to a desktop and sends input back. On
Android a device server encodes the screen and the audio and frames each packet with an
8-byte big-endian presentation timestamp and a 4-byte big-endian size. It reads the
host's one-line video configuration and answers JSON command lines: touch, keys, text,
clipboard and diagnostics. The Rust host reconnects with capped backoff and reads the
framed streams. It cuts the H.264 byte stream into NAL units at 4-byte Annex B start
codes (ITU-T H.264, Annex B, clause B.1) and gates them on a keyframe. It keeps the
newest decoded frame in a single slot, decodes 16-bit PCM into a bounded FIFO that drops
the oldest samples, and turns keys and shortcuts into command lines. On iOS a broadcast
extension rewrites the encoder's length-prefixed NAL units (ISO/IEC 14496-15) into
Annex B form and streams them to the main app. The main app relays them to its clients,
frames them into a shared store of the latest 30 packets, and forwards that store on a
timer. A Tauri launcher reads `adb` output, runs a small HTTP pairing server, and starts
and stops the host as a sidecar process under a session counter.

The project has one Dafny module per source file. Shared modules hold the wrapper types
(`Base`), bytes and big-endian numbers (`Bytes`), the string functions the sources call
(`Text`), decimal parsing and formatting with the JVM and Rust rules (`Numbers`), the
packet framing (`Framing`), subsequences (`Sequences`), and the round trips between a
writer and its reader on the other side of a connection (`WireProtocol`,
`ClipboardProtocol`). Code that updates state in place is a class whose methods are
specified against functions of the old state or of their inputs, and code that only
computes is functions and lemmas. Foreign calls are parameters that give their outcome:
codecs, reflection, the clipboard manager, event injection, sockets and `adb`.

Modelling decisions:
- `DisplayManager.getDisplaySize` takes `split(":")[1]`, that is, the text between the
  first and the second `:`, not everything after the first `:`.
- Touch `action` strings other than `down` and `move` map to `ACTION_UP`, as the code's
  `else` branch does.
- The host's clipboard path follows the code as written: `set_clipboard` escapes only
  backslash and quote, and the reply's text is unescaped with `\n` replaced first. Both are
  defects, listed under "## Findings". `ControlClient.SetClipboard`, `ClipboardOf`,
  `ExtractClipboard`, `AsyncLine`, `ProcessCommand` and `Run` all carry them. The
  corrected escape (`Control.SetClipboardCommand`) and the corrected reader
  (`InputHandler.IntendedClipboardOf`) are separate members, each with its own lemma.

## Model

| member | source | states |
|---|---|---|
| Framing.Frame | nl-android/src/main/java/dev/nl/mirror/video/ScreenEncoder.kt:82-87 | a framed packet is exactly the 12-byte header followed by the payload, unchanged |
| Framing.ParseHeader | nl-host/src/network/stream.rs:120-121 | the reader takes an unsigned 64-bit timestamp and an unsigned 32-bit size from the header |
| Framing.FrameRoundTrip | nl-host/src/audio/receiver.rs:76-77 | the reader of a framed packet recovers its payload size exactly and its timestamp modulo 2^64 |
| Bytes.FromBEOfBE | nl-ios/Shared/SharedBuffer.swift:32-37 | decoding a big-endian field gives the encoded number modulo 256^k (two's complement for negative timestamps) |
| Bytes.BEOfFromBE | nl-host/src/network/stream.rs:120-121 | re-encoding a decoded field gives the same bytes |
| Numbers.ParseSignedOfIntToString | nl-android/src/main/java/dev/nl/mirror/network/SocketServer.kt:46-47 | `toIntOrNull` reads back any in-range number written in decimal |
| PacketChannel.PacketWriter.constructor | nl-android/src/main/java/dev/nl/mirror/network/PacketWriter.kt:8-11 | a new writer is stopped, has no thread and an empty queue |
| PacketChannel.PacketWriter.Start | nl-android/src/main/java/dev/nl/mirror/network/PacketWriter.kt:13-28 | starting sets the flag and spawns a thread only when not already running; queue and output untouched |
| PacketChannel.PacketWriter.Stop | nl-android/src/main/java/dev/nl/mirror/network/PacketWriter.kt:30-34 | stopping clears the flag and drops the thread, nothing else changes |
| PacketChannel.PacketWriter.QueuePacket | nl-android/src/main/java/dev/nl/mirror/network/PacketWriter.kt:36-39 | a packet is accepted exactly when the writer runs and the queue holds fewer than 100; accepted packets join the queue's end; the new writer is AfterOffers of the old one |
| PacketChannel.Admitted | nl-android/src/main/java/dev/nl/mirror/network/PacketWriter.kt:36-39 | of a run of offers, a stopped writer admits none; a running one admits the oldest, all when they fit, else exactly as many as fill the queue to 100 |
| PacketChannel.AdmittedAppend | nl-android/src/main/java/dev/nl/mirror/network/PacketWriter.kt:36-39 | offering two runs one after the other admits what offering them together does |
| PacketChannel.AdmittedOne | nl-android/src/main/java/dev/nl/mirror/network/PacketWriter.kt:36-39 | a single offer is admitted exactly when the writer runs and the queue has room |
| PacketChannel.AfterOffersAppend | nl-android/src/main/java/dev/nl/mirror/network/PacketWriter.kt:36-39 | two runs of offers leave the writer as the same offers made in one run |
| PacketChannel.PacketWriter.WriterIteration | nl-android/src/main/java/dev/nl/mirror/network/PacketWriter.kt:17-26 | an iteration takes the oldest packet, writes and flushes it; a failed write or flush stops the writer and loses that packet; the data written is what was taken, in order |
| PacketChannel.WrittenDataAppend | nl-android/src/main/java/dev/nl/mirror/network/PacketWriter.kt:20-21 | the data reaching the stream distributes over concatenated operation logs |
| SocketServer.ReadConfig | nl-android/src/main/java/dev/nl/mirror/network/SocketServer.kt:34-51 | the loop over the `&`-separated parts computes the configuration the first line defines; a timeout or end of stream keeps the defaults 8000000 and 1080 |
| SocketServer.LastSettingWins | nl-android/src/main/java/dev/nl/mirror/network/SocketServer.kt:41-50 | each setting is the value of the last well-formed part with that key and an integer value; other parts change nothing |
| SocketServer.ApplyPartsSnoc | nl-android/src/main/java/dev/nl/mirror/network/SocketServer.kt:42-49 | one more part applies after all earlier ones |
| CommandHandler.HandleCommand | nl-android/src/main/java/dev/nl/mirror/network/CommandHandler.kt:19-24 | end of stream answers `Empty command`, a line org.json rejects answers its message, and at most one controller is called |
| CommandHandler.UnknownCommand | nl-android/src/main/java/dev/nl/mirror/network/CommandHandler.kt:139 | an unknown command name is echoed in the error reply and nothing is called |
| CommandHandler.MissingCommand | nl-android/src/main/java/dev/nl/mirror/network/CommandHandler.kt:24 | a request without `cmd` reads as the empty name and is answered as unknown |
| CommandHandler.MissingMember | nl-android/src/main/java/dev/nl/mirror/network/CommandHandler.kt:29-131 | a missing required member of any command answers org.json's `No value for` message and calls nothing |
| CommandHandler.FixedReplies | nl-android/src/main/java/dev/nl/mirror/network/CommandHandler.kt:51-66 | `text` and `set_clipboard` answer their fixed literal, backslashes included, whatever the controller does |
| CommandHandler.Defaults | nl-android/src/main/java/dev/nl/mirror/network/CommandHandler.kt:45-135 | absent optional members default to metaState 0, paste and copy false, swipe 300 ms, long press 500 ms, and altitude, bearing and speed 0 |
| CommandHandler.ClipboardEscaped | nl-android/src/main/java/dev/nl/mirror/network/CommandHandler.kt:67-75 | the clipboard reply carries the text with every backslash, quote and line feed escaped, no raw line feed, and a null clipboard as "" |
| CommandHandler.EscapeIsEach | nl-android/src/main/java/dev/nl/mirror/network/CommandHandler.kt:74 | the three chained replace-alls equal escaping every character on its own |
| CommandHandler.SleepFailureReported | nl-android/src/main/java/dev/nl/mirror/network/CommandHandler.kt:85-95 | an exception from swipe's sleep becomes the error reply |
| CommandHandler.TouchAction | nl-android/src/main/java/dev/nl/mirror/network/CommandHandler.kt:29-33 | `down` and `move` map to their actions and every other text to ACTION_UP |
| CommandHandler.KeyAction | nl-android/src/main/java/dev/nl/mirror/network/CommandHandler.kt:42-43 | `down` maps to ACTION_DOWN and every other text to ACTION_UP |
| CommandHandler.GetString | nl-android/src/main/java/dev/nl/mirror/network/CommandHandler.kt:29 | `getString` fails only when the member is absent, with org.json's message, else gives the value's text |
| CommandHandler.GetInt | nl-android/src/main/java/dev/nl/mirror/network/CommandHandler.kt:44 | `getInt` fails on an absent or boolean member, and narrows a long to its low 32 bits |
| CommandHandler.GetDouble | nl-android/src/main/java/dev/nl/mirror/network/CommandHandler.kt:34 | `getDouble` fails on an absent or boolean member, and widens integers exactly |
| CommandHandler.OptInt | nl-android/src/main/java/dev/nl/mirror/network/CommandHandler.kt:45 | `optInt` gives the fallback for an absent or unconvertible member |
| CommandHandler.OptLong | nl-android/src/main/java/dev/nl/mirror/network/CommandHandler.kt:92 | `optLong` gives the fallback for an absent or unconvertible member and the exact value of an integer |
| CommandHandler.OptBoolean | nl-android/src/main/java/dev/nl/mirror/network/CommandHandler.kt:61 | `optBoolean` gives the fallback unless the member is a boolean or the text true/false |
| CommandHandler.OptDouble | nl-android/src/main/java/dev/nl/mirror/network/CommandHandler.kt:133 | `optDouble` gives the fallback for an absent or boolean member |
| CommandHandler.Narrow | nl-android/src/main/java/dev/nl/mirror/network/CommandHandler.kt:34-35 | a double narrowed to an integer type rounds toward zero and saturates at the type's bounds |
| CommandHandler.ToBoolean | nl-android/src/main/java/dev/nl/mirror/network/CommandHandler.kt:61 | a boolean, or a string equal to true/false ignoring case, converts; nothing else does |
| Injection.TouchStep | nl-android/src/main/java/dev/nl/mirror/input/InputController.kt:38-52 | DOWN starts a gesture at the current clock; UP and CANCEL lift the pointer; other events keep the state; non-DOWN events reuse a recorded down time, else the clock |
| Injection.Pressure | nl-android/src/main/java/dev/nl/mirror/input/InputController.kt:62 | pressure is 0 exactly for UP |
| Injection.GestureSharesDownTime | nl-android/src/main/java/dev/nl/mirror/input/InputController.kt:26-32 | every event of a gesture, from its DOWN to the next DOWN, carries the DOWN's time, and a final UP leaves the pointer lifted |
| Injection.FollowersShareDownTime | nl-android/src/main/java/dev/nl/mirror/input/InputController.kt:46-50 | after a DOWN, later non-DOWN events all carry the recorded down time |
| Injection.UpWithoutDown | nl-android/src/main/java/dev/nl/mirror/input/InputController.kt:46 | an UP with no gesture ever started is stamped with its own clock reading |
| Injection.FirstRefused | nl-android/src/main/java/dev/nl/mirror/input/InputController.kt:161-163 | the index of the first refused event: all before it were accepted |
| Injection.InputController.constructor | nl-android/src/main/java/dev/nl/mirror/input/InputController.kt:27-28 | no gesture recorded and nothing injected |
| Injection.InputController.InjectTouch | nl-android/src/main/java/dev/nl/mirror/input/InputController.kt:34-76 | the gesture state and the down time follow TouchStep, the event is appended with pressure 0 only for UP, and the platform's answer is returned |
| Injection.InputController.InjectNext | nl-android/src/main/java/dev/nl/mirror/input/InputController.kt:34-76 | within a gesture, one more `injectTouch` extends the log by Stamped of the gesture's inputs so far plus this one, and the state by FinalTouchState of them |
| Injection.Stamped | nl-android/src/main/java/dev/nl/mirror/input/InputController.kt:34-76 | the events a run of touch inputs injects, one `injectTouch` each |
| Injection.StampedIsEach | nl-android/src/main/java/dev/nl/mirror/input/InputController.kt:38-62 | event i of a run carries the run's i-th down time, its own clock as event time, its action and position, and the pressure of its action |
| Injection.StampedSnoc | nl-android/src/main/java/dev/nl/mirror/input/InputController.kt:34-76 | one more `injectTouch` appends the event stamped from the run's final state and moves the state by one TouchStep |
| Injection.GestureStamped | nl-android/src/main/java/dev/nl/mirror/input/InputController.kt:25-52 | in a gesture opened by DOWN at a positive clock, with no other DOWN, every event carries the DOWN's clock as its down time; the state keeps it, a final UP lifts the pointer, and a DOWN alone leaves it down |
| Injection.GestureDownTimes | nl-android/src/main/java/dev/nl/mirror/input/InputController.kt:25-52 | the down times and final state of such a gesture |
| Injection.SwipeInputs | nl-android/src/main/java/dev/nl/mirror/input/InputController.kt:91-106 | the swipe's inputs are DOWN, five MOVEs and UP at the attempts' clock readings |
| Injection.SwipePoints | nl-android/src/main/java/dev/nl/mirror/input/InputController.kt:91-106 | the swipe's points are the start, the five interpolation steps and the end |
| Injection.PressGesture | nl-android/src/main/java/dev/nl/mirror/input/InputController.kt:81-86 | a tap or long press injects DOWN (pressure 1) and UP (pressure 0) at the point, both with the DOWN's clock as down time, and leaves the pointer lifted; cut after the DOWN it leaves the pointer down |
| Injection.SwipeGesture | nl-android/src/main/java/dev/nl/mirror/input/InputController.kt:91-106 | every event of a swipe, whole or cut after the DOWN, has the DOWN's clock as down time and the j-th action, point and clock; a whole swipe lifts the pointer |
| Injection.InputController.Tap | nl-android/src/main/java/dev/nl/mirror/input/InputController.kt:81-86 | the injected events are exactly those Stamped gives for DOWN then UP at the point, the gesture state is FinalTouchState of the same inputs, and the answer is true only if both were accepted |
| Injection.InputController.Swipe | nl-android/src/main/java/dev/nl/mirror/input/InputController.kt:91-106 | the injected events are exactly those Stamped gives for DOWN, five MOVEs at the interpolation steps and UP at the end, and the gesture state is FinalTouchState of them; a negative pause (duration / 5 truncated) throws right after the DOWN, with events and state cut there; only UP's answer is returned |
| Injection.InputController.LongPress | nl-android/src/main/java/dev/nl/mirror/input/InputController.kt:111-116 | the injected events and gesture state are those of DOWN then UP at the point, cut after the DOWN when a negative pause throws; otherwise the answer is true only if both were accepted |
| Injection.InputController.InjectKey | nl-android/src/main/java/dev/nl/mirror/input/InputController.kt:121-128 | one key event stamped now with the given action, code and meta state; the gesture state is untouched |
| Injection.InputController.PressKey | nl-android/src/main/java/dev/nl/mirror/input/InputController.kt:133-137 | key down then key up with no modifiers, both always sent, true only if both accepted |
| Injection.InputController.InjectText | nl-android/src/main/java/dev/nl/mirror/input/InputController.kt:152-169 | no events (or a failed key map) injects nothing and fails; otherwise events are injected in order up to and including the first refusal, and success means none was refused |
| Clipboard.Chord | nl-android/src/main/java/dev/nl/mirror/control/ClipboardController.kt:62-66 | Ctrl down, the key down and up with the Ctrl meta bit 4096, Ctrl up |
| Clipboard.ClipboardController.constructor | nl-android/src/main/java/dev/nl/mirror/control/ClipboardController.kt:15-26 | the service is present or not, and nothing has been written |
| Clipboard.ClipboardController.GetText | nl-android/src/main/java/dev/nl/mirror/control/ClipboardController.kt:28-38 | no service, a read that throws, no clip or an empty clip reads as null; otherwise the first item's text |
| Clipboard.ClipboardController.SetText | nl-android/src/main/java/dev/nl/mirror/control/ClipboardController.kt:40-56 | no service fails; a text equal to the first item's, read without an exception, succeeds without writing; otherwise, a failed read included, the write happens unless refused, and a success leaves the text on the clipboard |
| Clipboard.ClipboardController.SetTextAndPaste | nl-android/src/main/java/dev/nl/mirror/control/ClipboardController.kt:58-70 | the answer is the write's: a service and either an equal text read back or a write not refused; Ctrl+V follows only a successful write with paste asked for |
| Clipboard.ClipboardController.CopyAndGetText | nl-android/src/main/java/dev/nl/mirror/control/ClipboardController.kt:72-82 | Ctrl+C is injected, then the clip is read back, null when that read throws |
| Clipboard.SetTwice | nl-android/src/main/java/dev/nl/mirror/control/ClipboardController.kt:43-50 | writing the same text twice reaches the platform at most once when the second read does not throw; when both reads throw and the write is not refused, both calls write |
| DisplayManager.GetDisplaySize | nl-android/src/main/java/dev/nl/mirror/video/DisplayManager.kt:9-26 | a missing line, one without `:`, one whose size part does not split into two, or numbers that do not parse give 720x1280; any other answer is the two parsed numbers |
| DisplayManager.WmSizeRoundTrip | nl-android/src/main/java/dev/nl/mirror/video/DisplayManager.kt:13-19 | the line `wm size` prints, "<tag>: <W>x<H>", reads back as (W, H) |
| DisplayManager.SizePartsOfLine | nl-android/src/main/java/dev/nl/mirror/video/DisplayManager.kt:15 | the text after the colon, trimmed and split at `x`, is exactly the two numbers |
| DisplayManager.DisplayChanged | nl-android/src/main/java/dev/nl/mirror/video/DisplayManager.kt:55-63 | a different rotation is stored and raises the flag; the same rotation changes nothing |
| DisplayManager.ObserveEffect | nl-android/src/main/java/dev/nl/mirror/video/DisplayManager.kt:55-63 | after a run of callbacks the rotation is the last reported, and the flag is up exactly when it was or some report differed from the rotation held before |
| DisplayManager.RotationWatcher.constructor | nl-android/src/main/java/dev/nl/mirror/video/DisplayManager.kt:31-33 | rotation 0, no change, not ready |
| DisplayManager.RotationWatcher.Run | nl-android/src/main/java/dev/nl/mirror/video/DisplayManager.kt:35-71 | readiness is always signalled; a registered listener starts from display 0's rotation or 0 |
| DisplayManager.RotationWatcher.OnDisplayChanged | nl-android/src/main/java/dev/nl/mirror/video/DisplayManager.kt:55-63 | the callback follows DisplayChanged, an unreadable display counting as rotation 0 |
| DisplayManager.RotationWatcher.GetCurrentRotation | nl-android/src/main/java/dev/nl/mirror/video/DisplayManager.kt:77-80 | returns the stored rotation |
| DisplayManager.RotationWatcher.HasChanged | nl-android/src/main/java/dev/nl/mirror/video/DisplayManager.kt:82-84 | returns the flag |
| DisplayManager.RotationWatcher.ResetChangeFlag | nl-android/src/main/java/dev/nl/mirror/video/DisplayManager.kt:86-88 | lowers the flag and nothing else |
| ScreenEncoder.RoundUp16Bounds | nl-android/src/main/java/dev/nl/mirror/video/ScreenEncoder.kt:23-24 | without overflow the encoder size is the least multiple of 16 not below the display size, and a multiple of 16 is kept |
| ScreenEncoder.FormatChangePackets | nl-android/src/main/java/dev/nl/mirror/video/ScreenEncoder.kt:90-113 | a format change queues csd-0 before csd-1, each at timestamp 0, skipping a missing one |
| ScreenEncoder.DataPacket | nl-android/src/main/java/dev/nl/mirror/video/ScreenEncoder.kt:75-88 | a non-empty buffer is queued as one packet of 12 + size bytes whose header reads back as its timestamp and size |
| ScreenEncoder.Encoder.constructor | nl-android/src/main/java/dev/nl/mirror/video/ScreenEncoder.kt:11-19 | no codec, no surface, not running |
| ScreenEncoder.Encoder.Stop | nl-android/src/main/java/dev/nl/mirror/video/ScreenEncoder.kt:56-66 | not running, codec and surface dropped even if a release throws |
| ScreenEncoder.Encoder.Start | nl-android/src/main/java/dev/nl/mirror/video/ScreenEncoder.kt:21-54 | configures at the rounded size; on success runs with codec and surface, on failure stops and reports it |
| ScreenEncoder.Encoder.QueueOutput | nl-android/src/main/java/dev/nl/mirror/video/ScreenEncoder.kt:74-114 | one codec output is framed into exactly the packets PacketsOf lists, in order; the writer's queue and accepted log take what Admitted lets in, and the rest of the writer is unchanged |
| ScreenEncoder.Encoder.QueueFormatChange | nl-android/src/main/java/dev/nl/mirror/video/ScreenEncoder.kt:90-112 | csd-0 then csd-1, each framed at timestamp 0 when present, offered to the writer with the same effect on it as offering both at once |
| ScreenEncoder.Encoder.EncodingLoop | nl-android/src/main/java/dev/nl/mirror/video/ScreenEncoder.kt:68-117 | with no codec nothing happens; otherwise the packets offered are those of every output in order, every encoded buffer, empty or not, is released, and the writer ends as after offering all of them at once |
| MirrorService.LogicalSize | nl-android/src/main/java/dev/nl/mirror/core/MirrorService.kt:26-28 | quarter-turn rotations 1 and 3 swap width and height; others keep them |
| MirrorService.RoundsRun | nl-android/src/main/java/dev/nl/mirror/core/MirrorService.kt:23-43 | the session runs rounds up to and including the first that does not end with a rotation change after a successful start |
| MirrorService.SessionShape | nl-android/src/main/java/dev/nl/mirror/core/MirrorService.kt:15-51 | a session starts its packet writer exactly once however often the encoder is rebuilt, stops every encoder it builds, and ends by stopping the watcher, then the writer, then closing the socket |
| MirrorService.EncoderSizes | nl-android/src/main/java/dev/nl/mirror/core/MirrorService.kt:24-33 | each round's encoder is built at that round's logical size and the session's bit rate; the requested maximum resolution plays no part |
| MirrorService.RunSession | nl-android/src/main/java/dev/nl/mirror/core/MirrorService.kt:15-51 | the session thread's loop produces exactly the trace SessionShape and EncoderSizes describe |
| MirrorService.TraceSnoc | nl-android/src/main/java/dev/nl/mirror/core/MirrorService.kt:23-43 | one more round appends its steps after those of the earlier rounds |
| MirrorService.Service.constructor | nl-android/src/main/java/dev/nl/mirror/core/MirrorService.kt:9-10 | no session and no thread |
| MirrorService.Service.StopSession | nl-android/src/main/java/dev/nl/mirror/core/MirrorService.kt:55-60 | the flag is cleared and any thread is interrupted, joined for at most 1000 ms and forgotten |
| MirrorService.Service.StartSession | nl-android/src/main/java/dev/nl/mirror/core/MirrorService.kt:12-53 | any current session is stopped before the new thread is spawned and recorded |
| MirrorService.Restart | nl-android/src/main/java/dev/nl/mirror/core/MirrorService.kt:12-14 | starting a second session interrupts and joins the first thread before spawning the second |
| AudioCapture.Capture.constructor | nl-android/src/main/java/dev/nl/mirror/audio/AudioCapture.kt:18-21 | no recorder, no policy, nothing stamped |
| AudioCapture.Capture.Stop | nl-android/src/main/java/dev/nl/mirror/audio/AudioCapture.kt:71-87 | recorder released and policy unregistered, harmless when absent; stamps untouched |
| AudioCapture.Capture.Start | nl-android/src/main/java/dev/nl/mirror/audio/AudioCapture.kt:28-69 | below Android 11 nothing is tried; from Android 13 the policy recorder is tried first and the submix recorder only if it does not record; success exactly when the path tried last records; a failure leaves neither recorder nor policy, and from Android 13 a policy is held after success exactly when the policy recorder runs |
| AudioCapture.Capture.CalculatePts | nl-android/src/main/java/dev/nl/mirror/audio/AudioCapture.kt:105-113 | the first read seeds the time from the clock; each read returns the current time and advances it by bytes x 10^6 / 192000 microseconds |
| AudioCapture.Capture.Read | nl-android/src/main/java/dev/nl/mirror/audio/AudioCapture.kt:89-100 | without a recorder -1; otherwise the recorder's count, with the buffer info stamped only when bytes arrived |
| AudioCapture.SuccessivePts | nl-android/src/main/java/dev/nl/mirror/audio/AudioCapture.kt:105-113 | after the clock-seeded first read, the next read is stamped exactly one read's duration later, whatever the clock says |
| AudioEncoder.AudioHeader | nl-android/src/main/java/dev/nl/mirror/audio/AudioEncoder.kt:76-88 | 12 bytes: "AUDIO\0", the sample rate 48000 big-endian, the channel count 2, codec byte 0 |
| AudioEncoder.FlushCount | nl-android/src/main/java/dev/nl/mirror/audio/AudioEncoder.kt:58-66 | n packets bring ceil(n / 10) flushes: after the 1st, 11th, 21st, ... |
| AudioEncoder.PacketFlushes | nl-android/src/main/java/dev/nl/mirror/audio/AudioEncoder.kt:61-63 | packet number k brings a flush exactly when k is a multiple of ten |
| AudioEncoder.ProgressSend | nl-android/src/main/java/dev/nl/mirror/audio/AudioEncoder.kt:45-66 | a pass that sends a packet keeps the loop's account: written in order, carrying the bytes read, stamped increasingly |
| AudioEncoder.ProgressSkip | nl-android/src/main/java/dev/nl/mirror/audio/AudioEncoder.kt:46 | a pass without bytes, or without a recorder, sends nothing and keeps the account |
| AudioEncoder.Encoder.constructor | nl-android/src/main/java/dev/nl/mirror/audio/AudioEncoder.kt:12-17 | not running, no thread, nothing written |
| AudioEncoder.Encoder.Start | nl-android/src/main/java/dev/nl/mirror/audio/AudioEncoder.kt:19-29 | capture must start first; only then are the header and a flush written and the thread started |
| AudioEncoder.Encoder.Stop | nl-android/src/main/java/dev/nl/mirror/audio/AudioEncoder.kt:31-36 | the flag is cleared, the thread dropped and capture stopped |
| AudioEncoder.Encoder.Pump | nl-android/src/main/java/dev/nl/mirror/audio/AudioEncoder.kt:45-67 | a read with bytes is framed with the capture's stamp and written as packet k, flushed when k is a multiple of ten; no bytes, no write |
| AudioEncoder.Encoder.Advance | nl-android/src/main/java/dev/nl/mirror/audio/AudioEncoder.kt:43-73 | one pass of the loop keeps its account |
| AudioEncoder.Encoder.StreamLoop | nl-android/src/main/java/dev/nl/mirror/audio/AudioEncoder.kt:38-74 | the stream is exactly the framed packets of every read with bytes up to the first exception, in order, with strictly increasing stamps; without a recorder nothing is sent |
| AudioEncoder.StartThenStream | nl-android/src/main/java/dev/nl/mirror/audio/AudioEncoder.kt:19-29 | a started encoder's stream begins with the header and its flush, then the packets; a failed start writes nothing |
| PerformanceMonitor.CpuUsage | nl-android/src/main/java/dev/nl/mirror/util/PerformanceMonitor.kt:29-52 | an empty file or fewer than five fields is an error; otherwise the percentage is used x 100 / total in Long arithmetic, 0 when the total is not positive |
| PerformanceMonitor.CpuOfCounters | nl-android/src/main/java/dev/nl/mirror/util/PerformanceMonitor.kt:35-47 | a statistics line of a tag and four counters gives total = their sum, used = all but idle, and a percentage between 0 and 100 |
| PerformanceMonitor.CpuOfParsed | nl-android/src/main/java/dev/nl/mirror/util/PerformanceMonitor.kt:36-47 | four parsed counters small enough not to overflow give those totals and a percentage between 0 and 100 |
| PerformanceMonitor.RunsOfFields | nl-android/src/main/java/dev/nl/mirror/util/PerformanceMonitor.kt:35 | splitting space-joined words on whitespace runs gives the words back |
| PerformanceMonitor.MemoryInfo | nl-android/src/main/java/dev/nl/mirror/util/PerformanceMonitor.kt:54-65 | used is total minus free in Long arithmetic, max and native heap as reported, percentage 0 when max is not positive |
| PerformanceMonitor.MemoryBounds | nl-android/src/main/java/dev/nl/mirror/util/PerformanceMonitor.kt:56-62 | with free within total and used within max, the memory percentage is between 0 and 100 |
| PerformanceMonitor.PercentBounds | nl-android/src/main/java/dev/nl/mirror/util/PerformanceMonitor.kt:47 | without overflow a part of a positive whole is 0 to 100 percent of it |
| PerformanceMonitor.GetStats | nl-android/src/main/java/dev/nl/mirror/util/PerformanceMonitor.kt:20-27 | the reply holds the CPU, memory and device objects and the clock reading |
| VideoReceiver.Handshake | nl-host/src/network/stream.rs:61 | the configuration line is one line ending in its only line feed |
| VideoReceiver.ReconnectSleeps | nl-host/src/network/stream.rs:46-91 | the sleep after every attempt is 2 to the number of failed attempts since the last success, at most 10 s |
| VideoReceiver.SleepAt | nl-host/src/network/stream.rs:67-90 | the delay in force at an attempt is the one the streak of failures gives |
| VideoReceiver.DoubleSaturated | nl-host/src/network/stream.rs:90 | doubling a saturated delay and saturating again saturates the doubled delay |
| VideoReceiver.SleepValues | nl-host/src/network/stream.rs:84-90 | every sleep is 1, 2, 4, 8 or 10 s, and 1 s after a successful connection |
| VideoReceiver.ReceivePackets | nl-host/src/network/stream.rs:102-196 | the receive loop ends and forwards exactly as the reference Receive says |
| VideoReceiver.TimeoutRun | nl-host/src/network/stream.rs:163-171 | up to 10 consecutive header timeouts are absorbed; the 11th ends the connection |
| VideoReceiver.FramedPacketForwarded | nl-host/src/network/stream.rs:118-156 | a packet framed by a device writer and received whole is forwarded byte for byte and resets the timeout count |
| VideoReceiver.ForwardedBounded | nl-host/src/network/stream.rs:123-147 | everything forwarded is at most 10 MiB and was the body of a packet whose header declared that length |
| Control.MetaBitsDisjoint | nl-host/src/network/control.rs:17-19 | the shift, ctrl and meta modifier bits are distinct single bits |
| Control.LineWithEnd | nl-host/src/network/control.rs:162-165 | `read_line` gives a prefix of what arrived: up to and including the first line feed, or everything when none came |
| Control.OneLine | nl-host/src/network/control.rs:153 | a command with no line feed of its own travels as exactly one line |
| Control.OneLineReadBack | nl-host/src/network/control.rs:158-165 | the reader of such a line gets the command and its line feed back, whatever follows |
| Control.SetClipboardSplitsLine | nl-host/src/network/control.rs:88-95 | as written, a clipboard text holding a line feed leaves it raw in the command, which is then cut into two or more lines |
| Control.DrainLength | nl-host/src/network/control.rs:38-53 | the drain thread reads past lines and timeouts and stops at end of stream or any other error |
| Control.ControlClient.constructor | nl-host/src/network/control.rs:21-68 | both connections up, the drain running, the request timeout 500 ms |
| Control.ControlClient.SetTimeout | nl-host/src/network/control.rs:70-73 | only the request connection's timeout changes |
| Control.ControlClient.SendAsync | nl-host/src/network/control.rs:152-156 | the command and a line feed on the input connection, then one flush; the request connection untouched |
| Control.ControlClient.SendSync | nl-host/src/network/control.rs:158-166 | the command and a line feed on the request connection, one flush, and the reply is one line read back |
| Control.ControlClient.InjectKeycode | nl-host/src/network/control.rs:78-84 | the keycode command on the input connection |
| Control.ControlClient.SetClipboard | nl-host/src/network/control.rs:88-95 | the set_clipboard command on the input connection, escaped as written: only backslash and quote, so a line feed goes out raw |
| Control.ControlClient.GetClipboard | nl-host/src/network/control.rs:97-100 | the get_clipboard command on the request connection and its reply line |
| Control.ControlClient.InjectText | nl-host/src/network/control.rs:103-110 | the text command, with backslashes, quotes and line feeds escaped, on the input connection |
| Control.ControlClient.Tap | nl-host/src/network/control.rs:114-117 | the tap command on the input connection |
| Control.ControlClient.Swipe | nl-host/src/network/control.rs:119-125 | the swipe command on the input connection |
| Control.ControlClient.LongPress | nl-host/src/network/control.rs:127-133 | the long_press command on the input connection |
| Control.ControlClient.GetHierarchy | nl-host/src/network/control.rs:135-138 | the hierarchy command on the request connection and its reply line |
| Control.ControlClient.GetStats | nl-host/src/network/control.rs:140-143 | the stats command on the request connection and its reply line |
| Control.ControlClient.SetScreenPowerMode | nl-host/src/network/control.rs:145-148 | the power-mode command on the input connection |
| Control.ControlClient.Drain | nl-host/src/network/control.rs:35-54 | the drain loop makes exactly the reads DrainLength counts |
| Control.ControlClient.Drop | nl-host/src/network/control.rs:169-183 | the drain flag is cleared, both connections shut down, then the drain thread joined |
| Control.SendBoth | nl-host/src/network/control.rs:152-166 | asynchronous commands go only to the input connection and synchronous ones only to the request connection |
| InputHandler.Connect | nl-host/src/input/handler.rs:24-47 | the loop stops at the first successful attempt, connected exactly when one succeeded, after sleeping the backoff delay after each failure before it |
| InputHandler.BackoffValues | nl-host/src/input/handler.rs:42-43 | the delays are 500, 1000, 2000 and 4000 ms, then 5000 ms from the fifth failure on |
| InputHandler.ScanEnd | nl-host/src/input/handler.rs:91-103 | the scan stops at a quote not taken by a preceding backslash, or at the end |
| InputHandler.FindClosingQuote | nl-host/src/input/handler.rs:91-103 | the character loop stops where ScanEnd says |
| InputHandler.RawClipboard | nl-host/src/input/handler.rs:88-106 | no marker gives nothing; otherwise the text after the first marker up to the closing quote, nothing when it is empty |
| InputHandler.ClipboardOf | nl-host/src/input/handler.rs:105-112 | a text reaches the host clipboard exactly when one was cut out of the reply; it is the as-written unescape of the cut-out text |
| InputHandler.IntendedClipboardOf | nl-host/src/input/handler.rs:105-112 | the corrected reader: a text reaches the host clipboard exactly when one was cut out of the reply, unescaped in one left-to-right pass |
| InputHandler.ExtractClipboard | nl-host/src/input/handler.rs:83-115 | the reply's text is cut out and unescaped as written, as ClipboardOf says |
| InputHandler.UnescapeAsWrittenBreaksBackslashN | nl-host/src/input/handler.rs:107-110 | as written, a backslash followed by `n`, once escaped, comes back with a line feed in place of the `n`; the corrected unescape gives it back |
| InputHandler.AsyncLine | nl-host/src/input/handler.rs:61-135 | every command but GetClipboard goes out on the input connection; SetClipboard goes out with the as-written escape |
| InputHandler.ProcessCommand | nl-host/src/input/handler.rs:61-136 | one command adds its line to the input connection, or for GetClipboard to the request connection, and hands over the clipboard text ClipboardOf reads from the reply, as written |
| InputHandler.ClipsAt | nl-host/src/input/handler.rs:83-115 | entry i of the clipboard texts is what command i hands over, and only clipboard requests hand over anything |
| InputHandler.Run | nl-host/src/input/handler.rs:49-56 | after raising the request timeout to 1000 ms, the commands are processed in channel order: the lines on each connection are those of the commands in order |
| InputHandler.RunOne | nl-host/src/input/handler.rs:54-56 | one command of the run extends the account of those before it |
| InputHandler.RunStep | nl-host/src/input/handler.rs:54-56 | one more command's lines and clipboard text come after those of the commands before it |
| ClipboardProtocol.AsWrittenUndoesEscape | nl-host/src/input/handler.rs:107-110 | the host's unescape as written undoes the device's escape for every text without a backslash |
| ClipboardProtocol.UnescapeUndoesEscape | nl-android/src/main/java/dev/nl/mirror/network/CommandHandler.kt:74 | the corrected single-pass unescape undoes the device's escape for every text |
| ClipboardProtocol.ScanOverEscaped | nl-host/src/input/handler.rs:91-103 | the host's quote scan passes over the whole of an escaped text |
| ClipboardProtocol.FindMarkerInReply | nl-host/src/input/handler.rs:88-89 | in a `get_clipboard` reply the first text marker is the one that opens the text field |
| ClipboardProtocol.ReplyIsOneLine | nl-android/src/main/java/dev/nl/mirror/network/CommandHandler.kt:67-75 | the reply is the fixed prefix, the escaped text and the closing quote and brace, with no line feed |
| ClipboardProtocol.RawOfReply | nl-host/src/input/handler.rs:83-106 | what the host cuts out of the reply line is the device's escape of the text, or nothing for an empty text |
| ClipboardProtocol.AsWrittenClipboardRoundTrip | nl-host/src/input/handler.rs:83-124 | as written, a device clipboard text comes back to the host clipboard unchanged when it is non-empty and holds no backslash |
| ClipboardProtocol.AsWrittenRoundTripBreaks | nl-host/src/input/handler.rs:107-110 | as written, the device text backslash then `n` reaches the host clipboard as backslash then line feed; the corrected reader gives it back unchanged |
| ClipboardProtocol.IntendedClipboardRoundTrip | nl-host/src/input/handler.rs:83-124 | the fix: with the corrected reader the host clipboard receives exactly the device's clipboard text for every text, and is left alone when that text is empty |
| ClipboardProtocol.TextCommandIsOneLine | nl-host/src/network/control.rs:103-108 | the host's text escape is the device's, so a text command is one line for every text |
| ClipboardProtocol.SetClipboardCommandIsOneLine | nl-host/src/network/control.rs:88-95 | with the escape `inject_text` uses, a `set_clipboard` command has no raw line feed for any text and is read back by the device as one whole line |
| WireProtocol.LineOfHandshake | nl-host/src/network/stream.rs:61 | the device's line reader gets back the handshake line without its line feed |
| WireProtocol.SettingPart | nl-android/src/main/java/dev/nl/mirror/network/SocketServer.kt:43-47 | a key=value part with a decimal in signed 32-bit range sets that key's setting |
| WireProtocol.HandshakeRoundTrip | nl-android/src/main/java/dev/nl/mirror/network/SocketServer.kt:34-56 | the device starts with exactly the host's bitrate and size when both fit a signed 32-bit integer |
| WireProtocol.HandshakeBitrateBeyondInt | nl-android/src/main/java/dev/nl/mirror/network/SocketServer.kt:46 | a host bitrate above 2^31 - 1 is ignored and the device keeps its 8000000 default |
| VideoDecoder.FindFrom | nl-host/src/video/decoder.rs:137 | the first 4-byte start code at or after the given position, or none when there is none |
| VideoDecoder.NalType | nl-host/src/video/decoder.rs:33 | nal_unit_type is below 32 |
| VideoDecoder.KeyframeKinds | nl-host/src/video/decoder.rs:31-36 | types 5, 7 and 8 are keyframes whatever the nal_ref_idc bits; a non-IDR slice and a bare start code are not |
| VideoDecoder.Packed | nl-host/src/video/decoder.rs:269-285 | a packed plane holds rows times width bytes |
| VideoDecoder.PackedAt | nl-host/src/video/decoder.rs:271-272 | byte c of row r of the packed plane is byte c of row r of the padded plane |
| VideoDecoder.PackPlane | nl-host/src/video/decoder.rs:271-272 | the row-copy loop builds exactly the packed plane |
| VideoDecoder.FrameSizes | nl-host/src/video/decoder.rs:257-294 | the packed frame has a w*h luma plane and two (w/2)*(h/2) chroma planes, with strides equal to the widths |
| VideoDecoder.KeepTail | nl-host/src/video/decoder.rs:139-143 | with no start code only the last three bytes stay |
| VideoDecoder.TakeNal | nl-host/src/video/decoder.rs:161-164 | a unit is cut from the start code at 0 to the next start code and counted |
| VideoDecoder.TakeNalGate | nl-host/src/video/decoder.rs:166-196 | while waiting, a non-keyframe is skipped; a unit handed over ends the wait; the loop ends only after a failure on every 50th unit |
| VideoDecoder.TakeNalPictures | nl-host/src/video/decoder.rs:185-214 | a unit handed over adds the codec's picture, if any, to the frames of the call |
| VideoDecoder.PictureFor | nl-host/src/video/decoder.rs:295-303 | an answer yields one picture exactly when the codec decoded one |
| VideoDecoder.DecodeSpec | nl-host/src/video/decoder.rs:121-131 | past 4 MiB the codec is reset, the last 256 KiB kept and no frames returned |
| VideoDecoder.FirstKey | nl-host/src/video/decoder.rs:166-183 | the position of the first keyframe of a run of units, with none before it |
| VideoDecoder.LoopHistory | nl-host/src/video/decoder.rs:135-220 | the loop only adds units and pictures; the unit counter grows by the units cut and the frame counter by the pictures |
| VideoDecoder.LoopPictures | nl-host/src/video/decoder.rs:185-214 | the pictures of a call are the codec's answers for the units handed to it, in order |
| VideoDecoder.SkipGarbage | nl-host/src/video/decoder.rs:148-152 | bytes before the first start code are dropped and the loop goes on from it |
| VideoDecoder.LoopShape | nl-host/src/video/decoder.rs:135-163 | the buffer is the garbage dropped, the units cut in order and what stays, which begins with a start code |
| VideoDecoder.LoopCuts | nl-host/src/video/decoder.rs:154-163 | every unit cut starts with its start code and holds no other |
| VideoDecoder.LoopGating | nl-host/src/video/decoder.rs:166-183 | units reach the codec in the order cut; while waiting, those before the first keyframe are skipped |
| VideoDecoder.KeptTailFindsSplitCode | nl-host/src/video/decoder.rs:139-143 | a start code that the next input completes is still found after the tail is kept |
| VideoDecoder.PackAll | nl-host/src/video/decoder.rs:247-294 | one packed frame per picture, in order |
| VideoDecoder.Decoder.DecodeNal | nl-host/src/video/decoder.rs:247-306 | the unit is handed to the codec; a decoded picture comes back packed and is counted, a failure is reported |
| VideoDecoder.Decoder.Decode | nl-host/src/video/decoder.rs:90-245 | the frames are the packed pictures of the splitter's specification, and the state is what it describes |
| FrameBuffer.AfterPush | nl-host/src/core/frame.rs:36-46 | a push keeps the frame counter within unsigned 64 bits |
| FrameBuffer.AfterConsume | nl-host/src/core/frame.rs:49-54 | consuming never changes the frame counter |
| FrameBuffer.PushSkipsPending | nl-host/src/core/frame.rs:37-41 | an uncontended push reports a skip exactly when a frame was pending, leaves the new frame pending and bumps the counter with 64-bit wrap-around |
| FrameBuffer.ContendedPushDrops | nl-host/src/core/frame.rs:42-45 | under lock contention the frame is dropped, reported as skipped, and nothing changes |
| FrameBuffer.PushThenConsume | nl-host/src/core/frame.rs:36-54 | a consume after a push returns that frame, and a second consume returns nothing |
| FrameBuffer.StoredCount | nl-host/src/core/frame.rs:40 | counts the pushes that stored their frame |
| FrameBuffer.ConsumedInPushOrder | nl-host/src/core/frame.rs:17-54 | however pushes and consumes interleave, the frames consumed are a subsequence of the frames stored, in push order |
| FrameBuffer.CountsStoredPushes | nl-host/src/core/frame.rs:40 | after any run of operations the counter is the stored pushes counted modulo 2^64 |
| FrameBuffer.Buffer.constructor | nl-host/src/core/frame.rs:27-32 | a new buffer holds no frame and a zero counter |
| FrameBuffer.Buffer.Push | nl-host/src/core/frame.rs:36-46 | the state and the skip flag are those of AfterPush |
| FrameBuffer.Buffer.Consume | nl-host/src/core/frame.rs:49-54 | the state and the frame returned are those of AfterConsume |
| FrameBuffer.Buffer.GetCount | nl-host/src/core/frame.rs:57-59 | returns the counter, below 2^64 |
| AudioDecoder.Sample | nl-host/src/audio/decoder.rs:17 | a sample is the two's-complement reading of the little-endian byte pair, negative exactly when the high byte's top bit is set |
| AudioDecoder.SampleOfBytes | nl-host/src/audio/decoder.rs:17 | a sample's two little-endian bytes read back as that sample |
| AudioDecoder.BytesOfSample | nl-host/src/audio/decoder.rs:17 | a byte pair's sample is written back as that pair |
| AudioDecoder.DecodePcm | nl-host/src/audio/decoder.rs:14-18 | one sample per whole byte pair |
| AudioDecoder.DecodePcmAt | nl-host/src/audio/decoder.rs:16-17 | sample i is read from bytes 2i and 2i+1 |
| AudioDecoder.DecodePcmAppend | nl-host/src/audio/decoder.rs:16 | decoding two parts, the first of even length, decodes them one after the other |
| AudioDecoder.OddByteIgnored | nl-host/src/audio/decoder.rs:16 | a trailing odd byte yields no sample |
| AudioDecoder.DecodeEncode | nl-host/src/audio/decoder.rs:14-18 | the samples written out little-endian are the samples read back |
| AudioDecoder.EncodeDecode | nl-host/src/audio/decoder.rs:14-18 | an even-length byte stream is its samples rewritten |
| AudioDecoder.ForwardedAtMostOnePerPacket | nl-host/src/audio/decoder.rs:23-25 | a full channel drops a whole batch: at most one batch per packet, exactly one when the channel always has room |
| AudioDecoder.OrderPreserved | nl-host/src/audio/decoder.rs:12-25 | with room in the channel and whole samples in each packet, the samples reaching playback are those of the received stream, in order |
| AudioDecoder.DecodeLoop | nl-host/src/audio/decoder.rs:11-27 | the thread offers each received packet's samples once, in order, and a full channel drops that batch |
| AudioDecoder.ForwardedAt | nl-host/src/audio/decoder.rs:12-25 | packet k is forwarded, or dropped, ahead of the packets after it |
| AudioReceiver.ReadHeader | nl-host/src/audio/receiver.rs:43-65 | a header is read exactly when 12 bytes arrive and the first six are the magic `AUDIO\0`; the sample rate is an unsigned 32-bit number |
| AudioReceiver.HeaderRoundTrip | nl-host/src/audio/receiver.rs:43-65 | the header the device writes reads back as 48000 Hz, two channels, codec 0 |
| AudioReceiver.NextPacket | nl-host/src/audio/receiver.rs:70-88 | a packet read consumes at least its 12-byte header and no more than what is there |
| AudioReceiver.ReadPacket | nl-host/src/audio/receiver.rs:72-88 | the header is read, the size checked against 1 MiB and the body read, as NextPacket says |
| AudioReceiver.ReceivePackets | nl-host/src/audio/receiver.rs:67-95 | the loop offers to the channel the packets Receive describes, in order |
| AudioReceiver.ReceiveFrame | nl-host/src/audio/receiver.rs:72-93 | a framed packet is read back with its payload and its timestamp modulo 2^64, and the loop reads on |
| AudioReceiver.FramedStreamReceived | nl-host/src/audio/receiver.rs:67-95 | every packet the device frames, each within 1 MiB, is read back whole and in order |
| AudioReceiver.PacketWritten | nl-android/src/main/java/dev/nl/mirror/network/PacketWriter.kt:20-21 | a packet's writes carry its frame once and the flush carries no data |
| AudioReceiver.WrittenFrames | nl-android/src/main/java/dev/nl/mirror/network/PacketWriter.kt:17-26 | the device writes exactly one frame per packet, in order |
| AudioReceiver.DeviceStreamReceived | nl-host/src/audio/receiver.rs:12-95 | the device's bytes are accepted as a 48 kHz stereo header followed by exactly the packets it sent, less those the decoder channel had no room for |
| AudioReceiver.OversizeEndsLoop | nl-host/src/audio/receiver.rs:79-82 | a declared size above 1 MiB ends the loop and nothing after it is offered |
| AudioReceiver.FullChannelDropsOne | nl-host/src/audio/receiver.rs:91-93 | a packet meeting a full channel is dropped and the loop reads on |
| AudioReceiver.HeaderAccepted | nl-host/src/audio/receiver.rs:17-30 | attempt i counts as accepted exactly when it connected and its header was valid |
| AudioReceiver.ReconnectSleeps | nl-host/src/audio/receiver.rs:14-39 | the sleep after attempt i is 2 to the number of attempts since the last valid header, capped at 10 s |
| AudioReceiver.RejectedHeaderKeepsBackoff | nl-host/src/audio/receiver.rs:20-29 | a rejected header does not reset the delay: k attempts after a valid header the streak is k |
| Playback.Trim | nl-host/src/audio/playback.rs:76-78 | the newest 32768 samples, oldest first |
| Playback.Output | nl-host/src/audio/playback.rs:47-49 | a callback for n samples writes the oldest buffered samples, then silence |
| Playback.Player.constructor | nl-host/src/audio/playback.rs:38-39 | the FIFO starts empty |
| Playback.Player.Feed | nl-host/src/audio/playback.rs:70-79 | a batch is pushed at the back, then the oldest dropped down to eight times BUFFER_SIZE |
| Playback.Player.Callback | nl-host/src/audio/playback.rs:45-50 | the callback writes Output of the buffer and leaves the samples it did not take |
| Playback.FedKeepsFifo | nl-host/src/audio/playback.rs:70-79 | feeding a batch keeps the FIFO discipline: bounded, newest samples only, played and buffered a subsequence of received |
| Playback.PulledKeepsFifo | nl-host/src/audio/playback.rs:45-50 | a callback keeps the FIFO discipline |
| Playback.FifoOverRun | nl-host/src/audio/playback.rs:45-79 | over any run of batches and callbacks only the oldest samples are dropped, and everything played was received, in order, at most once |
| Playback.CallbackPlays | nl-host/src/audio/playback.rs:47-49 | a callback's output is the samples recorded as played, followed by silence |
| App.MetaState | nl-host/src/core/app.rs:144-157 | the meta state has the Control, Meta and Shift bits set exactly for the held modifiers and no other bit |
| App.MetaStateInjective | nl-host/src/core/app.rs:144-157 | different modifier sets never share a meta state |
| App.ModifierKeysOnly | nl-host/src/core/app.rs:331-339 | only modifier keys change the flags, each its own flag, set on press and cleared on release |
| App.NavigationShortcuts | nl-host/src/core/app.rs:378-428 | on a press, Escape and F1-F6 send Android key codes 4, 3, 187, 25, 24, 26 and 82 down then up with the current meta state, whatever modifiers are held |
| App.PowerShortcuts | nl-host/src/core/app.rs:429-440 | F7 turns the device screen off and F8 back on |
| App.ClipboardShortcuts | nl-host/src/core/app.rs:342-375 | with Control or Command held C asks for the device clipboard, V hands it the host's text and pastes, S saves a screenshot; without either the keys are forwarded |
| App.ShortcutsSkipKeymap | nl-host/src/core/app.rs:344-467 | shortcuts fire only on a press and never consult the keymap; a release is forwarded as action up when the keymap has a code |
| App.ForwardedCarriesMods | nl-host/src/core/app.rs:460-467 | a forwarded key carries its mapped code and the meta state of the held modifiers |
| App.MirrorApp.constructor | nl-host/src/core/app.rs:46-77 | a new application has no window, no threads, no channel, no renderer and no modifiers held |
| App.MirrorApp.Send | nl-host/src/core/app.rs:107-165 | a command joins the input channel only when a channel exists |
| App.MirrorApp.SendKeycode | nl-host/src/core/app.rs:144-157 | the key command carries the meta state built from the held modifiers |
| App.MirrorApp.Resumed | nl-host/src/core/app.rs:193-241 | the window is re-created whenever allowed; threads and the input channel start on the first call only, then the screen-off command is queued when asked for |
| App.UpdateMods | nl-host/src/core/app.rs:330-339 | a non-modifier key changes no flag; a flag changes only for its own two keys, and then to whether the key is pressed |
| App.ClipboardShortcut | nl-host/src/core/app.rs:342-375 | a shortcut exactly for C, V and S with Control or Command held; only S saves a screenshot, and at most one command is queued |
| App.NavigationShortcut | nl-host/src/core/app.rs:377-457 | a shortcut exactly for F7-F10 and the keys with a navigation code; the latter send that code down and up with the current meta state |
| App.HandleKey | nl-host/src/core/app.rs:341-467 | a shortcut exactly on a press of a key one of the two tables knows, the modifier table taking precedence; anything else is forwarded as at most one key command, present exactly when the keymap has a code |
| App.MirrorApp.ModifiersChanged | nl-host/src/core/app.rs:323-327 | the flags are taken over from the platform's modifier state |
| App.MirrorApp.ClipboardKeys | nl-host/src/core/app.rs:342-375 | the modifier shortcuts queue what ClipboardShortcut says and report whether the key was one |
| App.MirrorApp.NavigationKeys | nl-host/src/core/app.rs:377-457 | the other shortcuts queue what NavigationShortcut says and report whether the key was one |
| App.MirrorApp.PressKey | nl-host/src/core/app.rs:382-383 | a key code is sent down and then up with the current meta state |
| App.MirrorApp.KeyboardInput | nl-host/src/core/app.rs:328-468 | the flags are updated first, then the key is handled as HandleKey says |
| App.MirrorApp.Dispatch | nl-host/src/core/app.rs:344-467 | a press tries the shortcuts and returns when one matched; otherwise the keymap's code is sent |
| App.MirrorApp.Shortcuts | nl-host/src/core/app.rs:344-457 | a press tries the modifier shortcuts, then the others |
| App.MirrorApp.AboutToWait | nl-host/src/core/app.rs:474-518 | the pending frame is taken and counted, remembered when the lock is free; the size changes only when the renderer is re-created for a new frame size |
| App.MirrorApp.Exit | nl-host/src/core/app.rs:168-190 | with turnScreenOff the power-on line goes out on a fresh control connection when one opens |
| H264Encoder.Units | nl-ios/BroadcastExtension/H264Encoder.swift:226-239 | the units the length prefixes delimit each fit a 4-byte length |
| H264Encoder.ConvertedLength | nl-ios/BroadcastExtension/H264Encoder.swift:221-242 | the conversion changes only the prefixes, each into a start code of the same size, so the output is as long as the input |
| H264Encoder.ConvertedIsAnnexB | nl-ios/BroadcastExtension/H264Encoder.swift:221-242 | the output is the start-code layout of the units the prefixes delimit, and those units length-prefixed again are the input |
| H264Encoder.AvccConverts | nl-ios/BroadcastExtension/H264Encoder.swift:221-242 | any units short enough for a 4-byte length come out of the conversion in start-code form, one for one |
| H264Encoder.ConvertToAnnexB | nl-ios/BroadcastExtension/H264Encoder.swift:221-242 | the loop builds exactly the converted buffer |
| H264Encoder.ByteLimit | nl-ios/BroadcastExtension/H264Encoder.swift:62-86 | the session is real-time, without reordering, with a keyframe at least every 60 frames, the given average bit rate and a limit of bitrate / 8 bytes, rounded down, per 1 second |
| H264Encoder.IsKeyFrame | nl-ios/BroadcastExtension/H264Encoder.swift:173-181 | a frame is a keyframe exactly when it has a first attachment not marked NotSync |
| H264Encoder.FrameEventsOrder | nl-ios/BroadcastExtension/H264Encoder.swift:137-171 | parameter sets go out only for keyframes and ahead of the frame's packet, which carries the data in start-code form and the keyframe flag; a packet goes out exactly when the data can be read |
| H264Encoder.Encoder.constructor | nl-ios/BroadcastExtension/H264Encoder.swift:27-31 | a new encoder has its size and bit rate and no session |
| H264Encoder.Encoder.Start | nl-ios/BroadcastExtension/H264Encoder.swift:33-60 | a created session gets the configured settings; a failed creation leaves none |
| H264Encoder.Encoder.Stop | nl-ios/BroadcastExtension/H264Encoder.swift:88-96 | the session is dropped |
| H264Encoder.Encoder.Encode | nl-ios/BroadcastExtension/H264Encoder.swift:98-122 | a frame with an image is handed to the session only when there is one |
| H264Encoder.Encoder.OutputCallback | nl-ios/BroadcastExtension/H264Encoder.swift:126-171 | a failed status or missing sample is ignored; otherwise the delegate gets FrameEvents of the sample |
| Broadcast.AfterConnect | nl-ios/BroadcastExtension/SampleHandler.swift:17-41 | connecting never sends and never changes whether the client thinks it is connected |
| Broadcast.ConnectIdempotent | nl-ios/BroadcastExtension/SampleHandler.swift:17-18 | connecting twice is connecting once, and a connected client opens no other connection |
| Broadcast.DisconnectedSendDrops | nl-ios/BroadcastExtension/SampleHandler.swift:43-64 | a packet offered while not connected is dropped and only starts a connection; after a send error the next packet is the one that reconnects |
| Broadcast.SentAreOffered | nl-ios/BroadcastExtension/SampleHandler.swift:43-70 | over any run of events what reaches the connection is the offered packets with some dropped, never duplicated or reordered |
| Broadcast.StreamClient.constructor | nl-ios/BroadcastExtension/SampleHandler.swift:12-15 | a new client is not connected and holds no connection |
| Broadcast.StreamClient.Connect | nl-ios/BroadcastExtension/SampleHandler.swift:17-41 | the client state is AfterConnect of the old one |
| Broadcast.StreamClient.Send | nl-ios/BroadcastExtension/SampleHandler.swift:43-58 | the client state is AfterSend of the old one |
| Broadcast.StreamClient.StateChanged | nl-ios/BroadcastExtension/SampleHandler.swift:23-38 | ready sets the flag, failed and cancelled clear it, the others change nothing |
| Broadcast.StreamClient.SendFailed | nl-ios/BroadcastExtension/SampleHandler.swift:52-64 | a send error clears the flag and drops the connection |
| Broadcast.StreamClient.Disconnect | nl-ios/BroadcastExtension/SampleHandler.swift:66-70 | disconnecting clears the flag and drops the connection |
| Broadcast.KeyframeStream | nl-ios/BroadcastExtension/SampleHandler.swift:146-165 | for a keyframe with readable parameter sets and data, the bytes offered, joined, are one start-code stream: SPS, PPS, then the frame's units in order |
| Broadcast.SampleHandler.constructor | nl-ios/BroadcastExtension/SampleHandler.swift:73-77 | a new handler has no encoder, no client and no frames |
| Broadcast.SampleHandler.BroadcastStarted | nl-ios/BroadcastExtension/SampleHandler.swift:79-88 | a new client is created and connects at once; the encoder waits for the first frame |
| Broadcast.SampleHandler.BroadcastResumed | nl-ios/BroadcastExtension/SampleHandler.swift:94-103 | the client reconnects at once and the encoder is stopped and dropped |
| Broadcast.SampleHandler.BroadcastFinished | nl-ios/BroadcastExtension/SampleHandler.swift:105-111 | the encoder is stopped and dropped, the client disconnected and dropped |
| Broadcast.SampleHandler.ProcessVideo | nl-ios/BroadcastExtension/SampleHandler.swift:113-135 | the encoder is replaced, at 15 Mbit/s, exactly when there is none or its size differs, the old one stopped; the frame is then encoded and counted |
| Broadcast.SampleHandler.Deliver | nl-ios/BroadcastExtension/SampleHandler.swift:146-165 | a packet goes to the client as it is and parameter sets as SPS then PPS, each behind a start code |
| MirrorServer.RemoveAll | nl-ios/nl-ios/MirrorServer.swift:151-153 | every copy of the connection is removed, the others stay in their order and number |
| MirrorServer.RemoveAbsent | nl-ios/nl-ios/MirrorServer.swift:151-153 | removing a connection that is not listed changes nothing |
| MirrorServer.Deliveries | nl-ios/nl-ios/MirrorServer.swift:156-164 | one send of the packet to each listed connection, in list order |
| MirrorServer.RelayVerbatim | nl-ios/nl-ios/MirrorServer.swift:133-149 | the relay does not reframe: the chunks broadcast, joined, are exactly the bytes read from the extension until the chain stops |
| MirrorServer.VideoPacketFraming | nl-ios/nl-ios/MirrorServer.swift:167-182 | the packet is 12 bytes longer than the data and reads back as its timestamp modulo 2^64, its size and the data |
| MirrorServer.Server.constructor | nl-ios/nl-ios/MirrorServer.swift:11-16 | a new server listens on nothing and has no connections |
| MirrorServer.Server.Start | nl-ios/nl-ios/MirrorServer.swift:20-83 | each listener runs once it could be created |
| MirrorServer.Server.Stop | nl-ios/nl-ios/MirrorServer.swift:85-92 | both listeners stop, the list is emptied and the extension connection dropped |
| MirrorServer.Server.ClientStateChanged | nl-ios/nl-ios/MirrorServer.swift:94-113 | a ready connection joins the end of the list; a failed or cancelled one is removed; other states change nothing |
| MirrorServer.Server.ExtensionConnected | nl-ios/nl-ios/MirrorServer.swift:115-116 | the newest extension connection replaces the old one |
| MirrorServer.Server.HasConnections | nl-ios/nl-ios/MirrorServer.swift:184-186 | true exactly when the list is not empty |
| MirrorServer.Server.Broadcast | nl-ios/nl-ios/MirrorServer.swift:156-164 | the loop sends the packet once to every listed connection in order |
| MirrorServer.Server.SendVideoPacket | nl-ios/nl-ios/MirrorServer.swift:167-182 | every listed connection is sent the framed packet |
| MirrorServer.Server.Relay | nl-ios/nl-ios/MirrorServer.swift:133-149 | every non-empty chunk of the receive chain is broadcast, up to the read that completes or fails |
| MirrorServer.Server.RelayOne | nl-ios/nl-ios/MirrorServer.swift:134-138 | one read's data is broadcast unless it is empty or missing |
| MirrorServer.RelayedAdvance | nl-ios/nl-ios/MirrorServer.swift:140-147 | the chain goes on after a read only when it neither completed nor failed |
| MirrorServer.BroadcastAllAppend | nl-ios/nl-ios/MirrorServer.swift:156-164 | broadcasting two runs of packets is broadcasting one after the other |
| SharedBuffer.Newest | nl-ios/Shared/SharedBuffer.swift:46-49 | the newest 30 packets, oldest first |
| SharedBuffer.NewestAppend | nl-ios/Shared/SharedBuffer.swift:43-51 | trimming after a write is trimming what was ever written |
| SharedBuffer.WriteAllKeepsNewest | nl-ios/Shared/SharedBuffer.swift:43-51 | after any run of writes the list holds the newest 30 packets stored and written, oldest first |
| SharedBuffer.Store.constructor | nl-ios/Shared/SharedBuffer.swift:10-21 | a new store holds no packets and no parameter sets |
| SharedBuffer.Store.Write | nl-ios/Shared/SharedBuffer.swift:25-52 | with the store available the framed packet is appended and the oldest dropped down to 30; otherwise nothing changes |
| SharedBuffer.Store.WriteSpsPps | nl-ios/Shared/SharedBuffer.swift:54-58 | with the store available both parameter sets are replaced |
| SharedBuffer.Store.ReadPackets | nl-ios/Shared/SharedBuffer.swift:62-67 | the list is returned and removed; an unavailable store gives nothing |
| SharedBuffer.Store.ReadSpsPps | nl-ios/Shared/SharedBuffer.swift:69-74 | returns the stored parameter sets, or none when the store is unavailable |
| SharedBuffer.Store.Clear | nl-ios/Shared/SharedBuffer.swift:78-83 | with the store available the list and both parameter sets are removed |
| StreamForwarder.Forwarder.constructor | nl-ios/nl-ios/StreamForwarder.swift:16-18 | a new forwarder is not running and has no timer |
| StreamForwarder.Forwarder.Start | nl-ios/nl-ios/StreamForwarder.swift:20-30 | starting while running does nothing, so a second timer is never scheduled |
| StreamForwarder.Forwarder.Stop | nl-ios/nl-ios/StreamForwarder.swift:32-37 | the flag is cleared and the timer dropped |
| StreamForwarder.Forwarder.ForwardPackets | nl-ios/nl-ios/StreamForwarder.swift:42-65 | without clients the store is not read; otherwise it is drained and every packet broadcast to every client, oldest first |
| Launcher.SidecarArgsShape | nl-launcher/src-tauri/src/launcher.rs:54-63 | the host gets mirror, --bitrate, the bit rate, --max-size, the size and --audio in that order, the numbers reading back as given, and --turn-screen-off last exactly when asked for |
| Launcher.RestoreLine | nl-launcher/src-tauri/src/launcher.rs:164-177 | the restore command is one line, the same line the host sends on its own exit, and the device reads it back whole |
| Launcher.MirrorState.constructor | nl-launcher/src-tauri/src/lib.rs:60-66 | no sidecar, session 0, nothing recorded |
| Launcher.MirrorState.StartMirror | nl-launcher/src-tauri/src/launcher.rs:17-150 | any running sidecar is killed, the session number goes up, the settings are recorded, and on success the new sidecar is spawned with SidecarArgs and watched under the new number; the sidecar and spawn errors are returned as the source words them |
| Launcher.MirrorState.TakeAndKill | nl-launcher/src-tauri/src/launcher.rs:26-31 | the running sidecar, if any, is taken out and killed |
| Launcher.MirrorState.Terminated | nl-launcher/src-tauri/src/launcher.rs:92-127 | in the model's atomic step, only the monitor of the current session cleans up, and it clears only the current child |
| Launcher.MirrorState.StopMirror | nl-launcher/src-tauri/src/launcher.rs:154-205 | the session ends, the screen restore is attempted before the sidecar is killed and cleared, and mirror-stopped is emitted |
| Pairing.StatusDistinguishes | nl-launcher/src-tauri/src/network.rs:97-106 | the connected and pending status replies differ |
| Pairing.IpOverride | nl-launcher/src-tauri/src/network.rs:121-129 | an override, when there is one, is a non-empty text without a space |
| Pairing.MarkerBeforeSpace | nl-launcher/src-tauri/src/network.rs:121-123 | the space that ends the field lies after the whole marker, with no space inside the field |
| Pairing.OverrideExtracted | nl-launcher/src-tauri/src/network.rs:113-129 | an `?ip=` field written out before any other `?` is the pairing target |
| Pairing.PeerByDefault | nl-launcher/src-tauri/src/network.rs:114-118 | without an `?ip=` field, or with an empty one, the peer's address is the target |
| Pairing.RoutePrecedence | nl-launcher/src-tauri/src/network.rs:83-113 | a favicon request is never answered and never pairs, a status poll is never taken for a pairing, and pairing happens exactly for the remaining /pair requests |
| Pairing.ConnectEvent | nl-launcher/src-tauri/src/network.rs:283-305 | success, carrying the target, exactly when adb ran and its standard output contains connected; otherwise the error, worded as the source words it |
| Pairing.PairingServer.constructor | nl-launcher/src-tauri/src/network.rs:8-11 | not running, stopped, and no address recorded |
| Pairing.PairingServer.Start | nl-launcher/src-tauri/src/network.rs:20-39 | nothing happens while running; otherwise the flags are set and the listener thread spawned |
| Pairing.PairingServer.ListenFailed | nl-launcher/src-tauri/src/network.rs:44-68 | a socket, bind or listen failure clears the running flag |
| Pairing.PairingServer.Stop | nl-launcher/src-tauri/src/network.rs:327-332 | stopping only clears the running flag |
| Pairing.PairingServer.LoopEnded | nl-launcher/src-tauri/src/network.rs:75-321 | the accept loop ends once the flag is clear and then sets the stopped flag |
| Pairing.PairingServer.HandleRequest | nl-launcher/src-tauri/src/network.rs:80-307 | the request is routed as Route says for the recorded address; a pairing records its target and starts `adb connect <target>:5555` |
| Pairing.ConnectArgsNameTarget | nl-launcher/src-tauri/src/network.rs:276-279 | the adb arguments are `connect` and the target with `:5555` appended, so two pairings run the same command exactly when their targets agree |
| Pairing.PairingServer.ConnectFinished | nl-launcher/src-tauri/src/network.rs:283-305 | when the background `adb connect` finishes, its event is emitted and a success records its target, so a recorded address is always one a pairing was attempted for |
| Adb.ReplaceRemovesChar | nl-launcher/src-tauri/src/adb.rs:40 | replacing a character by text without it leaves none of it |
| Adb.CleanModelHasNoUnderscore | nl-launcher/src-tauri/src/adb.rs:40 | a model name never keeps an underscore |
| Adb.ModelOfLast | nl-launcher/src-tauri/src/adb.rs:37-42 | the last token starting with model: gives the model |
| Adb.ModelOfNone | nl-launcher/src-tauri/src/adb.rs:37 | without such a token the model is Unknown |
| Adb.ModelFromParts | nl-launcher/src-tauri/src/adb.rs:37-42 | the token loop computes ModelOf: each model: token overwrites the model |
| Adb.SplitRunsOfSpaces | nl-launcher/src-tauri/src/adb.rs:31 | all-whitespace text splits into nothing but empty pieces |
| Adb.BlankHasNoWords | nl-launcher/src-tauri/src/adb.rs:29 | a line that trims to nothing has no tokens |
| Adb.DeviceOf | nl-launcher/src-tauri/src/adb.rs:29-45 | a line gives a device exactly when it has two tokens or more: serial, state and model |
| Adb.DevicesOfAppend | nl-launcher/src-tauri/src/adb.rs:28-46 | the listing is read line by line in order: two blocks of lines give their devices one after the other |
| Adb.DevicesFromLines | nl-launcher/src-tauri/src/adb.rs:28-46 | every device comes from a line of the listing |
| Adb.LinesGiveDevices | nl-launcher/src-tauri/src/adb.rs:28-46 | every line with two tokens or more gives its device |
| Adb.HeaderIgnored | nl-launcher/src-tauri/src/adb.rs:28 | the header line never becomes a device, whatever it says |
| Adb.GetDevices | nl-launcher/src-tauri/src/adb.rs:14-49 | a failed adb run gives the fixed error; otherwise the devices of the lines after the header |
| Adb.AfterSrcFirst | nl-launcher/src-tauri/src/adb.rs:153-159 | the token after the first src that has a follower is the address |
| Adb.AfterSrcNone | nl-launcher/src-tauri/src/adb.rs:153-159 | without a src that has a follower nothing is found |
| Adb.StrategyA | nl-launcher/src-tauri/src/adb.rs:153-159 | the token loop stops at the first src with a follower, as AfterSrc says |
| Adb.FirstFoundIs | nl-launcher/src-tauri/src/adb.rs:175-186 | the first line whose candidate is non-empty decides |
| Adb.FirstFoundNone | nl-launcher/src-tauri/src/adb.rs:203-215 | without such a line nothing is found |
| Adb.ScanLines | nl-launcher/src-tauri/src/adb.rs:175-215 | the line loops of strategies B and C stop at the first line that yields an address |
| Adb.EnableWifi | nl-launcher/src-tauri/src/adb.rs:135-238 | each strategy runs only when the earlier ones found nothing, the switch to TCP/IP comes last whatever was found, and a failed switch is an error even when an address was found |
| Adb.RouteDecides | nl-launcher/src-tauri/src/adb.rs:141-165 | when ip route get 1 names a source address the later strategies are not consulted |
| Adb.DeviceSize | nl-launcher/src-tauri/src/adb.rs:297-298 | the trimmed output read as an unsigned 64-bit number, or 0 when it is not one |
| Adb.SameSizeNotPushed | nl-launcher/src-tauri/src/adb.rs:300-305 | a device copy of the same size, as stat prints it, is not pushed again, and one of another size is |
| Adb.TrimDigits | nl-launcher/src-tauri/src/adb.rs:297 | decimal digits followed by a line feed trim to the digits |
| Adb.UnreadableSizePushed | nl-launcher/src-tauri/src/adb.rs:297-305 | when the size cannot be read the APK is pushed unless the bundled one is empty |

## Left out

- Threads, interrupts, bounded joins, latch waits, poll timeouts and sleeps are not modelled. Each operation is one step of the thread that runs it, and a lost `try_lock` race or a full channel is a boolean or set parameter.
- Floating point is not modelled: `TouchScaler`, swipe interpolation, the unused scale factor in `MirrorService`, window-to-video mapping and the 5-pixel tap threshold in `app.rs`, renderer aspect math, YUV to RGB.
- AudioDecoder.DecodePcm: samples stay signed 16-bit integers. The `s as f32 / 32768.0` conversion is not modelled, and the playback FIFO holds numbers whose silence is 0.
- Codec, wgpu, cpal, arboard, MediaCodec, AudioRecord/AudioPolicy reflection and VideoToolbox session creation are parameters that give their outcome.
- VideoDecoder.Decoder: the codec's pictures are taken to hold every row their size and strides describe (`FitPicture`); the source copies rows without that check.
- VideoDecoder.Decoder: the wall-clock watchdog in `decoder.rs` and all stats logging are not modelled, because they depend on a clock.
- Text is `seq<char>`. The host clipboard scan counts characters where Rust counts UTF-8 bytes; both slice the same text.
- Whitespace is ASCII whitespace (9–13 and 32) and digits are ASCII digits. Kotlin's and Rust's Unicode whitespace and the JVM's Unicode digits are not modelled.
- CommandHandler.ToBoolean: case is folded over ASCII only. Java's `equalsIgnoreCase` also folds characters such as `ſ` (U+017F) to `s`, so on the device `"falſe"` reads as false; the model does not.
- `map_keycode` (keymap.rs) is not part of this model: the mapped key arrives as a parameter.
- App.MirrorApp: `try_send` into the 256-slot input channel is not modelled. The F9/F10 swipe coordinates (half the width, a quarter and three quarters of the height) are computed in exact reals, not `f32`. Screenshot saving, the renderer and GPU work, and stats logging are not modelled. The host clipboard text arrives as a parameter.
- CommandHandler: org.json parsing, `Double.parseDouble` and the controllers are parameters; the JSON object's field coercion is modelled.
- CommandHandler: a field value is a string, an integer, a number or a boolean. JSON `null`, arrays and nested objects as field values are not modelled; no command reads such a field, and their coercion goes through `JSONObject`'s own rules.
- DisplayManager: a setup failure after the first rotation read is modelled as a failure before it, and `stopWatcher` is not modelled.
- AudioEncoder: an exception thrown by `writeAudioHeader` is not modelled.
- AudioCapture: the unused `readCount` is not modelled, and `nextPts` is not limited to a 64-bit `Long`.
- PacketChannel: the writer's 100 ms poll timeout is not modelled; an empty poll is a loop iteration that writes nothing.
- ScreenEncoder.Encoder.EncodingLoop: the writer thread's iterations are not interleaved with the encoder's offers. The writer's final state is stated for the offers alone, through `AfterOffers`. `WriterIteration` is the separate step that drains the queue.
- MirrorService: the scaled `encW`/`encH`, computed but never used, are not modelled, and neither is the 100 ms sleep.
- MirrorService: `socket.getOutputStream()` and `watcher.start()` run before the session's `try` (MirrorService.kt:16-19). If either throws, the thread ends without the `finally` clean-up. The model takes both to succeed.
- Control.ControlClient: socket write and read errors (the `?` paths) are not modelled, and coordinates arrive already formatted by Rust's `Display` for `f32`.
- The accept loops of the device servers and of the host app, `pipeline.rs`, `audio/mod.rs` and the `main.rs` command line are connection plumbing and are not modelled.
- H264Encoder.ConvertToAnnexB: requires that the length prefixes tile the buffer exactly. The source has no bounds check: for an ill-formed buffer, the `memcpy` of the prefix and `Data(bytes:count:)` read past the end of the buffer. That is undefined behaviour, not a trap, and it is not modelled.
- H264Encoder.Encoder: the frame's `CMTime` arrives as microseconds, and the `Int64(seconds * 1e6)` truncation is not modelled. A failed session creation leaves no session, and the delegate is taken to be set.
- Broadcast.SampleHandler: `broadcastPaused` only logs and is not modelled; audio sample buffers are ignored, as in the source.
- MirrorServer.Server: connections are told apart by their position and value, not by object identity. Failed sends are only logged.
- MirrorServer.Server.Relay: the set of clients is fixed for the duration of one relayed read. Reading from the extension connection once it becomes ready is folded into the relay.
- SharedBuffer.Store.Write: `Int32(packet.count)` traps on packets of 2^31 bytes or more; that is a precondition here and in `MirrorServer`'s framing.
- SharedBuffer.Store: whether the app group's defaults can be opened is a constant of the store, and property-list storage is not modelled.
- StreamForwarder.Forwarder: logging, `packetCount` and the timer's 1/60 s period are not modelled.
- Adb: the `adb` commands are parameters that give their output as text. Sidecar-creation errors (`map_err(...)?`) and the debug log are not modelled; an address that is not found is the `DetectionFailed` result.
- Adb: `setup_forwarding`, `deploy_server`, `start_server`, `stop_server`, `connect_wifi`, `install_apk`, `start_device_tracker` and the rest of `init_session` run processes and are not modelled.
- Pairing.PairingServer.ConnectFinished: the `adb` sidecar is taken to be created. When `.expect("failed sidecar")` panics, the spawned task ends and no event is emitted; that path is not modelled.
- Pairing.PairingServer: the local address (`get_local_ip`) is a parameter. The wait of up to 20 × 50 ms, sockets and `SO_REUSEADDR`, mutex poisoning, the 100 ms sleep on `WouldBlock` and the HTML page text are not modelled.
- Pairing.PairingServer: the pairing's target is recorded as read from the request, unchecked, as in the source; `commands` holds the argument list built from it.
- Pairing.PairingServer: a request is one 512-byte read decoded with `from_utf8_lossy`; the model takes the decoded text. `LAST_CONNECTED_IP` is never cleared, as in the source.
- Launcher.MirrorState: tray, window, dock, `hide_launcher`/`show_launcher`, the close-request handling in `lib.rs`, and the 100 ms and 200 ms sleeps are not modelled.
- Launcher.MirrorState: `session_id` is unbounded, so its `u64` overflow is not modelled. The restore connection's 500 ms timeout is the `controlPortOpen` parameter.
- Launcher.MirrorState: each operation is one atomic step. The source has a restart window: `start_mirror` kills the old child (launcher.rs:26-31) and sleeps 100 ms (:45) before it bumps the session (:47-51). During that window the old monitor still sees the current session, clears the child and emits `mirror-stopped`. The session check (:96-101) and the clear (:104-107) also take separate locks. Neither interleaving is modelled.
- Launcher.MirrorState: `screen_was_off` and `device_serial` are recorded but never read, and `stop_mirror` always attempts the restore, as in the source.
- UI code, logging and configuration files, `tray.rs` and the iOS view controllers are not modelled.

## Findings

| source | as written | input that shows it | evidently intended | confidence | as-written member | corrected member |
|---|---|---|---|---|---|---|
| nl-host/src/network/control.rs:89 | `set_clipboard` escapes only backslash and quote, so a line feed in the text goes out raw and the command is cut across two lines | text `a` LF `b` | the same escape as `inject_text` (lines 104-107), so every command is one line | not executed | Control.SetClipboardSplitsLine | ClipboardProtocol.SetClipboardCommandIsOneLine |
| nl-host/src/input/handler.rs:107-110 | the unescape replaces `\n` first, so the escaped backslash before an `n` is read as a line feed | device clipboard text backslash then `n`, escaped to `\\n`, comes back as backslash then line feed | one left-to-right pass that undoes the device's escape | not executed | ClipboardProtocol.AsWrittenRoundTripBreaks | ClipboardProtocol.IntendedClipboardRoundTrip |
