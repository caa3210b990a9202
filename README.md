# Felicita BLE scale session, modelled in Dafny

This project models the core of `btscale`, a Go library that drives a
Felicita coffee scale over Bluetooth Low Energy. The scale sends 18-byte
notification frames and accepts one-byte commands. The model covers:

- `ScaleTypes` (`types.dfy`): the shared domain types: unit, connection
  state, connection status and data point.
- `Codec` (`codec.dfy`): the frame codec. It covers the length and weight
  checks of `receiveData`, `parseUnit`, `parseBatteryLevel`,
  `parseSignalFlag` and the command opcodes. An encoder is the partner, and
  a round trip is proved.
- `Stopwatch` (`stopwatch.dfy`): an abstract stand-in for the third-party
  stopwatch. It records only whether a timer exists and which operations
  were applied to it.
- `Transport` (`transport.dfy`): the BLE library as the session sees it.
  The library's answers are oracles (does the k-th write fail, what does
  the k-th buzzer poll read). A peripheral is a value that says which
  connect steps fail.
- `Sequencer` (`sequencer.dfy`): the settle-and-retry logic of `Buzz`,
  `buzzAndRestore` and `waitForBuzzer`, as functions on the link state.
  Lemmas prove that a buzz writes only buzzer toggles, writes exactly 2n of
  them on success, and restores the buzzer flag. They also prove that
  waiting succeeds exactly when a poll within the budget reads the target.
- `Felicita` (`felicita.dfy`): the session itself, as a class whose methods
  update its fields in place. It covers the commands, the buzz sequencer,
  frame reception with the one-time forced buzzer correction, the
  connection-status transitions and the nested connect loops. Several
  methods are proved equal to a specification function:
  - `Write`, `Tare`, `TogglePrecision`, `SetUnit` (when it writes) and the
    timer methods to `Transport.Transmit`;
  - `ToggleBuzzingOnTouch` to `Sequencer.Toggle`;
  - `WaitForBuzzer` to `Sequencer.Settle`;
  - `BuzzAndRestore` to `Sequencer.Cycle`;
  - `BuzzCycles` to `Sequencer.Cycles`;
  - `RestoreBuzzer` to `Sequencer.Restore`;
  - `Buzz` to `Sequencer.Buzz`;
  - `RunConnectSteps` to `ConnectSteps`.

  `ReceiveData` states its new fields in terms of the reading
  `Codec.DecodeFrame` produces. `OnPeriphConnected` uses `ConnectSteps` for
  its error and binding. The rest state their new state outright:
  `SetStatus`, `OnStateChanged`, `OnPeriphDiscovered`,
  `OnPeriphDisconnected`, `Accept`, `ForceBuzzerSetting` and the four
  handler and channel setters.
- `Mock` (`mock.dfy`): the mock scale, a class that changes its own fields.
  Its main property is that `Buzz(n)` makes exactly 2n toggles and leaves
  the flag as it found it.

The session's effect on the outside world is kept in two logs:

- `sent`: every command byte handed to the transport;
- `events`: every status or data dispatch, plus every scan or connect
  request.

The model follows the code in these places, where its behaviour may be
unexpected:

- `thisDevice` accepts a peripheral when either the ID or the name matches.
  It does not require both when both are configured.
- `hasReceivedData` is never reset. The forced buzzer correction can
  therefore fire at most once per session object, not once per reconnect.
  `Felicita.Valid` states this.
- On disconnect, `onPeriphDisconnected` publishes only `Scanning`. The
  `Disconnected` status comes from the deferred function of
  `onPeriphConnected`.
- `Disconnected` carries the error passed to `onPeriphConnected` when no
  connect step fails.
- The binding of peripheral and characteristic stays in place after a
  failed descriptor or subscribe step, and also after a disconnect:
  `onPeriphDisconnected` clears neither, so `write` keeps addressing the
  old peripheral.
- `SetUnit` writes the toggle command when the current unit is `"--"`, even
  when `"--"` is the requested unit. Before the first frame the unit is the
  zero value `""`, so a request for any named unit also writes.

## Model

| member | source | states |
|---|---|---|
| ScaleTypes.NamedUnitsDistinct | pkg/scale/types.go:6-18 | the three named units are pairwise distinct and none is the empty zero value |
| ScaleTypes.State.Ordinal | pkg/scale/types.go:21-33 | every state has an integer value in 0..2 |
| ScaleTypes.StateOf | pkg/scale/types.go:21-33 | an integer names a state exactly when it lies in 0..2 |
| ScaleTypes.StateOrdinals | pkg/scale/types.go:24-32 | Scanning = 0, Connected = 1, Disconnected = 2 (iota order), and StateOf inverts Ordinal |
| ScaleTypes.DataPoint.Value | pkg/scale/types.go:49-51 | the value is the data point's weight |
| Codec.OpcodesDistinct | pkg/felicita/felicita.go:23-30 | the seven command opcodes are pairwise distinct |
| Codec.ContainsInPair | pkg/felicita/felicita.go:523-528 | on a two-byte string, strings.Contains of one byte or of a two-byte pattern reduces to comparing positions |
| Codec.ParseUnit | pkg/felicita/felicita.go:518-531 | the result is always a named unit; a hint of length other than 2 is Unknown; grams exactly when either byte lower-cases to 'g'; ounces exactly when the bytes lower-case to "oz" |
| Codec.ParseBatteryLevel | pkg/felicita/felicita.go:533-543 | the percentage is in 0..100; 0 below the minimum of 129; 100 above the maximum of 158; in between, within half a percent of the linear position in [129, 158] |
| Codec.BatteryLevelMonotone | pkg/felicita/felicita.go:533-543 | the percentage never decreases as the raw byte grows |
| Codec.ParseSignalFlag | pkg/felicita/felicita.go:545-547 | the flag is on exactly when the byte is 0x22 |
| Codec.ParseWeight | pkg/felicita/felicita.go:448-451 | the weight field parses exactly when it is an optionally signed run of digits, and the value is bounded by the field width |
| Codec.ParseWeightSign | pkg/felicita/felicita.go:448-451 | a '+' before the digits gives their value, and a '-' gives its negation |
| Codec.DigitsRoundTrip | pkg/felicita/felicita.go:448-451 | reading back k zero-padded digits of v gives v |
| Codec.WeightRoundTrip | pkg/felicita/felicita.go:448-451 | every weight a seven-character field can carry parses back to itself |
| Codec.DecodeFrame | pkg/felicita/felicita.go:444-459 | a frame is accepted exactly when it has 18 bytes and bytes 2..8 hold a number; an accepted reading has a named unit and an encodable weight |
| Codec.FrameRoundTrip | pkg/felicita/felicita.go:444-459 | every reading a frame can carry survives encoding and decoding unchanged |
| Codec.DecodeExample | pkg/felicita/felicita.go:444-459 | a concrete frame decodes to 123.45 g, buzzer on and battery byte 150, and that byte is 72 percent |
| Stopwatch.Started | pkg/felicita/felicita.go:211-215 | starting creates a running timer when there is none, and otherwise appends a start to the existing one |
| Stopwatch.Stopped | pkg/felicita/felicita.go:226-228 | stopping leaves a missing timer missing and appends a stop to an existing one |
| Stopwatch.Cleared | pkg/felicita/felicita.go:239-241 | resetting leaves a missing timer missing and appends a reset to an existing one |
| Stopwatch.Elapsed | pkg/felicita/felicita.go:247-253 | the elapsed time is 0 without a timer and the stopwatch's reading otherwise |
| Transport.Transmit | pkg/felicita/felicita.go:298-306 | unbound, a write fails as not ready and sends nothing; bound, it sends exactly the byte and fails, as a write failure, exactly when the transport refuses it; flag and polls are untouched |
| Sequencer.Toggle | pkg/felicita/felicita.go:184-186 | a toggle writes 0x42 exactly when a device is bound; it succeeds exactly when bound and the write succeeds; unbound it fails as not ready |
| Sequencer.ToggleOnlyToggles | pkg/felicita/felicita.go:184-186 | a toggle writes at most one byte, and that byte is the toggle opcode |
| Sequencer.Wait | pkg/felicita/felicita.go:494-503 | the poll loop writes nothing and stays within the deadline; success means the flag reads the target; failure is a settle timeout naming the target, with the budget used up |
| Sequencer.Settle | pkg/felicita/felicita.go:494-503 | waitForBuzzer writes nothing and makes between 1 and 100 polls; success means the flag reads the target; failure is a settle timeout naming the target after all 100 polls |
| Sequencer.WaitSucceedsIff | pkg/felicita/felicita.go:494-503 | the poll loop succeeds exactly when some poll before the deadline reads the target |
| Sequencer.WaitStopsAtFirst | pkg/felicita/felicita.go:494-503 | a successful poll loop stops at the first poll that reads the target |
| Sequencer.SettleSucceedsIff | pkg/felicita/felicita.go:494-503 | waitForBuzzer succeeds exactly when one of its 100 polls reads the target, and then stops at the first such poll |
| Sequencer.Cycle | pkg/felicita/felicita.go:477-492 | a successful buzz cycle ends with the buzzer off; unbound it fails as not ready and changes nothing |
| Sequencer.CycleToggles | pkg/felicita/felicita.go:477-492 | a buzz cycle writes at most two bytes, all toggles, and exactly two on success |
| Sequencer.CyclesStep | pkg/felicita/felicita.go:172-178 | the loop of Buzz ends at the first failed cycle and otherwise continues with one cycle fewer |
| Sequencer.Cycles | pkg/felicita/felicita.go:172-178 | for k > 0: successful cycles end with the buzzer off, and unbound the loop fails as not ready and changes nothing |
| Sequencer.CyclesToggles | pkg/felicita/felicita.go:172-178 | k cycles write at most 2k bytes, all toggles, and exactly 2k on success |
| Sequencer.Restore | pkg/felicita/felicita.go:160-169 | a successful restore leaves the buzzer on; unbound it fails as not ready and changes nothing |
| Sequencer.RestoreToggles | pkg/felicita/felicita.go:160-169 | the deferred restore writes at most one toggle, and exactly one when bound |
| Sequencer.BuzzWithRestore | pkg/felicita/felicita.go:151-180 | with the buzzer on, Buzz(n) runs n - 1 cycles and then the restore, and a restore error replaces the loop's result |
| Sequencer.Buzz | pkg/felicita/felicita.go:142-181 | Buzz(n) succeeds only for n > 0 and then leaves the buzzer flag as it was, whether it started on or off; for n > 0, unbound it fails as not ready and changes nothing |
| Sequencer.BuzzToggles | pkg/felicita/felicita.go:142-181 | n <= 0 is refused before any write; otherwise at most 2n bytes are written, all toggles |
| Sequencer.BuzzRestoresFlag | pkg/felicita/felicita.go:142-181 | a successful Buzz(n) writes exactly 2n toggles, whether the buzzer started on or off |
| Sequencer.DeferredRestore | pkg/felicita/felicita.go:160-178 | the restore runs after the loop whatever its outcome; a loop error survives a successful restore; a restore error replaces the result |
| Felicita.EqualFoldProperties | pkg/felicita/felicita.go:426-433 | case-insensitive equality is an equivalence, and upper-casing one side does not change it |
| Felicita.ThisDevice | pkg/felicita/felicita.go:426-433 | a name match ignoring case always accepts; a configured ID that matches ignoring case accepts; without a configured ID only the name counts; matching neither rejects |
| Felicita.ThisDeviceIgnoresCase | pkg/felicita/felicita.go:426-433 | upper-casing the peripheral's ID and name never changes whether it is accepted |
| Felicita.WalkCharacteristics | pkg/felicita/felicita.go:384-401 | the inner loop fails only in the descriptor or subscribe step, and a failure leaves p bound with the failing data characteristic |
| Felicita.WalkServices | pkg/felicita/felicita.go:375-403 | the outer loop fails only with a characteristic, descriptor or subscribe step error |
| Felicita.ConnectSteps | pkg/felicita/felicita.go:363-403 | every failure is a connect-step error; the error is SetMtu exactly when the MTU step fails, and DiscoverServices exactly when the MTU step succeeds and service discovery fails |
| Felicita.WalkCharacteristicsSpec | pkg/felicita/felicita.go:384-401 | the characteristic loop fails exactly when a data characteristic fails its descriptors or subscription; any binding it makes is p with a data characteristic, and it binds p whenever the list holds a data characteristic |
| Felicita.WalkServicesSpec | pkg/felicita/felicita.go:375-403 | the service loop fails exactly when a data service fails a step; any binding is p with a data characteristic of its services, and a successful walk over a data service holding a data characteristic binds p |
| Felicita.ConnectStepsSpec | pkg/felicita/felicita.go:363-403 | the connect sequence succeeds exactly when every step does; an MTU or service discovery failure binds nothing; any binding is p with one of its data characteristics, and a successful connect of a peripheral whose data service holds a data characteristic leaves p bound |
| Felicita.ForcesToggle | pkg/felicita/felicita.go:505-516 | nothing is forced once data has been received or with no preference; before the first frame, preference On forces a toggle exactly when the flag is off, and Off exactly when it is on |
| Felicita.Felicita.constructor | pkg/felicita/felicita.go:65-89 | a new session has no device bound, Scanning status, zero fields, empty logs and the configured identity and preference |
| Felicita.Felicita.BatteryLevel | pkg/felicita/felicita.go:102-104 | the battery level is the stored byte normalised to 0..100 percent |
| Felicita.Felicita.BatteryLevelRaw | pkg/felicita/felicita.go:107-109 | the raw level is the stored byte, in 0..255 |
| Felicita.Felicita.ElapsedTime | pkg/felicita/felicita.go:247-253 | the elapsed time is 0 while no timer exists and the stopwatch's reading otherwise |
| Felicita.Felicita.SetStateChangeHandler | pkg/felicita/felicita.go:117-119 | registers or clears the status handler |
| Felicita.Felicita.SetStateChangeChannel | pkg/felicita/felicita.go:122-124 | registers or clears the status channel |
| Felicita.Felicita.SetDataHandler | pkg/felicita/felicita.go:127-129 | registers or clears the data handler |
| Felicita.Felicita.SetDataChannel | pkg/felicita/felicita.go:132-134 | registers or clears the data channel |
| Felicita.Felicita.Write | pkg/felicita/felicita.go:298-306 | unbound, fails as not ready with nothing sent; bound, sends exactly the byte and succeeds exactly when the transport accepts it |
| Felicita.Felicita.Tare | pkg/felicita/felicita.go:137-139 | writes the tare opcode, with the outcome of write |
| Felicita.Felicita.TogglePrecision | pkg/felicita/felicita.go:201-203 | writes the precision opcode, with the outcome of write |
| Felicita.Felicita.ToggleBuzzingOnTouch | pkg/felicita/felicita.go:184-186 | behaves as Sequencer.Toggle: one 0x42 when bound, nothing otherwise |
| Felicita.Felicita.SetUnit | pkg/felicita/felicita.go:189-198 | a known unit equal to the request succeeds with nothing written; otherwise the toggle-unit opcode is written |
| Felicita.Felicita.StartTimer | pkg/felicita/felicita.go:206-218 | writes the start opcode, and starts or creates the timer only when the write succeeds |
| Felicita.Felicita.StopTimer | pkg/felicita/felicita.go:221-231 | writes the stop opcode, and stops the timer only when the write succeeds |
| Felicita.Felicita.ResetTimer | pkg/felicita/felicita.go:234-244 | writes the reset opcode, and resets the timer only when the write succeeds |
| Felicita.Felicita.WaitForBuzzer | pkg/felicita/felicita.go:494-503 | the 100-poll loop ends in the state and outcome of Sequencer.Settle |
| Felicita.Felicita.BuzzAndRestore | pkg/felicita/felicita.go:477-492 | the four steps end in the state and outcome of Sequencer.Cycle |
| Felicita.Felicita.RestoreBuzzer | pkg/felicita/felicita.go:160-169 | the deferred restore ends in the state and outcome of Sequencer.Restore |
| Felicita.Felicita.BuzzCycles | pkg/felicita/felicita.go:172-178 | the loop of Buzz ends in the state and outcome of Sequencer.Cycles |
| Felicita.Felicita.Buzz | pkg/felicita/felicita.go:142-181 | n <= 0 is refused with nothing sent; success means exactly 2n toggles were sent and the buzzer flag is as before the call; the whole call matches Sequencer.Buzz |
| Felicita.Felicita.ForceBuzzerSetting | pkg/felicita/felicita.go:505-516 | one toggle is issued exactly when no frame has been taken yet and the preference contradicts the flag; otherwise nothing is sent |
| Felicita.Felicita.ReceiveData | pkg/felicita/felicita.go:442-475 | a read error or a malformed frame changes nothing; an accepted frame stores battery, flag and unit, dispatches the data point to the handler and then the channel, and toggles the buzzer only as the forced correction demands; the correction fires at most once per session |
| Felicita.Felicita.Accept | pkg/felicita/felicita.go:452-474 | an accepted reading is stored, marked as received and dispatched, with at most the one forced toggle sent |
| Felicita.Felicita.SetStatus | pkg/felicita/felicita.go:278-296 | the status is stored, given to the handler, then offered to the channel without blocking |
| Felicita.Felicita.OnStateChanged | pkg/felicita/felicita.go:308-324 | powered on publishes Scanning and starts a scan; powered off publishes Disconnected; anything else only stops scanning and leaves status and send counter alone |
| Felicita.Felicita.OnPeriphDiscovered | pkg/felicita/felicita.go:326-347 | a matching peripheral stops the scan and is connected; any other is ignored |
| Felicita.Felicita.RunConnectSteps | pkg/felicita/felicita.go:363-403 | the nested discovery loops end with the error and binding of ConnectSteps |
| Felicita.Felicita.OnPeriphConnected | pkg/felicita/felicita.go:349-408 | for our peripheral: publishes Connected, runs the connect steps, cancels the connection, then publishes Disconnected with the first step error or else the transport's error; other peripherals change nothing |
| Felicita.Felicita.OnPeriphDisconnected | pkg/felicita/felicita.go:410-424 | for our peripheral: publishes Scanning and scans again, leaving the binding in place; other peripherals change nothing |
| Mock.Mock.constructor | pkg/mock/mock.go:37-46 | a new mock has every field at its zero value and the default name |
| Mock.Mock.BatteryLevelRaw | pkg/mock/mock.go:64-66 | the raw level is the stored byte |
| Mock.Mock.ElapsedTime | pkg/mock/mock.go:195-201 | the elapsed time is 0 without a timer and the stopwatch's reading otherwise |
| Mock.Mock.Tare | pkg/mock/mock.go:94-96 | taring always succeeds |
| Mock.Mock.ToggleBuzzingOnTouch | pkg/mock/mock.go:139-143 | flips the buzzer flag and succeeds |
| Mock.Mock.Buzz | pkg/mock/mock.go:99-136 | n <= 0 is refused and changes nothing; otherwise it succeeds after exactly 2n toggles, with the buzzer flag as before the call |
| Mock.Mock.SetUnit | pkg/mock/mock.go:146-156 | succeeds, and afterwards the unit is the requested one |
| Mock.Mock.TogglePrecision | pkg/mock/mock.go:159-163 | flips the precision and succeeds |
| Mock.Mock.StartTimer | pkg/mock/mock.go:166-174 | starts or creates the timer and succeeds |
| Mock.Mock.StopTimer | pkg/mock/mock.go:177-183 | stops the timer, if any, and succeeds |
| Mock.Mock.ResetTimer | pkg/mock/mock.go:186-192 | resets the timer, if any, and succeeds |

## Left out

- The BLE transport (scanning, GATT discovery, writes, notifications) is
  not modelled as code. Its answers are oracles, and peripherals are values
  listing which connect steps fail.
- Concurrency is not modelled. The notification context that updates the
  buzzer flag while `waitForBuzzer` polls is the oracle `seen`. The
  blocking wait on `doneChan` inside `onPeriphConnected` is not modelled:
  one call stands for the whole connection.
- `Close` is left out. It closes `doneChan`, which belongs to the
  concurrency that is not modelled. It then asks the transport to stop
  scanning and remove all services, and returns the removal's error; that
  transport call is not part of this model.
- `disconnect` is left out, because it only signals `doneChan` without
  blocking.
- `subscribe` is left out. It registers the three callbacks with the
  transport and returns the error of the transport's `Init`. The callbacks
  are the methods modelled here, and that initialisation is not part of
  this model.
- `New`'s functional options, device creation and initialisation errors
  are left out; the constructor takes the options' results as parameters.
- The sleeps (`btSettleDelay`, the 100 ms pause after a disconnect) are left
  out. `time.Now` is the parameter `now` of `ReceiveData`.
- The stopwatch library's internals are not part of this model. A timer is
  the history of operations applied to it, and its reading is a parameter.
- Handler and channel values are left out. Only whether one is registered
  is modelled, and each dispatch is an entry in `events`.
- The logger is left out. A warning changes nothing the model observes.
- The getters `ConnectionStatus`, `Unit` and `IsBuzzingOnTouch` are field
  reads, and are not modelled as separate members with contracts.
- `Mock.BatteryLevel` is not modelled: it returns the same byte as
  `Mock.Mock.BatteryLevelRaw`, as a float.
- The mock's handler and channel setters and its `ConnectionStatus` getter
  are not modelled, because they only store or read a field.
- Codec.ParseWeight: accepts only an optional sign followed by ASCII digits.
  The other forms `strconv.ParseFloat` accepts (a decimal point, exponents,
  `Inf`, `NaN`, hexadecimal, underscores) are not modelled.
- Codec.DecodeFrame: the weight is kept as an integer in hundredths. The
  float division by 100 is not modelled.
- Codec.ParseBatteryLevel: returns an integer percentage instead of a
  fraction rounded to 0.01. The rounding is the same, since the calibrated
  range (29) is odd and no value falls on a tie.
- Codec.ParseUnit: lower-cases ASCII letters only. Go's `strings.ToLower`
  also folds other Unicode letters.
- Felicita.ThisDevice: compares ignoring the case of ASCII letters only. Go's
  `strings.EqualFold` also folds other Unicode letters.
- Mock.Mock.Buzz: the error checks after each toggle are not modelled,
  because the mock's toggle never fails.
- Felicita.Felicita.Accept and Felicita.Felicita.BuzzCycles are parts of
  `receiveData` and `Buzz` split into methods of their own. They keep each
  proof small and do not exist in the source.
