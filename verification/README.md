# Roboclaw control panel: the device session controller

This project models the session controller inside the `RoboclawGUI` control panel of
roboclaw-rs (`src/bin/gui.rs`). It is the one part of that program with real state. The
panel drives a dual-channel Roboclaw motor controller over a serial port. An operator
connects, moves sliders that become `speed_m1_m2` calls, and watches telemetry. The
telemetry comes from a poller that re-reads six device registers on a timer.

The model is split into these modules:

- `Text` (text.dfy): `Contains`, the substring test that Rust's `str::contains` performs. It
  comes with lemmas about prefixes, missing characters and transitivity. It also has the
  decimal rendering of integers that `{}` produces.
- `Device` (device.dfy): the device as the session sees it. Every device call yields
  `Outcome<T> = Ok(value) | Err(detail)`, where `detail` is the error's display text.
  `PollReads` holds the outcomes of the six reads of one telemetry pass.
- `Dispatch` (dispatch.dfy): turning slider percentages into integer speeds.
  - The scaling is ×1000 on the individual path.
  - On the mixed path speed is scaled ×1000 and turn ×500.
  - Rust's `as i32` is modelled as truncation toward zero that saturates at the `i32` bounds.
  - Sliders pin their value to [-100, 100].
- `Status` (status.dfy): the status arbiter. It holds every status text and the
  control-error test (`Motor control error` / `Mixed control error`). `PassStatus` is a closed
  form of the status that one telemetry pass leaves behind.
- `Poller` (poller.dfy): the 500 ms / 2000 ms interval gate, which keys on the status
  text. It also holds the rule that a cached reading is replaced on success and kept on failure.
- `RoboclawGui` (session.dfy): `class Session`, whose fields mirror the struct. Its methods
  model `connect`, `disconnect`, `emergency_stop`, `update_motor_speeds`,
  `update_mixed_control`, `read_status` and the button and slider handlers.
  - Each device call is a parameter that gives the device's outcome.
  - A handler that calls the device returns the command it sent, or `None` when it made no
    call.
  - `Snapshot()` copies every field into a value. Each method states its whole new state as
    an update of `old(Snapshot())`.
  - `Valid()` is the object invariant: `connected` holds exactly when a handle is held, and
    every slider is in range.

Three behaviours of the code are easy to misread; the model follows the code:

- `emergency_stop` zeroes the sliders only when a handle is held (gui.rs:101-108).
- A successful fault-register read does not clear a motor or mixed control error, because its
  write is guarded (gui.rs:198). No telemetry pass replaces such an error (`ControlErrorSticky`).
  A send from a slider or a stop button, a connect, a disconnect or a reset-encoders failure
  replaces it. A successful send keeps it when the text contains "Failed to read" (gui.rs:119).
  The emergency stop sends (0,0) but leaves the status alone (gui.rs:103).
- The "Reset encoders error" text (gui.rs:440) is not protected. Every telemetry pass
  overwrites it, whether its fault-register read succeeds or fails, unless the error's detail
  itself contains a control-error marker (`ResetErrorNotProtected`).

The model also proves this consequence of the guards:

- The voltage and encoder failure texts never survive a pass. The fault-register read always
  writes after them (`VoltageAndEncoderFailuresTransient`).
- So those failures alone never slow the poller down (`BackoffAfterPass`).

## Model

| member | source | states |
|---|---|---|
| RoboclawGui.Session.constructor | src/bin/gui.rs:36-57 | start-up state: not connected, no handle, all four sliders 0, all seven telemetry fields empty, status "Disconnected", default port and 38400 baud |
| RoboclawGui.Session.Connect | src/bin/gui.rs:65-92 | open success: handle held, connected, status "Connected - Testing communication..."; open failure: status "Failed to open port: <e>", handle and flag unchanged; nothing else changes |
| RoboclawGui.Session.Disconnect | src/bin/gui.rs:94-98 | the new state is `AfterDisconnect` of the old one |
| RoboclawGui.AfterDisconnect | src/bin/gui.rs:94-98 | no handle, not connected, status "Disconnected", every other field as before |
| RoboclawGui.DisconnectIdempotent | src/bin/gui.rs:94-98 | disconnecting twice gives the same state as disconnecting once |
| RoboclawGui.DisconnectFixedPoints | src/bin/gui.rs:94-98 | disconnect leaves a state alone exactly when it is already disconnected with the neutral status |
| RoboclawGui.Session.EmergencyStop | src/bin/gui.rs:100-109 | with a handle: sends (0,0) and zeroes all four sliders whatever the send returns; without: no call, nothing changes |
| RoboclawGui.Session.UpdateMotorSpeeds | src/bin/gui.rs:111-128 | no handle: no call, nothing changes; else sends `IndividualCommand` of the sliders (each at most 100000 in magnitude); success sets "Connected" unless the status contains "Failed to read"; failure sets the motor-error text with the sent values; only the status changes |
| RoboclawGui.Session.UpdateMixedControl | src/bin/gui.rs:130-151 | as above for `MixedCommand` (each side at most 150000 in magnitude) and the mixed-error text |
| RoboclawGui.Session.MoveSlider | src/bin/gui.rs:352-390 | the moved slider takes the clamped value; a changed value with a handle sends its surface's command, otherwise no call; the invariant keeps every slider in [-100,100] |
| RoboclawGui.Session.SetSlider | src/bin/gui.rs:354-385 | the egui slider writes the pinned value into its own field only, keeping every slider in range |
| RoboclawGui.Session.StopBothMotors | src/bin/gui.rs:366-370 | zeroes M1 and M2, then sends (0,0) when a handle is held, with the send's status effect |
| RoboclawGui.Session.StopMixed | src/bin/gui.rs:392-396 | zeroes speed and turn, then sends (0,0) when a handle is held, with the send's status effect |
| RoboclawGui.Session.ResetEncoders | src/bin/gui.rs:437-443 | with a handle calls reset; a failure writes "Reset encoders error: <e>" unconditionally; nothing else changes |
| RoboclawGui.Session.ReadStatus | src/bin/gui.rs:153-232 | no-op without a handle; a pass runs exactly when now - lastUpdate exceeds `PollingInterval` of the status; no pass leaves every field unchanged; a pass refreshes each of the seven fields with its read, sets the status to `PassStatus`, and stamps `lastUpdate` with the end-of-pass clock |
| RoboclawGui.Session.PollMainVoltage | src/bin/gui.rs:165-173 | main battery voltage refreshed by the read; a failure writes "Failed to read main battery voltage" unless a control error shows; whether a control error shows is unchanged; nothing else changes |
| RoboclawGui.Session.PollLogicVoltage | src/bin/gui.rs:175-181 | logic battery voltage refreshed; a failure writes "Failed to read logic battery voltage" unless a control error shows; whether a control error shows is unchanged; nothing else changes |
| RoboclawGui.Session.PollEncoders | src/bin/gui.rs:183-191 | both encoder counts refreshed from the one joint read; a failure writes "Failed to read encoders" unless a control error shows; whether a control error shows is unchanged; nothing else changes |
| RoboclawGui.Session.ReportUnlessControlError | src/bin/gui.rs:169-172 | the status becomes the failure text exactly when it showed no control error, and is otherwise left as it was |
| RoboclawGui.Session.PollFaultFlags | src/bin/gui.rs:193-209 | fault flags refreshed; without a control error the status becomes "Connected" on success or "Failed to read error status: <e>" on failure |
| RoboclawGui.Session.PollConfigAndBuffers | src/bin/gui.rs:211-227 | config and buffers refreshed; unless a control error or a fault-read failure shows, a buffer failure wins over a config failure |
| RoboclawGui.SendOutcomeDecidesControlError | src/bin/gui.rs:116-126 | a failed send always leaves a control error; a successful one clears it unless the text shows "Failed to read", and in that case keeps the text |
| RoboclawGui.AfterSend | src/bin/gui.rs:116-126 | a successful send leaves the old status or "Connected"; a failed send always leaves a text that the control-error guard recognises |
| Status.AfterSendSucceeded | src/bin/gui.rs:117-121 | after a successful send the status is "Connected" unless it contains "Failed to read", in which case it is kept; either way it mentions "Failed to read" exactly when the old one did |
| Status.SendErrorsAreControlErrors | src/bin/gui.rs:124 | motor- and mixed-error texts are recognised by the control-error guard whatever the detail and values |
| Status.FaultReadFailureMarked | src/bin/gui.rs:205 | the fault-read failure text contains both "Failed to read error status" and "Failed to read" |
| Status.ReportedUnlessControlError | src/bin/gui.rs:169-172 | a guarded read failure keeps a control error as it is, and when its own text carries no marker it neither adds nor removes a control error |
| Status.ReadFailureTextUnmarked | src/bin/gui.rs:171-221 | a "Failed to read …" text whose suffix has no capital M is not taken for a control error, so the read-failure texts never protect themselves |
| Status.ConnectedUnmarked | src/bin/gui.rs:198-218 | "Connected" carries neither control-error marker nor "Failed to read error status", so it never blocks the later writes |
| Status.ReadTroubleOfPassTexts | src/bin/gui.rs:156-157 | "Connected" does not slow the poller; "Failed to read config" and "Failed to read buffers" do |
| Status.PassStatus | src/bin/gui.rs:166-227 | the status left by a pass is the old status, "Connected", "Failed to read config", "Failed to read buffers", or the fault-read failure text for the detail of a failed fault read |
| Status.ControlErrorSurvivesPass | src/bin/gui.rs:170-226 | a pass that starts with a control error leaves the status unchanged |
| Status.ControlErrorSticky | src/bin/gui.rs:170-226 | a control error survives any run of telemetry passes |
| Status.FaultReadFailureWins | src/bin/gui.rs:202-226 | without a control error a failed fault read leaves its text, whatever the config and buffer reads did |
| Status.VoltageAndEncoderFailuresTransient | src/bin/gui.rs:166-200 | the status after a pass does not depend on the voltage and encoder reads |
| Status.PassClearsNoControlError | src/bin/gui.rs:194-227 | a pass never introduces a control error, except through the fault-read error detail |
| Status.ResetErrorNotProtected | src/bin/gui.rs:194-226 | every pass replaces the reset-encoders error text (gui.rs:440) unless that text itself carries a control-error marker: a successful fault read writes "Connected", a failed one the fault-read text |
| Poller.PollingInterval | src/bin/gui.rs:156-161 | the interval is one of the two periods, 2000 ms or 500 ms |
| Poller.IntervalFollowsStatus | src/bin/gui.rs:156-161 | the interval is 2000 ms exactly when the status contains "crc error" or "Failed to read", else 500 ms |
| Poller.PassDue | src/bin/gui.rs:164 | a pass is never due within 500 ms of the last one, and is always due once more than 2000 ms have passed, whatever the status |
| Poller.Refresh | src/bin/gui.rs:166-222 | a populated field stays populated; the field holds its old value or the successful read's value |
| Poller.SlowGateImpliesNormalGate | src/bin/gui.rs:156-164 | whenever a pass is due under some status, it is also due under a status without read trouble |
| Poller.BackoffAfterPass | src/bin/gui.rs:156-227 | if a control error shows at the start of a pass, polling is slow afterwards exactly when that text shows read trouble; otherwise it is slow exactly when the fault, config or buffer read failed |
| Poller.SendSuccessPace | src/bin/gui.rs:117-121 | a successful send keeps the polling interval when the status contains "Failed to read"; otherwise the interval becomes 500 ms, even if a "crc error" text had slowed it |
| Poller.RefreshAllEmpty | src/bin/gui.rs:166-222 | a field is empty after a run of reads exactly when it was empty and every read failed |
| Poller.RefreshAllFromReads | src/bin/gui.rs:166-222 | a field after a run of reads holds its old value or the value of one successful read |
| Poller.FailedReadKeepsValue | src/bin/gui.rs:166-222 | a failed read leaves the field exactly as it was, including empty |
| Poller.LastSuccessWins | src/bin/gui.rs:166-222 | a successful read leaves exactly its value, whatever came before |
| Dispatch.Clamp | src/bin/gui.rs:354 | a slider value lies in [-100,100]; values in range are kept and others pinned to the nearer end |
| Dispatch.Trunc | src/bin/gui.rs:113-114 | truncation toward zero: the integer of the same sign whose magnitude is the integer part |
| Dispatch.CastI32 | src/bin/gui.rs:113-114 | the result lies in `i32`; it equals the truncation when that fits and saturates at the bounds otherwise |
| Dispatch.IndividualCommand | src/bin/gui.rs:113-114 | both values sent for the individual sliders are valid `i32` values |
| Dispatch.MixedCommand | src/bin/gui.rs:133-137 | both left and right values sent for the speed/turn pair are valid `i32` values |
| Text.NatString | src/bin/gui.rs:124 | the decimal digits of a magnitude are non-empty, all digits, and start with '0' only for zero |
| Text.DecimalValue | src/bin/gui.rs:124 | the number a string of decimal digits denotes, most significant first |
| Text.NatStringValue | src/bin/gui.rs:124 | the digits written for a magnitude denote exactly that magnitude |
| Text.IntString | src/bin/gui.rs:124 | the `{}` rendering of a sent value: a leading minus sign exactly for negatives, then decimal digits that denote the magnitude |
| Text.Contains | src/bin/gui.rs:156-157 | the substring test `str::contains` that every guard and the polling gate perform: `sub` occurs at some index of `s` |
| Status.HasControlError | src/bin/gui.rs:170 | the guard repeated at gui.rs:178, 188, 198, 204, 215 and 224: the status contains "Motor control error" or "Mixed control error" |
| Status.ShowsReadTrouble | src/bin/gui.rs:156-157 | the gate condition: the status contains "crc error" or "Failed to read" |
| Status.OpenFailure | src/bin/gui.rs:69 | the text a failed port open writes: "Failed to open port: " and the detail |
| Status.MotorError | src/bin/gui.rs:124 | the text a failed individual send writes: the marker, the detail and the two sent values as "(M1:…, M2:…)" |
| Status.MixedError | src/bin/gui.rs:147 | the text a failed mixed send writes: the marker, the detail and the two sent values as "(L:…, R:…)" |
| Status.FaultReadFailure | src/bin/gui.rs:205 | the text a failed fault-register read writes: "Failed to read error status: " and the detail |
| Status.ResetError | src/bin/gui.rs:440 | the text a failed encoder reset writes: "Reset encoders error: " and the detail |
| Status.StatusAfterPasses | src/bin/gui.rs:153-232 | the status after successive telemetry passes with nothing between them; `ControlErrorSticky` states what it keeps |
| Poller.RefreshAll | src/bin/gui.rs:166-222 | a cached field after successive reads, oldest first; the `RefreshAll*` lemmas and the two read lemmas state its properties |
| Poller.FirstOf | src/bin/gui.rs:184-186 | the first encoder's part of the joint read succeeds exactly when the joint read does |
| Poller.SecondOf | src/bin/gui.rs:184-187 | the second encoder's part of the joint read succeeds exactly when the joint read does |
| RoboclawGui.SessionState.CommandFor | src/bin/gui.rs:354-385 | an M1 or M2 slider sends the individual command, a speed or turn slider the mixed one, which equals the individual command for speed − turn/2 and speed + turn/2 |
| Dispatch.TruncBounded | src/bin/gui.rs:113-114 | truncation never moves a value away from zero |
| Dispatch.IndividualCommandInRange | src/bin/gui.rs:113-116 | within slider range the call is (trunc(m1·1000), trunc(m2·1000)), each at most 100000 in magnitude, so no saturation |
| Dispatch.MixedCommandInRange | src/bin/gui.rs:133-139 | within slider range the call is (trunc(s·1000 − t·500), trunc(s·1000 + t·500)), each at most 150000 in magnitude |
| Dispatch.MixedIsIndividual | src/bin/gui.rs:133-137 | the mixed call equals the individual call for speed − turn/2 and speed + turn/2 |
| Dispatch.StraightMixedDrivesBothAlike | src/bin/gui.rs:133-137 | with the turn centred both motors get the speed slider's command |
| Dispatch.ScalingExamples | src/bin/gui.rs:113-137 | (50, −25) sends (50000, −25000); speed 40, turn 20 sends (30000, 50000) |
| Dispatch.CentredSlidersSendStop | src/bin/gui.rs:366-370 | centred sliders send (0, 0) on either path, which is what the two stop buttons rely on (also gui.rs:392-396) |

## Left out

- Screen layout and rendering are not modelled: egui panels, labels, voltage formatting,
  `show_config_flags` (gui.rs:236-281), `main` and `new`, and the repaint cadence.
- The port-name text field and the baud-rate presets (gui.rs:296-325) are not modelled. They
  only edit `portName` and `baudRate`.
- The controls are hidden while disconnected (gui.rs:329-332). This is not modelled: every
  handler can be called in any state and checks for a handle itself, as the code does.
- Opening the serial port is not modelled. `Connect` receives only the outcome of opening
  `portName` at `baudRate` with the 10 ms timeout.
- The Roboclaw wire protocol, CRC framing and register meanings are not modelled.
  - Status and config flags are kept as raw bits.
  - Buffer status is kept as a raw code.
  - Voltages are opaque reals.
- `Instant` is replaced by integer millisecond clock readings passed in: `now` at the gate
  and `doneAt` after the reads. `elapsed()` is taken as `now - lastUpdate`, which assumes a
  monotonic clock.
- f32 rounding in `* 1000.0` and `* 500.0` is not modelled, and neither is NaN. The model uses
  exact real arithmetic.
- `Connect`: the fallback status "Failed to initialize Roboclaw" (gui.rs:89-91) is not
  modelled. It needs an empty status right after the non-empty open-failure text was
  written, so it can never be reached.
- `MoveSlider`: egui's `changed()` is taken to mean that the clamped value differs from the
  current one. Drag granularity and keyboard stepping are not modelled.
