/**
 * The device session controller: the single mutable state of the control panel, its
 * connection lifecycle, the command handlers and the telemetry pass.
 *
 * Each device call is an input: the caller passes the outcome the device returned, and a
 * handler that calls the device returns the command it sent (`None` when it made no call).
 * The device handle itself is reduced to whether one is held (`hasHandle`).
 */
module RoboclawGui {
  import opened Text
  import opened Device
  import opened Dispatch
  import opened Status
  import opened Poller

  const DefaultPortName: string := "/dev/tty.usbmodem101"
  const DefaultBaudRate: U32 := 38400

  /** The four sliders of the two control surfaces. */
  datatype Slider = M1 | M2 | MixedSpeed | MixedTurn
  {
    /** The speed/turn pair drives the mixed path; the other two the individual path. */
    predicate OnMixedPath()
    {
      this == MixedSpeed || this == MixedTurn
    }
  }

  /** A value copy of every field of a session, for stating what a handler leaves unchanged. */
  datatype SessionState = SessionState(
    portName: string,
    baudRate: U32,
    connected: bool,
    m1Speed: real,
    m2Speed: real,
    mixedSpeed: real,
    mixedTurn: real,
    mainBatteryVoltage: Option<real>,
    logicBatteryVoltage: Option<real>,
    encoderM1: Option<U32>,
    encoderM2: Option<U32>,
    statusFlags: Option<StatusFlags>,
    configFlags: Option<ConfigFlags>,
    bufferStatus: Option<(BufferStatus, BufferStatus)>,
    lastUpdate: int,
    statusMessage: string,
    hasHandle: bool)
  {
    function SliderValue(slider: Slider): real
    {
      match slider
      case M1 => m1Speed
      case M2 => m2Speed
      case MixedSpeed => mixedSpeed
      case MixedTurn => mixedTurn
    }

    function WithSlider(slider: Slider, v: real): SessionState
    {
      match slider
      case M1 => this.(m1Speed := v)
      case M2 => this.(m2Speed := v)
      case MixedSpeed => this.(mixedSpeed := v)
      case MixedTurn => this.(mixedTurn := v)
    }

    /** The command the control surface of `slider` sends for the current slider values. */
    function CommandFor(slider: Slider): (c: SpeedCommand)
      ensures slider.OnMixedPath()
        ==> c == IndividualCommand(mixedSpeed - mixedTurn / 2.0, mixedSpeed + mixedTurn / 2.0)
    {
      if slider.OnMixedPath() then
        MixedIsIndividual(mixedSpeed, mixedTurn);
        MixedCommand(mixedSpeed, mixedTurn)
      else IndividualCommand(m1Speed, m2Speed)
    }
  }

  /**
   * What `disconnect` leaves: no handle, not connected, the neutral status, every other
   * field as it was. Disconnecting again changes nothing.
   */
  function AfterDisconnect(s: SessionState): (t: SessionState)
    ensures !t.connected && !t.hasHandle && t.statusMessage == Disconnected
    ensures t.(connected := s.connected, hasHandle := s.hasHandle, statusMessage := s.statusMessage) == s
  {
    s.(hasHandle := false, connected := false, statusMessage := Disconnected)
  }

  /** Disconnecting twice leaves the same state as disconnecting once. */
  lemma DisconnectIdempotent(s: SessionState)
    ensures AfterDisconnect(AfterDisconnect(s)) == AfterDisconnect(s)
  {
  }

  /** A disconnected session with the neutral status is exactly a state that disconnect leaves alone. */
  lemma DisconnectFixedPoints(s: SessionState)
    ensures AfterDisconnect(s) == s <==> !s.connected && !s.hasHandle && s.statusMessage == Disconnected
  {
  }

  /** The status after one `speed_m1_m2` call that sent `cmd` on the given path. */
  function AfterSend(status: string, send: Outcome<()>, mixed: bool, cmd: SpeedCommand): (r: string)
    ensures send.Ok? ==> r == status || r == Connected
    ensures send.Err? ==> HasControlError(r)
  {
    match send
    case Ok(_) => AfterSendSucceeded(status)
    case Err(e) =>
      SendErrorsAreControlErrors(e, cmd.m1, cmd.m2);
      if mixed then MixedError(e, cmd.m1, cmd.m2) else MotorError(e, cmd.m1, cmd.m2)
  }

  /**
   * A failed send always shows a control error, which the telemetry passes after it keep;
   * a successful send clears any control error unless the text also shows a read failure.
   */
  lemma SendOutcomeDecidesControlError(status: string, send: Outcome<()>, mixed: bool, cmd: SpeedCommand)
    ensures send.Err? ==> HasControlError(AfterSend(status, send, mixed, cmd))
    ensures send.Ok? && !Contains(status, ReadFailureMarker) ==> !HasControlError(AfterSend(status, send, mixed, cmd))
    ensures send.Ok? && Contains(status, ReadFailureMarker) ==> AfterSend(status, send, mixed, cmd) == status
  {
    ConnectedUnmarked();
  }

  class Session {
    var portName: string
    var baudRate: U32
    var connected: bool

    var m1Speed: real
    var m2Speed: real
    var mixedSpeed: real
    var mixedTurn: real

    var mainBatteryVoltage: Option<real>
    var logicBatteryVoltage: Option<real>
    var encoderM1: Option<U32>
    var encoderM2: Option<U32>
    var statusFlags: Option<StatusFlags>
    var configFlags: Option<ConfigFlags>
    var bufferStatus: Option<(BufferStatus, BufferStatus)>

    /** Milliseconds on a monotonic clock at the end of the last telemetry pass. */
    var lastUpdate: int
    var statusMessage: string

    /** Whether a device handle is held. */
    var hasHandle: bool

    /** The connected flag tracks the handle, and every slider lies in its range. */
    ghost predicate Valid()
      reads this
    {
      && (connected <==> hasHandle)
      && InSliderRange(m1Speed) && InSliderRange(m2Speed)
      && InSliderRange(mixedSpeed) && InSliderRange(mixedTurn)
    }

    function Snapshot(): SessionState
      reads this
    {
      SessionState(portName, baudRate, connected, m1Speed, m2Speed, mixedSpeed, mixedTurn,
        mainBatteryVoltage, logicBatteryVoltage, encoderM1, encoderM2, statusFlags,
        configFlags, bufferStatus, lastUpdate, statusMessage, hasHandle)
    }

    /** The start-up state: disconnected, sliders centred, no telemetry, clock reading `now`. */
    constructor (now: int)
      ensures Valid()
      ensures portName == DefaultPortName && baudRate == DefaultBaudRate
      ensures !connected && !hasHandle
      ensures m1Speed == 0.0 && m2Speed == 0.0 && mixedSpeed == 0.0 && mixedTurn == 0.0
      ensures mainBatteryVoltage == None && logicBatteryVoltage == None
      ensures encoderM1 == None && encoderM2 == None
      ensures statusFlags == None && configFlags == None && bufferStatus == None
      ensures lastUpdate == now && statusMessage == Disconnected
    {
      portName := DefaultPortName;
      baudRate := DefaultBaudRate;
      connected := false;
      m1Speed, m2Speed, mixedSpeed, mixedTurn := 0.0, 0.0, 0.0, 0.0;
      mainBatteryVoltage, logicBatteryVoltage := None, None;
      encoderM1, encoderM2 := None, None;
      statusFlags, configFlags, bufferStatus := None, None, None;
      lastUpdate := now;
      statusMessage := Disconnected;
      hasHandle := false;
    }

    /**
     * Opens the port named by `portName` at `baudRate`; `open` is what opening returned.
     * Success takes the handle, unverified; failure only reports the reason.
     */
    method Connect(open: Outcome<()>)
      requires Valid()
      modifies this
      ensures Valid()
      ensures open.Ok? ==> (Snapshot()
        == old(Snapshot()).(hasHandle := true, connected := true, statusMessage := ConnectedUnverified))
      ensures open.Err? ==> Snapshot() == old(Snapshot()).(statusMessage := OpenFailure(open.detail))
    {
      if open.Ok? {
        hasHandle := true;
        connected := true;
        statusMessage := ConnectedUnverified;
      } else {
        // The failure text is never empty, so the fallback to "Failed to initialize
        // Roboclaw" on an empty status cannot be reached and is not modelled.
        statusMessage := OpenFailure(open.detail);
      }
    }

    method Disconnect()
      requires Valid()
      modifies this
      ensures Valid()
      ensures Snapshot() == AfterDisconnect(old(Snapshot()))
    {
      hasHandle := false;
      connected := false;
      statusMessage := Disconnected;
    }

    /**
     * With a handle: sends a stop to both motors, ignores its outcome, and centres all four
     * sliders. Without a handle nothing happens, not even to the sliders.
     */
    method EmergencyStop() returns (call: Option<SpeedCommand>)
      requires Valid()
      modifies this
      ensures Valid()
      ensures call == if old(hasHandle) then Some(SpeedCommand(0, 0)) else None
      ensures old(hasHandle) ==> (Snapshot()
        == old(Snapshot()).(m1Speed := 0.0, m2Speed := 0.0, mixedSpeed := 0.0, mixedTurn := 0.0))
      ensures !old(hasHandle) ==> Snapshot() == old(Snapshot())
    {
      if hasHandle {
        call := Some(SpeedCommand(0, 0));
        m1Speed := 0.0;
        m2Speed := 0.0;
        mixedSpeed := 0.0;
        mixedTurn := 0.0;
      } else {
        call := None;
      }
    }

    /**
     * Sends the two individual slider values, scaled by 1000 and truncated; `send` is
     * the device's answer. Only the status may change.
     */
    method UpdateMotorSpeeds(send: Outcome<()>) returns (call: Option<SpeedCommand>)
      requires Valid()
      modifies this
      ensures Valid()
      ensures call == if old(hasHandle) then Some(IndividualCommand(m1Speed, m2Speed)) else None
      ensures call.Some? ==> Abs(call.value.m1) <= 100000 && Abs(call.value.m2) <= 100000
      ensures call.Some? ==> statusMessage == AfterSend(old(statusMessage), send, false, call.value)
      ensures call.None? ==> statusMessage == old(statusMessage)
      ensures Snapshot() == old(Snapshot()).(statusMessage := statusMessage)
    {
      if hasHandle {
        var cmd := IndividualCommand(m1Speed, m2Speed);
        IndividualCommandInRange(m1Speed, m2Speed);
        call := Some(cmd);
        match send {
          case Ok(_) =>
            if !Contains(statusMessage, ReadFailureMarker) {
              statusMessage := Connected;
            }
          case Err(e) =>
            statusMessage := MotorError(e, cmd.m1, cmd.m2);
        }
      } else {
        call := None;
      }
    }

    /**
     * Sends the speed/turn pair as left = speed * 1000 - turn * 500 and
     * right = speed * 1000 + turn * 500, truncated. Only the status may change.
     */
    method UpdateMixedControl(send: Outcome<()>) returns (call: Option<SpeedCommand>)
      requires Valid()
      modifies this
      ensures Valid()
      ensures call == if old(hasHandle) then Some(MixedCommand(mixedSpeed, mixedTurn)) else None
      ensures call.Some? ==> Abs(call.value.m1) <= 150000 && Abs(call.value.m2) <= 150000
      ensures call.Some? ==> statusMessage == AfterSend(old(statusMessage), send, true, call.value)
      ensures call.None? ==> statusMessage == old(statusMessage)
      ensures Snapshot() == old(Snapshot()).(statusMessage := statusMessage)
    {
      if hasHandle {
        var cmd := MixedCommand(mixedSpeed, mixedTurn);
        MixedCommandInRange(mixedSpeed, mixedTurn);
        call := Some(cmd);
        match send {
          case Ok(_) =>
            if !Contains(statusMessage, ReadFailureMarker) {
              statusMessage := Connected;
            }
          case Err(e) =>
            statusMessage := MixedError(e, cmd.m1, cmd.m2);
        }
      } else {
        call := None;
      }
    }

    /**
     * The operator drags `slider` to `value`; the slider pins it to [-100, 100]. A changed
     * value sends the command of that slider's control surface.
     */
    method MoveSlider(slider: Slider, value: real, send: Outcome<()>) returns (call: Option<SpeedCommand>)
      requires Valid()
      modifies this
      ensures Valid()
      ensures Snapshot()
        == old(Snapshot()).WithSlider(slider, Clamp(value)).(statusMessage := statusMessage)
      ensures call == if old(hasHandle) && Clamp(value) != old(Snapshot()).SliderValue(slider)
                       then Some(Snapshot().CommandFor(slider)) else None
      ensures call.Some? ==> statusMessage == AfterSend(old(statusMessage), send, slider.OnMixedPath(), call.value)
      ensures call.None? ==> statusMessage == old(statusMessage)
    {
      var v := Clamp(value);
      call := None;
      if v != Snapshot().SliderValue(slider) {
        SetSlider(slider, v);
        if slider.OnMixedPath() {
          call := UpdateMixedControl(send);
        } else {
          call := UpdateMotorSpeeds(send);
        }
      }
    }

    /** Writes one slider's field; the value is already pinned to the slider's range. */
    method SetSlider(slider: Slider, v: real)
      requires Valid() && InSliderRange(v)
      modifies this`m1Speed, this`m2Speed, this`mixedSpeed, this`mixedTurn
      ensures Valid()
      ensures Snapshot() == old(Snapshot()).WithSlider(slider, v)
    {
      match slider {
        case M1 => m1Speed := v;
        case M2 => m2Speed := v;
        case MixedSpeed => mixedSpeed := v;
        case MixedTurn => mixedTurn := v;
      }
    }

    /** "Stop Both Motors": centres the two individual sliders, then sends them. */
    method StopBothMotors(send: Outcome<()>) returns (call: Option<SpeedCommand>)
      requires Valid()
      modifies this
      ensures Valid()
      ensures Snapshot() == old(Snapshot()).(m1Speed := 0.0, m2Speed := 0.0, statusMessage := statusMessage)
      ensures call == if old(hasHandle) then Some(SpeedCommand(0, 0)) else None
      ensures call.Some? ==> statusMessage == AfterSend(old(statusMessage), send, false, call.value)
      ensures call.None? ==> statusMessage == old(statusMessage)
    {
      m1Speed := 0.0;
      m2Speed := 0.0;
      CentredSlidersSendStop();
      call := UpdateMotorSpeeds(send);
    }

    /** "Stop Mixed": centres the speed and turn sliders, then sends them. */
    method StopMixed(send: Outcome<()>) returns (call: Option<SpeedCommand>)
      requires Valid()
      modifies this
      ensures Valid()
      ensures Snapshot() == old(Snapshot()).(mixedSpeed := 0.0, mixedTurn := 0.0, statusMessage := statusMessage)
      ensures call == if old(hasHandle) then Some(SpeedCommand(0, 0)) else None
      ensures call.Some? ==> statusMessage == AfterSend(old(statusMessage), send, true, call.value)
      ensures call.None? ==> statusMessage == old(statusMessage)
    {
      mixedSpeed := 0.0;
      mixedTurn := 0.0;
      CentredSlidersSendStop();
      call := UpdateMixedControl(send);
    }

    /**
     * "Reset Encoders": with a handle, calls the device's reset; a failure overwrites the
     * status whatever it shows. Nothing else changes.
     */
    method ResetEncoders(reset: Outcome<()>) returns (called: bool)
      requires Valid()
      modifies this
      ensures Valid()
      ensures called == old(hasHandle)
      ensures called && reset.Err? ==> Snapshot() == old(Snapshot()).(statusMessage := ResetError(reset.detail))
      ensures !called || reset.Ok? ==> Snapshot() == old(Snapshot())
    {
      called := hasHandle;
      if hasHandle {
        if reset.Err? {
          statusMessage := ResetError(reset.detail);
        }
      }
    }

    /**
     * One tick of the telemetry poller, with `now` the clock at the gate and `doneAt` the
     * clock once the reads are done. With a handle and more than the interval elapsed, the
     * six reads run in order; each cached field takes a successful read and keeps its value
     * on a failure, and each failure may rewrite the status as its guard allows.
     */
    method ReadStatus(now: int, doneAt: int, outcomes: PollReads) returns (polled: bool)
      requires Valid()
      modifies this
      ensures Valid()
      ensures polled == (old(hasHandle) && PassDue(old(statusMessage), old(lastUpdate), now))
      ensures !polled ==> Snapshot() == old(Snapshot())
      ensures polled ==> Snapshot() == old(Snapshot()).(
        mainBatteryVoltage := Refresh(old(mainBatteryVoltage), outcomes.mainVoltage),
        logicBatteryVoltage := Refresh(old(logicBatteryVoltage), outcomes.logicVoltage),
        encoderM1 := Refresh(old(encoderM1), FirstOf(outcomes.encoders)),
        encoderM2 := Refresh(old(encoderM2), SecondOf(outcomes.encoders)),
        statusFlags := Refresh(old(statusFlags), outcomes.faultFlags),
        configFlags := Refresh(old(configFlags), outcomes.config),
        bufferStatus := Refresh(old(bufferStatus), outcomes.buffers),
        statusMessage := PassStatus(old(statusMessage), outcomes),
        lastUpdate := doneAt)
    {
      polled := false;
      if hasHandle {
        var interval := PollingInterval(statusMessage);
        if now - lastUpdate > interval {
          polled := true;
          PollMainVoltage(outcomes.mainVoltage);
          PollLogicVoltage(outcomes.logicVoltage);
          PollEncoders(outcomes.encoders);
          PollFaultFlags(outcomes.faultFlags);
          PollConfigAndBuffers(outcomes.config, outcomes.buffers);
          lastUpdate := doneAt;
          ConnectedUnmarked();
          if outcomes.faultFlags.Err? {
            FaultReadFailureMarked(outcomes.faultFlags.detail);
          }
        }
      }
    }

    /** The main battery voltage read: a failure reports itself unless a control error shows. */
    method PollMainVoltage(read: Outcome<real>)
      modifies this`mainBatteryVoltage, this`statusMessage
      ensures Snapshot() == old(Snapshot()).(
        mainBatteryVoltage := Refresh(old(mainBatteryVoltage), read),
        statusMessage := statusMessage)
      ensures read.Ok? ==> statusMessage == old(statusMessage)
      ensures read.Err? ==> statusMessage == ReportedUnlessControlError(old(statusMessage), MainVoltageFailure)
      ensures HasControlError(statusMessage) == HasControlError(old(statusMessage))
    {
      if read.Ok? {
        mainBatteryVoltage := Some(read.value);
      } else {
        ReadFailureTextUnmarked(" main battery voltage");
        ReportUnlessControlError(MainVoltageFailure);
      }
    }

    /** The logic battery voltage read: a failure reports itself unless a control error shows. */
    method PollLogicVoltage(read: Outcome<real>)
      modifies this`logicBatteryVoltage, this`statusMessage
      ensures Snapshot() == old(Snapshot()).(
        logicBatteryVoltage := Refresh(old(logicBatteryVoltage), read),
        statusMessage := statusMessage)
      ensures read.Ok? ==> statusMessage == old(statusMessage)
      ensures read.Err? ==> statusMessage == ReportedUnlessControlError(old(statusMessage), LogicVoltageFailure)
      ensures HasControlError(statusMessage) == HasControlError(old(statusMessage))
    {
      if read.Ok? {
        logicBatteryVoltage := Some(read.value);
      } else {
        ReadFailureTextUnmarked(" logic battery voltage");
        ReportUnlessControlError(LogicVoltageFailure);
      }
    }

    /** The joint encoder read: a success sets both counts, a failure reports itself unless a control error shows. */
    method PollEncoders(read: Outcome<(U32, U32)>)
      modifies this`encoderM1, this`encoderM2, this`statusMessage
      ensures Snapshot() == old(Snapshot()).(
        encoderM1 := Refresh(old(encoderM1), FirstOf(read)),
        encoderM2 := Refresh(old(encoderM2), SecondOf(read)),
        statusMessage := statusMessage)
      ensures read.Ok? ==> statusMessage == old(statusMessage)
      ensures read.Err? ==> statusMessage == ReportedUnlessControlError(old(statusMessage), EncodersFailure)
      ensures HasControlError(statusMessage) == HasControlError(old(statusMessage))
    {
      if read.Ok? {
        encoderM1 := Some(read.value.0);
        encoderM2 := Some(read.value.1);
      } else {
        ReadFailureTextUnmarked(" encoders");
        ReportUnlessControlError(EncodersFailure);
      }
    }

    /** A read failure writes `text` into the status unless a control error shows there. */
    method ReportUnlessControlError(text: string)
      modifies this`statusMessage
      ensures statusMessage == ReportedUnlessControlError(old(statusMessage), text)
    {
      if !HasControlError(statusMessage) {
        statusMessage := text;
      }
    }

    /**
     * The fault-register read: a success shows "Connected", a failure its error text,
     * either only when no control error shows.
     */
    method PollFaultFlags(read: Outcome<StatusFlags>)
      modifies this
      ensures Snapshot() == old(Snapshot()).(
        statusFlags := Refresh(old(statusFlags), read),
        statusMessage := statusMessage)
      ensures statusMessage == if HasControlError(old(statusMessage)) then old(statusMessage)
                               else if read.Ok? then Connected
                               else FaultReadFailure(read.detail)
    {
      match read {
        case Ok(flags) =>
          statusFlags := Some(flags);
          if !HasControlError(statusMessage) {
            statusMessage := Connected;
          }
        case Err(e) =>
          if !HasControlError(statusMessage) {
            statusMessage := FaultReadFailure(e);
          }
      }
    }

    /**
     * The last two reads of a pass: config, then both command buffers. A failure writes its
     * text unless a control error or a fault-read failure shows.
     */
    method PollConfigAndBuffers(config: Outcome<ConfigFlags>, buffers: Outcome<(BufferStatus, BufferStatus)>)
      modifies this
      ensures Snapshot() == old(Snapshot()).(
        configFlags := Refresh(old(configFlags), config),
        bufferStatus := Refresh(old(bufferStatus), buffers),
        statusMessage := statusMessage)
      ensures statusMessage
        == if HasControlError(old(statusMessage)) || Contains(old(statusMessage), FaultReadFailureMarker)
           then old(statusMessage)
           else if buffers.Err? then BuffersFailure
           else if config.Err? then ConfigFailure
           else old(statusMessage)
    {
      ReadFailureTextUnmarked(" config");
      if config.Ok? {
        configFlags := Some(config.value);
      } else if !HasControlError(statusMessage) && !Contains(statusMessage, FaultReadFailureMarker) {
        statusMessage := ConfigFailure;
      }

      if buffers.Ok? {
        bufferStatus := Some(buffers.value);
      } else if !HasControlError(statusMessage) && !Contains(statusMessage, FaultReadFailureMarker) {
        statusMessage := BuffersFailure;
      }
    }
  }
}
