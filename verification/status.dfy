/**
 * The status arbiter: one status string, and the texts written into it. Every write site
 * decides whether to overwrite by substring tests on the current text; the precedence those
 * tests produce over one telemetry pass is given in closed form by `PassStatus`.
 */
module Status {
  import opened Text
  import opened Device

  /** Markers that the guards and the polling gate search for. */
  const MotorErrorMarker: string := "Motor control error"
  const MixedErrorMarker: string := "Mixed control error"
  const ReadFailureMarker: string := "Failed to read"
  const FaultReadFailureMarker: string := ReadFailureMarker + " error status"
  const CrcErrorMarker: string := "crc error"

  const Disconnected: string := "Disconnected"
  const Connected: string := "Connected"
  const ConnectedUnverified: string := "Connected - Testing communication..."
  const MainVoltageFailure: string := ReadFailureMarker + " main battery voltage"
  const LogicVoltageFailure: string := ReadFailureMarker + " logic battery voltage"
  const EncodersFailure: string := ReadFailureMarker + " encoders"
  const ConfigFailure: string := ReadFailureMarker + " config"
  const BuffersFailure: string := ReadFailureMarker + " buffers"

  function OpenFailure(e: string): string
  {
    "Failed to open port: " + e
  }

  /** The part of a send-error text after its marker: the detail and the two values sent. */
  function SendErrorTail(e: string, firstLabel: string, first: int, secondLabel: string, second: int): string
  {
    ": " + e + " (" + firstLabel + ":" + IntString(first) + ", " + secondLabel + ":" + IntString(second) + ")"
  }

  function MotorError(e: string, m1: int, m2: int): string
  {
    MotorErrorMarker + SendErrorTail(e, "M1", m1, "M2", m2)
  }

  function MixedError(e: string, left: int, right: int): string
  {
    MixedErrorMarker + SendErrorTail(e, "L", left, "R", right)
  }

  function FaultReadFailure(e: string): string
  {
    FaultReadFailureMarker + (": " + e)
  }

  function ResetError(e: string): string
  {
    "Reset encoders error: " + e
  }

  /** The status shows a motor or mixed control error: telemetry failures must not overwrite it. */
  predicate HasControlError(status: string)
  {
    Contains(status, MotorErrorMarker) || Contains(status, MixedErrorMarker)
  }

  /** The status shows a read failure: the poller slows down. */
  predicate ShowsReadTrouble(status: string)
  {
    Contains(status, CrcErrorMarker) || Contains(status, ReadFailureMarker)
  }

  /** The status after a successful `speed_m1_m2` call: "Connected", unless a read failure shows. */
  function AfterSendSucceeded(status: string): (r: string)
    ensures r == status || r == Connected
    ensures !Contains(status, ReadFailureMarker) ==> r == Connected
    ensures Contains(r, ReadFailureMarker) == Contains(status, ReadFailureMarker)
  {
    if Contains(status, ReadFailureMarker) then status
    else
      MissingCharNotContained(Connected, ReadFailureMarker, 0);
      Connected
  }

  /** What a guarded read failure leaves: its text, unless a control error already shows. */
  function ReportedUnlessControlError(status: string, text: string): (r: string)
    ensures !HasControlError(text) ==> (HasControlError(r) == HasControlError(status))
    ensures HasControlError(status) ==> r == status
  {
    if HasControlError(status) then status else text
  }

  /**
   * The status at the end of one telemetry pass that started with `status`: a control
   * error stays; otherwise a failed fault-register read shows its error; otherwise the
   * last failing of the config and buffer reads shows; otherwise "Connected".
   * The voltage and encoder outcomes never decide it.
   */
  function PassStatus(status: string, outcomes: PollReads): (r: string)
    ensures r == status || r == Connected || r == ConfigFailure || r == BuffersFailure
         || (outcomes.faultFlags.Err? && r == FaultReadFailure(outcomes.faultFlags.detail))
  {
    if HasControlError(status) then status
    else match outcomes.faultFlags
      case Err(e) => FaultReadFailure(e)
      case Ok(_) =>
        if outcomes.buffers.Err? then BuffersFailure
        else if outcomes.config.Err? then ConfigFailure
        else Connected
  }

  /** The status after a run of telemetry passes, with nothing else happening between them. */
  function StatusAfterPasses(status: string, passes: seq<PollReads>): string
    decreases |passes|
  {
    if passes == [] then status
    else StatusAfterPasses(PassStatus(status, passes[0]), passes[1..])
  }

  /** A read-failure text whose suffix has no capital 'M' does not pass for a control error. */
  lemma ReadFailureTextUnmarked(suffix: string)
    requires 'M' !in suffix
    ensures !HasControlError(ReadFailureMarker + suffix)
  {
    assert 'M' !in ReadFailureMarker + suffix;
    MissingCharNotContained(ReadFailureMarker + suffix, MotorErrorMarker, 0);
    MissingCharNotContained(ReadFailureMarker + suffix, MixedErrorMarker, 0);
  }

  /** "Connected" carries neither a control-error marker nor the fault-read marker. */
  lemma ConnectedUnmarked()
    ensures !HasControlError(Connected)
    ensures !Contains(Connected, FaultReadFailureMarker)
  {
    MissingCharNotContained(Connected, MotorErrorMarker, 0);
    MissingCharNotContained(Connected, MixedErrorMarker, 0);
  }

  /** A failed command send leaves a control error showing. */
  lemma SendErrorsAreControlErrors(e: string, a: int, b: int)
    ensures HasControlError(MotorError(e, a, b))
    ensures HasControlError(MixedError(e, a, b))
  {
    PrefixContained(MotorErrorMarker, SendErrorTail(e, "M1", a, "M2", b));
    PrefixContained(MixedErrorMarker, SendErrorTail(e, "L", a, "R", b));
  }

  /** A fault-register read failure shows the fault-read marker and hence a read failure. */
  lemma FaultReadFailureMarked(e: string)
    ensures Contains(FaultReadFailure(e), FaultReadFailureMarker)
    ensures Contains(FaultReadFailure(e), ReadFailureMarker)
  {
    PrefixContained(FaultReadFailureMarker, ": " + e);
    PrefixContained(ReadFailureMarker, " error status");
    ContainsTransitive(FaultReadFailure(e), FaultReadFailureMarker, ReadFailureMarker);
  }

  /** A control error survives a telemetry pass, whatever the outcomes return. */
  lemma ControlErrorSurvivesPass(status: string, outcomes: PollReads)
    requires HasControlError(status)
    ensures PassStatus(status, outcomes) == status
  {
  }

  /**
   * A control error survives any run of telemetry passes: only a later command send
   * (or a connect, disconnect or reset-encoders failure) replaces it.
   */
  lemma {:induction false} ControlErrorSticky(status: string, passes: seq<PollReads>)
    requires HasControlError(status)
    ensures StatusAfterPasses(status, passes) == status
    decreases |passes|
  {
    if passes != [] {
      ControlErrorSurvivesPass(status, passes[0]);
      ControlErrorSticky(status, passes[1..]);
    }
  }

  /** Without a control error, a failed fault-register read wins over the config and buffer failures. */
  lemma FaultReadFailureWins(status: string, outcomes: PollReads)
    requires !HasControlError(status) && outcomes.faultFlags.Err?
    ensures Contains(PassStatus(status, outcomes), FaultReadFailureMarker)
    ensures PassStatus(status, outcomes) == PassStatus(status, outcomes.(config := Ok(ConfigFlags(0)), buffers := Ok((BufferStatus(0), BufferStatus(0)))))
  {
    FaultReadFailureMarked(outcomes.faultFlags.detail);
  }

  /** The voltage and encoder outcomes never decide the status left by a pass. */
  lemma VoltageAndEncoderFailuresTransient(status: string, outcomes: PollReads, other: PollReads)
    requires outcomes.faultFlags == other.faultFlags
    requires outcomes.config == other.config && outcomes.buffers == other.buffers
    ensures PassStatus(status, outcomes) == PassStatus(status, other)
  {
  }

  /**
   * A pass that starts without a control error ends without one, unless the fault-register
   * read failed with an error text that itself carries a control-error marker.
   */
  lemma PassClearsNoControlError(status: string, outcomes: PollReads)
    requires !HasControlError(status)
    requires outcomes.faultFlags.Err? ==> !HasControlError(outcomes.faultFlags.detail)
    ensures !HasControlError(PassStatus(status, outcomes))
  {
    ConnectedUnmarked();
    ReadFailureTextUnmarked(" config");
    ReadFailureTextUnmarked(" buffers");
    if outcomes.faultFlags.Err? {
      var e := outcomes.faultFlags.detail;
      var head := FaultReadFailureMarker + ": ";
      assert FaultReadFailure(e) == head + e;
      assert 'M' !in head;
      if Contains(head + e, MotorErrorMarker) {
        ContainsSplit(head, e, MotorErrorMarker);
      }
      if Contains(head + e, MixedErrorMarker) {
        ContainsSplit(head, e, MixedErrorMarker);
      }
    }
  }

  /** The text a reset-encoders failure writes is not protected: every pass replaces it. */
  lemma ResetErrorNotProtected(e: string, outcomes: PollReads)
    requires !HasControlError(ResetError(e))
    ensures PassStatus(ResetError(e), outcomes) != ResetError(e)
  {
    assert ResetError(e)[0] == 'R';
    if outcomes.faultFlags.Err? {
      assert FaultReadFailure(outcomes.faultFlags.detail)[0] == 'F';
    }
  }

  /** "Connected" shows no read trouble; the config and buffer failure texts do. */
  lemma ReadTroubleOfPassTexts()
    ensures !ShowsReadTrouble(Connected)
    ensures ShowsReadTrouble(ConfigFailure) && ShowsReadTrouble(BuffersFailure)
  {
    // "Connected" has no 'F' and no space
    MissingCharNotContained(Connected, ReadFailureMarker, 0);
    MissingCharNotContained(Connected, CrcErrorMarker, 3);
    PrefixContained(ReadFailureMarker, " config");
    PrefixContained(ReadFailureMarker, " buffers");
  }
}
