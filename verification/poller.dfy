/**
 * The telemetry poller: an interval gate keyed on the status text, and the rule that a
 * cached reading is replaced by a successful read and kept as it was by a failed one.
 */
module Poller {
  import opened Text
  import opened Device
  import opened Status

  const NormalPollMs: nat := 500
  const SlowPollMs: nat := 2000

  /** Milliseconds that must be exceeded since the last pass before the next one runs. */
  function PollingInterval(status: string): (ms: nat)
    ensures ms == SlowPollMs || ms == NormalPollMs
  {
    if ShowsReadTrouble(status) then SlowPollMs else NormalPollMs
  }

  /** A pass is due once strictly more than the interval has elapsed. */
  predicate PassDue(status: string, lastUpdate: int, now: int): (due: bool)
    ensures due ==> now - lastUpdate > NormalPollMs
    ensures now - lastUpdate > SlowPollMs ==> due
  {
    now - lastUpdate > PollingInterval(status)
  }

  /** One read of a cached field: a success replaces the cache, a failure keeps it. */
  function Refresh<T>(cached: Option<T>, read: Outcome<T>): (r: Option<T>)
    ensures cached.Some? ==> r.Some?
    ensures r == cached || (read.Ok? && r == Some(read.value))
  {
    match read
    case Ok(v) => Some(v)
    case Err(_) => cached
  }

  /** The cached field after a run of reads, oldest first. */
  function RefreshAll<T>(cached: Option<T>, history: seq<Outcome<T>>): Option<T>
    decreases |history|
  {
    if history == [] then cached else RefreshAll(Refresh(cached, history[0]), history[1..])
  }

  /** The first channel's part of a joint two-channel read. */
  function FirstOf<A, B>(read: Outcome<(A, B)>): (r: Outcome<A>)
    ensures r.Ok? == read.Ok?
  {
    match read
    case Ok(p) => Ok(p.0)
    case Err(e) => Err(e)
  }

  /** The second channel's part of a joint two-channel read. */
  function SecondOf<A, B>(read: Outcome<(A, B)>): (r: Outcome<B>)
    ensures r.Ok? == read.Ok?
  {
    match read
    case Ok(p) => Ok(p.1)
    case Err(e) => Err(e)
  }

  /** The gate follows the status text: slow polling exactly while it shows read trouble. */
  lemma IntervalFollowsStatus(status: string)
    ensures PollingInterval(status) == SlowPollMs <==> ShowsReadTrouble(status)
    ensures PollingInterval(status) == NormalPollMs <==> !ShowsReadTrouble(status)
  {
  }

  /** Slow polling waits longer: a pass due under the slow interval is due under the normal one. */
  lemma SlowGateImpliesNormalGate(status: string, other: string, lastUpdate: int, now: int)
    requires PassDue(status, lastUpdate, now)
    requires !ShowsReadTrouble(other)
    ensures PassDue(other, lastUpdate, now)
  {
  }

  /**
   * A field is empty after a run of reads exactly when it was empty before and every
   * read failed: once populated, a field stays populated.
   */
  lemma {:induction false} RefreshAllEmpty<T>(cached: Option<T>, history: seq<Outcome<T>>)
    ensures RefreshAll(cached, history).None?
        <==> cached.None? && forall i :: 0 <= i < |history| ==> history[i].Err?
    decreases |history|
  {
    if history != [] {
      RefreshAllEmpty(Refresh(cached, history[0]), history[1..]);
      assert forall i :: 1 <= i < |history| ==> history[i] == history[1..][i - 1];
    }
  }

  /** Whatever a field holds after a run of reads is its old value or the value of one successful read. */
  lemma {:induction false} RefreshAllFromReads<T>(cached: Option<T>, history: seq<Outcome<T>>)
    ensures var r := RefreshAll(cached, history);
      r == cached || exists i :: 0 <= i < |history| && history[i].Ok? && r == Some(history[i].value)
    decreases |history|
  {
    if history != [] {
      var next := Refresh(cached, history[0]);
      RefreshAllFromReads(next, history[1..]);
      var r := RefreshAll(cached, history);
      if r != next {
        var i :| 0 <= i < |history[1..]| && history[1..][i].Ok? && r == Some(history[1..][i].value);
        assert history[i + 1] == history[1..][i];
      } else if r != cached {
        assert history[0].Ok? && r == Some(history[0].value);
      }
    }
  }

  /** A failed read at the end of a run leaves the field exactly as the run before it left it. */
  lemma {:induction false} FailedReadKeepsValue<T>(cached: Option<T>, history: seq<Outcome<T>>, e: string)
    ensures RefreshAll(cached, history + [Err(e)]) == RefreshAll(cached, history)
    decreases |history|
  {
    if history == [] {
      assert RefreshAll(cached, [Err(e)]) == RefreshAll(cached, []);
    } else {
      assert (history + [Err(e)])[1..] == history[1..] + [Err(e)];
      FailedReadKeepsValue(Refresh(cached, history[0]), history[1..], e);
    }
  }

  /** A successful read at the end of a run leaves exactly its value, whatever came before. */
  lemma {:induction false} LastSuccessWins<T>(cached: Option<T>, history: seq<Outcome<T>>, v: T)
    ensures RefreshAll(cached, history + [Ok(v)]) == Some(v)
    decreases |history|
  {
    if history == [] {
      assert RefreshAll(cached, [Ok(v)]) == RefreshAll(Some(v), []);
    } else {
      assert (history + [Ok(v)])[1..] == history[1..] + [Ok(v)];
      LastSuccessWins(Refresh(cached, history[0]), history[1..], v);
    }
  }

  /**
   * A successful command send keeps the pace while the status shows "Failed to read"; otherwise
   * it writes "Connected" and polling returns to normal, even after a "crc error" text.
   */
  lemma SendSuccessPace(status: string)
    ensures PollingInterval(AfterSendSucceeded(status))
        == if Contains(status, ReadFailureMarker) then PollingInterval(status) else NormalPollMs
  {
    if !Contains(status, ReadFailureMarker) {
      ReadTroubleOfPassTexts();
    }
  }

  /**
   * After a pass, polling is slow exactly when the text it leaves shows read trouble: with a
   * control error that is the error's own text; otherwise it is whether the fault, config or
   * buffer read failed. Voltage and encoder failures never slow the poller down.
   */
  lemma BackoffAfterPass(status: string, outcomes: PollReads)
    ensures PollingInterval(PassStatus(status, outcomes)) == SlowPollMs
        <==> if HasControlError(status) then ShowsReadTrouble(status)
             else outcomes.faultFlags.Err? || outcomes.config.Err? || outcomes.buffers.Err?
  {
    var after := PassStatus(status, outcomes);
    IntervalFollowsStatus(after);
    if !HasControlError(status) {
      match outcomes.faultFlags {
        case Err(e) =>
          FaultReadFailureMarked(e);
          assert ShowsReadTrouble(after);
        case Ok(_) =>
          ReadTroubleOfPassTexts();
      }
    }
  }
}
