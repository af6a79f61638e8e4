/**
  The ultrasonic measurement of the sensor script (main.py `get_distance`),
  over an abstract trace instead of the GPIO pin and the wall clock:
  `echo` lists the successive values read from the echo pin (true = high)
  and `clock` the successive values returned by the clock, each read
  consuming the next entry of its own list. The trigger pulse that precedes
  the measurement is hardware I/O and is not part of this model.

  The trace is finite, so a measurement can run out of it before
  get_distance would return; the model reports that as `None`.
*/
module Echo {
  import opened Wrappers

  /** Seconds allowed, from the first clock read, for the whole echo. */
  const Timeout: real := 0.1

  /** Speed of sound in centimetres per second. */
  const SpeedOfSound: real := 34300.0

  /** Largest distance a pulse that ends inside the deadline can give: 0.1 * 34300 / 2. */
  const MaxRange: real := 1715.0

  /** How one polling loop of get_distance ended. */
  datatype Wait =
    | Exited(nextEcho: nat, nextClock: nat, last: real)  // the echo left the polled level
    | Expired                                            // a clock read passed the deadline
    | Exhausted                                          // the trace ran out

  /**
    The loop "while the echo reads `level`: last := clock(); if last > deadline,
    give up", started at echo read `e` and clock read `c` with `last` already
    holding a clock value. On exit, `last` is the most recent clock value.
  */
  function WaitWhile(level: bool, echo: seq<bool>, clock: seq<real>, e: nat, c: nat, last: real, deadline: real): (w: Wait)
    ensures w.Exited? ==> e < w.nextEcho <= |echo| && w.nextClock == c + (w.nextEcho - 1 - e)
    ensures w.Exited? ==> echo[w.nextEcho - 1] != level
    ensures w.Exited? ==> forall i :: e <= i < w.nextEcho - 1 ==> echo[i] == level
    decreases |echo| - e
  {
    if e >= |echo| then Exhausted
    else if echo[e] != level then Exited(e + 1, c, last)
    else if c >= |clock| then Exhausted
    else if clock[c] > deadline then Expired
    else WaitWhile(level, echo, clock, e + 1, c + 1, clock[c], deadline)
  }

  /** What one call of get_distance observes. */
  datatype Outcome =
    | TimedOut                           // one of the waits passed the deadline
    | Echoed(start: real, stop: real)    // both waits ended; the last clock values of each
    | TraceEnded                         // the trace ran out first

  /**
    The outcome of get_distance on a trace. Of a completed pulse, start is
    either its initial value clock[0] or a later clock read inside the
    deadline, and stop is either its initial value clock[1] or a later clock
    read inside the deadline.
  */
  function EchoOutcome(echo: seq<bool>, clock: seq<real>): (o: Outcome)
    ensures |clock| < 2 ==> o == TraceEnded
    ensures o.Echoed? ==> (|clock| >= 2 &&
      (o.start == clock[0] || exists i :: 2 <= i < |clock| && o.start == clock[i] && clock[i] <= clock[0] + Timeout))
    ensures o.Echoed? ==> (|clock| >= 2 &&
      (o.stop == clock[1] || exists i :: 2 <= i < |clock| && o.stop == clock[i] && clock[i] <= clock[0] + Timeout))
  {
    if |clock| < 2 then TraceEnded
    else
      var deadline := clock[0] + Timeout;
      match WaitWhile(false, echo, clock, 0, 2, clock[0], deadline)
      case Exhausted => TraceEnded
      case Expired => TimedOut
      case Exited(e, c, start) =>
        WaitExitValue(false, echo, clock, 0, 2, clock[0], deadline);
        match WaitWhile(true, echo, clock, e, c, clock[1], deadline)
        case Exhausted => TraceEnded
        case Expired => TimedOut
        case Exited(_, _, stop) =>
          WaitExitValue(true, echo, clock, e, c, clock[1], deadline);
          Echoed(start, stop)
  }

  /** The value get_distance returns for an outcome: the sentinel 0.0 on a timeout. */
  function DistanceOf(o: Outcome): (r: Option<real>)
    ensures r.None? <==> o.TraceEnded?
    ensures o.TimedOut? ==> r == Some(0.0)
    ensures o.Echoed? ==> r.Some? && r.value * 2.0 == (o.stop - o.start) * SpeedOfSound
  {
    match o
    case TraceEnded => None
    case TimedOut => Some(0.0)
    case Echoed(start, stop) => Some(((stop - start) * SpeedOfSound) / 2.0)
  }

  /** A nonzero result always comes from a completed pulse; nothing comes back only when the trace runs out. */
  function Measure(echo: seq<bool>, clock: seq<real>): (r: Option<real>)
    ensures r.None? <==> EchoOutcome(echo, clock).TraceEnded?
    ensures r.Some? && r.value != 0.0 ==> EchoOutcome(echo, clock).Echoed?
  {
    DistanceOf(EchoOutcome(echo, clock))
  }

  /** get_distance: wait for the echo to rise, then for it to fall, against one fixed deadline. */
  method GetDistance(echo: seq<bool>, clock: seq<real>) returns (distance: Option<real>)
    ensures distance == Measure(echo, clock)
  {
    if |clock| < 2 {
      return None;
    }
    var startTime, stopTime := clock[0], clock[1];
    var timeout := startTime + Timeout;
    var e: nat, c: nat := 0, 2;

    ghost var low := WaitWhile(false, echo, clock, 0, 2, startTime, timeout);
    while e < |echo| && !echo[e]
      invariant e <= |echo| && c <= |clock|
      invariant WaitWhile(false, echo, clock, e, c, startTime, timeout) == low
      decreases |echo| - e
    {
      e := e + 1;
      if c == |clock| {
        return None;
      }
      startTime := clock[c];
      c := c + 1;
      if startTime > timeout {
        return Some(0.0);
      }
    }
    if e == |echo| {
      return None;
    }
    e := e + 1;
    assert low == Exited(e, c, startTime);

    ghost var high := WaitWhile(true, echo, clock, e, c, stopTime, timeout);
    while e < |echo| && echo[e]
      invariant e <= |echo| && c <= |clock|
      invariant WaitWhile(true, echo, clock, e, c, stopTime, timeout) == high
      decreases |echo| - e
    {
      e := e + 1;
      if c == |clock| {
        return None;
      }
      stopTime := clock[c];
      c := c + 1;
      if stopTime > timeout {
        return Some(0.0);
      }
    }
    if e == |echo| {
      return None;
    }
    assert high == Exited(e + 1, c, stopTime);
    return Some(((stopTime - startTime) * SpeedOfSound) / 2.0);
  }

  // ---------------------------------------------------------------- lemmas about one wait

  /** A wait that sees the polled level throughout and a late clock read on its (k+1)-th round gives up. */
  lemma {:induction false} WaitExpires(level: bool, echo: seq<bool>, clock: seq<real>,
                                       e: nat, c: nat, last: real, deadline: real, k: nat)
    requires e + k < |echo| && c + k < |clock|
    requires forall i :: e <= i <= e + k ==> echo[i] == level
    requires forall i :: c <= i < c + k ==> clock[i] <= deadline
    requires clock[c + k] > deadline
    ensures WaitWhile(level, echo, clock, e, c, last, deadline) == Expired
    decreases k
  {
    if k > 0 {
      WaitExpires(level, echo, clock, e + 1, c + 1, clock[c], deadline, k - 1);
    }
  }

  /**
    A wait that sees the polled level for k rounds, each clock read inside the
    deadline, and then the other level, exits with the k-th clock value, or
    with its initial value when k is 0.
  */
  lemma {:induction false} WaitExits(level: bool, echo: seq<bool>, clock: seq<real>,
                                     e: nat, c: nat, last: real, deadline: real, k: nat)
    requires e + k < |echo| && c + k <= |clock|
    requires forall i :: e <= i < e + k ==> echo[i] == level
    requires echo[e + k] != level
    requires forall i :: c <= i < c + k ==> clock[i] <= deadline
    ensures WaitWhile(level, echo, clock, e, c, last, deadline)
         == Exited(e + k + 1, c + k, if k == 0 then last else clock[c + k - 1])
    decreases k
  {
    if k > 0 {
      WaitExits(level, echo, clock, e + 1, c + 1, clock[c], deadline, k - 1);
    }
  }

  /**
    On exit a wait holds either its initial value (no round ran) or the last
    clock value it read, which was inside the deadline.
  */
  lemma {:induction false} WaitExitValue(level: bool, echo: seq<bool>, clock: seq<real>,
                                         e: nat, c: nat, last: real, deadline: real)
    requires c <= |clock|
    requires WaitWhile(level, echo, clock, e, c, last, deadline).Exited?
    ensures var w := WaitWhile(level, echo, clock, e, c, last, deadline);
      c <= w.nextClock <= |clock| &&
      (w.nextClock == c ==> w.last == last) &&
      (w.nextClock > c ==> w.last == clock[w.nextClock - 1] && w.last <= deadline)
    decreases |echo| - e
  {
    if e < |echo| && echo[e] == level {
      WaitExitValue(level, echo, clock, e + 1, c + 1, clock[c], deadline);
    }
  }

  // ---------------------------------------------------------------- lemmas about get_distance

  /**
    Rising edge after j low reads and falling edge after k high reads, all clock
    reads inside the deadline: the result is the round-trip time times 34300 / 2,
    where start keeps its initial value clock[0] when j is 0 and stop keeps its
    initial value clock[1] when k is 0.
  */
  lemma EchoDistance(echo: seq<bool>, clock: seq<real>, j: nat, k: nat)
    requires 2 + j + k <= |clock| && j + 1 + k < |echo|
    requires forall i :: 0 <= i < j ==> !echo[i]
    requires echo[j]
    requires forall i :: j + 1 <= i < j + 1 + k ==> echo[i]
    requires !echo[j + 1 + k]
    requires forall i :: 2 <= i < 2 + j + k ==> clock[i] <= clock[0] + Timeout
    ensures var start := if j == 0 then clock[0] else clock[1 + j];
            var stop := if k == 0 then clock[1] else clock[1 + j + k];
            Measure(echo, clock) == Some(((stop - start) * SpeedOfSound) / 2.0)
  {
    var deadline := clock[0] + Timeout;
    WaitExits(false, echo, clock, 0, 2, clock[0], deadline, j);
    WaitExits(true, echo, clock, j + 1, 2 + j, clock[1], deadline, k);
  }

  /** A clock read past the deadline while the echo is still low gives the sentinel 0.0. */
  lemma TimeoutWhileLow(echo: seq<bool>, clock: seq<real>, k: nat)
    requires 2 + k < |clock| && k < |echo|
    requires forall i :: 0 <= i <= k ==> !echo[i]
    requires forall i :: 2 <= i < 2 + k ==> clock[i] <= clock[0] + Timeout
    requires clock[2 + k] > clock[0] + Timeout
    ensures Measure(echo, clock) == Some(0.0)
  {
    WaitExpires(false, echo, clock, 0, 2, clock[0], clock[0] + Timeout, k);
  }

  /**
    A clock read past the deadline while the echo is still high gives the
    sentinel 0.0. The deadline is the one fixed from the first clock read,
    not reset when the echo rises.
  */
  lemma TimeoutWhileHigh(echo: seq<bool>, clock: seq<real>, j: nat, k: nat)
    requires 2 + j + k < |clock| && j + 1 + k < |echo|
    requires forall i :: 0 <= i < j ==> !echo[i]
    requires echo[j]
    requires forall i :: j + 1 <= i <= j + 1 + k ==> echo[i]
    requires forall i :: 2 <= i < 2 + j + k ==> clock[i] <= clock[0] + Timeout
    requires clock[2 + j + k] > clock[0] + Timeout
    ensures Measure(echo, clock) == Some(0.0)
  {
    var deadline := clock[0] + Timeout;
    WaitExits(false, echo, clock, 0, 2, clock[0], deadline, j);
    WaitExpires(true, echo, clock, j + 1, 2 + j, clock[1], deadline, k);
  }

  predicate NonDecreasing(clock: seq<real>) {
    forall i, j :: 0 <= i <= j < |clock| ==> clock[i] <= clock[j]
  }

  /**
    With a clock that never runs backwards, a measurement is never longer than
    the 0.1 s window allows (at most 1715 cm), provided the second initial
    clock read clock[1] lies inside the window whenever neither loop body runs
    (the echo reads high and then at once low).
  */
  lemma DistanceBounded(echo: seq<bool>, clock: seq<real>)
    requires NonDecreasing(clock)
    requires 2 <= |clock|
    requires clock[1] <= clock[0] + Timeout || !(2 <= |echo| && echo[0] && !echo[1])
    requires Measure(echo, clock).Some?
    ensures Measure(echo, clock).value <= MaxRange
  {
  }

  /**
    Without the condition on clock[1] the bound fails, even on a non-decreasing
    clock: when the echo is already high and falls at once, neither loop body
    runs and both initial clock reads are used unchecked.
  */
  lemma LateSecondReadEscapesDeadline()
    ensures NonDecreasing([0.0, 0.5])
    ensures Measure([true, false], [0.0, 0.5]) == Some(8575.0)
    ensures Measure([true, false], [0.0, 0.5]).value > MaxRange
  {
  }

  /**
    The result can be negative even on a non-decreasing clock: the low wait
    moves start_time forward while stop_time keeps its initial value clock[1].
  */
  lemma NegativeDistancePossible()
    ensures NonDecreasing([0.0, 0.0, 0.05])
    ensures Measure([false, true, false], [0.0, 0.0, 0.05]) == Some(-857.5)
  {
  }

  /**
    The deadline is not reset when the echo rises: an echo that rises at 0.09 s
    and is still high at 0.15 s times out although it has lasted only 0.06 s.
  */
  lemma DeadlineNotReset()
    ensures Measure([false, true, true], [0.0, 0.0, 0.09, 0.15]) == Some(0.0)
  {
  }
}
