/** The poll loop's memory: whether the last successful poll saw rain, and
    whether a notification has already been sent. A notification fires on
    a raining-to-dry edge between successful polls; under the alert-once
    policy only while none has been sent yet. The `notified` flag is never
    cleared, so with alert-once at most one notification is sent for the
    whole life of the process. Sleeping between polls, logging and the
    desktop notification itself are left to the caller: a notification is
    the `fired` result. */
module Monitor {
  import opened Wrappers
  import RainStatus

  datatype State = State(wasRaining: bool, notified: bool)

  /** Until a poll says otherwise the monitor assumes it is raining, so a
      dry first reading counts as the rain stopping. */
  const Initial := State(true, false)

  /** The state after one poll, and whether that poll notified. */
  datatype Outcome = Outcome(next: State, fired: bool)

  /** The whole run: the final state and, poll by poll, whether it notified. */
  datatype Trace = Trace(final: State, fired: seq<bool>)

  /** One pass of the poll loop. `reading` is the raining flag the poll
      produced, or None when the poll raised. */
  function Transition(s: State, alertOnce: bool, reading: Option<bool>): (o: Outcome)
    // a failed poll changes nothing and fires nothing
    ensures reading.None? ==> o == Outcome(s, false)
    // a successful poll remembers its reading
    ensures reading.Some? ==> o.next.wasRaining == reading.value
    // firing needs a raining-to-dry edge
    ensures o.fired ==> s.wasRaining && reading == Some(false)
    // an edge always fires unless alert-once has already notified
    ensures s.wasRaining && reading == Some(false) && (!alertOnce || !s.notified) ==> o.fired
    ensures alertOnce && s.notified ==> !o.fired
    // `notified` is only ever set, only by a firing, and only under alert-once
    ensures s.notified ==> o.next.notified
    ensures o.next.notified ==> s.notified || (alertOnce && o.fired)
    ensures alertOnce && o.fired ==> o.next.notified
  {
    match reading
    case None => Outcome(s, false)
    case Some(raining) =>
      if s.wasRaining && !raining && (!s.notified || !alertOnce) then
        Outcome(State(raining, s.notified || alertOnce), true)
      else
        Outcome(State(raining, s.notified), false)
  }

  /** The poll loop over a finite sequence of poll outcomes. */
  function Run(s: State, alertOnce: bool, readings: seq<Option<bool>>): (t: Trace)
    ensures |t.fired| == |readings|
    decreases |readings|
  {
    if readings == [] then Trace(s, [])
    else
      var o := Transition(s, alertOnce, readings[0]);
      var rest := Run(o.next, alertOnce, readings[1..]);
      Trace(rest.final, [o.fired] + rest.fired)
  }

  /** How many notifications a trace sent. */
  function Notifications(fired: seq<bool>): nat {
    if fired == [] then 0 else (if fired[0] then 1 else 0) + Notifications(fired[1..])
  }

  /** The flag of the last successful poll among `readings`, or `init`
      when every one of them failed. */
  function LastReading(init: bool, readings: seq<Option<bool>>): bool {
    if readings == [] then init
    else if readings[|readings| - 1].Some? then readings[|readings| - 1].value
    else LastReading(init, readings[..|readings| - 1])
  }

  /** What the monitor believes after one more reading. */
  function Advance(wasRaining: bool, reading: Option<bool>): bool {
    if reading.Some? then reading.value else wasRaining
  }

  /** Poll `i` reads dry while the last successful poll before it (or the
      initial assumption) read rain. */
  predicate FallingEdge(init: bool, readings: seq<Option<bool>>, i: int)
    requires 0 <= i < |readings|
  {
    readings[i] == Some(false) && LastReading(init, readings[..i])
  }

  lemma {:induction false} LastReadingCons(init: bool, x: Option<bool>, rest: seq<Option<bool>>)
    ensures LastReading(init, [x] + rest) == LastReading(Advance(init, x), rest)
    decreases |rest|
  {
    if rest != [] {
      var all := [x] + rest;
      assert all[|all| - 1] == rest[|rest| - 1];
      if !rest[|rest| - 1].Some? {
        assert all[..|all| - 1] == [x] + rest[..|rest| - 1];
        LastReadingCons(init, x, rest[..|rest| - 1]);
      }
    } else {
      assert ([x] + rest)[..0] == [];
    }
  }

  /** An edge at poll `i > 0` is an edge at poll `i - 1` of the rest of the
      run, started from what the first poll left behind. */
  lemma EdgeShift(init: bool, readings: seq<Option<bool>>, i: int)
    requires 0 < i < |readings|
    ensures FallingEdge(init, readings, i) == FallingEdge(Advance(init, readings[0]), readings[1..], i - 1)
  {
    assert readings[..i] == [readings[0]] + readings[1..][..i - 1];
    LastReadingCons(init, readings[0], readings[1..][..i - 1]);
  }

  /** Running one more poll extends the trace by that poll's outcome. */
  lemma {:induction false} RunAppend(s: State, alertOnce: bool, readings: seq<Option<bool>>, x: Option<bool>)
    ensures var t := Run(s, alertOnce, readings);
            var o := Transition(t.final, alertOnce, x);
            Run(s, alertOnce, readings + [x]) == Trace(o.next, t.fired + [o.fired])
    decreases |readings|
  {
    if readings != [] {
      var o := Transition(s, alertOnce, readings[0]);
      assert (readings + [x])[1..] == readings[1..] + [x];
      RunAppend(o.next, alertOnce, readings[1..], x);
    }
  }

  /** After a run, the monitor remembers the last successful reading. */
  lemma {:induction false} RunRemembersLastReading(s: State, alertOnce: bool, readings: seq<Option<bool>>)
    ensures Run(s, alertOnce, readings).final.wasRaining == LastReading(s.wasRaining, readings)
    decreases |readings|
  {
    if readings != [] {
      var o := Transition(s, alertOnce, readings[0]);
      RunRemembersLastReading(o.next, alertOnce, readings[1..]);
      assert readings == [readings[0]] + readings[1..];
      LastReadingCons(s.wasRaining, readings[0], readings[1..]);
    }
  }

  /** Without alert-once, a poll notifies exactly when it is a
      raining-to-dry edge, and `notified` never changes. */
  lemma {:induction false} EveryEdgeFires(s: State, readings: seq<Option<bool>>)
    ensures Run(s, false, readings).final.notified == s.notified
    ensures forall i :: 0 <= i < |readings| ==>
              (Run(s, false, readings).fired[i] <==> FallingEdge(s.wasRaining, readings, i))
    decreases |readings|
  {
    if readings != [] {
      var o := Transition(s, false, readings[0]);
      EveryEdgeFires(o.next, readings[1..]);
      forall i | 0 <= i < |readings|
        ensures Run(s, false, readings).fired[i] <==> FallingEdge(s.wasRaining, readings, i)
      {
        if i > 0 {
          EdgeShift(s.wasRaining, readings, i);
        }
      }
    }
  }

  /** No raining-to-dry edge among the first `i` polls. */
  predicate NoEdgeBefore(init: bool, readings: seq<Option<bool>>, i: int)
    requires 0 <= i <= |readings|
  {
    forall j :: 0 <= j < i ==> !FallingEdge(init, readings, j)
  }

  /** With alert-once, a poll notifies exactly when it is the first
      raining-to-dry edge of the run and nothing had been sent before it;
      `notified` ends up set exactly when it was set already or the run
      contains an edge. */
  lemma {:induction false} OnlyFirstEdgeFires(s: State, readings: seq<Option<bool>>)
    ensures forall i :: 0 <= i < |readings| ==>
              (Run(s, true, readings).fired[i] <==>
                 !s.notified && FallingEdge(s.wasRaining, readings, i) && NoEdgeBefore(s.wasRaining, readings, i))
    ensures Run(s, true, readings).final.notified <==> s.notified || !NoEdgeBefore(s.wasRaining, readings, |readings|)
    decreases |readings|
  {
    if readings != [] {
      var w := s.wasRaining;
      var o := Transition(s, true, readings[0]);
      var w' := o.next.wasRaining;
      var rest := readings[1..];
      assert w' == Advance(w, readings[0]);
      OnlyFirstEdgeFires(o.next, rest);
      // an earlier edge is either the first poll's or one of the rest
      forall i | 0 < i <= |readings|
        ensures NoEdgeBefore(w, readings, i) <==> !FallingEdge(w, readings, 0) && NoEdgeBefore(w', rest, i - 1)
      {
        forall j | 0 < j < i {
          EdgeShift(w, readings, j);
        }
        if !NoEdgeBefore(w', rest, i - 1) {
          var k :| 0 <= k < i - 1 && FallingEdge(w', rest, k);
          EdgeShift(w, readings, k + 1);
        }
      }
      forall i | 0 <= i < |readings|
        ensures Run(s, true, readings).fired[i] <==>
                  !s.notified && FallingEdge(w, readings, i) && NoEdgeBefore(w, readings, i)
      {
        if i > 0 {
          EdgeShift(w, readings, i);
        }
      }
    }
  }

  /** With alert-once, a run sends at most one notification, and none at
      all once one has been sent. */
  lemma {:induction false} AtMostOneNotification(s: State, readings: seq<Option<bool>>)
    ensures Notifications(Run(s, true, readings).fired) <= if s.notified then 0 else 1
    decreases |readings|
  {
    if readings != [] {
      var o := Transition(s, true, readings[0]);
      AtMostOneNotification(o.next, readings[1..]);
    }
  }

  /** From the initial state a dry first reading notifies, whatever the
      policy. */
  lemma DryStartNotifies(alertOnce: bool)
    ensures Transition(Initial, alertOnce, Some(false)) == Outcome(State(false, alertOnce), true)
  {
  }

  /** A dry reading right after a dry reading never notifies. */
  lemma ConsecutiveDryIsSilent(s: State, alertOnce: bool)
    ensures !Transition(Transition(s, alertOnce, Some(false)).next, alertOnce, Some(false)).fired
  {
  }

  /** Rain, rain, dry, dry, rain, dry from the initial state: with
      alert-once only the third poll notifies, because `notified` is not
      cleared when the rain resumes; without it the third and the sixth
      do. */
  lemma RainDryRainDry()
    ensures var polls := [Some(true), Some(true), Some(false), Some(false), Some(true), Some(false)];
            && Run(Initial, true, polls).fired == [false, false, true, false, false, false]
            && Run(Initial, false, polls).fired == [false, false, true, false, false, true]
  {
  }

  /** The raining flag a poll contributes: None when fetching failed or
      when deciding raised. */
  function PollReading(response: Option<RainStatus.Payload>): Option<bool> {
    match response
    case None => None
    case Some(data) =>
      match RainStatus.GetRainStatus(data)
      case Success(status) => Some(status.raining)
      case Failure(_) => None
  }

  /** The readings of a sequence of fetched responses. */
  function Readings(responses: seq<Option<RainStatus.Payload>>): seq<Option<bool>> {
    seq(|responses|, i requires 0 <= i < |responses| => PollReading(responses[i]))
  }

  /** A poll whose request failed, or whose decision raised, is absorbed
      by the handlers: the monitor keeps both flags and nothing fires. */
  lemma FailedPollIsAbsorbed(s: State, alertOnce: bool, response: Option<RainStatus.Payload>)
    requires response.None? || RainStatus.GetRainStatus(response.value).Failure?
    ensures Transition(s, alertOnce, PollReading(response)) == Outcome(s, false)
  {
  }

  /** A poll whose `current` block applies and converts is decided by it
      alone: a null `hourly` block does not make it fail, and it notifies
      exactly on a raining-to-dry edge where neither `current` value is
      positive. */
  lemma CurrentDecidesPoll(s: State, alertOnce: bool, data: RainStatus.Payload)
    requires RainStatus.CurrentApplies(data.current)
    requires !RainStatus.Get(data.current.value, RainStatus.Precipitation).Unparsable?
    requires !RainStatus.Get(data.current.value, RainStatus.Rain).Unparsable?
    ensures PollReading(Some(data.(hourly := RainStatus.Nil))) == PollReading(Some(data))
    ensures PollReading(Some(data)).Some?
    ensures Transition(s, alertOnce, PollReading(Some(data))).fired <==>
              && s.wasRaining && (!alertOnce || !s.notified)
              && RainStatus.Amount(RainStatus.Get(data.current.value, RainStatus.Precipitation)).value <= 0.0
              && RainStatus.Amount(RainStatus.Get(data.current.value, RainStatus.Rain)).value <= 0.0
  {
  }

  /** The monitor of `main`: the two flags the poll loop updates, and the
      policy it was configured with. */
  class Monitor {
    var wasRaining: bool
    var notified: bool
    const alertOnce: bool

    function Snapshot(): State
      reads this
    {
      State(wasRaining, notified)
    }

    constructor (alertOnce: bool)
      ensures this.alertOnce == alertOnce
      ensures Snapshot() == Initial
    {
      this.alertOnce := alertOnce;
      wasRaining := true;
      notified := false;
    }

    /** Feeds one poll's outcome to the monitor; `fired` tells the caller to
        send the notification. */
    method Step(reading: Option<bool>) returns (fired: bool)
      modifies this
      ensures Outcome(Snapshot(), fired) == Transition(old(Snapshot()), alertOnce, reading)
    {
      fired := false;
      if reading.Some? {
        var raining := reading.value;
        if wasRaining && !raining {
          if !notified || !alertOnce {
            fired := true;
            if alertOnce {
              notified := true;
            }
          }
        }
        wasRaining := raining;
      }
    }

    /** The poll loop over a finite sequence of fetched responses (None when
        the request failed): each response is decided and fed to `Step`. */
    method Watch(responses: seq<Option<RainStatus.Payload>>) returns (fired: seq<bool>)
      modifies this
      ensures fired == Run(old(Snapshot()), alertOnce, Readings(responses)).fired
      ensures Snapshot() == Run(old(Snapshot()), alertOnce, Readings(responses)).final
    {
      ghost var start := Snapshot();
      ghost var readings := Readings(responses);
      fired := [];
      for i := 0 to |responses|
        invariant fired == Run(start, alertOnce, readings[..i]).fired
        invariant Snapshot() == Run(start, alertOnce, readings[..i]).final
      {
        var reading := None;
        if responses[i].Some? {
          var status := RainStatus.GetRainStatus(responses[i].value);
          if status.Success? {
            reading := Some(status.value.raining);
          }
        }
        assert reading == readings[i];
        RunAppend(start, alertOnce, readings[..i], reading);
        assert readings[..i + 1] == readings[..i] + [reading];
        var f := Step(reading);
        fired := fired + [f];
      }
      assert readings[..|responses|] == readings;
    }
  }
}
