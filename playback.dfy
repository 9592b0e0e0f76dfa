/** The playback state machine (`SpeakerThread` in src/main.py): the receiver's state,
    when it last changed and the wake flag, and the decision one iteration of the
    supervisory loop takes.

    Time is an integer count of microseconds, the resolution of `datetime.utcnow()`;
    callers pass the current time in as `now`. */
module Playback {
  import opened Wrappers
  import Speaker
  import Remote

  /** The state codes; 0 is the value before any signal. */
  const INITIAL := 0
  const PLAYING := 1
  const STOPPED := 2
  const INACTIVE := 3

  /** The grace period, in seconds. */
  const TIMEOUT := 60

  const MICROS_PER_SECOND := 1_000_000
  const SECONDS_PER_DAY := 86_400
  const MICROS_PER_DAY := SECONDS_PER_DAY * MICROS_PER_SECOND

  /** What one loop iteration broadcasts: `switch_on`, `switch_off` or nothing. */
  datatype Action = On | Off | Nothing

  /** `_state`, `_state_changed` and whether `_event` is set. */
  datatype Machine = Machine(state: int, changed: Option<int>, event: bool)

  const START := Machine(INITIAL, None, false)

  // ---------------------------------------------------------------------------
  // Elapsed time

  /** The `.seconds` attribute of a `timedelta` of `delta` microseconds: Python
      normalises a timedelta to days, seconds in 0..86399 and microseconds in
      0..999999, rounding towards minus infinity, and `.seconds` is the middle field. */
  function SecondsField(delta: int): (s: int)
    ensures 0 <= s < SECONDS_PER_DAY
  {
    (delta / MICROS_PER_SECOND) % SECONDS_PER_DAY
  }

  /** The seconds field is the one of the unique normalised triple. */
  lemma SecondsFieldOfNormalised(days: int, seconds: int, micros: int)
    requires 0 <= seconds < SECONDS_PER_DAY && 0 <= micros < MICROS_PER_SECOND
    ensures SecondsField((days * SECONDS_PER_DAY + seconds) * MICROS_PER_SECOND + micros) == seconds
  {
    var total := days * SECONDS_PER_DAY + seconds;
    assert (total * MICROS_PER_SECOND + micros) / MICROS_PER_SECOND == total;
    assert total % SECONDS_PER_DAY == seconds;
  }

  /** `state_changed_seconds_ago()`: TIMEOUT + 1 before any change was recorded; after
      one, the seconds field of the time since, which equals the whole seconds elapsed
      while less than a day has passed. */
  function SecondsAgo(changed: Option<int>, now: int): (s: int)
    ensures changed.None? ==> s == TIMEOUT + 1
    ensures changed.Some? ==> 0 <= s < SECONDS_PER_DAY
    ensures changed.Some? && 0 <= now - changed.value < MICROS_PER_DAY ==>
      s * MICROS_PER_SECOND <= now - changed.value < (s + 1) * MICROS_PER_SECOND
  {
    match changed
    case None => TIMEOUT + 1
    case Some(t) => SecondsField(now - t)
  }

  /** The seconds field starts again from 0 every day: a stop that has lasted a day and
      up to TIMEOUT seconds more reads as at most TIMEOUT seconds ago. */
  lemma SecondsAgoWrapsDaily(t: int, now: int)
    requires MICROS_PER_DAY <= now - t < MICROS_PER_DAY + (TIMEOUT + 1) * MICROS_PER_SECOND
    ensures SecondsAgo(Some(t), now) <= TIMEOUT
  {
    var delta := now - t;
    var seconds := (delta - MICROS_PER_DAY) / MICROS_PER_SECOND;
    var micros := (delta - MICROS_PER_DAY) % MICROS_PER_SECOND;
    assert delta == (1 * SECONDS_PER_DAY + seconds) * MICROS_PER_SECOND + micros;
    SecondsFieldOfNormalised(1, seconds, micros);
  }

  // ---------------------------------------------------------------------------
  // Transitions

  /** `set_state(s)` at time `now`. Nothing changes, not even the timestamp, when `s` is
      the current state; otherwise the state becomes `s`, the change is stamped `now` and
      the loop is woken. */
  function AfterSignal(m: Machine, s: int, now: int): (r: Machine)
    ensures r == m <==> s == m.state
    ensures r.state == s
    ensures r.changed != m.changed ==> r.state != m.state
    ensures s != m.state ==> r.changed == Some(now) && r.event
  {
    if m.state != s then Machine(s, Some(now), true) else m
  }

  /** What one iteration of `run` broadcasts for the state it finds. PLAYING always
      switches on and INACTIVE always off; every other code (STOPPED, and 0 before the
      first signal) switches off only once the seconds since the last change exceed
      TIMEOUT, and otherwise does nothing. */
  function Decide(m: Machine, now: int): (a: Action)
    ensures a == On <==> m.state == PLAYING
    ensures m.state == INACTIVE ==> a == Off
    ensures m.state != PLAYING && m.state != INACTIVE ==>
      (a == Off <==> SecondsAgo(m.changed, now) > TIMEOUT)
  {
    if m.state == PLAYING then On
    else if m.state == INACTIVE then Off
    else if SecondsAgo(m.changed, now) > TIMEOUT then Off
    else Nothing
  }

  // ---------------------------------------------------------------------------
  // Properties of the transitions

  /** Repeating a signal changes nothing, whenever it is repeated. */
  lemma SignalIdempotent(m: Machine, s: int, t: int, t': int)
    ensures AfterSignal(AfterSignal(m, s, t), s, t') == AfterSignal(m, s, t)
  {
  }

  /** A poll before any signal switches off, as does the poll right after a first
      INACTIVE signal; a first STOPPED signal only starts the grace period. */
  lemma ColdStartSwitchesOff(t: int, now: int)
    ensures Decide(START, now) == Off
    ensures Decide(AfterSignal(START, INACTIVE, t), t) == Off
    ensures Decide(AfterSignal(START, STOPPED, t), t) == Nothing
  {
    assert SecondsField(0) == 0;
  }

  /** Within a day of a stop at time `t`, a poll switches off exactly when at least
      TIMEOUT + 1 whole seconds have passed, and never switches on. */
  lemma GracePeriod(m: Machine, t: int, now: int)
    requires m.state == STOPPED && m.changed == Some(t)
    requires 0 <= now - t < MICROS_PER_DAY
    ensures Decide(m, now) == Off <==> now - t >= (TIMEOUT + 1) * MICROS_PER_SECOND
    ensures Decide(m, now) != On
  {
    var s := SecondsAgo(m.changed, now);
    assert s * MICROS_PER_SECOND <= now - t < (s + 1) * MICROS_PER_SECOND;
    if now - t >= (TIMEOUT + 1) * MICROS_PER_SECOND {
      assert (TIMEOUT + 1) * MICROS_PER_SECOND < (s + 1) * MICROS_PER_SECOND;
    } else {
      assert s * MICROS_PER_SECOND < (TIMEOUT + 1) * MICROS_PER_SECOND;
    }
  }

  /** A stop that has lasted a day, and up to TIMEOUT seconds more, does not switch off. */
  lemma StoppedForADayDoesNothing(m: Machine, t: int, now: int)
    requires m.state == STOPPED && m.changed == Some(t)
    requires MICROS_PER_DAY <= now - t < MICROS_PER_DAY + (TIMEOUT + 1) * MICROS_PER_SECOND
    ensures Decide(m, now) == Nothing
  {
    SecondsAgoWrapsDaily(t, now);
  }

  /** Play at `t`, pause five seconds later: the first poll switches on; polls for the
      next 61 seconds of the pause do nothing; a poll 61 seconds into it switches off. */
  lemma PlayThenPause(m: Machine, t: int)
    ensures var playing := AfterSignal(m, PLAYING, t);
      Decide(playing, t) == On &&
      var paused := AfterSignal(playing.(event := false), STOPPED, t + 5 * MICROS_PER_SECOND);
      && (forall now :: t + 5 * MICROS_PER_SECOND <= now < t + 66 * MICROS_PER_SECOND ==> Decide(paused, now) == Nothing)
      && Decide(paused, t + 66 * MICROS_PER_SECOND) == Off
  {
    var playing := AfterSignal(m, PLAYING, t);
    var stop := t + 5 * MICROS_PER_SECOND;
    var paused := AfterSignal(playing.(event := false), STOPPED, stop);
    forall now | stop <= now < t + 66 * MICROS_PER_SECOND
      ensures Decide(paused, now) == Nothing
    {
      GracePeriod(paused, stop, now);
    }
    GracePeriod(paused, stop, t + 66 * MICROS_PER_SECOND);
  }

  // ---------------------------------------------------------------------------
  // The thread object

  class SpeakerThread {
    const remote: Remote.SpeakerRemote
    /** `_state`. */
    var state: int
    /** `_state_changed`, in microseconds. */
    var changed: Option<int>
    /** Whether `_event` is set. */
    var event: bool

    function View(): Machine
      reads this
    {
      Machine(state, changed, event)
    }

    constructor (remote: Remote.SpeakerRemote)
      ensures this.remote == remote && View() == START
    {
      this.remote := remote;
      state, changed, event := INITIAL, None, false;
    }

    method SetState(s: int, now: int)
      modifies this
      ensures View() == AfterSignal(old(View()), s, now)
    {
      if state != s {
        state := s;
        changed := Some(now);
        event := true;
      }
    }

    method SignalPlaying(now: int)
      modifies this
      ensures View() == AfterSignal(old(View()), PLAYING, now)
    {
      SetState(PLAYING, now);
    }

    method SignalStopped(now: int)
      modifies this
      ensures View() == AfterSignal(old(View()), STOPPED, now)
    {
      SetState(STOPPED, now);
    }

    method SignalInactive(now: int)
      modifies this
      ensures View() == AfterSignal(old(View()), INACTIVE, now)
    {
      SetState(INACTIVE, now);
    }

    /** The body of one `run` iteration after the wait returns: the wake flag is
        cleared, and the action is decided on the state found at `now`. */
    method Poll(now: int) returns (a: Action)
      modifies this
      ensures a == Decide(old(View()), now)
      ensures View() == old(View()).(event := false)
    {
      if event {
        event := false;
      }
      if state == PLAYING {
        a := On;
      } else if state == INACTIVE {
        a := Off;
      } else if SecondsAgo(changed, now) > TIMEOUT {
        a := Off;
      } else {
        a := Nothing;
      }
    }

    /** One whole `run` iteration: poll, then broadcast the action to every speaker,
        each with the faults of its own call. */
    method RunOnce(now: int, faults: seq<Speaker.Faults>) returns (a: Action)
      requires remote.Valid() && |faults| == |remote.speakers|
      modifies this, remote.Repr()
      ensures a == Decide(old(View()), now)
      ensures View() == old(View()).(event := false)
      ensures forall i :: 0 <= i < |remote.speakers| ==>
        remote.speakers[i].View() ==
          if a == Nothing then old(remote.speakers[i].View())
          else Speaker.AfterSetState(old(remote.speakers[i].View()), a == On, faults[i])
    {
      a := Poll(now);
      if a == On {
        remote.SwitchOn(faults);
      } else if a == Off {
        remote.SwitchOff(faults);
      }
    }
  }
}
