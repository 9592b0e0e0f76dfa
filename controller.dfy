/** The receiver's status listener (`MyController` in src/main.py). The media
    controller's `is_active` and `is_playing` properties belong to the receiver
    library; each callback is given their values at the time of the call. */
module Controller {
  import Playback

  /** The signal `signal_speakers` sends for the receiver's flags: INACTIVE without an
      active session, else PLAYING while media plays, else STOPPED. */
  function SignalFor(isActive: bool, isPlaying: bool): (s: int)
    ensures s == Playback.INACTIVE <==> !isActive
    ensures s == Playback.PLAYING <==> isActive && isPlaying
    ensures s == Playback.STOPPED <==> isActive && !isPlaying
  {
    if !isActive then Playback.INACTIVE
    else if isPlaying then Playback.PLAYING
    else Playback.STOPPED
  }

  /** Re-deriving the signal from unchanged flags changes nothing, so the three
      callbacks may repeat it freely. */
  lemma RepeatedStatusIsNoOp(m: Playback.Machine, isActive: bool, isPlaying: bool, t: int, t': int)
    ensures var once := Playback.AfterSignal(m, SignalFor(isActive, isPlaying), t);
      Playback.AfterSignal(once, SignalFor(isActive, isPlaying), t') == once
  {
    Playback.SignalIdempotent(m, SignalFor(isActive, isPlaying), t, t');
  }

  class MyController {
    const thread: Playback.SpeakerThread

    constructor (thread: Playback.SpeakerThread)
      ensures this.thread == thread
    {
      this.thread := thread;
    }

    /** `signal_speakers`: exactly one signal, the one `SignalFor` derives. */
    method SignalSpeakers(isActive: bool, isPlaying: bool, now: int)
      modifies thread
      ensures thread.View() == Playback.AfterSignal(old(thread.View()), SignalFor(isActive, isPlaying), now)
    {
      if !isActive {
        thread.SignalInactive(now);
      } else if isPlaying {
        thread.SignalPlaying(now);
      } else {
        thread.SignalStopped(now);
      }
    }

    method NewMediaStatus(isActive: bool, isPlaying: bool, now: int)
      modifies thread
      ensures thread.View() == Playback.AfterSignal(old(thread.View()), SignalFor(isActive, isPlaying), now)
    {
      SignalSpeakers(isActive, isPlaying, now);
    }

    method NewCastStatus(isActive: bool, isPlaying: bool, now: int)
      modifies thread
      ensures thread.View() == Playback.AfterSignal(old(thread.View()), SignalFor(isActive, isPlaying), now)
    {
      SignalSpeakers(isActive, isPlaying, now);
    }

    method NewConnectionStatus(isActive: bool, isPlaying: bool, now: int)
      modifies thread
      ensures thread.View() == Playback.AfterSignal(old(thread.View()), SignalFor(isActive, isPlaying), now)
    {
      SignalSpeakers(isActive, isPlaying, now);
    }
  }
}
