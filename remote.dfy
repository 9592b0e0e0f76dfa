/** The group of speakers (`SpeakerRemote` in src/main.py). The source starts one thread
    per speaker and does not wait for them; here the speakers are served one after the
    other, each with its own faults, so that no speaker's outcome depends on another's. */
module Remote {
  import Speaker

  class SpeakerRemote {
    const speakers: seq<Speaker.SpeakerAccess>

    /** The list is built from distinct configuration entries, one object each. */
    ghost predicate Valid() {
      forall i, j :: 0 <= i < j < |speakers| ==> speakers[i] != speakers[j]
    }

    ghost function Repr(): set<Speaker.SpeakerAccess> {
      set s | s in speakers
    }

    constructor (speakers: seq<Speaker.SpeakerAccess>)
      requires forall i, j :: 0 <= i < j < |speakers| ==> speakers[i] != speakers[j]
      ensures this.speakers == speakers && Valid()
    {
      this.speakers := speakers;
    }

    /** `set_power_state(state)`: every speaker receives `set_state(state)` once, with the
        faults `faults[i]` of its own call. */
    method SetPowerState(state: bool, faults: seq<Speaker.Faults>)
      requires Valid() && |faults| == |speakers|
      modifies Repr()
      ensures forall i :: 0 <= i < |speakers| ==>
        speakers[i].View() == Speaker.AfterSetState(old(speakers[i].View()), state, faults[i])
    {
      for n := 0 to |speakers|
        invariant forall i :: 0 <= i < n ==>
          speakers[i].View() == Speaker.AfterSetState(old(speakers[i].View()), state, faults[i])
        invariant forall i :: n <= i < |speakers| ==> speakers[i].View() == old(speakers[i].View())
      {
        speakers[n].SetState(state, faults[n]);
      }
    }

    method SwitchOn(faults: seq<Speaker.Faults>)
      requires Valid() && |faults| == |speakers|
      modifies Repr()
      ensures forall i :: 0 <= i < |speakers| ==>
        speakers[i].View() == Speaker.AfterSetState(old(speakers[i].View()), Speaker.ON, faults[i])
    {
      SetPowerState(Speaker.ON, faults);
    }

    method SwitchOff(faults: seq<Speaker.Faults>)
      requires Valid() && |faults| == |speakers|
      modifies Repr()
      ensures forall i :: 0 <= i < |speakers| ==>
        speakers[i].View() == Speaker.AfterSetState(old(speakers[i].View()), Speaker.OFF, faults[i])
    {
      SetPowerState(Speaker.OFF, faults);
    }
  }
}
