# mfb-remote: the speaker power daemon, modelled in Dafny

The daemon links a Chromecast's playback state to the power of smart-plug speakers.
The receiver's status callbacks become one of three signals: PLAYING, STOPPED or INACTIVE.
A supervisory loop polls the latest signal. PLAYING switches every speaker on, and
INACTIVE switches them off. STOPPED switches them off only after a grace period of
`TIMEOUT` = 60 seconds. Each speaker is a Broadlink SP2 plug behind a handle. The handle
opens its session lazily, skips the write when the plug already has the wanted power,
and drops the session after an I/O error.

The model has these modules:

- `Wrappers` (wrappers.dfy): `Option`, `Outcome` and `Result`, which stand for Python's `None` and its exceptions.
- `Text` (text.dfy): the Python built-ins that `from_config` relies on. These are `str.split`, `int()` and `bytearray.fromhex`, with their inverses `join`, `str` and `bytes.hex`.
- `Speaker` (speaker.dfy): `power_state_as_text`, `SpeakerAccess.from_config`, and the handle's state machine.
  - The state machine is written as functions on values (`Handle`, `Step`).
  - The class `SpeakerAccess` holds the fields `session` (`_sp`) and `plug`. Each of its methods is proved equal to the matching function.
- `Remote` (remote.dfy): the class `SpeakerRemote` and its fan-out loop.
- `Playback` (playback.dfy): the state machine of `SpeakerThread`.
  - It is written as functions on the value `Machine` (state, change time, wake flag).
  - The class `SpeakerThread` has `SetState`, the three signal methods, `Poll` (the decision of one iteration of `run`) and `RunOnce` (the poll and its broadcast).
- `Controller` (controller.dfy): `MyController.signal_speakers` and its three callbacks.

Values that come from outside are parameters:

- Time is an integer `now` in microseconds.
- The receiver's `is_active` and `is_playing` are booleans.
- Whether a device call fails is a `Faults` record (session creation, `auth()`, `check_power()`, `set_power()`), one per speaker per call.
- The plug is a value `Plug(power, writes)`. `writes` counts the `set_power` requests the plug carried out. Only the plug's own handle touches it.

The model keeps these behaviours of the code:

- After a stop, the first poll at least 61 seconds after the change switches speakers off, not one at 60. The test is a strict `> TIMEOUT` on whole seconds (src/main.py:134, 162); see `GracePeriod` and `PlayThenPause`.
- `state_changed_seconds_ago` uses `timedelta.seconds`. That is the seconds *field* (0..86399), not the total, so it starts again from zero every day. A stop that lasted a day and up to 60 seconds more does nothing on that poll; see `StoppedForADayDoesNothing`.
- `connect` stores the session before `auth()` runs (src/main.py:46-47). A failed authentication therefore leaves a session behind, and later calls do not reconnect until an I/O error drops it; see `StaleSessionAfterFailedAuth`.
- A `SpeakerConnectError` raised by `connect` inside `pvt_set_power_state` is not an `IOError`. It passes through without clearing the session (src/main.py:72-80); see `AfterPvtSetPowerState`.
- Before any signal the state is 0. Quirk: 0 falls in the same `else` branch as STOPPED. Because no change has been recorded, the poll switches off; see `ColdStartSwitchesOff`.

## Model

| member | source | states |
|---|---|---|
| `Text.Split` | src/main.py:85 | `str.split(":")` gives at least one part; no part holds the separator; joining the parts gives the address back |
| `Text.SplitCount` | src/main.py:85 | `str.split(":")` gives one more part than there are separators, so the two-name unpacking succeeds exactly when the address has one ':' |
| `Text.SplitJoin` | src/main.py:85 | splitting undoes joining whenever no part holds the separator, so `"host:port"` with a colon-free host splits into exactly those two parts |
| `Text.ParseDigits` | src/main.py:87 | the digit run after the sign is accepted by `int()` exactly when it is digits with single underscores between digits |
| `Text.ParseInt` | src/main.py:87 | `int(port)` succeeds exactly when the text, after the white space `int()` skips at both ends and an optional sign, is a digit run with single underscores between digits; the magnitude is the value of those digits, a negative result needs a '-', and a '-' gives a result no greater than zero |
| `Text.ParseShowInt` | src/main.py:87 | `int(str(n)) == n` for every integer, also with white space that `int()` skips around the digits |
| `Text.FromHex` | src/main.py:84 | `bytearray.fromhex` yields at most one byte per two characters, or fails |
| `Text.FromHexAccepts` | src/main.py:84 | on text without white space, `bytearray.fromhex` succeeds exactly when the text has an even number of characters, all hex digits of either case |
| `Text.FromHexPairs` | src/main.py:84 | on text without white space, `bytearray.fromhex` yields one byte per pair of characters, and byte `j` is the value of hex digits `2j` and `2j+1` |
| `Text.FromHexOfHex` | src/main.py:84 | `bytearray.fromhex(b.hex()) == b` for every byte sequence |
| `Speaker.PowerText` | src/main.py:24-25 | the text is "on" exactly for a true power state and "off" exactly for a false one |
| `Speaker.FromConfig` | src/main.py:83-87 | succeeds exactly when the mac decodes from hex, the address has exactly one ':', the part after it is an integer to `int()` and the device type is present; the result then holds the name, the part before the ':' as host, that integer as port, the decoded mac and the device type; a missing mac is reported first |
| `Speaker.FromConfigOfSettings` | src/main.py:83-87 | every settings record with a colon-free host is parsed back from its own table (`"host:port"`, hex mac, devtype) |
| `Speaker.AfterConnect` | src/main.py:44-51 | connect succeeds exactly when neither building the session nor `auth()` fails, and then holds an authenticated session; if building succeeds, a session is stored even when `auth()` fails; a failure to build leaves the handle unchanged; the plug is never touched |
| `Speaker.AfterSp` | src/main.py:53-58 | a stored session is returned without connecting; without one the result is exactly that of connect, including the unauthenticated session a failed `auth()` leaves; the property succeeds exactly when a session was held or connect succeeds, and success leaves a session |
| `Speaker.AfterPvtSetPowerState` | src/main.py:71-80 | succeeds exactly when a session is available, the check works and either no write is needed or the write works; success leaves the plug at the wanted power; at most one write, and only when the plug reported the other power; the plug changes only when a session is available and neither the check nor the write fails; a failed connect is passed on as it is; once a session is available, an I/O error in the check, or in a needed write, raises the communication error and leaves no session; a connect failure leaves the plug alone and occurs only without a session |
| `Speaker.AfterSetState` | src/main.py:60-69 | never raises; with a session available and no I/O error the plug ends at the wanted power; at most one write, only when the plug was at the other power; the plug changes only when a session is available and no I/O error occurs |
| `Speaker.ReconnectAfterIOError` | src/main.py:78-80 | an I/O error in the check or in a needed write, on a handle that has or opens a session, raises the communication error; the session is then gone, and the next `sp` access connects again |
| `Speaker.StaleSessionAfterFailedAuth` | src/main.py:46-47 | a failed `auth()` on a handle without a session stores an unauthenticated session, leaves the plug alone, and the next `sp` access does not reconnect, whatever its faults |
| `Speaker.NoRedundantWrite` | src/main.py:73-77 | once `set_state` has succeeded, repeating it never changes or writes the plug, whatever then fails |
| `Speaker.SpeakerAccess.constructor` | src/main.py:29-42 | stores the settings and the state after one connect attempt, with its error swallowed |
| `Speaker.SpeakerAccess.Connect` | src/main.py:44-51 | the new session and the raised error are those of `AfterConnect` |
| `Speaker.SpeakerAccess.Sp` | src/main.py:53-58 | the new session and the raised error are those of `AfterSp` |
| `Speaker.SpeakerAccess.PvtSetPowerState` | src/main.py:71-80 | the new session, the plug and the raised error are those of `AfterPvtSetPowerState`; the property is read a second time before the write without reconnecting |
| `Speaker.SpeakerAccess.SetState` | src/main.py:60-69 | the new session and plug are those of `AfterSetState` |
| `Remote.SpeakerRemote.constructor` | src/main.py:91-95 | holds the given speakers, one distinct object each |
| `Remote.SpeakerRemote.SetPowerState` | src/main.py:103-105 | every speaker ends in the state of exactly one `set_state(state)` call with its own faults; no speaker's outcome depends on another's |
| `Remote.SpeakerRemote.SwitchOn` | src/main.py:97-98 | every speaker ends in the state of one `set_state(ON)` call |
| `Remote.SpeakerRemote.SwitchOff` | src/main.py:100-101 | every speaker ends in the state of one `set_state(OFF)` call |
| `Playback.SecondsField` | src/main.py:162 | the seconds field of a timedelta lies in 0..86399 |
| `Playback.SecondsFieldOfNormalised` | src/main.py:162 | the field is the seconds member of the normalised (days, seconds, microseconds) triple, for every day count including negative ones |
| `Playback.SecondsAgo` | src/main.py:159-162 | TIMEOUT + 1 before any change was recorded; afterwards a value in 0..86399 that, while less than a day has passed, is the number of whole seconds elapsed |
| `Playback.SecondsAgoWrapsDaily` | src/main.py:162 | after a day and up to TIMEOUT seconds more, the value is at most TIMEOUT again |
| `Playback.AfterSignal` | src/main.py:146-150 | the machine is unchanged exactly when the new state equals the current one; otherwise it holds the new state, change time `now` and a set wake flag; the timestamp changes only when the state does |
| `Playback.Decide` | src/main.py:129-135 | an iteration switches on exactly when PLAYING; INACTIVE switches off; any other state, the initial 0 included, switches off exactly when the seconds ago exceed 60 and does nothing otherwise |
| `Playback.SignalIdempotent` | src/main.py:146-150 | repeating a signal, at any later time, leaves the machine as the first signal left it |
| `Playback.ColdStartSwitchesOff` | src/main.py:159-161 | before any signal a poll switches off; the poll right after a first INACTIVE switches off; a first STOPPED only starts the grace period |
| `Playback.GracePeriod` | src/main.py:133-135 | within a day of a stop, a poll switches off exactly when at least 61 whole seconds have passed, and never switches on |
| `Playback.StoppedForADayDoesNothing` | src/main.py:133-135 | a stop that has lasted a day and up to 60 seconds more does nothing on that poll |
| `Playback.PlayThenPause` | src/main.py:129-135 | play, then pause 5 s later: the poll at play switches on, polls during the next 61 s of the pause do nothing, the poll 61 s into it switches off |
| `Playback.SpeakerThread.constructor` | src/main.py:113-120 | starts in state 0 with no change time and a clear wake flag |
| `Playback.SpeakerThread.SetState` | src/main.py:146-150 | the new state, change time and wake flag are those of `AfterSignal` |
| `Playback.SpeakerThread.SignalPlaying` | src/main.py:137-138 | the effect of `set_state(PLAYING)` |
| `Playback.SpeakerThread.SignalStopped` | src/main.py:140-141 | the effect of `set_state(STOPPED)` |
| `Playback.SpeakerThread.SignalInactive` | src/main.py:143-144 | the effect of `set_state(INACTIVE)` |
| `Playback.SpeakerThread.Poll` | src/main.py:126-135 | the wake flag ends cleared, state and change time are untouched, and the action is `Decide` of the state found |
| `Playback.SpeakerThread.RunOnce` | src/main.py:126-135 | one poll followed by its broadcast: on On or Off every speaker ends in the state of one `set_state` call with that power, and on no action every speaker is unchanged |
| `Controller.SignalFor` | src/main.py:170-176 | INACTIVE exactly when the receiver is not active; PLAYING exactly when it is active and playing; STOPPED exactly when it is active and not playing |
| `Controller.RepeatedStatusIsNoOp` | src/main.py:178-185 | re-deriving the signal from unchanged flags, as every callback does, changes nothing |
| `Controller.MyController.constructor` | src/main.py:166-168 | holds the speaker thread it signals |
| `Controller.MyController.SignalSpeakers` | src/main.py:170-176 | exactly one signal, the one `SignalFor` derives, applied as `set_state` |
| `Controller.MyController.NewMediaStatus` | src/main.py:178-179 | the same effect as `signal_speakers` |
| `Controller.MyController.NewCastStatus` | src/main.py:181-182 | the same effect as `signal_speakers` |
| `Controller.MyController.NewConnectionStatus` | src/main.py:184-185 | the same effect as `signal_speakers` |

## Left out

- Threads: the model has no daemon thread and no real wait. `threading.Event.wait(timeout=10)` is not modelled, and the `while True` of `run` is modelled one iteration at a time (`Poll`, `RunOnce`). Signals that arrive between two polls are modelled as explicit calls in between; concurrency cannot be stated here.
- The per-speaker threads of `set_power_state` are served in list order. Their interleaving is not modelled, and neither are concurrent broadcasts into the same handle.
- The broadlink `sp2` protocol is a foreign library. It is replaced by a plug value and per-call `Faults`. Every device failure is taken to be an I/O error. Other exceptions would escape `set_state` and end that speaker's worker thread; they are not modelled. An example is a library error on an unauthenticated session.
- A failed `set_power` is assumed to leave the plug unchanged.
- `SpeakerRemote.__init__` builds its list from the configuration mapping; the model's constructor takes the list of handles built by `FromConfig` and `SpeakerAccess`. That is bootstrapping over a TOML mapping.
- Configuration values are assumed to have the types the code expects: mac and address are strings and devtype is an integer. The `TypeError` another TOML type would raise is not modelled.
- Text.ParseInt: models ASCII digits, ASCII white space and the Latin-1 white space U+0085 and U+00A0 only. Python's `int()` also accepts other Unicode white space and non-ASCII decimal digits. The model also has no limit on the number of digits: CPython 3.11 and later, and the security releases of 3.7 to 3.10, raise ValueError for more than 4300 digits.
- Speaker.Session: the `authenticated` flag records the stale session that a failed `auth()` leaves behind, but no operation reads it. `check_power` and `set_power` on such a session fail only when the call's `Faults` say so, as on an authenticated one.
- `main`, receiver discovery, listener registration, the retry loop, TOML loading, argparse and every `logging` call are I/O and are not modelled.
- `datetime.utcnow()` is replaced by the parameter `now`.
- `is_active` and `is_playing` are properties of the receiver library and are passed in as booleans.
