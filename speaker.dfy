/** One smart-plug speaker (`SpeakerAccess` in src/main.py): its settings as parsed
    from the configuration, a lazily opened session to the plug, and the power command
    that is skipped when the plug already reports the wanted power.

    The plug and the network are outside the program. The plug is modelled as a value
    (`Plug`) that its handle alone talks to, and each call is given a `Faults` record
    that says which of the device calls of that call fail with an I/O error. */
module Speaker {
  import opened Wrappers
  import Text

  /** The two power states (`ON`/`OFF` in src/main.py). */
  const ON: bool := true
  const OFF: bool := false

  /** `power_state_as_text`. */
  function PowerText(state: bool): (t: string)
    ensures t == "on" <==> state
    ensures t == "off" <==> !state
  {
    if state then "on" else "off"
  }

  // ---------------------------------------------------------------------------
  // Configuration

  /** What `SpeakerAccess.__init__` is given. */
  datatype Settings = Settings(name: string, host: string, port: int, mac: seq<Text.byte>, devtype: int)

  /** One speaker's configuration table; a key may be absent. */
  datatype SpeakerConfig = SpeakerConfig(address: Option<string>, mac: Option<string>, devtype: Option<int>)

  /** The exceptions `from_config` lets escape: KeyError, and ValueError from
      `fromhex`, from the tuple unpacking of `split(":")` and from `int(port)`. */
  datatype ConfigError = MissingKey(key: string) | BadMac | BadAddress | BadPort

  /** `SpeakerAccess.from_config`, evaluated in Python's order: the mac is decoded, then
      the address is split, then the port converted, then the device type looked up.
      It succeeds exactly when every step does; the address then is the host, one ':'
      and a port text that `int()` reads as the port. */
  function FromConfig(name: string, config: SpeakerConfig): (r: Result<Settings, ConfigError>)
    ensures r.Success? <==>
      && config.mac.Some? && Text.FromHex(config.mac.value).Some?
      && config.address.Some? && multiset(config.address.value)[':'] == 1
      && Text.ParseInt(Text.Split(config.address.value, ':')[1]).Some?
      && config.devtype.Some?
    ensures r.Success? ==>
      var a, k := config.address.value, |r.value.host|;
      && r.value.name == name
      && Text.FromHex(config.mac.value) == Some(r.value.mac)
      && k < |a| && a[..k] == r.value.host && a[k] == ':' && ':' !in a[k + 1..]
      && Text.ParseInt(a[k + 1..]) == Some(r.value.port)
      && config.devtype == Some(r.value.devtype)
    ensures config.mac.None? ==> r == Failure(MissingKey("mac"))
  {
    match config.mac
    case None => Failure(MissingKey("mac"))
    case Some(hex) =>
      match Text.FromHex(hex)
      case None => Failure(BadMac)
      case Some(mac) =>
        match config.address
        case None => Failure(MissingKey("address"))
        case Some(address) =>
          var parts := Text.Split(address, ':');
          Text.SplitCount(address, ':');
          if |parts| != 2 then Failure(BadAddress)
          else
            Text.SplitTwo(address, ':');
            match Text.ParseInt(parts[1])
            case None => Failure(BadPort)
            case Some(port) =>
              match config.devtype
              case None => Failure(MissingKey("devtype"))
              case Some(devtype) => Success(Settings(name, parts[0], port, mac, devtype))
  }

  /** The configuration table that describes `s`: `"host:port"` and the mac in hex. */
  function ConfigOf(s: Settings): SpeakerConfig {
    SpeakerConfig(Some(s.host + ":" + Text.ShowInt(s.port)), Some(Text.Hex(s.mac)), Some(s.devtype))
  }

  lemma NoColonInShowInt(n: int)
    ensures ':' !in Text.ShowInt(n)
  {
    var s := Text.ShowInt(n);
    if n < 0 {
      assert forall i :: 1 <= i < |s| ==> s[i] == Text.ShowNat(-n)[i - 1];
    }
  }

  /** Every settings record whose host has no ':' is read back from its own
      configuration table. */
  lemma FromConfigOfSettings(s: Settings)
    requires ':' !in s.host
    ensures FromConfig(s.name, ConfigOf(s)) == Success(s)
  {
    var p := Text.ShowInt(s.port);
    var a := s.host + ":" + p;
    Text.FromHexOfHex(s.mac);
    NoColonInShowInt(s.port);
    Text.SplitPair(s.host, p, ':');
    assert Text.Split(a, ':') == [s.host, p];
    Text.ParseShowInt(s.port, "");
    assert "" + p + "" == p;
    FromConfigOfParts(s.name, s.host + ":" + p, Text.Hex(s.mac), s.devtype, s.host, p, s.port, s.mac);
  }

  /** `from_config` on a table whose mac decodes, whose address splits into two parts and
      whose port part parses yields exactly those values. */
  lemma FromConfigOfParts(name: string, address: string, hex: string, devtype: int,
                          host: string, p: string, port: int, mac: seq<Text.byte>)
    requires Text.FromHex(hex) == Some(mac)
    requires Text.Split(address, ':') == [host, p]
    requires Text.ParseInt(p) == Some(port)
    ensures FromConfig(name, SpeakerConfig(Some(address), Some(hex), Some(devtype)))
         == Success(Settings(name, host, port, mac, devtype))
  {
  }

  // ---------------------------------------------------------------------------
  // The handle's state machine, as values

  /** `SpeakerConnectError`, by its two messages. */
  datatype ConnectError = ConnectionError | CommunicationError

  /** Which device calls of one operation fail: building the `sp2` session, `auth()`,
      `check_power()` and `set_power()`. */
  datatype Faults = Faults(open: bool, auth: bool, check: bool, write: bool)

  /** A stored `sp2` session; `authenticated` is false when `auth()` failed. */
  datatype Session = Session(authenticated: bool)

  /** The plug: its power, and how many `set_power` requests it has carried out. */
  datatype Plug = Plug(power: bool, writes: nat)

  /** What a `SpeakerAccess` holds that can change: `_sp`, and the plug behind it. */
  datatype Handle = Handle(session: Option<Session>, plug: Plug)

  /** A handle after an operation, and whether the operation raised. */
  datatype Step = Step(handle: Handle, outcome: Outcome<ConnectError>)

  /** `connect()`. The session object is stored before `auth()` runs, so a failed
      authentication leaves a session behind; only a failure to build the session
      leaves the handle as it was. The plug is never touched. */
  function AfterConnect(h: Handle, f: Faults): (r: Step)
    ensures r.outcome.Pass? <==> !f.open && !f.auth
    ensures r.outcome.Fail? ==> r.outcome.error == ConnectionError
    ensures r.outcome.Pass? ==> r.handle.session == Some(Session(true))
    ensures !f.open ==> r.handle.session.Some?
    ensures f.open ==> r.handle == h
    ensures r.handle.plug == h.plug
  {
    if f.open then Step(h, Fail(ConnectionError))
    else if f.auth then Step(h.(session := Some(Session(false))), Fail(ConnectionError))
    else Step(h.(session := Some(Session(true))), Pass)
  }

  /** The `sp` property: connect only when no session is stored. */
  function AfterSp(h: Handle, f: Faults): (r: Step)
    ensures h.session.Some? ==> r == Step(h, Pass)
    ensures h.session.None? ==> r == AfterConnect(h, f)
    ensures r.outcome.Pass? ==> r.handle.session.Some?
    ensures r.outcome.Pass? <==> h.session.Some? || (!f.open && !f.auth)
    ensures r.handle.plug == h.plug
  {
    if h.session.None? then AfterConnect(h, f) else Step(h, Pass)
  }

  /** `pvt_set_power_state(want)`. Success means the plug is at `want`; a write
      happens only when the plug reported the other power; an I/O error in the check or
      the write drops the session; a failed connect is passed through untouched (it is
      not an IOError) and leaves the plug alone. */
  function AfterPvtSetPowerState(h: Handle, want: bool, f: Faults): (r: Step)
    ensures r.outcome.Pass? <==>
      AfterSp(h, f).outcome.Pass? && !f.check && (h.plug.power == want || !f.write)
    ensures r.outcome.Pass? ==> r.handle.plug.power == want && r.handle.session.Some?
    ensures r.outcome == Fail(CommunicationError) ==> r.handle.session.None?
    ensures r.outcome == Fail(ConnectionError) ==> h.session.None? && r.handle.plug == h.plug
    ensures r.handle.plug.writes == h.plug.writes
         || (r.handle.plug.writes == h.plug.writes + 1 && h.plug.power != want && r.handle.plug.power == want)
    ensures r.handle.plug.writes == h.plug.writes ==> r.handle.plug == h.plug
    ensures r.handle.plug != h.plug ==> AfterSp(h, f).outcome.Pass? && !f.check && !f.write
    ensures AfterSp(h, f).outcome.Fail? ==> r == AfterSp(h, f)
    ensures AfterSp(h, f).outcome.Pass? && (f.check || (h.plug.power != want && f.write)) ==>
      r.outcome == Fail(CommunicationError) && r.handle.session.None?
  {
    var acquired := AfterSp(h, f);
    if acquired.outcome.Fail? then acquired
    else if f.check then Step(acquired.handle.(session := None), Fail(CommunicationError))
    else if acquired.handle.plug.power == want then acquired
    else
      var again := AfterSp(acquired.handle, f);
      if f.write then Step(again.handle.(session := None), Fail(CommunicationError))
      else Step(again.handle.(plug := Plug(want, again.handle.plug.writes + 1)), again.outcome)
  }

  /** `set_state(want)`: `pvt_set_power_state` with its SpeakerConnectError swallowed.
      A handle that holds a session, or can open one, and meets no I/O error ends at
      `want`; at most one write is made, and only when the plug was at the other power. */
  function AfterSetState(h: Handle, want: bool, f: Faults): (r: Handle)
    ensures (h.session.Some? || (!f.open && !f.auth)) && !f.check && !f.write ==>
      r.plug.power == want && r.session.Some?
    ensures r.plug.writes <= h.plug.writes + 1
    ensures r.plug.writes > h.plug.writes ==> h.plug.power != want
    ensures r.plug.power != h.plug.power ==> r.plug.power == want
    ensures r.plug != h.plug ==> (h.session.Some? || (!f.open && !f.auth)) && !f.check && !f.write
  {
    AfterPvtSetPowerState(h, want, f).handle
  }

  /** After an I/O error the session is gone, so the next call reconnects. */
  lemma ReconnectAfterIOError(h: Handle, want: bool, f: Faults, g: Faults)
    requires AfterSp(h, f).outcome.Pass? && (f.check || (h.plug.power != want && f.write))
    ensures AfterPvtSetPowerState(h, want, f).outcome == Fail(CommunicationError)
    ensures var h' := AfterSetState(h, want, f);
      h'.session.None? && AfterSp(h', g) == AfterConnect(h', g)
  {
  }

  /** A failed `auth()` on a handle without a session stores an unauthenticated session,
      and no later call reconnects until an I/O error drops it. */
  lemma StaleSessionAfterFailedAuth(h: Handle, want: bool, f: Faults, g: Faults)
    requires h.session.None? && !f.open && f.auth
    ensures var h' := AfterSetState(h, want, f);
      h'.session == Some(Session(false)) && h'.plug == h.plug && AfterSp(h', g) == Step(h', Pass)
  {
  }

  /** Once a call has succeeded, repeating it never writes again, whatever fails. */
  lemma NoRedundantWrite(h: Handle, want: bool, f: Faults, g: Faults)
    requires AfterPvtSetPowerState(h, want, f).outcome.Pass?
    ensures var h' := AfterSetState(h, want, f);
      AfterSetState(h', want, g).plug == h'.plug
  {
  }

  // ---------------------------------------------------------------------------
  // The handle itself

  class SpeakerAccess {
    const name: string
    const host: string
    const port: int
    const mac: seq<Text.byte>
    const devtype: int
    /** `_sp`. */
    var session: Option<Session>
    /** The plug this handle drives. */
    var plug: Plug

    function View(): Handle
      reads this
    {
      Handle(session, plug)
    }

    /** `__init__`: store the settings and try to connect once, swallowing the error. */
    constructor (settings: Settings, plug: Plug, f: Faults)
      ensures name == settings.name && host == settings.host && port == settings.port
      ensures mac == settings.mac && devtype == settings.devtype
      ensures View() == AfterConnect(Handle(None, plug), f).handle
    {
      name, host, port, mac, devtype := settings.name, settings.host, settings.port, settings.mac, settings.devtype;
      session := None;
      this.plug := plug;
      new;
      var _ := Connect(f);
    }

    method Connect(f: Faults) returns (o: Outcome<ConnectError>)
      modifies this
      ensures Step(View(), o) == AfterConnect(old(View()), f)
    {
      if f.open {
        return Fail(ConnectionError);
      }
      session := Some(Session(false));
      if f.auth {
        return Fail(ConnectionError);
      }
      session := Some(Session(true));
      o := Pass;
    }

    method Sp(f: Faults) returns (o: Outcome<ConnectError>)
      modifies this
      ensures Step(View(), o) == AfterSp(old(View()), f)
    {
      if session.None? {
        o := Connect(f);
      } else {
        o := Pass;
      }
    }

    method PvtSetPowerState(want: bool, f: Faults) returns (o: Outcome<ConnectError>)
      modifies this
      ensures Step(View(), o) == AfterPvtSetPowerState(old(View()), want, f)
    {
      o := Sp(f);
      if o.Fail? {
        return;
      }
      if f.check {
        session := None;
        return Fail(CommunicationError);
      }
      var current := plug.power;
      if current != want {
        o := Sp(f);
        if f.write {
          session := None;
          return Fail(CommunicationError);
        }
        plug := Plug(want, plug.writes + 1);
      }
    }

    method SetState(want: bool, f: Faults)
      modifies this
      ensures View() == AfterSetState(old(View()), want, f)
    {
      var _ := PvtSetPowerState(want, f);
    }
  }
}
