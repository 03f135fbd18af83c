/** The shared status feed: one event stream and one poll timer for all listeners of a page. */
module ModemStatus {
  import opened Text

  /** `timers` and `streams` are what the browser keeps alive; `pollTimer` and `eventSource` are the
      module's own references. `gets` counts status requests on the wire. */
  datatype State = State(
    listeners: set<nat>, watching: bool, subscribed: bool,
    pollTimer: Option<nat>, timers: map<nat, nat>, nextTimer: nat,
    eventSource: Option<nat>, streams: set<nat>, nextStream: nat, connected: bool, primary: bool,
    inFlight: bool, gets: nat, interval: nat, hidden: bool, supported: bool)

  /** A fresh page: polling every two seconds when it starts, streams supported or not. */
  predicate IsFresh(s: State) {
    s == State({}, false, false, None, map[], 0, None, {}, 0, false, true, false, 0, 2000, s.hidden, s.supported)
  }

  // ---------------------------------------------------------------- steps

  /** `streamThrows` says whether opening a stream in this step throws. */
  datatype Event =
    | Mount(id: nat, pollInterval: Option<nat>, preferred: nat, streamThrows: bool)
    | Unmount(id: nat)
    | VisibilityChanges(nowHidden: bool, streamThrows: bool)
    | StreamOpens(id: nat)
    | StreamErrs(id: nat)
    | Tick(id: nat)
    | RateChanges(interval: nat)
    | Refresh
    | GetLands

  predicate Enabled(s: State, e: Event) {
    match e
    case Mount(id, _, preferred, _) => id !in s.listeners && preferred > 0
    case Unmount(id) => id in s.listeners
    case StreamOpens(id) => id in s.streams
    case StreamErrs(id) => id in s.streams
    case Tick(id) => id in s.timers
    case RateChanges(interval) => s.subscribed && interval > 0
    case GetLands => s.inFlight
    case _ => true
  }

  function FetchStatus(s: State): State {
    if s.inFlight then s else s.(inFlight := true, gets := s.gets + 1)
  }

  function StartPolling(s: State, interval: nat): State {
    var t := if interval > 0 then s.(interval := interval) else s;
    if s.pollTimer.Some? then t
    else t.(pollTimer := Some(s.nextTimer), timers := s.timers[s.nextTimer := t.interval], nextTimer := s.nextTimer + 1)
  }

  function StopPolling(s: State): State {
    if s.pollTimer.Some? then s.(timers := s.timers - {s.pollTimer.value}, pollTimer := None) else s
  }

  function DisconnectStream(s: State): State {
    (if s.eventSource.Some? then s.(streams := s.streams - {s.eventSource.value}, eventSource := None) else s).(connected := false)
  }

  function ConnectStream(s: State, throws: bool): State {
    if !s.supported || s.hidden then s
    else
      var t := if s.eventSource.Some? then DisconnectStream(s) else s;
      if throws then StartPolling(DisconnectStream(t), t.interval)
      else t.(eventSource := Some(t.nextStream), streams := t.streams + {t.nextStream}, nextStream := t.nextStream + 1)
  }

  /** What a visible page does when it starts: fetch once, try the stream, poll until it opens. */
  function Begin(s: State, interval: nat, throws: bool): State {
    var t := ConnectStream(FetchStatus(s), throws);
    if t.connected then t else StartPolling(t, interval)
  }

  function Effective(pollInterval: Option<nat>, preferred: nat): nat {
    if pollInterval.Some? && pollInterval.value > 0 then pollInterval.value else preferred
  }

  function Step(s: State, e: Event): State
    requires Enabled(s, e)
  {
    match e
    case Mount(id, pollInterval, preferred, throws) =>
      var interval := Effective(pollInterval, preferred);
      var t := s.(interval := interval, listeners := s.listeners + {id});
      if s.listeners == {} then
        var u := t.(watching := true, subscribed := true);
        if u.hidden then u else Begin(u, interval, throws)
      else t
    case Unmount(id) =>
      var t := s.(listeners := s.listeners - {id});
      if t.listeners == {} then StopPolling(DisconnectStream(t)).(subscribed := false, watching := false) else t
    case VisibilityChanges(nowHidden, throws) =>
      var t := s.(hidden := nowHidden);
      if !s.watching then t
      else if nowHidden then StopPolling(DisconnectStream(t))
      else Begin(t, t.interval, throws)
    case StreamOpens(_) => StopPolling(s.(connected := true))
    case StreamErrs(_) => StartPolling(DisconnectStream(s).(primary := !s.primary), s.interval)
    case Tick(_) => if s.hidden then s else FetchStatus(s)
    case RateChanges(interval) =>
      var t := s.(interval := interval);
      if !s.connected && s.pollTimer.Some? then StartPolling(StopPolling(t), interval) else t
    case Refresh => FetchStatus(s)
    case GetLands => s.(inFlight := false, gets := if s.gets > 0 then s.gets - 1 else 0)
  }

  ghost predicate Runs(s: State, es: seq<Event>)
    decreases es
  {
    es == [] || (Enabled(s, es[0]) && Runs(Step(s, es[0]), es[1..]))
  }

  ghost function After(s: State, es: seq<Event>): State
    requires Runs(s, es)
    decreases es
  {
    if es == [] then s else After(Step(s, es[0]), es[1..])
  }

  // ---------------------------------------------------------------- the module

  class Feed {
    var listeners: set<nat>
    var watching: bool
    var subscribed: bool
    var pollTimer: Option<nat>
    var timers: map<nat, nat>
    var nextTimer: nat
    var eventSource: Option<nat>
    var streams: set<nat>
    var nextStream: nat
    var isSseConnected: bool
    var primary: bool
    var inFlight: bool
    var gets: nat
    var activePollInterval: nat
    var hidden: bool
    const supported: bool

    ghost function Abs(): State
      reads this
    {
      State(listeners, watching, subscribed, pollTimer, timers, nextTimer, eventSource, streams, nextStream,
            isSseConnected, primary, inFlight, gets, activePollInterval, hidden, supported)
    }

    constructor (hidden: bool, supported: bool)
      ensures IsFresh(Abs()) && Abs().hidden == hidden && Abs().supported == supported
    {
      listeners, watching, subscribed := {}, false, false;
      pollTimer, timers, nextTimer := None, map[], 0;
      eventSource, streams, nextStream, isSseConnected, primary := None, {}, 0, false, true;
      inFlight, gets, activePollInterval := false, 0, 2000;
      this.hidden := hidden;
      this.supported := supported;
    }

    method FetchStatusShared()
      modifies this
      ensures Abs() == FetchStatus(old(Abs()))
    {
      if inFlight { return; }
      inFlight := true;
      gets := gets + 1;
    }

    method StartSharedPolling(interval: nat)
      modifies this
      ensures Abs() == StartPolling(old(Abs()), interval)
    {
      if interval > 0 { activePollInterval := interval; }
      if pollTimer.Some? { return; }
      timers := timers[nextTimer := activePollInterval];
      pollTimer := Some(nextTimer);
      nextTimer := nextTimer + 1;
    }

    method StopSharedPolling()
      modifies this
      ensures Abs() == StopPolling(old(Abs()))
    {
      if pollTimer.Some? {
        timers := timers - {pollTimer.value};
        pollTimer := None;
      }
    }

    method DisconnectSse()
      modifies this
      ensures Abs() == DisconnectStream(old(Abs()))
    {
      if eventSource.Some? {
        streams := streams - {eventSource.value};
        eventSource := None;
      }
      isSseConnected := false;
    }

    method ConnectSse(throws: bool)
      modifies this
      ensures Abs() == ConnectStream(old(Abs()), throws)
    {
      if !supported || hidden { return; }
      if eventSource.Some? { DisconnectSse(); }
      if throws {
        DisconnectSse();
        StartSharedPolling(activePollInterval);
        return;
      }
      streams := streams + {nextStream};
      eventSource := Some(nextStream);
      nextStream := nextStream + 1;
    }

    method BeginVisible(interval: nat, throws: bool)
      modifies this
      ensures Abs() == Begin(old(Abs()), interval, throws)
    {
      FetchStatusShared();
      ConnectSse(throws);
      if !isSseConnected { StartSharedPolling(interval); }
    }

    method Subscribe(id: nat, pollInterval: Option<nat>, preferred: nat, throws: bool)
      requires id !in listeners && preferred > 0
      modifies this
      ensures Abs() == Step(old(Abs()), Mount(id, pollInterval, preferred, throws))
    {
      var effectiveInterval := if pollInterval.Some? && pollInterval.value > 0 then pollInterval.value else preferred;
      activePollInterval := effectiveInterval;
      if listeners == {} {
        listeners := listeners + {id};
        watching := true;
        subscribed := true;
        if !hidden { BeginVisible(effectiveInterval, throws); }
      } else {
        listeners := listeners + {id};
      }
    }

    method Unsubscribe(id: nat)
      requires id in listeners
      modifies this
      ensures Abs() == Step(old(Abs()), Unmount(id))
    {
      listeners := listeners - {id};
      if listeners == {} {
        DisconnectSse();
        StopSharedPolling();
        subscribed := false;
        watching := false;
      }
    }

    method HandleVisibilityChange(nowHidden: bool, throws: bool)
      modifies this
      ensures Abs() == Step(old(Abs()), VisibilityChanges(nowHidden, throws))
    {
      hidden := nowHidden;
      if !watching { return; }
      if hidden {
        DisconnectSse();
        StopSharedPolling();
      } else {
        BeginVisible(activePollInterval, throws);
      }
    }

    method OnStreamOpen(id: nat)
      requires id in streams
      modifies this
      ensures Abs() == Step(old(Abs()), StreamOpens(id))
    {
      isSseConnected := true;
      StopSharedPolling();
    }

    method OnStreamError(id: nat)
      requires id in streams
      modifies this
      ensures Abs() == Step(old(Abs()), StreamErrs(id))
    {
      DisconnectSse();
      primary := !primary;
      StartSharedPolling(activePollInterval);
    }

    method OnTick(id: nat)
      requires id in timers
      modifies this
      ensures Abs() == Step(old(Abs()), Tick(id))
    {
      if hidden { return; }
      FetchStatusShared();
    }

    method OnRateChange(interval: nat)
      requires subscribed && interval > 0
      modifies this
      ensures Abs() == Step(old(Abs()), RateChanges(interval))
    {
      activePollInterval := interval;
      if !isSseConnected && pollTimer.Some? {
        StopSharedPolling();
        StartSharedPolling(interval);
      }
    }

    method OnGetLanded()
      requires inFlight
      modifies this
      ensures Abs() == Step(old(Abs()), GetLands)
    {
      inFlight := false;
      gets := if gets > 0 then gets - 1 else 0;
    }
  }

  // ---------------------------------------------------------------- what every run keeps

  ghost predicate Inv(s: State) {
    && s.streams == (if s.eventSource.Some? then {s.eventSource.value} else {})
    && s.timers.Keys == (if s.pollTimer.Some? then {s.pollTimer.value} else {})
    && (s.pollTimer.Some? ==> s.pollTimer.value < s.nextTimer)
    && (s.connected ==> s.eventSource.Some? && s.pollTimer.None?)
    && (s.watching <==> s.listeners != {}) && (s.subscribed <==> s.listeners != {})
    && (s.listeners == {} || s.hidden ==> s.eventSource.None? && s.pollTimer.None?)
    && (s.listeners != {} && !s.hidden ==> s.pollTimer.Some? || s.connected)
    && s.gets == (if s.inFlight then 1 else 0)
    && s.interval > 0
  }

  /** Inv, except that the page may have neither stream nor timer yet. */
  ghost predicate Quiet(s: State) {
    && s.streams == (if s.eventSource.Some? then {s.eventSource.value} else {})
    && s.timers.Keys == (if s.pollTimer.Some? then {s.pollTimer.value} else {})
    && (s.pollTimer.Some? ==> s.pollTimer.value < s.nextTimer)
    && (s.connected ==> s.eventSource.Some? && s.pollTimer.None?)
    && s.watching && s.subscribed && s.listeners != {} && s.interval > 0
    && s.gets == (if s.inFlight then 1 else 0)
  }

  lemma BeginGivesInv(s: State, interval: nat, throws: bool)
    requires Quiet(s) && !s.hidden && interval > 0
    ensures Inv(Begin(s, interval, throws))
  {
    var f := FetchStatus(s);
    var t := ConnectStream(f, throws);
    assert Quiet(f);
    ConnectKeepsQuiet(f, throws);
    PollingGivesInv(t, interval);
  }

  lemma ConnectKeepsQuiet(s: State, throws: bool)
    requires Quiet(s) && !s.hidden
    ensures Quiet(ConnectStream(s, throws)) && !ConnectStream(s, throws).hidden
  {
    var t := DisconnectStream(s);
    assert t.streams == {};
  }

  lemma PollingGivesInv(s: State, interval: nat)
    requires Quiet(s) && !s.hidden && interval > 0
    ensures if s.connected then Inv(s) else Inv(StartPolling(s, interval))
  {
  }

  lemma StoppedIsEmpty(s: State)
    requires Inv(s)
    ensures var t := StopPolling(DisconnectStream(s)); t.streams == {} && t.timers == map[] && t.pollTimer.None? && t.eventSource.None? && !t.connected
  {
  }

  lemma RestartKeepsInv(s: State, interval: nat)
    requires Inv(s) && Enabled(s, RateChanges(interval))
    ensures Inv(Step(s, RateChanges(interval)))
  {
    if s.pollTimer.Some? {
      assert StopPolling(s.(interval := interval)).timers == map[];
    }
  }

  lemma FallBackKeepsInv(s: State, id: nat)
    requires Inv(s) && id in s.streams
    ensures Inv(Step(s, StreamErrs(id)))
  {
    var t := DisconnectStream(s);
    assert t.streams == {};
  }

  lemma OpenKeepsInv(s: State, id: nat)
    requires Inv(s) && id in s.streams
    ensures Inv(Step(s, StreamOpens(id)))
  {
    assert StopPolling(s).timers == map[];
  }

  lemma MountKeepsInv(s: State, id: nat, pollInterval: Option<nat>, preferred: nat, throws: bool)
    requires Inv(s) && Enabled(s, Mount(id, pollInterval, preferred, throws))
    ensures Inv(Step(s, Mount(id, pollInterval, preferred, throws)))
  {
    var interval := Effective(pollInterval, preferred);
    assert id in s.listeners + {id};
    if s.listeners == {} && !s.hidden {
      BeginGivesInv(s.(interval := interval, listeners := s.listeners + {id}, watching := true, subscribed := true), interval, throws);
      hide Inv;
    }
  }

  lemma VisibilityKeepsInv(s: State, nowHidden: bool, throws: bool)
    requires Inv(s)
    ensures Inv(Step(s, VisibilityChanges(nowHidden, throws)))
  {
    if s.watching {
      if nowHidden {
        StoppedIsEmpty(s);
        assert StopPolling(DisconnectStream(s.(hidden := true))) == StopPolling(DisconnectStream(s)).(hidden := true);
      } else {
        BeginGivesInv(s.(hidden := false), s.interval, throws);
        hide Inv;
      }
    }
  }

  lemma UnmountKeepsInv(s: State, id: nat)
    requires Inv(s) && id in s.listeners
    ensures Inv(Step(s, Unmount(id)))
  {
    StoppedIsEmpty(s);
    var t := s.(listeners := s.listeners - {id});
    assert StopPolling(DisconnectStream(t)) == StopPolling(DisconnectStream(s)).(listeners := t.listeners);
  }

  lemma GetKeepsInv(s: State, e: Event)
    requires Inv(s) && Enabled(s, e) && (e.Tick? || e.Refresh? || e.GetLands?)
    ensures Inv(Step(s, e))
  {
  }

  lemma StepKeepsInv(s: State, e: Event)
    requires Inv(s) && Enabled(s, e)
    ensures Inv(Step(s, e))
  {
    hide Inv, Step;
    match e
    case Mount(id, pollInterval, preferred, throws) => MountKeepsInv(s, id, pollInterval, preferred, throws);
    case VisibilityChanges(nowHidden, throws) => VisibilityKeepsInv(s, nowHidden, throws);
    case Unmount(id) => UnmountKeepsInv(s, id);
    case StreamOpens(id) => OpenKeepsInv(s, id);
    case StreamErrs(id) => FallBackKeepsInv(s, id);
    case RateChanges(interval) => RestartKeepsInv(s, interval);
    case _ => GetKeepsInv(s, e);
  }

  /** Over every interleaving: at most one stream and one timer, a connected stream means no timer,
      a hidden page or a page without listeners has neither, a visible page with a listener always
      has a timer or a connected stream, and at most one status request is on the wire. */
  lemma {:induction false} RunsKeepInv(s: State, es: seq<Event>)
    requires Inv(s) && Runs(s, es)
    ensures Inv(After(s, es))
    decreases es
  {
    if es != [] {
      StepKeepsInv(s, es[0]);
      RunsKeepInv(Step(s, es[0]), es[1..]);
    }
  }

  lemma PageRuns(s: State, es: seq<Event>)
    requires IsFresh(s) && Runs(s, es)
    ensures var t := After(s, es);
      && |t.streams| <= 1 && |t.timers| <= 1 && t.gets <= 1
      && (t.connected ==> |t.streams| == 1 && |t.timers| == 0)
      && (t.listeners == {} || t.hidden ==> |t.streams| == 0 && |t.timers| == 0)
      && (t.listeners != {} && !t.hidden ==> |t.timers| == 1 || t.connected)
  {
    RunsKeepInv(s, es);
    var t := After(s, es);
    assert |t.timers| == |t.timers.Keys|;
  }

  // ---------------------------------------------------------------- what each step does

  /** The step asks for the status: a tick or a refresh, the first listener of a visible page, a
      watched page coming into view. */
  predicate Asks(s: State, e: Event) {
    match e
    case Mount(_, _, _, _) => s.listeners == {} && !s.hidden
    case VisibilityChanges(nowHidden, _) => s.watching && !nowHidden
    case Tick(_) => !s.hidden
    case Refresh => true
    case _ => false
  }

  /** Starting the timer touches the timer and the rate only. */
  lemma PollingLeaves(s: State, interval: nat)
    ensures var t := StartPolling(s, interval);
      && t.inFlight == s.inFlight && t.gets == s.gets && t.streams == s.streams && t.connected == s.connected
      && t.listeners == s.listeners && t.hidden == s.hidden && t.interval == if interval > 0 then interval else s.interval
  {
    var t := if interval > 0 then s.(interval := interval) else s;
    assert t == s.(interval := t.interval);
    if s.pollTimer.None? {
      assert StartPolling(s, interval) ==
        t.(pollTimer := Some(s.nextTimer), timers := s.timers[s.nextTimer := t.interval], nextTimer := s.nextTimer + 1);
    }
  }

  lemma ConnectLeaves(s: State, throws: bool)
    ensures var t := ConnectStream(s, throws);
      && t.inFlight == s.inFlight && t.gets == s.gets
      && t.listeners == s.listeners && t.hidden == s.hidden && t.interval == s.interval
  {
    hide StartPolling;
    var t := if s.eventSource.Some? then DisconnectStream(s) else s;
    PollingLeaves(DisconnectStream(t), t.interval);
  }

  lemma BeginGets(s: State, interval: nat, throws: bool)
    ensures Begin(s, interval, throws).inFlight && Begin(s, interval, throws).gets == s.gets + if s.inFlight then 0 else 1
  {
    hide StartPolling, ConnectStream;
    var f := FetchStatus(s);
    ConnectLeaves(f, throws);
    PollingLeaves(ConnectStream(f, throws), interval);
  }

  ghost predicate Gets(s: State, e: Event, t: State) {
    if e.GetLands? then !t.inFlight && t.gets == 0
    else t.inFlight == (s.inFlight || Asks(s, e)) && t.gets == if t.inFlight then 1 else 0
  }

  lemma MountGets(s: State, e: Event)
    requires Enabled(s, e) && s.gets == (if s.inFlight then 1 else 0) && e.Mount?
    ensures Gets(s, e, Step(s, e))
  {
    hide Begin;
    var interval := Effective(e.pollInterval, e.preferred);
    BeginGets(s.(interval := interval, listeners := s.listeners + {e.id}, watching := true, subscribed := true), interval, e.streamThrows);
  }

  lemma VisibilityGets(s: State, e: Event)
    requires Enabled(s, e) && s.gets == (if s.inFlight then 1 else 0) && e.VisibilityChanges?
    ensures Gets(s, e, Step(s, e))
  {
    hide Begin;
    BeginGets(s.(hidden := e.nowHidden), s.interval, e.streamThrows);
  }

  lemma OtherGets(s: State, e: Event)
    requires Enabled(s, e) && s.gets == (if s.inFlight then 1 else 0) && !e.Mount? && !e.VisibilityChanges?
    ensures Gets(s, e, Step(s, e))
  {
    hide StartPolling, Begin, StopPolling, DisconnectStream;
    match e
    case StreamErrs(_) =>
      DisconnectLeaves(s);
      PollingLeaves(DisconnectStream(s).(primary := !s.primary), s.interval);
    case RateChanges(interval) =>
      StopLeaves(s.(interval := interval));
      PollingLeaves(StopPolling(s.(interval := interval)), interval);
    case Unmount(id) =>
      var t := s.(listeners := s.listeners - {id});
      DisconnectLeaves(t);
      StopLeaves(DisconnectStream(t));
    case StreamOpens(_) =>
      StopLeaves(s.(connected := true));
    case _ =>
  }

  /** A status request goes on the wire exactly when a step asks for it and none is out; it leaves the
      wire when its reply lands. */
  lemma GetsIff(s: State, e: Event)
    requires Enabled(s, e) && Inv(s)
    ensures Gets(s, e, Step(s, e))
  {
    assert s.gets == (if s.inFlight then 1 else 0);
    hide *;
    match e
    case Mount(_, _, _, _) => MountGets(s, e);
    case VisibilityChanges(_, _) => VisibilityGets(s, e);
    case _ => OtherGets(s, e);
  }

  /** A page that starts, or comes into view, counts as unconnected until its new stream opens. */
  lemma StartsUnconnected(s: State, e: Event)
    requires Inv(s) && Enabled(s, e) && s.supported && Asks(s, e) && (e.Mount? || e.VisibilityChanges?)
    ensures !Step(s, e).connected
  {
    assert s.connected ==> s.eventSource.Some?;
    hide Inv, Begin;
    match e
    case Mount(id, pollInterval, preferred, throws) =>
      var interval := Effective(pollInterval, preferred);
      BeginUnconnected(s.(interval := interval, listeners := s.listeners + {id}, watching := true, subscribed := true), interval, throws);
    case VisibilityChanges(nowHidden, throws) =>
      BeginUnconnected(s.(hidden := nowHidden), s.interval, throws);
  }

  lemma BeginUnconnected(s: State, interval: nat, throws: bool)
    requires s.supported && !s.hidden && (s.connected ==> s.eventSource.Some?)
    ensures !Begin(s, interval, throws).connected
  {
    hide StartPolling;
    var f := FetchStatus(s);
    var t := if f.eventSource.Some? then DisconnectStream(f) else f;
    PollingLeaves(DisconnectStream(t), t.interval);
    PollingLeaves(ConnectStream(f, throws), interval);
  }

  /** An opened stream counts as connected, and polling stops. */
  lemma OpenConnects(s: State, id: nat)
    requires Inv(s) && id in s.streams
    ensures var t := Step(s, StreamOpens(id)); t.connected && t.timers == map[] && t.streams == {id}
  {
    assert StopPolling(s).timers == map[];
  }

  lemma BeginLeaves(s: State, interval: nat, throws: bool)
    requires interval == s.interval
    ensures var t := Begin(s, interval, throws); t.listeners == s.listeners && t.hidden == s.hidden && t.interval == s.interval
  {
    hide StartPolling, ConnectStream;
    var f := FetchStatus(s);
    ConnectLeaves(f, throws);
    PollingLeaves(ConnectStream(f, throws), interval);
  }

  /** Who listens, whether the page is hidden, and the shared rate: the listener's own when it asks for
      a positive one, else the preferred one, until the user changes it. */
  ghost predicate Records(s: State, e: Event, t: State) {
    && t.listeners == (match e case Mount(id, _, _, _) => s.listeners + {id} case Unmount(id) => s.listeners - {id} case _ => s.listeners)
    && t.hidden == (match e case VisibilityChanges(nowHidden, _) => nowHidden case _ => s.hidden)
    && t.interval == match e
      case Mount(_, Some(own), preferred, _) => if own > 0 then own else preferred
      case Mount(_, None, preferred, _) => preferred
      case RateChanges(interval) => interval
      case _ => s.interval
  }

  lemma MountRecords(s: State, e: Event)
    requires Enabled(s, e) && e.Mount?
    ensures Records(s, e, Step(s, e))
  {
    hide Begin;
    var interval := Effective(e.pollInterval, e.preferred);
    BeginLeaves(s.(interval := interval, listeners := s.listeners + {e.id}, watching := true, subscribed := true), interval, e.streamThrows);
  }

  lemma VisibilityRecords(s: State, e: Event)
    requires Enabled(s, e) && e.VisibilityChanges?
    ensures Records(s, e, Step(s, e))
  {
    hide Begin;
    BeginLeaves(s.(hidden := e.nowHidden), s.interval, e.streamThrows);
  }

  lemma PollingRecords(s: State, e: Event)
    requires Enabled(s, e) && (e.StreamErrs? || e.RateChanges?)
    ensures Records(s, e, Step(s, e))
  {
    hide StartPolling;
    if e.StreamErrs? {
      PollingLeaves(DisconnectStream(s).(primary := !s.primary), s.interval);
    } else {
      PollingLeaves(StopPolling(s.(interval := e.interval)), e.interval);
    }
  }

  lemma OtherRecords(s: State, e: Event)
    requires Enabled(s, e) && !e.Mount? && !e.VisibilityChanges? && !e.StreamErrs? && !e.RateChanges?
    ensures Records(s, e, Step(s, e))
  {
    hide Begin, StartPolling, ConnectStream, StopPolling, DisconnectStream, FetchStatus;
    match e
    case Unmount(id) =>
      var t := s.(listeners := s.listeners - {id});
      DisconnectLeaves(t);
      StopLeaves(DisconnectStream(t));
    case StreamOpens(_) => StopLeaves(s.(connected := true));
    case _ => FetchLeaves(s);
  }

  lemma StopLeaves(s: State)
    ensures var t := StopPolling(s);
      t.listeners == s.listeners && t.hidden == s.hidden && t.interval == s.interval && t.inFlight == s.inFlight && t.gets == s.gets
  {
  }

  lemma DisconnectLeaves(s: State)
    ensures var t := DisconnectStream(s);
      t.listeners == s.listeners && t.hidden == s.hidden && t.interval == s.interval && t.inFlight == s.inFlight && t.gets == s.gets
  {
  }

  lemma FetchLeaves(s: State)
    ensures var t := FetchStatus(s); t.listeners == s.listeners && t.hidden == s.hidden && t.interval == s.interval
  {
  }

  lemma StepRecords(s: State, e: Event)
    requires Enabled(s, e)
    ensures Records(s, e, Step(s, e))
  {
    hide *;
    match e
    case Mount(_, _, _, _) => MountRecords(s, e);
    case VisibilityChanges(_, _) => VisibilityRecords(s, e);
    case StreamErrs(_) => PollingRecords(s, e);
    case RateChanges(_) => PollingRecords(s, e);
    case _ => OtherRecords(s, e);
  }

  // ---------------------------------------------------------------- no stream after an error

  /** The only steps that open a stream: the first listener of a visible page, and a watched page
      becoming visible. */
  predicate Reopens(s: State, e: Event) {
    s.supported && match e
      case Mount(_, _, _, throws) => s.listeners == {} && !s.hidden && !throws
      case VisibilityChanges(nowHidden, throws) => s.watching && !nowHidden && !throws
      case _ => false
  }

  lemma ConnectStreams(s: State, throws: bool)
    requires s.streams == {} && s.eventSource.None?
    ensures ConnectStream(s, throws).streams != {} <==> s.supported && !s.hidden && !throws
  {
    hide StartPolling;
    PollingLeaves(DisconnectStream(s), s.interval);
    if s.supported && !s.hidden && !throws { assert s.nextStream in ConnectStream(s, throws).streams; }
  }

  lemma BeginStreams(s: State, interval: nat, throws: bool)
    requires s.streams == {} && s.eventSource.None?
    ensures Begin(s, interval, throws).streams != {} <==> s.supported && !s.hidden && !throws
  {
    hide StartPolling, ConnectStream;
    ConnectStreams(FetchStatus(s), throws);
    PollingLeaves(ConnectStream(FetchStatus(s), throws), interval);
  }

  lemma StepStreams(s: State, e: Event)
    requires Inv(s) && Enabled(s, e) && s.streams == {}
    ensures Step(s, e).streams != {} <==> Reopens(s, e)
  {
    assert s.eventSource.None?;
    hide Inv, Begin, ConnectStream;
    match e
    case Mount(id, pollInterval, preferred, throws) =>
      var interval := Effective(pollInterval, preferred);
      BeginStreams(s.(interval := interval, listeners := s.listeners + {id}, watching := true, subscribed := true), interval, throws);
    case VisibilityChanges(nowHidden, throws) =>
      BeginStreams(s.(hidden := nowHidden), s.interval, throws);
    case _ =>
  }

  ghost predicate AlwaysStreamless(s: State, es: seq<Event>)
    requires Runs(s, es)
    decreases es
  {
    s.streams == {} && (es != [] ==> AlwaysStreamless(Step(s, es[0]), es[1..]))
  }

  ghost predicate EverReopens(s: State, es: seq<Event>)
    requires Runs(s, es)
    decreases es
  {
    es != [] && (Reopens(s, es[0]) || EverReopens(Step(s, es[0]), es[1..]))
  }

  lemma {:induction false} StreamlessIff(s: State, es: seq<Event>)
    requires Inv(s) && s.streams == {} && Runs(s, es)
    ensures AlwaysStreamless(s, es) <==> !EverReopens(s, es)
    decreases es
  {
    if es != [] {
      var t := Step(s, es[0]);
      StepKeepsInv(s, es[0]);
      StepStreams(s, es[0]);
      hide Inv, Step, Enabled, Reopens;
      if t.streams == {} { StreamlessIff(t, es[1..]); }
    }
  }

  /** After a stream error the endpoint alternates, but no stream is opened: the page polls without
      one throughout a run exactly when it contains no first listener and no return to view. */
  lemma PollsAfterErrorIff(s: State, id: nat, es: seq<Event>)
    requires Inv(s) && id in s.streams && Runs(Step(s, StreamErrs(id)), es)
    ensures var t := Step(s, StreamErrs(id));
      && t.primary != s.primary && t.pollTimer.Some?
      && (AlwaysStreamless(t, es) <==> !EverReopens(t, es))
  {
    var t := Step(s, StreamErrs(id));
    FallBackKeepsInv(s, id);
    assert DisconnectStream(s).streams == {};
    StreamlessIff(t, es);
  }

  // ---------------------------------------------------------------- the rate of the timer

  /** The running timer ticks at the shared rate. */
  ghost predicate RateAgrees(s: State) {
    forall id :: id in s.timers ==> s.timers[id] == s.interval
  }

  /** A further listener asks for another rate while the timer runs: the shared rate changes, the
      timer does not. */
  predicate SkewsRate(s: State, e: Event) {
    e.Mount? && s.listeners != {} && s.pollTimer.Some? && Effective(e.pollInterval, e.preferred) != s.interval
  }

  lemma MountRate(s: State, e: Event)
    requires Inv(s) && RateAgrees(s) && Enabled(s, e) && e.Mount?
    ensures RateAgrees(Step(s, e)) <==> !SkewsRate(s, e)
  {
    if s.pollTimer.Some? { assert s.pollTimer.value in s.timers; }
  }

  lemma PollingRate(s: State)
    requires RateAgrees(s)
    ensures RateAgrees(StartPolling(s, s.interval)) && StartPolling(s, s.interval).interval == s.interval
  {
  }

  lemma ConnectRate(s: State, throws: bool)
    requires RateAgrees(s)
    ensures RateAgrees(ConnectStream(s, throws)) && ConnectStream(s, throws).interval == s.interval
  {
    hide StartPolling;
    var t := if s.eventSource.Some? then DisconnectStream(s) else s;
    PollingRate(DisconnectStream(t));
  }

  lemma BeginRate(s: State, throws: bool)
    requires RateAgrees(s)
    ensures RateAgrees(Begin(s, s.interval, throws))
  {
    hide StartPolling, ConnectStream;
    ConnectRate(FetchStatus(s), throws);
    PollingRate(ConnectStream(FetchStatus(s), throws));
  }

  lemma StepRate(s: State, e: Event)
    requires Inv(s) && RateAgrees(s) && Enabled(s, e)
    ensures RateAgrees(Step(s, e)) <==> !SkewsRate(s, e)
  {
    match e
    case Mount(_, _, _, _) =>
      hide Step, Inv;
      MountRate(s, e);
    case VisibilityChanges(nowHidden, throws) =>
      hide Inv, Begin;
      if !nowHidden { BeginRate(s.(hidden := false), throws); }
    case RateChanges(interval) =>
      hide Step;
      RateChangeRepairs(s, interval);
    case _ =>
      hide Inv, Begin, ConnectStream;
  }

  ghost predicate AlwaysRate(s: State, es: seq<Event>)
    requires Runs(s, es)
    decreases es
  {
    RateAgrees(s) && (es != [] ==> AlwaysRate(Step(s, es[0]), es[1..]))
  }

  ghost predicate EverSkews(s: State, es: seq<Event>)
    requires Runs(s, es)
    decreases es
  {
    es != [] && (SkewsRate(s, es[0]) || EverSkews(Step(s, es[0]), es[1..]))
  }

  /** The timer ticks at the shared rate throughout a run exactly when no further listener asks for
      another rate while polling. */
  lemma {:induction false} RateAgreesIff(s: State, es: seq<Event>)
    requires Inv(s) && RateAgrees(s) && Runs(s, es)
    ensures AlwaysRate(s, es) <==> !EverSkews(s, es)
    decreases es
  {
    if es != [] {
      StepKeepsInv(s, es[0]);
      StepRate(s, es[0]);
      var t := Step(s, es[0]);
      if RateAgrees(t) {
        RateAgreesIff(t, es[1..]);
      } else {
        assert !AlwaysRate(t, es[1..]);
      }
    }
  }

  /** From a fresh visible page: a second listener asks for another rate, and the timer keeps the first. */
  lemma SkewedRun(s: State, slow: nat, fast: nat)
    requires IsFresh(s) && !s.hidden && slow > 0 && fast > 0 && slow != fast
    ensures var es := [Mount(0, None, slow, false), Mount(1, Some(fast), slow, false)];
      Runs(s, es) && var t := After(s, es); t.timers == map[0 := slow] && t.interval == fast
  {
    var e0, e1 := Mount(0, None, slow, false), Mount(1, Some(fast), slow, false);
    var s1 := Step(s, e0);
    assert s1.listeners == {0};
    var s2 := Step(s1, e1);
    assert [e0, e1][1..] == [e1] && [e1][1..] == [];
    assert Runs(s2, []) && After(s2, []) == s2;
    assert Runs(s1, [e1]) && After(s1, [e1]) == s2;
  }

  /** A rate change by the user repairs the disagreement. */
  lemma RateChangeRepairs(s: State, interval: nat)
    requires Inv(s) && Enabled(s, RateChanges(interval))
    ensures RateAgrees(Step(s, RateChanges(interval)))
  {
    if s.pollTimer.Some? { assert StopPolling(s).timers == map[]; }
  }
}
