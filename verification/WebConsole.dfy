/** The web console's connection: one socket, a retry timer with backoff, and the verdict when
    retrying stops. Socket and timer callbacks and the user's calls are steps, in any order. */
module WebConsole {
  import opened Text

  const BACKOFF_INITIAL_MS := 1000
  const BACKOFF_MAX_MS := 10000
  const BACKOFF_MULTIPLIER := 2
  const MAX_RAPID_FAILURES := 3
  const RAPID_CLOSE_WINDOW_MS := 2000
  const APP_STATUS_FLOOR := 4000

  datatype Connection = Connecting | Connected | Disconnected | Reconnecting | Unavailable
  datatype FailureKind = Unreachable | Refused | Dropped | Ended
  datatype Failure = Failure(kind: FailureKind, code: Option<int>, reason: string)
  datatype Socket = Handshaking | Open

  /** `armed` holds the timeouts the browser still has to run; `retryTimer` is the remembered id,
      which goes stale when its timeout runs. `deferred` is the connect scheduled by the mount. */
  datatype State = State(
    mounted: bool, connection: Connection, failure: Option<Failure>, hasOpened: bool, ws: Option<Socket>,
    retryTimer: Option<nat>, armed: map<nat, nat>, nextTimer: nat, backoffMs: nat, rapidFails: nat,
    openedAt: Option<int>, everOpened: bool, deferred: bool)

  const MOUNTED := State(true, Connecting, None, false, None, None, map[], 0, BACKOFF_INITIAL_MS, 0, None, false, true)

  predicate CleanClose(code: int) {
    code == 1000 || code == 1005
  }

  predicate Refusal(code: int) {
    code == 1002 || code == 1003 || code == 1008 || code == 1011 || code == 1013 || code >= APP_STATUS_FLOOR
  }

  // ---------------------------------------------------------------- steps

  datatype Event =
    | DeferredConnect
    | Opened(now: int)
    | Closed(code: int, reason: string, now: int, linkDown: bool)
    | TimerFires(id: nat)
    | Reconnect
    | Disconnect
    | Unmount

  predicate Enabled(s: State, e: Event) {
    match e
    case DeferredConnect => s.deferred
    case Opened(_) => s.ws == Some(Handshaking)
    case Closed(_, _, _, _) => s.ws.Some?
    case TimerFires(id) => id in s.armed
    case _ => true
  }

  function ClearRetry(s: State): State {
    match s.retryTimer
    case None => s
    case Some(id) => s.(armed := s.armed - {id}, retryTimer := None)
  }

  function Connect(s: State): State {
    if !s.mounted then s
    else s.(ws := Some(Handshaking), connection := Connecting, failure := None, openedAt := None)
  }

  function Doubled(backoffMs: nat): nat {
    if backoffMs * BACKOFF_MULTIPLIER < BACKOFF_MAX_MS then backoffMs * BACKOFF_MULTIPLIER else BACKOFF_MAX_MS
  }

  function ScheduleReconnect(s: State): State {
    var c := ClearRetry(s);
    c.(connection := Reconnecting, retryTimer := Some(s.nextTimer), armed := c.armed[s.nextTimer := s.backoffMs],
       nextTimer := s.nextTimer + 1, backoffMs := Doubled(s.backoffMs))
  }

  function Settle(s: State, kind: FailureKind, connection: Connection, code: Option<int>, reason: string): State {
    s.(failure := Some(Failure(kind, code, reason)), connection := connection)
  }

  function OnClose(s: State, code: int, reason: string, now: int, linkDown: bool): State {
    var t := s.(ws := None);
    var hasRun := s.openedAt.Some?;
    if !s.mounted then s
    else if hasRun && CleanClose(code) then Settle(t, Ended, Unavailable, Some(code), reason)
    else if Refusal(code) then Settle(t, Refused, Disconnected, Some(code), reason)
    else
      var rapid := !hasRun || now - s.openedAt.value < RAPID_CLOSE_WINDOW_MS;
      var u := t.(rapidFails := if rapid then s.rapidFails + 1 else 0);
      if u.rapidFails >= MAX_RAPID_FAILURES then
        if s.everOpened || linkDown then Settle(u, Dropped, Disconnected, Some(code), reason)
        else Settle(u, Unreachable, Unavailable, Some(code), reason)
      else ScheduleReconnect(u)
  }

  function Step(s: State, e: Event): State
    requires Enabled(s, e)
  {
    match e
    case DeferredConnect => Connect(s.(deferred := false))
    case Opened(now) =>
      if !s.mounted then s
      else s.(ws := Some(Open), openedAt := Some(now), everOpened := true, rapidFails := 0,
         backoffMs := BACKOFF_INITIAL_MS, hasOpened := true, connection := Connected)
    case Closed(code, reason, now, linkDown) => OnClose(s, code, reason, now, linkDown)
    case TimerFires(id) => Connect(s.(armed := s.armed - {id}))
    case Reconnect => Connect(ClearRetry(s).(rapidFails := 0, backoffMs := BACKOFF_INITIAL_MS, everOpened := false))
    case Disconnect =>
      var t := ClearRetry(s).(ws := None);
      if s.mounted then Settle(t, Ended, Unavailable, None, "") else t
    case Unmount => ClearRetry(s).(mounted := false, ws := None, deferred := false)
  }

  ghost predicate Runs(s: State, es: seq<Event>)
    decreases es
  {
    es == [] || (Enabled(s, es[0]) && Runs(Step(s, es[0]), es[1..]))
  }

  ghost function After(s: State, es: seq<Event>): State
    requires Runs(s, es)
    decreases es
  {
    if es == [] then s else After(Step(s, es[0]), es[1..])
  }

  // ---------------------------------------------------------------- the hook

  class Console {
    var mounted: bool
    var connection: Connection
    var failure: Option<Failure>
    var hasOpened: bool
    var ws: Option<Socket>
    var retryTimer: Option<nat>
    var armed: map<nat, nat>
    var nextTimer: nat
    var backoffMs: nat
    var rapidFails: nat
    var openedAt: Option<int>
    var everOpened: bool
    var deferred: bool

    ghost function Abs(): State
      reads this
    {
      State(mounted, connection, failure, hasOpened, ws, retryTimer, armed, nextTimer, backoffMs, rapidFails,
            openedAt, everOpened, deferred)
    }

    constructor ()
      ensures Abs() == MOUNTED
    {
      mounted, connection, failure, hasOpened, ws, deferred := true, Connecting, None, false, None, true;
      retryTimer, armed, nextTimer, backoffMs := None, map[], 0, BACKOFF_INITIAL_MS;
      rapidFails, openedAt, everOpened := 0, None, false;
    }

    method ClearRetryTimer()
      modifies this`retryTimer, this`armed
      ensures Abs() == ClearRetry(old(Abs()))
    {
      if retryTimer.Some? {
        armed := armed - {retryTimer.value};
        retryTimer := None;
      }
    }

    method ConnectNow()
      modifies this
      ensures Abs() == Connect(old(Abs()))
    {
      if !mounted { return; }
      ws := None;
      connection := Connecting;
      failure := None;
      openedAt := None;
      ws := Some(Handshaking);
    }

    method Schedule()
      requires mounted
      modifies this
      ensures Abs() == ScheduleReconnect(old(Abs()))
    {
      ClearRetryTimer();
      connection := Reconnecting;
      armed := armed[nextTimer := backoffMs];
      retryTimer := Some(nextTimer);
      nextTimer := nextTimer + 1;
      backoffMs := if backoffMs * BACKOFF_MULTIPLIER < BACKOFF_MAX_MS then backoffMs * BACKOFF_MULTIPLIER else BACKOFF_MAX_MS;
    }

    method SettleFailed(kind: FailureKind, state: Connection, code: Option<int>, reason: string)
      modifies this`failure, this`connection
      ensures Abs() == Settle(old(Abs()), kind, state, code, reason)
    {
      failure := Some(Failure(kind, code, reason));
      connection := state;
    }

    method DeferredFires()
      requires deferred
      modifies this
      ensures Abs() == Step(old(Abs()), DeferredConnect)
    {
      deferred := false;
      ConnectNow();
    }

    method OnOpen(now: int)
      requires ws == Some(Handshaking)
      modifies this
      ensures Abs() == Step(old(Abs()), Opened(now))
    {
      if !mounted { return; }
      ws := Some(Open);
      openedAt := Some(now);
      everOpened := true;
      rapidFails := 0;
      backoffMs := BACKOFF_INITIAL_MS;
      hasOpened := true;
      connection := Connected;
    }

    method OnCloseEvent(code: int, reason: string, now: int, linkDown: bool)
      requires ws.Some?
      modifies this
      ensures Abs() == Step(old(Abs()), Closed(code, reason, now, linkDown))
    {
      if !mounted { return; }
      ws := None;
      var attemptOpened := openedAt.Some?;
      var wasRapid := !attemptOpened || now - openedAt.value < RAPID_CLOSE_WINDOW_MS;
      if attemptOpened && CleanClose(code) {
        SettleFailed(Ended, Unavailable, Some(code), reason);
        return;
      }
      if Refusal(code) {
        SettleFailed(Refused, Disconnected, Some(code), reason);
        return;
      }
      if wasRapid { rapidFails := rapidFails + 1; } else { rapidFails := 0; }
      if rapidFails >= MAX_RAPID_FAILURES {
        if everOpened || linkDown {
          SettleFailed(Dropped, Disconnected, Some(code), reason);
        } else {
          SettleFailed(Unreachable, Unavailable, Some(code), reason);
        }
        return;
      }
      Schedule();
    }

    method RetryFires(id: nat)
      requires id in armed
      modifies this
      ensures Abs() == Step(old(Abs()), TimerFires(id))
    {
      armed := armed - {id};
      if mounted { ConnectNow(); }
    }

    method ReconnectNow()
      modifies this
      ensures Abs() == Step(old(Abs()), Reconnect)
    {
      ClearRetryTimer();
      rapidFails := 0;
      backoffMs := BACKOFF_INITIAL_MS;
      everOpened := false;
      ConnectNow();
    }

    method DisconnectNow()
      modifies this
      ensures Abs() == Step(old(Abs()), Disconnect)
    {
      ClearRetryTimer();
      if ws.Some? { ws := None; }
      if mounted { SettleFailed(Ended, Unavailable, None, ""); }
    }

    method Unmounted()
      modifies this
      ensures Abs() == Step(old(Abs()), Unmount)
    {
      deferred := false;
      mounted := false;
      ClearRetryTimer();
      if ws.Some? { ws := None; }
    }
  }

  // ---------------------------------------------------------------- what every run keeps

  predicate Settled(s: State) {
    s.connection == Disconnected || s.connection == Unavailable
  }

  /** Facts of every state of every run. */
  ghost predicate Inv(s: State) {
    && (s.failure.Some? <==> Settled(s))
    && (s.connection == Connected ==> s.ws == Some(Open) || !s.mounted)
    && (s.ws.Some? ==> s.mounted && s.connection == if s.ws == Some(Open) then Connected else Connecting)
    && (s.ws.None? && s.connection == Connecting && s.mounted ==> s.deferred)
    && (s.deferred ==> s.mounted)
    && (s.ws.Some? ==> (s.openedAt.Some? <==> s.ws == Some(Open)))
    && (s.ws == Some(Open) ==> s.rapidFails == 0 && s.backoffMs == BACKOFF_INITIAL_MS)
    && (forall id :: id in s.armed ==> id < s.nextTimer && s.armed[id] <= 4000 && s.mounted && s.retryTimer == Some(id))
    && (s.retryTimer.Some? ==> s.retryTimer.value < s.nextTimer)
    && (s.rapidFails == 0 ==> s.backoffMs <= 2000)
    && (s.rapidFails == 1 ==> s.backoffMs <= 4000)
    && (s.rapidFails == 2 ==> s.backoffMs <= 8000)
    && (s.connection == Reconnecting && s.mounted ==> s.rapidFails < MAX_RAPID_FAILURES && s.armed != map[])
    && (s.failure.Some? && s.failure.value.kind == Unreachable ==> !s.everOpened)
  }

  lemma ClearedHasNone(s: State)
    requires Inv(s)
    ensures ClearRetry(s).armed == map[]
  {
    if s.retryTimer.Some? {
      assert forall id :: id in s.armed ==> id == s.retryTimer.value;
    }
  }

  lemma RetryKeepsInv(s: State, fails: nat)
    requires Inv(s) && s.ws.Some? && fails < MAX_RAPID_FAILURES
    requires fails == s.rapidFails + 1 || (fails == 0 && s.ws == Some(Open))
    ensures Inv(ScheduleReconnect(s.(ws := None, rapidFails := fails)))
  {
    ClearedHasNone(s);
    var u := s.(ws := None, rapidFails := fails);
    assert ClearRetry(u).armed == ClearRetry(s).armed == map[];
    assert u.nextTimer in ScheduleReconnect(u).armed;
  }

  lemma SettleKeepsInv(s: State, fails: nat, kind: FailureKind, connection: Connection, code: int, reason: string)
    requires Inv(s) && s.ws.Some? && (connection == Disconnected || connection == Unavailable)
    requires fails == s.rapidFails || fails >= MAX_RAPID_FAILURES
    requires kind == Unreachable ==> !s.everOpened
    ensures Inv(Settle(s.(ws := None, rapidFails := fails), kind, connection, Some(code), reason))
  {
  }

  lemma CloseKeepsInv(s: State, code: int, reason: string, now: int, linkDown: bool)
    requires Inv(s) && s.ws.Some?
    ensures Inv(OnClose(s, code, reason, now, linkDown))
  {
    hide ScheduleReconnect, Settle;
    var hasRun := s.openedAt.Some?;
    var fails := if !hasRun || now - s.openedAt.value < RAPID_CLOSE_WINDOW_MS then s.rapidFails + 1 else 0;
    if hasRun && CleanClose(code) {
      SettleKeepsInv(s, s.rapidFails, Ended, Unavailable, code, reason);
    } else if Refusal(code) {
      SettleKeepsInv(s, s.rapidFails, Refused, Disconnected, code, reason);
    } else if fails < MAX_RAPID_FAILURES {
      RetryKeepsInv(s, fails);
    } else if s.everOpened || linkDown {
      SettleKeepsInv(s, fails, Dropped, Disconnected, code, reason);
    } else {
      SettleKeepsInv(s, fails, Unreachable, Unavailable, code, reason);
    }
    hide Inv;
  }

  lemma ConnectKeepsInv(s: State)
    requires s.mounted && s.armed == map[] && (s.retryTimer.Some? ==> s.retryTimer.value < s.nextTimer)
    requires s.rapidFails == 0 ==> s.backoffMs <= 2000
    requires s.rapidFails == 1 ==> s.backoffMs <= 4000
    requires s.rapidFails == 2 ==> s.backoffMs <= 8000
    ensures Inv(Connect(s))
  {
  }

  lemma OpenedKeepsInv(s: State, now: int)
    requires Inv(s) && Enabled(s, Opened(now))
    ensures Inv(Step(s, Opened(now)))
  {
  }

  /** The deferred connect leaves an armed retry alone. */
  lemma DeferredKeepsInv(s: State)
    requires Inv(s) && s.deferred
    ensures Inv(Step(s, DeferredConnect))
  {
  }

  lemma TimerKeepsInv(s: State, id: nat)
    requires Inv(s) && id in s.armed
    ensures Inv(Step(s, TimerFires(id)))
  {
    assert forall x :: x in s.armed ==> x == id;
    assert s.armed - {id} == map[];
    ConnectKeepsInv(s.(armed := s.armed - {id}));
    hide Inv;
  }

  lemma ReconnectKeepsInv(s: State)
    requires Inv(s)
    ensures Inv(Step(s, Reconnect))
  {
    ClearedHasNone(s);
    if s.mounted {
      ConnectKeepsInv(ClearRetry(s).(rapidFails := 0, backoffMs := BACKOFF_INITIAL_MS, everOpened := false));
      hide Inv;
    }
  }

  lemma DropKeepsInv(s: State, e: Event)
    requires Inv(s) && (e.Disconnect? || e.Unmount?)
    ensures Inv(Step(s, e))
  {
    ClearedHasNone(s);
  }

  lemma StepKeepsInv(s: State, e: Event)
    requires Inv(s) && Enabled(s, e)
    ensures Inv(Step(s, e))
  {
    hide Inv, Step;
    match e
    case DeferredConnect => DeferredKeepsInv(s);
    case Opened(now) => OpenedKeepsInv(s, now);
    case Closed(code, reason, now, linkDown) => ClosedKeepsInv(s, code, reason, now, linkDown);
    case TimerFires(id) => TimerKeepsInv(s, id);
    case Reconnect => ReconnectKeepsInv(s);
    case _ => DropKeepsInv(s, e);
  }

  lemma ClosedKeepsInv(s: State, code: int, reason: string, now: int, linkDown: bool)
    requires Inv(s) && s.ws.Some?
    ensures Inv(Step(s, Closed(code, reason, now, linkDown)))
  {
    hide Inv, OnClose;
    CloseKeepsInv(s, code, reason, now, linkDown);
  }

  /** In every run of one mount: a failure is shown exactly in the two settled states, no armed
      delay exceeds four seconds, so the ten-second cap is never reached, at most one timer is
      armed, and "unreachable" is shown only when no attempt since the last manual reconnect opened. */
  lemma {:induction false} RunsKeepInv(s: State, es: seq<Event>)
    requires Inv(s) && Runs(s, es)
    ensures Inv(After(s, es))
    decreases es
  {
    if es != [] {
      StepKeepsInv(s, es[0]);
      RunsKeepInv(Step(s, es[0]), es[1..]);
    }
  }

  lemma MountedRuns(es: seq<Event>)
    requires Runs(MOUNTED, es)
    ensures var s := After(MOUNTED, es);
      && (s.failure.Some? <==> s.connection == Disconnected || s.connection == Unavailable)
      && (forall id :: id in s.armed ==> s.armed[id] <= 4000)
      && |s.armed| <= 1
      && (s.failure.Some? && s.failure.value.kind == Unreachable ==>
            forall i :: 0 <= i < |es| && es[i].Opened? ==> exists j :: i < j < |es| && es[j].Reconnect?)
  {
    RunsKeepInv(MOUNTED, es);
    var s := After(MOUNTED, es);
    if s.retryTimer.Some? {
      assert s.armed.Keys <= {s.retryTimer.value};
      SubsetSize(s.armed.Keys, {s.retryTimer.value});
    } else {
      assert s.armed.Keys == {};
    }
    EverOpenedTracks(MOUNTED, es);
    TrackMeans(false, es);
  }

  lemma SubsetSize(a: set<nat>, b: set<nat>)
    requires a <= b
    ensures |a| <= |b|
  {
    if x :| x in a { SubsetSize(a - {x}, b - {x}); }
  }

  /** Whether an attempt opened since the last manual reconnect. */
  ghost function Track(hasRun: bool, es: seq<Event>): bool
    decreases es
  {
    if es == [] then hasRun
    else Track(if es[0].Opened? then true else if es[0].Reconnect? then false else hasRun, es[1..])
  }

  lemma StepTracks(s: State, e: Event)
    requires Inv(s) && Enabled(s, e)
    ensures Step(s, e).everOpened == if e.Opened? then true else if e.Reconnect? then false else s.everOpened
  {
    assert s.ws.Some? ==> s.mounted;
    hide Inv, CleanClose, Refusal;
  }

  lemma {:induction false} EverOpenedTracks(s: State, es: seq<Event>)
    requires Inv(s) && Runs(s, es)
    ensures After(s, es).everOpened == Track(s.everOpened, es)
    decreases es
  {
    if es != [] {
      StepKeepsInv(s, es[0]);
      StepTracks(s, es[0]);
      hide Inv, Step;
      EverOpenedTracks(Step(s, es[0]), es[1..]);
    }
  }

  lemma {:induction false} TrackMeans(hasRun: bool, es: seq<Event>)
    ensures Track(hasRun, es) <==>
      || (exists i :: 0 <= i < |es| && es[i].Opened? && forall j :: i < j < |es| ==> !es[j].Reconnect?)
      || (hasRun && forall j :: 0 <= j < |es| ==> !es[j].Reconnect?)
    decreases es
  {
    if es != [] {
      var next := if es[0].Opened? then true else if es[0].Reconnect? then false else hasRun;
      TrackMeans(next, es[1..]);
      assert forall j :: 0 < j < |es| ==> es[j] == es[1..][j - 1];
      if i :| 0 <= i < |es| - 1 && es[1..][i].Opened? && forall j :: i < j < |es| - 1 ==> !es[1..][j].Reconnect? {
        assert es[i + 1].Opened?;
      }
      if i :| 0 < i < |es| && es[i].Opened? && forall j :: i < j < |es| ==> !es[j].Reconnect? {
        assert es[1..][i - 1].Opened?;
        assert forall j :: i - 1 < j < |es| - 1 ==> es[1..][j] == es[j + 1];
      }
    }
  }

  // ---------------------------------------------------------------- the verdict of a close

  /** The verdict on a closed socket, by the close codes of RFC 6455, section 7.4: a session that ran
      and was closed with 1000, or without a code (1005), has ended; a code the server chose refuses;
      any other close is retried, until three in a row never opened or lasted less than two seconds. */
  ghost predicate Verdict(s: State, t: State, code: int, reason: string, now: int, linkDown: bool) {
    var hasRun := s.openedAt.Some?;
    var rapid := !hasRun || now - s.openedAt.value < 2000;
    var fails := if rapid then s.rapidFails + 1 else 0;
    t.ws == None &&
      if hasRun && (code == 1000 || code == 1005) then
        t.connection == Unavailable && t.failure == Some(Failure(Ended, Some(code), reason)) && t.armed == s.armed
      else if code in {1002, 1003, 1008, 1011, 1013} || code >= 4000 then
        t.connection == Disconnected && t.failure == Some(Failure(Refused, Some(code), reason)) && t.armed == s.armed
      else if fails >= 3 then
        && t.armed == s.armed
        && if s.everOpened || linkDown then t.connection == Disconnected && t.failure == Some(Failure(Dropped, Some(code), reason))
           else t.connection == Unavailable && t.failure == Some(Failure(Unreachable, Some(code), reason))
      else
        && t.connection == Reconnecting && t.failure == s.failure && t.rapidFails == fails
        && t.armed == map[s.nextTimer := s.backoffMs]
        && t.backoffMs == if 2 * s.backoffMs < 10000 then 2 * s.backoffMs else 10000
  }

  lemma RetryArms(s: State, fails: nat)
    requires Inv(s) && s.ws.Some?
    ensures var t := ScheduleReconnect(s.(ws := None, rapidFails := fails));
      && t.ws == None && t.connection == Reconnecting && t.failure == s.failure && t.rapidFails == fails
      && t.armed == map[s.nextTimer := s.backoffMs] && t.backoffMs == if 2 * s.backoffMs < 10000 then 2 * s.backoffMs else 10000
  {
    ClearedHasNone(s);
    var u := s.(ws := None, rapidFails := fails);
    assert ClearRetry(u).armed == ClearRetry(s).armed == map[];
  }

  lemma CloseVerdict(s: State, code: int, reason: string, now: int, linkDown: bool)
    requires Inv(s) && s.ws.Some?
    ensures Verdict(s, Step(s, Closed(code, reason, now, linkDown)), code, reason, now, linkDown)
  {
    assert s.mounted;
    hide Inv, ScheduleReconnect;
    var fails := if !s.openedAt.Some? || now - s.openedAt.value < RAPID_CLOSE_WINDOW_MS then s.rapidFails + 1 else 0;
    if s.openedAt.Some? && CleanClose(code) {
    } else if Refusal(code) {
    } else if fails < MAX_RAPID_FAILURES {
      RetryArms(s, fails);
    }
  }

  /** A connect, by the retry timer, the mount or the user, shows no failure and waits for a new
      socket; the user's forgets the failures and the delay, and disarms the timer. */
  lemma ConnectsAfresh(s: State, e: Event)
    requires Inv(s) && s.mounted && Enabled(s, e) && (e.DeferredConnect? || e.TimerFires? || e.Reconnect?)
    ensures var t := Step(s, e);
      && t.ws == Some(Handshaking) && t.connection == Connecting && t.failure == None && t.openedAt == None && t.hasOpened == s.hasOpened
      && t.deferred == (s.deferred && !e.DeferredConnect?)
      && (if e.Reconnect? then t.armed == map[] && t.rapidFails == 0 && t.backoffMs == 1000 && !t.everOpened
          else t.rapidFails == s.rapidFails && t.backoffMs == s.backoffMs && t.everOpened == s.everOpened)
      && (e.TimerFires? ==> t.armed == map[]) && (e.DeferredConnect? ==> t.armed == s.armed)
  {
    ClearedHasNone(s);
    if e.TimerFires? { FiredIsLast(s, e.id); }
  }

  /** An opened socket is connected, and forgets the failures and the delay. */
  lemma OpensClean(s: State, now: int)
    requires Inv(s) && s.ws == Some(Handshaking)
    ensures var t := Step(s, Opened(now));
      && t.ws == Some(Open) && t.connection == Connected && t.failure == None && t.hasOpened && t.everOpened
      && t.openedAt == Some(now) && t.rapidFails == 0 && t.backoffMs == 1000 && t.armed == s.armed && t.deferred == s.deferred
  {
  }

  /** The user's disconnect drops socket and timer and shows an ended session. */
  lemma DisconnectEnds(s: State)
    requires Inv(s) && s.mounted
    ensures var t := Step(s, Disconnect);
      && t.ws == None && t.armed == map[] && t.connection == Unavailable && t.failure == Some(Failure(Ended, None, ""))
      && t.hasOpened == s.hasOpened && t.deferred == s.deferred
  {
    ClearedHasNone(s);
  }

  /** After the unmount no socket, timer or deferred connect is left. */
  lemma UnmountStops(s: State)
    requires Inv(s)
    ensures var t := Step(s, Unmount); !t.mounted && t.ws == None && t.armed == map[] && !t.deferred
  {
    ClearedHasNone(s);
  }

  lemma {:induction false} RunSnoc(s: State, es: seq<Event>, e: Event)
    requires Runs(s, es) && Enabled(After(s, es), e)
    ensures Runs(s, es + [e]) && After(s, es + [e]) == Step(After(s, es), e)
    decreases es
  {
    if es == [] {
      assert es + [e] == [e] && [e][1..] == [];
      assert Runs(Step(s, e), []) && After(Step(s, e), []) == Step(s, e);
    } else {
      hide Step, Enabled;
      assert (es + [e])[1..] == es[1..] + [e];
      RunSnoc(Step(s, es[0]), es[1..], e);
    }
  }

  /** An attempt that never opens closes abnormally (1006), and a timer makes the next. */
  lemma FailsOnce(s: State, es: seq<Event>, reason: string, linkDown: bool)
    requires Inv(s) && Runs(s, es) && Inv(After(s, es)) && After(s, es).ws == Some(Handshaking) && !After(s, es).everOpened
    ensures var e, t := Closed(1006, reason, 0, linkDown), After(s, es);
      Runs(s, es + [e]) && var u := After(s, es + [e]);
      && !u.everOpened && u.ws == None
      && (t.rapidFails < 2 ==> u.armed == map[t.nextTimer := t.backoffMs] && u.rapidFails == t.rapidFails + 1
                               && u.backoffMs == (if 2 * t.backoffMs < 10000 then 2 * t.backoffMs else 10000) && u.nextTimer == t.nextTimer + 1)
      && (t.rapidFails >= 2 ==> u.failure == Some(Failure(if linkDown then Dropped else Unreachable, Some(1006), reason)))
  {
    var t := After(s, es);
    CloseVerdict(t, 1006, reason, 0, linkDown);
    assert t.openedAt == None && t.mounted;
    RunSnoc(s, es, Closed(1006, reason, 0, linkDown));
    hide Inv, ClearRetry;
  }

  /** From the mount, three attempts that never open: retries after one and two seconds, then the
      verdict, "unreachable" while the device answers, "dropped" while the link is down. */
  lemma FailingMount(reason: string, linkDown: bool)
    ensures var close := Closed(1006, reason, 0, linkDown);
      && Runs(MOUNTED, [DeferredConnect, close]) && After(MOUNTED, [DeferredConnect, close]).armed == map[0 := 1000]
      && Runs(MOUNTED, [DeferredConnect, close, TimerFires(0), close])
      && After(MOUNTED, [DeferredConnect, close, TimerFires(0), close]).armed == map[1 := 2000]
      && Runs(MOUNTED, [DeferredConnect, close, TimerFires(0), close, TimerFires(1), close])
      && After(MOUNTED, [DeferredConnect, close, TimerFires(0), close, TimerFires(1), close]).failure
           == Some(Failure(if linkDown then Dropped else Unreachable, Some(1006), reason))
  {
    var close := Closed(1006, reason, 0, linkDown);
    var a1, a2 := [DeferredConnect], [DeferredConnect, close];
    var a3, a4 := a2 + [TimerFires(0)], [DeferredConnect, close, TimerFires(0), close];
    var a5 := a4 + [TimerFires(1)];
    assert [] + a1 == a1 && a1 + [close] == a2 && a3 + [close] == a4;
    assert a5 + [close] == [DeferredConnect, close, TimerFires(0), close, TimerFires(1), close];
    assert Inv(MOUNTED) && MOUNTED.deferred && MOUNTED.mounted;
    assert Runs(MOUNTED, []) && After(MOUNTED, []) == MOUNTED;
    RunSnoc(MOUNTED, [], DeferredConnect);
    ConnectsAfresh(MOUNTED, DeferredConnect);
    var s1 := Step(MOUNTED, DeferredConnect);
    assert s1.nextTimer == 0 && s1.rapidFails == 0 && s1.backoffMs == 1000 && !s1.everOpened;
    hide Step, Inv;
    RunsKeepInv(MOUNTED, a1);
    FailsOnce(MOUNTED, a1, reason, linkDown);
    RetryRuns(MOUNTED, a2, 0);
    FailsOnce(MOUNTED, a3, reason, linkDown);
    RetryRuns(MOUNTED, a4, 1);
    FailsOnce(MOUNTED, a5, reason, linkDown);
  }

  lemma RetryRuns(s: State, es: seq<Event>, id: nat)
    requires Inv(s) && Runs(s, es) && id in After(s, es).armed
    ensures var e, t := TimerFires(id), After(s, es);
      Runs(s, es + [e]) && var u := After(s, es + [e]);
      Inv(u) && u.ws == Some(Handshaking) && u.rapidFails == t.rapidFails && u.backoffMs == t.backoffMs
      && u.everOpened == t.everOpened && u.nextTimer == t.nextTimer
  {
    RunsKeepInv(s, es);
    assert After(s, es).mounted;
    RunSnoc(s, es, TimerFires(id));
    RunsKeepInv(s, es + [TimerFires(id)]);
    hide Inv;
  }

  // ---------------------------------------------------------------- the timer and the state

  /** A retry timer is armed exactly while "reconnecting" is shown. */
  ghost predicate TimerAgrees(s: State) {
    s.armed != map[] <==> s.mounted && s.connection == Reconnecting
  }

  ghost predicate AlwaysAgrees(s: State, es: seq<Event>)
    requires Runs(s, es)
    decreases es
  {
    TimerAgrees(s) && (es != [] ==> AlwaysAgrees(Step(s, es[0]), es[1..]))
  }

  /** The mount's deferred connect runs while a retry is already scheduled, which takes a manual
      reconnect before it. */
  ghost predicate DeferredOvertaken(s: State, es: seq<Event>)
    requires Runs(s, es)
    decreases es
  {
    es != [] && ((es[0].DeferredConnect? && s.connection == Reconnecting) || DeferredOvertaken(Step(s, es[0]), es[1..]))
  }

  lemma ScheduleArms(s: State)
    requires s.mounted
    ensures TimerAgrees(ScheduleReconnect(s))
  {
    assert s.nextTimer in ScheduleReconnect(s).armed;
  }

  lemma SettleDisarmed(s: State, kind: FailureKind, connection: Connection, code: int, reason: string)
    requires s.armed == map[] && connection != Reconnecting
    ensures TimerAgrees(Settle(s, kind, connection, Some(code), reason))
  {
  }

  lemma CloseTimer(s: State, code: int, reason: string, now: int, linkDown: bool)
    requires Inv(s) && TimerAgrees(s) && s.ws.Some?
    ensures TimerAgrees(OnClose(s, code, reason, now, linkDown))
  {
    assert s.mounted && s.armed == map[];
    hide Inv, ScheduleReconnect, Settle, TimerAgrees;
    var hasRun := s.openedAt.Some?;
    var fails := if !hasRun || now - s.openedAt.value < RAPID_CLOSE_WINDOW_MS then s.rapidFails + 1 else 0;
    var t := s.(ws := None);
    var u := t.(rapidFails := fails);
    if hasRun && CleanClose(code) {
      SettleDisarmed(t, Ended, Unavailable, code, reason);
    } else if Refusal(code) {
      SettleDisarmed(t, Refused, Disconnected, code, reason);
    } else if fails < MAX_RAPID_FAILURES {
      ScheduleArms(u);
    } else if s.everOpened || linkDown {
      SettleDisarmed(u, Dropped, Disconnected, code, reason);
    } else {
      SettleDisarmed(u, Unreachable, Unavailable, code, reason);
    }
  }

  lemma FiredIsLast(s: State, id: nat)
    requires Inv(s) && id in s.armed
    ensures s.armed - {id} == map[]
  {
    assert forall x :: x in s.armed ==> x == id;
  }

  lemma StepTimer(s: State, e: Event)
    requires Inv(s) && TimerAgrees(s) && Enabled(s, e)
    ensures TimerAgrees(Step(s, e)) <==> !(e.DeferredConnect? && s.connection == Reconnecting)
  {
    match e
    case Closed(code, reason, now, linkDown) =>
      hide Inv, OnClose;
      CloseTimer(s, code, reason, now, linkDown);
    case TimerFires(id) =>
      FiredIsLast(s, id);
    case _ =>
      ClearedHasNone(s);
      hide OnClose;
  }

  lemma {:induction false} TimerAgreesIff(s: State, es: seq<Event>)
    requires Inv(s) && TimerAgrees(s) && Runs(s, es)
    ensures AlwaysAgrees(s, es) <==> !DeferredOvertaken(s, es)
    decreases es
  {
    if es != [] {
      StepKeepsInv(s, es[0]);
      StepTimer(s, es[0]);
      var t := Step(s, es[0]);
      if TimerAgrees(t) {
        TimerAgreesIff(t, es[1..]);
      } else {
        assert !AlwaysAgrees(t, es[1..]);
      }
    }
  }

  /** Over every run of a mount, "armed iff reconnecting" holds throughout exactly when the deferred
      connect does not run into a scheduled retry. */
  lemma MountedTimerAgreesIff(es: seq<Event>)
    requires Runs(MOUNTED, es)
    ensures AlwaysAgrees(MOUNTED, es) <==> !DeferredOvertaken(MOUNTED, es)
  {
    TimerAgreesIff(MOUNTED, es);
  }

  lemma RunCons(s: State, e: Event, es: seq<Event>)
    requires Enabled(s, e) && Runs(Step(s, e), es)
    ensures Runs(s, [e] + es) && After(s, [e] + es) == After(Step(s, e), es)
  {
    hide Step, Enabled;
    assert ([e] + es)[1..] == es;
  }

  /** The overtaken run exists: reconnect at once, the attempt fails, then the deferred connect. */
  lemma OvertakenRun()
    ensures var es := [Reconnect, Closed(1006, "", 0, false), DeferredConnect];
      Runs(MOUNTED, es) && After(MOUNTED, es).connection == Connecting && After(MOUNTED, es).armed != map[]
  {
    var e0, e1, e2 := Reconnect, Closed(1006, "", 0, false), DeferredConnect;
    var s1 := Step(MOUNTED, e0);
    var s2 := Step(s1, e1);
    var s3 := Step(s2, e2);
    assert 0 in s3.armed;
    RunCons(s2, e2, []);
    RunCons(s1, e1, [e2]);
    RunCons(MOUNTED, e0, [e1, e2]);
    assert [e2] + [] == [e2];
  }

  // ---------------------------------------------------------------- giving up

  /** No manual reconnect, and no attempt that opens. */
  predicate NoHelp(es: seq<Event>) {
    forall i :: 0 <= i < |es| ==> !es[i].Opened? && !es[i].Reconnect?
  }

  lemma NoHelpTail(es: seq<Event>)
    requires NoHelp(es) && es != []
    ensures NoHelp(es[1..])
  {
    assert forall i :: 0 <= i < |es[1..]| ==> es[1..][i] == es[i + 1];
  }

  /** The retries a run makes. */
  function Attempts(es: seq<Event>): nat {
    if es == [] then 0 else (if es[0].TimerFires? then 1 else 0) + Attempts(es[1..])
  }

  function Minus(a: nat, b: nat): nat {
    if a >= b then a - b else 0
  }

  function Max(a: nat, b: nat): nat {
    if a >= b then a else b
  }

  /** The retries still possible without help: from the timer or the socket, and from the connect
      the mount deferred. */
  function Potential(s: State): nat {
    if !s.mounted then 0
    else Max(Underway(s), if s.deferred then Minus(2, s.rapidFails) else 0)
  }

  function Underway(s: State): nat {
    if s.armed != map[] then Max(1, Minus(3, s.rapidFails))
    else if s.ws == Some(Open) then 3
    else if s.ws.Some? then Minus(2, s.rapidFails)
    else 0
  }

  lemma SettlePotential(s: State, fails: nat, kind: FailureKind, connection: Connection, code: int, reason: string)
    requires Inv(s) && s.ws.Some? && fails >= s.rapidFails
    ensures Potential(Settle(s.(ws := None, rapidFails := fails), kind, connection, Some(code), reason)) <= Potential(s)
  {
  }

  lemma RetryPotential(s: State, fails: nat)
    requires Inv(s) && s.ws.Some? && fails < MAX_RAPID_FAILURES
    requires fails == s.rapidFails + 1 || (fails == 0 && s.ws == Some(Open))
    ensures Potential(ScheduleReconnect(s.(ws := None, rapidFails := fails))) <= Potential(s)
  {
    var t := ScheduleReconnect(s.(ws := None, rapidFails := fails));
    assert s.nextTimer in t.armed;
  }

  lemma ClosePotential(s: State, code: int, reason: string, now: int, linkDown: bool)
    requires Inv(s) && s.ws.Some?
    ensures Potential(OnClose(s, code, reason, now, linkDown)) <= Potential(s)
  {
    hide ScheduleReconnect, Settle, Potential;
    var hasRun := s.openedAt.Some?;
    var fails := if !hasRun || now - s.openedAt.value < RAPID_CLOSE_WINDOW_MS then s.rapidFails + 1 else 0;
    if hasRun && CleanClose(code) {
      SettlePotential(s, s.rapidFails, Ended, Unavailable, code, reason);
    } else if Refusal(code) {
      SettlePotential(s, s.rapidFails, Refused, Disconnected, code, reason);
    } else if fails < MAX_RAPID_FAILURES {
      RetryPotential(s, fails);
    } else if s.everOpened || linkDown {
      SettlePotential(s, fails, Dropped, Disconnected, code, reason);
    } else {
      SettlePotential(s, fails, Unreachable, Unavailable, code, reason);
    }
    hide Inv;
  }

  lemma StepPotential(s: State, e: Event)
    requires Inv(s) && Enabled(s, e) && !e.Opened? && !e.Reconnect?
    ensures Potential(Step(s, e)) + (if e.TimerFires? then 1 else 0) <= Potential(s)
  {
    match e
    case Closed(code, reason, now, linkDown) =>
      ClosePotential(s, code, reason, now, linkDown);
      hide Inv, OnClose, Potential;
    case TimerFires(id) =>
      FiredIsLast(s, id);
    case _ =>
      ClearedHasNone(s);
      hide OnClose;
  }

  /** From every reachable state, each retry made without help uses up one of those left. */
  lemma {:induction false} GivesUp(s: State, es: seq<Event>)
    requires Inv(s) && Runs(s, es) && NoHelp(es)
    ensures Attempts(es) + Potential(After(s, es)) <= Potential(s) && Inv(After(s, es))
    decreases es
  {
    if es != [] {
      StepPotential(s, es[0]);
      StepKeepsInv(s, es[0]);
      NoHelpTail(es);
      hide Inv, Step, Enabled, Potential;
      GivesUp(Step(s, es[0]), es[1..]);
    }
  }

  function Closes(es: seq<Event>): nat {
    if es == [] then 0 else (if es[0].Closed? then 1 else 0) + Closes(es[1..])
  }

  /** The socket that is out, and the one the deferred connect will make. */
  function SocketsOut(s: State): nat {
    (if s.ws.Some? then 1 else 0) + if s.deferred then 1 else 0
  }

  lemma StepSockets(s: State, e: Event)
    requires Inv(s) && Enabled(s, e) && !e.Reconnect?
    ensures (if e.Closed? then 1 else 0) + SocketsOut(Step(s, e)) <= (if e.TimerFires? then 1 else 0) + SocketsOut(s)
  {
  }

  /** Without a manual reconnect every close is paid for by a retry, or by a socket first out. */
  lemma {:induction false} ClosesBounded(s: State, es: seq<Event>)
    requires Inv(s) && Runs(s, es) && NoHelp(es)
    ensures Closes(es) + SocketsOut(After(s, es)) <= Attempts(es) + SocketsOut(s)
    decreases es
  {
    if es != [] {
      StepSockets(s, es[0]);
      StepKeepsInv(s, es[0]);
      NoHelpTail(es);
      hide Inv, Step, Enabled;
      ClosesBounded(Step(s, es[0]), es[1..]);
    }
  }

  /** A mounted console that waits for nothing, neither a socket nor a timer nor the deferred
      connect, has settled. */
  lemma IdleIsSettled(s: State)
    requires Inv(s) && s.mounted && s.ws.None? && !s.deferred && s.armed == map[]
    ensures Settled(s)
  {
  }

  /** At most three minus the count retries are left; one where a retry was overtaken. */
  lemma PotentialBound(s: State)
    requires Inv(s)
    ensures Potential(s) <= Minus(3, s.rapidFails) || (s.armed != map[] && Potential(s) == 1)
  {
  }

  /** From every reachable state, a run without an opening and without a manual reconnect is bounded
      in retries and closes. Where it cannot go on, or has used up its retries and has no socket out,
      the console has settled. */
  lemma SettlesInTime(s: State, es: seq<Event>)
    requires Inv(s) && Runs(s, es) && NoHelp(es)
    ensures Attempts(es) <= Potential(s)
    ensures Attempts(es) <= Minus(3, s.rapidFails) || (s.armed != map[] && Attempts(es) <= 1)
    ensures Closes(es) <= Attempts(es) + SocketsOut(s)
    ensures var t := After(s, es);
      t.mounted && t.ws.None? && !t.deferred && (t.armed == map[] || Attempts(es) == Potential(s)) ==> Settled(t)
  {
    GivesUp(s, es);
    PotentialBound(s);
    ClosesBounded(s, es);
    var t := After(s, es);
    if t.mounted && t.ws.None? && !t.deferred && t.armed == map[] { IdleIsSettled(t); }
  }

  /** A mounted console whose attempts never open makes at most two retries and sees at most three
      closes; it has settled as soon as it waits for nothing, or has closed after the second. */
  lemma MountGivesUp(es: seq<Event>)
    requires Runs(MOUNTED, es) && NoHelp(es)
    ensures Attempts(es) <= 2 && Closes(es) <= Attempts(es) + 1
    ensures var t := After(MOUNTED, es);
      t.mounted && t.ws.None? && !t.deferred && (t.armed == map[] || Attempts(es) == 2) ==> Settled(t)
  {
    SettlesInTime(MOUNTED, es);
    assert Potential(MOUNTED) == 2;
  }

  // ---------------------------------------------------------------- staying settled

  /** Neither an armed retry nor the deferred connect can bring the console back by itself. */
  predicate AtRest(s: State) {
    s.armed == map[] && !s.deferred
  }

  predicate NoReconnect(es: seq<Event>) {
    forall i :: 0 <= i < |es| ==> !es[i].Reconnect?
  }

  lemma StepStaysSettled(s: State, e: Event)
    requires Inv(s) && Settled(s) && AtRest(s) && Enabled(s, e) && !e.Reconnect?
    ensures Settled(Step(s, e)) && AtRest(Step(s, e))
  {
    ClearedHasNone(s);
  }

  lemma {:induction false} StaysSettled(s: State, es: seq<Event>)
    requires Inv(s) && Settled(s) && AtRest(s) && Runs(s, es) && NoReconnect(es)
    ensures Settled(After(s, es))
    decreases es
  {
    if es != [] {
      StepStaysSettled(s, es[0]);
      StepKeepsInv(s, es[0]);
      assert forall i :: 0 <= i < |es[1..]| ==> es[1..][i] == es[i + 1];
      hide Inv, Step, Enabled, Settled, AtRest;
      StaysSettled(Step(s, es[0]), es[1..]);
    }
  }

  lemma Revived(s: State, e: Event)
    requires Inv(s) && Settled(s) && Enabled(s, e) && (e.TimerFires? || e.DeferredConnect?)
    ensures Runs(s, [e]) && NoReconnect([e]) && !Settled(After(s, [e]))
  {
    var t := Step(s, e);
    assert [e][1..] == [];
    assert Runs(t, []) && After(t, []) == t;
  }

  /** A settled console stays settled through every run without a manual reconnect exactly when no
      retry is armed and no connect is deferred. */
  lemma StaysSettledIff(s: State)
    requires Inv(s) && Settled(s)
    ensures (forall es :: Runs(s, es) && NoReconnect(es) ==> Settled(After(s, es))) <==> AtRest(s)
  {
    if AtRest(s) {
      forall es | Runs(s, es) && NoReconnect(es) ensures Settled(After(s, es)) {
        StaysSettled(s, es);
      }
    } else if s.deferred {
      Revived(s, DeferredConnect);
    } else {
      var id :| id in s.armed;
      Revived(s, TimerFires(id));
    }
  }

  /** Both happen from the mount. Settled by a refusal with the overtaken retry still armed ... */
  lemma ArmedWhileSettled()
    ensures var es := [Reconnect, Closed(1006, "", 0, false), DeferredConnect, Closed(1008, "", 0, false)];
      Runs(MOUNTED, es) && var s := After(MOUNTED, es);
      Settled(s) && Enabled(s, TimerFires(0)) && Step(s, TimerFires(0)).connection == Connecting && Step(s, TimerFires(0)).failure == None
  {
    var e0, e1, e2, e3 := Reconnect, Closed(1006, "", 0, false), DeferredConnect, Closed(1008, "", 0, false);
    var s1 := Step(MOUNTED, e0);
    var s2 := Step(s1, e1);
    var s3 := Step(s2, e2);
    var s4 := Step(s3, e3);
    assert 0 in s4.armed;
    RunCons(s3, e3, []);
    RunCons(s2, e2, [e3]);
    RunCons(s1, e1, [e2, e3]);
    RunCons(MOUNTED, e0, [e1, e2, e3]);
    assert [e3] + [] == [e3];
  }

  /** ... and ended by the user before the deferred connect, which then connects after all. */
  lemma EndedThenConnects()
    ensures var es := [Disconnect, DeferredConnect];
      Runs(MOUNTED, es) && Settled(Step(MOUNTED, Disconnect)) && After(MOUNTED, es).connection == Connecting
      && After(MOUNTED, es).ws == Some(Handshaking)
  {
    var s1 := Step(MOUNTED, Disconnect);
    RunCons(s1, DeferredConnect, []);
    RunCons(MOUNTED, Disconnect, [DeferredConnect]);
    assert [DeferredConnect] + [] == [DeferredConnect];
  }
}
