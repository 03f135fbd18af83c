/** The network-event log: which rows are still-standing problems, and how a row is drawn. */
module EventPresentation {
  import opened Text

  datatype EventType =
    | NetworkMode | BandChange | PciChange | SccPciChange | CaChange | NrAnchor
    | SignalLost | SignalRestored | InternetLost | InternetRestored
    | HighLatency | LatencyRecovered | HighPacketLoss | PacketLossRecovered
    | WatchcatRecovery | SimFailover | SimSwapDetected | AirplaneMode
    | ProfileApplied | ProfileFailed | ProfileDeactivated | TowerFailover

  datatype Severity = Info | Warning | Error
  datatype Event = Event(timestamp: int, kind: EventType, message: string, severity: Severity)

  // ---------------------------------------------------------------- the declarative reading

  /** Degradations whose recovery is another type. */
  function ResolvedBy(kind: EventType): Option<EventType> {
    match kind
    case InternetLost => Some(InternetRestored)
    case SignalLost => Some(SignalRestored)
    case HighLatency => Some(LatencyRecovered)
    case HighPacketLoss => Some(PacketLossRecovered)
    case _ => None
  }

  /** Degradations whose recovery is the same type at severity info. */
  predicate SelfResolving(kind: EventType) {
    kind == NrAnchor || kind == CaChange || kind == AirplaneMode
  }

  predicate Degraded(e: Event) {
    e.severity != Info
  }

  /** The event reports a condition, which stands until something settles it. */
  predicate IsCondition(e: Event) {
    Degraded(e) && (ResolvedBy(e.kind).Some? || SelfResolving(e.kind))
  }

  /** A later event ends a condition: it fires again, or its recovery arrives. */
  predicate Settles(later: Event, e: Event) {
    || (later.kind == e.kind && later.severity == e.severity)
    || ResolvedBy(e.kind) == Some(later.kind)
    || (SelfResolving(e.kind) && later.kind == e.kind && later.severity == Info)
  }

  /** The log is newest first: later events have lower indices. */
  ghost predicate Unresolved(events: seq<Event>, i: int) {
    0 <= i < |events| && IsCondition(events[i]) && forall j :: 0 <= j < i ==> !Settles(events[j], events[i])
  }

  // ---------------------------------------------------------------- the one-pass accumulator

  /** The row at i is added iff no accumulator, as filled by the rows before it, settles it. */
  method ComputeUnresolved(events: seq<Event>) returns (unresolved: set<int>)
    ensures forall i :: i in unresolved <==> Unresolved(events, i)
  {
    unresolved := {};
    var laterTypes: set<EventType> := {};
    var laterInfoTypes: set<EventType> := {};
    var laterDegradations: set<(EventType, Severity)> := {};
    for i := 0 to |events|
      invariant forall k :: k in unresolved <==> k < i && Unresolved(events, k)
      invariant forall t :: t in laterTypes <==> exists j :: 0 <= j < i && events[j].kind == t
      invariant forall t :: t in laterInfoTypes <==> exists j :: 0 <= j < i && events[j].kind == t && events[j].severity == Info
      invariant forall t, s :: (t, s) in laterDegradations <==>
        exists j :: 0 <= j < i && events[j].kind == t && events[j].severity == s && s != Info
    {
      var e := events[i];
      var degraded := e.severity == Warning || e.severity == Error;
      if degraded {
        var recovery := ResolvedBy(e.kind);
        var superseded := (e.kind, e.severity) in laterDegradations;
        if !superseded {
          if recovery.Some? {
            if recovery.value !in laterTypes { unresolved := unresolved + {i}; }
          } else if SelfResolving(e.kind) {
            if e.kind !in laterInfoTypes { unresolved := unresolved + {i}; }
          }
        }
      }
      laterTypes := laterTypes + {e.kind};
      if e.severity == Info {
        laterInfoTypes := laterInfoTypes + {e.kind};
      } else {
        laterDegradations := laterDegradations + {(e.kind, e.severity)};
      }
    }
  }

  // ---------------------------------------------------------------- what the reading guarantees

  /** Cutting old rows off the end changes nothing for the rows that stay. */
  lemma TruncationKeeps(events: seq<Event>, n: nat, i: int)
    requires i < n <= |events|
    ensures Unresolved(events[..n], i) <==> Unresolved(events, i)
  {
    if 0 <= i {
      assert forall j :: 0 <= j <= i ==> events[..n][j] == events[j];
    }
  }

  /** Newer events only ever resolve: an old row still stands iff it stood before and none of the
      newer events settles it. */
  lemma NewerOnlyResolve(newer: seq<Event>, events: seq<Event>, i: nat)
    requires i < |events|
    ensures Unresolved(newer + events, |newer| + i) <==>
      Unresolved(events, i) && forall j :: 0 <= j < |newer| ==> !Settles(newer[j], events[i])
  {
    var all := newer + events;
    assert all[|newer| + i] == events[i];
    if Unresolved(all, |newer| + i) {
      forall j | 0 <= j < i ensures !Settles(events[j], events[i]) {
        assert all[|newer| + j] == events[j];
      }
      forall j | 0 <= j < |newer| ensures !Settles(newer[j], events[i]) {
        assert all[j] == newer[j];
      }
    }
  }

  /** At most one row per type and severity stands. */
  lemma OnePerTypeAndSeverity(events: seq<Event>, i: int, j: int)
    requires Unresolved(events, i) && Unresolved(events, j)
    requires events[i].kind == events[j].kind && events[i].severity == events[j].severity
    ensures i == j
  {
  }

  /** For one kind of condition at one severity, something stands iff the kind has fired at that
      severity and nothing after its last firing has brought recovery. */
  lemma StandsIff(events: seq<Event>, kind: EventType, severity: Severity)
    requires severity != Info && (ResolvedBy(kind).Some? || SelfResolving(kind))
    ensures (exists i :: Unresolved(events, i) && events[i].kind == kind && events[i].severity == severity) <==>
      exists i :: 0 <= i < |events| && events[i].kind == kind && events[i].severity == severity
        && forall j :: 0 <= j < i ==> !Recovers(events[j], kind)
  {
    if i :| 0 <= i < |events| && events[i].kind == kind && events[i].severity == severity
            && forall j :: 0 <= j < i ==> !Recovers(events[j], kind) {
      var k := LatestFiring(events, kind, severity, i);
      assert Unresolved(events, k);
    }
  }

  /** The latest firing, that is the lowest index, at or before index i. */
  lemma LatestFiring(events: seq<Event>, kind: EventType, severity: Severity, i: nat) returns (k: nat)
    requires i < |events| && events[i].kind == kind && events[i].severity == severity
    ensures k <= i && events[k].kind == kind && events[k].severity == severity
    ensures forall j :: 0 <= j < k ==> !(events[j].kind == kind && events[j].severity == severity)
  {
    k := i;
    if j :| 0 <= j < i && events[j].kind == kind && events[j].severity == severity {
      k := LatestFiring(events, kind, severity, j);
    }
  }

  predicate Recovers(later: Event, kind: EventType) {
    ResolvedBy(kind) == Some(later.kind) || (SelfResolving(kind) && later.kind == kind && later.severity == Info)
  }

  // ---------------------------------------------------------------- drawing

  datatype Tone = ToneError | ToneWarning | ToneSuccess | ToneRoutine
  datatype SeverityWord = WordUnresolved | WordOf(tone: Tone)
  datatype Presentation = Presentation(tone: Tone, chromatic: bool, word: SeverityWord)

  const FRESH_WINDOW_SEC := 3600

  predicate IsFresh(e: Event, nowSec: int) {
    nowSec - e.timestamp < FRESH_WINDOW_SEC
  }

  predicate RecoveryType(kind: EventType) {
    kind == InternetRestored || kind == SignalRestored || kind == LatencyRecovered
    || kind == PacketLossRecovered || kind == WatchcatRecovery || kind == ProfileApplied
  }

  function ToneOf(e: Event): Tone {
    if e.severity == Error then ToneError
    else if e.severity == Warning then ToneWarning
    else if RecoveryType(e.kind) || SelfResolving(e.kind) then ToneSuccess
    else ToneRoutine
  }

  function PresentEvent(e: Event, unresolved: bool, recent: bool): Presentation {
    var tone := ToneOf(e);
    var tonal := recent || unresolved;
    Presentation(tone, tonal && tone != ToneRoutine, if unresolved then WordUnresolved else WordOf(tone))
  }

  /** The recoveries, by name. */
  lemma Pairing(kind: EventType, recovery: EventType)
    ensures ResolvedBy(kind) == Some(recovery) <==>
      (kind, recovery) in {(InternetLost, InternetRestored), (SignalLost, SignalRestored), (HighLatency, LatencyRecovered), (HighPacketLoss, PacketLossRecovered)}
    ensures SelfResolving(kind) <==> kind in {NrAnchor, CaChange, AirplaneMode}
  {
  }

  /** The kinds that say something got better when they come as information. */
  const GOOD_NEWS: set<EventType> := {InternetRestored, SignalRestored, LatencyRecovered, PacketLossRecovered, WatchcatRecovery,
                                      ProfileApplied, NrAnchor, CaChange, AirplaneMode}

  /** How a row is drawn: its tone by severity, and for information by whether it is good news; colour
      for the first hour, and as long as it stands, unless it is routine; and its word. */
  lemma DrawnAs(events: seq<Event>, i: nat, nowSec: int)
    requires i < |events|
    ensures var e := events[i]; var p := PresentEvent(e, Unresolved(events, i), IsFresh(e, nowSec));
      && p.tone == (match e.severity
                    case Error => ToneError
                    case Warning => ToneWarning
                    case Info => if e.kind in GOOD_NEWS then ToneSuccess else ToneRoutine)
      && (p.chromatic <==> (nowSec - e.timestamp < 3600 || Unresolved(events, i)) && (e.severity != Info || e.kind in GOOD_NEWS))
      && p.word == if Unresolved(events, i) then WordUnresolved else WordOf(p.tone)
  {
    hide Unresolved;
  }

  /** Age may retire history, not a problem: a standing row is chromatic at every age, and a row
      past the fresh window is chromatic exactly when it still stands. */
  lemma AgeRule(events: seq<Event>, i: nat, nowSec: int)
    requires i < |events|
    ensures Unresolved(events, i) ==> PresentEvent(events[i], Unresolved(events, i), IsFresh(events[i], nowSec)).chromatic
    ensures nowSec - events[i].timestamp >= 3600 ==>
      (PresentEvent(events[i], Unresolved(events, i), IsFresh(events[i], nowSec)).chromatic <==> Unresolved(events, i))
  {
  }
}
