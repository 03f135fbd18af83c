/** The cellular settings form: the modem's snapshot, the staged edits, and saves in flight.
    Every callback and every reply is one step; a render follows each step at once. */
module CellularSettings {
  import opened Text

  datatype Key = SimSlot | Cfun | ModePref | Nr5gMode | RoamPref | SimDetect
  datatype Value = Number(n: int) | Name(s: string)

  const WRITABLE: seq<Key> := [SimSlot, Cfun, ModePref, Nr5gMode, RoamPref, SimDetect]

  datatype Snapshot = Snapshot(fields: map<Key, Value>, simDetectLevel: int)

  const FIRST_FIELDS: map<Key, Value> := map[SimSlot := Number(1), Cfun := Number(1), ModePref := Name("AUTO"),
                                             Nr5gMode := Number(0), RoamPref := Number(255), SimDetect := Number(0)]

  lemma EveryKey(fields: map<Key, Value>)
    requires SimSlot in fields && Cfun in fields && ModePref in fields
    requires Nr5gMode in fields && RoamPref in fields && SimDetect in fields
    ensures forall k: Key :: k in fields
  {
    forall k: Key ensures k in fields {
      match k case SimSlot => case Cfun => case ModePref => case Nr5gMode => case RoamPref => case SimDetect =>
    }
  }

  function FirstSnapshot(): (s: Snapshot)
    ensures forall k: Key :: k in s.fields
  {
    EveryKey(FIRST_FIELDS);
    Snapshot(FIRST_FIELDS, 0)
  }

  /** A snapshot reports every writable field. */
  type Settings = s: Snapshot | forall k: Key :: k in s.fields witness FirstSnapshot()

  type Patch = map<Key, Value>

  datatype Message = Words(s: string) | FailedToApply(fields: set<Key>)
  datatype Phase = Idle | Writing | Recovering | Verifying
  datatype Result = Result(success: bool, applied: set<Key>, failed: set<Key>, error: Option<Message>)

  /** A field name in a reply: a writable key or some other string. */
  datatype FieldName = Known(key: Key) | Other(s: string)

  datatype ReadReply = ReadOk(settings: Settings) | ReadError(message: Message)
  datatype SaveReply =
    | Answered(success: bool, appliedFields: Option<seq<FieldName>>, failedFields: Option<seq<FieldName>>, error: string)
    | Thrown(message: Message)

  /** A save in flight: waiting for the reply, letting the modem settle, or reading back. */
  datatype Job = Posting(changes: Patch) | Settling(result: Result) | ReadingBack(result: Result)

  datatype State = State(
    settings: Option<Settings>, pending: Patch, isLoading: bool, isSaving: bool, phase: Phase, recoveryMs: int,
    error: Option<Message>, lastApply: Option<Result>, mounted: bool, jobs: map<nat, Job>)

  // ---------------------------------------------------------------- the pieces

  /** The staged edits the server has not caught up with. */
  function Pruned(pending: Patch, server: Settings): Patch {
    map k | k in pending && pending[k] != server.fields[k] :: pending[k]
  }

  method PrunePending(pending: Patch, server: Settings) returns (r: Patch)
    ensures r == Pruned(pending, server)
  {
    var changed := false;
    var next: Patch := map[];
    ghost var seen: set<Key> := {};
    for i := 0 to |WRITABLE|
      invariant forall j :: 0 <= j < i ==> WRITABLE[j] in seen
      invariant next == PrunedOver(pending, server, seen)
      invariant !changed ==> forall k :: k in pending && k in seen ==> pending[k] != server.fields[k]
    {
      var key := WRITABLE[i];
      seen := seen + {key};
      if key in pending {
        if pending[key] == server.fields[key] {
          changed := true;
        } else {
          next := next[key := pending[key]];
        }
      }
    }
    AllWritable();
    forall k: Key ensures k in seen {
      assert k in WRITABLE;
      var j :| 0 <= j < |WRITABLE| && WRITABLE[j] == k;
    }
    r := if changed then next else pending;
  }

  ghost function PrunedOver(pending: Patch, server: Settings, keys: set<Key>): Patch {
    map k | k in pending && k in keys && pending[k] != server.fields[k] :: pending[k]
  }

  lemma AllWritable()
    ensures forall k: Key :: k in WRITABLE
  {
    forall k: Key ensures k in WRITABLE {
      match k
      case SimSlot => assert WRITABLE[0] == k;
      case Cfun => assert WRITABLE[1] == k;
      case ModePref => assert WRITABLE[2] == k;
      case Nr5gMode => assert WRITABLE[3] == k;
      case RoamPref => assert WRITABLE[4] == k;
      case SimDetect => assert WRITABLE[5] == k;
    }
  }

  /** Staging a value; the server's own value is no change. */
  function Staged(settings: Option<Settings>, pending: Patch, key: Key, value: Value): Patch {
    if settings.Some? && settings.value.fields[key] == value then pending - {key} else pending[key := value]
  }

  /** What the form shows: the staged value of a dirty field, the server's of any other. */
  function Draft(settings: Settings, pending: Patch): (d: Patch)
    ensures forall k: Key :: k in d && d[k] == if k in pending then pending[k] else settings.fields[k]
  {
    settings.fields + pending
  }

  function Narrowed(names: seq<FieldName>): set<Key> {
    set n | n in names && n.Known? :: n.key
  }

  function AppliedOf(reply: SaveReply, attempted: set<Key>): set<Key>
    requires reply.Answered?
  {
    match reply.appliedFields
    case Some(names) => Narrowed(names)
    case None => if reply.success then attempted else {}
  }

  function FailedOf(reply: SaveReply, attempted: set<Key>): set<Key>
    requires reply.Answered?
  {
    match reply.failedFields
    case Some(names) => Narrowed(names)
    case None => attempted - AppliedOf(reply, attempted)
  }

  function ResultOf(reply: SaveReply, attempted: set<Key>): Result
    requires reply.Answered?
  {
    var failed := FailedOf(reply, attempted);
    var error :=
      if reply.success && failed == {} then None
      else if reply.error != "" then Some(Words(reply.error))
      else if failed != {} then Some(FailedToApply(failed))
      else Some(Words("Failed to apply settings"));
    Result(reply.success && failed == {}, AppliedOf(reply, attempted), failed, error)
  }

  /** The settle time is fixed by what was attempted. */
  function RecoveryMs(attempted: set<Key>): int {
    if SimSlot in attempted then 8000 else if Cfun in attempted || ModePref in attempted then 3000 else 0
  }

  // ---------------------------------------------------------------- steps

  datatype Event =
    | SetField(key: Key, value: Value)
    | Discard
    | ReadStarts(silent: bool)
    | ReadLands(silent: bool, read: ReadReply)
    | SaveStarts(id: nat)
    | SaveLands(id: nat, reply: SaveReply)
    | SettleEnds(id: nat)
    | ReadBackLands(id: nat, read: ReadReply)
    | Unmount

  predicate Enabled(s: State, e: Event) {
    match e
    case SaveStarts(id) => id !in s.jobs
    case SaveLands(id, _) => id in s.jobs && s.jobs[id].Posting?
    case SettleEnds(id) => id in s.jobs && s.jobs[id].Settling?
    case ReadBackLands(id, _) => id in s.jobs && s.jobs[id].ReadingBack?
    case _ => true
  }

  function Landed(s: State, read: ReadReply): State {
    match read
    case ReadOk(settings) => s.(settings := Some(settings), pending := Pruned(s.pending, settings))
    case ReadError(m) => s.(error := Some(m))
  }

  function Finished(s: State, id: nat): State {
    (if s.mounted then s.(isSaving := false, phase := Idle, recoveryMs := 0) else s).(jobs := s.jobs - {id})
  }

  function StartReadBack(s: State, id: nat, result: Result): State {
    s.(phase := Verifying, recoveryMs := 0, error := None, jobs := s.jobs[id := ReadingBack(result)])
  }

  function Step(s: State, e: Event): State
    requires Enabled(s, e)
  {
    match e
    case SetField(k, v) => s.(pending := Staged(s.settings, s.pending, k, v))
    case Discard => s.(pending := map[])
    case ReadStarts(silent) => s.(isLoading := s.isLoading || !silent, error := None)
    case ReadLands(silent, read) =>
      if !s.mounted then s else Landed(s, read).(isLoading := s.isLoading && silent)
    case SaveStarts(id) =>
      if s.pending == map[] then s.(lastApply := Some(Result(true, {}, {}, None)))
      else
        s.(error := None, lastApply := None, isSaving := true, phase := Writing, recoveryMs := 0,
           jobs := s.jobs[id := Posting(s.pending)])
    case SaveLands(id, reply) =>
      var attempted := s.jobs[id].changes.Keys;
      if !s.mounted then Finished(s, id)
      else if reply.Thrown? then
        Finished(s.(error := Some(reply.message), lastApply := Some(Result(false, {}, attempted, Some(reply.message)))), id)
      else
        var result := ResultOf(reply, attempted);
        var t := s.(pending := s.pending - result.applied, lastApply := Some(result),
                    error := if result.error.Some? then result.error else s.error);
        if RecoveryMs(attempted) > 0 then
          t.(phase := Recovering, recoveryMs := RecoveryMs(attempted), jobs := s.jobs[id := Settling(result)])
        else StartReadBack(t, id, result)
    case SettleEnds(id) => if !s.mounted then Finished(s, id) else StartReadBack(s, id, s.jobs[id].result)
    case ReadBackLands(id, read) =>
      if !s.mounted then Finished(s, id)
      else
        var t := Landed(s, read);
        var r := s.jobs[id].result;
        Finished(t.(error := if r.error.Some? then r.error else t.error), id)
    case Unmount => s.(mounted := false)
  }

  const INITIAL := State(None, map[], true, false, Idle, 0, None, None, true, map[])

  ghost predicate Runs(s: State, es: seq<Event>)
    decreases es
  {
    es == [] || (Enabled(s, es[0]) && Runs(Step(s, es[0]), es[1..]))
  }

  ghost function After(s: State, es: seq<Event>): State
    requires Runs(s, es)
    decreases es
  {
    if es == [] then s else After(Step(s, es[0]), es[1..])
  }

  // ---------------------------------------------------------------- the hook

  class Form {
    var settings: Option<Settings>
    var pending: Patch
    var isLoading: bool
    var isSaving: bool
    var applyPhase: Phase
    var applyRecoveryMs: int
    var error: Option<Message>
    var lastApply: Option<Result>
    var mounted: bool
    var jobs: map<nat, Job>

    ghost function Abs(): State
      reads this
    {
      State(settings, pending, isLoading, isSaving, applyPhase, applyRecoveryMs, error, lastApply, mounted, jobs)
    }

    constructor ()
      ensures Abs() == INITIAL
    {
      settings, pending, isLoading, isSaving := None, map[], true, false;
      applyPhase, applyRecoveryMs, error, lastApply, mounted, jobs := Idle, 0, None, None, true, map[];
    }

    method SetField(key: Key, value: Value)
      modifies this
      ensures Abs() == Step(old(Abs()), Event.SetField(key, value))
    {
      if settings.Some? && settings.value.fields[key] == value {
        if key in pending { pending := pending - {key}; }
      } else if key !in pending || pending[key] != value {
        pending := pending[key := value];
      }
    }

    method Discard()
      modifies this
      ensures Abs() == Step(old(Abs()), Event.Discard)
    {
      pending := map[];
    }

    method StartRead(silent: bool)
      modifies this
      ensures Abs() == Step(old(Abs()), ReadStarts(silent))
    {
      if !silent { isLoading := true; }
      error := None;
    }

    /** The reply of a read, and the render that prunes what it confirms. */
    method ApplyRead(read: ReadReply)
      modifies this
      ensures Abs() == Landed(old(Abs()), read)
    {
      match read {
        case ReadOk(s) =>
          settings := Some(s);
          pending := PrunePending(pending, s);
        case ReadError(m) => error := Some(m);
      }
    }

    method ReadReplied(silent: bool, read: ReadReply)
      modifies this
      ensures Abs() == Step(old(Abs()), ReadLands(silent, read))
    {
      if mounted {
        ApplyRead(read);
        if !silent { isLoading := false; }
      }
    }

    method Save(id: nat)
      requires id !in jobs
      modifies this
      ensures Abs() == Step(old(Abs()), SaveStarts(id))
    {
      var changes := pending;
      if changes == map[] {
        lastApply := Some(Result(true, {}, {}, None));
        return;
      }
      error := None;
      lastApply := None;
      isSaving := true;
      applyPhase := Writing;
      applyRecoveryMs := 0;
      jobs := jobs[id := Posting(changes)];
    }

    method Finish(id: nat)
      modifies this
      ensures Abs() == Finished(old(Abs()), id)
    {
      if mounted {
        isSaving := false;
        applyPhase := Idle;
        applyRecoveryMs := 0;
      }
      jobs := jobs - {id};
    }

    method ReadBack(id: nat, result: Result)
      modifies this
      ensures Abs() == StartReadBack(old(Abs()), id, result)
    {
      applyPhase := Verifying;
      applyRecoveryMs := 0;
      error := None;
      jobs := jobs[id := ReadingBack(result)];
    }

    method SaveReplied(id: nat, reply: SaveReply)
      requires id in jobs && jobs[id].Posting?
      modifies this
      ensures Abs() == Step(old(Abs()), SaveLands(id, reply))
    {
      var attempted := jobs[id].changes.Keys;
      if !mounted {
        Finish(id);
        return;
      }
      if reply.Thrown? {
        error := Some(reply.message);
        lastApply := Some(Result(false, {}, attempted, Some(reply.message)));
        Finish(id);
        return;
      }
      var result := ResultOf(reply, attempted);
      if result.applied != {} { pending := pending - result.applied; }
      assert pending == old(pending) - result.applied;
      if result.error.Some? { error := result.error; }
      lastApply := Some(result);
      var recoveryMs := RecoveryMs(attempted);
      if recoveryMs > 0 {
        applyPhase := Recovering;
        applyRecoveryMs := recoveryMs;
        jobs := jobs[id := Settling(result)];
      } else {
        ReadBack(id, result);
      }
    }

    method Settled(id: nat)
      requires id in jobs && jobs[id].Settling?
      modifies this
      ensures Abs() == Step(old(Abs()), SettleEnds(id))
    {
      if mounted { ReadBack(id, jobs[id].result); } else { Finish(id); }
    }

    method ReadBackReplied(id: nat, read: ReadReply)
      requires id in jobs && jobs[id].ReadingBack?
      modifies this
      ensures Abs() == Step(old(Abs()), ReadBackLands(id, read))
    {
      var result := jobs[id].result;
      if mounted {
        ApplyRead(read);
        if result.error.Some? { error := result.error; }
      }
      Finish(id);
    }

    method Unmounted()
      modifies this
      ensures Abs() == Step(old(Abs()), Unmount)
    {
      mounted := false;
    }
  }

  // ---------------------------------------------------------------- every run

  /** No staged value equals the server's. */
  ghost predicate Clean(s: State) {
    s.settings.Some? ==> forall k :: k in s.pending ==> s.pending[k] != s.settings.value.fields[k]
  }

  lemma LandedClean(s: State, read: ReadReply)
    requires Clean(s)
    ensures Clean(Landed(s, read))
  {
  }

  lemma FewerClean(s: State, t: State)
    requires Clean(s) && t.settings == s.settings && t.pending.Keys <= s.pending.Keys
    requires forall k :: k in t.pending ==> t.pending[k] == s.pending[k]
    ensures Clean(t)
  {
  }

  lemma StepKeepsClean(s: State, e: Event)
    requires Clean(s) && Enabled(s, e)
    ensures Clean(Step(s, e))
  {
    match e
    case SetField(k, v) =>
    case ReadLands(_, read) => LandedClean(s, read);
    case ReadBackLands(_, read) => LandedClean(s, read);
    case Discard =>
    case _ =>
      hide Clean, Draft, AppliedOf, FailedOf;
      FewerClean(s, Step(s, e));
  }

  /** In every reachable state no staged edit repeats the server's value. */
  lemma {:induction false} RunsStayClean(s: State, es: seq<Event>)
    requires Clean(s) && Runs(s, es)
    ensures Clean(After(s, es))
    decreases es
  {
    if es != [] {
      StepKeepsClean(s, es[0]);
      RunsStayClean(Step(s, es[0]), es[1..]);
    }
  }

  /** Hence the count on the save bar is the number of fields where the form and the modem differ. */
  lemma ChangeCountIsDifference(es: seq<Event>)
    requires Runs(INITIAL, es) && After(INITIAL, es).settings.Some?
    ensures var s := After(INITIAL, es);
      s.pending.Keys == set k: Key | Draft(s.settings.value, s.pending)[k] != s.settings.value.fields[k]
  {
    RunsStayClean(INITIAL, es);
  }

  /** A read never changes what a dirty field shows, and makes every other field show the modem. */
  lemma ReadKeepsDirty(s: State, silent: bool, now: Settings, k: Key)
    requires s.mounted && s.settings.Some?
    ensures var t := Step(s, ReadLands(silent, ReadOk(now)));
      t.settings == Some(now) &&
      Draft(now, t.pending)[k] == if k in s.pending then Draft(s.settings.value, s.pending)[k] else now.fields[k]
  {
  }

  /** A reply reports a field as applied: by name in its list, or, when it brings no list, by its
      success, for a field that was sent. */
  predicate ReportsApplied(reply: SaveReply, sent: set<Key>, k: Key) {
    reply.Answered? && match reply.appliedFields
      case Some(names) => Known(k) in names
      case None => reply.success && k in sent
  }

  /** A reply reports a field as failed: by name, or, without a list, as sent and not applied. */
  predicate ReportsFailed(reply: SaveReply, sent: set<Key>, k: Key) {
    reply.Answered? && match reply.failedFields
      case Some(names) => Known(k) in names
      case None => k in sent && !ReportsApplied(reply, sent, k)
  }

  lemma NarrowedIff(names: seq<FieldName>, k: Key)
    ensures k in Narrowed(names) <==> Known(k) in names
  {
  }

  lemma AppliedIff(reply: SaveReply, sent: set<Key>, k: Key)
    requires reply.Answered?
    ensures k in AppliedOf(reply, sent) <==> ReportsApplied(reply, sent, k)
    ensures k in FailedOf(reply, sent) <==> ReportsFailed(reply, sent, k)
  {
    if reply.appliedFields.Some? { NarrowedIff(reply.appliedFields.value, k); }
    if reply.failedFields.Some? { NarrowedIff(reply.failedFields.value, k); }
  }

  /** A reply takes exactly the reported fields out of the patch and leaves every other edit. */
  lemma SaveClearsReported(s: State, id: nat, reply: SaveReply, k: Key)
    requires Enabled(s, SaveLands(id, reply)) && s.mounted
    ensures var t := Step(s, SaveLands(id, reply));
      var gone := ReportsApplied(reply, s.jobs[id].changes.Keys, k);
      (k in t.pending <==> k in s.pending && !gone) && (k in t.pending ==> t.pending[k] == s.pending[k])
  {
    if reply.Answered? { AppliedIff(reply, s.jobs[id].changes.Keys, k); }
    hide AppliedOf, FailedOf, Narrowed, ReportsApplied, ReportsFailed;
  }

  /** The step takes the edit of a field away by the user's hand, or by a reply reporting it. */
  ghost predicate Takes(s: State, e: Event, k: Key)
    requires Enabled(s, e)
  {
    match e
    case SetField(key, _) => key == k
    case Discard => true
    case SaveLands(id, reply) => ReportsApplied(reply, s.jobs[id].changes.Keys, k)
    case _ => false
  }

  /** The step brings a snapshot that reports this value for the field. */
  predicate Confirms(e: Event, k: Key, v: Value) {
    match e
    case ReadLands(_, ReadOk(s)) => s.fields[k] == v
    case ReadBackLands(_, ReadOk(s)) => s.fields[k] == v
    case _ => false
  }

  ghost predicate Untouched(s: State, es: seq<Event>, k: Key, v: Value)
    requires Runs(s, es)
    decreases es
  {
    es == [] || (!Takes(s, es[0], k) && !Confirms(es[0], k, v) && Untouched(Step(s, es[0]), es[1..], k, v))
  }

  /** Over every run, an edit outlives everything but the user's own hand, a reply that reports its
      field as applied, and a snapshot that agrees with it. */
  lemma {:induction false} EditSurvives(s: State, es: seq<Event>, k: Key)
    requires Runs(s, es) && k in s.pending && Untouched(s, es, k, s.pending[k])
    ensures var t := After(s, es); k in t.pending && t.pending[k] == s.pending[k]
    decreases es
  {
    if es != [] {
      StepKeepsEdit(s, es[0], k);
      EditSurvives(Step(s, es[0]), es[1..], k);
    }
  }

  lemma StepKeepsEdit(s: State, e: Event, k: Key)
    requires Enabled(s, e) && k in s.pending && !Takes(s, e, k) && !Confirms(e, k, s.pending[k])
    ensures var t := Step(s, e); k in t.pending && t.pending[k] == s.pending[k]
  {
    match e
    case SaveLands(id, reply) =>
      if s.mounted {
        SaveClearsReported(s, id, reply, k);
        hide Step;
      }
    case _ =>
      hide AppliedOf, FailedOf, Draft;
  }

  /** A staged edit that the save in flight did not carry. */
  predicate Unsent(s: State, id: nat, k: Key)
    requires id in s.jobs && s.jobs[id].Posting?
  {
    k in s.pending && !(k in s.jobs[id].changes && s.jobs[id].changes[k] == s.pending[k])
  }

  /** An unsent edit, also one staged on a field while that very field was being saved, is lost to
      the reply exactly when the reply lists its field as applied. */
  lemma UnsentLostIff(s: State, id: nat, reply: SaveReply, k: Key)
    requires Enabled(s, SaveLands(id, reply)) && Unsent(s, id, k)
    ensures k !in Step(s, SaveLands(id, reply)).pending <==>
      s.mounted && ReportsApplied(reply, s.jobs[id].changes.Keys, k)
  {
    if s.mounted {
      SaveClearsReported(s, id, reply, k);
      hide Step, ReportsApplied;
    }
  }

  /** It happens from the first screen: a field is set, saved, and set again before the reply of a
      save that reports success; the second value is gone. */
  lemma UnsentLostRun(k: Key, v: Value, w: Value)
    requires v != w
    ensures var es := [SetField(k, v), SaveStarts(0), SetField(k, w)]; var reply := SaveLands(0, Answered(true, None, None, ""));
      Runs(INITIAL, es) && var s := After(INITIAL, es);
      Enabled(s, reply) && s.pending == map[k := w] && Unsent(s, 0, k) && k !in Step(s, reply).pending
  {
    assert k in Step(INITIAL, SetField(k, v)).pending;
    ThreeSteps(INITIAL, SetField(k, v), SaveStarts(0), SetField(k, w));
  }

  lemma ThreeSteps(s: State, e0: Event, e1: Event, e2: Event)
    requires Enabled(s, e0) && Enabled(Step(s, e0), e1) && Enabled(Step(Step(s, e0), e1), e2)
    ensures Runs(s, [e0, e1, e2]) && After(s, [e0, e1, e2]) == Step(Step(Step(s, e0), e1), e2)
  {
    hide Step, Enabled;
    var s1 := Step(s, e0);
    var s2 := Step(s1, e1);
    var s3 := Step(s2, e2);
    assert [e0, e1, e2][1..] == [e1, e2] && [e1, e2][1..] == [e2] && [e2][1..] == [];
    assert Runs(s3, []) && After(s3, []) == s3;
    assert Runs(s2, [e2]) && After(s2, [e2]) == s3;
    assert Runs(s1, [e1, e2]) && After(s1, [e1, e2]) == s3;
  }

  /** The message of a partly failed save is still there after the read-back, whatever that brings. */
  lemma FailureMessageStays(s: State, id: nat, read: ReadReply)
    requires Enabled(s, ReadBackLands(id, read)) && s.mounted && s.jobs[id].result.error.Some?
    ensures Step(s, ReadBackLands(id, read)).error == s.jobs[id].result.error
  {
  }

  /** A result is a success exactly when it carries no message; without lists from the backend the
      attempted fields are split between applied and failed. */
  lemma ResultAccounts(reply: SaveReply, attempted: set<Key>)
    requires reply.Answered?
    ensures var r := ResultOf(reply, attempted);
      && (r.success <==> r.error.None?)
      && (r.success ==> r.failed == {})
      && (reply.failedFields.None? ==> r.failed !! r.applied && attempted <= r.applied + r.failed)
  {
  }

  // ---------------------------------------------------------------- what a save and a read report

  /** The result of an answered save: the fields reported applied and failed, success iff the backend
      says so and nothing failed, and otherwise the backend's words, or the failed fields, or neither. */
  ghost predicate ResultFits(r: Result, reply: SaveReply, sent: set<Key>) {
    && reply.Answered?
    && (forall k :: k in r.applied <==> ReportsApplied(reply, sent, k))
    && (forall k :: k in r.failed <==> ReportsFailed(reply, sent, k))
    && r.success == (reply.success && r.failed == {})
    && r.error == if r.success then None
                  else if reply.error != "" then Some(Words(reply.error))
                  else if r.failed != {} then Some(FailedToApply(r.failed))
                  else Some(Words("Failed to apply settings"))
  }

  lemma ResultIsFit(reply: SaveReply, sent: set<Key>)
    requires reply.Answered?
    ensures ResultFits(ResultOf(reply, sent), reply, sent)
  {
    forall k ensures (k in AppliedOf(reply, sent) <==> ReportsApplied(reply, sent, k)) && (k in FailedOf(reply, sent) <==> ReportsFailed(reply, sent, k)) {
      AppliedIff(reply, sent, k);
    }
    hide AppliedOf, FailedOf, ReportsApplied, ReportsFailed;
  }

  /** An answered save: the ledger keeps its result. A change of SIM slot lets the modem settle for
      eight seconds, one of radio power or mode for three; any other save is read back at once. */
  lemma AnsweredSave(s: State, id: nat, reply: SaveReply)
    requires Enabled(s, SaveLands(id, reply)) && s.mounted && reply.Answered?
    ensures var t, sent := Step(s, SaveLands(id, reply)), s.jobs[id].changes.Keys;
      && t.lastApply.Some? && ResultFits(t.lastApply.value, reply, sent) && t.settings == s.settings
      && var r := t.lastApply.value;
      if SimSlot in sent || Cfun in sent || ModePref in sent then
        && t.jobs == s.jobs[id := Settling(r)] && t.phase == Recovering && t.recoveryMs == (if SimSlot in sent then 8000 else 3000)
        && t.error == if r.error.Some? then r.error else s.error
      else
        t.jobs == s.jobs[id := ReadingBack(r)] && t.phase == Verifying && t.recoveryMs == 0 && t.error == None
  {
    ResultIsFit(reply, s.jobs[id].changes.Keys);
    hide ResultFits, ResultOf;
  }

  /** A save that throws: nothing is applied, every field sent has failed, and its message shows. */
  lemma ThrownSave(s: State, id: nat, message: Message)
    requires Enabled(s, SaveLands(id, Thrown(message))) && s.mounted
    ensures var t := Step(s, SaveLands(id, Thrown(message)));
      && t.pending == s.pending && t.settings == s.settings && t.error == Some(message)
      && t.lastApply == Some(Result(false, {}, s.jobs[id].changes.Keys, Some(message)))
      && !t.isSaving && t.phase == Idle && t.jobs == s.jobs - {id}
  {
  }

  /** A save sends the whole patch and nothing else; an empty patch is a success without a request. */
  lemma SaveSends(s: State, id: nat)
    requires Enabled(s, SaveStarts(id))
    ensures var t := Step(s, SaveStarts(id));
      && t.pending == s.pending && t.settings == s.settings
      && if s.pending == map[] then t == s.(lastApply := Some(Result(true, {}, {}, None)))
         else t.jobs == s.jobs[id := Posting(s.pending)] && t.isSaving && t.phase == Writing && t.error == None && t.lastApply == None
  {
  }

  /** After discarding, the form shows the modem, field for field. */
  lemma DiscardShowsModem(s: State, k: Key)
    requires s.settings.Some?
    ensures var t := Step(s, Discard); t.settings == s.settings && Draft(t.settings.value, t.pending)[k] == s.settings.value.fields[k]
  {
  }

  /** A read clears the error line when it starts; what it brings is shown when it lands, and a read
      that is not silent turns the spinner in between. */
  lemma ReadShows(s: State, silent: bool, read: ReadReply)
    requires s.mounted
    ensures Step(s, ReadStarts(silent)) == s.(error := None, isLoading := s.isLoading || !silent)
    ensures var t := Step(s, ReadLands(silent, read));
      && t.isLoading == (s.isLoading && silent)
      && match read
         case ReadOk(x) => t.settings == Some(x) && t.error == s.error
         case ReadError(m) => t.settings == s.settings && t.pending == s.pending && t.error == Some(m)
  {
  }

  /** The settle time over, the read-back begins with a clear error line; its own failure shows unless
      the save had one. */
  lemma ReadBackShows(s: State, id: nat, read: ReadReply)
    requires s.mounted && id in s.jobs
    ensures s.jobs[id].Settling? ==> var t := Step(s, SettleEnds(id));
      t.error == None && t.phase == Verifying && t.jobs == s.jobs[id := ReadingBack(s.jobs[id].result)]
    ensures s.jobs[id].ReadingBack? ==> var t := Step(s, ReadBackLands(id, read));
      && t.jobs == s.jobs - {id} && t.lastApply == s.lastApply
      && t.settings == (if read.ReadOk? then Some(read.settings) else s.settings)
      && t.error == (if s.jobs[id].result.error.Some? then s.jobs[id].result.error else if read.ReadError? then Some(read.message) else s.error)
  {
  }

  /** After the unmount no reply changes anything but the requests that are out. */
  lemma UnmountedIgnores(s: State, e: Event)
    requires !s.mounted && Enabled(s, e) && (e.ReadLands? || e.SaveLands? || e.SettleEnds? || e.ReadBackLands?)
    ensures Step(s, e) == s.(jobs := if e.ReadLands? then s.jobs else s.jobs - {e.id})
    ensures Step(s.(mounted := true), Unmount) == s
  {
  }

  // ---------------------------------------------------------------- the user's last choice

  /** The form shows this value for the field. */
  predicate Displays(s: State, k: Key, v: Value) {
    s.settings.Some? && Draft(s.settings.value, s.pending)[k] == v
  }

  /** The snapshot a step brings to a mounted hook. */
  function Brought(s: State, e: Event): Option<Settings> {
    if !s.mounted then None
    else
      match e
      case ReadLands(_, ReadOk(x)) => Some(x)
      case ReadBackLands(_, ReadOk(x)) => Some(x)
      case _ => None
  }

  /** The step is a reply that reports the field as applied. */
  ghost predicate Reports(s: State, e: Event, k: Key)
    requires Enabled(s, e)
  {
    s.mounted && e.SaveLands? && ReportsApplied(e.reply, s.jobs[e.id].changes.Keys, k)
  }

  /** The step takes the displayed value away: a reply reports the staged field as applied before
      the snapshot has it, or a snapshot brings another value for a field that is not staged. */
  ghost predicate Loses(s: State, e: Event, k: Key, v: Value)
    requires Enabled(s, e)
  {
    if k in s.pending then Reports(s, e, k)
    else Brought(s, e).Some? && Brought(s, e).value.fields[k] != v
  }

  /** A snapshot brings the value back for a field that is not staged. */
  ghost predicate Regains(s: State, e: Event, k: Key, v: Value)
    requires Enabled(s, e)
  {
    k !in s.pending && Brought(s, e).Some? && Brought(s, e).value.fields[k] == v
  }

  /** The user touches the field. */
  predicate Touches(e: Event, k: Key) {
    e.Discard? || (e.SetField? && e.key == k)
  }

  predicate HandsOff(es: seq<Event>, k: Key) {
    forall i :: 0 <= i < |es| ==> !Touches(es[i], k)
  }

  /** Since the user's last choice of v: a staged value can only be v, and is not the server's. */
  ghost predicate Chosen(s: State, k: Key, v: Value) {
    s.settings.Some? && (k in s.pending ==> s.pending[k] == v && s.settings.value.fields[k] != v)
  }

  /** What a step makes of one field: a snapshot replaces the server's value and prunes, a reply
      takes out what it reports, and nothing else touches it. */
  ghost predicate FieldFollows(s: State, e: Event, t: State, k: Key)
    requires Enabled(s, e)
  {
    var x := Brought(s, e);
    && t.settings == (if x.Some? then x else s.settings)
    && (k in t.pending <==> k in s.pending && if x.Some? then s.pending[k] != x.value.fields[k] else !Reports(s, e, k))
    && (k in t.pending ==> t.pending[k] == s.pending[k])
  }

  lemma SaveField(s: State, id: nat, reply: SaveReply, k: Key)
    requires Enabled(s, SaveLands(id, reply))
    ensures FieldFollows(s, SaveLands(id, reply), Step(s, SaveLands(id, reply)), k)
  {
    var t := Step(s, SaveLands(id, reply));
    assert t.settings == s.settings && (!s.mounted ==> t.pending == s.pending);
    if s.mounted { SaveClearsReported(s, id, reply, k); }
    hide Step, AppliedOf, FailedOf;
  }

  lemma LandedField(s: State, read: ReadReply, k: Key)
    ensures var t := Landed(s, read);
      && t.settings == (if read.ReadOk? then Some(read.settings) else s.settings)
      && (k in t.pending <==> k in s.pending && (read.ReadOk? ==> s.pending[k] != read.settings.fields[k]))
      && (k in t.pending ==> t.pending[k] == s.pending[k])
  {
  }

  lemma ReadField(s: State, e: Event, k: Key)
    requires Enabled(s, e) && (e.ReadLands? || e.ReadBackLands?)
    ensures FieldFollows(s, e, Step(s, e), k)
  {
    LandedField(s, e.read, k);
    hide Landed;
  }

  lemma OtherField(s: State, e: Event, k: Key)
    requires Enabled(s, e) && !Touches(e, k) && !e.ReadLands? && !e.ReadBackLands? && !e.SaveLands?
    ensures FieldFollows(s, e, Step(s, e), k)
  {
    hide AppliedOf;
  }

  lemma FieldAfter(s: State, e: Event, k: Key)
    requires Enabled(s, e) && !Touches(e, k)
    ensures FieldFollows(s, e, Step(s, e), k)
  {
    hide *;
    match e
    case SaveLands(id, reply) => SaveField(s, id, reply, k);
    case ReadLands(_, _) => ReadField(s, e, k);
    case ReadBackLands(_, _) => ReadField(s, e, k);
    case _ => OtherField(s, e, k);
  }

  lemma DisplaysIs(s: State, k: Key, v: Value)
    ensures Displays(s, k, v) <==> s.settings.Some? && v == if k in s.pending then s.pending[k] else s.settings.value.fields[k]
  {
  }

  lemma StepChosen(s: State, e: Event, k: Key, v: Value)
    requires Chosen(s, k, v) && Enabled(s, e) && !Touches(e, k)
    ensures Chosen(Step(s, e), k, v)
  {
    FieldAfter(s, e, k);
    hide Step, Brought, Reports, Enabled;
  }

  lemma FieldDisplays(s: State, e: Event, t: State, k: Key, v: Value)
    requires Enabled(s, e) && s.settings.Some? && FieldFollows(s, e, t, k)
    ensures t.settings.Some? && !(Brought(s, e).Some? && Reports(s, e, k))
    ensures (if k in t.pending then t.pending[k] else t.settings.value.fields[k]) ==
      if k in s.pending && !Reports(s, e, k) then s.pending[k]
      else if Brought(s, e).Some? then Brought(s, e).value.fields[k] else s.settings.value.fields[k]
  {
    if Brought(s, e).Some? { assert !Reports(s, e, k); }
    hide Brought, Reports, Enabled;
  }

  lemma StepDisplays(s: State, e: Event, k: Key, v: Value)
    requires Chosen(s, k, v) && Enabled(s, e) && !Touches(e, k)
    ensures Displays(Step(s, e), k, v) <==> (Displays(s, k, v) && !Loses(s, e, k, v)) || Regains(s, e, k, v)
  {
    hide Step, Brought, Reports, Enabled, Displays, FieldFollows, Touches;
    FieldAfter(s, e, k);
    FieldDisplays(s, e, Step(s, e), k, v);
    DisplaysIs(s, k, v);
    DisplaysIs(Step(s, e), k, v);
    if k in s.pending {
      assert Displays(s, k, v) && !Regains(s, e, k, v);
    }
  }

  ghost predicate NeverLoses(s: State, es: seq<Event>, k: Key, v: Value)
    requires Runs(s, es)
    decreases es
  {
    es == [] || (!Loses(s, es[0], k, v) && NeverLoses(Step(s, es[0]), es[1..], k, v))
  }

  /** The value was brought back and not lost since. */
  ghost predicate RegainedSince(s: State, es: seq<Event>, k: Key, v: Value)
    requires Runs(s, es)
    decreases es
  {
    es != [] && ((Regains(s, es[0], k, v) && NeverLoses(Step(s, es[0]), es[1..], k, v)) || RegainedSince(Step(s, es[0]), es[1..], k, v))
  }

  lemma HandsOffTail(es: seq<Event>, k: Key)
    requires HandsOff(es, k) && es != []
    ensures HandsOff(es[1..], k)
  {
    assert forall i :: 0 <= i < |es[1..]| ==> es[1..][i] == es[i + 1];
  }

  lemma {:induction false} RunDisplays(s: State, es: seq<Event>, k: Key, v: Value)
    requires Chosen(s, k, v) && Runs(s, es) && HandsOff(es, k)
    ensures Displays(After(s, es), k, v) <==> (Displays(s, k, v) && NeverLoses(s, es, k, v)) || RegainedSince(s, es, k, v)
    decreases es
  {
    if es != [] {
      StepChosen(s, es[0], k, v);
      StepDisplays(s, es[0], k, v);
      HandsOffTail(es, k);
      hide *;
      RunDisplays(Step(s, es[0]), es[1..], k, v);
    }
  }

  /** After the user's last choice for a field, staged or back to the server's own value, whatever
      replies and reads follow: the form shows that choice exactly when it was never lost, or a
      snapshot brought it back after it was. */
  lemma LastChoiceShownIff(s: State, k: Key, v: Value, es: seq<Event>)
    requires s.settings.Some? && Runs(Step(s, SetField(k, v)), es) && HandsOff(es, k)
    ensures var t := Step(s, SetField(k, v));
      Displays(After(t, es), k, v) <==> NeverLoses(t, es, k, v) || RegainedSince(t, es, k, v)
  {
    RunDisplays(Step(s, SetField(k, v)), es, k, v);
  }

  lemma RunCons(s: State, e: Event, es: seq<Event>)
    requires Enabled(s, e) && Runs(Step(s, e), es)
    ensures Runs(s, [e] + es) && After(s, [e] + es) == After(Step(s, e), es)
  {
    hide Step, Enabled;
    assert ([e] + es)[1..] == es;
  }

  lemma {:induction false} RunAppend(s: State, a: seq<Event>, b: seq<Event>)
    requires Runs(s, a) && Runs(After(s, a), b)
    ensures Runs(s, a + b) && After(s, a + b) == After(After(s, a), b)
    decreases a
  {
    if a == [] {
      assert a + b == b;
    } else {
      hide Step, Enabled;
      assert (a + b)[1..] == a[1..] + b;
      RunAppend(Step(s, a[0]), a[1..], b);
    }
  }

  /** Set a field of a loaded form, save, and set it back. */
  lemma SetBack(s: State, v: Value)
    requires s.settings.Some? && s.pending == map[] && s.jobs == map[] && s.mounted && s.settings.value.fields[Nr5gMode] != v
    ensures var k := Nr5gMode; var es := [SetField(k, v), SaveStarts(0), SetField(k, s.settings.value.fields[k])];
      Runs(s, es) && var t := After(s, es); t.pending == map[] && t.jobs == map[0 := Posting(map[k := v])] && t.mounted
  {
    var k := Nr5gMode;
    var e0, e1, e2 := SetField(k, v), SaveStarts(0), SetField(k, s.settings.value.fields[k]);
    var s1 := Step(s, e0);
    assert s1.pending == map[k := v] && k in s1.pending;
    var s2 := Step(s1, e1);
    var s3 := Step(s2, e2);
    assert s3.pending == map[] && s3.jobs == map[0 := Posting(map[k := v])];
    ThreeSteps(s, e0, e1, e2);
  }

  /** The save lands, and the read-back shows its value. */
  lemma LandsAnyway(s: State, v: Value, after: Settings)
    requires s.pending == map[] && s.jobs == map[0 := Posting(map[Nr5gMode := v])] && s.mounted && after.fields[Nr5gMode] == v
    ensures var es := [SaveLands(0, Answered(true, None, None, "")), ReadBackLands(0, ReadOk(after))];
      Runs(s, es) && var t := After(s, es); t.pending == map[] && t.jobs == map[] && t.settings == Some(after)
  {
    var e0, e1 := SaveLands(0, Answered(true, None, None, "")), ReadBackLands(0, ReadOk(after));
    var s1 := Step(s, e0);
    assert s1.pending == map[] && s1.jobs.Keys == {0} && s1.jobs[0].ReadingBack?;
    var s2 := Step(s1, e1);
    assert s2.pending == map[] && s2.jobs == map[];
    hide Step;
    RunCons(s1, e1, []);
    RunCons(s, e0, [e1]);
    assert [e1] + [] == [e1];
  }

  /** From the first screen: set a field, save, set it back to the modem's value before the reply.
      The save lands all the same, and the form ends on the value the user went back on. */
  lemma SetBackRun(first: Settings, after: Settings, v: Value)
    requires first.fields[Nr5gMode] != v && after.fields[Nr5gMode] == v
    ensures var k := Nr5gMode; var es := [ReadLands(false, ReadOk(first)), SetField(k, v), SaveStarts(0), SetField(k, first.fields[k]),
                                          SaveLands(0, Answered(true, None, None, "")), ReadBackLands(0, ReadOk(after))];
      Runs(INITIAL, es) && var s := After(INITIAL, es);
      s.pending == map[] && s.jobs == map[] && Displays(s, k, v) && !Displays(s, k, first.fields[k])
  {
    var k := Nr5gMode;
    var e := ReadLands(false, ReadOk(first));
    var a := [SetField(k, v), SaveStarts(0), SetField(k, first.fields[k])];
    var b := [SaveLands(0, Answered(true, None, None, "")), ReadBackLands(0, ReadOk(after))];
    var s1 := Step(INITIAL, e);
    SetBack(s1, v);
    LandsAnyway(After(s1, a), v, after);
    RunAppend(s1, a, b);
    RunCons(INITIAL, e, a + b);
    hide Step, Runs, After, Enabled;
    assert [e] + (a + b) == [e, a[0], a[1], a[2], b[0], b[1]];
  }

  // ---------------------------------------------------------------- the step ledger

  predicate StageAgrees(job: Job, phase: Phase, recoveryMs: int) {
    match job
    case Posting(_) => phase == Writing && recoveryMs == 0
    case Settling(_) => phase == Recovering && (recoveryMs == 8000 || recoveryMs == 3000)
    case ReadingBack(_) => phase == Verifying && recoveryMs == 0
  }

  /** The step ledger says "saving" iff a save is in flight, and then shows the stage of one. */
  ghost predicate Ledger(s: State) {
    s.mounted ==>
      if s.jobs == map[] then !s.isSaving && s.phase == Idle && s.recoveryMs == 0
      else s.isSaving && exists id :: id in s.jobs && StageAgrees(s.jobs[id], s.phase, s.recoveryMs)
  }

  /** The step ends the save. */
  predicate Ends(s: State, e: Event) {
    s.mounted && (e.ReadBackLands? || (e.SaveLands? && e.reply.Thrown?))
  }

  /** A save ends while another is in flight. */
  ghost predicate EndsBeside(s: State, e: Event)
    requires Enabled(s, e)
  {
    Ends(s, e) && s.jobs - {e.id} != map[]
  }

  lemma EndLedger(s: State, e: Event)
    requires Enabled(s, e) && Ends(s, e)
    ensures var t := Step(s, e); t.mounted && !t.isSaving && t.phase == Idle && t.recoveryMs == 0 && t.jobs == s.jobs - {e.id}
  {
  }

  lemma StageLedger(s: State, e: Event)
    requires Ledger(s) && Enabled(s, e) && s.mounted && !Ends(s, e) && (e.SaveLands? || e.SettleEnds?)
    ensures Ledger(Step(s, e))
  {
    var t := Step(s, e);
    assert s.isSaving && e.id in t.jobs && StageAgrees(t.jobs[e.id], t.phase, t.recoveryMs);
  }

  lemma StartLedger(s: State, e: Event)
    requires Ledger(s) && Enabled(s, e) && e.SaveStarts?
    ensures Ledger(Step(s, e))
  {
    var t := Step(s, e);
    if s.pending != map[] { assert e.id in t.jobs && StageAgrees(t.jobs[e.id], t.phase, t.recoveryMs); }
  }

  lemma OtherLedger(s: State, e: Event)
    requires Ledger(s) && Enabled(s, e) && !Ends(s, e)
    requires s.mounted ==> !e.SaveStarts? && !e.SaveLands? && !e.SettleEnds?
    ensures Ledger(Step(s, e))
  {
  }

  lemma StepLedger(s: State, e: Event)
    requires Ledger(s) && Enabled(s, e)
    ensures Ledger(Step(s, e)) <==> !EndsBeside(s, e)
  {
    if Ends(s, e) {
      EndLedger(s, e);
      hide Step;
    } else {
      hide Ledger, Step, Enabled;
      if s.mounted && (e.SaveLands? || e.SettleEnds?) {
        StageLedger(s, e);
      } else if e.SaveStarts? {
        StartLedger(s, e);
      } else {
        OtherLedger(s, e);
      }
    }
  }

  ghost predicate AlwaysLedger(s: State, es: seq<Event>)
    requires Runs(s, es)
    decreases es
  {
    Ledger(s) && (es != [] ==> AlwaysLedger(Step(s, es[0]), es[1..]))
  }

  ghost predicate EverEndsBeside(s: State, es: seq<Event>)
    requires Runs(s, es)
    decreases es
  {
    es != [] && (EndsBeside(s, es[0]) || EverEndsBeside(Step(s, es[0]), es[1..]))
  }

  /** Over every run, with any number of saves out, the ledger is true throughout exactly when no
      save ends while another is in flight. */
  lemma {:induction false} LedgerTrueIff(s: State, es: seq<Event>)
    requires Ledger(s) && Runs(s, es)
    ensures AlwaysLedger(s, es) <==> !EverEndsBeside(s, es)
    decreases es
  {
    if es != [] {
      var t := Step(s, es[0]);
      StepLedger(s, es[0]);
      hide Step, Ledger, EndsBeside;
      if Ledger(t) {
        LedgerTrueIff(t, es[1..]);
      } else {
        assert !AlwaysLedger(t, es[1..]);
      }
    }
  }

  /** The hook does not refuse a second save: when the first one ends, the ledger goes dark over it. */
  lemma DarkLedgerRun(k: Key, v: Value, m: Message)
    ensures var es := [SetField(k, v), SaveStarts(0), SaveStarts(1)]; var end := SaveLands(0, Thrown(m));
      Runs(INITIAL, es) && var s := After(INITIAL, es);
      Enabled(s, end) && var t := Step(s, end); t.jobs == map[1 := Posting(map[k := v])] && !t.isSaving && t.phase == Idle
  {
    var s1 := Step(INITIAL, SetField(k, v));
    assert k in s1.pending;
    var s2 := Step(s1, SaveStarts(0));
    var s3 := Step(s2, SaveStarts(1));
    assert s3.jobs == map[0 := Posting(map[k := v]), 1 := Posting(map[k := v])];
    ThreeSteps(INITIAL, SetField(k, v), SaveStarts(0), SaveStarts(1));
  }

  /** At most one save is in flight. */
  ghost predicate Lone(s: State) {
    s.mounted ==> forall x, y :: x in s.jobs && y in s.jobs ==> x == y
  }

  /** A save with staged edits starts while another is in flight. */
  predicate StartsBeside(s: State, e: Event) {
    s.mounted && e.SaveStarts? && s.pending != map[] && s.jobs != map[]
  }

  lemma StepLone(s: State, e: Event)
    requires Lone(s) && Enabled(s, e)
    ensures Lone(Step(s, e)) <==> !StartsBeside(s, e)
    ensures !EndsBeside(s, e)
  {
    if Ends(s, e) {
      assert forall x :: x in s.jobs ==> x == e.id;
      assert s.jobs - {e.id} == map[];
    }
    if StartsBeside(s, e) {
      var x :| x in s.jobs;
      assert x in Step(s, e).jobs && e.id in Step(s, e).jobs;
    }
  }

  ghost predicate AlwaysLone(s: State, es: seq<Event>)
    requires Runs(s, es)
    decreases es
  {
    Lone(s) && (es != [] ==> AlwaysLone(Step(s, es[0]), es[1..]))
  }

  ghost predicate EverStartsBeside(s: State, es: seq<Event>)
    requires Runs(s, es)
    decreases es
  {
    es != [] && (StartsBeside(s, es[0]) || EverStartsBeside(Step(s, es[0]), es[1..]))
  }

  /** Over every run: at most one save is in flight throughout exactly when none with staged edits
      starts beside another, and then the ledger is that of the one in flight throughout. */
  lemma {:induction false} LedgerIsTrue(s: State, es: seq<Event>)
    requires Ledger(s) && Lone(s) && Runs(s, es)
    ensures AlwaysLone(s, es) <==> !EverStartsBeside(s, es)
    ensures AlwaysLone(s, es) ==> AlwaysLedger(s, es)
    decreases es
  {
    if es != [] {
      var t := Step(s, es[0]);
      StepLone(s, es[0]);
      StepLedger(s, es[0]);
      hide Step, Ledger, Lone, EndsBeside, StartsBeside;
      if Lone(t) {
        LedgerIsTrue(t, es[1..]);
      } else {
        assert !AlwaysLone(t, es[1..]);
      }
    }
  }
}
