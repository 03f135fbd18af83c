/** Creating a profile from a carrier suggestion: look up or create its scenario, save the profile,
    and undo the scenario when the profile was not saved. Each backend call may be refused, or land
    with its reply lost. */
module ProfileSuggestions {
  import opened Text
  import opened BandLists

  const BUILT_IN := "balanced"

  datatype Scenario = Scenario(id: string, name: string, nsaBands: string, saBands: string)
  datatype Profile = Profile(id: string, scenario: string)
  datatype Call = ListScenarios | SaveScenario(name: string) | SaveProfile(scenario: string) | DeleteScenario(id: string)

  /** The backend's stores, and the calls it has received. */
  datatype World = World(scenarios: seq<Scenario>, profiles: seq<Profile>, calls: seq<Call>)

  /** A suggestion with the bands that survived intersection with the modem's support. */
  datatype View = View(scenarioName: Option<string>, nsaBands: seq<int>, saBands: seq<int>)

  /** Whether a listing arrives; whether a new scenario is stored under an id, stored with the reply
      lost, or refused; the same for the profile; whether a deletion takes effect. */
  datatype SaveReply = Stored(id: string) | StoredLost(id: string, detail: string) | Refused(detail: string)
  datatype Replies = Replies(listed: bool, scenario: SaveReply, profile: SaveReply, deleted: bool)
  datatype Done = Done(world: World, profileId: Option<string>, error: Option<string>)

  predicate WantsScenario(v: View) {
    (|v.nsaBands| > 0 || |v.saBands| > 0) && v.scenarioName.Some? && v.scenarioName.value != ""
  }

  /** The first scenario with a name. */
  function FindByName(scenarios: seq<Scenario>, name: string): (r: Option<string>)
    ensures r.Some? ==> HasId(scenarios, r.value)
  {
    if scenarios == [] then None
    else if scenarios[0].name == name then
      assert HasId(scenarios, scenarios[0].id) by { assert scenarios[0].id == scenarios[0].id; }
      Some(scenarios[0].id)
    else
      assert forall id :: HasId(scenarios[1..], id) ==> HasId(scenarios, id);
      FindByName(scenarios[1..], name)
  }

  predicate HasId(scenarios: seq<Scenario>, id: string) {
    exists i :: 0 <= i < |scenarios| && scenarios[i].id == id
  }

  function Without(scenarios: seq<Scenario>, id: string): seq<Scenario> {
    if scenarios == [] then []
    else (if scenarios[0].id == id then [] else [scenarios[0]]) + Without(scenarios[1..], id)
  }

  function IdOf(reply: SaveReply): Option<string> {
    match reply case Stored(id) => Some(id) case StoredLost(id, _) => Some(id) case Refused(_) => None
  }

  /** The backend gives new scenarios fresh, non-empty ids, none of them the built-in's. */
  ghost predicate Honest(w: World, r: Replies) {
    && (forall i :: 0 <= i < |w.scenarios| ==> w.scenarios[i].id != "" && w.scenarios[i].id != BUILT_IN)
    && (IdOf(r.scenario).Some? ==>
          var id := IdOf(r.scenario).value; id != "" && id != BUILT_IN && !HasId(w.scenarios, id))
    && (IdOf(r.profile).Some? ==> IdOf(r.profile).value != "")
  }

  /** An empty message shows no error. */
  function ErrorText(detail: string): Option<string> {
    if detail == "" then None else Some(detail)
  }

  function NewScenario(v: View, id: string): Scenario
    requires WantsScenario(v)
  {
    Scenario(id, v.scenarioName.value, BandsToColonString(v.nsaBands), BandsToColonString(v.saBands))
  }

  // ---------------------------------------------------------------- the backend

  class Backend {
    var scenarios: seq<Scenario>
    var profiles: seq<Profile>
    var calls: seq<Call>

    ghost function Abs(): World
      reads this
    {
      World(scenarios, profiles, calls)
    }

    method List(arrives: bool) returns (r: Option<seq<Scenario>>)
      modifies this
      ensures Abs() == old(Abs()).(calls := old(calls) + [ListScenarios])
      ensures r == if arrives then Some(scenarios) else None
    {
      calls := calls + [ListScenarios];
      r := if arrives then Some(scenarios) else None;
    }

    method StoreScenario(v: View, reply: SaveReply)
      requires WantsScenario(v)
      modifies this
      ensures Abs() == StoreScenarioIn(old(Abs()), v, reply)
    {
      calls := calls + [SaveScenario(v.scenarioName.value)];
      match reply {
        case Stored(id) => scenarios := scenarios + [NewScenario(v, id)];
        case StoredLost(id, _) => scenarios := scenarios + [NewScenario(v, id)];
        case Refused(_) =>
      }
    }

    method StoreProfile(scenario: string, reply: SaveReply)
      modifies this
      ensures Abs() == StoreProfileIn(old(Abs()), scenario, reply)
    {
      calls := calls + [SaveProfile(scenario)];
      match reply {
        case Stored(id) => profiles := profiles + [Profile(id, scenario)];
        case StoredLost(id, _) => profiles := profiles + [Profile(id, scenario)];
        case Refused(_) =>
      }
    }

    method Delete(id: string, lands: bool)
      modifies this
      ensures Abs() == DeleteIn(old(Abs()), id, lands)
    {
      calls := calls + [DeleteScenario(id)];
      if lands { scenarios := Without(scenarios, id); }
    }
  }

  function StoreScenarioIn(w: World, v: View, reply: SaveReply): World
    requires WantsScenario(v)
  {
    var t := w.(calls := w.calls + [SaveScenario(v.scenarioName.value)]);
    match IdOf(reply) case None => t case Some(id) => t.(scenarios := w.scenarios + [NewScenario(v, id)])
  }

  function StoreProfileIn(w: World, scenario: string, reply: SaveReply): World {
    var t := w.(calls := w.calls + [SaveProfile(scenario)]);
    match IdOf(reply) case None => t case Some(id) => t.(profiles := w.profiles + [Profile(id, scenario)])
  }

  function DeleteIn(w: World, id: string, lands: bool): World {
    var t := w.(calls := w.calls + [DeleteScenario(id)]);
    if lands then t.(scenarios := Without(w.scenarios, id)) else t
  }

  // ---------------------------------------------------------------- the transaction

  /** Save the profile bound to a scenario; when no profile id comes back, delete the scenario if
      this call created it. */
  function Bind(w: World, scenario: string, created: Option<string>, r: Replies): Done {
    var t := StoreProfileIn(w, scenario, r.profile);
    if r.profile.Stored? then Done(t, Some(r.profile.id), None)
    else if created.Some? then Done(DeleteIn(t, created.value, r.deleted), None, None)
    else Done(t, None, None)
  }

  /** Store the scenario, and go on only when its id comes back. */
  function StoreThenBind(w: World, v: View, r: Replies): Done
    requires WantsScenario(v)
  {
    var stored := StoreScenarioIn(w, v, r.scenario);
    match r.scenario
    case Stored(id) => Bind(stored, id, Some(id), r)
    case StoredLost(_, detail) => Done(stored, None, ErrorText(detail))
    case Refused(detail) => Done(stored, None, ErrorText(detail))
  }

  /** Reuse a scenario of the wanted name when the listing arrives and shows one. */
  function ListThenBind(w: World, v: View, r: Replies): Done
    requires WantsScenario(v)
  {
    var listed := w.(calls := w.calls + [ListScenarios]);
    var found := if r.listed then FindByName(w.scenarios, v.scenarioName.value) else None;
    if found.Some? && found.value != "" then Bind(listed, found.value, None, r) else StoreThenBind(listed, v, r)
  }

  function Transaction(w: World, v: View, r: Replies): Done {
    if WantsScenario(v) then ListThenBind(w, v, r) else Bind(w, BUILT_IN, None, r)
  }

  class Suggestions {
    var creating: bool
    var error: Option<string>

    /** A second call while one is running does nothing. */
    method CreateFromSuggestion(backend: Backend, view: Option<View>, r: Replies) returns (profileId: Option<string>)
      requires view.Some? ==> Honest(backend.Abs(), r)
      modifies this, backend
      ensures creating == old(creating)
      ensures if view.None? || old(creating) then profileId == None && backend.Abs() == old(backend.Abs()) && error == old(error)
        else Done(backend.Abs(), profileId, error) == Transaction(old(backend.Abs()), view.value, r)
    {
      if view.None? || creating { return None; }
      var v := view.value;
      error := None;
      creating := true;
      var createdScenarioId: Option<string> := None;
      var scenarioId := BUILT_IN;
      if WantsScenario(v) {
        var list := backend.List(r.listed);
        var foundId: Option<string> := if list.Some? then FindByName(list.value, v.scenarioName.value) else None;
        if foundId.Some? && foundId.value != "" {
          scenarioId := foundId.value;
        } else {
          backend.StoreScenario(v, r.scenario);
          match r.scenario {
            case Stored(id) =>
              scenarioId := id;
              createdScenarioId := Some(id);
            case StoredLost(_, detail) =>
              error := ErrorText(detail);
              creating := false;
              return None;
            case Refused(detail) =>
              error := ErrorText(detail);
              creating := false;
              return None;
          }
        }
      }
      backend.StoreProfile(scenarioId, r.profile);
      if !r.profile.Stored? {
        if createdScenarioId.Some? { backend.Delete(createdScenarioId.value, r.deleted); }
        error := None;
        creating := false;
        return None;
      }
      creating := false;
      return Some(r.profile.id);
    }
  }

  // ---------------------------------------------------------------- calls during a call

  /** Where a running call waits: for the listing, the scenario, the profile or the deletion. */
  datatype Stage =
    | Idle
    | Listing(view: View)
    | Storing(view: View)
    | Binding(scenario: string, created: Option<string>)
    | Undoing(id: string)

  datatype Progress = Progress(world: World, stage: Stage, error: Option<string>, outcome: Option<string>)

  /** The user asks for a profile, or the answer a call waits for arrives. */
  datatype Event =
    | Create(view: Option<View>)
    | Listed(arrives: bool)
    | ScenarioAnswered(scenario: SaveReply)
    | ProfileAnswered(profile: SaveReply)
    | DeleteAnswered(lands: bool)

  predicate Enabled(p: Progress, e: Event) {
    match e
    case Create(_) => true
    case Listed(_) => p.stage.Listing? && WantsScenario(p.stage.view)
    case ScenarioAnswered(_) => p.stage.Storing? && WantsScenario(p.stage.view)
    case ProfileAnswered(_) => p.stage.Binding?
    case DeleteAnswered(_) => p.stage.Undoing?
  }

  function Step(p: Progress, e: Event): Progress
    requires Enabled(p, e)
  {
    match e
    case Create(view) =>
      if view.None? || !p.stage.Idle? then p
      else p.(error := None, outcome := None, stage := if WantsScenario(view.value) then Listing(view.value) else Binding(BUILT_IN, None))
    case Listed(arrives) =>
      var v := p.stage.view;
      var found := if arrives then FindByName(p.world.scenarios, v.scenarioName.value) else None;
      p.(world := p.world.(calls := p.world.calls + [ListScenarios]),
         stage := if found.Some? && found.value != "" then Binding(found.value, None) else Storing(v))
    case ScenarioAnswered(reply) =>
      var t := p.(world := StoreScenarioIn(p.world, p.stage.view, reply));
      (match reply
       case Stored(id) => t.(stage := Binding(id, Some(id)))
       case StoredLost(_, detail) => t.(stage := Idle, error := ErrorText(detail))
       case Refused(detail) => t.(stage := Idle, error := ErrorText(detail)))
    case ProfileAnswered(reply) =>
      var t := p.(world := StoreProfileIn(p.world, p.stage.scenario, reply));
      if reply.Stored? then t.(stage := Idle, outcome := Some(reply.id))
      else if p.stage.created.Some? then t.(stage := Undoing(p.stage.created.value))
      else t.(stage := Idle, error := None)
    case DeleteAnswered(lands) => p.(world := DeleteIn(p.world, p.stage.id, lands), stage := Idle, error := None)
  }

  /** The answer is the one these replies give. */
  predicate AsGiven(e: Event, r: Replies) {
    match e
    case Create(_) => true
    case Listed(arrives) => arrives == r.listed
    case ScenarioAnswered(reply) => reply == r.scenario
    case ProfileAnswered(reply) => reply == r.profile
    case DeleteAnswered(lands) => lands == r.deleted
  }

  /** The steps bring a running call to its end, with these replies; the user may ask again anywhere. */
  ghost predicate Completes(p: Progress, es: seq<Event>, r: Replies)
    decreases es
  {
    if p.stage.Idle? then es == []
    else es != [] && Enabled(p, es[0]) && AsGiven(es[0], r) && Completes(Step(p, es[0]), es[1..], r)
  }

  ghost function AtEnd(p: Progress, es: seq<Event>, r: Replies): Progress
    requires Completes(p, es, r)
    decreases es
  {
    if p.stage.Idle? then p else AtEnd(Step(p, es[0]), es[1..], r)
  }

  /** A running call has no result and shows no error, and wants the scenario it waits for. */
  predicate Running(p: Progress) {
    p.stage.Idle?
    || (p.error.None? && p.outcome.None? && (p.stage.Listing? || p.stage.Storing? ==> WantsScenario(p.stage.view)))
  }

  /** What is left of the transaction. */
  function Remaining(p: Progress, r: Replies): Done
    requires Running(p)
  {
    match p.stage
    case Idle => Done(p.world, p.outcome, p.error)
    case Listing(v) => ListThenBind(p.world, v, r)
    case Storing(v) => StoreThenBind(p.world, v, r)
    case Binding(scenario, created) => Bind(p.world, scenario, created, r)
    case Undoing(id) => Done(DeleteIn(p.world, id, r.deleted), None, None)
  }

  lemma StepRemaining(p: Progress, e: Event, r: Replies)
    requires Running(p) && !p.stage.Idle? && Enabled(p, e) && AsGiven(e, r)
    ensures Running(Step(p, e)) && Remaining(Step(p, e), r) == Remaining(p, r)
  {
    hide FindByName, StoreScenarioIn, StoreProfileIn, DeleteIn;
  }

  lemma {:induction false} EndIsRemaining(p: Progress, es: seq<Event>, r: Replies)
    requires Running(p) && Completes(p, es, r)
    ensures var t := AtEnd(p, es, r); Done(t.world, t.outcome, t.error) == Remaining(p, r)
    decreases es
  {
    if !p.stage.Idle? {
      StepRemaining(p, es[0], r);
      EndIsRemaining(Step(p, es[0]), es[1..], r);
    }
  }

  /** However often the user asks again while a call is running, the call ends as the transaction. */
  lemma CallsDuringACall(p: Progress, v: View, es: seq<Event>, r: Replies)
    requires p.stage.Idle? && Completes(Step(p, Create(Some(v))), es, r)
    ensures var t := AtEnd(Step(p, Create(Some(v))), es, r); Done(t.world, t.outcome, t.error) == Transaction(p.world, v, r)
  {
    EndIsRemaining(Step(p, Create(Some(v))), es, r);
  }

  // ---------------------------------------------------------------- what the backend sees

  /** The calls a transaction adds. */
  function NewCalls(w: World, v: View, r: Replies): seq<Call>
    requires w.calls <= Transaction(w, v, r).world.calls
  {
    Transaction(w, v, r).world.calls[|w.calls|..]
  }

  /** The calls added, by cases. */
  lemma Conversation(w: World, v: View, r: Replies)
    ensures w.calls <= Transaction(w, v, r).world.calls
    ensures var c := NewCalls(w, v, r); var found := if r.listed && WantsScenario(v) then FindByName(w.scenarios, v.scenarioName.value) else None;
      if !WantsScenario(v) then c == [SaveProfile(BUILT_IN)]
      else if found.Some? && found.value != "" then c == [ListScenarios, SaveProfile(found.value)]
      else if !r.scenario.Stored? then c == [ListScenarios, SaveScenario(v.scenarioName.value)]
      else if r.profile.Stored? then c == [ListScenarios, SaveScenario(v.scenarioName.value), SaveProfile(r.scenario.id)]
      else c == [ListScenarios, SaveScenario(v.scenarioName.value), SaveProfile(r.scenario.id), DeleteScenario(r.scenario.id)]
  {
  }

  /** The order of a conversation: a new scenario is stored only after a listing; the profile is
      saved at most once, and a call that returns one ends with that; a deletion comes last, right
      after saving a profile bound to the scenario it deletes. */
  lemma CallOrder(w: World, v: View, r: Replies)
    ensures w.calls <= Transaction(w, v, r).world.calls
    ensures var c := NewCalls(w, v, r); var done := Transaction(w, v, r);
      && 1 <= |c| <= 4
      && (forall i :: 0 <= i < |c| && c[i].SaveScenario? ==> i == 1 && c[0] == ListScenarios)
      && (forall i, j :: 0 <= i < j < |c| && c[i].SaveProfile? ==> !c[j].SaveProfile?)
      && (forall i :: 0 <= i < |c| && c[i].DeleteScenario? ==> i == |c| - 1 == 3 && c[2] == SaveProfile(c[3].id) && c[1].SaveScenario?)
      && (done.profileId.Some? ==> c[|c| - 1].SaveProfile? && |done.world.profiles| == |w.profiles| + 1)
  {
    Conversation(w, v, r);
  }

  /** Only a scenario created in this call is ever deleted, so never one that was there before. */
  lemma DeletesOnlyOwn(w: World, v: View, r: Replies, id: string)
    requires Honest(w, r)
    ensures w.calls <= Transaction(w, v, r).world.calls
    ensures DeleteScenario(id) in NewCalls(w, v, r) ==>
      !HasId(w.scenarios, id) && r.scenario == Stored(id) && SaveScenario(v.scenarioName.value) in NewCalls(w, v, r)
  {
    Conversation(w, v, r);
  }

  lemma {:induction false} FindsFirst(scenarios: seq<Scenario>, name: string, i: nat)
    requires IsFirstNamed(scenarios, name, i)
    ensures FindByName(scenarios, name) == Some(scenarios[i].id)
  {
    if i > 0 {
      assert forall j :: 0 <= j < |scenarios[1..]| ==> scenarios[1..][j] == scenarios[j + 1];
      FindsFirst(scenarios[1..], name, i - 1);
    }
  }

  lemma {:induction false} FindsNone(scenarios: seq<Scenario>, name: string)
    requires forall j :: 0 <= j < |scenarios| ==> scenarios[j].name != name
    ensures FindByName(scenarios, name) == None
  {
    if scenarios != [] {
      assert forall j :: 0 <= j < |scenarios[1..]| ==> scenarios[1..][j] == scenarios[j + 1];
      FindsNone(scenarios[1..], name);
    }
  }

  /** Scenario i is the first of that name. */
  predicate IsFirstNamed(scenarios: seq<Scenario>, name: string, i: int) {
    0 <= i < |scenarios| && scenarios[i].name == name && forall j :: 0 <= j < i ==> scenarios[j].name != name
  }

  /** With a band to lock and a name for it: when the listing arrives and shows scenarios of that
      name, the profile is saved bound to the first of them, and no scenario is stored or deleted. */
  lemma ReusesByName(w: World, v: View, r: Replies, name: string, i: nat)
    requires (v.nsaBands != [] || v.saBands != []) && v.scenarioName == Some(name) && name != ""
    requires Honest(w, r) && r.listed && IsFirstNamed(w.scenarios, name, i)
    ensures var done := Transaction(w, v, r);
      && done.world.calls == w.calls + [ListScenarios, SaveProfile(w.scenarios[i].id)]
      && done.world.scenarios == w.scenarios
      && done.world.profiles == w.profiles + (if r.profile.Refused? then [] else [Profile(r.profile.id, w.scenarios[i].id)])
      && done.profileId == (if r.profile.Stored? then Some(r.profile.id) else None) && done.error == None
  {
    FindsFirst(w.scenarios, name, i);
  }

  /** When the listing does not arrive, or shows no scenario of that name, one is stored under the
      wanted name with the surviving bands, and on its id the profile is bound to it. When no id comes
      back the call ends there with the backend's words. */
  lemma StoresByName(w: World, v: View, r: Replies, name: string)
    requires (v.nsaBands != [] || v.saBands != []) && v.scenarioName == Some(name) && name != ""
    requires r.listed ==> forall j :: 0 <= j < |w.scenarios| ==> w.scenarios[j].name != name
    ensures var done := Transaction(w, v, r);
      if r.scenario.Stored? then
        var s := Scenario(r.scenario.id, name, BandsToColonString(v.nsaBands), BandsToColonString(v.saBands));
        && [ListScenarios, SaveScenario(name), SaveProfile(s.id)] <= done.world.calls[|w.calls|..]
        && done.profileId == (if r.profile.Stored? then Some(r.profile.id) else None) && done.error == None
        && (r.profile.Stored? ==> done.world.scenarios == w.scenarios + [s] && done.world.profiles == w.profiles + [Profile(r.profile.id, s.id)])
      else
        && done.world.calls == w.calls + [ListScenarios, SaveScenario(name)] && done.world.profiles == w.profiles
        && done.profileId == None && done.error == if r.scenario.detail == "" then None else Some(r.scenario.detail)
  {
    if r.listed { FindsNone(w.scenarios, name); }
    Conversation(w, v, r);
    hide FindByName, BandsToColonString;
  }

  /** Without a name to give it, or without a band, no scenario is wanted: the built-in is bound. */
  lemma BindsBuiltIn(w: World, v: View, r: Replies)
    requires (v.nsaBands == [] && v.saBands == []) || v.scenarioName == None || v.scenarioName == Some("")
    ensures var done := Transaction(w, v, r);
      && done.world.calls == w.calls + [SaveProfile("balanced")] && done.world.scenarios == w.scenarios
      && done.world.profiles == w.profiles + (if r.profile.Refused? then [] else [Profile(r.profile.id, "balanced")])
      && done.profileId == (if r.profile.Stored? then Some(r.profile.id) else None) && done.error == None
  {
  }

  /** When no band survives intersection, no scenario is listed, created or deleted: the profile
      binds the built-in. */
  lemma NoBandsNoScenario(w: World, v: View, r: Replies)
    requires v.nsaBands == [] && v.saBands == []
    ensures w.calls <= Transaction(w, v, r).world.calls && NewCalls(w, v, r) == [SaveProfile(BUILT_IN)]
    ensures Transaction(w, v, r).world.scenarios == w.scenarios
  {
    Conversation(w, v, r);
  }

  lemma {:induction false} WithoutAbsent(scenarios: seq<Scenario>, id: string)
    requires !HasId(scenarios, id)
    ensures Without(scenarios, id) == scenarios
  {
    if scenarios != [] {
      assert forall x :: HasId(scenarios[1..], x) ==> HasId(scenarios, x);
      assert scenarios[0].id != id;
      WithoutAbsent(scenarios[1..], id);
    }
  }

  lemma {:induction false} WithoutLast(scenarios: seq<Scenario>, s: Scenario)
    requires !HasId(scenarios, s.id)
    ensures Without(scenarios + [s], s.id) == scenarios
  {
    if scenarios == [] {
      assert scenarios + [s] == [s];
    } else {
      assert scenarios[0].id != s.id;
      assert forall x :: HasId(scenarios[1..], x) ==> HasId(scenarios, x);
      assert (scenarios + [s])[1..] == scenarios[1..] + [s];
      WithoutLast(scenarios[1..], s);
    }
  }

  /** The profile is only ever saved bound to the built-in or to a scenario that exists then. */
  lemma BindsExisting(w: World, v: View, r: Replies, scenario: string)
    requires Honest(w, r)
    ensures w.calls <= Transaction(w, v, r).world.calls
    ensures SaveProfile(scenario) in NewCalls(w, v, r) ==>
      || scenario == BUILT_IN
      || HasId(w.scenarios, scenario)
      || (r.scenario == Stored(scenario) && HasId(StoreScenarioIn(w, v, r.scenario).scenarios, scenario))
  {
    Conversation(w, v, r);
    if WantsScenario(v) && r.scenario == Stored(scenario) {
      var t := StoreScenarioIn(w, v, r.scenario).scenarios;
      assert t[|w.scenarios|].id == scenario;
    }
  }

  /** Whether this call makes a scenario on the backend. */
  predicate Creates(w: World, v: View, r: Replies) {
    WantsScenario(v) && IdOf(r.scenario).Some?
    && var found := if r.listed then FindByName(w.scenarios, v.scenarioName.value) else None; !(found.Some? && found.value != "")
  }

  /** The scenario set afterwards: as found, unless this call created a scenario and the rollback
      did not take it away again. */
  lemma ScenariosAfter(w: World, v: View, r: Replies)
    requires Honest(w, r)
    ensures var done := Transaction(w, v, r);
      done.world.scenarios ==
        if Creates(w, v, r) && !(r.scenario.Stored? && done.profileId.None? && r.deleted)
        then w.scenarios + [NewScenario(v, IdOf(r.scenario).value)]
        else w.scenarios
  {
    if Creates(w, v, r) {
      WithoutLast(w.scenarios, NewScenario(v, IdOf(r.scenario).value));
    }
  }

  /** A call that returns no profile leaves the scenario set as found exactly when it created none,
      or knows the one it created and the deletion took effect. */
  lemma FailureRestoresIff(w: World, v: View, r: Replies)
    requires Honest(w, r) && Transaction(w, v, r).profileId.None?
    ensures Transaction(w, v, r).world.scenarios == w.scenarios <==>
      !Creates(w, v, r) || (r.scenario.Stored? && r.deleted)
  {
    ScenariosAfter(w, v, r);
    if Creates(w, v, r) {
      assert |w.scenarios + [NewScenario(v, IdOf(r.scenario).value)]| == |w.scenarios| + 1;
    }
  }

  /** The rollback is one attempt: the profile is refused, the deletion does not land, and the new
      scenario is left behind, with no error of this hook. */
  lemma OrphanLeft(name: string, band: int, detail: string)
    requires name != ""
    ensures var w, v := World([], [], []), View(Some(name), [band], []);
      var r := Replies(true, Stored("s"), Refused(detail), false);
      Honest(w, r) && var done := Transaction(w, v, r);
      done.profileId.None? && done.error.None? && done.world.scenarios == [NewScenario(v, "s")]
  {
    var w, v := World([], [], []), View(Some(name), [band], []);
    ScenariosAfter(w, v, Replies(true, Stored("s"), Refused(detail), false));
  }

  /** Every profile is bound to the built-in or to a stored scenario. */
  ghost predicate Bound(w: World) {
    forall i :: 0 <= i < |w.profiles| ==> w.profiles[i].scenario == BUILT_IN || HasId(w.scenarios, w.profiles[i].scenario)
  }

  /** The rollback cuts a saved profile loose exactly when the profile was stored, its reply was
      lost, and the scenario created for it was then deleted. */
  lemma StaysBoundIff(w: World, v: View, r: Replies)
    requires Honest(w, r) && Bound(w)
    ensures Bound(Transaction(w, v, r).world) <==>
      !(Creates(w, v, r) && r.scenario.Stored? && r.profile.StoredLost? && r.deleted)
  {
    ScenariosAfter(w, v, r);
    var t := Transaction(w, v, r).world;
    forall id | HasId(w.scenarios, id) ensures HasId(t.scenarios, id) {
      var i :| 0 <= i < |w.scenarios| && w.scenarios[i].id == id;
      assert t.scenarios[i].id == id;
    }
    if Creates(w, v, r) && r.scenario.Stored? {
      var id := r.scenario.id;
      if IdOf(r.profile).Some? {
        assert t.profiles[|w.profiles|] == Profile(IdOf(r.profile).value, id);
      }
      if |t.scenarios| > |w.scenarios| { assert t.scenarios[|w.scenarios|].id == id; }
    }
    forall i | 0 <= i < |w.profiles| ensures t.profiles[i] == w.profiles[i] {}
  }

  /** An empty backend stores scenario and profile and loses the profile's reply: the profile is
      left bound to a scenario that is gone. */
  lemma CutLoose(name: string, band: int)
    requires name != ""
    ensures var w, v := World([], [], []), View(Some(name), [band], []);
      var r := Replies(true, Stored("s"), StoredLost("p", "timeout"), true);
      Honest(w, r) && Bound(w) && var t := Transaction(w, v, r).world;
      t.profiles == [Profile("p", "s")] && t.scenarios == [] && !Bound(t)
  {
    var w, v := World([], [], []), View(Some(name), [band], []);
    var r := Replies(true, Stored("s"), StoredLost("p", "timeout"), true);
    ScenariosAfter(w, v, r);
    StaysBoundIff(w, v, r);
  }

  /** A scenario this call creates locks at least one band, and its band texts read back as the
      surviving bands. */
  lemma CreatedLocksBands(w: World, v: View, r: Replies, nsa: seq<int>, sa: seq<int>)
    requires Creates(w, v, r)
    requires forall i :: 0 <= i < |v.nsaBands| ==> v.nsaBands[i] > 0
    requires forall i :: 0 <= i < |v.saBands| ==> v.saBands[i] > 0
    requires var s := NewScenario(v, IdOf(r.scenario).value);
      IsBandList(Some(s.nsaBands), nsa) && IsBandList(Some(s.saBands), sa)
    ensures (forall n :: n in nsa <==> n in v.nsaBands) && (forall n :: n in sa <==> n in v.saBands)
    ensures nsa != [] || sa != []
  {
    PrintThenParse(v.nsaBands, nsa);
    PrintThenParse(v.saBands, sa);
    if |v.nsaBands| > 0 { assert v.nsaBands[0] in nsa; } else { assert v.saBands[0] in sa; }
  }
}
