/** System settings: overlapping reads and saves whose replies arrive in any order. Every request
    takes a sequence number when it is issued; a reply older than the last applied one is dropped. */
module SystemSettings {
  import opened Text

  type Settings = int
  type Schedule = int

  datatype ReadReply = Good(settings: Settings, schedule: Schedule) | Unsuccessful | Lost(message: string)
  datatype SaveReply = Saved(schedule: Option<Schedule>) | Rejected | SaveLost

  /** A request on the wire: a read, perhaps on behalf of a save, or a save of the preferences or
      of the reboot schedule. */
  datatype Request = Read(silent: bool, forSave: bool) | Save(preferences: bool)

  datatype State = State(
    mounted: bool, reqSeq: nat, appliedSeq: nat, settings: Option<Settings>, schedule: Option<Schedule>,
    error: Option<string>, isLoading: bool, isSaving: bool, wire: map<nat, Request>)

  /** The state right after the mount has issued the first read. */
  const START := State(true, 1, 0, None, None, None, true, false, map[1 := Read(false, false)])

  // ---------------------------------------------------------------- steps

  datatype Event =
    | IssueRead(silent: bool)
    | IssueSave(preferences: bool)
    | ReadLands(number: nat, read: ReadReply)
    | SaveLands(number: nat, save: SaveReply)
    | Unmount

  predicate Enabled(s: State, e: Event) {
    match e
    case ReadLands(n, _) => n in s.wire && s.wire[n].Read?
    case SaveLands(n, _) => n in s.wire && s.wire[n].Save?
    case _ => true
  }

  function Issue(s: State, silent: bool, forSave: bool): State {
    s.(reqSeq := s.reqSeq + 1, isLoading := s.isLoading || !silent, error := None,
       wire := s.wire[s.reqSeq + 1 := Read(silent, forSave)])
  }

  /** A read's reply, when it is newer than everything applied. */
  function ApplyRead(s: State, n: nat, read: ReadReply): State {
    if n <= s.appliedSeq then s
    else
      var t := s.(appliedSeq := n);
      match read
      case Good(settings, schedule) => t.(settings := Some(settings), schedule := Some(schedule))
      case Unsuccessful => t.(error := Some("Failed to fetch system settings"))
      case Lost(m) => t.(error := Some(m))
  }

  function OnRead(s: State, n: nat, read: ReadReply): State
    requires n in s.wire && s.wire[n].Read?
  {
    var t := s.(wire := s.wire - {n});
    if !s.mounted then t
    else
      var u := ApplyRead(t, n, read);
      u.(isLoading := s.isLoading && s.wire[n].silent, isSaving := s.isSaving && !s.wire[n].forSave)
  }

  function OnSave(s: State, n: nat, save: SaveReply): State
    requires n in s.wire && s.wire[n].Save?
  {
    var t := s.(wire := s.wire - {n});
    if !s.mounted then t
    else if !save.Saved? then t.(isSaving := false)
    else
      var u := if save.schedule.Some? && n > s.appliedSeq then t.(appliedSeq := n, schedule := save.schedule) else t;
      if s.wire[n].preferences then Issue(u, true, true) else u.(isSaving := false)
  }

  function Step(s: State, e: Event): State
    requires Enabled(s, e)
  {
    match e
    case IssueRead(silent) => Issue(s, silent, false)
    case IssueSave(preferences) =>
      s.(reqSeq := s.reqSeq + 1, isSaving := true, wire := s.wire[s.reqSeq + 1 := Save(preferences)])
    case ReadLands(n, read) => OnRead(s, n, read)
    case SaveLands(n, save) => OnSave(s, n, save)
    case Unmount => s.(mounted := false)
  }

  ghost predicate Runs(s: State, es: seq<Event>)
    decreases es
  {
    es == [] || (Enabled(s, es[0]) && Runs(Step(s, es[0]), es[1..]))
  }

  ghost function After(s: State, es: seq<Event>): State
    requires Runs(s, es)
    decreases es
  {
    if es == [] then s else After(Step(s, es[0]), es[1..])
  }

  // ---------------------------------------------------------------- the hook

  class Hook {
    var mountedRef: bool
    var reqSeqRef: nat
    var appliedSeqRef: nat
    var settings: Option<Settings>
    var scheduledReboot: Option<Schedule>
    var error: Option<string>
    var isLoading: bool
    var isSaving: bool
    var wire: map<nat, Request>

    ghost function Abs(): State
      reads this
    {
      State(mountedRef, reqSeqRef, appliedSeqRef, settings, scheduledReboot, error, isLoading, isSaving, wire)
    }

    constructor ()
      ensures Abs() == START
    {
      mountedRef, reqSeqRef, appliedSeqRef := true, 1, 0;
      settings, scheduledReboot, error := None, None, None;
      isLoading, isSaving, wire := true, false, map[1 := Read(false, false)];
    }

    method FetchSettings(silent: bool, forSave: bool)
      modifies this
      ensures Abs() == Issue(old(Abs()), silent, forSave)
    {
      reqSeqRef := reqSeqRef + 1;
      wire := wire[reqSeqRef := Read(silent, forSave)];
      if !silent { isLoading := true; }
      error := None;
    }

    method PostAction(preferences: bool)
      modifies this
      ensures Abs() == Step(old(Abs()), IssueSave(preferences))
    {
      reqSeqRef := reqSeqRef + 1;
      wire := wire[reqSeqRef := Save(preferences)];
      isSaving := true;
    }

    method ReadReplied(n: nat, read: ReadReply)
      requires n in wire && wire[n].Read?
      modifies this
      ensures Abs() == Step(old(Abs()), ReadLands(n, read))
    {
      var request := wire[n];
      wire := wire - {n};
      if !mountedRef { return; }
      if n > appliedSeqRef {
        appliedSeqRef := n;
        match read {
          case Good(s, r) =>
            settings := Some(s);
            scheduledReboot := Some(r);
          case Unsuccessful => error := Some("Failed to fetch system settings");
          case Lost(m) => error := Some(m);
        }
      }
      if !request.silent { isLoading := false; }
      if request.forSave { isSaving := false; }
    }

    method SaveReplied(n: nat, save: SaveReply)
      requires n in wire && wire[n].Save?
      modifies this
      ensures Abs() == Step(old(Abs()), SaveLands(n, save))
    {
      var request := wire[n];
      wire := wire - {n};
      if !mountedRef { return; }
      if !save.Saved? {
        isSaving := false;
        return;
      }
      if save.schedule.Some? && n > appliedSeqRef {
        appliedSeqRef := n;
        scheduledReboot := save.schedule;
      }
      if request.preferences {
        FetchSettings(true, true);
      } else {
        isSaving := false;
      }
    }

    method Unmounted()
      modifies this
      ensures Abs() == Step(old(Abs()), Unmount)
    {
      mountedRef := false;
    }
  }

  // ---------------------------------------------------------------- sequence numbers

  /** Numbers on the wire were issued and not applied; a spinner turns only while something is out that will stop it. */
  ghost predicate Inv(s: State) {
    && s.appliedSeq <= s.reqSeq && s.appliedSeq !in s.wire
    && (forall n :: n in s.wire ==> n <= s.reqSeq)
    && (s.mounted && s.isLoading ==> exists n :: n in s.wire && s.wire[n].Read? && !s.wire[n].silent)
    && (s.mounted && s.isSaving ==> exists n :: n in s.wire && Saves(s.wire[n]))
  }

  predicate Saves(r: Request) {
    r.Save? || r.forSave
  }

  lemma IssueKeepsInv(s: State, r: Request, t: State)
    requires Inv(s) && t.wire == s.wire[s.reqSeq + 1 := r] && t.reqSeq == s.reqSeq + 1
    requires t.appliedSeq == s.appliedSeq && t.mounted == s.mounted
    requires t.isLoading ==> s.isLoading || (r.Read? && !r.silent)
    requires t.isSaving ==> s.isSaving || Saves(r)
    ensures Inv(t)
  {
    assert s.reqSeq + 1 in t.wire;
    if s.mounted && s.isLoading {
      var n :| n in s.wire && s.wire[n].Read? && !s.wire[n].silent;
      assert n in t.wire && t.wire[n] == s.wire[n];
    }
    if s.mounted && s.isSaving {
      var n :| n in s.wire && Saves(s.wire[n]);
      assert n in t.wire && t.wire[n] == s.wire[n];
    }
  }

  /** Taking a request off the wire keeps the invariant when the spinners it served stop. */
  lemma LandKeepsInv(s: State, n: nat, t: State)
    requires Inv(s) && n in s.wire && t.wire == s.wire - {n} && t.reqSeq == s.reqSeq && t.mounted == s.mounted
    requires t.appliedSeq == s.appliedSeq || t.appliedSeq == n
    requires t.isLoading ==> s.isLoading && (s.wire[n].Read? ==> s.wire[n].silent)
    requires t.isSaving ==> s.isSaving && !Saves(s.wire[n])
    ensures Inv(t)
  {
    if s.mounted && t.isLoading {
      var m :| m in s.wire && s.wire[m].Read? && !s.wire[m].silent;
      assert m in t.wire && t.wire[m] == s.wire[m];
    }
    if s.mounted && t.isSaving {
      var m :| m in s.wire && Saves(s.wire[m]);
      assert m in t.wire && t.wire[m] == s.wire[m];
    }
  }

  /** A landed preferences save hands its spinner to the read it issues. */
  lemma SaveKeepsInv(s: State, n: nat, save: SaveReply)
    requires Inv(s) && Enabled(s, SaveLands(n, save))
    ensures Inv(OnSave(s, n, save))
  {
    var t := OnSave(s, n, save);
    if s.mounted && save.Saved? && s.wire[n].preferences {
      var u := s.(wire := s.wire - {n}, isSaving := false, appliedSeq := t.appliedSeq);
      LandKeepsInv(s, n, u);
      IssueKeepsInv(u, Read(true, true), t);
    } else if s.mounted {
      LandKeepsInv(s, n, t);
    }
  }

  lemma StepKeepsInv(s: State, e: Event)
    requires Inv(s) && Enabled(s, e)
    ensures Inv(Step(s, e))
  {
    match e
    case IssueRead(silent) => IssueKeepsInv(s, Read(silent, false), Step(s, e));
    case IssueSave(preferences) => IssueKeepsInv(s, Save(preferences), Step(s, e));
    case ReadLands(n, read) => if s.mounted { LandKeepsInv(s, n, Step(s, e)); }
    case SaveLands(n, save) => SaveKeepsInv(s, n, save);
    case Unmount =>
  }

  /** Over every run, no spinner is stranded: while mounted, "loading" means a visible read is out,
      and "saving" that a save, or the read that follows it, is. */
  lemma {:induction false} RunsKeepInv(s: State, es: seq<Event>)
    requires Inv(s) && Runs(s, es)
    ensures Inv(After(s, es))
    decreases es
  {
    if es != [] {
      StepKeepsInv(s, es[0]);
      RunsKeepInv(Step(s, es[0]), es[1..]);
    }
  }

  /** In every run from the mount no spinner is stranded: "loading" means a visible read is out,
      "saving" that a save or the read that follows it is; an idle wire means neither. */
  lemma NoSpinnerStranded(es: seq<Event>)
    requires Runs(START, es)
    ensures var s := After(START, es);
      && s.appliedSeq <= s.reqSeq && (forall n :: n in s.wire ==> n <= s.reqSeq)
      && (s.mounted && s.isLoading ==> exists n :: n in s.wire && s.wire[n].Read? && !s.wire[n].silent)
      && (s.mounted && s.isSaving ==> exists n :: n in s.wire && Saves(s.wire[n]))
      && (s.mounted && s.wire == map[] ==> !s.isLoading && !s.isSaving)
  {
    assert 1 in START.wire;
    RunsKeepInv(START, es);
  }

  // ---------------------------------------------------------------- spinners that stop early

  predicate Visible(r: Request) {
    r.Read? && !r.silent
  }

  /** A visible read is out, other than n. */
  ghost predicate VisibleOut(s: State, n: nat) {
    exists m :: m in s.wire && m != n && Visible(s.wire[m])
  }

  /** A save, or the read that follows one, is out, other than n. */
  ghost predicate SavingOut(s: State, n: nat) {
    exists m :: m in s.wire && m != n && Saves(s.wire[m])
  }

  /** While mounted, "loading" iff a visible read is out, and "saving" iff a save or its read is. */
  ghost predicate SpinnersAgree(s: State) {
    s.mounted ==> (s.isLoading <==> VisibleOut(s, 0)) && (s.isSaving <==> SavingOut(s, 0))
  }

  /** The landing stops "saving"; a preferences save that succeeds hands it on to its read instead. */
  predicate StopsSaving(s: State, e: Event)
    requires Enabled(s, e)
  {
    match e
    case ReadLands(n, _) => s.wire[n].forSave
    case SaveLands(n, save) => !(save.Saved? && s.wire[n].preferences)
    case _ => false
  }

  /** A spinner stops while another request it stands for is out. */
  ghost predicate StopsEarly(s: State, e: Event)
    requires Enabled(s, e)
  {
    s.mounted &&
      ((e.ReadLands? && Visible(s.wire[e.number]) && VisibleOut(s, e.number))
       || (StopsSaving(s, e) && SavingOut(s, ReplyNumber(e))))
  }

  /** Requests are numbered from one. */
  ghost predicate Numbered(s: State) {
    forall n :: n in s.wire ==> 0 < n <= s.reqSeq
  }

  lemma IssueSpinners(s: State, r: Request, t: State)
    requires Numbered(s) && SpinnersAgree(s) && t.wire == s.wire[s.reqSeq + 1 := r] && t.mounted == s.mounted
    requires t.isLoading == (s.isLoading || Visible(r)) && t.isSaving == (s.isSaving || Saves(r))
    ensures SpinnersAgree(t)
  {
    var n := s.reqSeq + 1;
    assert n in t.wire && t.wire[n] == r;
    assert forall m :: m in s.wire ==> m in t.wire && t.wire[m] == s.wire[m];
    assert forall m :: m in t.wire && m != n ==> m in s.wire && t.wire[m] == s.wire[m];
  }

  lemma LandOut(s: State, n: nat, t: State)
    requires Numbered(s) && t.wire == s.wire - {n}
    ensures VisibleOut(t, 0) <==> VisibleOut(s, n)
    ensures SavingOut(t, 0) <==> SavingOut(s, n)
  {
    assert forall m :: m in t.wire <==> m in s.wire && m != n;
    assert forall m :: m in t.wire ==> t.wire[m] == s.wire[m];
  }

  lemma OthersOut(s: State, n: nat)
    requires Numbered(s) && n in s.wire
    ensures VisibleOut(s, 0) <==> Visible(s.wire[n]) || VisibleOut(s, n)
    ensures SavingOut(s, 0) <==> Saves(s.wire[n]) || SavingOut(s, n)
  {
  }

  lemma ReadSpinners(s: State, n: nat, read: ReadReply)
    requires Numbered(s) && SpinnersAgree(s) && Enabled(s, ReadLands(n, read))
    ensures SpinnersAgree(OnRead(s, n, read)) <==> !StopsEarly(s, ReadLands(n, read))
  {
    OthersOut(s, n);
    LandOut(s, n, OnRead(s, n, read));
    hide VisibleOut, SavingOut;
  }

  lemma SaveSpinners(s: State, n: nat, save: SaveReply)
    requires Numbered(s) && SpinnersAgree(s) && Enabled(s, SaveLands(n, save))
    ensures SpinnersAgree(OnSave(s, n, save)) <==> !StopsEarly(s, SaveLands(n, save))
  {
    var t := OnSave(s, n, save);
    var u := s.(wire := s.wire - {n});
    OthersOut(s, n);
    LandOut(s, n, u);
    if save.Saved? && s.wire[n].preferences {
      assert s.reqSeq + 1 in t.wire || !s.mounted;
      HandedOn(u, t);
    } else {
      assert t.wire == u.wire;
      LandOut(s, n, t);
    }
    hide VisibleOut, SavingOut;
  }

  /** The read that follows a preferences save is silent, and keeps "saving" up. */
  lemma HandedOn(u: State, t: State)
    requires Numbered(u) && (t.wire == u.wire || t.wire == u.wire[u.reqSeq + 1 := Read(true, true)])
    ensures VisibleOut(t, 0) <==> VisibleOut(u, 0)
    ensures SavingOut(t, 0) <==> SavingOut(u, 0) || t.wire != u.wire
  {
    if t.wire != u.wire { assert u.reqSeq + 1 in t.wire && Saves(t.wire[u.reqSeq + 1]); }
    assert forall m :: m in u.wire ==> m in t.wire && t.wire[m] == u.wire[m];
    assert forall m :: m in t.wire && m != u.reqSeq + 1 ==> m in u.wire && t.wire[m] == u.wire[m];
  }

  lemma StepSpinners(s: State, e: Event)
    requires Numbered(s) && SpinnersAgree(s) && Enabled(s, e)
    ensures Numbered(Step(s, e)) && (SpinnersAgree(Step(s, e)) <==> !StopsEarly(s, e))
  {
    assert Numbered(Step(s, e));
    match e
    case IssueRead(silent) => IssueSpinners(s, Read(silent, false), Step(s, e));
    case IssueSave(preferences) => IssueSpinners(s, Save(preferences), Step(s, e));
    case ReadLands(n, read) => ReadSpinners(s, n, read);
    case SaveLands(n, save) => SaveSpinners(s, n, save);
    case Unmount =>
  }

  ghost predicate AlwaysAgree(s: State, es: seq<Event>)
    requires Runs(s, es)
    decreases es
  {
    SpinnersAgree(s) && (es != [] ==> AlwaysAgree(Step(s, es[0]), es[1..]))
  }

  ghost predicate EverStopsEarly(s: State, es: seq<Event>)
    requires Runs(s, es)
    decreases es
  {
    es != [] && (StopsEarly(s, es[0]) || EverStopsEarly(Step(s, es[0]), es[1..]))
  }

  /** The spinners tell the whole truth throughout a run exactly when none stops while another
      request of its kind is out. */
  lemma {:induction false} SpinnersTrueIff(s: State, es: seq<Event>)
    requires Numbered(s) && SpinnersAgree(s) && Runs(s, es)
    ensures AlwaysAgree(s, es) <==> !EverStopsEarly(s, es)
    decreases es
  {
    if es != [] {
      var t := Step(s, es[0]);
      StepSpinners(s, es[0]);
      hide Step, Enabled, SpinnersAgree, StopsEarly, Numbered;
      if SpinnersAgree(t) {
        SpinnersTrueIff(t, es[1..]);
      } else {
        assert !AlwaysAgree(t, es[1..]);
      }
    }
  }

  lemma MountedSpinnersTrueIff(es: seq<Event>)
    requires Runs(START, es)
    ensures AlwaysAgree(START, es) <==> !EverStopsEarly(START, es)
  {
    assert 1 in START.wire && Visible(START.wire[1]);
    SpinnersTrueIff(START, es);
  }

  /** From the mount: of two visible reads the newer lands, and "loading" stops over the older. */
  lemma EarlyStopRun(read: ReadReply)
    ensures var es := [IssueRead(false), ReadLands(2, read)];
      Runs(START, es) && var s := After(START, es); s.wire == map[1 := Read(false, false)] && s.mounted && !s.isLoading
  {
    var e0, e1 := IssueRead(false), ReadLands(2, read);
    var s1 := Step(START, e0);
    var s2 := Step(s1, e1);
    assert s2.wire == map[1 := Read(false, false)];
    assert [e0, e1][1..] == [e1] && [e1][1..] == [];
    assert Runs(s2, []) && After(s2, []) == s2;
    assert Runs(s1, [e1]) && After(s1, [e1]) == s2;
  }

  // ---------------------------------------------------------------- replies in any order

  /** Number of a reply; 0 for steps that are not replies. */
  function ReplyNumber(e: Event): nat {
    match e case ReadLands(n, _) => n case SaveLands(n, _) => n case _ => 0
  }

  lemma StepRaisesApplied(s: State, e: Event)
    requires Enabled(s, e)
    ensures s.appliedSeq <= Step(s, e).appliedSeq
    ensures Step(s, e).appliedSeq == s.appliedSeq || Step(s, e).appliedSeq == ReplyNumber(e)
  {
  }

  /** Over every run the applied number only rises. */
  lemma {:induction false} AppliedRises(s: State, es: seq<Event>)
    requires Runs(s, es)
    ensures After(s, es).appliedSeq >= s.appliedSeq
    decreases es
  {
    if es != [] {
      StepRaisesApplied(s, es[0]);
      AppliedRises(Step(s, es[0]), es[1..]);
    }
  }

  /** A reply no newer than the applied one changes neither settings nor schedule; it changes the
      error line exactly when it is the success of a preferences save, whose follow-up read wipes it. */
  lemma StaleReply(s: State, e: Event)
    requires Enabled(s, e) && (e.ReadLands? || e.SaveLands?) && ReplyNumber(e) <= s.appliedSeq
    ensures var t := Step(s, e);
      && t.settings == s.settings && t.schedule == s.schedule && t.appliedSeq == s.appliedSeq
      && (t.error != s.error <==>
            s.mounted && s.error.Some? && e.SaveLands? && e.save.Saved? && s.wire[e.number].preferences)
  {
  }

  predicate NoReplyAbove(es: seq<Event>, m: nat) {
    forall i :: 0 <= i < |es| ==> ReplyNumber(es[i]) <= m
  }

  /** Once applied, a number shields its data from every older reply. */
  lemma {:induction false} Shielded(s: State, es: seq<Event>)
    requires Runs(s, es) && NoReplyAbove(es, s.appliedSeq)
    ensures var t := After(s, es); t.settings == s.settings && t.schedule == s.schedule && t.appliedSeq == s.appliedSeq
    decreases es
  {
    if es != [] {
      if es[0].ReadLands? || es[0].SaveLands? { StaleReply(s, es[0]); }
      assert forall i :: 0 <= i < |es[1..]| ==> es[1..][i] == es[i + 1];
      Shielded(Step(s, es[0]), es[1..]);
    }
  }

  /** The run stays mounted up to and including step i. */
  predicate MountedUntil(es: seq<Event>, i: nat) {
    forall j :: 0 <= j < i && j < |es| ==> !es[j].Unmount?
  }

  /** A number that has landed never lands again. */
  lemma {:induction false} NeverLandsAgain(s: State, es: seq<Event>, n: nat)
    requires Runs(s, es) && 0 < n <= s.reqSeq && n !in s.wire
    ensures forall i :: 0 <= i < |es| ==> ReplyNumber(es[i]) != n
    decreases es
  {
    if es != [] {
      NeverLandsAgain(Step(s, es[0]), es[1..], n);
      assert forall i :: 0 < i < |es| ==> es[i] == es[1..][i - 1];
    }
  }

  lemma LandedIsOff(s: State, e: Event)
    requires Inv(s) && Enabled(s, e) && (e.ReadLands? || e.SaveLands?)
    ensures ReplyNumber(e) <= Step(s, e).reqSeq && ReplyNumber(e) !in Step(s, e).wire
  {
    assert ReplyNumber(e) in s.wire && ReplyNumber(e) <= s.reqSeq;
    hide Inv, ApplyRead;
  }

  lemma StepMounted(s: State, e: Event)
    requires Enabled(s, e)
    ensures Step(s, e).mounted <==> s.mounted && !e.Unmount?
  {
    hide Enabled;
  }

  /** Whatever the order of arrival, and whatever the other replies are: when the newest of the
      replies is a good read, the settings and the schedule end as that read gave them. */
  lemma {:induction false} NewestGoodReadWins(s: State, es: seq<Event>, i: nat, settings: Settings, schedule: Schedule)
    requires Inv(s) && Runs(s, es) && s.mounted && i < |es| && MountedUntil(es, i)
    requires es[i] == ReadLands(ReplyNumber(es[i]), Good(settings, schedule))
    requires s.appliedSeq < ReplyNumber(es[i]) && NoReplyAbove(es, ReplyNumber(es[i]))
    ensures var t := After(s, es);
      t.settings == Some(settings) && t.schedule == Some(schedule) && t.appliedSeq == ReplyNumber(es[i])
    decreases es
  {
    var rest, t := es[1..], Step(s, es[0]);
    assert forall j :: 0 <= j < |rest| ==> rest[j] == es[j + 1];
    if i == 0 {
      Shielded(t, rest);
    } else {
      hide Step, Enabled, Inv;
      assert es[i] == rest[i - 1];
      StepKeepsInv(s, es[0]);
      StepRaisesApplied(s, es[0]);
      StepMounted(s, es[0]);
      if ReplyNumber(es[0]) == ReplyNumber(es[i]) {
        LandedIsOff(s, es[0]);
        NeverLandsAgain(t, rest, ReplyNumber(es[i]));
      }
      NewestGoodReadWins(t, rest, i - 1, settings, schedule);
    }
  }

  // ---------------------------------------------------------------- which replies count

  /** The landing moves the applied number if it is newer: a read, or a save that brings a schedule. */
  predicate Counts(s: State, e: Event) {
    s.mounted && (e.ReadLands? || (e.SaveLands? && e.save.Saved? && e.save.schedule.Some?))
  }

  /** A landing of a number of at least n has counted. */
  ghost predicate Outrun(s: State, es: seq<Event>, n: nat)
    requires Runs(s, es)
    decreases es
  {
    es != [] && ((Counts(s, es[0]) && ReplyNumber(es[0]) >= n) || Outrun(Step(s, es[0]), es[1..], n))
  }

  /** The applied number is the greatest that has counted. */
  lemma {:induction false} AppliedIsGreatest(s: State, es: seq<Event>, n: nat)
    requires Runs(s, es)
    ensures n <= After(s, es).appliedSeq <==> n <= s.appliedSeq || Outrun(s, es, n)
    decreases es
  {
    if es != [] {
      AppliedIsGreatest(Step(s, es[0]), es[1..], n);
    }
  }

  /** After any run from the mount, the data of a good read that lands are dropped exactly when the
      hook is unmounted, or a read or a schedule of a greater number has landed. Otherwise they show. */
  lemma ReadDroppedIff(es: seq<Event>, n: nat, settings: Settings, schedule: Schedule)
    requires Runs(START, es) && Enabled(After(START, es), ReadLands(n, Good(settings, schedule)))
    ensures var s := After(START, es); var t := Step(s, ReadLands(n, Good(settings, schedule)));
      if !s.mounted || Outrun(START, es, n + 1)
      then t.settings == s.settings && t.schedule == s.schedule && t.appliedSeq == s.appliedSeq
      else t.settings == Some(settings) && t.schedule == Some(schedule) && t.appliedSeq == n
  {
    assert 1 in START.wire;
    RunsKeepInv(START, es);
    AppliedIsGreatest(START, es, n + 1);
  }

  /** A good read lands, newer than everything applied. */
  predicate Shows(s: State, e: Event) {
    e.ReadLands? && e.read.Good? && s.mounted && e.number > s.appliedSeq
  }

  ghost predicate NeverShows(s: State, es: seq<Event>)
    requires Runs(s, es)
    decreases es
  {
    es == [] || (!Shows(s, es[0]) && NeverShows(Step(s, es[0]), es[1..]))
  }

  /** The last good read that was newest on landing brought these settings. */
  ghost predicate LastShows(s: State, es: seq<Event>, settings: Settings)
    requires Runs(s, es)
    decreases es
  {
    es != [] && var t := Step(s, es[0]);
      (Shows(s, es[0]) && es[0].read.settings == settings && NeverShows(t, es[1..])) || LastShows(t, es[1..], settings)
  }

  /** What the settings are after any run: those of the last good read that was newest when it
      landed, else what they were. */
  lemma {:induction false} SettingsAfter(s: State, es: seq<Event>, settings: Settings)
    requires Runs(s, es)
    ensures After(s, es).settings == Some(settings) <==>
      LastShows(s, es, settings) || (s.settings == Some(settings) && NeverShows(s, es))
    decreases es
  {
    if es != [] {
      SettingsAfter(Step(s, es[0]), es[1..], settings);
    }
  }

  /** The schedule a step brings: a good read's or a saved one, newer than everything applied. */
  function Brings(s: State, e: Event): Option<Schedule> {
    match e
    case ReadLands(n, Good(_, schedule)) => if s.mounted && n > s.appliedSeq then Some(schedule) else None
    case SaveLands(n, Saved(schedule)) => if s.mounted && n > s.appliedSeq then schedule else None
    case _ => None
  }

  ghost predicate NeverBrings(s: State, es: seq<Event>)
    requires Runs(s, es)
    decreases es
  {
    es == [] || (Brings(s, es[0]) == None && NeverBrings(Step(s, es[0]), es[1..]))
  }

  ghost predicate LastBrings(s: State, es: seq<Event>, schedule: Schedule)
    requires Runs(s, es)
    decreases es
  {
    es != [] && ((Brings(s, es[0]) == Some(schedule) && NeverBrings(Step(s, es[0]), es[1..])) || LastBrings(Step(s, es[0]), es[1..], schedule))
  }

  lemma StepSchedule(s: State, e: Event)
    requires Enabled(s, e)
    ensures Step(s, e).schedule == if Brings(s, e).Some? then Brings(s, e) else s.schedule
  {
  }

  /** What the schedule is after any run: the last one brought by a read or a save that was newest when
      it landed, else what it was. */
  lemma {:induction false} ScheduleAfter(s: State, es: seq<Event>, schedule: Schedule)
    requires Runs(s, es)
    ensures After(s, es).schedule == Some(schedule) <==>
      LastBrings(s, es, schedule) || (s.schedule == Some(schedule) && NeverBrings(s, es))
    decreases es
  {
    if es != [] {
      StepSchedule(s, es[0]);
      hide Step, Enabled, Brings;
      ScheduleAfter(Step(s, es[0]), es[1..], schedule);
    }
  }

  /** A save takes the next number, turns the spinner and leaves all that is shown; a read does so
      unless it is silent, and clears the error line. */
  lemma IssueShows(s: State, silent: bool, preferences: bool)
    ensures Step(s, IssueSave(preferences)) == s.(reqSeq := s.reqSeq + 1, isSaving := true, wire := s.wire[s.reqSeq + 1 := Save(preferences)])
    ensures Step(s, IssueRead(silent)) ==
      s.(reqSeq := s.reqSeq + 1, isLoading := s.isLoading || !silent, error := None, wire := s.wire[s.reqSeq + 1 := Read(silent, false)])
  {
  }

  /** After the unmount a reply changes nothing but the wire. */
  lemma UnmountedDrops(s: State, e: Event)
    requires !s.mounted && Enabled(s, e) && (e.ReadLands? || e.SaveLands?)
    ensures Step(s, e) == s.(wire := s.wire - {ReplyNumber(e)}) && Step(s.(mounted := true), Unmount) == s
  {
  }

  /** A preferences save that succeeds is followed by a silent read of its own; no other landing sends
      anything. */
  lemma LandingSends(s: State, e: Event)
    requires Enabled(s, e) && (e.ReadLands? || e.SaveLands?)
    ensures var t, n := Step(s, e), ReplyNumber(e);
      if s.mounted && e.SaveLands? && e.save.Saved? && s.wire[n].preferences
      then t.reqSeq == s.reqSeq + 1 && t.wire == (s.wire - {n})[s.reqSeq + 1 := Read(true, true)]
      else t.reqSeq == s.reqSeq && t.wire == s.wire - {n}
  {
  }

  /** A run from the mount in which the only read is dropped: a schedule is saved meanwhile, its
      reply lands first, and nothing reads again. The page ends with no settings, no spinner, no
      error and an idle wire. */
  lemma ReadDroppedRun(schedule: Schedule, read: ReadReply)
    ensures var es := [IssueSave(false), SaveLands(2, Saved(Some(schedule))), ReadLands(1, read)];
      Runs(START, es) && After(START, es) == START.(reqSeq := 2, appliedSeq := 2, schedule := Some(schedule), isLoading := false, wire := map[])
  {
    var e0, e1, e2 := IssueSave(false), SaveLands(2, Saved(Some(schedule))), ReadLands(1, read);
    var s1 := Step(START, e0);
    var s2 := Step(s1, e1);
    assert s2.wire == map[1 := Read(false, false)];
    var s3 := Step(s2, e2);
    assert s3.wire == map[];
    ThreeSteps(START, e0, e1, e2);
  }

  lemma ThreeSteps(s: State, e0: Event, e1: Event, e2: Event)
    requires Enabled(s, e0) && Enabled(Step(s, e0), e1) && Enabled(Step(Step(s, e0), e1), e2)
    ensures Runs(s, [e0, e1, e2]) && After(s, [e0, e1, e2]) == Step(Step(Step(s, e0), e1), e2)
  {
    hide Step, Enabled;
    var s1 := Step(s, e0);
    var s2 := Step(s1, e1);
    var s3 := Step(s2, e2);
    assert [e0, e1, e2][1..] == [e1, e2] && [e1, e2][1..] == [e2] && [e2][1..] == [];
    assert Runs(s3, []) && After(s3, []) == s3;
    assert Runs(s2, [e2]) && After(s2, [e2]) == s3;
    assert Runs(s1, [e1, e2]) && After(s1, [e1, e2]) == s3;
  }

  // ---------------------------------------------------------------- the error line

  /** A read that fails and is newer than everything applied. */
  predicate Complains(s: State, e: Event) {
    e.ReadLands? && !e.read.Good? && s.mounted && e.number > s.appliedSeq
  }

  /** The step issues a read, which wipes the error line. */
  predicate Wipes(s: State, e: Event)
    requires Enabled(s, e)
  {
    e.IssueRead? || (e.SaveLands? && e.save.Saved? && s.mounted && s.wire[e.number].preferences)
  }

  ghost predicate NeverWipes(s: State, es: seq<Event>)
    requires Runs(s, es)
    decreases es
  {
    es == [] || (!Wipes(s, es[0]) && NeverWipes(Step(s, es[0]), es[1..]))
  }

  /** Some read failed while it was the newest, and no read was issued since. */
  ghost predicate ComplaintStands(s: State, es: seq<Event>)
    requires Runs(s, es)
    decreases es
  {
    es != [] && ((Complains(s, es[0]) && NeverWipes(Step(s, es[0]), es[1..])) || ComplaintStands(Step(s, es[0]), es[1..]))
  }

  /** What the error line is after a step: the words of a read that fails as the newest, nothing when
      a read is issued, and otherwise what it was. */
  lemma StepError(s: State, e: Event)
    requires Enabled(s, e)
    ensures Step(s, e).error ==
      if Complains(s, e) then Some(if e.read.Lost? then e.read.message else "Failed to fetch system settings")
      else if Wipes(s, e) then None
      else s.error
    ensures !(Complains(s, e) && Wipes(s, e))
  {
  }

  /** Over every run the error line shows an error exactly when a read that was the newest on
      landing failed since the last read was issued, or an error stood and no read was issued. The
      success of a newer read is not enough to clear it. */
  lemma {:induction false} ErrorShownIff(s: State, es: seq<Event>)
    requires Runs(s, es)
    ensures After(s, es).error.Some? <==> ComplaintStands(s, es) || (s.error.Some? && NeverWipes(s, es))
    decreases es
  {
    if es != [] {
      StepError(s, es[0]);
      hide Step, Enabled;
      ErrorShownIff(Step(s, es[0]), es[1..]);
    }
  }

  /** From the mount, with one more read issued: the newer read's data show in both orders of
      arrival, the older read's failure only in one. */
  lemma ErrorDependsOnOrder(settings: Settings, schedule: Schedule)
    ensures var issue, fail, good := IssueRead(true), ReadLands(1, Unsuccessful), ReadLands(2, Good(settings, schedule));
      && Runs(START, [issue, fail, good]) && Runs(START, [issue, good, fail])
      && var x, y := After(START, [issue, fail, good]), After(START, [issue, good, fail]);
      x.error.Some? && y.error.None? && x.(error := None) == y && y.settings == Some(settings) && y.wire == map[]
  {
    var issue, fail, good := IssueRead(true), ReadLands(1, Unsuccessful), ReadLands(2, Good(settings, schedule));
    var s := Step(START, issue);
    assert s.wire == map[1 := Read(false, false), 2 := Read(true, false)];
    var x1, y1 := Step(s, fail), Step(s, good);
    assert x1.wire == map[2 := Read(true, false)] && y1.wire == map[1 := Read(false, false)];
    var x, y := Step(x1, good), Step(y1, fail);
    assert x.wire == map[] && y.wire == map[];
    ThreeSteps(START, issue, fail, good);
    ThreeSteps(START, issue, good, fail);
  }

  /** From the mount: a preferences save is out, a newer read fails, and the save's late success
      wipes that error though its number is stale. */
  lemma StaleWipeRun()
    ensures var es := [IssueSave(true), IssueRead(true), ReadLands(3, Unsuccessful)]; var late := SaveLands(2, Saved(None));
      Runs(START, es) && var s := After(START, es);
      Enabled(s, late) && ReplyNumber(late) < s.appliedSeq && s.error.Some? && Step(s, late).error.None?
  {
    var e0, e1, e2 := IssueSave(true), IssueRead(true), ReadLands(3, Unsuccessful);
    var s1 := Step(START, e0);
    var s2 := Step(s1, e1);
    assert s2.wire == map[1 := Read(false, false), 2 := Save(true), 3 := Read(true, false)];
    ThreeSteps(START, e0, e1, e2);
  }
}
