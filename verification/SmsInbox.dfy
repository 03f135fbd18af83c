/** The SMS inbox hook: one inbox GET at a time, and one remembered request for another. */
module SmsInbox {
  import opened Text

  datatype Reply = Inbox(messages: seq<string>, now: int) | Refused(detail: string) | Thrown(detail: string)

  /** `begun` and `landed` count the inbox GETs, `requests` the calls that asked for one, and
      `answered` the requests made before the latest GET began. */
  datatype State = State(
    mounted: bool, inFlight: bool, queued: bool, silentNow: bool, isFetching: bool, isLoading: bool,
    error: Option<string>, data: Option<seq<string>>, lastSuccessfulFetch: Option<int>,
    begun: nat, landed: nat, requests: nat, answered: nat)

  const BEFORE_MOUNT := State(false, false, false, false, true, true, None, None, None, 0, 0, 0, 0)

  datatype Event = Mount | Request(silent: bool) | Land(reply: Reply) | Unmount

  predicate Enabled(s: State, e: Event) {
    match e
    case Mount => !s.mounted
    case Request(_) => s.mounted
    case Land(_) => s.inFlight
    case Unmount => s.mounted
  }

  function Begin(s: State, silent: bool): State {
    s.(inFlight := true, silentNow := silent, isFetching := true, isLoading := s.isLoading || !silent, error := None,
       begun := s.begun + 1, answered := s.requests)
  }

  function Fetch(s: State, silent: bool): State {
    var t := s.(requests := s.requests + 1);
    if s.inFlight then t.(queued := true) else Begin(t, silent)
  }

  /** What the reply itself does; the guard is released whatever it is. */
  function Release(s: State, reply: Reply): State {
    var t := s.(inFlight := false, landed := s.landed + 1);
    if !s.mounted then t
    else
      var u := t.(isFetching := false, isLoading := s.isLoading && s.silentNow);
      match reply
      case Inbox(messages, now) => u.(data := Some(messages), lastSuccessfulFetch := Some(now))
      case Refused(detail) => u.(error := Some(detail))
      case Thrown(detail) => u.(error := Some(detail))
  }

  /** A refused reply returns before the queue is looked at. */
  function OnLand(s: State, reply: Reply): State {
    var t := Release(s, reply);
    if s.mounted && !reply.Refused? && s.queued then Begin(t.(queued := false), true) else t
  }

  function Step(s: State, e: Event): State
    requires Enabled(s, e)
  {
    match e
    case Mount => Fetch(s.(mounted := true), false)
    case Request(silent) => Fetch(s, silent)
    case Land(reply) => OnLand(s, reply)
    case Unmount => s.(mounted := false)
  }

  ghost predicate Runs(s: State, es: seq<Event>)
    decreases es
  {
    es == [] || (Enabled(s, es[0]) && Runs(Step(s, es[0]), es[1..]))
  }

  ghost function After(s: State, es: seq<Event>): State
    requires Runs(s, es)
    decreases es
  {
    if es == [] then s else After(Step(s, es[0]), es[1..])
  }

  // ---------------------------------------------------------------- the hook

  class Hook {
    var mountedRef: bool
    var inFlightRef: bool
    var queuedRef: bool
    var silentNow: bool
    var isFetching: bool
    var isLoading: bool
    var error: Option<string>
    var data: Option<seq<string>>
    var lastSuccessfulFetch: Option<int>
    ghost var begun: nat
    ghost var landed: nat
    ghost var requests: nat
    ghost var answered: nat

    ghost function Abs(): State
      reads this
    {
      State(mountedRef, inFlightRef, queuedRef, silentNow, isFetching, isLoading, error, data, lastSuccessfulFetch,
            begun, landed, requests, answered)
    }

    constructor ()
      ensures Abs() == BEFORE_MOUNT
    {
      mountedRef, inFlightRef, queuedRef, silentNow, isFetching, isLoading := false, false, false, false, true, true;
      error, data, lastSuccessfulFetch := None, None, None;
      begun, landed, requests, answered := 0, 0, 0, 0;
    }

    /** Sends the GET. */
    method RunFetch(silent: bool)
      requires !inFlightRef
      modifies this
      ensures Abs() == Begin(old(Abs()), silent)
    {
      inFlightRef := true;
      silentNow := silent;
      isFetching := true;
      if !silent { isLoading := true; }
      error := None;
      begun := begun + 1;
      answered := requests;
    }

    method FetchInbox(silent: bool)
      modifies this
      ensures Abs() == Fetch(old(Abs()), silent)
    {
      requests := requests + 1;
      if inFlightRef {
        queuedRef := true;
        return;
      }
      RunFetch(silent);
    }

    method Mounted()
      requires !mountedRef
      modifies this
      ensures Abs() == Step(old(Abs()), Mount)
    {
      mountedRef := true;
      FetchInbox(false);
    }

    /** The reply is shown, and the guard and the spinners are released; whether to look at the queue. */
    method Settle(reply: Reply) returns (goesOn: bool)
      modifies this
      ensures Abs() == Release(old(Abs()), reply) && (goesOn <==> old(mountedRef) && !reply.Refused?)
    {
      goesOn := false;
      if mountedRef {
        match reply {
          case Inbox(messages, now) =>
            data := Some(messages);
            lastSuccessfulFetch := Some(now);
            goesOn := true;
          case Refused(detail) =>
            error := Some(detail);
          case Thrown(detail) =>
            error := Some(detail);
            goesOn := true;
        }
      }
      inFlightRef := false;
      landed := landed + 1;
      if mountedRef {
        isFetching := false;
        if !silentNow { isLoading := false; }
      }
    }

    method Landed(reply: Reply)
      requires inFlightRef
      modifies this
      ensures Abs() == Step(old(Abs()), Land(reply))
    {
      var goesOn := Settle(reply);
      if goesOn && queuedRef && mountedRef {
        queuedRef := false;
        RunFetch(true);
      }
    }

    method Unmounted()
      requires mountedRef
      modifies this
      ensures Abs() == Step(old(Abs()), Unmount)
    {
      mountedRef := false;
    }
  }

  // ---------------------------------------------------------------- what every run keeps

  ghost predicate Inv(s: State) {
    && s.begun == s.landed + (if s.inFlight then 1 else 0)
    && s.begun + (if s.queued then 1 else 0) <= s.requests
    && s.answered <= s.requests
    && (s.answered < s.requests ==> s.queued)
    && (s.inFlight ==> s.isFetching)
    && (s.mounted ==> (s.isFetching <==> s.inFlight))
    && (s.inFlight ==> s.isLoading == !s.silentNow)
    && (s.isLoading && s.mounted ==> s.inFlight)
  }

  lemma StepKeepsInv(s: State, e: Event)
    requires Inv(s) && Enabled(s, e)
    ensures Inv(Step(s, e))
  {
  }

  lemma {:induction false} RunsKeepInv(s: State, es: seq<Event>)
    requires Inv(s) && Runs(s, es)
    ensures Inv(After(s, es))
    decreases es
  {
    if es != [] {
      StepKeepsInv(s, es[0]);
      RunsKeepInv(Step(s, es[0]), es[1..]);
    }
  }

  /** Over every run: at most one GET is on the wire, every GET has a request of its own, and a
      request not yet followed by a GET is remembered. While mounted the two spinners tell the
      truth: "fetching" iff a GET is out, "loading" iff one that was not silent is. */
  lemma PageRuns(es: seq<Event>)
    requires Runs(BEFORE_MOUNT, es)
    ensures var s := After(BEFORE_MOUNT, es);
      && s.begun - s.landed <= 1 && (s.inFlight <==> s.begun == s.landed + 1)
      && s.begun <= s.requests
      && (s.answered < s.requests ==> s.queued)
      && (s.mounted ==> (s.isFetching <==> s.begun == s.landed + 1))
      && (s.mounted ==> (s.isLoading <==> s.begun == s.landed + 1 && !s.silentNow))
  {
    RunsKeepInv(BEFORE_MOUNT, es);
  }

  /** A request begins a GET, silent or not as asked, with a clear error line, unless one is out; then
      it is only remembered. */
  lemma RequestBegins(s: State, silent: bool)
    requires s.mounted
    ensures var t := Step(s, Request(silent));
      && t.requests == s.requests + 1 && t.data == s.data && t.lastSuccessfulFetch == s.lastSuccessfulFetch
      && if s.inFlight then t.queued && t.begun == s.begun && t.error == s.error && t.silentNow == s.silentNow
         else t.inFlight && t.begun == s.begun + 1 && t.silentNow == silent && t.error == None && t.queued == s.queued
  {
  }

  /** A mount asks for the inbox; the hook unmounted, a landing GET shows nothing and begins nothing. */
  lemma MountsAndUnmounts(s: State, reply: Reply)
    requires !s.mounted
    ensures Step(s, Mount) == Step(s.(mounted := true), Request(false))
    ensures Step(s.(mounted := true), Unmount) == s
    ensures s.inFlight ==> Step(s, Land(reply)) == s.(inFlight := false, landed := s.landed + 1)
  {
  }

  /** What a landed reply shows: its rows and their time, or its words; the GET of a remembered request
      is silent, and wipes the words of the reply it follows. */
  lemma ReplyShows(s: State, reply: Reply)
    requires s.inFlight && s.mounted
    ensures var t := Step(s, Land(reply)); var again := s.queued && !reply.Refused?;
      && t.landed == s.landed + 1 && t.inFlight == again && t.queued == (s.queued && !again) && (again ==> t.silentNow)
      && t.data == (if reply.Inbox? then Some(reply.messages) else s.data)
      && t.lastSuccessfulFetch == (if reply.Inbox? then Some(reply.now) else s.lastSuccessfulFetch)
      && t.error == if again then None else if reply.Inbox? then s.error else Some(reply.detail)
  {
  }

  /** The step begins a GET. */
  predicate Begins(s: State, e: Event)
    requires Enabled(s, e)
  {
    match e
    case Mount => !s.inFlight
    case Request(_) => !s.inFlight
    case Land(reply) => s.mounted && s.queued && !reply.Refused?
    case Unmount => false
  }

  /** The step shows these words. */
  predicate Says(s: State, e: Event, words: string) {
    e.Land? && s.mounted && !e.reply.Inbox? && e.reply.detail == words
  }

  ghost predicate Quiet(s: State, es: seq<Event>)
    requires Runs(s, es)
    decreases es
  {
    es == [] || (!Begins(s, es[0]) && (forall words: string :: !Says(s, es[0], words)) && Quiet(Step(s, es[0]), es[1..]))
  }

  /** The last failure said these words, and no GET was begun with it or since. */
  ghost predicate StillSays(s: State, es: seq<Event>, words: string)
    requires Runs(s, es)
    decreases es
  {
    es != [] && ((Says(s, es[0], words) && !Begins(s, es[0]) && Quiet(Step(s, es[0]), es[1..])) || StillSays(Step(s, es[0]), es[1..], words))
  }

  lemma StepError(s: State, e: Event, words: string)
    requires Enabled(s, e)
    ensures Step(s, e).error == Some(words) <==>
      !Begins(s, e) && (Says(s, e, words) || (s.error == Some(words) && forall other: string :: !Says(s, e, other)))
  {
    if e.Land? && s.mounted && !e.reply.Inbox? { assert Says(s, e, e.reply.detail); }
  }

  /** Over every run the error line shows some words exactly when the last failure said them and no GET
      has begun since, or they stood and nothing happened to them. */
  lemma {:induction false} ErrorShownIff(s: State, es: seq<Event>, words: string)
    requires Runs(s, es)
    ensures After(s, es).error == Some(words) <==> StillSays(s, es, words) || (s.error == Some(words) && Quiet(s, es))
    decreases es
  {
    if es != [] {
      StepError(s, es[0], words);
      hide Step, Enabled, Begins;
      ErrorShownIff(Step(s, es[0]), es[1..], words);
    }
  }

  predicate AllRequests(es: seq<Event>) {
    forall i :: 0 <= i < |es| ==> es[i].Request?
  }

  lemma {:induction false} BurstQueues(s: State, burst: seq<Event>)
    requires s.inFlight && s.mounted && AllRequests(burst)
    ensures Runs(s, burst)
    ensures After(s, burst) == s.(queued := s.queued || burst != [], requests := s.requests + |burst|)
    decreases burst
  {
    if burst != [] {
      assert burst[0].Request?;
      assert forall i :: 0 <= i < |burst[1..]| ==> burst[1..][i] == burst[i + 1];
      BurstQueues(Step(s, burst[0]), burst[1..]);
    }
  }

  /** Any burst of requests during one GET costs at most one further GET, begun when that one lands,
      after every request of the burst; a refused reply begins none and leaves them queued. */
  lemma BurstCostsOne(s: State, burst: seq<Event>, reply: Reply)
    requires Inv(s) && s.inFlight && s.mounted && AllRequests(burst) && Runs(s, burst)
    ensures After(s, burst).inFlight
    ensures var t := Step(After(s, burst), Land(reply));
      && t.begun <= s.begun + 1
      && (t.begun == s.begun + 1 <==> (s.queued || burst != []) && !reply.Refused?)
      && (burst != [] ==> (t.answered == t.requests <==> !reply.Refused?))
      && (reply.Refused? ==> t.queued == (s.queued || burst != []))
  {
    BurstQueues(s, burst);
  }

  /** From the mount: a request during the first GET, which is refused, is left queued with no GET out. */
  lemma RefusedRun(detail: string)
    ensures var es := [Mount, Request(true), Land(Refused(detail))];
      Runs(BEFORE_MOUNT, es) && var s := After(BEFORE_MOUNT, es);
      s.mounted && s.queued && !s.inFlight && s.begun == 1 && s.answered == 1 && s.requests == 2
  {
    var e0, e1, e2 := Mount, Request(true), Land(Refused(detail));
    var s1 := Step(BEFORE_MOUNT, e0);
    var s2 := Step(s1, e1);
    var s3 := Step(s2, e2);
    assert [e0, e1, e2][1..] == [e1, e2] && [e1, e2][1..] == [e2] && [e2][1..] == [];
    assert Runs(s3, []) && After(s3, []) == s3;
    assert Runs(s2, [e2]) && After(s2, [e2]) == s3;
    assert Runs(s1, [e1, e2]) && After(s1, [e1, e2]) == s3;
  }

  /** The step looks at the queue: a reply that is not refused, while mounted. */
  predicate Drains(s: State, e: Event) {
    e.Land? && !e.reply.Refused? && s.mounted
  }

  ghost predicate NeverDrains(s: State, es: seq<Event>)
    requires Runs(s, es)
    decreases es
  {
    es == [] || (!Drains(s, es[0]) && NeverDrains(Step(s, es[0]), es[1..]))
  }

  /** A queued request stays queued through every run in which no reply drains it ... */
  lemma {:induction false} StaysQueued(s: State, es: seq<Event>)
    requires Runs(s, es) && s.queued
    ensures NeverDrains(s, es) ==> After(s, es).queued
    decreases es
  {
    if es != [] && !Drains(s, es[0]) {
      StaysQueued(Step(s, es[0]), es[1..]);
    }
  }

  /** ... and the first that does begins a GET after every request made so far. */
  lemma DrainAnswersAll(s: State, es: seq<Event>, reply: Reply)
    requires Inv(s) && Runs(s, es) && After(s, es).inFlight && After(s, es).mounted && !reply.Refused?
    ensures var t := Step(After(s, es), Land(reply)); t.answered == t.requests && !t.queued
  {
    RunsKeepInv(s, es);
  }

  /** The step delivers an inbox to a mounted hook. */
  predicate Delivers(s: State, e: Event) {
    e.Land? && e.reply.Inbox? && s.mounted
  }

  ghost predicate NeverDelivers(s: State, es: seq<Event>)
    requires Runs(s, es)
    decreases es
  {
    es == [] || (!Delivers(s, es[0]) && NeverDelivers(Step(s, es[0]), es[1..]))
  }

  /** Errors, refusals and further requests leave the rows on screen and their time alone. */
  lemma {:induction false} RowsStay(s: State, es: seq<Event>)
    requires Runs(s, es) && NeverDelivers(s, es)
    ensures After(s, es).data == s.data && After(s, es).lastSuccessfulFetch == s.lastSuccessfulFetch
    decreases es
  {
    if es != [] { RowsStay(Step(s, es[0]), es[1..]); }
  }

  /** After a delivered inbox, its rows and its time are shown until the next one is delivered. */
  lemma RowsAreLastInbox(s: State, messages: seq<string>, now: int, es: seq<Event>)
    requires s.inFlight && s.mounted
    requires var t := Step(s, Land(Inbox(messages, now))); Runs(t, es) && NeverDelivers(t, es)
    ensures var t := After(Step(s, Land(Inbox(messages, now))), es);
      t.data == Some(messages) && t.lastSuccessfulFetch == Some(now)
  {
    RowsStay(Step(s, Land(Inbox(messages, now))), es);
  }
}
