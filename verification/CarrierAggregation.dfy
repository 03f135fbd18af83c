/** The carrier strip: folding poller snapshots into the rendered list, and segment widths. */
module CarrierAggregation {
  import opened Text

  const RELEASE_GRACE_MS := 6000
  const RELEASE_RETAIN_MS := 120000

  datatype NetworkType = NetLte | NetNsa | NetSa | NetUnknown
  datatype Technology = Lte | Nr
  datatype CarrierType = Pcc | Scc
  datatype Role = RolePcc | RoleNrAnchor | RoleScc
  datatype Carrier = Carrier(kind: CarrierType, technology: Technology, band: string, earfcn: Option<int>,
                             pci: Option<int>, rsrp: Option<int>)
  datatype Resolved = Resolved(carrier: Carrier, key: string, role: Role, released: bool, lastSeenMs: int)

  // ---------------------------------------------------------------- keys and roles

  function ChannelText(earfcn: Option<int>): string {
    match earfcn
    case None => "na"
    case Some(n) => if n < 0 then "-" + ToBase(-n, 10) else ToBase(n, 10)
  }

  function CarrierKey(c: Carrier): string {
    (if c.technology.Lte? then "LTE" else "NR") + "-" + c.band + "-" + ChannelText(c.earfcn)
  }

  /** `findIndex` of the first NR carrier among the first n from i; |carriers| when there is none. */
  function FirstNr(carriers: seq<Carrier>): (i: nat)
    ensures i <= |carriers|
    ensures i < |carriers| ==> carriers[i].technology.Nr?
    ensures forall j :: 0 <= j < i ==> carriers[j].technology.Lte?
  {
    if carriers == [] || carriers[0].technology.Nr? then 0 else 1 + FirstNr(carriers[1..])
  }

  function RoleOf(carriers: seq<Carrier>, net: NetworkType, i: nat): Role
    requires i < |carriers|
  {
    if net.NetNsa? && i == FirstNr(carriers) && !carriers[i].kind.Pcc? then RoleNrAnchor
    else if carriers[i].kind.Pcc? then RolePcc
    else RoleScc
  }

  function AssignRoles(carriers: seq<Carrier>, net: NetworkType): (roles: seq<Role>)
    ensures |roles| == |carriers|
  {
    seq(|carriers|, i requires 0 <= i < |carriers| => RoleOf(carriers, net, i))
  }

  /** Roles never invent a primary and name at most one NR anchor: the first NR carrier of an
      NSA link, unless the device itself calls that carrier primary. */
  lemma RolesHonest(carriers: seq<Carrier>, net: NetworkType, i: nat)
    requires i < |carriers|
    ensures var r := AssignRoles(carriers, net);
      && (r[i] == RolePcc <==> carriers[i].kind == Pcc)
      && (r[i] == RoleNrAnchor <==> (net == NetNsa && carriers[i].kind == Scc && carriers[i].technology == Nr
                                     && forall j :: 0 <= j < i ==> carriers[j].technology == Lte))
  {
  }

  // ---------------------------------------------------------------- one fold step

  /** The last of the first n carriers with a key; -1 when there is none (a `Map` keeps the last). */
  function LastIndex(snap: seq<Carrier>, n: nat, key: string): (i: int)
    requires n <= |snap|
    ensures -1 <= i < n
    ensures i >= 0 ==> CarrierKey(snap[i]) == key
    ensures forall j :: i < j < n ==> CarrierKey(snap[j]) != key
  {
    if n == 0 then -1 else if CarrierKey(snap[n - 1]) == key then n - 1 else LastIndex(snap, n - 1, key)
  }

  predicate InSnapshot(snap: seq<Carrier>, key: string) {
    LastIndex(snap, |snap|, key) >= 0
  }

  function Fresh(snap: seq<Carrier>, net: NetworkType, now: int, i: nat): Resolved
    requires i < |snap|
  {
    Resolved(snap[i], CarrierKey(snap[i]), AssignRoles(snap, net)[i], false, now)
  }

  function FreshOf(snap: seq<Carrier>, net: NetworkType, now: int, key: string): (r: Resolved)
    requires InSnapshot(snap, key)
    ensures r.key == key
  {
    Fresh(snap, net, now, LastIndex(snap, |snap|, key))
  }

  /** What becomes of a previously shown carrier. */
  function KeepOne(p: Resolved, snap: seq<Carrier>, net: NetworkType, now: int): (r: Option<Resolved>)
    ensures r.Some? ==> r.value.key == p.key
  {
    if InSnapshot(snap, p.key) then Some(FreshOf(snap, net, now, p.key))
    else if now - p.lastSeenMs >= RELEASE_RETAIN_MS then None
    else Some(p.(released := now - p.lastSeenMs >= RELEASE_GRACE_MS))
  }

  function Kept(previous: seq<Resolved>, snap: seq<Carrier>, net: NetworkType, now: int): seq<Resolved> {
    if previous == [] then []
    else
      var n := |previous| - 1;
      var head := Kept(previous[..n], snap, net, now);
      match KeepOne(previous[n], snap, net, now)
      case None => head
      case Some(r) => head + [r]
  }

  function Keys(list: seq<Resolved>): set<string> {
    set r | r in list :: r.key
  }

  /** Carriers of the first n of the snapshot that were not placed by the walk over `previous`. */
  function Joined(placed: set<string>, snap: seq<Carrier>, net: NetworkType, now: int, n: nat): seq<Resolved>
    requires n <= |snap|
  {
    if n == 0 then []
    else
      var head := Joined(placed, snap, net, now, n - 1);
      var key := CarrierKey(snap[n - 1]);
      if key in placed then head else head + [FreshOf(snap, net, now, key)]
  }

  lemma JoinedNext(placed: set<string>, snap: seq<Carrier>, net: NetworkType, now: int, n: nat)
    requires n < |snap|
    ensures var key := CarrierKey(snap[n]);
      InSnapshot(snap, key) && Joined(placed, snap, net, now, n + 1)
        == Joined(placed, snap, net, now, n) + if key in placed then [] else [FreshOf(snap, net, now, key)]
  {
  }

  function Reconciled(previous: seq<Resolved>, snap: seq<Carrier>, net: NetworkType, now: int): seq<Resolved> {
    var kept := Kept(previous, snap, net, now);
    kept + Joined(Keys(kept), snap, net, now, |snap|)
  }

  /** The map of the live carriers, after the first n of the snapshot. */
  ghost predicate LiveIs(live: map<string, Resolved>, snap: seq<Carrier>, net: NetworkType, now: int, n: nat)
    requires n <= |snap|
  {
    && (forall k :: k in live <==> LastIndex(snap, n, k) >= 0)
    && forall k :: k in live ==> live[k] == Fresh(snap, net, now, LastIndex(snap, n, k))
  }

  /** Carrier i is the last of the snapshot with its key. */
  ghost predicate LastOfKey(snap: seq<Carrier>, i: int) {
    0 <= i < |snap| && forall j :: i < j < |snap| ==> CarrierKey(snap[j]) != CarrierKey(snap[i])
  }

  lemma LastOfKeyFresh(snap: seq<Carrier>, net: NetworkType, now: int, i: nat)
    requires LastOfKey(snap, i)
    ensures InSnapshot(snap, CarrierKey(snap[i]))
    ensures FreshOf(snap, net, now, CarrierKey(snap[i])) == Resolved(snap[i], CarrierKey(snap[i]), AssignRoles(snap, net)[i], false, now)
  {
    hide CarrierKey;
  }

  lemma LiveFinds(live: map<string, Resolved>, snap: seq<Carrier>, net: NetworkType, now: int)
    requires LiveIs(live, snap, net, now, |snap|)
    ensures forall k :: k in live <==> InSnapshot(snap, k)
    ensures forall k :: k in live ==> live[k] == FreshOf(snap, net, now, k)
    ensures forall i :: LastOfKey(snap, i) ==> var key := CarrierKey(snap[i]);
      key in live && live[key] == Resolved(snap[i], key, AssignRoles(snap, net)[i], false, now)
  {
    hide CarrierKey, AssignRoles, LastIndex;
    forall i | LastOfKey(snap, i)
      ensures var key := CarrierKey(snap[i]); key in live && live[key] == Resolved(snap[i], key, AssignRoles(snap, net)[i], false, now)
    {
      LastOfKeyFresh(snap, net, now, i);
    }
  }

  /** The carriers of the snapshot by key; a repeated key keeps its last carrier. */
  method LiveCarriers(snapshot: seq<Carrier>, net: NetworkType, now: int) returns (live: map<string, Resolved>)
    ensures forall k :: k in live <==> InSnapshot(snapshot, k)
    ensures forall k :: k in live ==> live[k] == FreshOf(snapshot, net, now, k)
    ensures forall i :: LastOfKey(snapshot, i) ==> var key := CarrierKey(snapshot[i]);
      key in live && live[key] == Resolved(snapshot[i], key, AssignRoles(snapshot, net)[i], false, now)
  {
    var roles := AssignRoles(snapshot, net);
    live := map[];
    for i := 0 to |snapshot|
      invariant LiveIs(live, snapshot, net, now, i)
    {
      var key := CarrierKey(snapshot[i]);
      live := live[key := Resolved(snapshot[i], key, roles[i], false, now)];
    }
    LiveFinds(live, snapshot, net, now);
  }

  method ReconcileCarriers(previous: seq<Resolved>, snapshot: seq<Carrier>, net: NetworkType, now: int)
    returns (out: seq<Resolved>)
    ensures out == Reconciled(previous, snapshot, net, now)
  {
    hide InSnapshot, FreshOf, CarrierKey;
    var live := LiveCarriers(snapshot, net, now);
    out := [];
    var placed: set<string> := {};
    for i := 0 to |previous|
      invariant out == Kept(previous[..i], snapshot, net, now)
      invariant placed == Keys(out)
    {
      var p := previous[i];
      assert previous[..i + 1][..i] == previous[..i];
      if p.key in live {
        out := out + [live[p.key]];
        placed := placed + {p.key};
      } else if now - p.lastSeenMs < RELEASE_RETAIN_MS {
        out := out + [p.(released := now - p.lastSeenMs >= RELEASE_GRACE_MS)];
        placed := placed + {p.key};
      }
    }
    assert previous[..|previous|] == previous;

    var joined := NewCarriers(placed, live, snapshot, net, now);
    out := out + joined;
  }

  /** The last loop: carriers not placed by the walk join at the end. */
  method NewCarriers(placed: set<string>, live: map<string, Resolved>, snapshot: seq<Carrier>,
                     ghost net: NetworkType, ghost now: int) returns (joined: seq<Resolved>)
    requires forall k :: k in live <==> InSnapshot(snapshot, k)
    requires forall k :: k in live ==> live[k] == FreshOf(snapshot, net, now, k)
    ensures joined == Joined(placed, snapshot, net, now, |snapshot|)
  {
    joined := [];
    assert Joined(placed, snapshot, net, now, 0) == [];
    hide *;
    for i := 0 to |snapshot|
      invariant joined == Joined(placed, snapshot, net, now, i)
    {
      var key := CarrierKey(snapshot[i]);
      JoinedNext(placed, snapshot, net, now, i);
      if key !in placed && key in live {
        joined := joined + [live[key]];
      }
    }
  }

  // ---------------------------------------------------------------- the whole history

  datatype Poll = Poll(snap: seq<Carrier>, net: NetworkType, now: int)

  ghost predicate DistinctKeys(snap: seq<Carrier>) {
    forall i, j :: 0 <= i < j < |snap| ==> CarrierKey(snap[i]) != CarrierKey(snap[j])
  }

  /** Polls at non-decreasing times. */
  ghost predicate Timed(h: seq<Poll>) {
    forall i, j :: 0 <= i < j < |h| ==> h[i].now <= h[j].now
  }

  /** Snapshots with distinct keys at non-decreasing times. */
  ghost predicate History(h: seq<Poll>) {
    Timed(h) && forall i :: 0 <= i < |h| ==> DistinctKeys(h[i].snap)
  }

  /** The list on screen after a history of polls, starting from nothing. */
  function Fold(h: seq<Poll>): seq<Resolved> {
    if h == [] then []
    else
      var p := h[|h| - 1];
      Reconciled(Fold(h[..|h| - 1]), p.snap, p.net, p.now)
  }

  lemma NotSeenSince(h: seq<Poll>, key: string, i: int)
    requires h != [] && !InSnapshot(h[|h| - 1].snap, key) && -1 <= i
    requires var before := h[..|h| - 1]; forall j :: i < j < |before| ==> !InSnapshot(before[j].snap, key)
    ensures forall j :: i < j < |h| ==> !InSnapshot(h[j].snap, key)
  {
    hide InSnapshot;
    var before := h[..|h| - 1];
    forall j | i < j < |h| ensures !InSnapshot(h[j].snap, key) {
      if j < |h| - 1 { assert before[j] == h[j]; }
    }
  }

  /** The last poll that listed a key; -1 when none did. */
  function LastSeen(h: seq<Poll>, key: string): (i: int)
    ensures -1 <= i < |h|
    ensures i >= 0 ==> InSnapshot(h[i].snap, key)
    ensures forall j :: i < j < |h| ==> !InSnapshot(h[j].snap, key)
  {
    if h == [] then -1
    else if InSnapshot(h[|h| - 1].snap, key) then |h| - 1
    else
      var before := h[..|h| - 1];
      var i := LastSeen(before, key);
      NotSeenSince(h, key, i);
      i
  }

  function Clock(h: seq<Poll>): int
    requires h != []
  {
    h[|h| - 1].now
  }

  /** A key is on screen iff it was last listed less than the retention time ago. */
  predicate Shown(h: seq<Poll>, key: string) {
    LastSeen(h, key) >= 0 && Clock(h) - h[LastSeen(h, key)].now < RELEASE_RETAIN_MS
  }

  /** The entry the history determines for a key: the latest listing, released by its age. */
  function Entry(h: seq<Poll>, key: string): Resolved
    requires LastSeen(h, key) >= 0
  {
    var p := h[LastSeen(h, key)];
    FreshOf(p.snap, p.net, p.now, key).(released := Clock(h) - p.now >= RELEASE_GRACE_MS)
  }

  /** When a key took its place: the poll that brought it on screen, and its place in that snapshot. */
  function Rank(h: seq<Poll>, key: string): (r: (int, int))
    ensures r.0 < |h|
  {
    if h == [] then (-1, 0)
    else
      var before, p := h[..|h| - 1], h[|h| - 1];
      if InSnapshot(p.snap, key) && !Shown(before, key) then (|h| - 1, LastIndex(p.snap, |p.snap|, key))
      else Rank(before, key)
  }

  predicate Before(x: (int, int), y: (int, int)) {
    x.0 < y.0 || (x.0 == y.0 && x.1 < y.1)
  }

  ghost predicate Ordered(h: seq<Poll>, list: seq<Resolved>) {
    forall i, j :: 0 <= i < j < |list| ==> Before(Rank(h, list[i].key), Rank(h, list[j].key))
  }

  /** The stateless description of the screen's contents: the shown keys, each with its entry. */
  ghost predicate ShowsView(h: seq<Poll>, list: seq<Resolved>) {
    && (forall i :: 0 <= i < |list| ==> Shown(h, list[i].key) && list[i] == Entry(h, list[i].key))
    && forall key :: Shown(h, key) ==> key in Keys(list)
  }

  /** The whole description: the contents, in order of arrival. */
  ghost predicate IsView(h: seq<Poll>, list: seq<Resolved>) {
    ShowsView(h, list) && Ordered(h, list)
  }

  // ---------------------------------------------------------------- fold = view

  lemma ShownBefore(h: seq<Poll>, key: string)
    requires Timed(h) && h != [] && !InSnapshot(h[|h| - 1].snap, key) && Shown(h, key)
    ensures Shown(h[..|h| - 1], key)
  {
  }

  /** The entry is what becomes of one of the list. */
  ghost predicate Survives(previous: seq<Resolved>, snap: seq<Carrier>, net: NetworkType, now: int, r: Resolved) {
    exists p :: p in previous && KeepOne(p, snap, net, now) == Some(r)
  }

  lemma SurvivesAppended(previous: seq<Resolved>, p: Resolved, snap: seq<Carrier>, net: NetworkType, now: int, r: Resolved)
    ensures Survives(previous + [p], snap, net, now, r) <==> Survives(previous, snap, net, now, r) || KeepOne(p, snap, net, now) == Some(r)
  {
    hide KeepOne;
    if Survives(previous, snap, net, now, r) {
      var q :| q in previous && KeepOne(q, snap, net, now) == Some(r);
      assert q in previous + [p];
    }
    assert p in previous + [p];
  }

  lemma KeptAppended(previous: seq<Resolved>, p: Resolved, snap: seq<Carrier>, net: NetworkType, now: int)
    ensures Kept(previous + [p], snap, net, now) ==
      Kept(previous, snap, net, now) + match KeepOne(p, snap, net, now) { case None => [] case Some(r) => [r] }
  {
    hide KeepOne;
    assert (previous + [p])[..|previous|] == previous;
  }

  /** Exactly what survives: a kept entry stands for a previous one, and conversely. */
  lemma {:induction false} KeptMember(previous: seq<Resolved>, snap: seq<Carrier>, net: NetworkType, now: int, r: Resolved)
    ensures r in Kept(previous, snap, net, now) <==> Survives(previous, snap, net, now, r)
  {
    if previous != [] {
      var head, p := previous[..|previous| - 1], previous[|previous| - 1];
      assert previous == head + [p];
      hide *;
      KeptMember(head, snap, net, now, r);
      KeptAppended(head, p, snap, net, now);
      SurvivesAppended(head, p, snap, net, now, r);
    }
  }

  lemma KeptMembers(previous: seq<Resolved>, snap: seq<Carrier>, net: NetworkType, now: int)
    ensures forall r :: r in Kept(previous, snap, net, now) <==> exists p :: p in previous && KeepOne(p, snap, net, now) == Some(r)
  {
    hide Kept, KeepOne;
    forall r ensures r in Kept(previous, snap, net, now) <==> Survives(previous, snap, net, now, r) {
      KeptMember(previous, snap, net, now, r);
    }
  }

  lemma KeptKeys(previous: seq<Resolved>, snap: seq<Carrier>, net: NetworkType, now: int)
    ensures Keys(Kept(previous, snap, net, now)) <= Keys(previous)
  {
    KeptMembers(previous, snap, net, now);
  }

  /** Kept entries keep their order. */
  lemma {:induction false} KeptOrdered(h: seq<Poll>, previous: seq<Resolved>, snap: seq<Carrier>, net: NetworkType, now: int)
    requires Ordered(h, previous)
    ensures Ordered(h, Kept(previous, snap, net, now))
  {
    if previous != [] {
      var n := |previous| - 1;
      KeptOrdered(h, previous[..n], snap, net, now);
      KeptKeys(previous[..n], snap, net, now);
      var head := Kept(previous[..n], snap, net, now);
      forall i | 0 <= i < |head| ensures Before(Rank(h, head[i].key), Rank(h, previous[n].key)) {
        assert head[i].key in Keys(head);
        var j :| 0 <= j < n && previous[j].key == head[i].key;
      }
    }
  }

  /** The entry stands for an unplaced one of the first n of the snapshot. */
  ghost predicate StandsFor(placed: set<string>, snap: seq<Carrier>, net: NetworkType, now: int, n: nat, r: Resolved)
    requires n <= |snap|
  {
    exists i :: 0 <= i < n && CarrierKey(snap[i]) !in placed && r == FreshOf(snap, net, now, CarrierKey(snap[i]))
  }

  lemma StandsForNext(placed: set<string>, snap: seq<Carrier>, net: NetworkType, now: int, n: nat, r: Resolved)
    requires n < |snap|
    ensures InSnapshot(snap, CarrierKey(snap[n]))
    ensures var key := CarrierKey(snap[n]);
      StandsFor(placed, snap, net, now, n + 1, r) <==>
        StandsFor(placed, snap, net, now, n, r) || (key !in placed && r == FreshOf(snap, net, now, key))
  {
    hide CarrierKey;
  }

  lemma NoneStand(placed: set<string>, snap: seq<Carrier>, net: NetworkType, now: int, r: Resolved)
    ensures r !in Joined(placed, snap, net, now, 0) && !StandsFor(placed, snap, net, now, 0, r)
  {
  }

  lemma InConcat(a: seq<Resolved>, b: seq<Resolved>, r: Resolved)
    ensures r in a + b <==> r in a || r in b
  {
  }

  lemma {:induction false} JoinedMember(placed: set<string>, snap: seq<Carrier>, net: NetworkType, now: int, n: nat, r: Resolved)
    requires n <= |snap|
    ensures r in Joined(placed, snap, net, now, n) <==> StandsFor(placed, snap, net, now, n, r)
  {
    hide *;
    if n == 0 {
      NoneStand(placed, snap, net, now, r);
    } else {
      JoinedNext(placed, snap, net, now, n - 1);
      JoinedMember(placed, snap, net, now, n - 1, r);
      StandsForNext(placed, snap, net, now, n - 1, r);
      var key := CarrierKey(snap[n - 1]);
      InConcat(Joined(placed, snap, net, now, n - 1), if key in placed then [] else [FreshOf(snap, net, now, key)], r);
    }
  }

  lemma JoinedMembers(placed: set<string>, snap: seq<Carrier>, net: NetworkType, now: int, n: nat)
    requires n <= |snap|
    ensures forall r :: r in Joined(placed, snap, net, now, n) <==>
      exists i :: 0 <= i < n && CarrierKey(snap[i]) !in placed && r == FreshOf(snap, net, now, CarrierKey(snap[i]))
  {
    hide Joined, CarrierKey, FreshOf;
    forall r ensures r in Joined(placed, snap, net, now, n) <==> StandsFor(placed, snap, net, now, n, r) {
      JoinedMember(placed, snap, net, now, n, r);
    }
  }

  /** The place of a key in the snapshot, -1 when it is not listed. */
  function Place(snap: seq<Carrier>, key: string): (i: int)
    ensures i >= 0 <==> InSnapshot(snap, key)
  {
    LastIndex(snap, |snap|, key)
  }

  lemma DistinctPlace(snap: seq<Carrier>, i: nat)
    requires DistinctKeys(snap) && i < |snap|
    ensures Place(snap, CarrierKey(snap[i])) == i
  {
  }

  /** Every entry stands for one of the first n of the snapshot, outside `placed`, in its order. */
  ghost predicate InPlaces(placed: set<string>, snap: seq<Carrier>, list: seq<Resolved>, n: int) {
    && (forall i :: 0 <= i < |list| ==> list[i].key !in placed && 0 <= Place(snap, list[i].key) < n)
    && forall i, j :: 0 <= i < j < |list| ==> Place(snap, list[i].key) < Place(snap, list[j].key)
  }

  lemma AppendPlace(placed: set<string>, snap: seq<Carrier>, list: seq<Resolved>, r: Resolved, n: nat)
    requires InPlaces(placed, snap, list, n) && r.key !in placed && Place(snap, r.key) == n
    ensures InPlaces(placed, snap, list + [r], n + 1)
  {
    hide Place;
  }

  lemma NoPlaces(placed: set<string>, snap: seq<Carrier>, net: NetworkType, now: int)
    ensures InPlaces(placed, snap, Joined(placed, snap, net, now, 0), 0)
  {
  }

  /** New carriers come in the order the radio listed them. */
  lemma {:induction false} JoinedPlaces(placed: set<string>, snap: seq<Carrier>, net: NetworkType, now: int, n: nat)
    requires DistinctKeys(snap) && n <= |snap|
    ensures InPlaces(placed, snap, Joined(placed, snap, net, now, n), n)
  {
    hide *;
    if n == 0 {
      NoPlaces(placed, snap, net, now);
    } else {
      JoinedPlaces(placed, snap, net, now, n - 1);
      var key := CarrierKey(snap[n - 1]);
      var head := Joined(placed, snap, net, now, n - 1);
      JoinedNext(placed, snap, net, now, n - 1);
      DistinctPlace(snap, n - 1);
      if key in placed {
        assert head + [] == head;
        MorePlaces(placed, snap, head, n - 1);
      } else {
        AppendPlace(placed, snap, head, FreshOf(snap, net, now, key), n - 1);
      }
    }
  }

  lemma MorePlaces(placed: set<string>, snap: seq<Carrier>, list: seq<Resolved>, n: nat)
    requires InPlaces(placed, snap, list, n)
    ensures InPlaces(placed, snap, list, n + 1)
  {
    hide Place;
  }

  /** A key that joins at a poll is ranked by it, and by its place in the snapshot. */
  lemma JoinRank(h: seq<Poll>, key: string)
    requires h != [] && InSnapshot(h[|h| - 1].snap, key) && !Shown(h[..|h| - 1], key)
    ensures Rank(h, key) == (|h| - 1, Place(h[|h| - 1].snap, key))
  {
  }

  lemma JoinedOrdered(h: seq<Poll>, placed: set<string>)
    requires h != [] && DistinctKeys(h[|h| - 1].snap)
    requires forall key :: InSnapshot(h[|h| - 1].snap, key) && key !in placed ==> !Shown(h[..|h| - 1], key)
    ensures var p := h[|h| - 1]; var list := Joined(placed, p.snap, p.net, p.now, |p.snap|);
      Ordered(h, list) && forall i :: 0 <= i < |list| ==> Rank(h, list[i].key).0 == |h| - 1
  {
    var p := h[|h| - 1];
    var list := Joined(placed, p.snap, p.net, p.now, |p.snap|);
    JoinedPlaces(placed, p.snap, p.net, p.now, |p.snap|);
    hide Rank, Place, Shown, Joined;
    forall i | 0 <= i < |list| ensures Rank(h, list[i].key) == (|h| - 1, Place(p.snap, list[i].key)) {
      JoinRank(h, list[i].key);
    }
  }

  /** Over every history of polls at non-decreasing times, repeated keys included, the folded list
      shows exactly the keys the history shows, each with its entry. */
  lemma {:induction false} FoldShowsView(h: seq<Poll>)
    requires Timed(h)
    ensures ShowsView(h, Fold(h))
  {
    if h != [] {
      FoldShowsView(h[..|h| - 1]);
      StepKeepsShown(h, Fold(h[..|h| - 1]));
    }
  }

  /** With distinct keys in each snapshot, the order too is that of the history. */
  lemma {:induction false} FoldIsView(h: seq<Poll>)
    requires History(h)
    ensures IsView(h, Fold(h))
  {
    if h != [] {
      var before, p := h[..|h| - 1], h[|h| - 1];
      FoldIsView(before);
      StepKeepsView(h, Fold(before));
    }
  }

  lemma ListedIsShown(h: seq<Poll>, key: string)
    requires h != [] && InSnapshot(h[|h| - 1].snap, key)
    ensures Shown(h, key)
  {
  }

  /** Kept entries first, in their old order, then the new ones. */
  lemma OrderedConcat(h: seq<Poll>, kept: seq<Resolved>, joined: seq<Resolved>)
    requires h != [] && Ordered(h[..|h| - 1], kept) && (forall r :: r in kept ==> Shown(h[..|h| - 1], r.key))
    requires Ordered(h, joined) && forall i :: 0 <= i < |joined| ==> Rank(h, joined[i].key).0 == |h| - 1
    ensures Ordered(h, kept + joined)
  {
    hide Rank, Shown;
    var list := kept + joined;
    forall i, j | 0 <= i < j < |list| ensures Before(Rank(h, list[i].key), Rank(h, list[j].key)) {
      if i < |kept| {
        assert kept[i] in kept;
        RankStays(h, kept[i].key);
        if j < |kept| {
          assert kept[j] in kept;
          RankStays(h, kept[j].key);
        }
      }
    }
  }

  /** Every shown key is kept or joins. */
  lemma ShownListed(h: seq<Poll>, previous: seq<Resolved>, key: string)
    requires Timed(h) && h != [] && ShowsView(h[..|h| - 1], previous) && Shown(h, key)
    ensures var p := h[|h| - 1]; key in Keys(Reconciled(previous, p.snap, p.net, p.now))
  {
    hide Kept, Joined, ShowsView, Shown;
    var p := h[|h| - 1];
    var kept := Kept(previous, p.snap, p.net, p.now);
    var joined := Joined(Keys(kept), p.snap, p.net, p.now, |p.snap|);
    if key in Keys(kept) {
      var r :| r in kept && r.key == key;
      assert r in kept + joined;
    } else {
      ShownJoins(h, previous, key);
      var r :| r in joined && r.key == key;
      assert r in kept + joined;
    }
  }

  lemma StepKeepsShown(h: seq<Poll>, previous: seq<Resolved>)
    requires Timed(h) && h != [] && ShowsView(h[..|h| - 1], previous)
    ensures var p := h[|h| - 1]; ShowsView(h, Reconciled(previous, p.snap, p.net, p.now))
  {
    hide Kept, Joined, LastIndex, CarrierKey, LastSeen, Entry;
    var p := h[|h| - 1];
    var kept := Kept(previous, p.snap, p.net, p.now);
    KeptEntries(h, previous);
    var joined := Joined(Keys(kept), p.snap, p.net, p.now, |p.snap|);
    JoinedEntries(h, Keys(kept));
    forall key | Shown(h, key) ensures key in Keys(kept + joined) {
      ShownListed(h, previous, key);
    }
    forall i | 0 <= i < |kept + joined| ensures Shown(h, (kept + joined)[i].key) && (kept + joined)[i] == Entry(h, (kept + joined)[i].key) {
      assert (kept + joined)[i] in kept || (kept + joined)[i] in joined;
    }
  }

  lemma StepKeepsView(h: seq<Poll>, previous: seq<Resolved>)
    requires History(h) && h != [] && IsView(h[..|h| - 1], previous)
    ensures var p := h[|h| - 1]; IsView(h, Reconciled(previous, p.snap, p.net, p.now))
  {
    hide Kept, Joined, LastIndex, CarrierKey, Rank, Shown, ShowsView;
    var before, p := h[..|h| - 1], h[|h| - 1];
    var kept := Kept(previous, p.snap, p.net, p.now);
    StepKeepsShown(h, previous);
    PlacedAre(h, previous);
    KeptOrdered(before, previous, p.snap, p.net, p.now);
    forall key | InSnapshot(p.snap, key) && key !in Keys(kept) ensures !Shown(before, key) {
      ListedIsShown(h, key);
    }
    JoinedOrdered(h, Keys(kept));
    forall r | r in kept ensures Shown(before, r.key) {
      assert r.key in Keys(kept);
    }
    OrderedConcat(h, kept, Joined(Keys(kept), p.snap, p.net, p.now, |p.snap|));
  }

  /** A kept entry is the entry of its key. */
  lemma KeptEntries(h: seq<Poll>, previous: seq<Resolved>)
    requires Timed(h) && h != [] && ShowsView(h[..|h| - 1], previous)
    ensures var p := h[|h| - 1]; forall r :: r in Kept(previous, p.snap, p.net, p.now) ==> Shown(h, r.key) && r == Entry(h, r.key)
  {
    var before, p := h[..|h| - 1], h[|h| - 1];
    KeptMembers(previous, p.snap, p.net, p.now);
    forall r | r in Kept(previous, p.snap, p.net, p.now) ensures Shown(h, r.key) && r == Entry(h, r.key) {
      var q :| q in previous && KeepOne(q, p.snap, p.net, p.now) == Some(r);
      assert Shown(before, q.key) && q == Entry(before, q.key);
      KeepOneIsEntry(h, q.key);
    }
  }

  /** Keeping the entry of a key gives its entry after the next poll, or nothing. */
  lemma KeepOneIsEntry(h: seq<Poll>, key: string)
    requires h != [] && Shown(h[..|h| - 1], key)
    ensures var p := h[|h| - 1];
      KeepOne(Entry(h[..|h| - 1], key), p.snap, p.net, p.now) == if Shown(h, key) then Some(Entry(h, key)) else None
  {
    var before, p := h[..|h| - 1], h[|h| - 1];
    if InSnapshot(p.snap, key) {
      assert LastSeen(h, key) == |h| - 1;
    } else {
      assert LastSeen(h, key) == LastSeen(before, key);
    }
  }

  /** The placed keys: shown before, and still shown now. */
  lemma PlacedAre(h: seq<Poll>, previous: seq<Resolved>)
    requires Timed(h) && h != [] && ShowsView(h[..|h| - 1], previous)
    ensures var p := h[|h| - 1];
      forall key :: key in Keys(Kept(previous, p.snap, p.net, p.now)) <==> Shown(h[..|h| - 1], key) && Shown(h, key)
  {
    var before, p := h[..|h| - 1], h[|h| - 1];
    var kept := Kept(previous, p.snap, p.net, p.now);
    KeptMembers(previous, p.snap, p.net, p.now);
    KeptEntries(h, previous);
    KeptKeys(previous, p.snap, p.net, p.now);
    forall key ensures key in Keys(kept) <==> Shown(before, key) && Shown(h, key) {
      if key in Keys(kept) {
        assert key in Keys(previous);
      }
      if Shown(before, key) && Shown(h, key) {
        var q :| q in previous && q.key == key;
        assert q == Entry(before, key);
        KeepOneIsEntry(h, key);
        assert Entry(h, key) in kept;
      }
    }
  }

  lemma JoinedEntries(h: seq<Poll>, placed: set<string>)
    requires h != []
    ensures var p := h[|h| - 1];
      forall r :: r in Joined(placed, p.snap, p.net, p.now, |p.snap|) ==> Shown(h, r.key) && r == Entry(h, r.key)
  {
    var p := h[|h| - 1];
    JoinedMembers(placed, p.snap, p.net, p.now, |p.snap|);
  }

  lemma ShownJoins(h: seq<Poll>, previous: seq<Resolved>, key: string)
    requires Timed(h) && h != [] && ShowsView(h[..|h| - 1], previous)
    requires var p := h[|h| - 1]; Shown(h, key) && key !in Keys(Kept(previous, p.snap, p.net, p.now))
    ensures var p := h[|h| - 1]; var placed := Keys(Kept(previous, p.snap, p.net, p.now));
      exists r :: r in Joined(placed, p.snap, p.net, p.now, |p.snap|) && r.key == key
  {
    var p := h[|h| - 1];
    var placed := Keys(Kept(previous, p.snap, p.net, p.now));
    PlacedAre(h, previous);
    if !InSnapshot(p.snap, key) { ShownBefore(h, key); }
    var i := LastIndex(p.snap, |p.snap|, key);
    JoinedMembers(placed, p.snap, p.net, p.now, |p.snap|);
    assert FreshOf(p.snap, p.net, p.now, CarrierKey(p.snap[i])) in Joined(placed, p.snap, p.net, p.now, |p.snap|);
  }

  ghost predicate Sorted(rank: string -> (int, int), keys: seq<string>) {
    forall i, j :: 0 <= i < j < |keys| ==> Before(rank(keys[i]), rank(keys[j]))
  }

  lemma {:induction false} SortedPrefix(rank: string -> (int, int), a: seq<string>, b: seq<string>, n: nat)
    requires Sorted(rank, a) && Sorted(rank, b) && (forall k :: k in a <==> k in b) && n <= |a| && n <= |b|
    ensures forall i :: 0 <= i < n ==> a[i] == b[i]
  {
    if n > 0 {
      SortedPrefix(rank, a, b, n - 1);
      NotEarlier(rank, a, b, n - 1);
      NotEarlier(rank, b, a, n - 1);
    }
  }

  /** After equal prefixes, the other list does not continue with an earlier key. */
  lemma NotEarlier(rank: string -> (int, int), a: seq<string>, b: seq<string>, n: nat)
    requires Sorted(rank, a) && Sorted(rank, b) && (forall k :: k in a <==> k in b) && n < |a| && n < |b|
    requires forall i :: 0 <= i < n ==> a[i] == b[i]
    ensures a[n] == b[n] || Before(rank(a[n]), rank(b[n]))
  {
    assert b[n] in a;
    var i :| 0 <= i < |a| && a[i] == b[n];
  }

  lemma SortedUnique(rank: string -> (int, int), a: seq<string>, b: seq<string>)
    requires Sorted(rank, a) && Sorted(rank, b) && (forall k :: k in a <==> k in b)
    ensures a == b
  {
    SortedNotLonger(rank, a, b);
    SortedNotLonger(rank, b, a);
    SortedPrefix(rank, a, b, |a|);
  }

  lemma SortedNotLonger(rank: string -> (int, int), a: seq<string>, b: seq<string>)
    requires Sorted(rank, a) && Sorted(rank, b) && (forall k :: k in a <==> k in b)
    ensures |b| <= |a|
  {
    if |a| < |b| {
      SortedPrefix(rank, a, b, |a|);
      SortedMeets(rank, a, b, |a|);
    }
  }

  lemma SortedMeets(rank: string -> (int, int), a: seq<string>, b: seq<string>, n: nat)
    requires Sorted(rank, b) && n < |b| && b[n] in a && |a| <= n
    ensures exists i :: 0 <= i < |a| && a[i] == b[n] && i < n && Before(rank(b[i]), rank(b[n]))
  {
    var i :| 0 <= i < |a| && a[i] == b[n];
  }

  ghost function KeySeq(list: seq<Resolved>): (keys: seq<string>)
    ensures |keys| == |list| && forall i :: 0 <= i < |list| ==> keys[i] == list[i].key
  {
    seq(|list|, i requires 0 <= i < |list| => list[i].key)
  }

  lemma ViewKeys(h: seq<Poll>, a: seq<Resolved>)
    requires IsView(h, a)
    ensures Sorted(key => Rank(h, key), KeySeq(a)) && forall key :: key in KeySeq(a) <==> Shown(h, key)
  {
    hide Shown, Rank, Entry;
    forall key | Shown(h, key) ensures key in KeySeq(a) {
      var i :| 0 <= i < |a| && a[i].key == key;
      assert KeySeq(a)[i] == key;
    }
  }

  /** The view leaves no freedom: one history, one list. */
  lemma ViewUnique(h: seq<Poll>, a: seq<Resolved>, b: seq<Resolved>)
    requires IsView(h, a) && IsView(h, b)
    ensures a == b
  {
    ViewKeys(h, a);
    ViewKeys(h, b);
    SortedUnique(key => Rank(h, key), KeySeq(a), KeySeq(b));
    forall i | 0 <= i < |a| ensures a[i] == b[i] {
      assert a[i].key == KeySeq(a)[i] == KeySeq(b)[i] == b[i].key;
    }
  }

  lemma RankStays(h: seq<Poll>, key: string)
    requires h != [] && Shown(h[..|h| - 1], key)
    ensures Rank(h, key) == Rank(h[..|h| - 1], key)
  {
  }

  lemma OneWay(x: (int, int), y: (int, int))
    ensures !(Before(x, y) && Before(y, x)) && !Before(x, x)
  {
  }

  lemma OrderedAt(h: seq<Poll>, list: seq<Resolved>, i: nat, j: nat)
    requires IsView(h, list) && i < j < |list|
    ensures Before(Rank(h, list[i].key), Rank(h, list[j].key))
    ensures Shown(h, list[i].key) && Shown(h, list[j].key)
  {
  }

  /** Survivors never change their relative order from one poll to the next. */
  lemma SurvivorsKeepOrder(h: seq<Poll>, was: seq<Resolved>, list: seq<Resolved>, i: nat, j: nat, x: nat, y: nat)
    requires h != [] && IsView(h[..|h| - 1], was) && IsView(h, list)
    requires i < j < |was| && x < |list| && y < |list| && list[x].key == was[i].key && list[y].key == was[j].key
    ensures x < y
  {
    hide Rank, LastSeen, Shown, Entry;
    OrderedAt(h[..|h| - 1], was, i, j);
    RankStays(h, was[i].key);
    RankStays(h, was[j].key);
    OneWay(Rank(h, was[i].key), Rank(h, was[j].key));
    if y < x { OrderedAt(h, list, y, x); }
  }

  // ---------------------------------------------------------------- what a row says

  /** Poll n is the last of the history that lists the key, and i its last place there. */
  ghost predicate LastListing(h: seq<Poll>, key: string, n: int, i: int) {
    && 0 <= n < |h| && 0 <= i < |h[n].snap| && CarrierKey(h[n].snap[i]) == key
    && (forall j :: i < j < |h[n].snap| ==> CarrierKey(h[n].snap[j]) != key)
    && forall m, j :: n < m < |h| && 0 <= j < |h[m].snap| ==> CarrierKey(h[m].snap[j]) != key
  }

  lemma LastListingUnique(h: seq<Poll>, key: string, n: int, i: int, m: int, j: int)
    requires LastListing(h, key, n, i) && LastListing(h, key, m, j)
    ensures n == m && i == j
  {
  }

  lemma SeenIsListing(h: seq<Poll>, key: string) returns (i: nat)
    requires LastSeen(h, key) >= 0
    ensures LastListing(h, key, LastSeen(h, key), i) && i == LastIndex(h[LastSeen(h, key)].snap, |h[LastSeen(h, key)].snap|, key)
  {
    hide CarrierKey;
    var n := LastSeen(h, key);
    i := LastIndex(h[n].snap, |h[n].snap|, key);
    forall m, j | n < m < |h| && 0 <= j < |h[m].snap| ensures CarrierKey(h[m].snap[j]) != key {
      assert !InSnapshot(h[m].snap, key);
    }
  }

  lemma ListingIsSeen(h: seq<Poll>, key: string, n: int, i: int)
    requires LastListing(h, key, n, i)
    ensures LastSeen(h, key) == n && LastIndex(h[n].snap, |h[n].snap|, key) == i
  {
    hide CarrierKey;
    assert InSnapshot(h[n].snap, key);
    var j := SeenIsListing(h, key);
    LastListingUnique(h, key, n, i, LastSeen(h, key), j);
  }

  /** A row says what the last poll that lists its key said of that carrier: its readings, its time,
      and its role in that poll. It is released from six seconds on, and gone from two minutes on. */
  ghost predicate SaysWhat(h: seq<Poll>, r: Resolved, n: int, i: int)
    requires 0 <= n < |h| && 0 <= i < |h[n].snap|
  {
    var p, c, age := h[n], h[n].snap[i], h[|h| - 1].now - h[n].now;
    && r.carrier == c && r.lastSeenMs == p.now
    && age < 120000 && (r.released <==> age >= 6000)
    && (r.role == RolePcc <==> c.kind == Pcc)
    && (r.role == RoleNrAnchor <==> p.net == NetNsa && c.kind == Scc && c.technology == Nr && forall j :: 0 <= j < i ==> p.snap[j].technology == Lte)
  }

  lemma EntrySays(h: seq<Poll>, key: string, i: nat)
    requires h != [] && Shown(h, key) && LastListing(h, key, LastSeen(h, key), i)
    ensures SaysWhat(h, Entry(h, key), LastSeen(h, key), i)
  {
    hide CarrierKey, AssignRoles;
    var n := LastSeen(h, key);
    ListingIsSeen(h, key, n, i);
    RolesHonest(h[n].snap, h[n].net, i);
  }

  /** Over every history at non-decreasing times, each row on screen says what the last listing of
      its key said. */
  lemma RowIsLastListing(h: seq<Poll>, r: Resolved, n: int, i: int)
    requires Timed(h) && r in Fold(h) && LastListing(h, r.key, n, i)
    ensures SaysWhat(h, r, n, i)
  {
    FoldShowsView(h);
    hide Fold, SaysWhat, Entry;
    var x :| 0 <= x < |Fold(h)| && Fold(h)[x] == r;
    ListingIsSeen(h, r.key, n, i);
    EntrySays(h, r.key, i);
  }

  /** Some poll listed the key, the last time less than two minutes ago. */
  ghost predicate RecentlyListed(h: seq<Poll>, key: string) {
    exists n, i :: LastListing(h, key, n, i) && h[|h| - 1].now - h[n].now < 120000
  }

  lemma ShownIffListed(h: seq<Poll>, key: string)
    requires h != []
    ensures Shown(h, key) <==> RecentlyListed(h, key)
  {
    if Shown(h, key) {
      var i := SeenIsListing(h, key);
      assert LastListing(h, key, LastSeen(h, key), i);
    }
    if n, i :| LastListing(h, key, n, i) && h[|h| - 1].now - h[n].now < 120000 {
      ListingIsSeen(h, key, n, i);
    }
  }

  lemma ShownIffRow(h: seq<Poll>, list: seq<Resolved>, key: string)
    requires ShowsView(h, list)
    ensures Shown(h, key) <==> exists r :: r in list && r.key == key
  {
    hide Shown, Entry;
    if r :| r in list && r.key == key {
      var x :| 0 <= x < |list| && list[x] == r;
    }
  }

  /** A key has a row exactly when it was recently listed. */
  lemma RowIffListed(h: seq<Poll>, key: string)
    requires Timed(h)
    ensures (exists r :: r in Fold(h) && r.key == key) <==> RecentlyListed(h, key)
  {
    if h != [] {
      hide *;
      FoldShowsView(h);
      ShownIffListed(h, key);
      ShownIffRow(h, Fold(h), key);
    }
  }

  // ---------------------------------------------------------------- what a key stands for

  lemma FirstDash(a: string, b: string, x: string, y: string)
    requires Free(a, '-') && Free(b, '-') && a + "-" + x == b + "-" + y
    ensures a == b && x == y
  {
    hide *;
    SplitAtSeparator(a, '-', x);
    SplitAtSeparator(b, '-', y);
    assert ([a] + Split(x, '-'))[0] == ([b] + Split(y, '-'))[0];
    assert (a + "-" + x)[|a| + 1..] == x && (b + "-" + y)[|b| + 1..] == y;
  }

  lemma ChannelTextInjective(x: Option<int>, y: Option<int>)
    requires ChannelText(x) == ChannelText(y)
    ensures x == y
  {
    ChannelTextReads(x);
    ChannelTextReads(y);
  }

  lemma ChannelTextReads(x: Option<int>)
    ensures var t := ChannelText(x);
      && (x.None? <==> t != "" && t[0] == 'n')
      && (x.Some? && x.value < 0 <==> t != "" && t[0] == '-')
      && (x.Some? && x.value >= 0 ==> FromDigits(t, 10) == x.value)
      && (x.Some? && x.value < 0 ==> FromDigits(t[1..], 10) == -x.value)
  {
    if x.Some? {
      var n: nat := if x.value < 0 then -x.value else x.value;
      ToBaseRoundTrip(n, 10);
      var d := ToBase(n, 10);
      assert DigitValue(d[0]) < 10;
      assert x.value < 0 ==> ("-" + d)[1..] == d;
      hide ToBase, FromDigits;
    }
  }

  /** For bands whose name holds no dash, two carriers share a key exactly when they agree in
      technology, band and channel. */
  lemma SameKeyIff(c: Carrier, d: Carrier)
    requires Free(c.band, '-') && Free(d.band, '-')
    ensures CarrierKey(c) == CarrierKey(d) <==> c.technology == d.technology && c.band == d.band && c.earfcn == d.earfcn
  {
    var tc, td := if c.technology.Lte? then "LTE" else "NR", if d.technology.Lte? then "LTE" else "NR";
    assert CarrierKey(c) == tc + "-" + (c.band + "-" + ChannelText(c.earfcn));
    assert CarrierKey(d) == td + "-" + (d.band + "-" + ChannelText(d.earfcn));
    if CarrierKey(c) == CarrierKey(d) {
      FirstDash(tc, td, c.band + "-" + ChannelText(c.earfcn), d.band + "-" + ChannelText(d.earfcn));
      FirstDash(c.band, d.band, ChannelText(c.earfcn), ChannelText(d.earfcn));
      ChannelTextInjective(c.earfcn, d.earfcn);
      assert |"LTE"| == 3 && |"NR"| == 2;
    }
  }

  // ---------------------------------------------------------------- duplicate keys in a snapshot

  ghost predicate UniqueKeys(list: seq<Resolved>) {
    forall i, j :: 0 <= i < j < |list| ==> list[i].key != list[j].key
  }

  lemma {:induction false} KeptUnique(previous: seq<Resolved>, snap: seq<Carrier>, net: NetworkType, now: int)
    requires UniqueKeys(previous)
    ensures UniqueKeys(Kept(previous, snap, net, now))
  {
    if previous != [] {
      var n := |previous| - 1;
      KeptUnique(previous[..n], snap, net, now);
      KeptKeys(previous[..n], snap, net, now);
      var head := Kept(previous[..n], snap, net, now);
      forall i | 0 <= i < |head| ensures head[i].key != previous[n].key {
        assert head[i].key in Keys(head);
      }
    }
  }

  /** The first n of the snapshot repeat no key outside the placed ones. */
  ghost predicate RepeatsPlaced(placed: set<string>, snap: seq<Carrier>, n: nat)
    requires n <= |snap|
  {
    forall i, j :: 0 <= i < j < n && CarrierKey(snap[i]) == CarrierKey(snap[j]) ==> CarrierKey(snap[i]) in placed
  }

  lemma NothingRepeats(placed: set<string>, snap: seq<Carrier>, net: NetworkType, now: int)
    ensures UniqueKeys(Joined(placed, snap, net, now, 0)) && RepeatsPlaced(placed, snap, 0)
  {
  }

  lemma {:induction false} JoinedUniqueIff(placed: set<string>, snap: seq<Carrier>, net: NetworkType, now: int, n: nat)
    requires n <= |snap|
    ensures UniqueKeys(Joined(placed, snap, net, now, n)) <==> RepeatsPlaced(placed, snap, n)
  {
    hide *;
    if n == 0 {
      NothingRepeats(placed, snap, net, now);
    } else {
      JoinedUniqueIff(placed, snap, net, now, n - 1);
      JoinedUniqueStep(placed, snap, net, now, n);
      RepeatsStep(placed, snap, n);
    }
  }

  lemma JoinedUniqueStep(placed: set<string>, snap: seq<Carrier>, net: NetworkType, now: int, n: nat)
    requires 0 < n <= |snap|
    ensures var key := CarrierKey(snap[n - 1]);
      UniqueKeys(Joined(placed, snap, net, now, n)) <==>
        UniqueKeys(Joined(placed, snap, net, now, n - 1)) && (key in placed || forall i :: 0 <= i < n - 1 ==> CarrierKey(snap[i]) != key)
  {
    hide *;
    var head := Joined(placed, snap, net, now, n - 1);
    var key := CarrierKey(snap[n - 1]);
    JoinedNext(placed, snap, net, now, n - 1);
    if key in placed {
      assert head + [] == head;
    } else {
      JoinedKey(placed, snap, net, now, n - 1, key);
      AppendUnique(head, FreshOf(snap, net, now, key));
    }
  }

  lemma RepeatsStep(placed: set<string>, snap: seq<Carrier>, n: nat)
    requires 0 < n <= |snap|
    ensures var key := CarrierKey(snap[n - 1]);
      RepeatsPlaced(placed, snap, n) <==>
        RepeatsPlaced(placed, snap, n - 1) && (key in placed || forall i :: 0 <= i < n - 1 ==> CarrierKey(snap[i]) != key)
  {
  }

  lemma JoinedKey(placed: set<string>, snap: seq<Carrier>, net: NetworkType, now: int, n: nat, key: string)
    requires n <= |snap|
    ensures key in Keys(Joined(placed, snap, net, now, n)) <==> key !in placed && exists i :: 0 <= i < n && CarrierKey(snap[i]) == key
  {
    JoinedMembers(placed, snap, net, now, n);
    var list := Joined(placed, snap, net, now, n);
    if key !in placed {
      if i :| 0 <= i < n && CarrierKey(snap[i]) == key {
        assert FreshOf(snap, net, now, CarrierKey(snap[i])) in list;
      }
    }
  }

  lemma AppendUnique(head: seq<Resolved>, r: Resolved)
    ensures UniqueKeys(head + [r]) <==> UniqueKeys(head) && r.key !in Keys(head)
  {
    ConcatUnique(head, [r]);
  }

  /** The last loop does not mark what it places: the list stays free of duplicates exactly when
      every key listed twice was already on screen. */
  lemma UniqueIff(previous: seq<Resolved>, snap: seq<Carrier>, net: NetworkType, now: int)
    requires UniqueKeys(previous)
    ensures UniqueKeys(Reconciled(previous, snap, net, now)) <==>
      forall i, j :: 0 <= i < j < |snap| && CarrierKey(snap[i]) == CarrierKey(snap[j]) ==> CarrierKey(snap[i]) in Keys(previous)
  {
    var kept := Kept(previous, snap, net, now);
    KeptUnique(previous, snap, net, now);
    KeptMembers(previous, snap, net, now);
    forall i | 0 <= i < |snap| ensures CarrierKey(snap[i]) in Keys(previous) <==> CarrierKey(snap[i]) in Keys(kept) {
      var key := CarrierKey(snap[i]);
      if key in Keys(previous) {
        var q :| q in previous && q.key == key;
        assert InSnapshot(snap, key);
        assert FreshOf(snap, net, now, key) in kept;
      }
    }
    var joined := Joined(Keys(kept), snap, net, now, |snap|);
    JoinedUniqueIff(Keys(kept), snap, net, now, |snap|);
    JoinedMembers(Keys(kept), snap, net, now, |snap|);
    ConcatUnique(kept, joined);
  }

  /** Every key the snapshot repeats is on screen already. */
  ghost predicate RepeatsShown(list: seq<Resolved>, snap: seq<Carrier>) {
    forall i, j :: 0 <= i < j < |snap| && CarrierKey(snap[i]) == CarrierKey(snap[j]) ==> CarrierKey(snap[i]) in Keys(list)
  }

  /** The list has no duplicate key, now and after every earlier poll. */
  ghost predicate AlwaysUnique(h: seq<Poll>) {
    UniqueKeys(Fold(h)) && (h != [] ==> AlwaysUnique(h[..|h| - 1]))
  }

  /** At every poll, the keys it repeats were on screen before it. */
  ghost predicate AlwaysRepeatsShown(h: seq<Poll>) {
    h != [] ==> RepeatsShown(Fold(h[..|h| - 1]), h[|h| - 1].snap) && AlwaysRepeatsShown(h[..|h| - 1])
  }

  lemma FoldUniqueIff(h: seq<Poll>)
    requires h != [] && UniqueKeys(Fold(h[..|h| - 1]))
    ensures UniqueKeys(Fold(h)) <==> RepeatsShown(Fold(h[..|h| - 1]), h[|h| - 1].snap)
  {
    var before, p := h[..|h| - 1], h[|h| - 1];
    hide UniqueKeys, Reconciled, CarrierKey;
    UniqueIff(Fold(before), p.snap, p.net, p.now);
  }

  /** Over every history, whatever its snapshots and times: the list is free of duplicates after
      every poll exactly when each repeated key was on screen before its poll. */
  lemma {:induction false} AlwaysUniqueIff(h: seq<Poll>)
    ensures AlwaysUnique(h) <==> AlwaysRepeatsShown(h)
  {
    if h != [] {
      var before := h[..|h| - 1];
      AlwaysUniqueIff(before);
      hide UniqueKeys, RepeatsShown, Fold;
      assert AlwaysUnique(before) ==> UniqueKeys(Fold(before));
      if UniqueKeys(Fold(before)) { FoldUniqueIff(h); }
    }
  }

  /** Two cells of one band without a channel number: the first poll lists the key twice. */
  lemma TwinCells(now: int)
    ensures var snap := [Carrier(Pcc, Lte, "B3", None, Some(1), None), Carrier(Scc, Lte, "B3", None, Some(2), None)];
      !UniqueKeys(Fold([Poll(snap, NetLte, now)]))
  {
    var snap := [Carrier(Pcc, Lte, "B3", None, Some(1), None), Carrier(Scc, Lte, "B3", None, Some(2), None)];
    var h := [Poll(snap, NetLte, now)];
    assert h[..0] == [] && Fold([]) == [];
    assert CarrierKey(snap[0]) == CarrierKey(snap[1]);
    assert CarrierKey(snap[0]) !in Keys([]);
    hide CarrierKey, Reconciled, Fold;
    FoldUniqueIff(h);
  }

  lemma ConcatUnique(a: seq<Resolved>, b: seq<Resolved>)
    ensures UniqueKeys(a + b) <==> UniqueKeys(a) && UniqueKeys(b) && forall r :: r in b ==> r.key !in Keys(a)
  {
    var c := a + b;
    if UniqueKeys(c) {
      forall i, j | 0 <= i < j < |a| ensures a[i].key != a[j].key {
        assert c[i] == a[i] && c[j] == a[j];
      }
      forall i, j | 0 <= i < j < |b| ensures b[i].key != b[j].key {
        assert c[|a| + i] == b[i] && c[|a| + j] == b[j];
      }
      forall r | r in b ensures r.key !in Keys(a) {
        var j :| 0 <= j < |b| && b[j] == r;
        assert c[|a| + j] == r;
        forall x | x in a ensures x.key != r.key {
          var i :| 0 <= i < |a| && a[i] == x;
          assert c[i] == x;
        }
      }
    }
    if UniqueKeys(a) && UniqueKeys(b) && forall r :: r in b ==> r.key !in Keys(a) {
      forall i, j | 0 <= i < j < |c| ensures c[i].key != c[j].key {
        if i < |a| <= j {
          assert c[j] in b && c[i] in a;
        }
      }
    }
  }
}
