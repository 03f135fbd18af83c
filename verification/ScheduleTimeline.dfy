/** The 24-hour scenario strip: painted minute by minute, collapsed into runs, and searched
    for the next hand-over. */
module ScheduleTimeline {
  import opened Text
  import opened ScenarioSchedule

  datatype Segment = Segment(startMinute: int, endMinute: int, scenarioId: string, isLive: bool, flexBasis: int)
  datatype DayTimeline = DayTimeline(segments: seq<Segment>, nowMinute: Minute, nowPercent: real)
  datatype Change = Change(atMinute: int, scenarioId: string)

  // ---------------------------------------------------------------- what a strip is

  /** The resolver's answer for every minute of a weekday. */
  ghost function DayOf(s: Schedule, fallback: string, dow: Dow): (day: seq<string>)
    ensures |day| == MINUTES_PER_DAY
    ensures forall m: Minute :: day[m] == Resolve(s, dow, m, fallback)
  {
    seq(MINUTES_PER_DAY, m requires 0 <= m < MINUTES_PER_DAY => Resolve(s, dow, m, fallback))
  }

  /** Consecutive non-empty segments covering minutes 0 to `end`, with no gap and no overlap. */
  ghost predicate Tiles(segs: seq<Segment>, end: int) {
    && (forall k :: 0 <= k < |segs| ==> segs[k].startMinute < segs[k].endMinute)
    && (forall k :: 0 < k < |segs| ==> segs[k - 1].endMinute == segs[k].startMinute)
    && (if |segs| == 0 then end == 0 else segs[0].startMinute == 0 && segs[|segs| - 1].endMinute == end)
  }

  /** A segment tells the truth about its minutes. */
  ghost predicate Truthful(seg: Segment, day: seq<string>, now: int) {
    && 0 <= seg.startMinute && seg.endMinute <= |day|
    && seg.flexBasis == seg.endMinute - seg.startMinute
    && (seg.isLive <==> seg.startMinute <= now < seg.endMinute)
    && forall m :: seg.startMinute <= m < seg.endMinute ==> day[m] == seg.scenarioId
  }

  ghost predicate NoSeams(segs: seq<Segment>) {
    forall k :: 0 < k < |segs| ==> segs[k - 1].scenarioId != segs[k].scenarioId
  }

  ghost predicate IsStrip(segs: seq<Segment>, day: seq<string>, now: int) {
    && Tiles(segs, |day|)
    && NoSeams(segs)
    && forall k :: 0 <= k < |segs| ==> Truthful(segs[k], day, now)
  }

  // ---------------------------------------------------------------- painting

  /** Overwrites the minutes of the intervals and nothing else. */
  method PaintBlock(owner: array<string>, intervals: seq<(int, int)>, scenario: string)
    requires forall k :: 0 <= k < |intervals| ==> 0 <= intervals[k].0 <= intervals[k].1 <= owner.Length
    modifies owner
    ensures forall x :: 0 <= x < owner.Length ==>
      owner[x] == if Covered(intervals, |intervals|, x) then scenario else old(owner[x])
  {
    for k := 0 to |intervals|
      invariant forall x :: 0 <= x < owner.Length ==>
        owner[x] == if Covered(intervals, k, x) then scenario else old(owner[x])
    {
      var from, to := intervals[k].0, intervals[k].1;
      for m := from to to
        invariant forall x :: 0 <= x < owner.Length ==>
          owner[x] == if Covered(intervals, k, x) || from <= x < m then scenario else old(owner[x])
      {
        owner[m] := scenario;
      }
    }
  }

  ghost predicate Covered(intervals: seq<(int, int)>, n: int, x: int)
    requires n <= |intervals|
  {
    exists k :: 0 <= k < n && intervals[k].0 <= x < intervals[k].1
  }

  /** Painting the blocks in reverse order leaves every minute with its first match. */
  method PaintDay(owner: array<string>, blocks: seq<Block>, dow: Dow, ghost fallback: string)
    requires owner.Length == MINUTES_PER_DAY
    requires forall m :: 0 <= m < MINUTES_PER_DAY ==> owner[m] == fallback
    modifies owner
    ensures forall m: Minute :: owner[m] == FirstMatch(blocks, dow, m, fallback)
  {
    for i := |blocks| downto 0
      invariant forall m: Minute :: owner[m] == FirstMatch(blocks[i..], dow, m, fallback)
    {
      var block := blocks[i];
      assert blocks[i..][1..] == blocks[i + 1..];
      if block.days.Some? && dow in block.days.value {
        label before:
        var intervals := ToIntervals(block);
        PaintBlock(owner, intervals, block.scenario);
        forall m: Minute ensures owner[m] == FirstMatch(blocks[i..], dow, m, fallback) {
          MatchIsInterval(block, dow, m);
          assert Covered(intervals, |intervals|, m) <==> InIntervals(block, m);
          assert old@before(owner[m]) == FirstMatch(blocks[i + 1..], dow, m, fallback);
        }
      }
    }
    assert blocks[0..] == blocks;
  }

  /** A strip up to the start of the run being measured. */
  ghost predicate Partial(segs: seq<Segment>, runStart: int, day: seq<string>, now: int) {
    && Tiles(segs, runStart) && NoSeams(segs)
    && (forall k :: 0 <= k < |segs| ==> Truthful(segs[k], day, now))
    && (0 <= runStart < |day| && segs != [] ==> segs[|segs| - 1].scenarioId != day[runStart])
  }

  lemma AppendRun(segs: seq<Segment>, runStart: nat, m: int, day: seq<string>, now: int)
    requires Partial(segs, runStart, day, now) && runStart < m <= |day|
    requires forall x :: runStart <= x < m ==> day[x] == day[runStart]
    requires m < |day| ==> day[m] != day[runStart]
    ensures Partial(segs + [Segment(runStart, m, day[runStart], runStart <= now < m, m - runStart)], m, day, now)
  {
  }

  /** Runs of equal owners, merged. */
  method CollapseRuns(owner: array<string>, now: int) returns (segments: seq<Segment>)
    requires owner.Length > 0
    ensures IsStrip(segments, owner[..], now)
  {
    ghost var day := owner[..];
    segments := [];
    var runStart := 0;
    for m := 1 to owner.Length + 1
      invariant if m <= owner.Length then runStart < m else runStart == owner.Length
      invariant 0 <= runStart && owner[..] == day
      invariant Partial(segments, runStart, day, now)
      invariant m <= owner.Length ==> forall x :: runStart <= x < m ==> day[x] == day[runStart]
    {
      if m == owner.Length || owner[m] != owner[runStart] {
        AppendRun(segments, runStart, m, day, now);
        segments := segments + [Segment(runStart, m, owner[runStart], runStart <= now < m, m - runStart)];
        runStart := m;
      }
    }
  }

  method BuildDayTimeline(s: Schedule, fallback: string, dow: Dow, nowMinute: Minute) returns (r: DayTimeline)
    ensures IsStrip(r.segments, DayOf(s, fallback, dow), nowMinute)
    ensures r.nowMinute == nowMinute && r.nowPercent == nowMinute as real / 1440.0 * 100.0
  {
    var owner := new string[MINUTES_PER_DAY](_ => fallback);
    if s.enabled && |s.blocks| > 0 {
      PaintDay(owner, s.blocks, dow, fallback);
    }
    assert owner[..] == DayOf(s, fallback, dow);
    var segments := CollapseRuns(owner, nowMinute);
    r := DayTimeline(segments, nowMinute, nowMinute as real / 1440.0 * 100.0);
  }

  // ---------------------------------------------------------------- strips have one shape

  lemma {:induction false} StartsRise(segs: seq<Segment>, end: int, i: nat, j: nat)
    requires Tiles(segs, end) && i < j < |segs|
    ensures segs[i].endMinute <= segs[j].startMinute
    decreases j
  {
    if i + 1 < j { StartsRise(segs, end, i, j - 1); }
  }

  /** Every minute lies in exactly one segment. */
  lemma {:induction false} SegmentOf(segs: seq<Segment>, end: int, m: int) returns (k: nat)
    requires Tiles(segs, end) && 0 <= m < end
    ensures k < |segs| && segs[k].startMinute <= m < segs[k].endMinute
    ensures forall j :: 0 <= j < |segs| && segs[j].startMinute <= m < segs[j].endMinute ==> j == k
  {
    k := |segs| - 1;
    while m < segs[k].startMinute
      invariant k < |segs| && m < segs[k].endMinute
    {
      k := k - 1;
    }
    forall j | 0 <= j < |segs| && segs[j].startMinute <= m < segs[j].endMinute ensures j == k {
      if j < k { StartsRise(segs, end, j, k); }
      if k < j { StartsRise(segs, end, k, j); }
    }
  }

  /** Exactly one segment is live. */
  lemma OneLive(segs: seq<Segment>, day: seq<string>, now: int) returns (k: nat)
    requires IsStrip(segs, day, now) && 0 <= now < |day|
    ensures k < |segs| && segs[k].isLive
    ensures forall j :: 0 <= j < |segs| && segs[j].isLive ==> j == k
  {
    k := SegmentOf(segs, |day|, now);
    assert Truthful(segs[k], day, now);
    forall j | 0 <= j < |segs| && segs[j].isLive ensures j == k {
      assert Truthful(segs[j], day, now);
    }
  }

  function TotalLength(segs: seq<Segment>): int {
    if segs == [] then 0 else TotalLength(segs[..|segs| - 1]) + segs[|segs| - 1].flexBasis
  }

  /** The lengths of a tiling add up to its end. */
  lemma {:induction false} LengthsTotal(segs: seq<Segment>, end: int)
    requires Tiles(segs, end)
    requires forall k :: 0 <= k < |segs| ==> segs[k].flexBasis == segs[k].endMinute - segs[k].startMinute
    ensures TotalLength(segs) == end
  {
    if segs != [] {
      LengthsTotal(segs[..|segs| - 1], segs[|segs| - 1].startMinute);
    }
  }

  /** Two strips of the same day agree on their first k segments. */
  lemma {:induction false} StripPrefix(a: seq<Segment>, b: seq<Segment>, day: seq<string>, now: int, k: nat)
    requires IsStrip(a, day, now) && IsStrip(b, day, now) && k <= |a| && k <= |b|
    ensures a[..k] == b[..k]
  {
    if k > 0 {
      StripPrefix(a, b, day, now, k - 1);
      var x, y := a[k - 1], b[k - 1];
      assert k > 1 ==> a[k - 2] == a[..k - 1][k - 2] == b[k - 2];
      assert x.startMinute == y.startMinute;
      EndsAgree(a, b, day, now, k - 1);
      assert Truthful(x, day, now) && Truthful(y, day, now);
      assert day[x.startMinute] == x.scenarioId == y.scenarioId;
      assert a[..k] == a[..k - 1] + [x] && b[..k] == b[..k - 1] + [y];
    }
  }

  lemma EndsAgree(a: seq<Segment>, b: seq<Segment>, day: seq<string>, now: int, k: nat)
    requires IsStrip(a, day, now) && IsStrip(b, day, now) && k < |a| && k < |b|
    requires a[k].startMinute == b[k].startMinute
    ensures a[k].endMinute == b[k].endMinute
  {
    EndNotBefore(a, b, day, now, k);
    EndNotBefore(b, a, day, now, k);
  }

  /** A run cannot end early: the next segment would repeat its scenario. */
  lemma EndNotBefore(a: seq<Segment>, b: seq<Segment>, day: seq<string>, now: int, k: nat)
    requires IsStrip(a, day, now) && IsStrip(b, day, now) && k < |a| && k < |b|
    requires a[k].startMinute == b[k].startMinute
    ensures a[k].endMinute >= b[k].endMinute
  {
    assert Truthful(a[k], day, now) && Truthful(b[k], day, now);
    if k + 1 < |a| {
      assert Truthful(a[k + 1], day, now);
      assert day[a[k].startMinute] == a[k].scenarioId == b[k].scenarioId;
      assert day[a[k + 1].startMinute] == a[k + 1].scenarioId != a[k].scenarioId;
    }
  }

  /** The contract of the painter leaves no freedom: a day has exactly one strip. */
  lemma StripUnique(a: seq<Segment>, b: seq<Segment>, day: seq<string>, now: int)
    requires IsStrip(a, day, now) && IsStrip(b, day, now)
    ensures a == b
  {
    if |a| <= |b| {
      NotLonger(a, b, day, now);
      StripPrefix(a, b, day, now, |a|);
      assert a == a[..|a|] && b == b[..|a|];
    } else {
      NotLonger(b, a, day, now);
    }
  }

  lemma NotLonger(a: seq<Segment>, b: seq<Segment>, day: seq<string>, now: int)
    requires IsStrip(a, day, now) && IsStrip(b, day, now) && |a| <= |b|
    ensures |b| == |a|
  {
    StripPrefix(a, b, day, now, |a|);
    if a != [] {
      assert a[|a| - 1] == a[..|a|][|a| - 1] == b[..|a|][|a| - 1];
    }
    forall k | 0 <= k < |b| ensures 0 <= b[k].startMinute < b[k].endMinute <= |day| {
      assert Truthful(b[k], day, now);
    }
    forall k | 0 <= k < |b| - 1 ensures b[k].endMinute < |day| {
      assert b[k + 1 - 1].endMinute == b[k + 1].startMinute;
    }
    assert |b| > 0 ==> 0 <= b[0].startMinute < |day|;
  }

  // ---------------------------------------------------------------- the next hand-over

  ghost predicate FirstLive(segs: seq<Segment>, now: int, k: int) {
    && 0 <= k < |segs| && segs[k].startMinute <= now < segs[k].endMinute
    && forall j :: 0 <= j < k ==> !(segs[j].startMinute <= now < segs[j].endMinute)
  }

  /** The element at a place counted round the sequence. */
  function Around<T>(s: seq<T>, i: nat): T
    requires |s| > 0
  {
    s[i % |s|]
  }

  lemma Wrap(i: nat, n: nat)
    requires i < 2 * n
    ensures i % n == if i < n then i else i - n
  {
    if i >= n { assert i == n * 1 + (i - n); }
  }

  lemma AroundIs<T>(s: seq<T>, i: nat)
    requires i < 2 * |s|
    ensures Around(s, i) == if i < |s| then s[i] else s[i - |s|]
  {
    Wrap(i, |s|);
  }

  ghost predicate NextAfter(segs: seq<Segment>, live: int, place: int, c: Change)
    requires 0 <= live < |segs|
  {
    && live < place <= live + |segs|
    && Around(segs, place).scenarioId != segs[live].scenarioId
    && (forall t :: live < t < place ==> Around(segs, t).scenarioId == segs[live].scenarioId)
    && c == Change(Around(segs, place).startMinute, Around(segs, place).scenarioId)
  }

  ghost predicate IsStripChange(segs: seq<Segment>, now: int, r: Option<Change>) {
    if r.None? then
      forall k :: FirstLive(segs, now, k) ==> forall j :: 0 <= j < |segs| ==> segs[j].scenarioId == segs[k].scenarioId
    else
      exists k, place :: FirstLive(segs, now, k) && NextAfter(segs, k, place, r.value)
  }

  method NextScenarioChange(segs: seq<Segment>, now: int) returns (r: Option<Change>)
    ensures IsStripChange(segs, now, r)
  {
    var live := 0;
    while live < |segs| && !(segs[live].startMinute <= now < segs[live].endMinute)
      invariant 0 <= live <= |segs|
      invariant forall j :: 0 <= j < live ==> !(segs[j].startMinute <= now < segs[j].endMinute)
    {
      live := live + 1;
    }
    if live == |segs| { return None; }
    var liveId := segs[live].scenarioId;
    assert FirstLive(segs, now, live);
    for step := 1 to |segs| + 1
      invariant forall t :: live < t < live + step ==> Around(segs, t).scenarioId == liveId
    {
      var seg := Around(segs, live + step);
      if seg.scenarioId != liveId {
        assert NextAfter(segs, live, live + step, Change(seg.startMinute, seg.scenarioId));
        return Some(Change(seg.startMinute, seg.scenarioId));
      }
    }
    AllAround(segs, live, liveId);
    return None;
  }

  lemma AllAround(segs: seq<Segment>, live: nat, liveId: string)
    requires live < |segs|
    requires forall t :: live < t < live + |segs| + 1 ==> Around(segs, t).scenarioId == liveId
    ensures forall j :: 0 <= j < |segs| ==> segs[j].scenarioId == liveId
  {
    forall j | 0 <= j < |segs| ensures segs[j].scenarioId == liveId {
      var t := if j > live then j else j + |segs|;
      AroundIs(segs, t);
    }
  }

  /** The first minute after `now`, going round the clock, whose scenario differs. */
  ghost predicate IsDayChange(day: seq<string>, now: nat, v: nat)
    requires |day| > 0
  {
    && now < v <= now + |day|
    && Around(day, v) != Around(day, now)
    && forall u :: now <= u < v ==> Around(day, u) == Around(day, now)
  }

  /** Where the segment at a place counted round the strip starts on the unrolled clock. */
  ghost function UnrolledStart(segs: seq<Segment>, end: int, place: nat): int
    requires place < 2 * |segs|
  {
    if place < |segs| then segs[place].startMinute else segs[place - |segs|].startMinute + end
  }

  /** Minutes from `now` up to the start of a later segment lie in the segments between. */
  lemma BetweenIsEarlier(segs: seq<Segment>, day: seq<string>, now: nat, live: nat, place: nat, u: nat) returns (t: nat)
    requires IsStrip(segs, day, now) && now < |day|
    requires live < |segs| && segs[live].startMinute <= now < segs[live].endMinute
    requires live < place < live + |segs| && now <= u < UnrolledStart(segs, |day|, place)
    ensures live <= t < place && Around(day, u) == Around(segs, t).scenarioId
  {
    var n := |segs|;
    AroundIs(segs, place);
    assert Truthful(Around(segs, place), day, now);
    AroundIs(day, u);
    var m := if u < |day| then u else u - |day|;
    var k := SegmentOf(segs, |day|, m);
    assert Truthful(segs[k], day, now);
    if u < |day| {
      t := k;
      if k < live { StartsRise(segs, |day|, k, live); }
      if place < k { StartsRise(segs, |day|, place, k); }
    } else {
      t := k + n;
      if place - n < k { StartsRise(segs, |day|, place - n, k); }
    }
    AroundIs(segs, t);
  }

  /** On a strip, the search returns null iff the day is constant, and otherwise the first
      minute, wrapping once past midnight, at which the scenario differs. */
  lemma StripChangeIsDayChange(segs: seq<Segment>, day: seq<string>, now: nat, r: Option<Change>)
    requires IsStrip(segs, day, now) && now < |day| && IsStripChange(segs, now, r)
    ensures r.None? <==> forall m :: 0 <= m < |day| ==> day[m] == day[now]
    ensures r.Some? ==> exists v: nat :: IsDayChange(day, now, v) && r.value == Change(v % |day|, Around(day, v))
  {
    var live := SegmentOf(segs, |day|, now);
    assert FirstLive(segs, now, live);
    assert Truthful(segs[live], day, now);
    if r.None? {
      forall m | 0 <= m < |day| ensures day[m] == day[now] {
        var k := SegmentOf(segs, |day|, m);
        assert Truthful(segs[k], day, now);
      }
    } else {
      var k, place :| FirstLive(segs, now, k) && NextAfter(segs, k, place, r.value);
      assert k == live;
      var v := FoundChange(segs, day, now, live, place, r.value);
      assert day[v % |day|] != day[now % |day|];
    }
  }

  lemma FoundChange(segs: seq<Segment>, day: seq<string>, now: nat, live: nat, place: nat, c: Change) returns (v: nat)
    requires IsStrip(segs, day, now) && now < |day|
    requires FirstLive(segs, now, live) && NextAfter(segs, live, place, c)
    ensures IsDayChange(day, now, v) && c == Change(v % |day|, Around(day, v))
  {
    AroundIs(segs, place);
    var seg := Around(segs, place);
    assert Truthful(seg, day, now) && Truthful(segs[live], day, now);
    v := UnrolledStart(segs, |day|, place);
    if place < |segs| {
      StartsRise(segs, |day|, live, place);
    } else if place - |segs| < live {
      StartsRise(segs, |day|, place - |segs|, live);
    }
    AroundIs(day, v);
    AroundIs(day, now);
    Wrap(v, |day|);
    forall u | now <= u < v ensures Around(day, u) == Around(day, now) {
      var t := BetweenIsEarlier(segs, day, now, live, place, u);
      AroundIs(segs, live);
    }
  }

  // ---------------------------------------------------------------- strip and weekly scan agree

  /** The caption from the weekly scan and the one from the strip name the same time, or both none. */
  predicate SameCaption(scan: Option<string>, strip: Option<Change>) {
    scan == if strip.None? then None else Some(FormatHhmm(strip.value.atMinute))
  }

  function DayAfter(dow: Dow, k: nat): Dow {
    (dow + k) % 7
  }

  /** The first minute of a weekday whose scenario is not the current one. */
  ghost predicate DepartsAt(s: Schedule, fallback: string, d: Dow, current: string, p: Minute) {
    Resolve(s, d, p, fallback) != current && forall m: Minute :: m < p ==> Resolve(s, d, m, fallback) == current
  }

  ghost predicate DayStays(s: Schedule, fallback: string, d: Dow, current: string) {
    forall m: Minute :: Resolve(s, d, m, fallback) == current
  }

  ghost predicate ChangesToday(s: Schedule, fallback: string, dow: Dow, now: Minute) {
    exists m: Minute :: now < m && Resolve(s, dow, m, fallback) != Resolve(s, dow, now, fallback)
  }

  /** The moment of the cycle k days on, at minute m. */
  lemma AfterInstant(s: Schedule, fallback: string, dow: Dow, k: nat, m: Minute)
    ensures AtMoment(s, fallback, Moment(dow, m) + k * MINUTES_PER_DAY) == Resolve(s, DayAfter(dow, k), m, fallback)
    ensures MinuteOf(Moment(dow, m) + k * MINUTES_PER_DAY) == m
  {
    var v := Moment(dow, m) + k * MINUTES_PER_DAY;
    assert v == (dow + k) * MINUTES_PER_DAY + m;
    QuotientIs(v, dow + k, m);
  }

  lemma QuotientIs(v: nat, q: nat, m: Minute)
    requires v == q * MINUTES_PER_DAY + m
    ensures v / MINUTES_PER_DAY == q && v % MINUTES_PER_DAY == m
  {
  }

  /** The scenario first changes later today, at minute q. */
  ghost predicate FirstToday(s: Schedule, fallback: string, dow: Dow, now: Minute, q: Minute) {
    && now < q && Resolve(s, dow, q, fallback) != Resolve(s, dow, now, fallback)
    && forall m: Minute :: now <= m < q ==> Resolve(s, dow, m, fallback) == Resolve(s, dow, now, fallback)
  }

  /** The first day after today that departs from the current scenario is k days on, at minute q. */
  ghost predicate FirstLater(s: Schedule, fallback: string, dow: Dow, current: string, k: nat, q: Minute) {
    && (forall j: nat :: 0 < j < k ==> DayStays(s, fallback, DayAfter(dow, j), current))
    && DepartsAt(s, fallback, DayAfter(dow, k), current, q)
  }

  /** The scenario stays until day k, minute q. */
  ghost predicate StaysUntil(s: Schedule, fallback: string, dow: Dow, now: Minute, k: nat, q: Minute) {
    forall j: nat, m: Minute :: now <= j * MINUTES_PER_DAY + m < k * MINUTES_PER_DAY + q ==>
      Resolve(s, DayAfter(dow, j), m, fallback) == Resolve(s, dow, now, fallback)
  }

  lemma StaysUntilChange(s: Schedule, fallback: string, dow: Dow, now: Minute, w: nat, k: nat, q: Minute)
    requires IsFirstChange(s, fallback, Moment(dow, now), w) && w == Moment(dow, q) + k * MINUTES_PER_DAY
    ensures StaysUntil(s, fallback, dow, now, k, q)
    ensures q == MinuteOf(w) && Resolve(s, DayAfter(dow, k), q, fallback) != Resolve(s, dow, now, fallback)
  {
    hide Resolve, AtMoment, WeekdayOf, MinuteOf;
    AfterInstant(s, fallback, dow, 0, now);
    AfterInstant(s, fallback, dow, k, q);
    forall j: nat, m: Minute | now <= j * MINUTES_PER_DAY + m < k * MINUTES_PER_DAY + q
      ensures Resolve(s, DayAfter(dow, j), m, fallback) == Resolve(s, dow, now, fallback)
    {
      AfterInstant(s, fallback, dow, j, m);
      var u := Moment(dow, m) + j * MINUTES_PER_DAY;
      assert Moment(dow, now) <= u < w;
    }
  }

  lemma StaysToday(s: Schedule, fallback: string, dow: Dow, now: Minute, k: nat, q: Minute)
    requires StaysUntil(s, fallback, dow, now, k, q)
    requires Resolve(s, DayAfter(dow, k), q, fallback) != Resolve(s, dow, now, fallback) && now < k * MINUTES_PER_DAY + q
    ensures if k == 0 then FirstToday(s, fallback, dow, now, q) else !ChangesToday(s, fallback, dow, now)
  {
    hide Resolve;
    assert DayAfter(dow, 0) == dow;
    forall m: Minute | now <= m && (k == 0 ==> m < q) ensures Resolve(s, dow, m, fallback) == Resolve(s, dow, now, fallback) {
      assert now <= 0 * MINUTES_PER_DAY + m < k * MINUTES_PER_DAY + q;
      assert Resolve(s, DayAfter(dow, 0), m, fallback) == Resolve(s, dow, now, fallback);
    }
  }

  lemma StaysLater(s: Schedule, fallback: string, dow: Dow, now: Minute, k: nat, q: Minute)
    requires StaysUntil(s, fallback, dow, now, k, q)
    requires Resolve(s, DayAfter(dow, k), q, fallback) != Resolve(s, dow, now, fallback) && k > 0
    ensures FirstLater(s, fallback, dow, Resolve(s, dow, now, fallback), k, q)
  {
    hide Resolve, DayAfter;
    forall j: nat, m: Minute | 0 < j < k || (j == k && m < q)
      ensures Resolve(s, DayAfter(dow, j), m, fallback) == Resolve(s, dow, now, fallback)
    {
      assert now <= j * MINUTES_PER_DAY + m < k * MINUTES_PER_DAY + q;
    }
  }

  /** The first change of the week, as a day and a minute. */
  lemma WeekChangeIsDeparture(s: Schedule, fallback: string, dow: Dow, now: Minute, w: nat) returns (k: nat, q: Minute)
    requires IsFirstChange(s, fallback, Moment(dow, now), w)
    ensures k <= 7 && q == MinuteOf(w)
    ensures if k == 0 then FirstToday(s, fallback, dow, now, q)
      else !ChangesToday(s, fallback, dow, now) && FirstLater(s, fallback, dow, Resolve(s, dow, now, fallback), k, q)
  {
    hide AtMoment, WeekdayOf, MinuteOf, Resolve, StaysUntil, FirstToday, ChangesToday, FirstLater;
    var x := w - Moment(dow, 0);
    k, q := x / MINUTES_PER_DAY, x % MINUTES_PER_DAY;
    assert x == k * MINUTES_PER_DAY + q;
    StaysUntilChange(s, fallback, dow, now, w, k, q);
    StaysToday(s, fallback, dow, now, k, q);
    if k > 0 { StaysLater(s, fallback, dow, now, k, q); }
  }

  /** Today and the first later day that departs from the current scenario do so at minute p. */
  ghost predicate SameDeparture(s: Schedule, fallback: string, dow: Dow, current: string, k: nat, p: Minute) {
    && 1 <= k <= 7
    && DepartsAt(s, fallback, dow, current, p)
    && FirstLater(s, fallback, dow, current, k, p)
  }

  /** The scenario still changes before midnight; or it never changes; or the first later day that
      departs from it does so at the minute at which today did. */
  ghost predicate OneClock(s: Schedule, fallback: string, dow: Dow, now: Minute) {
    var current := Resolve(s, dow, now, fallback);
    || ChangesToday(s, fallback, dow, now)
    || (forall d: Dow :: DayStays(s, fallback, d, current))
    || (exists k: nat, p: Minute :: SameDeparture(s, fallback, dow, current, k, p))
  }

  lemma DayAround(s: Schedule, fallback: string, dow: Dow, m: Minute)
    ensures var day := DayOf(s, fallback, dow); Around(day, m) == Around(day, m + MINUTES_PER_DAY) == Resolve(s, dow, m, fallback)
  {
    var day := DayOf(s, fallback, dow);
    AroundIs(day, m);
    AroundIs(day, m + MINUTES_PER_DAY);
  }

  /** An answer of the strip, in terms of today's minutes. */
  ghost predicate SaysToday(s: Schedule, fallback: string, dow: Dow, now: Minute, strip: Option<Change>) {
    var current := Resolve(s, dow, now, fallback);
    if strip.None? then DayStays(s, fallback, dow, current)
    else
      && 0 <= strip.value.atMinute < MINUTES_PER_DAY
      && if ChangesToday(s, fallback, dow, now) then FirstToday(s, fallback, dow, now, strip.value.atMinute)
         else DepartsAt(s, fallback, dow, current, strip.value.atMinute)
  }

  lemma DayChangeIsToday(s: Schedule, fallback: string, dow: Dow, now: Minute, v: nat)
    requires IsDayChange(DayOf(s, fallback, dow), now, v)
    ensures var c := Change(v % MINUTES_PER_DAY, Around(DayOf(s, fallback, dow), v)); SaysToday(s, fallback, dow, now, Some(c))
  {
    var day, current := DayOf(s, fallback, dow), Resolve(s, dow, now, fallback);
    var p: Minute := v % MINUTES_PER_DAY;
    Wrap(v, MINUTES_PER_DAY);
    DayAround(s, fallback, dow, now);
    DayAround(s, fallback, dow, p);
    hide Resolve, Around;
    if v < MINUTES_PER_DAY {
      forall m: Minute | now <= m < p ensures Resolve(s, dow, m, fallback) == current {
        DayAround(s, fallback, dow, m);
        assert Around(day, m) == Around(day, now);
      }
    } else {
      forall m: Minute | m < p || now <= m ensures Resolve(s, dow, m, fallback) == current {
        DayAround(s, fallback, dow, m);
        var u := if now <= m then m else m + MINUTES_PER_DAY;
        assert Around(day, u) == Around(day, now);
      }
    }
  }

  lemma StripSaysToday(s: Schedule, fallback: string, dow: Dow, now: Minute, segs: seq<Segment>, strip: Option<Change>)
    requires IsStrip(segs, DayOf(s, fallback, dow), now) && IsStripChange(segs, now, strip)
    ensures SaysToday(s, fallback, dow, now, strip)
  {
    var day := DayOf(s, fallback, dow);
    StripChangeIsDayChange(segs, day, now, strip);
    hide IsStrip, IsStripChange, Around, FirstMatch;
    if strip.Some? {
      var v: nat :| IsDayChange(day, now, v) && strip.value == Change(v % |day|, Around(day, v));
      DayChangeIsToday(s, fallback, dow, now, v);
    } else {
      forall m: Minute ensures Resolve(s, dow, m, fallback) == Resolve(s, dow, now, fallback) {
        assert day[m] == day[now];
      }
    }
  }

  lemma FormatInjective(p: Minute, q: Minute)
    ensures FormatHhmm(p) == FormatHhmm(q) ==> p == q
  {
    assert p % MINUTES_PER_DAY == p && q % MINUTES_PER_DAY == q;
    hide *;
    FormatThenParse(p);
    FormatThenParse(q);
  }

  /** Only one later day departs first, and at one minute. */
  lemma FirstLaterUnique(s: Schedule, fallback: string, dow: Dow, current: string, k: nat, q: Minute, i: nat, p: Minute)
    requires 0 < k && FirstLater(s, fallback, dow, current, k, q)
    requires 0 < i && FirstLater(s, fallback, dow, current, i, p)
    ensures i == k && p == q
  {
    assert i < k ==> DayStays(s, fallback, DayAfter(dow, i), current);
    assert k < i ==> DayStays(s, fallback, DayAfter(dow, k), current);
  }

  /** When the week departs on a later day, it keeps one clock iff today departed at that minute. */
  lemma OneClockLater(s: Schedule, fallback: string, dow: Dow, now: Minute, k: nat, q: Minute)
    requires 1 <= k <= 7 && !ChangesToday(s, fallback, dow, now)
    requires FirstLater(s, fallback, dow, Resolve(s, dow, now, fallback), k, q)
    ensures OneClock(s, fallback, dow, now) <==> DepartsAt(s, fallback, dow, Resolve(s, dow, now, fallback), q)
  {
    var current := Resolve(s, dow, now, fallback);
    assert !DayStays(s, fallback, DayAfter(dow, k), current);
    hide DepartsAt, DayStays, ChangesToday, FirstLater, Resolve;
    if DepartsAt(s, fallback, dow, current, q) {
      assert SameDeparture(s, fallback, dow, current, k, q);
    }
    if i: nat, p: Minute :| SameDeparture(s, fallback, dow, current, i, p) {
      FirstLaterUnique(s, fallback, dow, current, k, q, i, p);
    }
  }

  /** At every instant of every schedule, the editor's weekly scan and the ribbon's search on the
      strip name the same time exactly when the schedule keeps one clock. */
  lemma SameCaptionIff(s: Schedule, fallback: string, dow: Dow, now: Minute,
                       segs: seq<Segment>, scan: Option<string>, strip: Option<Change>)
    requires IsStrip(segs, DayOf(s, fallback, dow), now) && IsStripChange(segs, now, strip)
    requires IsNextChange(s, fallback, Moment(dow, now), scan)
    ensures SameCaption(scan, strip) <==> OneClock(s, fallback, dow, now)
  {
    hide IsStrip, IsStripChange, FormatHhmm, FirstMatch;
    var current := Resolve(s, dow, now, fallback);
    StripSaysToday(s, fallback, dow, now, segs, strip);
    if scan.None? {
      if s.enabled { NullIffConstantWeek(s, fallback, dow, now, scan); }
      assert forall d: Dow :: DayStays(s, fallback, d, current);
    } else {
      var w: nat :| IsFirstChange(s, fallback, Moment(dow, now), w) && scan.value == FormatHhmm(MinuteOf(w));
      var k, q := WeekChangeIsDeparture(s, fallback, dow, now, w);
      LaterCaption(s, fallback, dow, now, k, q, scan.value, strip);
    }
  }

  lemma LaterCaption(s: Schedule, fallback: string, dow: Dow, now: Minute, k: nat, q: Minute, scan: string, strip: Option<Change>)
    requires k <= 7 && scan == FormatHhmm(q) && SaysToday(s, fallback, dow, now, strip)
    requires if k == 0 then FirstToday(s, fallback, dow, now, q)
      else !ChangesToday(s, fallback, dow, now) && FirstLater(s, fallback, dow, Resolve(s, dow, now, fallback), k, q)
    ensures SameCaption(Some(scan), strip) <==> OneClock(s, fallback, dow, now)
  {
    hide FormatHhmm, Resolve;
    if strip.Some? { FormatInjective(strip.value.atMinute, q); }
    if k > 0 { OneClockLater(s, fallback, dow, now, k, q); }
  }

  const EARLY_MONDAY := Block("06:00", "08:00", Some([1]), "gaming")
  const EARLIER_TUESDAY := Block("05:00", "07:00", Some([2]), "streaming")

  /** A weekly schedule that does not keep one clock. */
  const TWO_MORNINGS := Schedule(true, [EARLY_MONDAY, EARLIER_TUESDAY])

  lemma TwoDigits(c: char, d: char)
    requires '0' <= c <= '9' && '0' <= d <= '9'
    ensures AllDigits([c, d], 10) && FromDigits([c, d], 10) == DigitValue(c) * 10 + DigitValue(d)
  {
    assert FromDigits([], 10) == 0;
    AppendDigit([], c, 10);
    AppendDigit([c], d, 10);
    assert [] + [c] == [c] && [c] + [d] == [c, d];
  }

  lemma OnTheHour(d: char)
    requires '0' <= d <= '9'
    ensures ParseHhmm("0" + [d] + ":00") == Some(DigitValue(d) * 60)
  {
    TwoDigits('0', d);
    TwoDigits('0', '0');
    ParseClock(['0', d], "00");
    assert ['0', d] + ":" + "00" == "0" + [d] + ":00";
  }

  lemma MorningTimes()
    ensures ParseHhmm("05:00") == Some(300) && ParseHhmm("06:00") == Some(360)
    ensures ParseHhmm("07:00") == Some(420) && ParseHhmm("08:00") == Some(480)
  {
    hide ParseHhmm;
    OnTheHour('5');
    OnTheHour('6');
    OnTheHour('7');
    OnTheHour('8');
    assert "0" + ['5'] + ":00" == "05:00" && "0" + ['6'] + ":00" == "06:00";
    assert "0" + ['7'] + ":00" == "07:00" && "0" + ['8'] + ":00" == "08:00";
  }

  lemma TwoMorningsResolve(d: Dow, m: Minute)
    ensures Resolve(TWO_MORNINGS, d, m, "balanced") == "balanced" <==> !(d == 1 && 360 <= m < 480) && !(d == 2 && 300 <= m < 420)
  {
    assert |"gaming"| != |"balanced"| && |"streaming"| != |"balanced"|;
    MorningTimes();
    hide ParseHhmm;
    assert BlockMatchesAt(EARLY_MONDAY, d, m) <==> d == 1 && 360 <= m < 480;
    assert BlockMatchesAt(EARLIER_TUESDAY, d, m) <==> d == 2 && 300 <= m < 420;
    hide BlockMatchesAt;
    assert [EARLY_MONDAY, EARLIER_TUESDAY][1..] == [EARLIER_TUESDAY] && [EARLIER_TUESDAY][1..] == [];
    assert FirstMatch([], d, m, "balanced") == "balanced";
    assert FirstMatch([EARLIER_TUESDAY], d, m, "balanced") == if d == 2 && 300 <= m < 420 then "streaming" else "balanced";
  }

  lemma TwoMorningsDays()
    ensures var s, fallback := TWO_MORNINGS, "balanced"; forall d: Dow, m: Minute ::
      Resolve(s, d, m, fallback) == fallback <==> !(d == 1 && 360 <= m < 480) && !(d == 2 && 300 <= m < 420)
  {
    forall d: Dow, m: Minute
      ensures Resolve(TWO_MORNINGS, d, m, "balanced") == "balanced" <==> !(d == 1 && 360 <= m < 480) && !(d == 2 && 300 <= m < 420)
    {
      TwoMorningsResolve(d, m);
    }
  }

  lemma TwoMorningsToday()
    ensures var s, fallback := TWO_MORNINGS, "balanced";
      Resolve(s, 1, 720, fallback) == fallback && !ChangesToday(s, fallback, 1, 720) && DepartsAt(s, fallback, 1, fallback, 360)
  {
    TwoMorningsDays();
    hide Resolve;
  }

  lemma TwoMorningsWeek()
    ensures var s, fallback := TWO_MORNINGS, "balanced";
      && Resolve(s, 1, 720, fallback) == fallback && !ChangesToday(s, fallback, 1, 720)
      && DepartsAt(s, fallback, 1, fallback, 360) && FirstLater(s, fallback, 1, fallback, 1, 300)
  {
    TwoMorningsToday();
    TwoMorningsDays();
    hide Resolve, ChangesToday, DayStays;
    assert DayAfter(1, 1) == 2;
  }

  /** On it, at Monday noon, the strip announces six o'clock and the weekly scan five. */
  lemma TwoMorningsPart(segs: seq<Segment>, scan: Option<string>, strip: Option<Change>)
    requires IsStrip(segs, DayOf(TWO_MORNINGS, "balanced", 1), 720) && IsStripChange(segs, 720, strip)
    requires IsNextChange(TWO_MORNINGS, "balanced", Moment(1, 720), scan)
    ensures strip.Some? && strip.value.atMinute == 360
    ensures scan == Some(FormatHhmm(300)) && !SameCaption(scan, strip)
  {
    var s, fallback := TWO_MORNINGS, "balanced";
    assert s.enabled;
    TwoMorningsWeek();
    StripSaysToday(s, fallback, 1, 720, segs, strip);
    NullIffConstantWeek(s, fallback, 1, 720, scan);
    FormatInjective(300, 360);
    hide Resolve, FormatHhmm, IsStrip, IsStripChange, ChangesToday, FirstLater;
    StripDeparts(s, fallback, 1, 720, strip, 360);
    TwoMorningsScan(scan);
  }

  lemma StripDeparts(s: Schedule, fallback: string, dow: Dow, now: Minute, strip: Option<Change>, p: Minute)
    requires SaysToday(s, fallback, dow, now, strip) && !ChangesToday(s, fallback, dow, now)
    requires DepartsAt(s, fallback, dow, Resolve(s, dow, now, fallback), p)
    ensures strip.Some? && strip.value.atMinute == p
  {
    hide Resolve, ChangesToday;
  }

  lemma TwoMorningsScan(scan: Option<string>)
    requires IsNextChange(TWO_MORNINGS, "balanced", Moment(1, 720), scan)
    ensures scan == Some(FormatHhmm(300))
  {
    var s, fallback := TWO_MORNINGS, "balanced";
    TwoMorningsWeek();
    NullIffConstantWeek(s, fallback, 1, 720, scan);
    assert Resolve(s, 2, 300, fallback) != fallback;
    hide Resolve, FormatHhmm, ChangesToday, FirstLater;
    var w: nat :| IsFirstChange(s, fallback, Moment(1, 720), w) && scan.value == FormatHhmm(MinuteOf(w));
    var k, q := WeekChangeIsDeparture(s, fallback, 1, 720, w);
    NotToday(s, fallback, 1, 720, q);
    FirstLaterUnique(s, fallback, 1, fallback, k, q, 1, 300);
  }

  lemma NotToday(s: Schedule, fallback: string, dow: Dow, now: Minute, q: Minute)
    requires !ChangesToday(s, fallback, dow, now)
    ensures !FirstToday(s, fallback, dow, now, q)
  {
  }

  ghost predicate EveryDay(s: Schedule) {
    forall i :: 0 <= i < |s.blocks| ==> s.blocks[i].days.Some? && forall d: Dow :: d in s.blocks[i].days.value
  }

  lemma {:induction false} SameEveryDay(blocks: seq<Block>, d: Dow, e: Dow, m: Minute, fallback: string)
    requires forall i :: 0 <= i < |blocks| ==> blocks[i].days.Some? && forall x: Dow :: x in blocks[i].days.value
    ensures FirstMatch(blocks, d, m, fallback) == FirstMatch(blocks, e, m, fallback)
  {
    if blocks != [] {
      assert blocks[0].days.Some? && d in blocks[0].days.value && e in blocks[0].days.value;
      SameEveryDay(blocks[1..], d, e, m, fallback);
    }
  }

  lemma EqualDaysOneClock(s: Schedule, fallback: string, dow: Dow, now: Minute, strip: Option<Change>)
    requires SaysToday(s, fallback, dow, now, strip)
    requires forall d: Dow, m: Minute :: Resolve(s, d, m, fallback) == Resolve(s, dow, m, fallback)
    ensures OneClock(s, fallback, dow, now)
  {
    var current := Resolve(s, dow, now, fallback);
    hide Resolve, ChangesToday;
    if strip.None? {
      assert forall d: Dow :: DayStays(s, fallback, d, current);
    } else if !ChangesToday(s, fallback, dow, now) {
      assert FirstLater(s, fallback, dow, current, 1, strip.value.atMinute);
      assert SameDeparture(s, fallback, dow, current, 1, strip.value.atMinute);
    }
  }

  /** When every block is armed on all seven days, the editor's weekly scan and the ribbon's
      search give the same answer at every instant. */
  lemma ScanAgreesWithStrip(s: Schedule, fallback: string, dow: Dow, now: Minute,
                            segs: seq<Segment>, scan: Option<string>, strip: Option<Change>)
    requires EveryDay(s)
    requires IsStrip(segs, DayOf(s, fallback, dow), now) && IsStripChange(segs, now, strip)
    requires IsNextChange(s, fallback, Moment(dow, now), scan)
    ensures SameCaption(scan, strip)
  {
    SameCaptionIff(s, fallback, dow, now, segs, scan, strip);
    StripSaysToday(s, fallback, dow, now, segs, strip);
    forall d: Dow, m: Minute ensures Resolve(s, d, m, fallback) == Resolve(s, dow, m, fallback) {
      SameEveryDay(s.blocks, d, dow, m, fallback);
    }
    hide *;
    EqualDaysOneClock(s, fallback, dow, now, strip);
  }

  lemma {:induction false} NothingArmed(blocks: seq<Block>, dow: Dow, m: Minute, fallback: string)
    requires forall i :: 0 <= i < |blocks| ==> blocks[i].days.None? || dow !in blocks[i].days.value
    ensures FirstMatch(blocks, dow, m, fallback) == fallback
  {
    if blocks != [] {
      assert blocks[0].days.None? || dow !in blocks[0].days.value;
      NothingArmed(blocks[1..], dow, m, fallback);
    }
  }

  /** The ribbon's answer is shaped by today. When no block is armed today, the strip reports
      nothing, and the weekly scan reports a change iff some other day departs from the fallback. */
  lemma NothingArmedToday(s: Schedule, fallback: string, dow: Dow, now: Minute,
                          segs: seq<Segment>, scan: Option<string>, strip: Option<Change>)
    requires s.enabled
    requires forall i :: 0 <= i < |s.blocks| ==> s.blocks[i].days.None? || dow !in s.blocks[i].days.value
    requires IsStrip(segs, DayOf(s, fallback, dow), now) && IsStripChange(segs, now, strip)
    requires IsNextChange(s, fallback, Moment(dow, now), scan)
    ensures strip.None?
    ensures scan.Some? <==> exists d: Dow, m: Minute :: Resolve(s, d, m, fallback) != fallback
  {
    var day := DayOf(s, fallback, dow);
    forall m: Minute ensures day[m] == fallback {
      NothingArmed(s.blocks, dow, m, fallback);
    }
    StripChangeIsDayChange(segs, day, now, strip);
    assert Resolve(s, dow, now, fallback) == day[now] == fallback;
    NullIffConstantWeek(s, fallback, dow, now, scan);
  }
}
