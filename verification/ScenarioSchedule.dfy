/** Weekly scenario schedules: the first-match resolver, the forward scan for the next
    change, and the editor's validation. An instant is a weekday and a minute of the day;
    a moment of the weekly cycle is one number, weekday * 1440 + minute. */
module ScenarioSchedule {
  import opened Text

  const MINUTES_PER_DAY := 1440
  const MINUTES_PER_WEEK := 7 * 1440

  type Dow = d: int | 0 <= d < 7
  type Minute = m: int | 0 <= m < 1440

  datatype Block = Block(start: string, end: string, days: Option<seq<Dow>>, scenario: string)
  datatype Schedule = Schedule(enabled: bool, blocks: seq<Block>)
  datatype BlockError = InvalidStart | InvalidEnd | ZeroLength | NoDays

  // ---------------------------------------------------------------- HH:MM

  /** One or two digits, a colon, two digits, after trimming; hours to 23, minutes to 59. */
  function ParseHhmm(value: string): (r: Option<Minute>) {
    var t := Trim(value);
    var k := |t| - 3;
    if 1 <= k <= 2 && t[k] == ':' && AllDigits(t[..k], 10) && AllDigits(t[k + 1..], 10) then
      var h, min := FromDigits(t[..k], 10), FromDigits(t[k + 1..], 10);
      if h > 23 || min > 59 then None else Some(h * 60 + min)
    else None
  }

  /** The text of a time: one or two digits of hours, a colon, two digits of minutes. */
  ghost predicate IsTimeText(t: string, h: string, m: string) {
    && t == h + ":" + m && 1 <= |h| <= 2 && |m| == 2 && AllDigits(h, 10) && AllDigits(m, 10)
    && FromDigits(h, 10) < 24 && FromDigits(m, 10) < 60
  }

  /** Exactly the times parse, to the minute they denote; white space around them is ignored. */
  lemma ParsesIffTimeText(value: string, r: Minute)
    ensures ParseHhmm(value) == Some(r) <==>
      exists h: string, m: string :: IsTimeText(Trim(value), h, m) && r == FromDigits(h, 10) * 60 + FromDigits(m, 10)
  {
    hide FromDigits, AllDigits, Trim;
    var t := Trim(value);
    if ParseHhmm(value) == Some(r) {
      var k := |t| - 3;
      assert t == t[..k] + ":" + t[k + 1..];
      assert IsTimeText(t, t[..k], t[k + 1..]);
    }
    if h: string, m: string :| IsTimeText(t, h, m) && r == FromDigits(h, 10) * 60 + FromDigits(m, 10) {
      SameSlices(t, h, m);
    }
  }

  lemma SameSlices(t: string, h: string, m: string)
    requires t == h + ":" + m && |m| == 2
    ensures var k := |t| - 3; k == |h| && t[k] == ':' && t[..k] == h && t[k + 1..] == m
  {
  }

  /** JavaScript's `%`: the sign follows the dividend. */
  function JsRem(a: int, b: int): int
    requires b > 0
  {
    if a >= 0 then a % b else -((-a) % b)
  }

  function PadTwo(s: string): string {
    if |s| >= 2 then s else Zeros(2 - |s|) + s
  }

  lemma RemainderIs(a: int, q: int, r: int)
    requires a == MINUTES_PER_DAY * q + r && 0 <= r < MINUTES_PER_DAY
    ensures a % MINUTES_PER_DAY == r
  {
  }

  /** `((m % 1440) + 1440) % 1440` is the minute of the day, also below zero. */
  function DayMinute(minutes: int): (r: Minute)
    ensures r == minutes % MINUTES_PER_DAY
  {
    var rem := JsRem(minutes, MINUTES_PER_DAY);
    assert (rem + MINUTES_PER_DAY) % MINUTES_PER_DAY == minutes % MINUTES_PER_DAY by {
      var q, r := minutes / MINUTES_PER_DAY, minutes % MINUTES_PER_DAY;
      if minutes >= 0 {
        RemainderIs(rem + MINUTES_PER_DAY, 1, r);
      } else if r == 0 {
        RemainderIs(-minutes, -q, 0);
        RemainderIs(rem + MINUTES_PER_DAY, 1, 0);
      } else {
        RemainderIs(-minutes, -q - 1, MINUTES_PER_DAY - r);
        RemainderIs(rem + MINUTES_PER_DAY, 0, r);
      }
    }
    JsRem(rem + MINUTES_PER_DAY, MINUTES_PER_DAY)
  }

  function FormatHhmm(minutes: int): string {
    var total := DayMinute(minutes);
    PadTwo(ToBase(total / 60, 10)) + ":" + PadTwo(ToBase(total % 60, 10))
  }

  lemma PadTwoDigits(n: nat)
    requires n < 60
    ensures var p := PadTwo(ToBase(n, 10)); |p| == 2 && AllDigits(p, 10) && FromDigits(p, 10) == n
  {
    hide ToBase, FromDigits;
    ToBaseRoundTrip(n, 10);
    assert Power(10, 2) == 100 by { assert Power(10, 1) == 10; }
    ToBaseLength(n, 10, 2);
    var s := ToBase(n, 10);
    LeadingZeros(2 - |s|, s, 10);
    assert Zeros(0) + s == s;
  }

  lemma ParseClock(h: string, m: string)
    requires |h| == 2 && AllDigits(h, 10) && FromDigits(h, 10) < 24
    requires |m| == 2 && AllDigits(m, 10) && FromDigits(m, 10) < 60
    ensures ParseHhmm(h + ":" + m) == Some(FromDigits(h, 10) * 60 + FromDigits(m, 10))
  {
    hide FromDigits, TrimLeft, TrimRight, Trim;
    var t := h + ":" + m;
    assert t[..2] == h && t[3..] == m;
    assert DigitValue(t[0]) == DigitValue(h[0]) < 10 && DigitValue(t[4]) == DigitValue(m[1]) < 10;
    TrimTight(t);
  }

  /** Printing a minute and parsing it back gives the minute of the day, also for numbers
      outside a day and below zero. */
  lemma FormatThenParse(minutes: int)
    ensures ParseHhmm(FormatHhmm(minutes)) == Some(minutes % MINUTES_PER_DAY)
  {
    FormatParts(DayMinute(minutes));
  }

  lemma FormatParts(total: Minute)
    ensures ParseHhmm(PadTwo(ToBase(total / 60, 10)) + ":" + PadTwo(ToBase(total % 60, 10))) == Some(total)
  {
    hide *;
    var h, m: nat := total / 60, total % 60;
    assert h < 24 && m < 60 && h * 60 + m == total;
    PadTwoDigits(h);
    PadTwoDigits(m);
    ParseClock(PadTwo(ToBase(h, 10)), PadTwo(ToBase(m, 10)));
  }

  /** A formatted time is two digits of hours, a colon and two digits of minutes. */
  lemma FormatShape(minutes: int)
    ensures var t := FormatHhmm(minutes); |t| == 5 && t[2] == ':' && AllDigits(t[..2], 10) && AllDigits(t[3..], 10)
  {
    var total := DayMinute(minutes);
    var h, m: nat := total / 60, total % 60;
    assert h < 60 && m < 60;
    PadTwoDigits(h);
    PadTwoDigits(m);
    var x, y := PadTwo(ToBase(h, 10)), PadTwo(ToBase(m, 10));
    hide ToBase, AllDigits;
    assert FormatHhmm(minutes) == x + ":" + y;
    assert (x + ":" + y)[..2] == x && (x + ":" + y)[3..] == y;
  }

  /** The value is a time of day once trimmed. */
  ghost predicate IsTime(value: string) {
    exists h: string, m: string :: IsTimeText(Trim(value), h, m)
  }

  lemma TimeIffParses(value: string)
    ensures IsTime(value) <==> ParseHhmm(value).Some?
  {
    hide IsTimeText, Trim, FromDigits;
    if ParseHhmm(value).Some? {
      ParsesIffTimeText(value, ParseHhmm(value).value);
    }
    if h: string, m: string :| IsTimeText(Trim(value), h, m) {
      TimeTextMinute(Trim(value), h, m);
      ParsesIffTimeText(value, FromDigits(h, 10) * 60 + FromDigits(m, 10));
    }
  }

  lemma TimeTextMinute(t: string, h: string, m: string)
    requires IsTimeText(t, h, m)
    ensures FromDigits(h, 10) * 60 + FromDigits(m, 10) < 1440
  {
  }

  // ---------------------------------------------------------------- matching

  predicate BlockMatchesAt(b: Block, dow: Dow, m: Minute) {
    if b.days.None? || dow !in b.days.value then false
    else
      var s, e := ParseHhmm(b.start), ParseHhmm(b.end);
      if s.None? || e.None? then false
      else if e.value > s.value then s.value <= m < e.value
      else if e.value == s.value then false
      else m >= s.value || m < e.value
  }

  lemma ArcArithmetic(s: Minute, e: Minute, m: Minute)
    ensures (m - s) % MINUTES_PER_DAY < (e - s) % MINUTES_PER_DAY <==>
      if e > s then s <= m < e else e < s && (m >= s || m < e)
  {
    RemainderIs(m - s, if m >= s then 0 else -1, if m >= s then m - s else m - s + MINUTES_PER_DAY);
    RemainderIs(e - s, if e >= s then 0 else -1, if e >= s then e - s else e - s + MINUTES_PER_DAY);
  }

  /** The window rule in one formula: a block matches on its armed days at the minutes less
      than its length after its start, going round the clock. Equal ends mean length zero. */
  lemma MatchIsArc(b: Block, dow: Dow, m: Minute)
    ensures BlockMatchesAt(b, dow, m) <==>
      && b.days.Some? && dow in b.days.value && ParseHhmm(b.start).Some? && ParseHhmm(b.end).Some?
      && (m - ParseHhmm(b.start).value) % MINUTES_PER_DAY
           < (ParseHhmm(b.end).value - ParseHhmm(b.start).value) % MINUTES_PER_DAY
  {
    hide ParseHhmm;
    if ParseHhmm(b.start).Some? && ParseHhmm(b.end).Some? {
      ArcArithmetic(ParseHhmm(b.start).value, ParseHhmm(b.end).value, m);
    }
  }

  /** The scenario of the first matching block, else the fallback. */
  function FirstMatch(blocks: seq<Block>, dow: Dow, m: Minute, fallback: string): string {
    if blocks == [] then fallback
    else if BlockMatchesAt(blocks[0], dow, m) then blocks[0].scenario
    else FirstMatch(blocks[1..], dow, m, fallback)
  }

  function Resolve(s: Schedule, dow: Dow, m: Minute, fallback: string): string {
    if !s.enabled then fallback else FirstMatch(s.blocks, dow, m, fallback)
  }

  /** What FirstMatch means: the earliest matching index decides; -1 stands for no match. */
  lemma {:induction false} EarliestMatch(blocks: seq<Block>, dow: Dow, m: Minute, fallback: string) returns (k: int)
    ensures -1 <= k < |blocks|
    ensures forall i :: 0 <= i < (if k < 0 then |blocks| else k) ==> !BlockMatchesAt(blocks[i], dow, m)
    ensures k < 0 ==> FirstMatch(blocks, dow, m, fallback) == fallback
    ensures k >= 0 ==> BlockMatchesAt(blocks[k], dow, m) && FirstMatch(blocks, dow, m, fallback) == blocks[k].scenario
  {
    if blocks == [] {
      k := -1;
    } else if BlockMatchesAt(blocks[0], dow, m) {
      k := 0;
    } else {
      k := EarliestMatch(blocks[1..], dow, m, fallback);
      assert forall i :: 0 < i < |blocks| ==> blocks[i] == blocks[1..][i - 1];
      k := if k < 0 then -1 else k + 1;
    }
  }

  /** Block i is the first that matches. */
  predicate FirstMatchAt(blocks: seq<Block>, dow: Dow, m: Minute, i: int) {
    0 <= i < |blocks| && BlockMatchesAt(blocks[i], dow, m) && forall j :: 0 <= j < i ==> !BlockMatchesAt(blocks[j], dow, m)
  }

  /** A disabled schedule is always the fallback; an enabled one is the scenario of the first block
      that matches, and the fallback when none does. */
  lemma ResolveMeans(s: Schedule, dow: Dow, m: Minute, fallback: string)
    ensures !s.enabled ==> Resolve(s, dow, m, fallback) == fallback
    ensures s.enabled && (forall i :: 0 <= i < |s.blocks| ==> !BlockMatchesAt(s.blocks[i], dow, m)) ==> Resolve(s, dow, m, fallback) == fallback
    ensures s.enabled ==> forall i :: FirstMatchAt(s.blocks, dow, m, i) ==> Resolve(s, dow, m, fallback) == s.blocks[i].scenario
  {
    hide BlockMatchesAt;
    var k := EarliestMatch(s.blocks, dow, m, fallback);
  }

  // ---------------------------------------------------------------- next change

  /** The scenario in force at a moment of the weekly cycle. */
  function AtMoment(s: Schedule, fallback: string, v: nat): string {
    Resolve(s, WeekdayOf(v), MinuteOf(v), fallback)
  }

  function WeekdayOf(v: nat): Dow {
    (v / MINUTES_PER_DAY) % 7
  }

  function MinuteOf(v: nat): Minute {
    v % MINUTES_PER_DAY
  }

  function Moment(dow: Dow, m: Minute): nat {
    dow * MINUTES_PER_DAY + m
  }

  ghost predicate IsFirstChange(s: Schedule, fallback: string, now: nat, v: nat) {
    && now < v <= now + MINUTES_PER_WEEK
    && AtMoment(s, fallback, v) != AtMoment(s, fallback, now)
    && forall u :: now <= u < v ==> AtMoment(s, fallback, u) == AtMoment(s, fallback, now)
  }

  /** What `nextChangeAt` promises about its answer. */
  ghost predicate IsNextChange(s: Schedule, fallback: string, now: nat, r: Option<string>) {
    if r.None? then
      !s.enabled || forall v :: now <= v <= now + MINUTES_PER_WEEK ==> AtMoment(s, fallback, v) == AtMoment(s, fallback, now)
    else
      s.enabled && exists v: nat :: IsFirstChange(s, fallback, now, v) && r.value == FormatHhmm(MinuteOf(v))
  }

  method NextChangeAt(s: Schedule, dow: Dow, minute: Minute, fallback: string) returns (r: Option<string>)
    ensures IsNextChange(s, fallback, Moment(dow, minute), r)
  {
    if !s.enabled { return None; }
    var startScenario := Resolve(s, dow, minute, fallback);
    ghost var now := Moment(dow, minute);
    var cursor := dow * MINUTES_PER_DAY + minute;
    for i := 1 to MINUTES_PER_WEEK + 1
      invariant cursor == now + i - 1
      invariant forall u :: now <= u < now + i ==> AtMoment(s, fallback, u) == startScenario
    {
      cursor := cursor + 1;
      var d, m := WeekdayOf(cursor), MinuteOf(cursor);
      var resolved := FirstMatch(s.blocks, d, m, fallback);
      if resolved != startScenario {
        assert IsFirstChange(s, fallback, now, cursor);
        return Some(FormatHhmm(m));
      }
    }
    return None;
  }

  lemma MomentParts(d: Dow, m: Minute)
    ensures WeekdayOf(Moment(d, m)) == d && MinuteOf(Moment(d, m)) == m
  {
  }

  lemma NextMomentOf(d: Dow, m: Minute, now: nat) returns (v: nat)
    requires now < MINUTES_PER_WEEK
    ensures now <= v <= now + MINUTES_PER_WEEK && WeekdayOf(v) == d && MinuteOf(v) == m
  {
    v := Moment(d, m);
    if v < now { v := v + MINUTES_PER_WEEK; }
  }

  /** On an enabled schedule the scan answers null exactly when the week is constant. */
  lemma NullIffConstantWeek(s: Schedule, fallback: string, dow: Dow, minute: Minute, r: Option<string>)
    requires s.enabled && IsNextChange(s, fallback, Moment(dow, minute), r)
    ensures r.None? <==> forall d: Dow, m: Minute :: Resolve(s, d, m, fallback) == Resolve(s, dow, minute, fallback)
  {
    var now := Moment(dow, minute);
    MomentParts(dow, minute);
    assert AtMoment(s, fallback, now) == Resolve(s, dow, minute, fallback);
    if r.None? {
      forall d: Dow, m: Minute ensures Resolve(s, d, m, fallback) == Resolve(s, dow, minute, fallback) {
        var v := NextMomentOf(d, m, now);
        assert AtMoment(s, fallback, v) == AtMoment(s, fallback, now);
      }
    } else {
      var v: nat :| IsFirstChange(s, fallback, now, v);
      assert Resolve(s, WeekdayOf(v), MinuteOf(v), fallback) != Resolve(s, dow, minute, fallback);
    }
  }

  // ---------------------------------------------------------------- validation

  /** The first fault found in a block, in the order the editor looks for them. */
  function Fault(b: Block): Option<BlockError> {
    var s, e := ParseHhmm(b.start), ParseHhmm(b.end);
    if s.None? then Some(InvalidStart)
    else if e.None? then Some(InvalidEnd)
    else if s == e then Some(ZeroLength)
    else if b.days.None? || b.days.value == [] then Some(NoDays)
    else None
  }

  /** Which fault a block has: a start that is no time, else an end that is none, else equal ends,
      else no day. */
  lemma FaultMeans(b: Block)
    ensures Fault(b) == Some(InvalidStart) <==> !IsTime(b.start)
    ensures Fault(b) == Some(InvalidEnd) <==> IsTime(b.start) && !IsTime(b.end)
    ensures Fault(b) == Some(ZeroLength) <==> IsTime(b.start) && IsTime(b.end) && ParseHhmm(b.start) == ParseHhmm(b.end)
    ensures Fault(b) == Some(NoDays) <==>
      IsTime(b.start) && IsTime(b.end) && ParseHhmm(b.start) != ParseHhmm(b.end) && (b.days == None || b.days == Some([]))
  {
    hide ParseHhmm, IsTime;
    TimeIffParses(b.start);
    TimeIffParses(b.end);
  }

  /** One or two half-open intervals of minutes within a day. */
  function ToIntervals(b: Block): (r: seq<(int, int)>)
    ensures |r| <= 2
    ensures forall k :: 0 <= k < |r| ==> 0 <= r[k].0 <= r[k].1 <= MINUTES_PER_DAY && (r[k].0 == r[k].1 ==> r[k].0 == 0)
  {
    var s, e := ParseHhmm(b.start), ParseHhmm(b.end);
    if s.None? || e.None? || s == e then []
    else if e.value > s.value then [(s.value, e.value)]
    else [(s.value, MINUTES_PER_DAY), (0, e.value)]
  }

  predicate Meet(x: (int, int), y: (int, int)) {
    x.0 < y.1 && y.0 < x.1
  }

  predicate WindowsOverlap(a: Block, b: Block) {
    exists i, j :: 0 <= i < |ToIntervals(a)| && 0 <= j < |ToIntervals(b)| && Meet(ToIntervals(a)[i], ToIntervals(b)[j])
  }

  predicate ShareDay(a: Block, b: Block) {
    a.days.Some? && b.days.Some? && exists d :: d in a.days.value && d in b.days.value
  }

  /** The block is in force at some instant. */
  ghost predicate EverMatches(b: Block) {
    exists d: Dow, m: Minute :: BlockMatchesAt(b, d, m)
  }

  /** Both blocks match at some common instant. */
  ghost predicate Clash(a: Block, b: Block) {
    exists d: Dow, m: Minute :: BlockMatchesAt(a, d, m) && BlockMatchesAt(b, d, m)
  }

  /** Two blocks of a list, at different places, that clash. */
  ghost predicate ClashesAt(blocks: seq<Block>, i: int, j: int) {
    0 <= i < |blocks| && 0 <= j < |blocks| && i != j && Clash(blocks[i], blocks[j])
  }

  ghost predicate InIntervals(b: Block, m: int) {
    exists k :: 0 <= k < |ToIntervals(b)| && ToIntervals(b)[k].0 <= m < ToIntervals(b)[k].1
  }

  lemma MatchIsInterval(b: Block, d: Dow, m: Minute)
    ensures BlockMatchesAt(b, d, m) <==> b.days.Some? && d in b.days.value && InIntervals(b, m)
  {
    var r := ToIntervals(b);
    if BlockMatchesAt(b, d, m) {
      if r[0].0 <= m < r[0].1 {
      } else {
        assert r[1].0 <= m < r[1].1;
      }
    }
  }

  /** A block is refused exactly when no instant can ever match it. */
  lemma FaultIffNeverMatches(b: Block)
    ensures Fault(b).Some? <==> !EverMatches(b)
  {
    if Fault(b).None? {
      var d := b.days.value[0];
      var s := ParseHhmm(b.start).value;
      assert BlockMatchesAt(b, d, s);
    }
  }

  lemma MeetingMinute(a: Block, b: Block, d: Dow, i: nat, j: nat)
    requires a.days.Some? && b.days.Some? && d in a.days.value && d in b.days.value
    requires i < |ToIntervals(a)| && j < |ToIntervals(b)| && Meet(ToIntervals(a)[i], ToIntervals(b)[j])
    ensures Clash(a, b)
  {
    hide ParseHhmm, ToIntervals, BlockMatchesAt;
    var x, y := ToIntervals(a)[i], ToIntervals(b)[j];
    var m: Minute := if x.0 >= y.0 then x.0 else y.0;
    MatchIsInterval(a, d, m);
    MatchIsInterval(b, d, m);
    assert InIntervals(a, m) && InIntervals(b, m);
  }

  lemma ClashMeets(a: Block, b: Block)
    requires Clash(a, b)
    ensures ShareDay(a, b) && WindowsOverlap(a, b)
  {
    hide ParseHhmm, ToIntervals, BlockMatchesAt;
    var d: Dow, m: Minute :| BlockMatchesAt(a, d, m) && BlockMatchesAt(b, d, m);
    MatchIsInterval(a, d, m);
    MatchIsInterval(b, d, m);
    var i :| 0 <= i < |ToIntervals(a)| && ToIntervals(a)[i].0 <= m < ToIntervals(a)[i].1;
    var j :| 0 <= j < |ToIntervals(b)| && ToIntervals(b)[j].0 <= m < ToIntervals(b)[j].1;
    assert Meet(ToIntervals(a)[i], ToIntervals(b)[j]);
  }

  /** The interval test is exact: it holds iff some minute belongs to both blocks. */
  lemma OverlapIffClash(a: Block, b: Block)
    ensures ShareDay(a, b) && WindowsOverlap(a, b) <==> Clash(a, b)
  {
    if ShareDay(a, b) && WindowsOverlap(a, b) {
      var d :| d in a.days.value && d in b.days.value;
      var i, j :| 0 <= i < |ToIntervals(a)| && 0 <= j < |ToIntervals(b)| && Meet(ToIntervals(a)[i], ToIntervals(b)[j]);
      MeetingMinute(a, b, d, i, j);
    }
    if Clash(a, b) {
      ClashMeets(a, b);
    }
  }

  ghost predicate ErrorsExact(blocks: seq<Block>, errors: map<nat, BlockError>, n: nat)
    requires n <= |blocks|
  {
    && (forall i: nat :: i in errors <==> i < n && !EverMatches(blocks[i]))
    && forall i: nat :: i in errors ==> Some(errors[i]) == Fault(blocks[i])
  }

  method BlockErrors(blocks: seq<Block>) returns (errors: map<nat, BlockError>)
    ensures ErrorsExact(blocks, errors, |blocks|)
  {
    errors := map[];
    for i := 0 to |blocks|
      invariant ErrorsExact(blocks, errors, i)
    {
      FaultIffNeverMatches(blocks[i]);
      var fault := Fault(blocks[i]);
      if fault.Some? { errors := errors[i := fault.value]; }
    }
  }

  method OverlapWarnings(blocks: seq<Block>, valid: seq<nat>) returns (warnings: seq<nat>)
    requires forall x :: 0 <= x < |valid| ==> valid[x] < |blocks|
    requires forall x, y :: 0 <= x < y < |valid| ==> valid[x] < valid[y]
    ensures WarningsSound(blocks, warnings)
    ensures Done(blocks, valid, |valid|, 0, warnings)
  {
    warnings := [];
    for a := 0 to |valid|
      invariant WarningsSound(blocks, warnings)
      invariant Done(blocks, valid, a, 0, warnings)
    {
      for b := a + 1 to |valid|
        invariant WarningsSound(blocks, warnings)
        invariant Done(blocks, valid, a, b, warnings)
      {
        ghost var before := warnings;
        var i, j := valid[a], valid[b];
        OverlapIffClash(blocks[i], blocks[j]);
        if ShareDay(blocks[i], blocks[j]) && WindowsOverlap(blocks[i], blocks[j]) {
          warnings := AddOnce(AddOnce(warnings, i), j);
          StillSound(blocks, before, i, j);
        }
        StillDone(blocks, valid, a, b, before, warnings);
      }
    }
  }

  /** Every pair before (a, b), in the order of the nested loops, has been reported if it clashes. */
  ghost predicate Done(blocks: seq<Block>, valid: seq<nat>, a: nat, b: nat, warnings: seq<nat>) {
    forall x, y :: 0 <= x < y < |valid| && (x < a || (x == a && y < b)) ==> Reported(blocks, valid, x, y, warnings)
  }

  /** The guarded push: append unless present. */
  function AddOnce(s: seq<nat>, i: nat): (r: seq<nat>)
    ensures forall k :: k in r <==> k in s || k == i
    ensures (forall x, y :: 0 <= x < y < |s| ==> s[x] != s[y]) ==> forall x, y :: 0 <= x < y < |r| ==> r[x] != r[y]
  {
    if i in s then s else s + [i]
  }

  lemma StillSound(blocks: seq<Block>, before: seq<nat>, i: nat, j: nat)
    requires i < |blocks| && j < |blocks| && i != j && Clash(blocks[i], blocks[j])
    requires WarningsSound(blocks, before)
    ensures WarningsSound(blocks, AddOnce(AddOnce(before, i), j))
  {
    hide Clash, AddOnce;
    ClashIsMutual(blocks, i, j);
    AddSound(blocks, before, i, j);
    AddSound(blocks, AddOnce(before, i), j, i);
  }

  lemma AddSound(blocks: seq<Block>, before: seq<nat>, i: nat, j: nat)
    requires WarningsSound(blocks, before) && ClashesAt(blocks, i, j)
    ensures WarningsSound(blocks, AddOnce(before, i))
  {
    hide ClashesAt, AddOnce;
  }

  lemma StillDone(blocks: seq<Block>, valid: seq<nat>, a: nat, b: nat, before: seq<nat>, warnings: seq<nat>)
    requires a < b < |valid| && Done(blocks, valid, a, b, before)
    requires forall k :: k in before ==> k in warnings
    requires Reported(blocks, valid, a, b, warnings)
    ensures Done(blocks, valid, a, b + 1, warnings)
  {
    forall x, y | 0 <= x < y < |valid| && (x < a || (x == a && y < b + 1))
      ensures Reported(blocks, valid, x, y, warnings)
    {
      assert (x == a && y == b) || Reported(blocks, valid, x, y, before);
    }
  }

  lemma ClashIsMutual(blocks: seq<Block>, i: nat, j: nat)
    requires i < |blocks| && j < |blocks| && i != j && Clash(blocks[i], blocks[j])
    ensures ClashesAt(blocks, i, j) && ClashesAt(blocks, j, i)
  {
    assert Clash(blocks[j], blocks[i]);
  }

  /** Faults and overlap warnings are exact: an index carries a fault iff its block can never
      be in force, and is warned about iff another block is in force at a common instant. */
  method ValidateSchedule(blocks: seq<Block>) returns (errors: map<nat, BlockError>, warnings: seq<nat>)
    ensures forall i: nat :: i in errors <==> i < |blocks| && !EverMatches(blocks[i])
    ensures forall i: nat :: i in errors ==> Some(errors[i]) == Fault(blocks[i])
    ensures forall i: nat :: i in warnings <==> exists j :: ClashesAt(blocks, i, j)
    ensures forall x, y :: 0 <= x < y < |warnings| ==> warnings[x] != warnings[y]
  {
    errors := BlockErrors(blocks);
    var valid: seq<nat> := [];
    for i := 0 to |blocks|
      invariant forall x :: 0 <= x < |valid| ==> valid[x] < i
      invariant forall x, y :: 0 <= x < y < |valid| ==> valid[x] < valid[y]
      invariant forall k :: 0 <= k < i && k !in errors ==> k in valid
    {
      if i !in errors { valid := valid + [i]; }
    }
    warnings := OverlapWarnings(blocks, valid);
    WarningsComplete(blocks, errors, valid, warnings);
  }

  ghost predicate WarningsSound(blocks: seq<Block>, warnings: seq<nat>) {
    && (forall i :: i in warnings ==> exists j :: ClashesAt(blocks, i, j))
    && forall x, y :: 0 <= x < y < |warnings| ==> warnings[x] != warnings[y]
  }

  ghost predicate Reported(blocks: seq<Block>, valid: seq<nat>, x: nat, y: nat, warnings: seq<nat>)
    requires x < |valid| && y < |valid|
  {
    ClashesAt(blocks, valid[x], valid[y]) ==> valid[x] in warnings && valid[y] in warnings
  }

  lemma WarningsComplete(blocks: seq<Block>, errors: map<nat, BlockError>, valid: seq<nat>, warnings: seq<nat>)
    requires ErrorsExact(blocks, errors, |blocks|)
    requires forall x :: 0 <= x < |valid| ==> valid[x] < |blocks|
    requires forall k :: 0 <= k < |blocks| && k !in errors ==> k in valid
    requires forall x, y :: 0 <= x < y < |valid| ==> valid[x] < valid[y]
    requires Done(blocks, valid, |valid|, 0, warnings)
    ensures forall i, j :: ClashesAt(blocks, i, j) ==> i in warnings
  {
    forall i, j | ClashesAt(blocks, i, j) ensures i in warnings {
      var d: Dow, m: Minute :| BlockMatchesAt(blocks[i], d, m) && BlockMatchesAt(blocks[j], d, m);
      assert EverMatches(blocks[i]) && EverMatches(blocks[j]);
      assert ClashesAt(blocks, j, i);
      var x :| 0 <= x < |valid| && valid[x] == i;
      var y :| 0 <= y < |valid| && valid[y] == j;
      if x < y {
        assert Reported(blocks, valid, x, y, warnings);
      } else {
        assert Reported(blocks, valid, y, x, warnings);
      }
    }
  }

  // ---------------------------------------------------------------- order of the blocks

  /** Every reordering of the blocks resolves alike at every instant. */
  ghost predicate OrderFree(blocks: seq<Block>) {
    forall perm: seq<Block>, d: Dow, m: Minute, fallback: string ::
      multiset(perm) == multiset(blocks) ==> FirstMatch(perm, d, m, fallback) == FirstMatch(blocks, d, m, fallback)
  }

  function ToFront(blocks: seq<Block>, i: nat): (r: seq<Block>)
    requires i < |blocks|
    ensures multiset(r) == multiset(blocks)
  {
    assert blocks == blocks[..i] + [blocks[i]] + blocks[i + 1..];
    [blocks[i]] + blocks[..i] + blocks[i + 1..]
  }

  lemma AtInstant(blocks: seq<Block>, perm: seq<Block>, d: Dow, m: Minute, fallback: string)
    requires multiset(perm) == multiset(blocks)
    requires forall i, j :: ClashesAt(blocks, i, j) ==> blocks[i].scenario == blocks[j].scenario
    ensures FirstMatch(perm, d, m, fallback) == FirstMatch(blocks, d, m, fallback)
  {
    var k := EarliestMatch(blocks, d, m, fallback);
    var p := EarliestMatch(perm, d, m, fallback);
    SameElements(blocks, perm);
    if p >= 0 {
      assert perm[p] in perm;
      var i :| 0 <= i < |blocks| && blocks[i] == perm[p];
      if i != k { ClashIsMutual(blocks, i, k); }
    } else if k >= 0 {
      MatchCarries(blocks, perm, k, d, m);
    }
  }

  lemma MatchCarries(blocks: seq<Block>, perm: seq<Block>, k: nat, d: Dow, m: Minute)
    requires multiset(perm) == multiset(blocks) && k < |blocks| && BlockMatchesAt(blocks[k], d, m)
    ensures exists q :: 0 <= q < |perm| && BlockMatchesAt(perm[q], d, m)
  {
    SameElements(blocks, perm);
    var b := blocks[k];
    assert b in perm;
    var q :| 0 <= q < |perm| && perm[q] == b;
  }

  lemma SameElements(a: seq<Block>, b: seq<Block>)
    requires multiset(a) == multiset(b)
    ensures forall x :: x in a <==> x in b
  {
    assert forall x :: x in a <==> x in multiset(a);
    assert forall x :: x in b <==> x in multiset(b);
  }

  /** The order of the blocks is irrelevant exactly when clashing blocks agree on the scenario. */
  lemma OrderFreeIff(blocks: seq<Block>)
    ensures OrderFree(blocks) <==> forall i, j :: ClashesAt(blocks, i, j) ==> blocks[i].scenario == blocks[j].scenario
  {
    if forall i, j :: ClashesAt(blocks, i, j) ==> blocks[i].scenario == blocks[j].scenario {
      forall perm: seq<Block>, d: Dow, m: Minute, fallback: string | multiset(perm) == multiset(blocks)
        ensures FirstMatch(perm, d, m, fallback) == FirstMatch(blocks, d, m, fallback)
      {
        AtInstant(blocks, perm, d, m, fallback);
      }
    }
    if OrderFree(blocks) {
      forall i, j | ClashesAt(blocks, i, j) ensures blocks[i].scenario == blocks[j].scenario {
        var d: Dow, m: Minute :| BlockMatchesAt(blocks[i], d, m) && BlockMatchesAt(blocks[j], d, m);
        assert FirstMatch(ToFront(blocks, i), d, m, "") == blocks[i].scenario;
        assert FirstMatch(ToFront(blocks, j), d, m, "") == blocks[j].scenario;
      }
    }
  }

  /** When the editor reports no overlap, the order of the blocks is irrelevant. */
  lemma NoWarningsOrderFree(blocks: seq<Block>, warnings: seq<nat>)
    requires forall i: nat :: i in warnings <==> exists j :: ClashesAt(blocks, i, j)
    requires warnings == []
    ensures OrderFree(blocks)
  {
    EveryClashWarned(blocks, warnings);
    OrderFreeIff(blocks);
  }

  lemma EveryClashWarned(blocks: seq<Block>, warnings: seq<nat>)
    requires forall i: nat :: i in warnings <==> exists j :: ClashesAt(blocks, i, j)
    ensures forall i, j :: ClashesAt(blocks, i, j) ==> i in warnings
  {
    forall i, j | ClashesAt(blocks, i, j) ensures i in warnings {
      var k: nat := i;
      assert ClashesAt(blocks, k, j);
    }
  }
}
