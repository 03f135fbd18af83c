/** Colon-joined band lists: printing, parsing, and what the modem supports of a recommendation. */
module BandLists {
  import opened Text

  // ---------------------------------------------------------------- sorting

  ghost predicate Ascending(s: seq<int>) {
    forall i, j :: 0 <= i < j < |s| ==> s[i] <= s[j]
  }

  ghost predicate StrictlyAscending(s: seq<int>) {
    forall i, j :: 0 <= i < j < |s| ==> s[i] < s[j]
  }

  function Insert(s: seq<int>, x: int): seq<int> {
    if s == [] || x <= s[0] then [x] + s else [s[0]] + Insert(s[1..], x)
  }

  /** `sort((a, b) => a - b)`. */
  function SortAscending(s: seq<int>): seq<int> {
    if s == [] then [] else Insert(SortAscending(s[1..]), s[0])
  }

  lemma {:induction false} InsertCounts(s: seq<int>, x: int)
    ensures multiset(Insert(s, x)) == multiset(s) + multiset{x}
  {
    if s != [] {
      assert s == [s[0]] + s[1..];
      InsertCounts(s[1..], x);
    }
  }

  lemma AscendingCons(x: int, t: seq<int>)
    requires Ascending(t) && forall n :: n in multiset(t) ==> x <= n
    ensures Ascending([x] + t)
  {
    forall i | 0 <= i < |t| ensures x <= t[i] { assert t[i] in multiset(t); }
  }

  lemma HeadIsLeast(s: seq<int>, n: int)
    requires Ascending(s) && s != [] && n in multiset(s[1..])
    ensures s[0] <= n
  {
    assert n in s[1..];
  }

  lemma {:induction false} InsertSorts(s: seq<int>, x: int)
    requires Ascending(s)
    ensures Ascending(Insert(s, x))
  {
    if s == [] {
    } else if x <= s[0] {
      assert s == [s[0]] + s[1..];
      forall n | n in multiset(s) ensures x <= n {
        if n != s[0] { HeadIsLeast(s, n); }
      }
      AscendingCons(x, s);
    } else {
      InsertSorts(s[1..], x);
      InsertCounts(s[1..], x);
      forall n | n in multiset(Insert(s[1..], x)) ensures s[0] <= n {
        if n != x { HeadIsLeast(s, n); }
      }
      AscendingCons(s[0], Insert(s[1..], x));
    }
  }

  lemma {:induction false} SortSorts(s: seq<int>)
    ensures Ascending(SortAscending(s)) && multiset(SortAscending(s)) == multiset(s)
  {
    if s != [] {
      SortSorts(s[1..]);
      InsertSorts(SortAscending(s[1..]), s[0]);
      InsertCounts(SortAscending(s[1..]), s[0]);
      assert s == [s[0]] + s[1..];
    }
  }

  lemma SortKeepsElements(s: seq<int>)
    ensures forall n :: n in SortAscending(s) <==> n in s
  {
    SortSorts(s);
    forall n ensures n in SortAscending(s) <==> n in s {
      assert n in SortAscending(s) <==> n in multiset(SortAscending(s));
      assert n in s <==> n in multiset(s);
    }
  }

  ghost predicate NoRepeats(s: seq<int>) {
    forall i, j :: 0 <= i < j < |s| ==> s[i] != s[j]
  }

  lemma SortStrict(s: seq<int>)
    requires NoRepeats(s)
    ensures StrictlyAscending(SortAscending(s))
  {
    SortSorts(s);
    var t := SortAscending(s);
    forall i, j | 0 <= i < j < |t| ensures t[i] < t[j] {
      if t[i] == t[j] {
        TwiceIn(t, i, j);
        OnceIn(s, t[i]);
      }
    }
  }

  lemma TwiceIn(t: seq<int>, i: nat, j: nat)
    requires i < j < |t| && t[i] == t[j]
    ensures multiset(t)[t[i]] >= 2
  {
    assert t == t[..j] + [t[j]] + t[j + 1..];
    assert t[i] in t[..j];
  }

  lemma {:induction false} OnceIn(s: seq<int>, n: int)
    requires NoRepeats(s)
    ensures multiset(s)[n] <= 1
  {
    if s != [] {
      assert s == [s[0]] + s[1..];
      OnceIn(s[1..], n);
      if n == s[0] { assert n !in s[1..]; }
    }
  }

  // ---------------------------------------------------------------- parsing

  /** One part of the list reads as this number. */
  predicate PartIs(part: string, n: int) {
    ParseInt(Trim(part), 10) == Some(n)
  }

  /** A positive number that some part of the text reads as. */
  ghost predicate Mentions(raw: string, n: int) {
    raw != "" && n > 0 && exists i :: 0 <= i < |Split(raw, ':')| && PartIs(Split(raw, ':')[i], n)
  }

  /** The numbers of the text, each once, in ascending order. */
  ghost predicate IsBandList(raw: Option<string>, bands: seq<int>) {
    StrictlyAscending(bands) && forall n :: n in bands <==> raw.Some? && Mentions(raw.value, n)
  }

  method ParseBandList(raw: Option<string>) returns (bands: seq<int>)
    ensures IsBandList(raw, bands)
  {
    hide ParseInt, Trim, Split;
    if raw.None? || raw.value == "" { return []; }
    var parts := Split(raw.value, ':');
    var out: seq<int> := [];
    for i := 0 to |parts|
      invariant NoRepeats(out)
      invariant forall n :: n in out <==> n > 0 && exists k :: 0 <= k < i && PartIs(parts[k], n)
    {
      var n := ParseInt(Trim(parts[i]), 10);
      if n.Some? && n.value > 0 && n.value !in out {
        out := out + [n.value];
      }
    }
    SortStrict(out);
    SortKeepsElements(out);
    bands := SortAscending(out);
  }

  /** Two parses of a text are the same list. */
  lemma BandListUnique(raw: Option<string>, a: seq<int>, b: seq<int>)
    requires IsBandList(raw, a) && IsBandList(raw, b)
    ensures a == b
  {
    StrictEqual(a, b);
  }

  lemma {:induction false} StrictEqual(a: seq<int>, b: seq<int>)
    requires StrictlyAscending(a) && StrictlyAscending(b) && forall n :: n in a <==> n in b
    ensures a == b
  {
    assert (a != [] ==> a[0] in a) && (b != [] ==> b[0] in b);
    if a != [] && b != [] {
      assert a[0] == b[0];
      forall n ensures n in a[1..] <==> n in b[1..] {
        TailMember(a, n);
        TailMember(b, n);
      }
      StrictEqual(a[1..], b[1..]);
      assert a == [a[0]] + a[1..] && b == [b[0]] + b[1..];
    }
  }

  lemma TailMember(a: seq<int>, n: int)
    requires StrictlyAscending(a) && a != []
    ensures n in a[1..] <==> n in a && n != a[0]
  {
    assert a == [a[0]] + a[1..];
  }

  /** A list of parts gives the positive numbers its parts read as. */
  lemma PartsGiveBands(parts: seq<string>, bands: seq<int>, n: int)
    requires parts != [] && (forall i :: 0 <= i < |parts| ==> Free(parts[i], ':'))
    requires IsBandList(Some(Join(parts, ":")), bands)
    ensures n in bands <==> n > 0 && exists i :: 0 <= i < |parts| && PartIs(parts[i], n)
  {
    hide Split, ParseInt, Trim;
    SplitJoin(parts, ':');
    if Join(parts, ":") == "" {
      assert |parts| == 1 && parts[0] == "";
      PartSkipped("", "", "", "", n);
      assert "" + ("" + "") + "" == parts[0];
    }
  }

  /** A part reads as the number its digits denote, past white space around it and a sign, and up to
      the first other character. */
  lemma PartReads(before: string, sign: string, digits: string, rest: string, after: string, n: int)
    requires Spaces(before) && Spaces(after) && (sign == "" || sign == "-" || sign == "+")
    requires digits != "" && AllDigits(digits, 10) && (rest != "" ==> DigitValue(rest[0]) >= 10 && !IsSpace(rest[|rest| - 1]))
    ensures PartIs(before + (sign + digits + rest) + after, n) <==> n == if sign == "-" then -(FromDigits(digits, 10) as int) else FromDigits(digits, 10)
  {
    hide *;
    var t := sign + digits + rest;
    NumberTight(sign, digits, rest);
    TrimUnique(before, t, after);
    NumberReads(sign, digits, rest);
    PartIsNumber(before + t + after, t, n);
  }

  lemma NumberReads(sign: string, digits: string, rest: string)
    requires (sign == "" || sign == "-" || sign == "+") && digits != "" && AllDigits(digits, 10)
    requires rest != "" ==> DigitValue(rest[0]) >= 10
    ensures ParseInt(sign + digits + rest, 10) == Some(if sign == "-" then -(FromDigits(digits, 10) as int) else FromDigits(digits, 10))
  {
    hide ParseInt, FromDigits, AllDigits, DigitValue;
    assert Spaces("");
    ParseIntReads("", sign, digits, rest, 10);
    assert "" + sign + digits + rest == sign + digits + rest;
  }

  lemma PartIsNumber(part: string, t: string, n: int)
    requires Trim(part) == t
    ensures PartIs(part, n) <==> ParseInt(t, 10) == Some(n)
  {
  }

  lemma NumberTight(sign: string, digits: string, rest: string)
    requires (sign == "" || sign == "-" || sign == "+") && digits != "" && AllDigits(digits, 10)
    requires rest != "" ==> !IsSpace(rest[|rest| - 1])
    ensures Tight(sign + digits + rest)
  {
    var t := sign + digits + rest;
    NumberStart(digits[0]);
    NumberStart(digits[|digits| - 1]);
    hide IsSpace, DigitValue;
    assert t[0] == if sign == "" then digits[0] else sign[0];
    assert t[|t| - 1] == if rest == "" then digits[|digits| - 1] else rest[|rest| - 1];
  }

  /** A part that does not begin with a number, past white space and a sign, reads as nothing. */
  lemma PartSkipped(before: string, sign: string, rest: string, after: string, n: int)
    requires Spaces(before) && Spaces(after) && (sign == "" || sign == "-" || sign == "+") && Tight(sign + rest)
    requires rest != "" ==> DigitValue(rest[0]) >= 10 && !IsSpace(rest[0]) && (sign == "" ==> rest[0] != '-' && rest[0] != '+')
    ensures !PartIs(before + (sign + rest) + after, n)
  {
    TrimUnique(before, sign + rest, after);
    ParseIntNone("", sign, rest, 10);
    assert "" + sign + rest == sign + rest;
    hide ParseInt, Trim, IsSpace;
  }

  // ---------------------------------------------------------------- printing

  function IntText(n: int): string {
    if n < 0 then "-" + ToBase(-n, 10) else ToBase(n, 10)
  }

  function Texts(bands: seq<int>): (r: seq<string>)
    ensures |r| == |bands| && forall i :: 0 <= i < |bands| ==> r[i] == IntText(bands[i])
  {
    seq(|bands|, i requires 0 <= i < |bands| => IntText(bands[i]))
  }

  /** Ascending decimals joined by colons. */
  function BandsToColonString(bands: seq<int>): string {
    Join(Texts(SortAscending(bands)), ":")
  }

  /** The printed text, split at the colons, is the bands in decimal, ascending, each as often as given. */
  lemma PrintsAscending(bands: seq<int>) returns (sorted: seq<int>)
    requires bands != []
    ensures Ascending(sorted) && multiset(sorted) == multiset(bands)
    ensures Split(BandsToColonString(bands), ':') == seq(|sorted|, i requires 0 <= i < |sorted| => IntText(sorted[i]))
  {
    hide Split, Join, IntText;
    sorted := SortAscending(bands);
    SortSorts(bands);
    assert |sorted| == |multiset(sorted)| == |bands|;
    forall i | 0 <= i < |sorted| ensures Free(Texts(sorted)[i], ':') { IntTextFree(sorted[i]); }
    SplitJoin(Texts(sorted), ':');
    assert Texts(sorted) == seq(|sorted|, i requires 0 <= i < |sorted| => IntText(sorted[i]));
  }

  lemma IntTextFree(n: int)
    ensures Free(IntText(n), ':')
  {
    var m: nat := if n < 0 then -n else n;
    ToBaseRoundTrip(m, 10);
    var t := ToBase(m, 10);
    forall i | 0 <= i < |t| ensures t[i] != ':' { assert DigitValue(t[i]) < 10; }
    hide ToBase;
  }

  lemma DecimalText(n: int)
    requires n > 0
    ensures var t := IntText(n); t != "" && Free(t, ':') && PartIs(t, n) && forall m :: PartIs(t, m) ==> m == n
  {
    var t := ToBase(n, 10);
    ToBaseRoundTrip(n, 10);
    forall i | 0 <= i < |t| ensures t[i] != ':' && !IsSpace(t[i]) { assert DigitValue(t[i]) < 10; }
    TrimTight(t);
    ParseIntDigits(t, 10);
  }

  /** Printing any list of bands and parsing it back gives its bands, each once, ascending. */
  lemma PrintThenParse(bands: seq<int>, parsed: seq<int>)
    requires forall i :: 0 <= i < |bands| ==> bands[i] > 0
    requires IsBandList(Some(BandsToColonString(bands)), parsed)
    ensures StrictlyAscending(parsed) && forall n :: n in parsed <==> n in bands
  {
    hide ParseInt, Trim, Split, Join, IntText, PartIs;
    var sorted := SortAscending(bands);
    SortKeepsElements(bands);
    var texts, raw := Texts(sorted), BandsToColonString(bands);
    forall i | 0 <= i < |sorted| ensures sorted[i] > 0 && texts[i] != "" && Free(texts[i], ':') {
      assert sorted[i] in bands;
      DecimalText(sorted[i]);
    }
    forall n ensures n in parsed <==> n in bands {
      if bands == [] {
        EmptyPrints();
      } else {
        assert bands[0] in sorted;
        SplitJoin(texts, ':');
        JoinNotEmpty(texts);
        if n in bands {
          var i :| 0 <= i < |sorted| && sorted[i] == n;
          DecimalText(n);
          assert PartIs(texts[i], n);
        }
        if Mentions(raw, n) {
          var i :| 0 <= i < |texts| && PartIs(texts[i], n);
          DecimalText(sorted[i]);
        }
      }
    }
  }

  lemma EmptyPrints()
    ensures BandsToColonString([]) == ""
  {
  }

  lemma JoinNotEmpty(texts: seq<string>)
    requires texts != [] && texts[0] != ""
    ensures Join(texts, ":") != ""
  {
  }

  // ---------------------------------------------------------------- intersection

  function Filter(recommended: seq<int>, supported: seq<int>): seq<int> {
    if recommended == [] then []
    else (if recommended[0] in supported then [recommended[0]] else []) + Filter(recommended[1..], supported)
  }

  lemma {:induction false} FilterCounts(recommended: seq<int>, supported: seq<int>)
    ensures forall n :: multiset(Filter(recommended, supported))[n] == if n in supported then multiset(recommended)[n] else 0
  {
    if recommended != [] {
      FilterCounts(recommended[1..], supported);
      assert recommended == [recommended[0]] + recommended[1..];
    }
  }

  /** The recommended bands that the modem lists, ascending, as often as recommended; none when
      the modem lists nothing. */
  method IntersectSupported(recommended: seq<int>, supportedRaw: Option<string>) returns (bands: seq<int>)
    ensures Ascending(bands)
    ensures forall n :: multiset(bands)[n] == (if supportedRaw.Some? && Mentions(supportedRaw.value, n) then multiset(recommended)[n] else 0)
  {
    hide Mentions;
    var supported := ParseBandList(supportedRaw);
    if |supported| == 0 { return []; }
    FilterCounts(recommended, supported);
    SortSorts(Filter(recommended, supported));
    bands := SortAscending(Filter(recommended, supported));
  }
}
