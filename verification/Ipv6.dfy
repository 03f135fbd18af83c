/** Addresses as the modem and the web write them, normalised to the form of RFC 5952. */
module Ipv6 {
  import opened Text

  type Group = g: int | 0 <= g < 0x10000

  datatype Outcome = Shown(text: string) | Throws

  // ---------------------------------------------------------------- the two input notations

  /** `s.split("::")`. */
  function SplitPairs(s: string): (parts: seq<string>)
    ensures |parts| >= 1
  {
    if |s| < 2 then [s]
    else if s[0] == ':' && s[1] == ':' then [""] + SplitPairs(s[2..])
    else
      var rest := SplitPairs(s[1..]);
      [[s[0]] + rest[0]] + rest[1..]
  }

  predicate IsOctetText(p: string) {
    1 <= |p| <= 3 && AllDigits(p, 10)
  }

  predicate IsDotted(parts: seq<string>) {
    |parts| == 16 && forall i :: 0 <= i < 16 ==> IsOctetText(parts[i])
  }

  /** Bitwise or of two 2-bit numbers. */
  function OrTwoBits(a: nat, b: nat): nat
    requires a < 4 && b < 4
  {
    (if a >= 2 || b >= 2 then 2 else 0) + (if a % 2 == 1 || b % 2 == 1 then 1 else 0)
  }

  /** `(hi << 8) | lo` for numbers of up to three decimal digits. */
  function PairOctets(hi: nat, lo: nat): (r: nat)
    requires lo < 1000
    ensures lo < 256 ==> r == hi * 256 + lo
  {
    assert lo < 256 ==> OrTwoBits(hi % 4, lo / 256) == hi % 4;
    (hi / 4 * 4 + OrTwoBits(hi % 4, lo / 256)) * 256 + lo % 256
  }

  lemma OctetValue(p: string)
    requires IsOctetText(p)
    ensures FromDigits(p, 10) < 1000
  {
    FromDigitsBound(p, 10);
    assert Power(10, 1) == 10 && Power(10, 2) == 100 && Power(10, 3) == 1000;
  }

  function DottedGroup(parts: seq<string>, k: nat): string
    requires IsDotted(parts) && k < 8
  {
    OctetValue(parts[2 * k + 1]);
    ToBase(PairOctets(FromDigits(parts[2 * k], 10), FromDigits(parts[2 * k + 1], 10)), 16)
  }

  /** `(parseInt(g, 16) || 0).toString(16)`. */
  function NormalGroup(g: string): string {
    match ParseInt(g, 16)
    case None => "0"
    case Some(n) => if n < 0 then "-" + ToBase(-n, 16) else ToBase(n, 16)
  }

  function Repeat(s: string, n: nat): (r: seq<string>)
    ensures |r| == n && forall i :: 0 <= i < n ==> r[i] == s
  {
    seq(n, _ => s)
  }

  datatype Reading = Groups(groups: seq<string>) | AsIs | BadLength

  /** The groups a text stands for, as the front end reads it. */
  function Read(ip: string): Reading {
    var parts := Split(ip, '.');
    if IsDotted(parts) then
      Groups(seq(8, k requires 0 <= k < 8 => DottedGroup(parts, k)))
    else if ':' in ip then
      var halves := SplitPairs(ip);
      if |halves| == 2 then
        var left := if halves[0] == "" then [] else Split(halves[0], ':');
        var right := if halves[1] == "" then [] else Split(halves[1], ':');
        if |left| + |right| > 8 then BadLength
        else Groups(Normalised(left + Repeat("0", 8 - |left| - |right|) + right))
      else Groups(Normalised(Split(ip, ':')))
    else AsIs
  }

  function Normalised(groups: seq<string>): (r: seq<string>)
    ensures |r| == |groups| && forall i :: 0 <= i < |groups| ==> r[i] == NormalGroup(groups[i])
  {
    seq(|groups|, i requires 0 <= i < |groups| => NormalGroup(groups[i]))
  }

  // ---------------------------------------------------------------- the zero run

  ghost predicate ZeroRun(groups: seq<string>, start: int, len: int) {
    0 <= start && 1 <= len && start + len <= |groups| && forall i :: start <= i < start + len ==> groups[i] == "0"
  }

  /** The longest run of zero groups, the first one among equals; length 0 when there is none. */
  ghost predicate BestRun(groups: seq<string>, start: int, len: int) {
    && (len == 0 || ZeroRun(groups, start, len))
    && 0 <= len
    && forall s, l :: ZeroRun(groups, s, l) ==> l <= len && (l == len ==> start <= s)
  }

  /** As BestRun, among the runs that end by `end`. */
  ghost predicate BestUpTo(groups: seq<string>, end: int, start: int, len: int) {
    && (len == 0 || (ZeroRun(groups, start, len) && start + len <= end))
    && 0 <= len
    && forall s, l :: ZeroRun(groups, s, l) && s + l <= end ==> l <= len && (l == len ==> start <= s)
  }

  /** The run of zeros ending at i that cannot be extended to the left. */
  ghost predicate CurrentRun(groups: seq<string>, i: int, start: int, len: int) {
    && 0 <= len <= i <= |groups|
    && (if len == 0 then start == -1 else start == i - len)
    && (forall k :: i - len <= k < i ==> groups[k] == "0")
    && (i - len > 0 ==> groups[i - len - 1] != "0")
  }

  lemma CloseRun(groups: seq<string>, i: int, curStart: int, curLen: int, bestStart: int, bestLen: int)
    requires CurrentRun(groups, i, curStart, curLen) && BestUpTo(groups, i - curLen, bestStart, bestLen)
    ensures if curLen > bestLen then BestUpTo(groups, i, curStart, curLen) else BestUpTo(groups, i, bestStart, bestLen)
  {
    forall s, l | ZeroRun(groups, s, l) && i - curLen < s + l <= i ensures i - curLen <= s {
    }
  }

  lemma SkipGroup(groups: seq<string>, i: int, start: int, len: int)
    requires 0 <= i < |groups| && groups[i] != "0" && BestUpTo(groups, i, start, len)
    ensures BestUpTo(groups, i + 1, start, len)
  {
    forall s, l | ZeroRun(groups, s, l) && s + l <= i + 1 ensures s + l <= i {
    }
  }

  method FindZeroRun(groups: seq<string>) returns (bestStart: int, bestLen: int)
    ensures BestRun(groups, bestStart, bestLen)
  {
    var curStart, curLen := -1, 0;
    bestStart, bestLen := -1, 0;
    for i := 0 to |groups|
      invariant CurrentRun(groups, i, curStart, curLen)
      invariant BestUpTo(groups, i - curLen, bestStart, bestLen)
    {
      if groups[i] == "0" {
        if curStart == -1 { curStart := i; }
        curLen := curLen + 1;
      } else {
        CloseRun(groups, i, curStart, curLen, bestStart, bestLen);
        if curLen > bestLen {
          bestStart, bestLen := curStart, curLen;
        }
        curStart, curLen := -1, 0;
        SkipGroup(groups, i, bestStart, bestLen);
      }
    }
    CloseRun(groups, |groups|, curStart, curLen, bestStart, bestLen);
    if curLen > bestLen {
      bestStart, bestLen := curStart, curLen;
    }
  }

  // ---------------------------------------------------------------- compression

  /** The groups with the run from `start` of length `len` written as `::` when it spans two or more. */
  function Render(groups: seq<string>, start: int, len: int): string
    requires len >= 2 ==> 0 <= start && start + len <= |groups|
  {
    if len >= 2 then Join(groups[..start], ":") + "::" + Join(groups[start + len..], ":")
    else Join(groups, ":")
  }

  ghost predicate IsCompressed(ip: string, r: Outcome) {
    if ip == "" then r == Shown("-")
    else
      match Read(ip)
      case AsIs => r == Shown(ip)
      case BadLength => r == Throws
      case Groups(groups) => exists s, l :: BestRun(groups, s, l) && r == Shown(Render(groups, s, l))
  }

  /** First half: recognise the notation and list the groups. */
  method ReadGroups(ip: string) returns (r: Reading)
    ensures r == Read(ip)
  {
    hide ToBase, NormalGroup, PairOctets, SplitPairs, Split;
    var dotParts := Split(ip, '.');
    if IsDotted(dotParts) {
      var groups: seq<string> := [];
      for k := 0 to 8
        invariant |groups| == k && forall x :: 0 <= x < k ==> groups[x] == DottedGroup(dotParts, x)
      {
        groups := groups + [DottedGroup(dotParts, k)];
      }
      return Groups(groups);
    }
    if ':' !in ip { return AsIs; }
    var halves := SplitPairs(ip);
    if |halves| != 2 { return Groups(Normalised(Split(ip, ':'))); }
    var left := if halves[0] == "" then [] else Split(halves[0], ':');
    var right := if halves[1] == "" then [] else Split(halves[1], ':');
    var fill := 8 - |left| - |right|;
    if fill < 0 { return BadLength; }
    return Groups(Normalised(left + Repeat("0", fill) + right));
  }

  /** Second half: find the zero run and write the groups. */
  method WriteGroups(groups: seq<string>) returns (text: string)
    ensures exists start, len :: BestRun(groups, start, len) && text == Render(groups, start, len)
  {
    hide Join;
    var bestStart, bestLen := FindZeroRun(groups);
    if bestLen < 2 { return Join(groups, ":"); }
    var left := Join(groups[..bestStart], ":");
    var right := Join(groups[bestStart + bestLen..], ":");
    if left == "" && right == "" {
      text := "::";
    } else if left == "" {
      text := "::" + right;
    } else if right == "" {
      text := left + "::";
    } else {
      text := left + "::" + right;
    }
    assert left + "::" + "" == left + "::" && "" + "::" + right == "::" + right;
  }

  method CompressIPv6(ip: string) returns (r: Outcome)
    ensures IsCompressed(ip, r)
  {
    hide Read, Render, BestRun;
    if ip == "" { return Shown("-"); }
    var reading := ReadGroups(ip);
    match reading {
      case AsIs => r := Shown(ip);
      case BadLength => r := Throws;
      case Groups(groups) =>
        var text := WriteGroups(groups);
        r := Shown(text);
    }
  }

  // ---------------------------------------------------------------- what the notations denote

  /** Octet texts of one to three digits below 256, in pairs the groups of the address. */
  ghost predicate OctetsOf(text: string, a: seq<Group>, octets: seq<string>) {
    && |a| == 8 && IsDotted(octets) && text == Join(octets, ".")
    && (forall i :: 0 <= i < 16 ==> FromDigits(octets[i], 10) < 256)
    && forall k :: 0 <= k < 8 ==> a[k] == FromDigits(octets[2 * k], 10) * 256 + FromDigits(octets[2 * k + 1], 10)
  }

  /** Sixteen decimal octets of one to three digits, dot-separated. */
  ghost predicate DottedForm(text: string, a: seq<Group>) {
    exists octets: seq<string> :: OctetsOf(text, a, octets)
  }

  /** One to four hexadecimal digits, either case, each denoting its group. */
  ghost predicate Denote(texts: seq<string>, a: seq<Group>) {
    |texts| == |a| && forall i :: 0 <= i < |a| ==>
      1 <= |texts[i]| <= 4 && AllDigits(texts[i], 16) && FromDigits(texts[i], 16) == a[i]
  }

  /** The colon notation of RFC 4291, section 2.2, forms 1 and 2: eight groups, or fewer around one
      `::` that stands for one or more zero groups. */
  ghost predicate ColonForm(text: string, a: seq<Group>) {
    |a| == 8 && (FullForm(text, a) || exists left: seq<string>, right: seq<string> :: ShortForm(text, a, left, right))
  }

  ghost predicate FullForm(text: string, a: seq<Group>) {
    exists texts: seq<string> :: Denote(texts, a) && text == Join(texts, ":")
  }

  ghost predicate ShortForm(text: string, a: seq<Group>, left: seq<string>, right: seq<string>) {
    && |a| == 8 && |left| + |right| <= 7
    && Denote(left, a[..|left|]) && Denote(right, a[8 - |right|..])
    && (forall i :: |left| <= i < 8 - |right| ==> a[i] == 0)
    && text == Join(left, ":") + "::" + Join(right, ":")
  }

  ghost function HexGroups(a: seq<Group>): (r: seq<string>)
    ensures |r| == |a| && forall i :: 0 <= i < |a| ==> r[i] == ToBase(a[i], 16)
  {
    seq(|a|, i requires 0 <= i < |a| => ToBase(a[i], 16))
  }

  ghost predicate ZeroGroups(a: seq<Group>, start: int, len: int) {
    0 <= start && 1 <= len && start + len <= |a| && forall i :: start <= i < start + len ==> a[i] == 0
  }

  /** The first of the longest runs of at least two zero groups. */
  ghost predicate FirstLongest(a: seq<Group>, start: int, len: int) {
    && 2 <= len && ZeroGroups(a, start, len)
    && forall s, l :: ZeroGroups(a, s, l) ==> l <= len && (l == len ==> start <= s)
  }

  /** The recommended form of RFC 5952, sections 4.1 to 4.3: every group without leading zeros and
      in lower case, and the first of the longest runs of at least two zero groups as `::`. */
  ghost predicate IsRfc5952(text: string, a: seq<Group>) {
    if exists s :: ZeroGroups(a, s, 2) then
      exists s, l :: FirstLongest(a, s, l) && text == Join(HexGroups(a)[..s], ":") + "::" + Join(HexGroups(a)[s + l..], ":")
    else text == Join(HexGroups(a), ":")
  }

  // ---------------------------------------------------------------- reading back

  lemma IsZeroText(g: Group)
    ensures ToBase(g, 16) == "0" <==> g == 0
  {
    ToBaseRoundTrip(g, 16);
  }

  lemma ZeroRunIsZeroGroups(a: seq<Group>, s: int, l: int)
    ensures ZeroRun(HexGroups(a), s, l) <==> ZeroGroups(a, s, l)
  {
    forall i | 0 <= i < |a| ensures HexGroups(a)[i] == "0" <==> a[i] == 0 { IsZeroText(a[i]); }
  }

  /** The groups of a hexadecimal text are normalised to the shortest lower-case form. */
  lemma NormalGroupOf(g: string, v: Group)
    requires 1 <= |g| <= 4 && AllDigits(g, 16) && FromDigits(g, 16) == v
    ensures NormalGroup(g) == ToBase(v, 16)
  {
    ParseIntDigits(g, 16);
  }

  lemma NormalisedOf(texts: seq<string>, a: seq<Group>)
    requires Denote(texts, a)
    ensures Normalised(texts) == HexGroups(a)
  {
    forall i | 0 <= i < |a| ensures Normalised(texts)[i] == HexGroups(a)[i] { NormalGroupOf(texts[i], a[i]); }
  }

  predicate HexText(s: string) {
    s != "" && AllDigits(s, 16)
  }

  predicate PairFree(s: string) {
    forall i :: 0 <= i < |s| - 1 ==> !(s[i] == ':' && s[i + 1] == ':')
  }

  lemma HexFree(s: string, c: char)
    requires AllDigits(s, 16) && DigitValue(c) == 16
    ensures Free(s, c)
  {
  }

  /** Hexadecimal groups joined by colons hold no dot and no double colon, and neither start nor
      end with a colon. */
  lemma {:induction false} JoinShape(texts: seq<string>)
    requires forall i :: 0 <= i < |texts| ==> HexText(texts[i])
    ensures var s := Join(texts, ":");
      && Free(s, '.') && PairFree(s)
      && (texts == [] <==> s == "")
      && (s != "" ==> s[0] != ':' && s[|s| - 1] != ':')
  {
    if texts != [] {
      HexFree(texts[0], ':');
      HexFree(texts[0], '.');
      if |texts| > 1 {
        JoinShape(texts[1..]);
        var s, rest := Join(texts, ":"), Join(texts[1..], ":");
        assert s == texts[0] + ":" + rest;
        var n := |texts[0]|;
        assert forall i :: 0 <= i < n ==> s[i] == texts[0][i];
        assert s[n] == ':';
        assert forall i :: n < i < |s| ==> s[i] == rest[i - n - 1];
      }
    }
  }

  lemma {:induction false} SplitPairFree(s: string)
    requires PairFree(s)
    ensures SplitPairs(s) == [s]
  {
    if |s| >= 2 {
      assert PairFree(s[1..]) by { assert forall i :: 0 <= i < |s| - 1 ==> s[1..][i] == s[i + 1]; }
      SplitPairFree(s[1..]);
      assert [s[0]] + s[1..] == s;
    }
  }

  lemma {:induction false} SplitAtPair(left: string, right: string)
    requires PairFree(left) && (left != "" ==> left[|left| - 1] != ':') && PairFree(right)
    ensures SplitPairs(left + "::" + right) == [left, right]
  {
    var s := left + "::" + right;
    if left == "" {
      assert s[2..] == right;
      SplitPairFree(right);
    } else {
      var tail := left[1..];
      assert PairFree(tail) by { assert forall i :: 0 <= i < |tail| ==> tail[i] == left[i + 1]; }
      assert s[1..] == tail + "::" + right;
      SplitAtPair(tail, right);
      assert [left[0]] + tail == left;
    }
  }

  lemma NotDotted(ip: string)
    requires Free(ip, '.')
    ensures !IsDotted(Split(ip, '.'))
  {
    SplitFree(ip, '.');
  }

  lemma ColonIn(x: string, y: string)
    ensures ':' in x + ":" + y
  {
    assert (x + ":" + y)[|x|] == ':';
  }

  /** The eight-group form is read as its address. */
  lemma ReadFull(text: string, texts: seq<string>, a: seq<Group>)
    requires |a| == 8 && Denote(texts, a) && text == Join(texts, ":")
    ensures Read(text) == Groups(HexGroups(a)) && text != ""
  {
    JoinShape(texts);
    NotDotted(text);
    ColonIn(texts[0], Join(texts[1..], ":"));
    SplitPairFree(text);
    forall i | 0 <= i < 8 ensures Free(texts[i], ':') { HexFree(texts[i], ':'); }
    SplitJoin(texts, ':');
    NormalisedOf(texts, a);
  }

  lemma SplitOrNone(texts: seq<string>)
    requires forall i :: 0 <= i < |texts| ==> HexText(texts[i])
    ensures var s := Join(texts, ":"); (if s == "" then [] else Split(s, ':')) == texts
  {
    JoinShape(texts);
    if texts != [] {
      forall i | 0 <= i < |texts| ensures Free(texts[i], ':') { HexFree(texts[i], ':'); }
      SplitJoin(texts, ':');
    }
  }

  /** The groups written out, with zeros for the `::`, denote the address. */
  lemma ExpandedDenotes(left: seq<string>, zeros: seq<string>, right: seq<string>, a: seq<Group>)
    requires |a| == 8 && |left| + |right| <= 7 && zeros == Repeat("0", 8 - |left| - |right|)
    requires Denote(left, a[..|left|]) && Denote(right, a[8 - |right|..])
    requires forall i :: |left| <= i < 8 - |right| ==> a[i] == 0
    ensures Denote(left + zeros + right, a)
  {
    var texts := left + zeros + right;
    ZeroText();
    hide FromDigits, AllDigits;
    forall i | 0 <= i < 8 ensures 1 <= |texts[i]| <= 4 && AllDigits(texts[i], 16) && FromDigits(texts[i], 16) == a[i] {
      if i < |left| {
        assert a[..|left|][i] == a[i];
      } else if i < 8 - |right| {
        assert texts[i] == "0";
      } else {
        assert a[8 - |right|..][i - (8 - |right|)] == a[i];
      }
    }
  }

  lemma ZeroText()
    ensures AllDigits("0", 16) && FromDigits("0", 16) == 0
  {
    assert "0"[..0] == "";
    assert FromDigits("0", 16) == FromDigits("", 16) * 16 + DigitValue('0');
  }

  lemma ColonAfter(l: string, r: string)
    requires Free(l, '.') && Free(r, '.')
    ensures var text := l + "::" + r; ':' in text && text != "" && Free(text, '.')
  {
    var text := l + "::" + r;
    assert text[|l|] == ':';
  }

  lemma ReadHalves(text: string, l: string, r: string, left: seq<string>, right: seq<string>)
    requires !IsDotted(Split(text, '.')) && ':' in text && SplitPairs(text) == [l, r]
    requires (if l == "" then [] else Split(l, ':')) == left && (if r == "" then [] else Split(r, ':')) == right
    requires |left| + |right| <= 7
    ensures Read(text) == Groups(Normalised(left + Repeat("0", 8 - |left| - |right|) + right))
  {
    hide SplitPairs, Split, IsDotted, NormalGroup;
  }

  lemma TextOfHalves(text: string, l: string, r: string, left: seq<string>, right: seq<string>)
    requires forall i :: 0 <= i < |left| ==> HexText(left[i])
    requires forall i :: 0 <= i < |right| ==> HexText(right[i])
    requires l == Join(left, ":") && r == Join(right, ":") && text == l + "::" + r
    ensures !IsDotted(Split(text, '.')) && ':' in text && text != "" && SplitPairs(text) == [l, r]
  {
    hide Join, HexText, SplitPairs, IsDotted;
    JoinShape(left);
    JoinShape(right);
    ColonAfter(l, r);
    NotDotted(text);
    SplitAtPair(l, r);
  }

  /** A form with `::` is read as its address. */
  lemma ReadShort(text: string, left: seq<string>, right: seq<string>, a: seq<Group>)
    requires ShortForm(text, a, left, right)
    ensures Read(text) == Groups(HexGroups(a)) && text != ""
  {
    hide FromDigits, AllDigits, Join, Split, SplitPairs, NormalGroup, Read, IsDotted;
    TextOfHalves(text, Join(left, ":"), Join(right, ":"), left, right);
    SplitOrNone(left);
    SplitOrNone(right);
    ReadHalves(text, Join(left, ":"), Join(right, ":"), left, right);
    var zeros := Repeat("0", 8 - |left| - |right|);
    ExpandedDenotes(left, zeros, right, a);
    NormalisedOf(left + zeros + right, a);
  }

  lemma DecimalFree(s: string)
    requires AllDigits(s, 10)
    ensures Free(s, '.')
  {
    forall j | 0 <= j < |s| ensures s[j] != '.' { assert DigitValue(s[j]) < 10; }
  }

  lemma SplitOctets(octets: seq<string>)
    requires IsDotted(octets)
    ensures Split(Join(octets, "."), '.') == octets && Join(octets, ".") != ""
  {
    hide AllDigits;
    forall i | 0 <= i < 16 ensures Free(octets[i], '.') {
      assert IsOctetText(octets[i]);
      DecimalFree(octets[i]);
    }
    SplitJoin(octets, '.');
    assert Join(octets, ".") == octets[0] + "." + Join(octets[1..], ".");
  }

  lemma ReadDotted(text: string, a: seq<Group>, octets: seq<string>)
    requires OctetsOf(text, a, octets)
    ensures Read(text) == Groups(HexGroups(a)) && text != ""
  {
    hide Join, Split, ToBase, FromDigits;
    SplitOctets(octets);
    forall k | 0 <= k < 8 ensures DottedGroup(octets, k) == ToBase(a[k], 16) {
      OctetValue(octets[2 * k + 1]);
    }
  }

  lemma ReadBack(text: string, a: seq<Group>)
    requires DottedForm(text, a) || ColonForm(text, a)
    ensures Read(text) == Groups(HexGroups(a)) && text != ""
  {
    if DottedForm(text, a) {
      var octets: seq<string> :| OctetsOf(text, a, octets);
      ReadDotted(text, a, octets);
    } else if FullForm(text, a) {
      var texts: seq<string> :| Denote(texts, a) && text == Join(texts, ":");
      ReadFull(text, texts, a);
    } else {
      var left: seq<string>, right: seq<string> :| ShortForm(text, a, left, right);
      ReadShort(text, left, right, a);
    }
  }

  // ---------------------------------------------------------------- main results

  /** Both notations of an address, in every spelling, compress to its RFC 5952 form. */
  lemma CompressesToRfc5952(text: string, a: seq<Group>, r: Outcome)
    requires DottedForm(text, a) || ColonForm(text, a)
    requires IsCompressed(text, r)
    ensures r.Shown? && IsRfc5952(r.text, a)
  {
    ReadBack(text, a);
    var g := HexGroups(a);
    var s, l :| BestRun(g, s, l) && r == Shown(Render(g, s, l));
    BestRunIsRfc(a, s, l);
  }

  lemma BestRunIsRfc(a: seq<Group>, s: int, l: int)
    requires BestRun(HexGroups(a), s, l)
    ensures IsRfc5952(Render(HexGroups(a), s, l), a)
  {
    var g := HexGroups(a);
    forall s', l' ensures ZeroRun(g, s', l') <==> ZeroGroups(a, s', l') { ZeroRunIsZeroGroups(a, s', l'); }
    if x :| ZeroGroups(a, x, 2) {
      assert ZeroRun(g, x, 2);
      assert FirstLongest(a, s, l);
    } else if l >= 2 {
      assert ZeroGroups(a, s, 2);
    }
  }

  /** An address has one recommended form. */
  lemma Rfc5952Unique(x: string, y: string, a: seq<Group>)
    requires IsRfc5952(x, a) && IsRfc5952(y, a)
    ensures x == y
  {
    hide Join, ToBase;
    if exists s :: ZeroGroups(a, s, 2) {
      var s, l :| FirstLongest(a, s, l) && x == Join(HexGroups(a)[..s], ":") + "::" + Join(HexGroups(a)[s + l..], ":");
      var s', l' :| FirstLongest(a, s', l') && y == Join(HexGroups(a)[..s'], ":") + "::" + Join(HexGroups(a)[s' + l'..], ":");
      assert l == l' && s == s';
    }
  }

  lemma HexGroupsDenote(a: seq<Group>)
    ensures Denote(HexGroups(a), a)
  {
    forall i | 0 <= i < |a| ensures var t := ToBase(a[i], 16); |t| <= 4 && AllDigits(t, 16) && FromDigits(t, 16) == a[i] {
      ToBaseRoundTrip(a[i], 16);
      assert Power(16, 4) == 0x10000 by { assert Power(16, 1) == 16 && Power(16, 2) == 256 && Power(16, 3) == 4096; }
      ToBaseLength(a[i], 16, 4);
    }
  }

  lemma RenderIsShort(a: seq<Group>, s: int, l: int)
    requires |a| == 8 && 2 <= l && ZeroGroups(a, s, l)
    ensures ShortForm(Join(HexGroups(a)[..s], ":") + "::" + Join(HexGroups(a)[s + l..], ":"), a, HexGroups(a[..s]), HexGroups(a[s + l..]))
  {
    hide ToBase, Join, FromDigits, AllDigits;
    HexGroupsDenote(a[..s]);
    HexGroupsDenote(a[s + l..]);
    assert HexGroups(a)[..s] == HexGroups(a[..s]) && HexGroups(a)[s + l..] == HexGroups(a[s + l..]);
  }

  /** The recommended form is a colon form of the same address: nothing is lost. */
  lemma Rfc5952IsColonForm(text: string, a: seq<Group>)
    requires |a| == 8 && IsRfc5952(text, a)
    ensures ColonForm(text, a)
  {
    hide Denote, Join, ShortForm;
    var g := HexGroups(a);
    if exists s :: ZeroGroups(a, s, 2) {
      var s, l :| FirstLongest(a, s, l) && text == Join(g[..s], ":") + "::" + Join(g[s + l..], ":");
      RenderIsShort(a, s, l);
    } else {
      HexGroupsDenote(a);
      assert Denote(g, a) && text == Join(g, ":");
    }
  }

  /** A text denotes at most one address, so the recommended form parses back to the address. */
  lemma DenotesOne(text: string, a: seq<Group>, b: seq<Group>)
    requires (DottedForm(text, a) || ColonForm(text, a)) && (DottedForm(text, b) || ColonForm(text, b))
    ensures a == b
  {
    ReadBack(text, a);
    ReadBack(text, b);
    assert HexGroups(a) == HexGroups(b);
    forall i | 0 <= i < 8 ensures a[i] == b[i] {
      assert HexGroups(a)[i] == HexGroups(b)[i];
      ToBaseRoundTrip(a[i], 16);
      ToBaseRoundTrip(b[i], 16);
    }
  }

  /** Compressing a second time changes nothing. */
  lemma CompressIdempotent(text: string, a: seq<Group>, r: Outcome, again: Outcome)
    requires DottedForm(text, a) || ColonForm(text, a)
    requires IsCompressed(text, r) && r.Shown? && IsCompressed(r.text, again)
    ensures again == r
  {
    CompressesToRfc5952(text, a, r);
    Rfc5952IsColonForm(r.text, a);
    CompressesToRfc5952(r.text, a, again);
    Rfc5952Unique(r.text, again.text, a);
  }

  /** Two texts compress to the same string exactly when they denote the same address. */
  lemma SameTextIffSameAddress(x: string, y: string, a: seq<Group>, b: seq<Group>, rx: Outcome, ry: Outcome)
    requires (DottedForm(x, a) || ColonForm(x, a)) && (DottedForm(y, b) || ColonForm(y, b))
    requires IsCompressed(x, rx) && IsCompressed(y, ry)
    ensures rx == ry <==> a == b
  {
    CompressesToRfc5952(x, a, rx);
    CompressesToRfc5952(y, b, ry);
    if a == b {
      Rfc5952Unique(rx.text, ry.text, a);
    }
    if rx == ry {
      Rfc5952IsColonForm(rx.text, a);
      Rfc5952IsColonForm(rx.text, b);
      DenotesOne(rx.text, a, b);
    }
  }

  // ---------------------------------------------------------------- texts that are no IPv6 form

  /** Sixteen texts of one to three decimal digits, joined by dots. */
  ghost predicate SixteenOctets(ip: string) {
    exists octets: seq<string> :: |octets| == 16 && ip == Join(octets, ".") &&
      forall i :: 0 <= i < 16 ==> 1 <= |octets[i]| <= 3 && forall j :: 0 <= j < |octets[i]| ==> '0' <= octets[i][j] <= '9'
  }

  lemma DecimalDigit(c: char)
    ensures DigitValue(c) < 10 <==> '0' <= c <= '9'
  {
  }

  lemma DottedIsSixteen(ip: string)
    ensures IsDotted(Split(ip, '.')) ==> SixteenOctets(ip)
  {
    hide DigitValue, Split, Join;
    var parts := Split(ip, '.');
    JoinSplit(ip, '.');
    if IsDotted(parts) {
      forall i, j | 0 <= i < 16 && 0 <= j < |parts[i]| ensures '0' <= parts[i][j] <= '9' {
        assert IsOctetText(parts[i]);
        DecimalDigit(parts[i][j]);
      }
    }
  }

  /** The empty text is shown as a dash. A text without a colon that is not sixteen octets joined
      by dots, such as an IPv4 address, comes back unchanged. */
  lemma PlainTextUnchanged(ip: string, r: Outcome)
    requires IsCompressed(ip, r) && ':' !in ip && !SixteenOctets(ip)
    ensures r == Shown(if ip == "" then "-" else ip)
  {
    hide SixteenOctets, IsDotted, Split;
    DottedIsSixteen(ip);
  }

  /** The text has exactly one double colon to split at, from the left. */
  ghost predicate OnePair(ip: string, left: string, right: string) {
    ip == left + "::" + right && PairFree(left + ":") && PairFree(right)
  }

  function Colons(s: string): nat {
    if s == "" then 0 else Colons(s[1..]) + if s[0] == ':' then 1 else 0
  }

  /** The groups a side of the double colon holds. */
  function GroupCount(s: string): nat {
    if s == "" then 0 else Colons(s) + 1
  }

  lemma {:induction false} SplitCounts(s: string)
    ensures |Split(s, ':')| == Colons(s) + 1
  {
    if s != "" { SplitCounts(s[1..]); }
  }

  ghost predicate PairParts(parts: seq<string>) {
    && parts != [] && PairFree(parts[|parts| - 1])
    && forall i :: 0 <= i < |parts| - 1 ==> PairFree(parts[i] + ":")
  }

  lemma PairFreeCons(c: char, s: string)
    requires PairFree(s) && (s != "" ==> !(c == ':' && s[0] == ':'))
    ensures PairFree([c] + s)
  {
    var t := [c] + s;
    forall i | 0 <= i < |t| - 1 ensures !(t[i] == ':' && t[i + 1] == ':') {
      if i > 0 { assert t[i] == s[i - 1] && t[i + 1] == s[i]; }
    }
  }

  lemma {:induction false} SplitPairsParts(s: string)
    ensures Join(SplitPairs(s), "::") == s && PairParts(SplitPairs(s))
  {
    var parts := SplitPairs(s);
    if |s| < 2 {
    } else if s[0] == ':' && s[1] == ':' {
      var rest := SplitPairs(s[2..]);
      SplitPairsParts(s[2..]);
      assert parts == [""] + rest && s == "::" + s[2..];
      hide PairFree, PairParts, SplitPairs, Join;
      EmptyPart(s[2..], rest);
    } else {
      var rest := SplitPairs(s[1..]);
      SplitPairsParts(s[1..]);
      assert parts == [[s[0]] + rest[0]] + rest[1..];
      assert s == [s[0]] + s[1..];
      hide PairFree, PairParts, SplitPairs, Join;
      ConsPart(s[0], s[1..], rest);
    }
  }

  /** A pair at the front: an empty first part. */
  lemma EmptyPart(s: string, rest: seq<string>)
    requires rest != [] && Join(rest, "::") == s && PairParts(rest)
    ensures Join([""] + rest, "::") == "::" + s && PairParts([""] + rest)
  {
    var parts := [""] + rest;
    assert parts[1..] == rest;
    forall i | 0 <= i < |parts| - 1 ensures PairFree(parts[i] + ":") {
      if i > 0 { assert parts[i] == rest[i - 1]; }
    }
  }

  /** Putting a character before the first part, when that makes no new pair. */
  lemma ConsPart(c: char, s: string, rest: seq<string>)
    requires s != "" && Join(rest, "::") == s && PairParts(rest) && !(c == ':' && s[0] == ':')
    ensures var parts := [[c] + rest[0]] + rest[1..]; Join(parts, "::") == [c] + s && PairParts(parts)
  {
    var parts := [[c] + rest[0]] + rest[1..];
    assert parts[1..] == rest[1..];
    if |rest| == 1 {
      PairFreeCons(c, rest[0]);
      assert parts == [[c] + rest[0]];
    } else {
      var tail := Join(rest[1..], "::");
      assert s == rest[0] + "::" + tail;
      assert ([c] + rest[0]) + "::" + tail == [c] + s;
      assert (rest[0] + ":")[0] == s[0];
      PairFreeCons(c, rest[0] + ":");
      assert ([c] + rest[0]) + ":" == [c] + (rest[0] + ":");
      forall i | 0 <= i < |parts| - 1 ensures PairFree(parts[i] + ":") {
        if i > 0 { assert parts[i] == rest[i]; }
      }
    }
  }

  lemma PairFreeFront(s: string)
    requires PairFree(s + ":")
    ensures PairFree(s) && (s != "" ==> s[|s| - 1] != ':')
  {
    var t := s + ":";
    assert forall i :: 0 <= i < |s| ==> t[i] == s[i];
    assert t[|s|] == ':';
    if s != "" { assert t[|s| - 1] == s[|s| - 1]; }
  }

  /** Splitting gives two parts exactly around the one double colon. */
  lemma SplitsInTwo(ip: string)
    ensures |SplitPairs(ip)| == 2 ==> OnePair(ip, SplitPairs(ip)[0], SplitPairs(ip)[1])
    ensures forall left: string, right: string :: OnePair(ip, left, right) ==> SplitPairs(ip) == [left, right]
  {
    hide SplitPairs;
    SplitPairsParts(ip);
    var parts := SplitPairs(ip);
    if |parts| == 2 {
      assert Join(parts, "::") == parts[0] + "::" + Join(parts[1..], "::");
      assert parts[1..] == [parts[1]];
    }
    forall left: string, right: string | OnePair(ip, left, right) ensures SplitPairs(ip) == [left, right] {
      PairFreeFront(left);
      SplitAtPair(left, right);
    }
  }

  lemma {:induction false} JoinedOctets(octets: seq<string>)
    requires forall i :: 0 <= i < |octets| ==> IsOctetText(octets[i])
    ensures ':' !in Join(octets, ".")
  {
    if octets != [] {
      assert IsOctetText(octets[0]);
      forall j | 0 <= j < |octets[0]| ensures octets[0][j] != ':' { assert DigitValue(octets[0][j]) < 10; }
      JoinedOctets(octets[1..]);
    }
  }

  /** Around the one double colon, the reading is bad exactly when the groups are more than eight. */
  lemma TooManyGroups(ip: string, left: string, right: string)
    requires OnePair(ip, left, right)
    ensures Read(ip) == BadLength <==> GroupCount(left) + GroupCount(right) > 8
  {
    SplitsInTwo(ip);
    SplitCounts(left);
    SplitCounts(right);
    JoinSplit(ip, '.');
    assert ip[|left|] == ':';
    if IsDotted(Split(ip, '.')) { JoinedOctets(Split(ip, '.')); }
    hide Split, SplitPairs, Colons, NormalGroup, Join;
  }

  lemma BadIsOnePair(ip: string)
    requires Read(ip) == BadLength
    ensures OnePair(ip, SplitPairs(ip)[0], if |SplitPairs(ip)| == 2 then SplitPairs(ip)[1] else "")
  {
    SplitsInTwo(ip);
    hide Split, SplitPairs, NormalGroup, OnePair;
  }

  /** A text throws exactly when it has one double colon and more than eight groups around it. */
  lemma ThrowsIff(ip: string, r: Outcome)
    requires IsCompressed(ip, r)
    ensures r == Throws <==>
      exists left: string, right: string :: OnePair(ip, left, right) && GroupCount(left) + GroupCount(right) > 8
  {
    hide Read, OnePair, GroupCount, BestRun, Render, SplitPairs;
    if r == Throws {
      BadIsOnePair(ip);
      TooManyGroups(ip, SplitPairs(ip)[0], if |SplitPairs(ip)| == 2 then SplitPairs(ip)[1] else "");
    }
    if left: string, right: string :| OnePair(ip, left, right) && GroupCount(left) + GroupCount(right) > 8 {
      TooManyGroups(ip, left, right);
      PairNotEmpty(ip, left, right);
    }
  }

  lemma PairNotEmpty(ip: string, left: string, right: string)
    requires OnePair(ip, left, right)
    ensures ip != ""
  {
    assert ip[|left|] == ':';
  }

  /** Any other text with a colon is the groups between its colons, each for itself. */
  lemma ColonTextRead(ip: string, parts: seq<string>)
    requires |parts| >= 2 && ip == Join(parts, ":") && (forall i :: 0 <= i < |parts| ==> Free(parts[i], ':'))
    requires forall left: string, right: string :: !OnePair(ip, left, right)
    ensures Read(ip) == Groups(Normalised(parts))
  {
    hide SplitPairs, NormalGroup, OnePair;
    assert ip == parts[0] + ":" + Join(parts[1..], ":");
    assert ip[|parts[0]|] == ':';
    SplitsInTwo(ip);
    SplitJoin(parts, ':');
    JoinSplit(ip, '.');
    if IsDotted(Split(ip, '.')) { JoinedOctets(Split(ip, '.')); }
  }

  /** A group is read up to its first character that is no hexadecimal digit; with none, it is zero. */
  lemma GroupRead(digits: string, rest: string)
    requires AllDigits(digits, 16) && (rest != "" ==> DigitValue(rest[0]) >= 16) && !HexPrefix(digits + rest)
    requires digits == "" && rest != "" ==> !IsSpace(rest[0]) && rest[0] != '-' && rest[0] != '+'
    ensures NormalGroup(digits + rest) == if digits == "" then "0" else ToBase(FromDigits(digits, 16), 16)
  {
    hide ParseInt, ToBase, FromDigits, IsSpace;
    assert Spaces("");
    if digits == "" {
      ParseIntNone("", "", rest, 16);
      assert "" + "" + rest == digits + rest;
    } else {
      ParseIntReads("", "", digits, rest, 16);
      assert "" + "" + digits + rest == digits + rest;
    }
  }

  /** Section 4.1 and 4.3: a group has at most four characters, no leading zero unless it is zero,
      and no capital. */
  lemma GroupTextMinimal(g: Group)
    ensures var t := ToBase(g, 16);
      1 <= |t| <= 4 && (t[0] == '0' ==> t == "0") && forall i :: 0 <= i < |t| ==> !('A' <= t[i] <= 'F')
  {
    HexGroupsDenote([g]);
    assert HexGroups([g])[0] == ToBase(g, 16);
    ToBaseRoundTrip(g, 16);
    IsZeroText(g);
    LowerCase(g);
  }

  lemma {:induction false} LowerCase(n: nat)
    ensures forall i :: 0 <= i < |ToBase(n, 16)| ==> !('A' <= ToBase(n, 16)[i] <= 'F')
    decreases n
  {
    if n >= 16 {
      var q, r := DivMod(n, 16);
      ToBaseStep(n, 16, q, r);
      LowerCase(q);
      var head := ToBase(q, 16);
      assert forall i :: 0 <= i < |head| ==> (head + [Digit(r)])[i] == head[i];
    }
  }
}
