/** Strings as the front end's parsers and printers see them: splitting, joining,
    trimming, and numbers written in a base. */
module Text {

  datatype Option<+T> = None | Some(value: T)

  // ---------------------------------------------------------------- split, join

  /** `s.split(sep)` for a one-character separator. */
  function Split(s: string, sep: char): (parts: seq<string>)
    ensures |parts| >= 1
  {
    if s == "" then [""]
    else if s[0] == sep then [""] + Split(s[1..], sep)
    else
      var rest := Split(s[1..], sep);
      [[s[0]] + rest[0]] + rest[1..]
  }

  /** `parts.join(sep)`. */
  function Join(parts: seq<string>, sep: string): string {
    if |parts| == 0 then ""
    else if |parts| == 1 then parts[0]
    else parts[0] + sep + Join(parts[1..], sep)
  }

  predicate Free(s: string, sep: char) {
    forall i :: 0 <= i < |s| ==> s[i] != sep
  }

  /** Joining undoes splitting, and no part holds the separator. */
  lemma {:induction false} JoinSplit(s: string, sep: char)
    ensures Join(Split(s, sep), [sep]) == s && forall i :: 0 <= i < |Split(s, sep)| ==> Free(Split(s, sep)[i], sep)
  {
    if s != "" {
      var rest := Split(s[1..], sep);
      JoinSplit(s[1..], sep);
      if s[0] == sep {
        assert Split(s, sep)[1..] == rest;
        assert [] + [sep] + s[1..] == s;
      } else {
        var parts := Split(s, sep);
        assert parts[0] == [s[0]] + rest[0] && parts[1..] == rest[1..];
        assert [s[0]] + s[1..] == s;
        if |rest| > 1 {
          assert ([s[0]] + rest[0]) + [sep] + Join(rest[1..], [sep]) == [s[0]] + (rest[0] + [sep] + Join(rest[1..], [sep]));
        }
      }
    }
  }

  lemma {:induction false} SplitFree(s: string, sep: char)
    requires Free(s, sep)
    ensures Split(s, sep) == [s]
  {
    if s != "" {
      assert Free(s[1..], sep);
      SplitFree(s[1..], sep);
      assert [s[0]] + s[1..] == s;
    }
  }

  lemma {:induction false} SplitAtSeparator(head: string, sep: char, rest: string)
    requires Free(head, sep)
    ensures Split(head + [sep] + rest, sep) == [head] + Split(rest, sep)
  {
    var s := head + [sep] + rest;
    if head == "" {
      assert s[1..] == rest;
    } else {
      assert Free(head[1..], sep);
      assert s[1..] == head[1..] + [sep] + rest;
      SplitAtSeparator(head[1..], sep, rest);
      assert [head[0]] + head[1..] == head;
    }
  }

  /** Splitting undoes joining. */
  lemma {:induction false} SplitJoin(parts: seq<string>, sep: char)
    requires |parts| > 0
    requires forall i :: 0 <= i < |parts| ==> Free(parts[i], sep)
    ensures Split(Join(parts, [sep]), sep) == parts
  {
    if |parts| == 1 {
      SplitFree(parts[0], sep);
    } else {
      SplitJoin(parts[1..], sep);
      SplitAtSeparator(parts[0], sep, Join(parts[1..], [sep]));
    }
  }

  // ---------------------------------------------------------------- white space

  /** The characters `trim` and `parseInt` skip. */
  predicate IsSpace(c: char) {
    var n := c as int;
    9 <= n <= 13 || n == 32 || n == 0xa0 || n == 0x1680 || 0x2000 <= n <= 0x200a
    || n == 0x2028 || n == 0x2029 || n == 0x202f || n == 0x205f || n == 0x3000 || n == 0xfeff
  }

  function TrimLeft(s: string): string {
    if s != "" && IsSpace(s[0]) then TrimLeft(s[1..]) else s
  }

  function TrimRight(s: string): string {
    if s != "" && IsSpace(s[|s| - 1]) then TrimRight(s[..|s| - 1]) else s
  }

  function Trim(s: string): string {
    TrimRight(TrimLeft(s))
  }

  predicate Spaces(s: string) {
    forall i :: 0 <= i < |s| ==> IsSpace(s[i])
  }

  /** A text without white space at its ends. */
  predicate Tight(s: string) {
    s == "" || (!IsSpace(s[0]) && !IsSpace(s[|s| - 1]))
  }

  /** The white space of the language, by code: tab to carriage return, space, no-break space and
      byte-order mark, the line and paragraph separators, and the space separators. */
  lemma SpaceCodes(c: char)
    ensures IsSpace(c) <==>
      c as int in {9, 10, 11, 12, 13, 32, 160, 5760, 8192, 8193, 8194, 8195, 8196, 8197, 8198, 8199, 8200, 8201, 8202, 8232, 8233, 8239, 8287, 12288, 65279}
  {
  }

  lemma {:induction false} TrimLeftParts(s: string) returns (w: string)
    ensures s == w + TrimLeft(s) && Spaces(w) && (TrimLeft(s) != "" ==> !IsSpace(TrimLeft(s)[0]))
  {
    w := "";
    if s != "" && IsSpace(s[0]) {
      var v := TrimLeftParts(s[1..]);
      w := [s[0]] + v;
      assert s == [s[0]] + s[1..];
      assert w + TrimLeft(s) == [s[0]] + (v + TrimLeft(s[1..]));
    }
  }

  lemma {:induction false} TrimRightParts(s: string) returns (w: string)
    ensures s == TrimRight(s) + w && Spaces(w) && (TrimRight(s) != "" ==> !IsSpace(TrimRight(s)[|TrimRight(s)| - 1]))
  {
    w := "";
    if s != "" && IsSpace(s[|s| - 1]) {
      var n := |s| - 1;
      var v := TrimRightParts(s[..n]);
      w := v + [s[n]];
      assert s == s[..n] + [s[n]];
      assert TrimRight(s) + w == (TrimRight(s[..n]) + v) + [s[n]];
    }
  }

  /** Trimming takes white space off both ends, all of it, and nothing else. */
  lemma TrimParts(s: string) returns (before: string, after: string)
    ensures s == before + Trim(s) + after && Spaces(before) && Spaces(after) && Tight(Trim(s))
  {
    var t := TrimLeft(s);
    before := TrimLeftParts(s);
    after := TrimRightParts(t);
    assert before + (TrimRight(t) + after) == before + TrimRight(t) + after;
    if TrimRight(t) != "" { assert TrimRight(t)[0] == t[0]; }
  }

  /** Only the trimmed text fits that description. */
  lemma TrimUnique(before: string, t: string, after: string)
    requires Spaces(before) && Spaces(after) && Tight(t)
    ensures Trim(before + t + after) == t
  {
    hide IsSpace;
    if t == "" {
      assert Spaces(before + t + after);
      TrimSpaces(before + t + after);
    } else {
      TrimLeftOver(before, t + after);
      assert before + (t + after) == before + t + after;
      TrimRightOver(t, after);
    }
  }

  lemma {:induction false} TrimSpaces(s: string)
    requires Spaces(s)
    ensures TrimLeft(s) == "" && Trim(s) == ""
  {
    if s != "" { TrimSpaces(s[1..]); }
  }

  lemma {:induction false} TrimLeftOver(w: string, s: string)
    requires Spaces(w) && s != "" && !IsSpace(s[0])
    ensures TrimLeft(w + s) == s
  {
    if w == "" {
      assert w + s == s;
    } else {
      assert (w + s)[1..] == w[1..] + s;
      TrimLeftOver(w[1..], s);
    }
  }

  lemma {:induction false} TrimRightOver(s: string, w: string)
    requires Spaces(w) && s != "" && !IsSpace(s[|s| - 1])
    ensures TrimRight(s + w) == s
  {
    if w == "" {
      assert s + w == s;
    } else {
      assert (s + w)[..|s + w| - 1] == s + w[..|w| - 1];
      TrimRightOver(s, w[..|w| - 1]);
    }
  }

  lemma TrimTight(s: string)
    requires s != "" && !IsSpace(s[0]) && !IsSpace(s[|s| - 1])
    ensures Trim(s) == s
  {
  }

  // ---------------------------------------------------------------- digits

  function Digit(d: nat): char
    requires d < 16
  {
    "0123456789abcdef"[d]
  }

  /** Digit value in any base up to 16; 16 stands for "not a digit". */
  function DigitValue(c: char): (v: nat)
    ensures v <= 16
  {
    if '0' <= c <= '9' then c as int - '0' as int
    else if 'a' <= c <= 'f' then c as int - 'a' as int + 10
    else if 'A' <= c <= 'F' then c as int - 'A' as int + 10
    else 16
  }

  predicate AllDigits(s: string, b: nat) {
    forall i :: 0 <= i < |s| ==> DigitValue(s[i]) < b
  }

  /** The number a digit string denotes. */
  function FromDigits(s: string, b: nat): nat {
    if s == "" then 0 else FromDigits(s[..|s| - 1], b) * b + DigitValue(s[|s| - 1])
  }

  /** `n.toString(b)`: lower case, no leading zeros. */
  function ToBase(n: nat, b: nat): (s: string)
    requires 2 <= b <= 16
    ensures s != ""
  {
    if n < b then [Digit(n)]
    else
      assert n / b < n by { DivShrinks(n, b); }
      ToBase(n / b, b) + [Digit(n % b)]
  }

  lemma DivShrinks(n: nat, b: nat)
    requires 2 <= b <= n
    ensures n / b < n
  {
    assert n == (n / b) * b + n % b;
    MulMono(2, b, n / b);
  }

  lemma MulMono(x: nat, y: nat, k: nat)
    ensures x <= y ==> x * k <= y * k
  {
    if x <= y {
      assert y * k - x * k == (y - x) * k;
    }
  }

  /** One more digit on the right multiplies by the base and adds. */
  lemma AppendDigit(s: string, c: char, b: nat)
    ensures FromDigits(s + [c], b) == FromDigits(s, b) * b + DigitValue(c)
    ensures AllDigits(s, b) && DigitValue(c) < b ==> AllDigits(s + [c], b)
  {
    assert (s + [c])[..|s|] == s;
  }

  lemma DivMod(n: nat, b: nat) returns (q: nat, r: nat)
    requires 2 <= b <= n
    ensures q == n / b && r == n % b && r < b && 0 < q < n && q * b + r == n
  {
    q, r := n / b, n % b;
    DivShrinks(n, b);
  }

  lemma ToBaseStep(n: nat, b: nat, q: nat, r: nat)
    requires 2 <= b <= 16 && b <= n && q == n / b && r == n % b
    ensures ToBase(n, b) == ToBase(q, b) + [Digit(r)]
  {
  }

  lemma DigitRoundTrip(d: nat)
    requires d < 16
    ensures DigitValue(Digit(d)) == d && (Digit(d) == '0' <==> d == 0)
  {
  }

  /** Printing in a base and reading back. */
  lemma {:induction false} ToBaseRoundTrip(n: nat, b: nat)
    requires 2 <= b <= 16
    ensures AllDigits(ToBase(n, b), b) && FromDigits(ToBase(n, b), b) == n
    ensures ToBase(n, b)[0] == '0' <==> n == 0
    decreases n
  {
    if n < b {
      DigitRoundTrip(n);
      AppendDigit("", Digit(n), b);
      assert "" + [Digit(n)] == ToBase(n, b);
    } else {
      var q, r := DivMod(n, b);
      ToBaseRoundTrip(q, b);
      ToBaseStep(n, b, q, r);
      DigitRoundTrip(r);
      hide *;
      AppendDigit(ToBase(q, b), Digit(r), b);
    }
  }

  /** b^k. */
  function Power(b: nat, k: nat): nat {
    if k == 0 then 1 else Power(b, k - 1) * b
  }

  lemma BoundStep(x: nat, y: nat, b: nat, d: nat)
    requires x < y && d < b
    ensures x * b + d < y * b
  {
    MulMono(x + 1, y, b);
  }

  /** Every digit string of length k denotes a number below b^k. */
  lemma {:induction false} FromDigitsBound(s: string, b: nat)
    requires AllDigits(s, b)
    ensures FromDigits(s, b) < Power(b, |s|)
  {
    if s != "" {
      var h := s[..|s| - 1];
      FromDigitsBound(h, b);
      BoundStep(FromDigits(h, b), Power(b, |h|), b, DigitValue(s[|s| - 1]));
    }
  }

  lemma QuotientBelow(q: nat, r: nat, b: nat, p: nat)
    requires q * b + r < p * b
    ensures q < p
  {
    MulMono(p, q, b);
  }

  lemma PowerOne(b: nat)
    ensures Power(b, 1) == b
  {
    assert Power(b, 1) == Power(b, 0) * b;
  }

  /** A number below b^k needs at most k digits. */
  lemma {:induction false} ToBaseLength(n: nat, b: nat, k: nat)
    requires 2 <= b <= 16 && 1 <= k && n < Power(b, k)
    ensures |ToBase(n, b)| <= k
    decreases n
  {
    if n >= b {
      var q, r := DivMod(n, b);
      ToBaseStep(n, b, q, r);
      PowerOne(b);
      assert Power(b, k) == Power(b, k - 1) * b;
      hide *;
      QuotientBelow(q, r, b, Power(b, k - 1));
      ToBaseLength(q, b, k - 1);
    }
  }

  function Zeros(k: nat): (s: string)
    ensures |s| == k && forall i :: 0 <= i < k ==> s[i] == '0'
  {
    if k == 0 then "" else Zeros(k - 1) + "0"
  }

  lemma ZeroTimes(x: nat, b: nat)
    requires x == 0
    ensures x * b == 0
  {
  }

  lemma {:induction false} ZerosAreZero(k: nat, b: nat)
    ensures FromDigits(Zeros(k), b) == 0
  {
    if k > 0 {
      assert Zeros(k) == Zeros(k - 1) + ['0'] && DigitValue('0') == 0;
      hide *;
      ZerosAreZero(k - 1, b);
      AppendDigit(Zeros(k - 1), '0', b);
      ZeroTimes(FromDigits(Zeros(k - 1), b), b);
    }
  }

  /** Leading zeros change nothing. */
  lemma {:induction false} LeadingZeros(k: nat, s: string, b: nat)
    ensures FromDigits(Zeros(k) + s, b) == FromDigits(s, b)
    decreases |s|
  {
    if s == "" {
      ZerosAreZero(k, b);
      assert Zeros(k) + s == Zeros(k);
    } else {
      hide *;
      var head, last := s[..|s| - 1], s[|s| - 1];
      LeadingZeros(k, head, b);
      AppendDigit(head, last, b);
      AppendDigit(Zeros(k) + head, last, b);
      assert head + [last] == s && (Zeros(k) + head) + [last] == Zeros(k) + s;
    }
  }

  // ---------------------------------------------------------------- parseInt

  /** Length of the longest prefix made of base-b digits. */
  function DigitPrefix(s: string, b: nat): (k: nat)
    ensures k <= |s| && AllDigits(s[..k], b)
    ensures k < |s| ==> DigitValue(s[k]) >= b
  {
    if s == "" || DigitValue(s[0]) >= b then 0
    else
      var k := 1 + DigitPrefix(s[1..], b);
      assert s[..k] == [s[0]] + s[1..][..k - 1];
      k
  }

  /** `parseInt(s, b)`: white space, sign and (in base 16) `0x` are skipped, then the
      longest run of digits is read. None stands for NaN. */
  function ParseInt(s: string, b: nat): Option<int> {
    var t := TrimLeft(s);
    var negative := t != "" && t[0] == '-';
    var u := if t != "" && (t[0] == '-' || t[0] == '+') then t[1..] else t;
    var v := if b == 16 && |u| >= 2 && u[0] == '0' && (u[1] == 'x' || u[1] == 'X') then u[2..] else u;
    var k := DigitPrefix(v, b);
    if k == 0 then None
    else
      var n: int := FromDigits(v[..k], b);
      Some(if negative then -n else n)
  }

  predicate HexPrefix(s: string) {
    |s| >= 2 && s[0] == '0' && (s[1] == 'x' || s[1] == 'X')
  }

  /** `parseInt` past white space and a sign: the digits up to the first other character. */
  lemma ParseIntReads(before: string, sign: string, digits: string, rest: string, b: nat)
    requires Spaces(before) && (sign == "" || sign == "-" || sign == "+") && 2 <= b <= 16
    requires digits != "" && AllDigits(digits, b) && (rest != "" ==> DigitValue(rest[0]) >= b)
    requires b == 16 ==> !HexPrefix(digits + rest)
    ensures ParseInt(before + sign + digits + rest, b) == Some(if sign == "-" then -(FromDigits(digits, b) as int) else FromDigits(digits, b))
  {
    hide *;
    DigitPrefixOf(digits, rest, b);
    SignedStart(sign, digits, rest, b);
    ParseIntOver(before, sign, digits + rest, |digits|, b);
    Front(digits, rest);
    Regroup(before, sign, digits, rest);
  }

  lemma Front(a: string, b: string)
    ensures (a + b)[..|a|] == a
  {
  }

  lemma ParseIntOver(before: string, sign: string, v: string, k: nat, b: nat)
    requires Spaces(before) && (sign == "" || sign == "-" || sign == "+") && 2 <= b <= 16
    requires v != "" && v[0] != '-' && v[0] != '+' && sign + v != "" && !IsSpace((sign + v)[0])
    requires DigitPrefix(v, b) == k > 0 && (b == 16 ==> !HexPrefix(v))
    ensures k <= |v| && ParseInt(before + (sign + v), b) == Some(if sign == "-" then -(FromDigits(v[..k], b) as int) else FromDigits(v[..k], b))
  {
    hide *;
    TrimLeftOver(before, sign + v);
    ParseIntTail(before + (sign + v), sign, v, k, b);
  }

  lemma Regroup(a: string, b: string, c: string, d: string)
    ensures a + b + c + d == a + (b + (c + d))
  {
  }

  /** A signed number begins with neither white space nor, after its sign, another sign. */
  lemma SignedStart(sign: string, digits: string, rest: string, b: nat)
    requires (sign == "" || sign == "-" || sign == "+") && digits != "" && AllDigits(digits, b) && b <= 16
    ensures var v := digits + rest; v[0] != '-' && v[0] != '+' && sign + v != "" && !IsSpace((sign + v)[0])
  {
    var v := digits + rest;
    NumberStart(digits[0]);
    hide IsSpace, DigitValue;
    assert (sign + v)[0] == if sign == "" then digits[0] else sign[0];
  }

  lemma ParseIntTail(s: string, sign: string, v: string, k: nat, b: nat)
    requires TrimLeft(s) == sign + v && (sign == "" || sign == "-" || sign == "+") && 2 <= b <= 16 && (b == 16 ==> !HexPrefix(v))
    requires v != "" && v[0] != '-' && v[0] != '+' && DigitPrefix(v, b) == k > 0
    ensures k <= |v| && ParseInt(s, b) == Some(if sign == "-" then -(FromDigits(v[..k], b) as int) else FromDigits(v[..k], b))
  {
    hide TrimLeft, DigitPrefix, FromDigits;
    assert (sign + v)[0] == if sign == "" then v[0] else sign[0];
    assert (if sign == "" then sign + v else (sign + v)[1..]) == v;
  }

  lemma NumberStart(c: char)
    ensures DigitValue(c) < 16 ==> !IsSpace(c) && c != '-' && c != '+'
    ensures !IsSpace('-') && !IsSpace('+')
  {
  }

  lemma DigitPrefixOf(digits: string, rest: string, b: nat)
    requires AllDigits(digits, b) && (rest != "" ==> DigitValue(rest[0]) >= b)
    ensures DigitPrefix(digits + rest, b) == |digits|
  {
    var v := digits + rest;
    var k := DigitPrefix(v, b);
    forall i | 0 <= i < k ensures DigitValue(v[i]) < b { assert v[..k][i] == v[i]; }
    assert forall i :: 0 <= i < |digits| ==> v[i] == digits[i];
    assert rest != "" ==> v[|digits|] == rest[0];
  }

  /** No digit after the white space and the sign: not a number. */
  lemma ParseIntNone(before: string, sign: string, rest: string, b: nat)
    requires Spaces(before) && (sign == "" || sign == "-" || sign == "+") && 2 <= b <= 16
    requires rest != "" ==> DigitValue(rest[0]) >= b && !IsSpace(rest[0]) && (sign == "" ==> rest[0] != '-' && rest[0] != '+')
    ensures ParseInt(before + sign + rest, b) == None
  {
    var s := before + sign + rest;
    assert s == before + (sign + rest);
    if sign + rest == "" {
      assert s == before;
      TrimSpaces(s);
    } else {
      TrimLeftOver(before, sign + rest);
      assert sign != "" ==> (sign + rest)[1..] == rest;
      assert sign == "" ==> sign + rest == rest;
      DigitPrefixOf("", rest, b);
      assert "" + rest == rest;
    }
  }

  lemma ParseIntDigits(s: string, b: nat)
    requires s != "" && b <= 16 && AllDigits(s, b)
    ensures ParseInt(s, b) == Some(FromDigits(s, b))
  {
    assert DigitValue(s[0]) < 16;
    assert !IsSpace(s[0]) && s[0] != '-' && s[0] != '+';
    assert |s| >= 2 ==> DigitValue(s[1]) < 16;
    assert TrimLeft(s) == s;
    var k := DigitPrefix(s, b);
    assert k == |s|;
    assert s[..k] == s;
  }
}
