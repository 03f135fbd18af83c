/** The language-pack archive: a ustar writer, and a reader after POSIX.1-2017, the pax utility,
    "ustar Interchange Format", that takes its archives apart again. */
module UstarArchive {
  import opened Text

  type Byte = b: int | 0 <= b < 256
  datatype Member = Member(name: seq<Byte>, content: seq<Byte>)

  const BLOCK := 512

  // ---------------------------------------------------------------- octal fields

  predicate Ascii(s: string) {
    forall i :: 0 <= i < |s| ==> s[i] as int < 128
  }

  function BytesOf(s: string): (r: seq<Byte>)
    requires Ascii(s)
    ensures |r| == |s| && forall i :: 0 <= i < |s| ==> r[i] == s[i] as int
  {
    seq(|s|, i requires 0 <= i < |s| => s[i] as int)
  }

  function PadStart(s: string, width: nat): (r: string)
    ensures |r| == if |s| >= width then |s| else width
  {
    if |s| >= width then s else Zeros(width - |s|) + s
  }

  /** `val.toString(8).padStart(width, "0").slice(-width)`. */
  function OctalDigits(val: nat, width: nat): (r: string)
    ensures |r| == width
  {
    var p := PadStart(ToBase(val, 8), width);
    p[|p| - width..]
  }

  lemma {:induction false} FromDigitsConcat(s: string, t: string, b: nat)
    ensures FromDigits(s + t, b) == FromDigits(s, b) * Power(b, |t|) + FromDigits(t, b)
  {
    if t == "" {
      assert s + t == s;
    } else {
      var n := |t| - 1;
      FromDigitsConcat(s, t[..n], b);
      assert (s + t)[..|s + t| - 1] == s + t[..n];
      Distribute(FromDigits(s, b), Power(b, n), FromDigits(t[..n], b), b);
    }
  }

  lemma Distribute(x: nat, p: nat, y: nat, b: nat)
    ensures (x * p + y) * b == x * (p * b) + y * b
  {
  }

  lemma {:induction false} PowerPositive(b: nat, k: nat)
    requires b > 0
    ensures Power(b, k) > 0
  {
    if k > 0 {
      PowerPositive(b, k - 1);
      MulMono(1, Power(b, k - 1), b);
    }
  }

  lemma ModOf(n: nat, q: nat, m: nat, r: nat)
    requires m > 0 && n == q * m + r && r < m
    ensures n % m == r
  {
    var q', r' := n / m, n % m;
    assert (q' - q) * m == r - r' && (q - q') * m == r' - r;
    if q' > q { MulMono(1, q' - q, m); }
    if q > q' { MulMono(1, q - q', m); }
  }

  lemma SliceDigits(s: string, from: nat, to: nat, b: nat)
    requires from <= to <= |s| && AllDigits(s, b)
    ensures AllDigits(s[from..to], b)
  {
  }

  /** A field keeps the value modulo the power of eight that it has room for. */
  lemma OctalDigitsValue(val: nat, width: nat)
    ensures AllDigits(OctalDigits(val, width), 8)
    ensures Power(8, width) > 0 && FromDigits(OctalDigits(val, width), 8) == val % Power(8, width)
  {
    hide ToBase, FromDigits, Power;
    var t := ToBase(val, 8);
    ToBaseRoundTrip(val, 8);
    var p := PadStart(t, width);
    if |t| < width { LeadingZeros(width - |t|, t, 8); }
    assert AllDigits(p, 8) && FromDigits(p, 8) == val;
    var k := |p| - width;
    assert p == p[..k] + p[k..];
    FromDigitsConcat(p[..k], p[k..], 8);
    SliceDigits(p, k, |p|, 8);
    assert p[k..] == p[k..|p|];
    FromDigitsBound(p[k..], 8);
    PowerPositive(8, width);
    ModOf(val, FromDigits(p[..k], 8), Power(8, width), FromDigits(p[k..], 8));
  }

  lemma OctalAscii(val: nat, width: nat)
    ensures Ascii(OctalDigits(val, width))
  {
    OctalDigitsValue(val, width);
    var s := OctalDigits(val, width);
    forall i | 0 <= i < |s| ensures s[i] as int < 128 { assert DigitValue(s[i]) < 8; }
  }

  /** `len - 1` octal digits and a NUL. */
  function OctalField(val: nat, len: nat): (r: seq<Byte>)
    requires len >= 1
    ensures |r| == len
  {
    OctalAscii(val, len - 1);
    BytesOf(OctalDigits(val, len - 1)) + [0]
  }

  /** Six octal digits, a NUL and a space. */
  function ChecksumField(sum: nat): (r: seq<Byte>)
    ensures |r| == 8
  {
    OctalAscii(sum, 6);
    BytesOf(OctalDigits(sum, 6)) + [0, 32]
  }

  // ---------------------------------------------------------------- the header

  const SPACES: seq<Byte> := [32, 32, 32, 32, 32, 32, 32, 32]
  const MAGIC: seq<Byte> := [117, 115, 116, 97, 114, 0]
  const VERSION: seq<Byte> := [48, 48]

  /** The byte of a header at an offset, given its checksum field. */
  function HeaderAt(name: seq<Byte>, size: nat, chksum: seq<Byte>, i: nat): Byte
    requires |chksum| == 8
  {
    if i < 100 then (if i < |name| then name[i] else 0)
    else if i < 108 then OctalField(420, 8)[i - 100]
    else if i < 116 then OctalField(0, 8)[i - 108]
    else if i < 124 then OctalField(0, 8)[i - 116]
    else if i < 136 then OctalField(size, 12)[i - 124]
    else if i < 148 then OctalField(0, 12)[i - 136]
    else if i < 156 then chksum[i - 148]
    else if i == 156 then 48
    else if 257 <= i < 263 then MAGIC[i - 257]
    else if 263 <= i < 265 then VERSION[i - 263]
    else 0
  }

  function HeaderWith(name: seq<Byte>, size: nat, chksum: seq<Byte>): (h: seq<Byte>)
    requires |chksum| == 8
    ensures |h| == BLOCK && forall i :: 0 <= i < BLOCK ==> h[i] == HeaderAt(name, size, chksum, i)
  {
    seq(BLOCK, i requires 0 <= i < BLOCK => HeaderAt(name, size, chksum, i))
  }

  function SumBytes(s: seq<Byte>): nat {
    if s == [] then 0 else SumBytes(s[..|s| - 1]) + s[|s| - 1]
  }

  /** The header whose checksum field holds the sum taken with that field blank. */
  function Header(name: seq<Byte>, size: nat): (h: seq<Byte>)
    ensures |h| == BLOCK
  {
    HeaderWith(name, size, ChecksumField(SumBytes(HeaderWith(name, size, SPACES))))
  }

  /** Writes a field into the buffer and touches nothing else. */
  method WriteBytes(buf: array<Byte>, off: nat, bytes: seq<Byte>)
    requires off + |bytes| <= buf.Length
    modifies buf
    ensures forall i :: 0 <= i < buf.Length ==> buf[i] == if off <= i < off + |bytes| then bytes[i - off] else old(buf[i])
  {
    for k := 0 to |bytes|
      invariant forall i :: 0 <= i < buf.Length ==> buf[i] == if off <= i < off + k then bytes[i - off] else old(buf[i])
    {
      buf[off + k] := bytes[k];
    }
  }

  method WriteOctal(buf: array<Byte>, off: nat, val: nat, len: nat)
    requires len >= 1 && off + len <= buf.Length
    modifies buf
    ensures forall i :: 0 <= i < buf.Length ==> buf[i] == if off <= i < off + len then OctalField(val, len)[i - off] else old(buf[i])
  {
    OctalAscii(val, len - 1);
    var s := OctalDigits(val, len - 1);
    WriteBytes(buf, off, BytesOf(s) + [0]);
  }

  /** Every field but the checksum, with the checksum field blank. */
  method WriteFields(h: array<Byte>, name: seq<Byte>, size: nat)
    requires h.Length == BLOCK && forall i :: 0 <= i < BLOCK ==> h[i] == 0
    modifies h
    ensures h[..] == HeaderWith(name, size, SPACES)
  {
    hide OctalField;
    WriteBytes(h, 0, if |name| <= 100 then name else name[..100]);
    WriteOctal(h, 100, 420, 8);
    WriteOctal(h, 108, 0, 8);
    WriteOctal(h, 116, 0, 8);
    WriteOctal(h, 124, size, 12);
    WriteOctal(h, 136, 0, 12);
    WriteBytes(h, 148, SPACES);
    WriteBytes(h, 156, [48]);
    WriteBytes(h, 257, MAGIC);
    WriteBytes(h, 263, VERSION);
    assert forall i :: 0 <= i < BLOCK ==> h[i] == HeaderAt(name, size, SPACES, i);
  }

  lemma BlankToSum(name: seq<Byte>, size: nat, chksum: seq<Byte>, h: seq<Byte>)
    requires |chksum| == 8 && |h| == BLOCK
    requires forall i :: 0 <= i < BLOCK ==>
      h[i] == if 148 <= i < 156 then chksum[i - 148] else HeaderWith(name, size, SPACES)[i]
    ensures h == HeaderWith(name, size, chksum)
  {
    hide OctalField;
  }

  method TarHeader(name: seq<Byte>, size: nat) returns (h: array<Byte>)
    ensures fresh(h) && h[..] == Header(name, size)
  {
    h := new Byte[BLOCK](_ => 0);
    WriteFields(h, name, size);
    ghost var blank := h[..];
    var sum: nat := 0;
    for i := 0 to BLOCK
      invariant h[..] == blank && sum == SumBytes(blank[..i])
    {
      assert blank[..i + 1][..i] == blank[..i];
      sum := sum + h[i];
    }
    assert blank[..BLOCK] == blank;
    var chksum := ChecksumField(sum);
    WriteBytes(h, 148, chksum);
    BlankToSum(name, size, chksum, h[..]);
  }

  // ---------------------------------------------------------------- the archive

  function ZeroBytes(n: nat): (r: seq<Byte>)
    ensures |r| == n && forall i :: 0 <= i < n ==> r[i] == 0
  {
    seq(n, _ => 0)
  }

  /** Bytes to the next block boundary. */
  function PadLength(n: nat): (p: nat)
    ensures p < BLOCK && (n + p) % BLOCK == 0
  {
    (BLOCK - n % BLOCK) % BLOCK
  }

  /** Header, content and padding of one member. */
  function MemberBytes(m: Member): seq<Byte> {
    Header(m.name, |m.content|) + m.content + ZeroBytes(PadLength(|m.content|))
  }

  function Archive(members: seq<Member>): seq<Byte> {
    if members == [] then ZeroBytes(1024) else MemberBytes(members[0]) + Archive(members[1..])
  }

  lemma ConcatAssoc(a: seq<Byte>, b: seq<Byte>, c: seq<Byte>)
    ensures (a + b) + c == a + (b + c)
  {
  }

  method MakeTar(members: seq<Member>) returns (out: seq<Byte>)
    ensures out == Archive(members)
  {
    hide Header, PadLength;
    out := [];
    for i := 0 to |members|
      invariant out + Archive(members[i..]) == Archive(members)
    {
      var m := members[i];
      assert members[i..][1..] == members[i + 1..];
      ghost var before := out;
      var h := TarHeader(m.name, |m.content|);
      out := out + h[..];
      out := out + m.content;
      var pad := PadLength(|m.content|);
      if pad > 0 { out := out + ZeroBytes(pad); }
      assert out == before + MemberBytes(m);
      ConcatAssoc(before, MemberBytes(m), Archive(members[i + 1..]));
    }
    out := out + ZeroBytes(1024);
  }

  // ---------------------------------------------------------------- the reader

  /** Octal digits up to a NUL or a space. */
  function ReadOctal(field: seq<Byte>): Option<nat> {
    var digits := UpTo(field, true);
    if forall i :: 0 <= i < |digits| ==> 48 <= digits[i] < 56 then Some(OctalNumber(digits)) else None
  }

  function OctalNumber(digits: seq<Byte>): nat
    requires forall i :: 0 <= i < |digits| ==> 48 <= digits[i] < 56
  {
    if digits == [] then 0 else OctalNumber(digits[..|digits| - 1]) * 8 + (digits[|digits| - 1] - 48)
  }

  /** The bytes before the first NUL, or also before the first space. */
  function UpTo(s: seq<Byte>, spaces: bool): seq<Byte> {
    if s == [] || s[0] == 0 || (spaces && s[0] == 32) then [] else [s[0]] + UpTo(s[1..], spaces)
  }

  /** The checksum of a header: the sum of its bytes, its own field counted as spaces. */
  function ByteSum(h: seq<Byte>, n: nat): nat
    requires n <= |h|
  {
    if n == 0 then 0 else ByteSum(h, n - 1) + if 148 <= n - 1 < 156 then 32 else h[n - 1]
  }

  datatype Entry = Entry(name: seq<Byte>, size: nat, mode: nat, uid: nat, gid: nat, mtime: nat)

  /** A regular file's header: magic, version, type and checksum must be right. */
  function ReadHeader(h: seq<Byte>): Option<Entry>
    requires |h| == BLOCK
  {
    var size, mode := ReadOctal(h[124..136]), ReadOctal(h[100..108]);
    var uid, gid, mtime := ReadOctal(h[108..116]), ReadOctal(h[116..124]), ReadOctal(h[136..148]);
    if h[257..263] == [117, 115, 116, 97, 114, 0] && h[263..265] == [48, 48] && h[156] == 48
       && ReadOctal(h[148..156]) == Some(ByteSum(h, BLOCK))
       && size.Some? && mode.Some? && uid.Some? && gid.Some? && mtime.Some? then
      var prefix, name := UpTo(h[345..500], false), UpTo(h[..100], false);
      Some(Entry(if prefix == [] then name else prefix + [47] + name, size.value, mode.value, uid.value, gid.value, mtime.value))
    else None
  }

  predicate AllZero(s: seq<Byte>) {
    forall i :: 0 <= i < |s| ==> s[i] == 0
  }

  /** Members up to the two zero blocks that end an archive; None on anything malformed. */
  function ReadArchive(bytes: seq<Byte>): Option<seq<Member>> {
    if |bytes| >= 1024 && AllZero(bytes[..1024]) then Some([])
    else if |bytes| < BLOCK then None
    else
      match ReadHeader(bytes[..BLOCK])
      case None => None
      case Some(e) =>
        var end := BLOCK + e.size + PadLength(e.size);
        if |bytes| < end then None
        else
          match ReadArchive(bytes[end..])
          case None => None
          case Some(rest) => Some([Member(e.name, bytes[BLOCK..BLOCK + e.size])] + rest)
  }

  // ---------------------------------------------------------------- reading fields back

  lemma {:induction false} UpToStops(s: seq<Byte>, stop: Byte, rest: seq<Byte>, spaces: bool)
    requires forall i :: 0 <= i < |s| ==> s[i] != 0 && (spaces ==> s[i] != 32)
    requires stop == 0
    ensures UpTo(s + [stop] + rest, spaces) == s
  {
    if s != [] {
      assert (s + [stop] + rest)[1..] == s[1..] + [stop] + rest;
      UpToStops(s[1..], stop, rest, spaces);
      assert [s[0]] + s[1..] == s;
    } else {
      assert (s + [stop] + rest)[0] == 0;
    }
  }

  lemma {:induction false} OctalNumberOf(s: string)
    requires AllDigits(s, 8) && Ascii(s)
    ensures forall i :: 0 <= i < |s| ==> 48 <= BytesOf(s)[i] < 56
    ensures OctalNumber(BytesOf(s)) == FromDigits(s, 8)
  {
    forall i | 0 <= i < |s| ensures s[i] as int == DigitValue(s[i]) + 48 { assert DigitValue(s[i]) < 8; }
    if s != "" {
      var n := |s| - 1;
      OctalNumberOf(s[..n]);
      assert BytesOf(s)[..n] == BytesOf(s[..n]);
    }
  }

  /** A digit field ended by a NUL reads as the value modulo its room. */
  lemma ReadDigits(val: nat, width: nat, rest: seq<Byte>)
    requires Ascii(OctalDigits(val, width))
    ensures Power(8, width) > 0
    ensures ReadOctal(BytesOf(OctalDigits(val, width)) + [0] + rest) == Some(val % Power(8, width))
  {
    hide OctalDigits, Power, FromDigits, UpTo;
    var s := OctalDigits(val, width);
    OctalDigitsValue(val, width);
    OctalNumberOf(s);
    UpToStops(BytesOf(s), 0, rest, true);
  }

  /** A field is octal digits ended by a NUL, and reads back as the value modulo its room. */
  lemma OctalFieldReads(val: nat, len: nat)
    requires len >= 1
    ensures Power(8, len - 1) > 0 && ReadOctal(OctalField(val, len)) == Some(val % Power(8, len - 1))
    ensures OctalField(val, len)[len - 1] == 0 && forall i :: 0 <= i < len - 1 ==> 48 <= OctalField(val, len)[i] <= 55
  {
    hide ReadOctal, Power, OctalDigits;
    OctalAscii(val, len - 1);
    ReadDigits(val, len - 1, []);
    OctalDigitsValue(val, len - 1);
    OctalNumberOf(OctalDigits(val, len - 1));
    assert BytesOf(OctalDigits(val, len - 1)) + [0] + [] == OctalField(val, len);
  }

  lemma {:induction false} SumIsByteSum(blank: seq<Byte>, h: seq<Byte>, n: nat)
    requires |blank| == |h| && n <= |h|
    requires forall i :: 0 <= i < |h| ==> blank[i] == if 148 <= i < 156 then 32 else h[i]
    ensures SumBytes(blank[..n]) == ByteSum(h, n)
  {
    if n > 0 {
      SumIsByteSum(blank, h, n - 1);
      assert blank[..n][..n - 1] == blank[..n - 1];
    }
  }

  lemma {:induction false} SumBound(s: seq<Byte>)
    ensures SumBytes(s) <= 255 * |s|
  {
    if s != [] { SumBound(s[..|s| - 1]); }
  }

  lemma ChecksumReads(sum: nat)
    requires sum <= 255 * BLOCK
    ensures ReadOctal(ChecksumField(sum)) == Some(sum)
  {
    hide ReadOctal, OctalDigits;
    OctalAscii(sum, 6);
    ReadDigits(sum, 6, [32]);
    assert BytesOf(OctalDigits(sum, 6)) + [0] + [32] == ChecksumField(sum);
    PowersOfEight();
  }

  lemma PowersOfEight()
    ensures Power(8, 6) == 0x40000 && Power(8, 7) == 0x200000 && Power(8, 11) == 0x2_0000_0000
  {
    assert Power(8, 1) == 8 && Power(8, 2) == 64 && Power(8, 3) == 512;
    assert Power(8, 4) == 4096 && Power(8, 5) == 32768;
    assert Power(8, 6) == 0x40000;
    assert Power(8, 7) == 0x200000 && Power(8, 8) == 0x1000000 && Power(8, 9) == 0x8000000;
    assert Power(8, 10) == 0x40000000;
  }

  predicate NulFree(s: seq<Byte>) {
    forall i :: 0 <= i < |s| ==> s[i] != 0
  }

  lemma {:induction false} UpToNul(s: seq<Byte>)
    ensures var u := UpTo(s, false); |u| <= |s| && u == s[..|u|] && NulFree(u) && (|u| < |s| ==> s[|u|] == 0)
  {
    if s != [] && s[0] != 0 {
      UpToNul(s[1..]);
      var u := UpTo(s[1..], false);
      assert UpTo(s, false) == [s[0]] + u;
      assert s[..|u| + 1] == [s[0]] + s[1..][..|u|];
    }
  }

  /** The name field gives the name back exactly when it fits and holds no NUL. */
  lemma NameReads(name: seq<Byte>, field: seq<Byte>)
    requires |field| == 100 && forall i :: 0 <= i < 100 ==> field[i] == if i < |name| then name[i] else 0
    ensures UpTo(field, false) == name <==> |name| <= 100 && NulFree(name)
  {
    UpToNul(field);
    if |name| <= 100 && NulFree(name) {
      if |name| < 100 {
        assert field == name + [0] + field[|name| + 1..];
        UpToStops(name, 0, field[|name| + 1..], false);
      } else {
        assert field == name && field[..100] == field;
      }
    }
  }

  /** The name field holds what fits of the name. */
  lemma NameCut(name: seq<Byte>, field: seq<Byte>)
    requires |field| == 100 && forall i :: 0 <= i < 100 ==> field[i] == if i < |name| then name[i] else 0
    requires |name| > 100 && NulFree(name[..100])
    ensures UpTo(field, false) == name[..100]
  {
    UpToNul(field);
    assert field == name[..100] && field[..100] == field;
  }

  lemma HeaderFields(name: seq<Byte>, size: nat)
    ensures var h := Header(name, size);
      && h[124..136] == OctalField(size, 12) && h[100..108] == OctalField(420, 8) && h[136..148] == OctalField(0, 12)
      && h[108..116] == OctalField(0, 8) && h[116..124] == OctalField(0, 8)
      && h[257..263] == [117, 115, 116, 97, 114, 0] && h[263..265] == [48, 48] && h[156] == 48
      && h[345] == 0 && forall i :: 0 <= i < 100 ==> h[..100][i] == if i < |name| then name[i] else 0
  {
    hide OctalField, ChecksumField, SumBytes;
  }

  lemma HeaderChecksum(name: seq<Byte>, size: nat)
    ensures ReadOctal(Header(name, size)[148..156]) == Some(ByteSum(Header(name, size), BLOCK))
    ensures Header(name, size)[154..156] == [0, 32]
  {
    hide OctalField, ReadOctal, SumBytes, OctalDigits;
    var blank, h := HeaderWith(name, size, SPACES), Header(name, size);
    assert h[148..156] == ChecksumField(SumBytes(blank));
    hide HeaderAt;
    SumBound(blank);
    ChecksumReads(SumBytes(blank));
    BlankBytes(name, size);
    SumIsByteSum(blank, h, BLOCK);
    assert blank[..BLOCK] == blank;
  }

  lemma BlankBytes(name: seq<Byte>, size: nat)
    ensures var blank, h := HeaderWith(name, size, SPACES), Header(name, size);
      forall i :: 0 <= i < BLOCK ==> blank[i] == if 148 <= i < 156 then 32 else h[i]
  {
    hide OctalField, ChecksumField, SumBytes;
  }

  /** Every header verifies, and gives back the name iff it fits, the size modulo 8^11, and the fixed
      mode, owner and time that make archives reproducible. A name too long is cut. The checksum ends
      in a NUL and a space, and the fields not used are zero. */
  lemma HeaderReads(name: seq<Byte>, size: nat)
    ensures ReadHeader(Header(name, size)).Some?
    ensures var e := ReadHeader(Header(name, size)).value;
      && (e.name == name <==> |name| <= 100 && NulFree(name))
      && (|name| > 100 && NulFree(name[..100]) ==> e.name == name[..100])
      && e.size == size % 0x2_0000_0000
      && e.mode == 420 && e.uid == 0 && e.gid == 0 && e.mtime == 0
    ensures Header(name, size)[154..156] == [0, 32]
    ensures forall i :: 157 <= i < 257 || 265 <= i < BLOCK ==> Header(name, size)[i] == 0
  {
    UnusedZero(name, size);
    hide OctalField, ReadOctal, SumBytes, ChecksumField, UpTo, HeaderAt, HeaderWith, Header, NulFree;
    var h := Header(name, size);
    HeaderFields(name, size);
    HeaderChecksum(name, size);
    OctalFieldReads(size, 12);
    OctalFieldReads(420, 8);
    OctalFieldReads(0, 8);
    OctalFieldReads(0, 12);
    PowersOfEight();
    NoPrefix(h[345..500]);
    NameReads(name, h[..100]);
    if |name| > 100 && NulFree(name[..100]) { NameCut(name, h[..100]); }
  }

  lemma UnusedZero(name: seq<Byte>, size: nat)
    ensures forall i :: 157 <= i < 257 || 265 <= i < BLOCK ==> Header(name, size)[i] == 0
  {
    hide OctalField, ChecksumField, SumBytes;
  }

  lemma NoPrefix(field: seq<Byte>)
    requires |field| > 0 && field[0] == 0
    ensures UpTo(field, false) == []
  {
  }

  // ---------------------------------------------------------------- main results

  predicate Portable(m: Member) {
    |m.name| <= 100 && NulFree(m.name) && |m.content| < 0x2_0000_0000
  }

  /** After header and content a member is filled up with zeros, by less than a block, to whole blocks. */
  lemma MemberLayout(m: Member)
    ensures var bytes, n := MemberBytes(m), |m.content|;
      && |bytes| % BLOCK == 0 && BLOCK + n <= |bytes| < BLOCK + n + BLOCK
      && bytes[..BLOCK] == Header(m.name, n) && bytes[BLOCK..BLOCK + n] == m.content && AllZero(bytes[BLOCK + n..])
  {
    hide Header, PadLength;
    var n := |m.content|;
    assert |MemberBytes(m)| == BLOCK + (n + PadLength(n));
  }

  lemma {:induction false} ArchiveLength(members: seq<Member>)
    ensures |Archive(members)| >= 1024 && |Archive(members)| % BLOCK == 0
  {
    hide Header, PadLength;
    if members != [] {
      ArchiveLength(members[1..]);
      var n := |members[0].content|;
      assert |Archive(members)| == BLOCK + (n + PadLength(n)) + |Archive(members[1..])|;
    }
  }

  /** An archive is whole blocks, and its last two are zero. */
  lemma {:induction false} ArchiveEnds(members: seq<Member>)
    ensures |Archive(members)| >= 1024 && AllZero(Archive(members)[|Archive(members)| - 1024..])
  {
    hide MemberBytes;
    if members != [] {
      ArchiveEnds(members[1..]);
      var rest := Archive(members[1..]);
      var all := Archive(members);
      assert all[|all| - 1024..] == rest[|rest| - 1024..];
    }
  }

  lemma NotEndMarker(m: Member, rest: seq<Byte>)
    requires |rest| >= 1024
    ensures var bytes := MemberBytes(m) + rest; !AllZero(bytes[..1024]) && bytes[..BLOCK] == Header(m.name, |m.content|)
  {
    hide OctalField, ChecksumField, SumBytes;
    var bytes := MemberBytes(m) + rest;
    var h := Header(m.name, |m.content|);
    assert h[257] == 117;
    assert bytes[..1024][257] == h[257];
  }

  lemma Slices(h: seq<Byte>, c: seq<Byte>, z: seq<Byte>, rest: seq<Byte>)
    ensures var bytes := h + c + z + rest;
      bytes[|h|..|h| + |c|] == c && bytes[|h| + |c| + |z|..] == rest
  {
  }

  lemma ReadStep(bytes: seq<Byte>, e: Entry, end: nat)
    requires 1024 <= |bytes| && !AllZero(bytes[..1024]) && ReadHeader(bytes[..BLOCK]) == Some(e)
    requires end == BLOCK + e.size + PadLength(e.size) && end <= |bytes|
    ensures ReadArchive(bytes) ==
      match ReadArchive(bytes[end..])
      case None => None
      case Some(ms) => Some([Member(e.name, bytes[BLOCK..BLOCK + e.size])] + ms)
  {
    hide ReadHeader, AllZero, PadLength;
  }

  /** One step of the reader over one step of the writer. */
  lemma ReadMember(m: Member, rest: seq<Byte>)
    requires |rest| >= 1024 && Portable(m)
    ensures ReadArchive(MemberBytes(m) + rest) ==
      match ReadArchive(rest) case None => None case Some(ms) => Some([m] + ms)
  {
    hide Header, ReadHeader, AllZero, PadLength, ReadArchive, NulFree;
    var h, n := Header(m.name, |m.content|), |m.content|;
    NotEndMarker(m, rest);
    HeaderReads(m.name, n);
    assert n % 0x2_0000_0000 == n;
    Slices(h, m.content, ZeroBytes(PadLength(n)), rest);
    ReadStep(MemberBytes(m) + rest, Entry(m.name, n, 420, 0, 0, 0), BLOCK + n + PadLength(n));
  }

  /** The reader gives back exactly the members, in order, iff every name fits its field without a
      NUL and every size fits eleven octal digits. */
  lemma {:induction false} RoundTripIff(members: seq<Member>)
    ensures ReadArchive(Archive(members)) == Some(members) <==> forall i :: 0 <= i < |members| ==> Portable(members[i])
  {
    if members == [] {
      assert ZeroBytes(1024)[..1024] == ZeroBytes(1024);
    } else {
      var m, rest := members[0], Archive(members[1..]);
      ArchiveLength(members[1..]);
      RoundTripIff(members[1..]);
      assert members == [m] + members[1..];
      if Portable(m) {
        ReadMember(m, rest);
        AllPortable(members);
      } else {
        Misread(m, rest, members);
      }
    }
  }

  lemma AllPortable(members: seq<Member>)
    requires members != [] && Portable(members[0])
    ensures (forall i :: 0 <= i < |members| ==> Portable(members[i])) <==>
      forall i :: 0 <= i < |members[1..]| ==> Portable(members[1..][i])
  {
    assert forall i :: 0 < i < |members| ==> members[i] == members[1..][i - 1];
  }

  lemma Misread(m: Member, rest: seq<Byte>, members: seq<Member>)
    requires |rest| >= 1024 && !Portable(m) && members != [] && members[0] == m
    ensures ReadArchive(MemberBytes(m) + rest) != Some(members)
  {
    hide Header, HeaderWith, ReadHeader, UpTo, AllZero, PadLength;
    NotEndMarker(m, rest);
    HeaderReads(m.name, |m.content|);
  }
}
