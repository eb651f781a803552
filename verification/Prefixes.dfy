/** Prefixes as the strings that key the routing table: formatting, parsing, group names. */
module Prefixes {
  import opened Digits
  import opened RiftTypes

  predicate IsDigit(c: char) { '0' <= c <= '9' }

  function DigitChar(d: nat): (c: char)
    requires d < 10
    ensures IsDigit(c) && DigitValue(c) == d
  {
    d as char + '0'
  }

  function DigitValue(c: char): (d: nat)
    requires IsDigit(c)
  {
    (c - '0') as nat
  }

  predicate AllDigits(s: string) { forall c :: c in s ==> IsDigit(c) }

  /** Decimal digits, most significant first. */
  function FormatNat(n: nat): (s: string)
    ensures |s| > 0 && AllDigits(s)
    ensures s[0] == '0' ==> |s| == 1
  {
    if n < 10 then [DigitChar(n)] else FormatNat(n / 10) + [DigitChar(n % 10)]
  }

  function FormatInt(n: int): string {
    if n < 0 then "-" + FormatNat(-n) else FormatNat(n)
  }

  function DigitsValue(s: string): nat
    requires AllDigits(s)
  {
    if s == "" then 0 else DigitsValue(s[..|s| - 1]) * 10 + DigitValue(s[|s| - 1])
  }

  /** A decimal number without sign or superfluous leading zero. */
  function ParseNat(s: string): Option<nat> {
    if s == "" || !AllDigits(s) || (|s| > 1 && s[0] == '0') then None else Some(DigitsValue(s))
  }

  lemma {:induction false} ParseFormat(n: nat)
    ensures ParseNat(FormatNat(n)) == Some(n)
  {
    DigitsOfFormat(n);
  }

  lemma {:induction false} DigitsOfFormat(n: nat)
    ensures DigitsValue(FormatNat(n)) == n
  {
    if n >= 10 {
      DigitsOfFormat(n / 10);
      var s := FormatNat(n);
      assert s[..|s| - 1] == FormatNat(n / 10);
    }
  }

  function Pow10(k: nat): (p: nat)
    ensures p > 0
  {
    if k == 0 then 1 else 10 * Pow10(k - 1)
  }

  /** The digit at position i counts 10 to the power of the number of digits behind it. */
  lemma {:induction false} FormatDigit(n: nat, i: nat)
    requires i < |FormatNat(n)|
    ensures var s := FormatNat(n); DigitValue(s[i]) == n / Pow10(|s| - 1 - i) % 10
  {
    var s := FormatNat(n);
    if n >= 10 && i < |s| - 1 {
      FormatDigit(n / 10, i);
      DivTwice(n, 10, Pow10(|s| - 2 - i));
    }
  }

  // Splits at the first occurrence of sep.
  function Cut(s: string, sep: char): Option<(string, string)> {
    if s == "" then None
    else if s[0] == sep then Some(("", s[1..]))
    else match Cut(s[1..], sep)
      case None => None
      case Some((before, after)) => Some(([s[0]] + before, after))
  }

  // Splits at the last occurrence of sep.
  function CutLast(s: string, sep: char): Option<(string, string)> {
    if s == "" then None
    else if s[|s| - 1] == sep then Some((s[..|s| - 1], ""))
    else match CutLast(s[..|s| - 1], sep)
      case None => None
      case Some((before, after)) => Some((before, after + [s[|s| - 1]]))
  }

  lemma {:induction false} CutJoined(a: string, sep: char, b: string)
    requires sep !in a
    ensures Cut(a + [sep] + b, sep) == Some((a, b))
  {
    var s := a + [sep] + b;
    if a == "" {
      assert s[1..] == b;
    } else {
      assert s[1..] == a[1..] + [sep] + b;
      CutJoined(a[1..], sep, b);
      assert [a[0]] + a[1..] == a;
    }
  }

  lemma {:induction false} CutLastJoined(a: string, sep: char, b: string)
    requires sep !in b
    ensures CutLast(a + [sep] + b, sep) == Some((a, b))
  {
    var s := a + [sep] + b;
    if b == "" {
      assert s[..|s| - 1] == a;
    } else {
      var c := b[..|b| - 1];
      assert s[..|s| - 1] == a + [sep] + c;
      CutLastJoined(a, sep, c);
      assert c + [b[|b| - 1]] == b;
    }
  }

  function Unsigned32(x: int): (u: nat)
    ensures u < 0x1_0000_0000
    ensures MIN32 <= x <= MAX32 ==> Wrap32(u) == x
  {
    x % 0x1_0000_0000
  }

  function AddressString(u: nat): string {
    FormatNat(u / 0x100_0000 % 256) + "." + (FormatNat(u / 0x1_0000 % 256) + "." +
    (FormatNat(u / 0x100 % 256) + "." + FormatNat(u % 256)))
  }

  /** PrefixToString: empty for anything but an IPv4 prefix. */
  function PrefixToString(p: IPPrefix): string {
    match p
    case NotIPv4 => ""
    case IPv4(address, len) => AddressString(Unsigned32(address)) + "/" + FormatInt(len)
  }

  // The address of four octets.
  function Joined(a: nat, b: nat, c: nat, d: nat): nat { a * 0x100_0000 + b * 0x1_0000 + c * 0x100 + d }

  lemma OctetsIn(a: nat, b: nat, c: nat, d: nat)
    requires a < 256 && b < 256 && c < 256 && d < 256
    ensures var u := Joined(a, b, c, d);
            && u < 0x1_0000_0000 && u / 0x100_0000 % 256 == a && u / 0x1_0000 % 256 == b && u / 0x100 % 256 == c
            && u % 256 == d
  {
    var u := Joined(a, b, c, d);
    DivUnique(u, 0x100_0000, a, b * 0x1_0000 + c * 0x100 + d);
    DivUnique(u, 0x1_0000, a * 0x100 + b, c * 0x100 + d);
    DivUnique(u, 0x100, a * 0x1_0000 + b * 0x100 + c, d);
    DivUnique(a * 0x100 + b, 0x100, a, b);
    DivUnique(a * 0x1_0000 + b * 0x100 + c, 0x100, a * 0x100 + b, c);
  }

  lemma SignedBack(u: nat)
    requires u < 0x1_0000_0000
    ensures Unsigned32(Wrap32(u)) == u
  {
  }

  lemma AddressOf(a: nat, b: nat, c: nat, d: nat)
    requires a < 256 && b < 256 && c < 256 && d < 256
    ensures Joined(a, b, c, d) < 0x1_0000_0000
    ensures AddressString(Joined(a, b, c, d)) ==
              FormatNat(a) + "." + (FormatNat(b) + "." + (FormatNat(c) + "." + FormatNat(d)))
  {
    hide FormatNat, Joined;
    OctetsIn(a, b, c, d);
  }

  /** Four octets, the most significant first, with dots between them, a slash and the length. */
  lemma DottedDecimal(a: nat, b: nat, c: nat, d: nat, len: int)
    requires a < 256 && b < 256 && c < 256 && d < 256
    ensures PrefixToString(IPv4(Wrap32(Joined(a, b, c, d)), len)) ==
              FormatNat(a) + "." + (FormatNat(b) + "." + (FormatNat(c) + "." + FormatNat(d))) + "/" + FormatInt(len)
  {
    hide FormatNat, FormatInt, Unsigned32, Wrap32, AddressString, Joined;
    AddressOf(a, b, c, d);
    SignedBack(Joined(a, b, c, d));
  }

  /** Such as 10.0.0.2/32. */
  lemma HostRoute()
    ensures PrefixToString(IPv4(0x0A00_0002, 32)) == "10.0.0.2/32"
  {
    hide PrefixToString;
    DottedDecimal(10, 0, 0, 2, 32);
    assert FormatNat(10) == FormatNat(1) + [DigitChar(0)];
    assert FormatNat(32) == FormatNat(3) + [DigitChar(2)];
    assert FormatNat(1) == "1" && FormatNat(3) == "3" && FormatNat(0) == "0" && FormatNat(2) == "2";
  }

  function ParseOctet(s: string): Option<nat> {
    match ParseNat(s)
    case Some(n) => if n <= 255 then Some(n) else None
    case None => None
  }

  function ParseAddress(s: string): Option<nat> {
    match Cut(s, '.')
    case None => None
    case Some((s0, r0)) =>
      match Cut(r0, '.')
      case None => None
      case Some((s1, r1)) =>
        match Cut(r1, '.')
        case None => None
        case Some((s2, s3)) =>
          match (ParseOctet(s0), ParseOctet(s1), ParseOctet(s2), ParseOctet(s3))
          case (Some(a), Some(b), Some(c), Some(d)) => Some(a * 0x100_0000 + b * 0x1_0000 + c * 0x100 + d)
          case _ => None
  }

  /** StringToPrefix: the zero prefix unless the string is an IPv4 prefix of length 0 to 32. */
  function StringToPrefix(s: string): IPPrefix {
    match CutLast(s, '/')
    case None => NotIPv4
    case Some((a, l)) =>
      match (ParseAddress(a), ParseNat(l))
      case (Some(u), Some(len)) => if len <= 32 then IPv4(Wrap32(u), len) else NotIPv4
      case _ => NotIPv4
  }

  lemma OctetsOf(u: nat)
    requires u < 0x1_0000_0000
    ensures u / 0x100_0000 % 256 * 0x100_0000 + u / 0x1_0000 % 256 * 0x1_0000 + u / 0x100 % 256 * 0x100 + u % 256 == u
  {
    var h, m, l := u / 0x100_0000, u / 0x1_0000, u / 0x100;
    assert l == u / 0x100 && m == l / 0x100 && h == m / 0x100;
    assert u == l * 256 + u % 256 && l == m * 256 + l % 256 && m == h * 256 + m % 256;
  }

  lemma NoSeparators(n: nat)
    ensures '.' !in FormatNat(n) && '/' !in FormatNat(n) && '_' !in FormatNat(n)
  {
  }

  lemma ParseAddressString(u: nat)
    requires u < 0x1_0000_0000
    ensures ParseAddress(AddressString(u)) == Some(u)
  {
    var a, b, c, d := u / 0x100_0000 % 256, u / 0x1_0000 % 256, u / 0x100 % 256, u % 256;
    var r1 := FormatNat(c) + "." + FormatNat(d);
    var r0 := FormatNat(b) + "." + r1;
    CutJoined(FormatNat(a), '.', r0);
    CutJoined(FormatNat(b), '.', r1);
    CutJoined(FormatNat(c), '.', FormatNat(d));
    ParseFormat(a); ParseFormat(b); ParseFormat(c); ParseFormat(d);
    OctetsOf(u);
  }

  lemma ParseJoined(a: string, l: string, u: nat)
    requires '/' !in l && ParseAddress(a) == Some(u)
    ensures StringToPrefix(a + "/" + l) == match ParseNat(l)
                                           case Some(n) => (if n <= 32 then IPv4(Wrap32(u), n) else NotIPv4)
                                           case None => NotIPv4
  {
    CutLastJoined(a, '/', l);
  }

  lemma LengthRoundTrip(len: int)
    ensures '/' !in FormatInt(len)
    ensures ParseNat(FormatInt(len)) == if len < 0 then None else Some(len)
  {
    if len < 0 {
      NoSeparators(-len);
      assert FormatInt(len)[0] == '-' && !IsDigit('-') && FormatInt(len)[0] in FormatInt(len);
    } else {
      NoSeparators(len);
      ParseFormat(len);
    }
  }

  /** Parsing undoes formatting exactly for lengths 0 to 32; any other length is lost. */
  lemma StringRoundTrip(address: int, len: int)
    requires MIN32 <= address <= MAX32
    ensures StringToPrefix(PrefixToString(IPv4(address, len))) ==
              (if 0 <= len <= 32 then IPv4(address, len) else NotIPv4)
  {
    var u := Unsigned32(address);
    LengthRoundTrip(len);
    ParseAddressString(u);
    ParseJoined(AddressString(u), FormatInt(len), u);
  }

  /** Two valid prefixes share a routing-table key only if they are the same prefix. */
  lemma KeysAreInjective(p: IPPrefix, q: IPPrefix)
    requires ValidPrefix(p) && ValidPrefix(q)
    requires PrefixToString(p) == PrefixToString(q)
    ensures p == q
  {
    StringRoundTrip(p.address, p.len);
    StringRoundTrip(q.address, q.len);
  }

  predicate ValidPrefix(p: IPPrefix) {
    p.IPv4? && MIN32 <= p.address <= MAX32 && 0 <= p.len <= 32
  }

  /** strings.ReplaceAll of one character by another. */
  function ReplaceAll(s: string, from: char, to: char): (r: string)
    ensures |r| == |s|
    ensures forall i :: 0 <= i < |s| ==> r[i] == if s[i] == from then to else s[i]
  {
    seq(|s|, i requires 0 <= i < |s| => if s[i] == from then to else s[i])
  }

  function NhgName(prefix: string): string {
    "rift_" + ReplaceAll(prefix, '/', '_') + "_sdk"
  }

  /** The name of a group: the prefix with every slash made an underscore, between "rift_" and "_sdk". */
  lemma NhgNameForm(p: string)
    ensures |NhgName(p)| == |p| + 9 && NhgName(p)[..5] == "rift_" && NhgName(p)[|p| + 5..] == "_sdk"
    ensures forall i :: 0 <= i < |p| ==> NhgName(p)[5 + i] == if p[i] == '/' then '_' else p[i]
  {
  }

  /** Distinct table keys get distinct next-hop group names. */
  lemma NhgNameInjective(a: string, b: string)
    requires '_' !in a && '_' !in b
    requires NhgName(a) == NhgName(b)
    ensures a == b
  {
    var ra, rb := ReplaceAll(a, '/', '_'), ReplaceAll(b, '/', '_');
    assert |NhgName(a)| == |a| + 9 && |NhgName(b)| == |b| + 9;
    forall i | 0 <= i < |a| ensures a[i] == b[i] {
      assert NhgName(a)[5 + i] == ra[i] && NhgName(b)[5 + i] == rb[i];
      assert a[i] in a && b[i] in b;
    }
  }

  /** No key of the routing table contains the character that replaces the slash. */
  lemma KeysHaveNoUnderscore(p: IPPrefix)
    ensures '_' !in PrefixToString(p)
  {
    match p
    case NotIPv4 =>
    case IPv4(address, len) =>
      var u := Unsigned32(address);
      NoSeparators(u / 0x100_0000 % 256); NoSeparators(u / 0x1_0000 % 256);
      NoSeparators(u / 0x100 % 256); NoSeparators(u % 256);
      if len < 0 { NoSeparators(-len); } else { NoSeparators(len); }
      assert '_' !in "-" && '_' !in "." && '_' !in "/";
      assert '_' !in FormatInt(len);
  }

  const DEFAULT_ROUTE := "0.0.0.0/0"

  /** The key the originated default route is attached under is the one N-SPF installs. */
  lemma DefaultKey()
    ensures PrefixToString(IPv4(0, 0)) == DEFAULT_ROUTE
  {
    var z := FormatNat(0);
    assert z == "0";
    assert AddressString(0) == z + "." + (z + "." + (z + "." + z));
  }
}
