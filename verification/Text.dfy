// Text and byte helpers. A string is a sequence of Unicode scalar values; comparing two of them
// code point by code point is the byte order of their UTF-8 encodings.
module Text {

  type byte = x: int | 0 <= x < 256

  type u64 = x: int | 0 <= x <= 0xFFFF_FFFF_FFFF_FFFF

  const U32_MAX: int := 0xFFFF_FFFF
  const U64_MAX: int := 0xFFFF_FFFF_FFFF_FFFF

  // ---------- lexicographic order ----------

  predicate Less(a: string, b: string) {
    if b == "" then false
    else if a == "" then true
    else a[0] < b[0] || (a[0] == b[0] && Less(a[1..], b[1..]))
  }

  lemma {:induction false} LessTrans(a: string, b: string, c: string)
    requires Less(a, b) && Less(b, c)
    ensures Less(a, c)
  {
    if a != "" && a[0] == b[0] == c[0] {
      LessTrans(a[1..], b[1..], c[1..]);
    }
  }

  lemma {:induction false} LessTotal(a: string, b: string)
    ensures a == b || Less(a, b) || Less(b, a)
    ensures !(Less(a, b) && Less(b, a))
    ensures !Less(a, a)
  {
    if a != "" {
      LessTotal(a[1..], a[1..]);
      if b != "" && a[0] == b[0] {
        LessTotal(a[1..], b[1..]);
        assert a[1..] == b[1..] ==> a == [a[0]] + a[1..] == [b[0]] + b[1..] == b;
      }
    }
  }

  // ---------- searching ----------

  function FirstIndexOf(s: string, c: char): (i: int)
    ensures -1 <= i < |s|
    ensures i >= 0 ==> s[i] == c && c !in s[..i]
    ensures i == -1 ==> c !in s
  {
    if s == "" then -1
    else if s[0] == c then 0
    else
      var rest := FirstIndexOf(s[1..], c);
      assert s == [s[0]] + s[1..];
      if rest < 0 then -1
      else
        assert s[..rest + 1] == [s[0]] + s[1..][..rest];
        rest + 1
  }

  function LastIndexOf(s: string, c: char): (i: int)
    ensures -1 <= i < |s|
    ensures i >= 0 ==> s[i] == c
    ensures forall k :: i < k < |s| ==> s[k] != c
  {
    if s == "" then -1
    else if s[|s| - 1] == c then |s| - 1
    else
      LastIndexOf(s[..|s| - 1], c)
  }

  // The part of `s` before its first `c`, or all of it.
  function BeforeFirst(s: string, c: char): (r: string)
    ensures c !in r && r <= s
    ensures c !in s ==> r == s
    ensures r == s || (|r| < |s| && s[|r|] == c)
  {
    var i := FirstIndexOf(s, c);
    if i < 0 then s else s[..i]
  }

  // The maximal runs of `s` between occurrences of `c`; never empty.
  function Split(s: string, c: char): (parts: seq<string>)
    ensures |parts| >= 1
    ensures forall p :: p in parts ==> c !in p
  {
    var i := FirstIndexOf(s, c);
    if i < 0 then [s] else [s[..i]] + Split(s[i + 1..], c)
  }

  lemma SplitAround<T>(s: seq<T>, i: nat)
    requires i < |s|
    ensures s == (s[..i] + [s[i]]) + s[i + 1..]
  {
  }

  function Without<T>(s: seq<T>, i: nat): seq<T>
    requires i < |s|
  {
    s[..i] + s[i + 1..]
  }

  function Zeros(n: nat): (r: seq<byte>)
    ensures |r| == n && forall i :: 0 <= i < n ==> r[i] == 0
  {
    seq(n, i requires 0 <= i < n => 0 as byte)
  }

  lemma SubsetOfEqualSize<T>(a: set<T>, b: set<T>)
    requires |a| == |b|
    ensures a <= b ==> a == b
  {
    if a <= b {
      assert |b - a| == |b| - |a|;
    }
  }

  // ---------- decimal numbers ----------

  function Digit(d: nat): char
    requires d < 10
  {
    (d + '0' as int) as char
  }

  function Decimal(n: nat): (s: string)
    ensures |s| >= 1 && (|s| == 1 <==> n < 10)
    ensures forall i :: 0 <= i < |s| ==> '0' <= s[i] <= '9'
  {
    if n < 10 then [Digit(n)] else Decimal(n / 10) + [Digit(n % 10)]
  }

  lemma {:induction false} DecimalInjective(a: nat, b: nat)
    requires Decimal(a) == Decimal(b)
    ensures a == b
  {
    var s := Decimal(a);
    if a >= 10 {
      assert Decimal(a / 10) == s[..|s| - 1] == Decimal(b / 10);
      assert Digit(a % 10) == s[|s| - 1] == Digit(b % 10);
      DecimalInjective(a / 10, b / 10);
    } else {
      assert Digit(a) == s[0] == Digit(b);
    }
  }

  // ---------- big-endian numbers ----------

  function Be16(n: int): (r: seq<byte>)
    requires 0 <= n < 0x1_0000
    ensures |r| == 2
  {
    [n / 0x100, n % 0x100]
  }

  function FromBe16(b: seq<byte>): nat
    requires |b| == 2
  {
    b[0] as int * 0x100 + b[1] as int
  }

  function Be32(n: int): (r: seq<byte>)
    requires 0 <= n <= U32_MAX
    ensures |r| == 4
  {
    Be16(n / 0x1_0000) + Be16(n % 0x1_0000)
  }

  function FromBe32(b: seq<byte>): (n: nat)
    requires |b| == 4
    ensures n <= U32_MAX
  {
    FromBe16(b[..2]) * 0x1_0000 + FromBe16(b[2..])
  }

  function Be64(n: int): (r: seq<byte>)
    requires 0 <= n <= U64_MAX
    ensures |r| == 8
  {
    Be32(n / 0x1_0000_0000) + Be32(n % 0x1_0000_0000)
  }

  function FromBe64(b: seq<byte>): (n: nat)
    requires |b| == 8
    ensures n <= U64_MAX
  {
    FromBe32(b[..4]) * 0x1_0000_0000 + FromBe32(b[4..])
  }

  lemma Be32RoundTrip(n: int)
    requires 0 <= n <= U32_MAX
    ensures FromBe32(Be32(n)) == n
  {
    var b := Be32(n);
    assert b[..2] == Be16(n / 0x1_0000) && b[2..] == Be16(n % 0x1_0000);
  }

  lemma Be64RoundTrip(n: int)
    requires 0 <= n <= U64_MAX
    ensures FromBe64(Be64(n)) == n
  {
    var b := Be64(n);
    assert b[..4] == Be32(n / 0x1_0000_0000) && b[4..] == Be32(n % 0x1_0000_0000);
    Be32RoundTrip(n / 0x1_0000_0000);
    Be32RoundTrip(n % 0x1_0000_0000);
  }
}
