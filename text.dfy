/** String helpers the lobby relies on: decimal conversion (TowxString, %d, s2l),
    the LSL and wx "before/after last" splitters, wxStringTokenizer over one
    whitespace delimiter, case-insensitive comparison under a lowering passed in, and
    std::string ordering. */
module Text {

  datatype Option<T> = None | Some(value: T)

  /** 32-bit unsigned integers (C++ `unsigned int`). */
  type u32 = x: int | 0 <= x < 0x1_0000_0000

  /** Conversion of any integer to `unsigned int` (two's-complement wrap). */
  function U32(x: int): (r: u32)
    ensures 0 <= x < 0x1_0000_0000 ==> r == x
    ensures (r - x) % 0x1_0000_0000 == 0
  {
    x % 0x1_0000_0000
  }

  /** 32-bit signed integers (C++ `int`). */
  type i32 = x: int | -0x8000_0000 <= x < 0x8000_0000

  /** Conversion of any integer to a signed 32-bit `int` (two's-complement wrap). */
  function I32(x: int): (r: i32)
    ensures -0x8000_0000 <= r < 0x8000_0000
    ensures -0x8000_0000 <= x < 0x8000_0000 ==> r == x
    ensures (r - x) % 0x1_0000_0000 == 0
  {
    var u := x % 0x1_0000_0000;
    if u >= 0x8000_0000 then u - 0x1_0000_0000 else u
  }

  /** 64-bit signed integers (`wxLongLong_t`, `time_t`). */
  type i64 = x: int | -0x8000_0000_0000_0000 <= x < 0x8000_0000_0000_0000

  /** Conversion of any integer to a signed 64-bit integer (two's-complement wrap). */
  function I64(x: int): (r: i64)
    ensures -0x8000_0000_0000_0000 <= x < 0x8000_0000_0000_0000 ==> r == x
    ensures (r - x) % 0x1_0000_0000_0000_0000 == 0
  {
    var u := x % 0x1_0000_0000_0000_0000;
    if u >= 0x8000_0000_0000_0000 then u - 0x1_0000_0000_0000_0000 else u
  }

  predicate IsDigit(c: char) {
    '0' <= c <= '9'
  }

  predicate AllDigits(s: string) {
    forall i :: 0 <= i < |s| ==> IsDigit(s[i])
  }

  function DigitChar(d: nat): (c: char)
    requires d < 10
    ensures IsDigit(c) && c as int - '0' as int == d
  {
    ('0' as int + d) as char
  }

  /** Decimal rendering of a natural number, without leading zeros. */
  function NatToString(n: nat): (s: string)
    ensures |s| > 0 && AllDigits(s)
    decreases n
  {
    if n < 10 then [DigitChar(n)] else NatToString(n / 10) + [DigitChar(n % 10)]
  }

  /** What TowxString and "%d" produce for an integer. */
  function IntToString(n: int): (s: string)
    ensures |s| > 0 && '=' !in s && '\t' !in s && '_' !in s
    ensures n >= 0 ==> AllDigits(s)
  {
    if n < 0 then "-" + NatToString(-n) else NatToString(n)
  }

  /** The value of a string of decimal digits. */
  function DigitsValue(s: string): nat
    requires AllDigits(s)
  {
    if s == [] then 0 else DigitsValue(s[..|s| - 1]) * 10 + (s[|s| - 1] as int - '0' as int)
  }

  /** s2l (wxString::ToLong): an optional sign followed by at least one digit
      reads as that number; any other text reads as 0. */
  function ParseLong(s: string): int
  {
    if |s| > 0 && AllDigits(s) then DigitsValue(s)
    else if |s| > 1 && (s[0] == '-' || s[0] == '+') && AllDigits(s[1..]) then
      (if s[0] == '-' then 0 - DigitsValue(s[1..]) else DigitsValue(s[1..]))
    else 0
  }

  lemma {:induction false} DigitsValueOfNatToString(n: nat)
    ensures DigitsValue(NatToString(n)) == n
    decreases n
  {
    if n >= 10 {
      var s := NatToString(n);
      assert s[..|s| - 1] == NatToString(n / 10);
      DigitsValueOfNatToString(n / 10);
    }
  }

  /** Printing an integer and reading it back with s2l gives the integer. */
  lemma ParseLongOfIntToString(n: int)
    ensures ParseLong(IntToString(n)) == n
  {
    if n < 0 {
      var s := IntToString(n);
      assert s[1..] == NatToString(-n);
      DigitsValueOfNatToString(-n);
    } else {
      DigitsValueOfNatToString(n);
    }
  }

  /** Distinct integers print differently. */
  lemma IntToStringInjective(a: int, b: int)
    requires IntToString(a) == IntToString(b)
    ensures a == b
  {
    ParseLongOfIntToString(a);
    ParseLongOfIntToString(b);
  }

  /** Index of the last occurrence of c in s, or -1. */
  function LastIndexOf(s: string, c: char): (k: int)
    ensures -1 <= k < |s|
    ensures k >= 0 ==> s[k] == c && forall j :: k < j < |s| ==> s[j] != c
    ensures k < 0 ==> c !in s
  {
    if s == [] then -1 else if s[|s| - 1] == c then |s| - 1 else LastIndexOf(s[..|s| - 1], c)
  }

  /** LSL::Util::BeforeLast: the text before the last c, or all of s when c does not occur. */
  function BeforeLast(s: string, c: char): string {
    var k := LastIndexOf(s, c);
    if k < 0 then s else s[..k]
  }

  /** wxString::BeforeLast: the text before the last c, or "" when c does not occur. */
  function WxBeforeLast(s: string, c: char): string {
    var k := LastIndexOf(s, c);
    if k < 0 then "" else s[..k]
  }

  /** LSL::Util::AfterLast and wxString::AfterLast: the text after the last c,
      or all of s when c does not occur. */
  function AfterLast(s: string, c: char): string {
    var k := LastIndexOf(s, c);
    if k < 0 then s else s[k + 1..]
  }

  /** When c occurs, the three pieces put back together give s, and the tail holds no c. */
  lemma BeforeAfterLastSplit(s: string, c: char)
    requires c in s
    ensures BeforeLast(s, c) == WxBeforeLast(s, c)
    ensures BeforeLast(s, c) + [c] + AfterLast(s, c) == s
    ensures c !in AfterLast(s, c)
  {
    var k := LastIndexOf(s, c);
    assert s[..k] + [c] + s[k + 1..] == s;
  }

  /** Splitting a + [c] + b at its last c, when b holds no c, gives back a and b. */
  lemma {:induction false} SplitAtLast(a: string, c: char, b: string)
    requires c !in b
    ensures LastIndexOf(a + [c] + b, c) == |a|
    ensures BeforeLast(a + [c] + b, c) == a && WxBeforeLast(a + [c] + b, c) == a
    ensures AfterLast(a + [c] + b, c) == b
    decreases |b|
  {
    var s := a + [c] + b;
    if b != [] {
      assert s[..|s| - 1] == a + [c] + b[..|b| - 1];
      SplitAtLast(a, c, b[..|b| - 1]);
    } else {
      assert s[|s| - 1] == c;
    }
    assert s[..|a|] == a && s[|a| + 1..] == b;
  }

  /** Length of the longest prefix of s that does not contain d. */
  function SpanNot(s: string, d: char): (k: nat)
    ensures k <= |s|
    ensures forall i :: 0 <= i < k ==> s[i] != d
    ensures k < |s| ==> s[k] == d
  {
    if s == [] || s[0] == d then 0 else 1 + SpanNot(s[1..], d)
  }

  /** wxStringTokenizer over a single whitespace delimiter d (strtok mode):
      the non-empty runs of s between occurrences of d, in order. */
  function Tokens(s: string, d: char): (ts: seq<string>)
    ensures forall i :: 0 <= i < |ts| ==> |ts[i]| > 0 && d !in ts[i]
    decreases |s|
  {
    if s == [] then []
    else if s[0] == d then Tokens(s[1..], d)
    else
      var k := SpanNot(s, d);
      [s[..k]] + Tokens(s[k..], d)
  }

  /** Each token followed by d, all concatenated (the way the lobby writes lists). */
  function JoinTerminated(ts: seq<string>, d: char): string {
    if ts == [] then "" else ts[0] + [d] + JoinTerminated(ts[1..], d)
  }

  /** Tokenizing a d-terminated list of non-empty, d-free tokens gives the tokens back. */
  lemma {:induction false} TokensOfJoin(ts: seq<string>, d: char)
    requires forall i :: 0 <= i < |ts| ==> |ts[i]| > 0 && d !in ts[i]
    ensures Tokens(JoinTerminated(ts, d), d) == ts
  {
    if ts != [] {
      var t, rest := ts[0], JoinTerminated(ts[1..], d);
      var s := t + [d] + rest;
      SpanNotOfToken(t, d, rest);
      assert s[..|t|] == t;
      assert s[|t|..] == [d] + rest;
      assert ([d] + rest)[1..] == rest;
      TokensOfJoin(ts[1..], d);
    }
  }

  lemma {:induction false} SpanNotOfToken(t: string, d: char, rest: string)
    requires d !in t
    ensures SpanNot(t + [d] + rest, d) == |t|
    decreases |t|
  {
    if t != [] {
      assert (t + [d] + rest)[1..] == t[1..] + [d] + rest;
      SpanNotOfToken(t[1..], d, rest);
    }
  }

  /** wxString::IsSameAs(other, false): equal lengths and equal characters once each is
      lowered. The lowering (wxTolower, the C library's towlower under the current
      locale) is passed in. */
  predicate EqualNoCase(a: string, b: string, lower: char -> char) {
    |a| == |b| && forall i :: 0 <= i < |a| ==> lower(a[i]) == lower(b[i])
  }

  /** std::string ordering (std::map<std::string, ...> iteration order). */
  predicate LexLe(a: string, b: string)
    decreases |a|
  {
    |a| == 0 || (|b| > 0 && (a[0] < b[0] || (a[0] == b[0] && LexLe(a[1..], b[1..]))))
  }

  lemma {:induction false} LexTotal(a: string, b: string)
    ensures LexLe(a, b) || LexLe(b, a)
    decreases |a|
  {
    if |a| > 0 && |b| > 0 && a[0] == b[0] {
      LexTotal(a[1..], b[1..]);
    }
  }

  lemma {:induction false} LexAntisymmetricAt(a: string, b: string)
    requires LexLe(a, b) && LexLe(b, a)
    ensures a == b
    decreases |a|
  {
    if |a| > 0 {
      LexAntisymmetricAt(a[1..], b[1..]);
      assert a == [a[0]] + a[1..] && b == [b[0]] + b[1..];
    }
  }

  lemma LexAntisymmetric()
    ensures forall a, b :: LexLe(a, b) && LexLe(b, a) ==> a == b
  {
    forall a, b | LexLe(a, b) && LexLe(b, a) ensures a == b {
      LexAntisymmetricAt(a, b);
    }
  }

  lemma {:induction false} LexTransitive(a: string, b: string, c: string)
    requires LexLe(a, b) && LexLe(b, c)
    ensures LexLe(a, c)
    decreases |a|
  {
    if |a| > 0 && |b| > 0 && |c| > 0 && a[0] == b[0] && b[0] == c[0] {
      LexTransitive(a[1..], b[1..], c[1..]);
    }
  }

  /** Every non-empty finite set of strings has a least element. */
  lemma {:induction false} LeastExists(s: set<string>)
    requires s != {}
    ensures exists k :: k in s && forall j :: j in s ==> LexLe(k, j)
    decreases |s|
  {
    var x :| x in s;
    var rest := s - {x};
    var least := x;
    assert s == rest + {x};
    if rest == {} {
      assert s == {x};
      LexTotal(x, x);
    } else {
      LeastExists(rest);
      var m :| m in rest && forall j :: j in rest ==> LexLe(m, j);
      LexTotal(m, x);
      if LexLe(m, x) {
        least := m;
        forall j | j in s ensures LexLe(m, j) {
          if j != x {
            assert j in rest;
          }
        }
      } else {
        forall j | j in s ensures LexLe(x, j) {
          if j != x {
            assert j in rest;
            LexTransitive(x, m, j);
          } else {
            LexTotal(x, x);
          }
        }
      }
    }
    assert least in s && forall j :: j in s ==> LexLe(least, j);
  }

  /** The first key std::map visits: the least string of a non-empty set. */
  function LeastKey(s: set<string>): (k: string)
    requires s != {}
    ensures k in s && forall j :: j in s ==> LexLe(k, j)
  {
    LeastExists(s);
    LexAntisymmetric();
    var k :| k in s && forall j :: j in s ==> LexLe(k, j);
    k
  }
}
