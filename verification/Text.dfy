/** Text helpers shared by the key and duration formats: decimal numbers, trimming and splitting. */
module Text {

  predicate IsDigit(c: char) { '0' <= c <= '9' }

  predicate AlphaNumeric(c: char) { IsDigit(c) || 'A' <= c <= 'Z' || 'a' <= c <= 'z' }

  function DigitChar(d: nat): char
    requires d < 10
  {
    '0' + d as char
  }

  function DigitValue(c: char): nat
    requires IsDigit(c)
  {
    (c - '0') as nat
  }

  /** %d of a non-negative number. */
  function Digits(n: nat): string {
    if n < 10 then [DigitChar(n)] else Digits(n / 10) + [DigitChar(n % 10)]
  }

  /** %d */
  function Decimal(i: int): string {
    if i < 0 then "-" + Digits(-i) else Digits(i)
  }

  predicate AllDigits(s: string) {
    forall i :: 0 <= i < |s| ==> IsDigit(s[i])
  }

  function Number(s: string): nat
    requires AllDigits(s)
  {
    if s == [] then 0 else 10 * Number(s[..|s| - 1]) + DigitValue(s[|s| - 1])
  }

  lemma {:induction false} DigitsReadBack(n: nat)
    ensures AllDigits(Digits(n)) && Digits(n) != [] && Number(Digits(n)) == n
  {
    if n < 10 {
      assert Digits(n)[..0] == [];
    } else {
      DigitsReadBack(n / 10);
      assert Digits(n)[..|Digits(n)| - 1] == Digits(n / 10);
    }
  }

  lemma {:induction false} DecimalInjective(i: int, j: int)
    requires Decimal(i) == Decimal(j)
    ensures i == j
  {
    DigitsReadBack(if i < 0 then -i else i);
    DigitsReadBack(if j < 0 then -j else j);
    assert Decimal(i)[0] == '-' <==> i < 0;
    assert Decimal(j)[0] == '-' <==> j < 0;
    if i < 0 {
      assert Digits(-i) == Decimal(i)[1..] == Decimal(j)[1..] == Digits(-j);
    }
  }

  lemma {:induction false} DecimalHasNo(i: int, c: char)
    requires !IsDigit(c) && c != '-'
    ensures c !in Decimal(i)
  {
    DigitsReadBack(if i < 0 then -i else i);
  }

  /** Text up to the first separator is unambiguous. */
  lemma {:induction false} SplitFirst(a: string, x: string, b: string, y: string, c: char)
    requires c !in a && c !in b
    requires a + [c] + x == b + [c] + y
    ensures a == b && x == y
  {
    var s := a + [c] + x;
    assert s[|a|] == c && s[|b|] == c;
    assert forall i :: 0 <= i < |a| ==> s[i] == a[i];
    assert forall i :: 0 <= i < |b| ==> s[i] == b[i];
    assert |a| == |b|;
    assert a == s[..|a|] == b;
    assert x == s[|a| + 1..] == y;
  }

  /** Text after the last separator is unambiguous. */
  lemma {:induction false} SplitLast(x: string, a: string, y: string, b: string, c: char)
    requires c !in a && c !in b
    requires x + [c] + a == y + [c] + b
    ensures a == b && x == y
  {
    var s := x + [c] + a;
    assert s[|x|] == c && s[|y|] == c;
    forall i | |x| < i < |s| ensures s[i] != c {
      assert s[i] == a[i - |x| - 1];
    }
    forall i | |y| < i < |s| ensures s[i] != c {
      assert s[i] == b[i - |y| - 1];
    }
    assert |x| == |y|;
    assert x == s[..|x|] == y;
    assert a == s[|x| + 1..] == b;
  }

  /** strings.IndexByte and String.indexOf */
  function IndexOf(s: string, c: char): (i: int)
    ensures -1 <= i < |s|
  {
    if s == [] then -1
    else if s[0] == c then 0
    else var rest := IndexOf(s[1..], c); if rest < 0 then -1 else rest + 1
  }

  lemma {:induction false} IndexOfFirst(p: string, rest: string, c: char)
    requires c !in p
    ensures IndexOf(p + [c] + rest, c) == |p|
  {
    var s := p + [c] + rest;
    if p != [] {
      IndexOfFirst(p[1..], rest, c);
      assert s[1..] == p[1..] + [c] + rest;
    }
  }

  lemma {:induction false} IndexOfMeans(s: string, c: char)
    ensures var i := IndexOf(s, c);
            && (i == -1 <==> c !in s)
            && (i >= 0 ==> s[i] == c && c !in s[..i])
  {
    if s != [] && s[0] != c {
      IndexOfMeans(s[1..], c);
      var i := IndexOf(s[1..], c);
      assert i >= 0 ==> s[..i + 1] == [s[0]] + s[1..][..i];
      assert s == [s[0]] + s[1..];
    }
  }

  function Split(s: string, c: char): seq<string>
    decreases |s|
  {
    var i := IndexOf(s, c);
    if i < 0 then [s] else [s[..i]] + Split(s[i + 1..], c)
  }

  function Join(parts: seq<string>, c: char): string {
    if parts == [] then ""
    else if |parts| == 1 then parts[0]
    else parts[0] + [c] + Join(parts[1..], c)
  }

  lemma {:induction false} JoinSplits(parts: seq<string>, c: char)
    requires parts != [] && forall part :: part in parts ==> c !in part
    ensures Split(Join(parts, c), c) == parts
  {
    IndexOfMeans(parts[0], c);
    assert parts[0] in parts;
    if |parts| > 1 {
      var s, rest := Join(parts, c), Join(parts[1..], c);
      IndexOfFirst(parts[0], rest, c);
      JoinSplits(parts[1..], c);
      assert s[..|parts[0]|] == parts[0] && s[|parts[0]| + 1..] == rest;
      assert parts == [parts[0]] + parts[1..];
    } else {
      assert parts == [parts[0]];
    }
  }

  /** unicode.IsSpace */
  predicate IsSpace(c: char) {
    || '\t' <= c <= '\r' || c == ' ' || c == '\U{0085}' || c == '\U{00A0}' || c == '\U{1680}'
    || '\U{2000}' <= c <= '\U{200A}' || c == '\U{2028}' || c == '\U{2029}' || c == '\U{202F}'
    || c == '\U{205F}' || c == '\U{3000}'
  }

  function TrimLeft(s: string): string {
    if s != [] && IsSpace(s[0]) then TrimLeft(s[1..]) else s
  }

  function TrimRight(s: string): string {
    if s != [] && IsSpace(s[|s| - 1]) then TrimRight(s[..|s| - 1]) else s
  }

  /** strings.TrimSpace */
  function TrimSpace(s: string): string {
    TrimRight(TrimLeft(s))
  }
}
