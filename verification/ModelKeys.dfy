/** URL-safe model keys: base64url without padding, and how the dashboard reads them back. */
module ModelKeys {
  import opened Basics
  import opened Keys
  import opened Text

  type Byte = b: int | 0 <= b < 256
  type Sextet = v: int | 0 <= v < 64

  // ----- symbols -----

  /** The two symbols in which the alphabets of RFC 4648 sections 4 and 5 differ. */
  datatype Alphabet = Alphabet(c62: char, c63: char)

  const STANDARD := Alphabet('+', '/')
  const URL_SAFE := Alphabet('-', '_')

  function Symbol(a: Alphabet, v: Sextet): char {
    if v < 26 then 'A' + v as char
    else if v < 52 then 'a' + (v - 26) as char
    else if v < 62 then '0' + (v - 52) as char
    else if v == 62 then a.c62 else a.c63
  }

  /** The tables of RFC 4648, sections 4 and 5. */
  lemma {:induction false} SymbolTable(a: Alphabet, v: Sextet)
    requires a == STANDARD || a == URL_SAFE
    ensures v < 26 ==> Symbol(a, v) == "ABCDEFGHIJKLMNOPQRSTUVWXYZ"[v]
    ensures 26 <= v < 52 ==> Symbol(a, v) == "abcdefghijklmnopqrstuvwxyz"[v - 26]
    ensures 52 <= v < 62 ==> Symbol(a, v) == "0123456789"[v - 52]
    ensures v >= 62 ==> Symbol(a, v) == (if a == URL_SAFE then "-_" else "+/")[v - 62]
  {
  }

  function Value(a: Alphabet, c: char): Option<Sextet> {
    if 'A' <= c <= 'Z' then Some((c - 'A') as int)
    else if 'a' <= c <= 'z' then Some((c - 'a') as int + 26)
    else if '0' <= c <= '9' then Some((c - '0') as int + 52)
    else if c == a.c62 then Some(62)
    else if c == a.c63 then Some(63)
    else None
  }

  function Spelled(a: Alphabet, xs: seq<Sextet>): string {
    seq(|xs|, i requires 0 <= i < |xs| => Symbol(a, xs[i]))
  }

  predicate InAlphabet(a: Alphabet, s: string) {
    forall i :: 0 <= i < |s| ==> Value(a, s[i]).Some?
  }

  function Read(a: Alphabet, s: string): seq<Sextet>
    requires InAlphabet(a, s)
  {
    seq(|s|, i requires 0 <= i < |s| => Value(a, s[i]).value)
  }

  lemma {:induction false} SpelledReadsBack(a: Alphabet, xs: seq<Sextet>)
    requires a == STANDARD || a == URL_SAFE
    ensures InAlphabet(a, Spelled(a, xs)) && Read(a, Spelled(a, xs)) == xs
  {
    forall i | 0 <= i < |xs| ensures Value(a, Spelled(a, xs)[i]) == Some(xs[i]) {
    }
  }

  lemma {:induction false} ReadSpellsBack(a: Alphabet, s: string)
    requires InAlphabet(a, s)
    ensures Spelled(a, Read(a, s)) == s
  {
    forall i | 0 <= i < |s| ensures Symbol(a, Value(a, s[i]).value) == s[i] {
    }
  }

  // ----- three octets are four sextets -----

  function First(b0: Byte): Sextet { b0 / 4 }
  function Second(b0: Byte, b1: Byte): Sextet { b0 % 4 * 16 + b1 / 16 }
  function Third(b1: Byte, b2: Byte): Sextet { b1 % 16 * 4 + b2 / 64 }
  function Fourth(b2: Byte): Sextet { b2 % 64 }

  function High(v0: Sextet, v1: Sextet): Byte { v0 * 4 + v1 / 16 }
  function Middle(v1: Sextet, v2: Sextet): Byte { v1 % 16 * 16 + v2 / 4 }
  function Low(v2: Sextet, v3: Sextet): Byte { v2 % 4 * 64 + v3 }

  lemma {:induction false} OctetsRegroup(b0: Byte, b1: Byte, b2: Byte)
    ensures High(First(b0), Second(b0, b1)) == b0
    ensures Middle(Second(b0, b1), Third(b1, b2)) == b1
    ensures Low(Third(b1, b2), Fourth(b2)) == b2
  {
  }

  lemma {:induction false} SextetsRegroup(v0: Sextet, v1: Sextet, v2: Sextet, v3: Sextet)
    ensures First(High(v0, v1)) == v0
    ensures Second(High(v0, v1), Middle(v1, v2)) == v1
    ensures Third(Middle(v1, v2), Low(v2, v3)) == v2
    ensures Fourth(Low(v2, v3)) == v3
    ensures Second(High(v0, v1), 0) == v1 / 16 * 16
    ensures Third(Middle(v1, v2), 0) == v2 / 4 * 4
  {
  }

  function Sextets(id: seq<Byte>): seq<Sextet> {
    if id == [] then []
    else if |id| == 1 then [First(id[0]), Second(id[0], 0)]
    else if |id| == 2 then [First(id[0]), Second(id[0], id[1]), Third(id[1], 0)]
    else [First(id[0]), Second(id[0], id[1]), Third(id[1], id[2]), Fourth(id[2])] + Sextets(id[3..])
  }

  /** Decoding that ignores the unused trailing bits, as both Go and browsers do. */
  function Octets(xs: seq<Sextet>): seq<Byte>
    requires |xs| % 4 != 1
  {
    if xs == [] then []
    else if |xs| == 2 then [High(xs[0], xs[1])]
    else if |xs| == 3 then [High(xs[0], xs[1]), Middle(xs[1], xs[2])]
    else [High(xs[0], xs[1]), Middle(xs[1], xs[2]), Low(xs[2], xs[3])] + Octets(xs[4..])
  }

  /** The unused trailing bits are zero. */
  predicate Padded(xs: seq<Sextet>) {
    (|xs| % 4 == 2 ==> xs[|xs| - 1] % 16 == 0) && (|xs| % 4 == 3 ==> xs[|xs| - 1] % 4 == 0)
  }

  lemma {:induction false} SextetsLength(id: seq<Byte>)
    ensures |Sextets(id)| % 4 != 1
  {
    if |id| > 2 {
      var b0, b1, b2, rest := id[0], id[1], id[2], id[3..];
      SextetsLength(rest);
      SextetsGrow(b0, b1, b2, rest);
      assert id == [b0, b1, b2] + rest;
    } else {
      ShortLength(id);
    }
  }

  lemma {:induction false} ShortLength(id: seq<Byte>)
    requires |id| <= 2
    ensures |Sextets(id)| in {0, 2, 3}
  {
  }

  /** One full group of four sextets decodes to its three octets. */
  lemma {:induction false} GroupReadsBack(b0: Byte, b1: Byte, b2: Byte, rest: seq<Sextet>)
    requires |rest| % 4 != 1
    ensures Octets([First(b0), Second(b0, b1), Third(b1, b2), Fourth(b2)] + rest) == [b0, b1, b2] + Octets(rest)
  {
    OctetsRegroup(b0, b1, b2);
    var v0, v1, v2, v3 := First(b0), Second(b0, b1), Third(b1, b2), Fourth(b2);
    OctetsStep(v0, v1, v2, v3, rest);
  }

  lemma {:induction false} OctetsStep(v0: Sextet, v1: Sextet, v2: Sextet, v3: Sextet, rest: seq<Sextet>)
    requires |rest| % 4 != 1
    ensures Octets([v0, v1, v2, v3] + rest) == [High(v0, v1), Middle(v1, v2), Low(v2, v3)] + Octets(rest)
  {
    assert ([v0, v1, v2, v3] + rest)[4..] == rest;
  }

  lemma {:induction false} OctetsOfTwo(v0: Sextet, v1: Sextet)
    ensures Octets([v0, v1]) == [High(v0, v1)]
  {
  }

  lemma {:induction false} OctetsOfThree(v0: Sextet, v1: Sextet, v2: Sextet)
    ensures Octets([v0, v1, v2]) == [High(v0, v1), Middle(v1, v2)]
  {
  }

  lemma {:induction false} OneReadsBack(b0: Byte)
    ensures Octets([First(b0), Second(b0, 0)]) == [b0]
  {
    OctetsRegroup(b0, 0, 0);
    OctetsOfTwo(First(b0), Second(b0, 0));
  }

  lemma {:induction false} TwoReadBack(b0: Byte, b1: Byte)
    ensures Octets([First(b0), Second(b0, b1), Third(b1, 0)]) == [b0, b1]
  {
    OctetsRegroup(b0, b1, 0);
    OctetsOfThree(First(b0), Second(b0, b1), Third(b1, 0));
  }

  lemma {:induction false} ShortReadsBack(id: seq<Byte>)
    requires |id| <= 2
    ensures Octets(Sextets(id)) == id
  {
    if |id| == 1 {
      OneReadsBack(id[0]);
      assert id == [id[0]];
    } else if |id| == 2 {
      TwoReadBack(id[0], id[1]);
      assert id == [id[0], id[1]];
    }
  }

  lemma {:induction false} SextetsReadBack(id: seq<Byte>)
    requires |Sextets(id)| % 4 != 1
    ensures Octets(Sextets(id)) == id
  {
    if |id| <= 2 {
      ShortReadsBack(id);
    } else {
      var b0, b1, b2, rest := id[0], id[1], id[2], id[3..];
      SextetsLength(rest);
      SextetsReadBack(rest);
      assert id == [b0, b1, b2] + rest;
      SextetsStep(b0, b1, b2, rest);
      GroupReadsBack(b0, b1, b2, Sextets(rest));
    }
  }

  lemma {:induction false} SextetsStep(b0: Byte, b1: Byte, b2: Byte, rest: seq<Byte>)
    ensures Sextets([b0, b1, b2] + rest) == [First(b0), Second(b0, b1), Third(b1, b2), Fourth(b2)] + Sextets(rest)
  {
    assert ([b0, b1, b2] + rest)[3..] == rest;
  }

  lemma {:induction false} GroupWritesBack(v0: Sextet, v1: Sextet, v2: Sextet, v3: Sextet, rest: seq<Sextet>)
    requires |rest| % 4 != 1
    ensures Sextets(Octets([v0, v1, v2, v3] + rest)) == [v0, v1, v2, v3] + Sextets(Octets(rest))
  {
    SextetsRegroup(v0, v1, v2, v3);
    OctetsStep(v0, v1, v2, v3, rest);
    SextetsStep(High(v0, v1), Middle(v1, v2), Low(v2, v3), Octets(rest));
  }

  lemma {:induction false} SextetsOfOne(b0: Byte)
    ensures Sextets([b0]) == [First(b0), Second(b0, 0)]
  {
  }

  lemma {:induction false} SextetsOfTwo(b0: Byte, b1: Byte)
    ensures Sextets([b0, b1]) == [First(b0), Second(b0, b1), Third(b1, 0)]
  {
  }

  lemma {:induction false} TwoWriteBack(v0: Sextet, v1: Sextet)
    ensures Sextets(Octets([v0, v1])) == [v0, v1 / 16 * 16]
  {
    OctetsOfTwo(v0, v1);
    SextetsOfOne(High(v0, v1));
    SextetsRegroup(v0, v1, 0, 0);
  }

  lemma {:induction false} ThreeWriteBack(v0: Sextet, v1: Sextet, v2: Sextet)
    ensures Sextets(Octets([v0, v1, v2])) == [v0, v1, v2 / 4 * 4]
  {
    OctetsOfThree(v0, v1, v2);
    SextetsOfTwo(High(v0, v1), Middle(v1, v2));
    SextetsRegroup(v0, v1, v2, 0);
  }

  lemma {:induction false} ShortWritesBack(xs: seq<Sextet>)
    requires |xs| <= 3 && |xs| != 1
    ensures Sextets(Octets(xs)) == xs <==> Padded(xs)
  {
    if |xs| == 2 {
      TwoWriteBack(xs[0], xs[1]);
      assert xs == [xs[0], xs[1]];
    } else if |xs| == 3 {
      ThreeWriteBack(xs[0], xs[1], xs[2]);
      assert xs == [xs[0], xs[1], xs[2]];
    }
  }

  lemma {:induction false} PaddedTail(xs: seq<Sextet>)
    requires |xs| > 3
    ensures Padded(xs) <==> Padded(xs[4..])
  {
    assert |xs[4..]| % 4 == |xs| % 4;
    assert |xs| > 4 ==> xs[4..][|xs| - 5] == xs[|xs| - 1];
  }

  lemma {:induction false} OctetsReadBack(xs: seq<Sextet>)
    requires |xs| % 4 != 1
    ensures Sextets(Octets(xs)) == xs <==> Padded(xs)
  {
    if |xs| <= 3 {
      ShortWritesBack(xs);
    } else {
      var v0, v1, v2, v3, rest := xs[0], xs[1], xs[2], xs[3], xs[4..];
      GroupWritesBack(v0, v1, v2, v3, rest);
      OctetsReadBack(rest);
      assert xs == [v0, v1, v2, v3] + rest;
      PaddedTail(xs);
      var back := Sextets(Octets(rest));
      assert ([v0, v1, v2, v3] + back)[4..] == back;
    }
  }

  // ----- the key of a model id -----

  /** base64.RawURLEncoding.EncodeToString */
  function ModelKey(id: seq<Byte>): string {
    Spelled(URL_SAFE, Sextets(id))
  }

  predicate Decodable(a: Alphabet, s: string) {
    |s| % 4 != 1 && InAlphabet(a, s)
  }

  function WithoutNewlines(s: string): string {
    Filter(s, c => c != '\r' && c != '\n')
  }

  /** base64.RawURLEncoding.DecodeString: newlines are skipped, padding is not accepted. */
  function ModelIDFromKey(key: string): Result<seq<Byte>> {
    var clean := WithoutNewlines(key);
    if Decodable(URL_SAFE, clean) then Ok(Octets(Read(URL_SAFE, clean))) else Err("invalid model_key")
  }

  lemma {:induction false} AlphabetHasNoNewlines(s: string)
    requires InAlphabet(URL_SAFE, s)
    ensures WithoutNewlines(s) == s
  {
    if s != [] {
      AlphabetHasNoNewlines(s[..|s| - 1]);
      assert s == s[..|s| - 1] + [s[|s| - 1]];
    }
  }

  /** The key of a model reads back as the model id, whatever bytes it has. */
  lemma {:induction false} ModelKeyRoundTrip(id: seq<Byte>)
    ensures ModelIDFromKey(ModelKey(id)) == Ok(id)
  {
    SextetsLength(id);
    SextetsReadBack(id);
    SpelledReadsBack(URL_SAFE, Sextets(id));
    AlphabetHasNoNewlines(ModelKey(id));
  }

  /** Exactly the texts over the URL-safe alphabet and newlines are accepted whose length, newlines aside, is not 1 modulo 4. */
  lemma {:induction false} AcceptedIff(key: string)
    ensures ModelIDFromKey(key).Ok? <==>
              && (forall i :: 0 <= i < |key| ==>
                    'A' <= key[i] <= 'Z' || 'a' <= key[i] <= 'z' || '0' <= key[i] <= '9' || key[i] in ['-', '_', '\r', '\n'])
              && |Filter(key, c => c != '\r' && c != '\n')| % 4 != 1
  {
    var clean := WithoutNewlines(key);
    FilterContains(key, c => c != '\r' && c != '\n');
    assert forall i :: 0 <= i < |key| && key[i] != '\r' && key[i] != '\n' ==> key[i] in clean;
    assert forall i :: 0 <= i < |clean| ==> clean[i] in clean;
    if InAlphabet(URL_SAFE, clean) {
      forall i | 0 <= i < |key| && key[i] != '\r' && key[i] != '\n' ensures Value(URL_SAFE, key[i]).Some? {
        var j :| 0 <= j < |clean| && clean[j] == key[i];
      }
    }
  }

  /** The keys that some model id has: no newline and no unused bit set. */
  predicate Canonical(key: string) {
    Decodable(URL_SAFE, key) && Padded(Read(URL_SAFE, key))
  }

  /** Decoding is not injective: exactly the canonical keys among the accepted ones are written back unchanged. */
  lemma {:induction false} AcceptedKeyIsStableIff(key: string)
    requires ModelIDFromKey(key).Ok?
    ensures ModelKey(ModelIDFromKey(key).value) == key <==> Canonical(key)
  {
    var clean := WithoutNewlines(key);
    var xs := Read(URL_SAFE, clean);
    var id := Octets(xs);
    OctetsReadBack(xs);
    SextetsLength(id);
    SextetsReadBack(id);
    SpelledReadsBack(URL_SAFE, Sextets(id));
    ReadSpellsBack(URL_SAFE, clean);
    if ModelKey(id) == key {
      AlphabetHasNoNewlines(key);
      assert Sextets(id) == xs;
    }
    if Canonical(key) {
      AlphabetHasNoNewlines(key);
    }
  }

  // ----- what the encoding means: one number, written in base 256 and in base 64 -----

  function Numeral(digits: seq<int>, base: nat): int {
    if digits == [] then 0 else Numeral(digits[..|digits| - 1], base) * base + digits[|digits| - 1]
  }

  function Power(base: nat, n: nat): nat {
    if n == 0 then 1 else base * Power(base, n - 1)
  }

  /** The zero bits that fill the last symbol. */
  function Fill(n: nat): nat {
    if n % 3 == 1 then 16 else if n % 3 == 2 then 4 else 1
  }

  lemma {:induction false} NumeralAppend(a: seq<int>, b: seq<int>, base: nat)
    ensures Numeral(a + b, base) == Numeral(a, base) * Power(base, |b|) + Numeral(b, base)
  {
    if b == [] {
      assert a + b == a;
    } else {
      var init, last := b[..|b| - 1], b[|b| - 1];
      NumeralAppend(a, init, base);
      assert (a + b)[..|a + b| - 1] == a + init;
      Distribute(Numeral(a, base), Power(base, |init|), Numeral(init, base), base);
    }
  }

  lemma {:induction false} Distribute(x: int, p: int, y: int, base: int)
    ensures (x * p + y) * base == x * (base * p) + y * base
  {
    assert x * p * base == x * (base * p);
  }

  lemma {:induction false} GroupIsOneNumber(b0: Byte, b1: Byte, b2: Byte)
    ensures First(b0) * 262144 + Second(b0, b1) * 4096 + Third(b1, b2) * 64 + Fourth(b2) == b0 * 65536 + b1 * 256 + b2
  {
  }

  lemma {:induction false} NumeralStep(digits: seq<int>, last: int, base: nat)
    ensures Numeral(digits + [last], base) == Numeral(digits, base) * base + last
  {
    assert (digits + [last])[..|digits|] == digits;
  }

  lemma {:induction false} ThreeDigits(x: int, y: int, z: int, base: nat)
    ensures Numeral([x], base) == x
    ensures Numeral([x, y], base) == x * base + y
    ensures Numeral([x, y, z], base) == (x * base + y) * base + z
  {
    NumeralStep([], x, base);
    NumeralStep([x], y, base);
    NumeralStep([x, y], z, base);
    assert [] + [x] == [x] && [x] + [y] == [x, y] && [x, y] + [z] == [x, y, z];
  }

  lemma {:induction false} FourDigits(x: int, y: int, z: int, u: int, base: nat)
    ensures Numeral([x, y, z, u], base) == ((x * base + y) * base + z) * base + u
  {
    ThreeDigits(x, y, z, base);
    NumeralStep([x, y, z], u, base);
    assert [x, y, z] + [u] == [x, y, z, u];
  }

  lemma {:induction false} GroupNumbersAgree(b0: Byte, b1: Byte, b2: Byte)
    ensures Numeral([First(b0), Second(b0, b1), Third(b1, b2), Fourth(b2)], 64) == Numeral([b0, b1, b2], 256)
  {
    ThreeDigits(b0, b1, b2, 256);
    FourDigits(First(b0), Second(b0, b1), Third(b1, b2), Fourth(b2), 64);
    GroupIsOneNumber(b0, b1, b2);
  }

  lemma {:induction false} Scaled(g: int, p: int, n: int, fill: int)
    ensures g * (p * fill) + n * fill == (g * p + n) * fill
  {
    assert g * (p * fill) == g * p * fill;
  }

  /** A group of three bytes in front of the rest adds the same number to both numerals. */
  lemma {:induction false} GroupWeighs(b0: Byte, b1: Byte, b2: Byte, rest: seq<Byte>)
    requires Power(64, |Sextets(rest)|) == Power(256, |rest|) * Fill(|rest|)
    requires Numeral(Sextets(rest), 64) == Numeral(rest, 256) * Fill(|rest|)
    ensures var id := [b0, b1, b2] + rest;
            Numeral(Sextets(id), 64) == Numeral(id, 256) * Fill(|rest|)
  {
    var g := Numeral([b0, b1, b2], 256);
    GroupNumbersAgree(b0, b1, b2);
    SextetsStep(b0, b1, b2, rest);
    NumeralAppend([First(b0), Second(b0, b1), Third(b1, b2), Fourth(b2)], Sextets(rest), 64);
    NumeralAppend([b0, b1, b2], rest, 256);
    Scaled(g, Power(256, |rest|), Numeral(rest, 256), Fill(|rest|));
  }

  lemma {:induction false} GroupLengthens(m: nat, n: nat, fill: nat)
    requires Power(64, m) == Power(256, n) * fill
    ensures Power(64, m + 4) == Power(256, n + 3) * fill
  {
    PowerMore(64, m);
    PowerMore(256, n);
    assert Power(64, m + 4) == 16777216 * Power(64, m);
    assert Power(256, n + 3) == 16777216 * Power(256, n);
  }

  lemma {:induction false} PowerMore(base: nat, n: nat)
    ensures Power(base, n + 3) == base * (base * (base * Power(base, n)))
    ensures Power(base, n + 4) == base * (base * (base * (base * Power(base, n))))
  {
    assert Power(base, n + 2) == base * Power(base, n + 1);
  }

  lemma {:induction false} ShortIsTheSameNumber(id: seq<Byte>)
    requires |id| <= 2
    ensures Power(64, |Sextets(id)|) == Power(256, |id|) * Fill(|id|)
    ensures Numeral(Sextets(id), 64) == Numeral(id, 256) * Fill(|id|)
  {
    PowerMore(64, 0);
    if |id| == 1 {
      SextetsOfOne(id[0]);
      assert id == [id[0]];
      ThreeDigits(id[0], 0, 0, 256);
      ThreeDigits(First(id[0]), Second(id[0], 0), 0, 64);
    } else if |id| == 2 {
      SextetsOfTwo(id[0], id[1]);
      assert id == [id[0], id[1]];
      ThreeDigits(id[0], id[1], 0, 256);
      ThreeDigits(First(id[0]), Second(id[0], id[1]), Third(id[1], 0), 64);
    }
  }

  lemma {:induction false} FillMore(n: nat)
    ensures Fill(n + 3) == Fill(n)
  {
  }

  lemma {:induction false} SextetsGrow(b0: Byte, b1: Byte, b2: Byte, rest: seq<Byte>)
    ensures |Sextets([b0, b1, b2] + rest)| == |Sextets(rest)| + 4
  {
    SextetsStep(b0, b1, b2, rest);
  }

  lemma {:induction false} LongIsTheSameNumber(b0: Byte, b1: Byte, b2: Byte, rest: seq<Byte>)
    requires Power(64, |Sextets(rest)|) == Power(256, |rest|) * Fill(|rest|)
    requires Numeral(Sextets(rest), 64) == Numeral(rest, 256) * Fill(|rest|)
    ensures var id := [b0, b1, b2] + rest;
            && Power(64, |Sextets(id)|) == Power(256, |id|) * Fill(|id|)
            && Numeral(Sextets(id), 64) == Numeral(id, 256) * Fill(|id|)
  {
    FillMore(|rest|);
    GroupWeighs(b0, b1, b2, rest);
    GroupLengthens(|Sextets(rest)|, |rest|, Fill(|rest|));
    SextetsGrow(b0, b1, b2, rest);
    assert |[b0, b1, b2] + rest| == |rest| + 3;
  }

  /** The symbols of the key and the bytes of the id write the same number, up to the filling zero bits. */
  lemma {:induction false} KeyIsTheSameNumber(id: seq<Byte>)
    ensures Power(64, |Sextets(id)|) == Power(256, |id|) * Fill(|id|)
    ensures Numeral(Sextets(id), 64) == Numeral(id, 256) * Fill(|id|)
  {
    if |id| <= 2 {
      ShortIsTheSameNumber(id);
    } else {
      var b0, b1, b2, rest := id[0], id[1], id[2], id[3..];
      KeyIsTheSameNumber(rest);
      LongIsTheSameNumber(b0, b1, b2, rest);
      assert id == [b0, b1, b2] + rest;
    }
  }

  // ----- the dashboard -----

  /** modelIdentity */
  function ModelIdentity(provider: string, key: string): string {
    provider + "/" + key
  }

  /** parseModelIdentity: null (here None) unless both parts are non-empty. */
  function ParseModelIdentity(identity: Option<string>): Option<(string, string)> {
    if identity.None? || identity.value == "" then None
    else
      var slash := IndexOf(identity.value, '/');
      if slash <= 0 || slash == |identity.value| - 1 then None
      else Some((identity.value[..slash], identity.value[slash + 1..]))
  }

  /** Both parts come back, unless the model id is empty. */
  lemma {:induction false} IdentityRoundTrip(provider: string, id: seq<Byte>)
    requires Slug(provider)
    ensures ParseModelIdentity(Some(provider + "/" + ModelKey(id)))
            == if id == [] then None else Some((provider, ModelKey(id)))
  {
    var key := ModelKey(id);
    var s := provider + ['/'] + key;
    SlugHasNoSeparator(provider);
    IndexOfFirst(provider, key, '/');
    assert s == ModelIdentity(provider, key);
    assert s[..|provider|] == provider && s[|provider| + 1..] == key;
    assert key == "" <==> id == [];
  }

  /** Whatever is parsed was an identity: its parts are non-empty and write it back. */
  lemma {:induction false} ParsedIdentity(identity: string)
    ensures var parsed := ParseModelIdentity(Some(identity));
            && (parsed.Some? ==> parsed.value.0 != "" && '/' !in parsed.value.0 && parsed.value.1 != ""
                                 && parsed.value.0 + "/" + parsed.value.1 == identity)
            && (parsed.None? <==> forall p, k :: p != "" && '/' !in p && k != "" ==> ModelIdentity(p, k) != identity)
  {
    IndexOfMeans(identity, '/');
    var parsed, i := ParseModelIdentity(Some(identity)), IndexOf(identity, '/');
    if parsed.Some? {
      assert identity == identity[..i] + [identity[i]] + identity[i + 1..];
      assert ModelIdentity(parsed.value.0, parsed.value.1) == identity;
    }
    forall p, k | p != "" && '/' !in p && k != "" && ModelIdentity(p, k) == identity ensures parsed.Some? {
      IndexOfFirst(p, k, '/');
      assert identity == p + ['/'] + k;
    }
  }

  // ----- the model id a manual check is started for -----

  /** TextEncoder: the UTF-8 bytes Go holds for a model id. */
  function Utf8Char(c: char): seq<Byte> {
    var v := c as int;
    if v < 0x80 then [v]
    else if v < 0x800 then [0xC0 + v / 64, 0x80 + v % 64]
    else if v < 0x10000 then [0xE0 + v / 4096, 0x80 + v / 64 % 64, 0x80 + v % 64]
    else [0xF0 + v / 262144, 0x80 + v / 4096 % 64, 0x80 + v / 64 % 64, 0x80 + v % 64]
  }

  /** The character a UTF-8 sequence of RFC 3629, section 3, stands for: the payload bits of its bytes. */
  function Rune(b: seq<int>): int {
    if |b| == 1 then b[0]
    else if |b| == 2 then (b[0] - 0xC0) * 64 + (b[1] - 0x80)
    else if |b| == 3 then ((b[0] - 0xE0) * 64 + (b[1] - 0x80)) * 64 + (b[2] - 0x80)
    else if |b| == 4 then (((b[0] - 0xF0) * 64 + (b[1] - 0x80)) * 64 + (b[2] - 0x80)) * 64 + (b[3] - 0x80)
    else -1
  }

  /** Each character has the length of its range, a lead byte of that length and continuation bytes, and reads back. */
  lemma {:induction false} Utf8ReadsBack(c: char)
    ensures var v, b := c as int, Utf8Char(c);
            && |b| == (if v < 0x80 then 1 else if v < 0x800 then 2 else if v < 0x10000 then 3 else 4)
            && (if |b| == 1 then b[0] < 0x80 else if |b| == 2 then 0xC0 <= b[0] < 0xE0
                else if |b| == 3 then 0xE0 <= b[0] < 0xF0 else 0xF0 <= b[0] < 0xF8)
            && (forall i :: 0 < i < |b| ==> 0x80 <= b[i] < 0xC0)
            && Rune(b) == v
  {
    var v := c as int;
    assert v / 4096 == v / 64 / 64;
    assert v / 262144 == v / 4096 / 64;
    FloorMeans(v, 64);
    FloorMeans(v / 64, 64);
    FloorMeans(v / 4096, 64);
  }

  function Utf8(s: string): seq<Byte> {
    if s == [] then [] else Utf8Char(s[0]) + Utf8(s[1..])
  }

  /** The binary string atob returns: one character a byte. */
  function BinaryString(bytes: seq<Byte>): string {
    seq(|bytes|, i requires 0 <= i < |bytes| => bytes[i] as char)
  }

  function Replaced(s: string, from: char, to: char): string {
    seq(|s|, i requires 0 <= i < |s| => if s[i] == from then to else s[i])
  }

  function PadEnd(s: string, length: nat, c: char): (r: string)
    ensures |r| == Max(length, |s|)
    decreases length - |s|
  {
    if |s| < length then PadEnd(s + [c], length, c) else s
  }

  /** base64.padEnd to the next multiple of four. */
  function Pad(base64: string): string {
    PadEnd(base64, (|base64| + 3) / 4 * 4, '=')
  }

  predicate AsciiSpace(c: char) { c in ['\t', '\n', '\U{000C}', '\r', ' '] }

  /** Up to two padding characters, when the length is a multiple of four. */
  function WithoutPadding(s: string): string {
    if |s| % 4 != 0 || |s| == 0 || s[|s| - 1] != '=' then s
    else if s[|s| - 2] != '=' then s[..|s| - 1]
    else s[..|s| - 2]
  }

  /** window.atob: the forgiving-base64 decode of the Infra standard. */
  function Atob(s: string): Result<string> {
    var data := WithoutPadding(Filter(s, c => !AsciiSpace(c)));
    if Decodable(STANDARD, data) then Ok(BinaryString(Octets(Read(STANDARD, data)))) else Err("InvalidCharacterError")
  }

  /** modelIdFromIdentity */
  function ModelIdFromIdentity(identity: string): Result<string> {
    var slash := IndexOf(identity, '/');
    if slash < 0 then Ok(identity)
    else
      var raw := identity[slash + 1..];
      var base64 := Replaced(Replaced(raw, '-', '+'), '_', '/');
      Atob(Pad(base64))
  }

  lemma {:induction false} ReplacedReads(key: string)
    requires InAlphabet(URL_SAFE, key)
    ensures var base64 := Replaced(Replaced(key, '-', '+'), '_', '/');
            InAlphabet(STANDARD, base64) && Read(STANDARD, base64) == Read(URL_SAFE, key)
  {
    var base64 := Replaced(Replaced(key, '-', '+'), '_', '/');
    forall i | 0 <= i < |key| ensures Value(STANDARD, base64[i]) == Value(URL_SAFE, key[i]) {
      assert Value(URL_SAFE, key[i]).Some?;
    }
  }

  lemma {:induction false} NoSpaces(s: string)
    requires forall i :: 0 <= i < |s| ==> Value(STANDARD, s[i]).Some? || s[i] == '='
    ensures Filter(s, c => !AsciiSpace(c)) == s
  {
    if s != [] {
      NoSpaces(s[..|s| - 1]);
      assert s == s[..|s| - 1] + [s[|s| - 1]];
    }
  }

  lemma {:induction false} PadAdds(base64: string)
    requires |base64| % 4 != 1
    ensures Pad(base64) == base64 + (if |base64| % 4 == 0 then [] else if |base64| % 4 == 3 then ['='] else ['=', '='])
  {
    var n := (|base64| + 3) / 4 * 4;
    var once := base64 + ['='];
    var twice := once + ['='];
    assert n == |base64| || n == |once| || n == |twice|;
    assert n > |base64| ==> PadEnd(base64, n, '=') == PadEnd(once, n, '=');
    assert n > |once| ==> PadEnd(once, n, '=') == PadEnd(twice, n, '=');
    assert twice == base64 + ['=', '='];
  }

  lemma {:induction false} PadHasNoSpaces(base64: string)
    requires Decodable(STANDARD, base64)
    ensures Filter(Pad(base64), c => !AsciiSpace(c)) == Pad(base64)
  {
    PadAdds(base64);
    NoSpaces(Pad(base64));
  }

  lemma {:induction false} PadLength(base64: string)
    ensures |Pad(base64)| % 4 == 0
  {
    var quads := (|base64| + 3) / 4;
    assert |Pad(base64)| == quads * 4;
  }

  lemma {:induction false} PaddingComesOff(base64: string)
    requires Decodable(STANDARD, base64)
    ensures WithoutPadding(Pad(base64)) == base64
  {
    PadAdds(base64);
    PadLength(base64);
    var padded := Pad(base64);
    assert Value(STANDARD, '=').None?;
    assert padded[..|base64|] == base64;
    assert base64 != "" ==> base64[|base64| - 1] != '=';
  }

  /** The dashboard decodes the key to the bytes of the id, one character a byte. */
  lemma {:induction false} ManualCheckReadsBytes(provider: string, id: seq<Byte>)
    requires Slug(provider)
    ensures ModelIdFromIdentity(ModelIdentity(provider, ModelKey(id))) == Ok(BinaryString(id))
  {
    var key := ModelKey(id);
    var identity := provider + ['/'] + key;
    assert identity == ModelIdentity(provider, key);
    SlugHasNoSeparator(provider);
    IndexOfFirst(provider, key, '/');
    assert identity[|provider| + 1..] == key;
    SextetsLength(id);
    SextetsReadBack(id);
    SpelledReadsBack(URL_SAFE, Sextets(id));
    ReplacedReads(key);
    PadHasNoSpaces(Replaced(Replaced(key, '-', '+'), '_', '/'));
    PaddingComesOff(Replaced(Replaced(key, '-', '+'), '_', '/'));
  }

  predicate Ascii(s: string) {
    forall i :: 0 <= i < |s| ==> s[i] < '\U{0080}'
  }

  lemma {:induction false} Utf8Grows(s: string)
    ensures |Utf8(s)| >= |s|
    ensures |Utf8(s)| == |s| <==> Ascii(s)
    ensures Ascii(s) ==> BinaryString(Utf8(s)) == s
  {
    if s != [] {
      Utf8Grows(s[1..]);
      assert s == [s[0]] + s[1..];
      assert Ascii(s) <==> s[0] < '\U{0080}' && Ascii(s[1..]);
    }
  }

  /** A manual check asks for the model that was clicked exactly when its id is ASCII. */
  lemma {:induction false} ManualCheckRecoversIdIff(provider: string, id: string)
    requires Slug(provider)
    ensures ModelIdFromIdentity(ModelIdentity(provider, ModelKey(Utf8(id)))) == Ok(id) <==> Ascii(id)
  {
    ManualCheckReadsBytes(provider, Utf8(id));
    Utf8Grows(id);
  }
}
