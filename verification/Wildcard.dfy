/**
 * The wildcard compiler: glob text to regexp text, read back with the regexp grammar and
 * compared, match for match, with the meaning of the glob itself.
 */
module Wildcard {
  import opened Basics
  import opened Text

  // ----- the compiler -----

  /** The characters regexp.QuoteMeta escapes. */
  predicate IsMeta(c: char) {
    c in {'\\', '.', '+', '*', '?', '(', ')', '|', '[', ']', '{', '}', '^', '$'}
  }

  function QuoteMeta(c: char): string {
    if IsMeta(c) then ['\\', c] else [c]
  }

  function Emit(c: char): string {
    if c == '*' then ".*" else if c == '?' then "." else QuoteMeta(c)
  }

  function EmitAll(pattern: string): string {
    if pattern == [] then "" else EmitAll(pattern[..|pattern| - 1]) + Emit(pattern[|pattern| - 1])
  }

  /** Converts a '*'/'?' wildcard pattern into the text of an anchored regexp. */
  method Regexp(pattern: string) returns (text: string)
    ensures text == "^" + EmitAll(pattern) + "$"
  {
    text := "^";
    for i := 0 to |pattern|
      invariant text == "^" + EmitAll(pattern[..i])
    {
      assert pattern[..i + 1][..i] == pattern[..i];
      var c := pattern[i];
      if c == '*' {
        text := text + ".*";
      } else if c == '?' {
        text := text + ".";
      } else {
        text := text + QuoteMeta(c);
      }
    }
    assert pattern[..|pattern|] == pattern;
    text := text + "$";
  }

  // ----- regexps: syntax and meaning -----

  datatype Atom =
    | Literal(c: char)
    | AnyNotNewline      // . without the s flag
    | TextStart          // ^ without the m flag
    | TextEnd            // $ without the m flag

  datatype Piece = One(atom: Atom) | Star(atom: Atom)

  /** Characters the grammar reserves and this fragment does not give a meaning to. */
  predicate IsReserved(c: char) {
    c in {'+', '?', '(', ')', '|', '[', ']', '{', '}'}
  }

  /** One atom and how much text it took. An escaped ASCII character that is no word character stands for itself. */
  function ParseAtom(text: string): Option<(Atom, nat)>
    requires text != ""
  {
    var c := text[0];
    if c == '\\' then
      if |text| >= 2 && text[1] < '\U{0080}' && !AlphaNumeric(text[1]) then Some((Literal(text[1]), 2)) else None
    else if c == '.' then Some((AnyNotNewline, 1))
    else if c == '^' then Some((TextStart, 1))
    else if c == '$' then Some((TextEnd, 1))
    else if c == '*' || IsReserved(c) then None
    else Some((Literal(c), 1))
  }

  /** A concatenation of atoms, each with at most one postfix star. */
  function Parse(text: string): Option<seq<Piece>>
    decreases |text|
  {
    if text == "" then Some([])
    else
      match ParseAtom(text)
      case None => None
      case Some((atom, used)) =>
        var rest := text[used..];
        if rest != "" && rest[0] == '*' then
          if |rest| >= 2 && rest[1] == '*' then None     // a repetition of a repetition
          else
            match Parse(rest[1..])
            case None => None
            case Some(pieces) => Some([Star(atom)] + pieces)
        else
          match Parse(rest)
          case None => None
          case Some(pieces) => Some([One(atom)] + pieces)
  }

  /** An atom matches value[i..j]. */
  predicate AtomMatches(a: Atom, value: string, i: nat, j: nat)
    requires i <= |value| && j <= |value|
  {
    match a
    case Literal(c) => j == i + 1 && value[i] == c
    case AnyNotNewline => j == i + 1 && value[i] != '\n'
    case TextStart => i == 0 && j == 0
    case TextEnd => i == |value| && j == |value|
  }

  /** A repetition matches value[i..j]: split into consecutive non-empty matches of the atom. */
  predicate StarMatches(a: Atom, value: string, i: nat, j: nat)
    requires i <= j <= |value|
    decreases j - i
  {
    i == j || exists k :: i < k <= j && AtomMatches(a, value, i, k) && StarMatches(a, value, k, j)
  }

  predicate PieceMatches(p: Piece, value: string, i: nat, j: nat)
    requires i <= j <= |value|
  {
    match p
    case One(a) => AtomMatches(a, value, i, j)
    case Star(a) => StarMatches(a, value, i, j)
  }

  predicate Matches(pieces: seq<Piece>, value: string, i: nat, j: nat)
    requires i <= j <= |value|
    decreases |pieces|
  {
    if pieces == [] then i == j
    else exists k :: i <= k <= j && PieceMatches(pieces[0], value, i, k) && Matches(pieces[1..], value, k, j)
  }

  /** regexp.MatchString: the expression compiles and matches somewhere in the value. */
  predicate MatchString(text: string, value: string) {
    var parsed := Parse(text);
    parsed.Some? && exists i, j :: 0 <= i <= j <= |value| && Matches(parsed.value, value, i, j)
  }

  /** The part of the value a pattern character stands for. */
  predicate Fits(c: char, part: string) {
    if c == '*' then forall j :: 0 <= j < |part| ==> part[j] != '\n'
    else if c == '?' then |part| == 1 && part[0] != '\n'
    else part == [c]
  }

  function Flat(parts: seq<string>): string {
    if parts == [] then "" else parts[0] + Flat(parts[1..])
  }

  /** The value falls into consecutive parts, one for each pattern character. */
  ghost predicate Divides(pattern: string, value: string, parts: seq<string>) {
    |parts| == |pattern| && Flat(parts) == value && forall i :: 0 <= i < |pattern| ==> Fits(pattern[i], parts[i])
  }

  /** wildcard.Match */
  method Match(pattern: string, value: string) returns (matched: bool)
    ensures matched <==> MatchString("^" + EmitAll(pattern) + "$", value)
    ensures matched <==> GlobMatches(pattern, value)
    ensures matched <==> exists parts :: Divides(pattern, value, parts)
  {
    GlobMeans(pattern, value);
    var text := Regexp(pattern);
    matched := MatchString(text, value);
    CompilerIsCorrect(pattern, value);
  }

  // ----- the meaning of a glob -----

  /** '*' is any run without a newline, '?' one character that is no newline, anything else itself; the whole value. */
  predicate GlobMatches(pattern: string, value: string)
    decreases |pattern|, |value|
  {
    if pattern == "" then value == ""
    else if pattern[0] == '*' then
      GlobMatches(pattern[1..], value) || (value != "" && value[0] != '\n' && GlobMatches(pattern, value[1..]))
    else if pattern[0] == '?' then
      value != "" && value[0] != '\n' && GlobMatches(pattern[1..], value[1..])
    else
      value != "" && value[0] == pattern[0] && GlobMatches(pattern[1..], value[1..])
  }

  lemma {:induction false} FlatHead(part: string, parts: seq<string>)
    ensures Flat([part] + parts) == part + Flat(parts)
  {
    assert ([part] + parts)[1..] == parts;
  }

  lemma {:induction false} DividesHead(c: char, rest: string, part: string, parts: seq<string>, value: string)
    requires Fits(c, part) && Divides(rest, value, parts)
    ensures Divides([c] + rest, part + value, [part] + parts)
  {
    FlatHead(part, parts);
  }

  /** The recursion finds a division. */
  lemma {:induction false} GlobDivides(pattern: string, value: string) returns (parts: seq<string>)
    requires GlobMatches(pattern, value)
    ensures Divides(pattern, value, parts)
    decreases |pattern|, |value|
  {
    if pattern == "" {
      return [];
    }
    var c, rest := pattern[0], pattern[1..];
    assert pattern == [c] + rest;
    if c == '*' && GlobMatches(rest, value) {
      parts := GlobDivides(rest, value);
      DividesHead(c, rest, "", parts, value);
      assert "" + value == value;
      parts := [""] + parts;
    } else if c == '*' {
      parts := GlobDivides(pattern, value[1..]);
      parts := LongerStar(pattern, value, parts);
    } else {
      parts := GlobDivides(rest, value[1..]);
      DividesHead(c, rest, [value[0]], parts, value[1..]);
      assert [value[0]] + value[1..] == value;
      parts := [[value[0]]] + parts;
    }
  }

  lemma {:induction false} LongerStar(pattern: string, value: string, parts: seq<string>) returns (longer: seq<string>)
    requires pattern != "" && pattern[0] == '*' && value != "" && value[0] != '\n' && Divides(pattern, value[1..], parts)
    ensures Divides(pattern, value, longer)
  {
    var first := [value[0]] + parts[0];
    longer := [first] + parts[1..];
    FlatHead(first, parts[1..]);
    assert first + Flat(parts[1..]) == [value[0]] + (parts[0] + Flat(parts[1..]));
    assert [value[0]] + value[1..] == value;
  }

  lemma {:induction false} DivisionMatches(pattern: string, value: string, parts: seq<string>)
    requires Divides(pattern, value, parts)
    ensures GlobMatches(pattern, value)
    decreases |pattern|, |value|
  {
    if pattern != "" {
      var first, tail := parts[0], parts[1..];
      assert Divides(pattern[1..], Flat(tail), tail);
      if pattern[0] == '*' && first != "" {
        var shorter := [first[1..]] + tail;
        FlatHead(first[1..], tail);
        assert value == [first[0]] + (first[1..] + Flat(tail));
        assert Divides(pattern, value[1..], shorter);
        DivisionMatches(pattern, value[1..], shorter);
      } else {
        DivisionMatches(pattern[1..], Flat(tail), tail);
        assert first == "" ==> value == Flat(tail);
        assert |first| == 1 ==> value[1..] == Flat(tail);
      }
    }
  }

  /** What a glob means without recursion. */
  lemma {:induction false} GlobMeans(pattern: string, value: string)
    ensures GlobMatches(pattern, value) <==> exists parts :: Divides(pattern, value, parts)
  {
    if GlobMatches(pattern, value) {
      var parts := GlobDivides(pattern, value);
    }
    forall parts | Divides(pattern, value, parts) ensures GlobMatches(pattern, value) {
      DivisionMatches(pattern, value, parts);
    }
  }

  // ----- what the emitted text parses to -----

  function PieceOf(c: char): Piece {
    if c == '*' then Star(AnyNotNewline) else if c == '?' then One(AnyNotNewline) else One(Literal(c))
  }

  function PiecesOf(pattern: string): seq<Piece> {
    seq(|pattern|, i requires 0 <= i < |pattern| => PieceOf(pattern[i]))
  }

  lemma {:induction false} Associative(a: string, b: string, c: string)
    ensures (a + b) + c == a + (b + c)
  {
  }

  lemma {:induction false} EmitAllLast(pattern: string, c: char)
    ensures EmitAll(pattern + [c]) == EmitAll(pattern) + Emit(c)
  {
    assert (pattern + [c])[..|pattern|] == pattern;
  }

  lemma {:induction false} EmitAllHead(c: char, rest: string)
    ensures EmitAll([c] + rest) == Emit(c) + EmitAll(rest)
  {
    if rest == "" {
      assert [c] + rest == "" + [c];
      EmitAllLast("", c);
    } else {
      var init, last := rest[..|rest| - 1], rest[|rest| - 1];
      EmitAllHead(c, init);
      assert rest == init + [last] && [c] + rest == ([c] + init) + [last];
      EmitAllLast(init, last);
      EmitAllLast([c] + init, last);
      Associative(Emit(c), EmitAll(init), Emit(last));
    }
  }

  lemma {:induction false} TailNotStar(pattern: string)
    ensures (EmitAll(pattern) + "$")[0] != '*'
  {
    if pattern != "" {
      EmitAllHead(pattern[0], pattern[1..]);
      assert pattern == [pattern[0]] + pattern[1..];
    }
  }

  lemma {:induction false} ParseEmitted(pattern: string)
    ensures Parse(EmitAll(pattern) + "$") == Some(PiecesOf(pattern) + [One(TextEnd)])
  {
    if pattern == "" {
      ParseEnd(EmitAll(pattern) + "$");
      assert PiecesOf(pattern) + [One(TextEnd)] == [One(TextEnd)];
    } else {
      var c, rest := pattern[0], pattern[1..];
      ParseEmitted(rest);
      TailNotStar(rest);
      var tail, pieces := EmitAll(rest) + "$", PiecesOf(rest) + [One(TextEnd)];
      ParsePiece(c, tail, pieces);
      EmittedHead(c, rest);
      PiecesHead(c, rest);
      assert pattern == [c] + rest;
    }
  }

  lemma {:induction false} EmittedHead(c: char, rest: string)
    ensures EmitAll([c] + rest) + "$" == Emit(c) + (EmitAll(rest) + "$")
  {
    EmitAllHead(c, rest);
    Associative(Emit(c), EmitAll(rest), "$");
  }

  lemma {:induction false} PiecesHead(c: char, rest: string)
    ensures PiecesOf([c] + rest) + [One(TextEnd)] == [PieceOf(c)] + (PiecesOf(rest) + [One(TextEnd)])
  {
    assert PiecesOf([c] + rest) == [PieceOf(c)] + PiecesOf(rest);
  }

  lemma {:induction false} ParseEnd(text: string)
    requires text == ['$']
    ensures Parse(text) == Some([One(TextEnd)])
  {
    var rest := text[1..];
    assert rest == "" && Parse(rest) == Some([]);
    assert text[0] == '$' && ParseAtom(text) == Some((TextEnd, 1));
    assert [One(TextEnd)] + [] == [One(TextEnd)];
  }

  lemma {:induction false} ParsePiece(c: char, tail: string, pieces: seq<Piece>)
    requires tail != "" && tail[0] != '*' && Parse(tail) == Some(pieces)
    ensures Parse(Emit(c) + tail) == Some([PieceOf(c)] + pieces)
  {
    var text := Emit(c) + tail;
    if c == '*' {
      assert text[1..] == ['*'] + tail;
      assert text[1..][1..] == tail;
    } else if c == '?' {
      assert text[1..] == tail;
    } else if IsMeta(c) {
      assert text[2..] == tail;
    } else {
      assert text[1..] == tail;
    }
  }

  /** The whole emitted text parses to the pattern's pieces between the two anchors. */
  lemma {:induction false} EmittedParses(pattern: string)
    ensures Parse("^" + EmitAll(pattern) + "$") == Some([One(TextStart)] + PiecesOf(pattern) + [One(TextEnd)])
  {
    var tail := EmitAll(pattern) + "$";
    ParseEmitted(pattern);
    TailNotStar(pattern);
    assert "^" + EmitAll(pattern) + "$" == "^" + tail;
    assert ("^" + tail)[1..] == tail;
    assert [One(TextStart)] + PiecesOf(pattern) + [One(TextEnd)] == [One(TextStart)] + (PiecesOf(pattern) + [One(TextEnd)]);
  }

  // ----- matching the pieces is matching the glob -----

  lemma {:induction false} StarStep(value: string, i: nat, j: nat)
    requires i <= j <= |value|
    ensures StarMatches(AnyNotNewline, value, i, j) <==>
            i == j || (value[i] != '\n' && StarMatches(AnyNotNewline, value, i + 1, j))
  {
    if i < j {
      if value[i] != '\n' && StarMatches(AnyNotNewline, value, i + 1, j) {
        assert AtomMatches(AnyNotNewline, value, i, i + 1);
      }
    }
  }

  /** Matching from i to the end of the value, piece by piece, is glob matching of the rest. */
  lemma {:induction false} TailMatches(pattern: string, value: string, i: nat)
    requires i <= |value|
    ensures Matches(PiecesOf(pattern) + [One(TextEnd)], value, i, |value|) <==> GlobMatches(pattern, value[i..])
    decreases |pattern|, |value| - i
  {
    var n := |value|;
    var pieces := PiecesOf(pattern) + [One(TextEnd)];
    if pattern == "" {
      assert pieces == [One(TextEnd)] && pieces[1..] == [];
      if i == n {
        assert PieceMatches(pieces[0], value, n, n) && Matches(pieces[1..], value, n, n);
      }
    } else {
      var c, rest := pattern[0], pattern[1..];
      assert pieces[1..] == PiecesOf(rest) + [One(TextEnd)] && pieces[0] == PieceOf(c);
      if c == '*' {
        TailMatches(rest, value, i);
        StarTail(pieces, value, i);
        if i < n {
          TailMatches(pattern, value, i + 1);
          assert value[i..][1..] == value[i + 1..];
        }
      } else {
        OneTail(pieces, value, i);
        if i < n {
          TailMatches(rest, value, i + 1);
          assert value[i..][1..] == value[i + 1..];
        }
      }
    }
  }

  lemma {:induction false} OneTail(pieces: seq<Piece>, value: string, i: nat)
    requires i <= |value| && pieces != []
    requires pieces[0] == One(AnyNotNewline) || (pieces[0].One? && pieces[0].atom.Literal?)
    ensures Matches(pieces, value, i, |value|) <==>
            i < |value| && AtomMatches(pieces[0].atom, value, i, i + 1) && Matches(pieces[1..], value, i + 1, |value|)
  {
    if i < |value| && AtomMatches(pieces[0].atom, value, i, i + 1) && Matches(pieces[1..], value, i + 1, |value|) {
      assert PieceMatches(pieces[0], value, i, i + 1);
    }
  }

  lemma {:induction false} FirstPiece(pieces: seq<Piece>, value: string, i: nat, j: nat) returns (k: nat)
    requires i <= j <= |value| && pieces != [] && Matches(pieces, value, i, j)
    ensures i <= k <= j && PieceMatches(pieces[0], value, i, k) && Matches(pieces[1..], value, k, j)
  {
    k :| i <= k <= j && PieceMatches(pieces[0], value, i, k) && Matches(pieces[1..], value, k, j);
  }

  lemma {:induction false} StarTail(pieces: seq<Piece>, value: string, i: nat)
    requires i <= |value| && pieces != [] && pieces[0] == Star(AnyNotNewline)
    ensures Matches(pieces, value, i, |value|) <==>
            || Matches(pieces[1..], value, i, |value|)
            || (i < |value| && value[i] != '\n' && Matches(pieces, value, i + 1, |value|))
  {
    var n := |value|;
    if Matches(pieces, value, i, n) {
      var k := FirstPiece(pieces, value, i, n);
      StarStep(value, i, k);
      if i < k {
        assert PieceMatches(pieces[0], value, i + 1, k);
      }
    }
    if Matches(pieces[1..], value, i, n) {
      assert PieceMatches(pieces[0], value, i, i);
    }
    if i < n && value[i] != '\n' && Matches(pieces, value, i + 1, n) {
      var k := FirstPiece(pieces, value, i + 1, n);
      StarStep(value, i, k);
      assert PieceMatches(pieces[0], value, i, k);
    }
  }

  /** A match of the anchored expression spans the whole value. */
  lemma {:induction false} AnchoredSpansAll(pieces: seq<Piece>, value: string, i: nat, j: nat)
    requires i <= j <= |value|
    ensures Matches([One(TextStart)] + pieces, value, i, j) <==> i == 0 && Matches(pieces, value, 0, j)
  {
    var all := [One(TextStart)] + pieces;
    assert all[1..] == pieces;
    if i == 0 && Matches(pieces, value, 0, j) {
      assert PieceMatches(all[0], value, 0, 0) && Matches(all[1..], value, 0, j);
    }
  }

  lemma {:induction false} EndsAtEnd(pieces: seq<Piece>, value: string, i: nat, j: nat)
    requires i <= j <= |value| && Matches(pieces + [One(TextEnd)], value, i, j)
    ensures j == |value|
    decreases |pieces|
  {
    var all := pieces + [One(TextEnd)];
    var k :| i <= k <= j && PieceMatches(all[0], value, i, k) && Matches(all[1..], value, k, j);
    if pieces == [] {
      assert all[1..] == [];
    } else {
      assert all[1..] == pieces[1..] + [One(TextEnd)];
      EndsAtEnd(pieces[1..], value, k, j);
    }
  }

  /** The emitted text denotes exactly the glob language of the pattern, for all patterns and values. */
  lemma {:induction false} CompilerIsCorrect(pattern: string, value: string)
    ensures Parse("^" + EmitAll(pattern) + "$").Some?
    ensures MatchString("^" + EmitAll(pattern) + "$", value) <==> GlobMatches(pattern, value)
  {
    var pieces := PiecesOf(pattern) + [One(TextEnd)];
    EmittedParses(pattern);
    assert [One(TextStart)] + PiecesOf(pattern) + [One(TextEnd)] == [One(TextStart)] + pieces;
    TailMatches(pattern, value, 0);
    assert value[0..] == value;
    AnchoredSpansAll(pieces, value, 0, |value|);
    forall i, j | 0 <= i <= j <= |value| && Matches([One(TextStart)] + pieces, value, i, j)
      ensures Matches(pieces, value, 0, |value|)
    {
      AnchoredSpansAll(pieces, value, i, j);
      EndsAtEnd(PiecesOf(pattern), value, i, j);
    }
  }
}
