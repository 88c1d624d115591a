/** Durations as text: how alerts print them and how configuration values with days are read. */
module Durations {
  import opened Basics
  import opened Text

  // ----- printing -----

  const MAX_DURATION := 9223372036854775807
  const MIN_DURATION := -9223372036854775808

  /** time.Duration: nanoseconds in 64 bits */
  type Duration = d: int | MIN_DURATION <= d <= MAX_DURATION

  const SECOND := 1000000000
  const MINUTE := 60000000000
  const HOUR := 3600000000000

  /** Two's complement wrap-around. */
  function Wrap(x: int): Duration {
    (x - MIN_DURATION) % 0x1_0000_0000_0000_0000 + MIN_DURATION
  }

  /** d.Round(time.Second): halves away from zero, and the extreme value when that overflows. */
  function Round(d: Duration): Duration {
    var n: int := d;
    if d < 0 then
      var r := (-n) % SECOND;
      if r + r < SECOND then d + r
      else var e := Wrap(d - SECOND + r); if e < d then e else MIN_DURATION
    else
      var r := d % SECOND;
      if r + r < SECOND then d - r
      else var e := Wrap(d + SECOND - r); if e > d then e else MAX_DURATION
  }

  datatype Piece = Piece(count: int, unit: char)

  function Weight(unit: char): int {
    if unit == 'h' then 3600 else if unit == 'm' then 60 else 1
  }

  function Seconds(pieces: seq<Piece>): int {
    if pieces == [] then 0 else pieces[0].count * Weight(pieces[0].unit) + Seconds(pieces[1..])
  }

  /** fmt.Sprintf("%dh", count) and its like */
  function PieceText(p: Piece): string {
    Decimal(p.count) + [p.unit]
  }

  function ReadInt(s: string): Option<int> {
    if s != "" && AllDigits(s) then Some(Number(s) as int)
    else if |s| > 1 && s[0] == '-' && AllDigits(s[1..]) then Some(-(Number(s[1..]) as int))
    else None
  }

  function ReadPiece(s: string): Option<Piece> {
    if s == "" || s[|s| - 1] !in {'h', 'm', 's'} then None
    else
      match ReadInt(s[..|s| - 1])
      case Some(count) => Some(Piece(count, s[|s| - 1]))
      case None => None
  }

  function ReadPieces(parts: seq<string>): Option<seq<Piece>> {
    if parts == [] then Some([])
    else
      match (ReadPiece(parts[0]), ReadPieces(parts[1..]))
      case (Some(p), Some(rest)) => Some([p] + rest)
      case _ => None
  }

  /** Reading a printed duration: pieces separated by single spaces. */
  function ReadDuration(text: string): Option<seq<Piece>> {
    ReadPieces(Split(text, ' '))
  }

  lemma {:induction false} ReadIntReadsBack(i: int)
    ensures ReadInt(Decimal(i)) == Some(i)
  {
    DigitsReadBack(Abs(i));
    if i < 0 {
      var s := Decimal(i);
      assert s[0] == '-' && s[1..] == Digits(-i);
      assert !IsDigit(s[0]);
    }
  }

  lemma {:induction false} PieceReadsBack(p: Piece)
    requires p.unit in {'h', 'm', 's'}
    ensures ReadPiece(PieceText(p)) == Some(p) && ' ' !in PieceText(p)
  {
    ReadIntReadsBack(p.count);
    DecimalHasNo(p.count, ' ');
    var s := PieceText(p);
    assert s[..|s| - 1] == Decimal(p.count);
  }

  function PieceTexts(pieces: seq<Piece>): seq<string> {
    seq(|pieces|, i requires 0 <= i < |pieces| => PieceText(pieces[i]))
  }

  lemma {:induction false} PieceTextsStep(pieces: seq<Piece>)
    requires pieces != []
    ensures PieceTexts(pieces) == [PieceText(pieces[0])] + PieceTexts(pieces[1..])
    ensures pieces == [pieces[0]] + pieces[1..]
  {
  }

  lemma {:induction false} PiecesReadBack(pieces: seq<Piece>)
    requires forall p :: p in pieces ==> p.unit in {'h', 'm', 's'}
    ensures ReadPieces(PieceTexts(pieces)) == Some(pieces)
  {
    if pieces != [] {
      PieceReadsBack(pieces[0]);
      PiecesReadBack(pieces[1..]);
      PieceTextsStep(pieces);
      ReadPiecesStep(PieceText(pieces[0]), PieceTexts(pieces[1..]));
    }
  }

  lemma {:induction false} ReadPiecesStep(part: string, parts: seq<string>)
    requires ReadPiece(part).Some? && ReadPieces(parts).Some?
    ensures ReadPieces([part] + parts) == Some([ReadPiece(part).value] + ReadPieces(parts).value)
  {
    assert ([part] + parts)[1..] == parts;
  }

  lemma {:induction false} JoinedPiecesReadBack(pieces: seq<Piece>)
    requires pieces != [] && forall p :: p in pieces ==> p.unit in {'h', 'm', 's'}
    ensures ReadDuration(Join(PieceTexts(pieces), ' ')) == Some(pieces)
  {
    var parts := PieceTexts(pieces);
    forall part | part in parts ensures ' ' !in part {
      var i :| 0 <= i < |parts| && parts[i] == part;
      assert pieces[i] in pieces;
      PieceReadsBack(pieces[i]);
    }
    JoinSplits(parts, ' ');
    PiecesReadBack(pieces);
  }

  /** Whole seconds, halves rounded up. */
  function RoundedSeconds(nanoseconds: nat): nat {
    (nanoseconds + 500000000) / 1000000000
  }

  /** The longest magnitude whose rounding still fits in 64 bits. */
  const LONGEST_ROUNDED := 9223372036499999999

  lemma {:induction false} RoundMeans(d: Duration)
    requires d >= 0
    ensures 0 <= Round(d) && Round(d) / SECOND == RoundedSeconds(d) <==> d <= LONGEST_ROUNDED
    ensures Round(d) % SECOND == 0 <==> d <= LONGEST_ROUNDED
  {
  }

  /** Hours before minutes before seconds; the small units below sixty; a zero only on its own. */
  predicate WellPrinted(pieces: seq<Piece>) {
    && (forall i, j :: 0 <= i < j < |pieces| ==> Weight(pieces[i].unit) > Weight(pieces[j].unit))
    && (forall i :: 0 <= i < |pieces| ==> pieces[i].unit in {'h', 'm', 's'})
    && (forall i :: 0 <= i < |pieces| && pieces[i].unit != 'h' ==> pieces[i].count < 60)
    && (forall i :: 0 <= i < |pieces| ==> pieces[i].count > 0 || pieces == [Piece(0, 's')])
  }

  /** The pieces printed for a clock reading. */
  function Pieces(hours: int, minutes: int, seconds: int): seq<Piece> {
    var long := (if hours > 0 then [Piece(hours, 'h')] else []) + (if minutes > 0 then [Piece(minutes, 'm')] else []);
    if seconds > 0 || |long| == 0 then long + [Piece(seconds, 's')] else long
  }

  lemma {:induction false} SecondsMore(pieces: seq<Piece>, p: Piece)
    ensures Seconds(pieces + [p]) == Seconds(pieces) + p.count * Weight(p.unit)
  {
    if pieces == [] {
      assert [] + [p] == [p] && [p][1..] == [];
    } else {
      SecondsMore(pieces[1..], p);
      assert (pieces + [p])[1..] == pieces[1..] + [p];
    }
  }

  lemma {:induction false} PiecesTotal(hours: int, minutes: int, seconds: int)
    requires 0 <= hours && 0 <= minutes && 0 <= seconds
    ensures Seconds(Pieces(hours, minutes, seconds)) == 3600 * hours + 60 * minutes + seconds
  {
    var first := if hours > 0 then [Piece(hours, 'h')] else [];
    var long := first + (if minutes > 0 then [Piece(minutes, 'm')] else []);
    SecondsMore([], Piece(hours, 'h'));
    SecondsMore(first, Piece(minutes, 'm'));
    SecondsMore(long, Piece(seconds, 's'));
    assert [] + [Piece(hours, 'h')] == [Piece(hours, 'h')];
    assert first + [] == first;
  }

  lemma {:induction false} PiecesWellPrinted(hours: int, minutes: int, seconds: int)
    requires 0 <= hours && 0 <= minutes < 60 && 0 <= seconds < 60
    ensures WellPrinted(Pieces(hours, minutes, seconds))
  {
    if hours == 0 && minutes == 0 && seconds == 0 {
      assert Pieces(hours, minutes, seconds) == [Piece(0, 's')];
    } else {
      PositivePiecesWellPrinted(hours, minutes, seconds);
    }
  }

  lemma {:induction false} PositivePiecesWellPrinted(hours: int, minutes: int, seconds: int)
    requires 0 <= hours && 0 <= minutes < 60 && 0 <= seconds < 60 && hours + minutes + seconds > 0
    ensures WellPrinted(Pieces(hours, minutes, seconds))
  {
    var pieces := Pieces(hours, minutes, seconds);
    assert |pieces| <= 3;
  }

  lemma {:induction false} ClockReading(duration: Duration)
    ensures var hours := Quotient(duration, HOUR);
            var afterHours := duration - hours * HOUR;
            var minutes := Quotient(afterHours, MINUTE);
            var seconds := Quotient(afterHours - minutes * MINUTE, SECOND);
            && (duration >= 0 ==> 0 <= hours && 0 <= minutes < 60 && 0 <= seconds < 60
                                  && 3600 * hours + 60 * minutes + seconds == duration / SECOND)
            && (duration == MIN_DURATION ==> hours < 0 && minutes < 0 && seconds == -16)
  {
  }

  /**
   * formatAlertDuration: reading the text gives back the magnitude rounded to the second, except
   * where the rounding overflows; the most negative duration is its own negation and prints wrongly.
   */
  method FormatAlertDuration(d: Duration) returns (text: string)
    ensures ReadDuration(text).Some?
    ensures Seconds(ReadDuration(text).value) == (Abs(d) + 500_000_000) / 1_000_000_000 <==> Abs(d) <= 9223372036499999999
    ensures WellPrinted(ReadDuration(text).value) <==> d != MIN_DURATION
    ensures d == MIN_DURATION ==> text == "-16s"
  {
    var duration := d;
    if duration < 0 {
      duration := Wrap(-(duration as int));
    }
    duration := Round(duration);
    ShownMeans(d);
    if duration == 0 {
      ZeroReadsBack();
      return "0s";
    }
    ghost var rounded: Duration := duration;
    var hours := Quotient(duration, HOUR);
    duration := duration - hours * HOUR;
    var minutes := Quotient(duration, MINUTE);
    duration := duration - minutes * MINUTE;
    var seconds := Quotient(duration, SECOND);
    var parts := Parts(hours, minutes, seconds);
    text := Join(parts, ' ');
    ClockReading(rounded);
    PrintedReadsBack(d, hours, minutes, seconds);
  }

  /** The texts of the units that are shown. */
  method Parts(hours: int, minutes: int, seconds: int) returns (parts: seq<string>)
    ensures parts == PieceTexts(Pieces(hours, minutes, seconds))
  {
    parts := [];
    if hours > 0 {
      parts := parts + [PieceText(Piece(hours, 'h'))];
    }
    if minutes > 0 {
      parts := parts + [PieceText(Piece(minutes, 'm'))];
    }
    if seconds > 0 || |parts| == 0 {
      parts := parts + [PieceText(Piece(seconds, 's'))];
    }
  }

  lemma {:induction false} PrintedReadsBack(d: Duration, hours: int, minutes: int, seconds: int)
    requires d != MIN_DURATION ==> 0 <= hours && 0 <= minutes < 60 && 0 <= seconds < 60
                                   && 3600 * hours + 60 * minutes + seconds == Shown(d) / SECOND
    requires d == MIN_DURATION ==> hours < 0 && minutes < 0 && seconds == -16
    ensures var pieces := ReadDuration(Join(PieceTexts(Pieces(hours, minutes, seconds)), ' '));
            && pieces.Some?
            && (Seconds(pieces.value) == RoundedSeconds(Abs(d)) <==> Abs(d) <= LONGEST_ROUNDED)
            && (WellPrinted(pieces.value) <==> d != MIN_DURATION)
    ensures d == MIN_DURATION ==> Join(PieceTexts(Pieces(hours, minutes, seconds)), ' ') == "-16s"
  {
    JoinedPiecesReadBack(Pieces(hours, minutes, seconds));
    PrintedMeans(d, hours, minutes, seconds);
  }

  /** The magnitude the alert prints, after rounding. */
  function Shown(d: Duration): Duration {
    Round(if d < 0 then Wrap(-(d as int)) else d)
  }

  lemma {:induction false} ShownMeans(d: Duration)
    ensures d == MIN_DURATION ==> Shown(d) == MIN_DURATION
    ensures d != MIN_DURATION ==> Shown(d) >= 0
                                  && (Shown(d) / SECOND == RoundedSeconds(Abs(d)) <==> Abs(d) <= LONGEST_ROUNDED)
  {
    if d != MIN_DURATION {
      RoundMeans(Abs(d));
    }
  }

  lemma {:induction false} PrintedMeans(d: Duration, hours: int, minutes: int, seconds: int)
    requires d != MIN_DURATION ==> 0 <= hours && 0 <= minutes < 60 && 0 <= seconds < 60
                                   && 3600 * hours + 60 * minutes + seconds == Shown(d) / SECOND
    requires d == MIN_DURATION ==> hours < 0 && minutes < 0 && seconds == -16
    ensures var pieces := Pieces(hours, minutes, seconds);
            && (Seconds(pieces) == RoundedSeconds(Abs(d)) <==> Abs(d) <= LONGEST_ROUNDED)
            && (WellPrinted(pieces) <==> d != MIN_DURATION)
            && (d == MIN_DURATION ==> PieceTexts(pieces) == ["-16s"])
  {
    ShownMeans(d);
    if d == MIN_DURATION {
      MostNegative();
      assert Pieces(hours, minutes, seconds) == [Piece(-16, 's')];
    } else {
      PiecesTotal(hours, minutes, seconds);
      PiecesWellPrinted(hours, minutes, seconds);
    }
  }

  lemma {:induction false} DigitTexts()
    ensures DigitChar(0) == '0' && DigitChar(1) == '1' && DigitChar(6) == '6'
  {
    assert '0' as int == 48 && '1' as int == 49 && '6' as int == 54;
    assert DigitChar(1) as int == 49 && DigitChar(6) as int == 54 && DigitChar(0) as int == 48;
  }

  lemma {:induction false} ZeroText()
    ensures PieceTexts([Piece(0, 's')]) == ["0s"]
  {
    DigitTexts();
    assert Decimal(0) == Digits(0) == "0";
    assert PieceText(Piece(0, 's')) == "0s";
  }

  lemma {:induction false} ZeroReadsBack()
    ensures ReadDuration("0s") == Some([Piece(0, 's')])
    ensures WellPrinted([Piece(0, 's')]) && Seconds([Piece(0, 's')]) == 0
  {
    ZeroText();
    var parts := PieceTexts([Piece(0, 's')]);
    assert Join(parts, ' ') == parts[0] == "0s";
    JoinedPiecesReadBack([Piece(0, 's')]);
  }

  lemma {:induction false} MostNegative()
    ensures PieceText(Piece(-16, 's')) == "-16s"
    ensures !WellPrinted([Piece(-16, 's')]) && Seconds([Piece(-16, 's')]) == -16
  {
    DigitTexts();
    var digits := Digits(16);
    assert digits == Digits(1) + [DigitChar(6)] == ['1', '6'];
    var text := PieceText(Piece(-16, 's'));
    assert text == "-" + digits + ['s'];
    assert text == ['-', '1', '6', 's'] == "-16s";
    assert Seconds([Piece(-16, 's')]) == -16;
    assert [Piece(-16, 's')][0] != Piece(0, 's');
    assert [Piece(-16, 's')][1..] == [];
  }

  // ----- reading configuration values -----

  predicate Numeric(c: char) { IsDigit(c) || c == '.' }

  /** One number and the unit that follows it. */
  datatype Quantity = Quantity(number: string, unit: string)

  /** Where the run of characters starting at i ends. */
  function NumberEnd(s: string, i: nat): (j: nat)
    requires i <= |s|
    ensures i <= j <= |s|
    decreases |s| - i
  {
    if i < |s| && Numeric(s[i]) then NumberEnd(s, i + 1) else i
  }

  function UnitEnd(s: string, i: nat): (j: nat)
    requires i <= |s|
    ensures i <= j <= |s|
    decreases |s| - i
  {
    if i < |s| && !Numeric(s[i]) then UnitEnd(s, i + 1) else i
  }

  /** The quantities written from position i on; None when the text there does not start with a number. */
  function Quantities(s: string, i: nat): Option<seq<Quantity>>
    requires i <= |s|
    decreases |s| - i
  {
    if i == |s| then Some([])
    else
      var j := NumberEnd(s, i);
      if j == i then None
      else
        var k := UnitEnd(s, j);
        match Quantities(s, k)
        case None => None
        case Some(rest) => Some([Quantity(s[i..j], s[j..k])] + rest)
  }

  function Written(qs: seq<Quantity>): string {
    if qs == [] then "" else qs[0].number + qs[0].unit + Written(qs[1..])
  }

  predicate AllNumeric(s: string) { forall i :: 0 <= i < |s| ==> Numeric(s[i]) }
  predicate NoneNumeric(s: string) { forall i :: 0 <= i < |s| ==> !Numeric(s[i]) }

  /** A text can be cut in one way only: numbers are not empty, and only the last unit may be. */
  predicate WellCut(qs: seq<Quantity>) {
    && (forall i :: 0 <= i < |qs| ==> qs[i].number != "" && AllNumeric(qs[i].number) && NoneNumeric(qs[i].unit))
    && (forall i :: 0 <= i < |qs| - 1 ==> qs[i].unit != "")
  }

  lemma {:induction false} NumberEndMeans(s: string, i: nat, j: nat)
    requires i <= j <= |s|
    requires AllNumeric(s[i..j]) && (j == |s| || !Numeric(s[j]))
    ensures NumberEnd(s, i) == j
    decreases j - i
  {
    if i < j {
      assert s[i] == s[i..j][0];
      assert s[i + 1..j] == s[i..j][1..];
      NumberEndMeans(s, i + 1, j);
    }
  }

  lemma {:induction false} UnitEndMeans(s: string, i: nat, j: nat)
    requires i <= j <= |s|
    requires NoneNumeric(s[i..j]) && (j == |s| || Numeric(s[j]))
    ensures UnitEnd(s, i) == j
    decreases j - i
  {
    if i < j {
      assert s[i] == s[i..j][0];
      assert s[i + 1..j] == s[i..j][1..];
      UnitEndMeans(s, i + 1, j);
    }
  }

  lemma {:induction false} NumberEnds(s: string, i: nat)
    requires i <= |s|
    ensures AllNumeric(s[i..NumberEnd(s, i)]) && (NumberEnd(s, i) == |s| || !Numeric(s[NumberEnd(s, i)]))
    decreases |s| - i
  {
    if i < |s| && Numeric(s[i]) {
      NumberEnds(s, i + 1);
      assert s[i..NumberEnd(s, i)] == [s[i]] + s[i + 1..NumberEnd(s, i + 1)];
    }
  }

  lemma {:induction false} UnitEnds(s: string, i: nat)
    requires i <= |s|
    ensures NoneNumeric(s[i..UnitEnd(s, i)]) && (UnitEnd(s, i) == |s| || Numeric(s[UnitEnd(s, i)]))
    decreases |s| - i
  {
    if i < |s| && !Numeric(s[i]) {
      UnitEnds(s, i + 1);
      assert s[i..UnitEnd(s, i)] == [s[i]] + s[i + 1..UnitEnd(s, i + 1)];
    }
  }

  lemma {:induction false} WellCutMore(q: Quantity, rest: seq<Quantity>)
    requires WellCut(rest) && q.number != "" && AllNumeric(q.number) && NoneNumeric(q.unit)
    requires rest != [] ==> q.unit != ""
    ensures WellCut([q] + rest)
  {
    var qs := [q] + rest;
    assert forall i :: 0 < i < |qs| ==> qs[i] == rest[i - 1];
  }

  /** Cutting loses nothing. */
  lemma {:induction false} CutWritesBack(s: string, i: nat)
    requires i <= |s| && Quantities(s, i).Some?
    ensures WellCut(Quantities(s, i).value) && Written(Quantities(s, i).value) == s[i..]
    decreases |s| - i
  {
    if i < |s| {
      var j := NumberEnd(s, i);
      var k := UnitEnd(s, j);
      NumberEnds(s, i);
      UnitEnds(s, j);
      CutWritesBack(s, k);
      var q, rest := Quantity(s[i..j], s[j..k]), Quantities(s, k).value;
      assert rest != [] ==> j < k;
      WellCutMore(q, rest);
      WrittenStep([q] + rest, "");
      assert ([q] + rest)[1..] == rest;
      Rejoin(s, i, j, k);
    }
  }

  lemma {:induction false} Rejoin(s: string, i: nat, j: nat, k: nat)
    requires i <= j <= k <= |s|
    ensures "" + s[i..j] + s[j..k] + s[k..] == s[i..]
  {
  }

  /** Writing loses nothing, wherever the text stands. */
  lemma {:induction false} WrittenCutsBack(qs: seq<Quantity>, before: string)
    requires WellCut(qs)
    ensures Quantities(before + Written(qs), |before|) == Some(qs)
    decreases |qs|
  {
    if qs != [] {
      var q, rest := qs[0], qs[1..];
      var upTo := before + q.number + q.unit;
      WellCutTail(qs);
      WrittenCutsBack(rest, upTo);
      FirstCutsBack(q, before, Written(rest));
      CutStep(upTo + Written(rest), |before|, |before| + |q.number|, |upTo|, q, rest);
      WrittenStep(qs, before);
    }
  }

  lemma {:induction false} Regroup(a: string, b: string, c: string, d: string)
    ensures a + (b + c + d) == a + b + c + d
  {
  }

  lemma {:induction false} WrittenStep(qs: seq<Quantity>, before: string)
    requires qs != []
    ensures before + Written(qs) == before + qs[0].number + qs[0].unit + Written(qs[1..])
    ensures qs == [qs[0]] + qs[1..]
  {
    Regroup(before, qs[0].number, qs[0].unit, Written(qs[1..]));
  }

  lemma {:induction false} WellCutTail(qs: seq<Quantity>)
    requires WellCut(qs) && qs != []
    ensures WellCut(qs[1..])
    ensures qs[0].number != "" && AllNumeric(qs[0].number) && NoneNumeric(qs[0].unit)
    ensures Written(qs[1..]) != "" ==> qs[0].unit != "" && Numeric(Written(qs[1..])[0])
  {
    var rest := qs[1..];
    assert forall i :: 0 <= i < |rest| ==> rest[i] == qs[i + 1];
    WrittenStartsNumeric(rest);
  }

  lemma {:induction false} CutStep(s: string, i: nat, j: nat, k: nat, q: Quantity, rest: seq<Quantity>)
    requires i < j <= k <= |s| && NumberEnd(s, i) == j && UnitEnd(s, j) == k
    requires q == Quantity(s[i..j], s[j..k]) && Quantities(s, k) == Some(rest)
    ensures Quantities(s, i) == Some([q] + rest)
  {
  }

  lemma {:induction false} FirstCutsBack(q: Quantity, before: string, after: string)
    requires q.number != "" && AllNumeric(q.number) && NoneNumeric(q.unit)
    requires after != "" ==> q.unit != "" && Numeric(after[0])
    ensures var s := before + q.number + q.unit + after;
            var j := |before| + |q.number|;
            && NumberEnd(s, |before|) == j && UnitEnd(s, j) == j + |q.unit|
            && s[|before|..j] == q.number && s[j..j + |q.unit|] == q.unit
  {
    var s, j := before + q.number + q.unit + after, |before| + |q.number|;
    assert s[|before|..j] == q.number && s[j..j + |q.unit|] == q.unit;
    assert q.unit != "" ==> s[j] == q.unit[0];
    assert after != "" ==> s[j + |q.unit|] == after[0];
    NumberEndMeans(s, |before|, j);
    UnitEndMeans(s, j, j + |q.unit|);
  }

  lemma {:induction false} WrittenStartsNumeric(qs: seq<Quantity>)
    requires WellCut(qs)
    ensures Written(qs) == "" <==> qs == []
    ensures qs != [] ==> Numeric(Written(qs)[0])
  {
    if qs != [] {
      assert Written(qs)[0] == qs[0].number[0];
    }
  }

  // ----- days -----

  /** Integers up to here are exact in a float64. */
  const EXACT := 0x20_0000_0000_0000

  predicate WholeNumber(number: string) {
    number != "" && AllDigits(number) && 24 * Number(number) <= EXACT
  }

  /**
   * strconv.FormatFloat(days * 24, 'f', -1, 64) after strconv.ParseFloat: exact for whole numbers;
   * other inputs go through floating point, which is left to the parameter.
   */
  function HoursText(number: string, floats: string -> Option<string>): Option<string> {
    if WholeNumber(number) then Some(Decimal(24 * Number(number))) else floats(number)
  }

  /** A day count becomes hours; everything else stays as it is written. */
  function Hours(q: Quantity, floats: string -> Option<string>): Option<Quantity> {
    if q.unit != "d" then Some(q)
    else
      match HoursText(q.number, floats)
      case None => None
      case Some(hours) => Some(Quantity(hours, "h"))
  }

  function InHours(qs: seq<Quantity>, floats: string -> Option<string>): Option<seq<Quantity>> {
    if qs == [] then Some([])
    else
      match (InHours(qs[..|qs| - 1], floats), Hours(qs[|qs| - 1], floats))
      case (Some(front), Some(last)) => Some(front + [last])
      case _ => None
  }

  /** time.ParseDuration's units, and the day. */
  function Nanoseconds(unit: string): Option<nat> {
    if unit == "ns" then Some(1)
    else if unit == "us" || unit == "\U{00B5}s" || unit == "\U{03BC}s" then Some(1000)
    else if unit == "ms" then Some(1000000)
    else if unit == "s" then Some(1000000000)
    else if unit == "m" then Some(60000000000)
    else if unit == "h" then Some(3600000000000)
    else if unit == "d" then Some(24 * 3600000000000)
    else None
  }

  function Scale(n: nat): (r: int)
    ensures r > 0
  {
    if n == 0 then 1 else 10 * Scale(n - 1)
  }

  /** A decimal number with at most one point and at least one digit. */
  function NumberValue(number: string): Option<real> {
    var dot := IndexOf(number, '.');
    var whole := if dot < 0 then number else number[..dot];
    var fraction := if dot < 0 then "" else number[dot + 1..];
    if AllDigits(whole) && AllDigits(fraction) && whole + fraction != ""
    then Some(Number(whole) as real + Number(fraction) as real / Scale(|fraction|) as real)
    else None
  }

  function QuantityValue(q: Quantity): Option<real> {
    match (NumberValue(q.number), Nanoseconds(q.unit))
    case (Some(x), Some(n)) => Some(x * n as real)
    case _ => None
  }

  function Values(qs: seq<Quantity>): seq<Option<real>> {
    seq(|qs|, i requires 0 <= i < |qs| => QuantityValue(qs[i]))
  }

  function Sum(values: seq<Option<real>>): Option<real> {
    if values == [] then Some(0.0)
    else
      match (Sum(values[..|values| - 1]), values[|values| - 1])
      case (Some(x), Some(y)) => Some(x + y)
      case _ => None
  }

  /** What a duration text stands for, in nanoseconds. */
  function Total(qs: seq<Quantity>): Option<real> {
    Sum(Values(qs))
  }

  predicate WholeDays(qs: seq<Quantity>) {
    forall i :: 0 <= i < |qs| && qs[i].unit == "d" ==> WholeNumber(qs[i].number)
  }

  lemma {:induction false} WholeNumberValue(number: string)
    requires number != "" && AllDigits(number)
    ensures NumberValue(number) == Some(Number(number) as real)
  {
    IndexOfMeans(number, '.');
  }

  lemma {:induction false} DecimalOfNat(n: nat)
    ensures Decimal(n) != "" && AllDigits(Decimal(n)) && AllNumeric(Decimal(n))
    ensures NumberValue(Decimal(n)) == Some(n as real)
  {
    DigitsReadBack(n);
    WholeNumberValue(Decimal(n));
  }

  lemma {:induction false} QuantityWorth(q: Quantity, x: real, n: nat)
    requires NumberValue(q.number) == Some(x) && Nanoseconds(q.unit) == Some(n)
    ensures QuantityValue(q) == Some(x * n as real)
  {
  }

  lemma {:induction false} HoursAndDays()
    ensures Nanoseconds("h") == Some(3600000000000) && Nanoseconds("d") == Some(24 * 3600000000000)
  {
  }

  lemma {:induction false} HourNanoseconds(days: nat)
    ensures (24 * days) as real * 3600000000000 as real == days as real * (24 * 3600000000000) as real
  {
  }

  lemma {:induction false} SameWorth(days: nat, number: string, hours: string)
    requires NumberValue(number) == Some(days as real) && NumberValue(hours) == Some((24 * days) as real)
    ensures QuantityValue(Quantity(hours, "h")) == QuantityValue(Quantity(number, "d"))
  {
    HoursAndDays();
    QuantityWorth(Quantity(number, "d"), days as real, 24 * 3600000000000);
    QuantityWorth(Quantity(hours, "h"), (24 * days) as real, 3600000000000);
    HourNanoseconds(days);
  }

  lemma {:induction false} DayInHours(number: string)
    requires WholeNumber(number)
    ensures QuantityValue(Quantity(Decimal(24 * Number(number)), "h")) == QuantityValue(Quantity(number, "d"))
  {
    DecimalOfNat(24 * Number(number));
    WholeNumberValue(number);
    SameWorth(Number(number), number, Decimal(24 * Number(number)));
  }

  lemma {:induction false} HoursOfOne(q: Quantity, floats: string -> Option<string>)
    requires q.number != "" && AllNumeric(q.number) && NoneNumeric(q.unit)
    requires q.unit == "d" ==> WholeNumber(q.number)
    ensures Hours(q, floats).Some?
    ensures var h := Hours(q, floats).value;
            && h.number != "" && AllNumeric(h.number) && NoneNumeric(h.unit)
            && h.unit != "d" && (h.unit == "" <==> q.unit == "")
            && QuantityValue(h) == QuantityValue(q)
  {
    if q.unit == "d" {
      DayInHours(q.number);
      DecimalOfNat(24 * Number(q.number));
    }
  }

  lemma {:induction false} InHoursEach(qs: seq<Quantity>, floats: string -> Option<string>)
    requires WellCut(qs) && WholeDays(qs)
    ensures InHours(qs, floats).Some? && |InHours(qs, floats).value| == |qs|
    ensures forall i :: 0 <= i < |qs| ==> Hours(qs[i], floats) == Some(InHours(qs, floats).value[i])
  {
    if qs != [] {
      InHoursEach(qs[..|qs| - 1], floats);
      HoursOfOne(qs[|qs| - 1], floats);
    }
  }

  /** Whole days become hours without changing the total, and no day is left. */
  lemma {:induction false} HoursKeepTotal(qs: seq<Quantity>, floats: string -> Option<string>)
    requires WellCut(qs) && WholeDays(qs)
    ensures InHours(qs, floats).Some?
    ensures var hs := InHours(qs, floats).value;
            && WellCut(hs) && Total(hs) == Total(qs)
            && (forall i :: 0 <= i < |hs| ==> hs[i].unit != "d")
  {
    InHoursEach(qs, floats);
    var hs := InHours(qs, floats).value;
    forall i | 0 <= i < |hs|
      ensures hs[i].number != "" && AllNumeric(hs[i].number) && NoneNumeric(hs[i].unit)
      ensures hs[i].unit != "d" && (hs[i].unit == "" <==> qs[i].unit == "")
      ensures QuantityValue(qs[i]) == QuantityValue(hs[i])
    {
      HoursOfOne(qs[i], floats);
    }
    assert Values(hs) == Values(qs);
  }

  // ----- the configuration parser -----

  predicate Signed(text: string) { text != "" && (text[0] == '+' || text[0] == '-') }

  function Sign(text: string): string {
    if Signed(text) then text[..1] else ""
  }

  function Unsigned(text: string): string {
    if Signed(text) then text[1..] else text
  }

  /** The text in which days are written as hours; None when it cannot be cut or a day count cannot be read. */
  function Rewritten(text: string, floats: string -> Option<string>): Option<string> {
    match Quantities(Unsigned(text), 0)
    case None => None
    case Some(qs) =>
      match InHours(qs, floats)
      case None => None
      case Some(hs) => Some(Sign(text) + Written(hs))
  }

  lemma {:induction false} InHoursFails(qs: seq<Quantity>, more: seq<Quantity>, floats: string -> Option<string>)
    requires InHours(qs, floats).None?
    ensures InHours(qs + more, floats).None?
  {
    if more == [] {
      assert qs + more == qs;
    } else {
      InHoursFails(qs, more[..|more| - 1], floats);
      assert (qs + more)[..|qs + more| - 1] == qs + more[..|more| - 1];
    }
  }

  lemma {:induction false} InHoursMore(qs: seq<Quantity>, q: Quantity, floats: string -> Option<string>)
    requires InHours(qs, floats).Some?
    ensures InHours(qs + [q], floats)
            == match Hours(q, floats) case None => None case Some(h) => Some(InHours(qs, floats).value + [h])
  {
    assert (qs + [q])[..|qs|] == qs;
  }

  lemma {:induction false} WrittenMore(qs: seq<Quantity>, q: Quantity)
    ensures Written(qs + [q]) == Written(qs) + q.number + q.unit
  {
    if qs == [] {
      assert [] + [q] == [q] && [q][1..] == [];
    } else {
      WrittenMore(qs[1..], q);
      assert (qs + [q])[1..] == qs[1..] + [q];
    }
  }

  /** The loop's state: what is cut so far, what it became, and what is still to be cut. */
  ghost predicate Converting(text: string, floats: string -> Option<string>, i: nat,
                             done: seq<Quantity>, hs: seq<Quantity>, converted: string)
  {
    var body := Unsigned(text);
    && i <= |body|
    && Quantities(body, 0) == (match Quantities(body, i) case None => None case Some(rest) => Some(done + rest))
    && InHours(done, floats) == Some(hs)
    && converted == Sign(text) + Written(hs)
  }

  lemma {:induction false} ConversionStarts(text: string, floats: string -> Option<string>)
    ensures Converting(text, floats, 0, [], [], Sign(text))
  {
    var cut := Quantities(Unsigned(text), 0);
    assert cut.Some? ==> [] + cut.value == cut.value;
  }

  /** The quantity at i, which the loop has scanned. */
  ghost predicate Scanned(body: string, i: nat, j: nat, k: nat, q: Quantity) {
    && i < j <= k <= |body| && NumberEnd(body, i) == j && UnitEnd(body, j) == k
    && q == Quantity(body[i..j], body[j..k])
  }

  lemma {:induction false} CutNext(body: string, i: nat, j: nat, k: nat, q: Quantity, done: seq<Quantity>)
    requires Scanned(body, i, j, k, q)
    requires Quantities(body, 0) == match Quantities(body, i) case None => None case Some(rest) => Some(done + rest)
    ensures Quantities(body, 0) == match Quantities(body, k) case None => None case Some(rest) => Some(done + [q] + rest)
  {
    if Quantities(body, k).Some? {
      var rest := Quantities(body, k).value;
      assert done + ([q] + rest) == done + [q] + rest;
    }
  }

  lemma {:induction false} ConversionGoesOn(text: string, floats: string -> Option<string>, i: nat, j: nat, k: nat,
                                            q: Quantity, h: Quantity, done: seq<Quantity>, hs: seq<Quantity>, converted: string)
    requires Converting(text, floats, i, done, hs, converted)
    requires Scanned(Unsigned(text), i, j, k, q) && Hours(q, floats) == Some(h)
    ensures Converting(text, floats, k, done + [q], hs + [h], converted + h.number + h.unit)
  {
    CutNext(Unsigned(text), i, j, k, q, done);
    InHoursMore(done, q, floats);
    WrittenMore(hs, h);
    Regroup(Sign(text), Written(hs), h.number, h.unit);
  }

  lemma {:induction false} ConversionFails(text: string, floats: string -> Option<string>, i: nat, j: nat, k: nat,
                                           q: Quantity, done: seq<Quantity>, hs: seq<Quantity>, converted: string)
    requires Converting(text, floats, i, done, hs, converted)
    requires Scanned(Unsigned(text), i, j, k, q) && Hours(q, floats).None?
    ensures Rewritten(text, floats).None?
  {
    var body := Unsigned(text);
    CutNext(body, i, j, k, q, done);
    InHoursMore(done, q, floats);
    if Quantities(body, k).Some? {
      InHoursFails(done + [q], Quantities(body, k).value, floats);
    }
  }

  lemma {:induction false} ConversionEnds(text: string, floats: string -> Option<string>, i: nat,
                                          done: seq<Quantity>, hs: seq<Quantity>, converted: string)
    requires Converting(text, floats, i, done, hs, converted)
    ensures i == |Unsigned(text)| ==> Rewritten(text, floats) == Some(converted)
    ensures i < |Unsigned(text)| && NumberEnd(Unsigned(text), i) == i ==> Rewritten(text, floats) == None
  {
    assert done + [] == done;
  }

  /** parseDuration's loop: copies the text, writing each day count as hours. */
  method RewriteDays(text: string, floats: string -> Option<string>) returns (r: Option<string>)
    ensures r == Rewritten(text, floats)
  {
    var body, converted, i := Unsigned(text), Sign(text), 0;
    ghost var done: seq<Quantity>, hs: seq<Quantity> := [], [];
    ConversionStarts(text, floats);
    while i < |body|
      invariant Converting(text, floats, i, done, hs, converted)
    {
      var start := i;
      while i < |body| && (IsDigit(body[i]) || body[i] == '.')
        invariant start <= i <= |body| && NumberEnd(body, start) == NumberEnd(body, i)
      {
        i := i + 1;
      }
      if start == i {
        ConversionEnds(text, floats, start, done, hs, converted);
        return None;
      }
      var number, unitStart := body[start..i], i;
      while i < |body| && !(IsDigit(body[i]) || body[i] == '.')
        invariant unitStart <= i <= |body| && UnitEnd(body, unitStart) == UnitEnd(body, i)
      {
        i := i + 1;
      }
      var unit := body[unitStart..i];
      ghost var q := Quantity(number, unit);
      if unit == "d" {
        var hours := HoursText(number, floats);
        if hours.None? {
          ConversionFails(text, floats, start, unitStart, i, q, done, hs, converted);
          return None;
        }
        ConversionGoesOn(text, floats, start, unitStart, i, q, Quantity(hours.value, "h"), done, hs, converted);
        converted := converted + hours.value + "h";
        done, hs := done + [q], hs + [Quantity(hours.value, "h")];
      } else {
        ConversionGoesOn(text, floats, start, unitStart, i, q, q, done, hs, converted);
        converted := converted + number + unit;
        done, hs := done + [q], hs + [q];
      }
    }
    ConversionEnds(text, floats, i, done, hs, converted);
    return Some(converted);
  }

  /**
   * With whole day counts the rewritten text has the sign and the total of the original,
   * and no day left for time.ParseDuration to refuse.
   */
  lemma {:induction false} RewritingKeepsTotal(text: string, floats: string -> Option<string>)
    requires var qs := Quantities(Unsigned(text), 0); qs.Some? && WholeDays(qs.value)
    ensures Rewritten(text, floats).Some?
    ensures var after := Rewritten(text, floats).value;
            var qs := Quantities(Unsigned(after), 0);
            && Sign(after) == Sign(text) && qs.Some?
            && Total(qs.value) == Total(Quantities(Unsigned(text), 0).value)
            && (forall i :: 0 <= i < |qs.value| ==> qs.value[i].unit != "d")
  {
    var qs := Quantities(Unsigned(text), 0).value;
    CutWritesBack(Unsigned(text), 0);
    HoursKeepTotal(qs, floats);
    var hs := InHours(qs, floats).value;
    SignStays(text, hs);
    WrittenCutsBack(hs, "");
    assert "" + Written(hs) == Written(hs);
  }

  /** A count of days, with or without a sign, is read as 24 times as many hours. */
  lemma {:induction false} DaysAreHours(sign: string, days: nat, floats: string -> Option<string>)
    requires sign in ["", "+", "-"] && 24 * days <= 9007199254740992
    ensures Rewritten(sign + (Decimal(days) + "d"), floats) == Some(sign + (Decimal(24 * days) + "h"))
  {
    var cut := [Quantity(Decimal(days), "d")];
    OneDayCut(days, cut);
    SignStays(sign, cut);
    OneInHours(cut, floats);
  }

  lemma {:induction false} OneDayCut(days: nat, cut: seq<Quantity>)
    requires cut == [Quantity(Decimal(days), "d")]
    ensures WellCut(cut) && Written(cut) == Decimal(days) + "d" && Quantities(Written(cut), 0) == Some(cut)
    ensures Decimal(days) != "" && AllDigits(Decimal(days)) && Number(Decimal(days)) == days
  {
    DigitsReadBack(days);
    DecimalOfNat(days);
    OneWritten(cut);
    WrittenCutsBack(cut, "");
    assert "" + Written(cut) == Written(cut);
  }

  lemma {:induction false} OneWritten(cut: seq<Quantity>)
    requires |cut| == 1
    ensures Written(cut) == cut[0].number + cut[0].unit
  {
    assert cut[1..] == [] && Written(cut[1..]) == "";
  }

  lemma {:induction false} OneInHours(cut: seq<Quantity>, floats: string -> Option<string>)
    requires |cut| == 1 && cut[0].unit == "d" && WholeNumber(cut[0].number)
    ensures InHours(cut, floats) == Some([Quantity(Decimal(24 * Number(cut[0].number)), "h")])
    ensures Written([Quantity(Decimal(24 * Number(cut[0].number)), "h")]) == Decimal(24 * Number(cut[0].number)) + "h"
  {
    var hours := Quantity(Decimal(24 * Number(cut[0].number)), "h");
    assert cut[..0] == [] && InHours(cut[..0], floats) == Some([]);
    assert [] + [hours] == [hours];
    OneWritten([hours]);
  }

  lemma {:induction false} SignStays(text: string, hs: seq<Quantity>)
    requires WellCut(hs)
    ensures Sign(Sign(text) + Written(hs)) == Sign(text) && Unsigned(Sign(text) + Written(hs)) == Written(hs)
  {
    WrittenStartsNumeric(hs);
    var after := Sign(text) + Written(hs);
    if Signed(text) {
      assert after[..1] == text[..1] && after[1..] == Written(hs);
    } else {
      assert after == Written(hs);
    }
  }

  /**
   * parseDuration, over time.ParseDuration as the parameter `parse`: a text the standard parser
   * accepts keeps its meaning; one with days is parsed after the days have become hours.
   */
  method ParseDuration(raw: string, parse: string -> Result<int>, floats: string -> Option<string>) returns (r: Result<int>)
    ensures var text := TrimSpace(raw);
            parse(text).Ok? || 'd' !in text ==> r == parse(text)
    ensures var text := TrimSpace(raw);
            parse(text).Err? && 'd' in text ==>
              match Rewritten(text, floats)
              case None => r.Err?
              case Some(converted) => r == parse(converted)
  {
    var text := TrimSpace(raw);
    var parsed := parse(text);
    if parsed.Ok? || 'd' !in text {
      return parsed;
    }
    var converted := RewriteDays(text, floats);
    match converted {
      case None => return Err("invalid duration");
      case Some(value) => return parse(value);
    }
  }
}
