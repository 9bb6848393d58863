/** The pieces of Rust's `str` and integer parsing that the parsers rely on. */
module Text {
  import opened Wrappers

  // ---- Numbers ----------------------------------------------------------------------------------

  predicate IsDigit(c: char) {
    '0' <= c <= '9'
  }

  function DigitValue(c: char): nat
    requires IsDigit(c)
  {
    c as nat - '0' as nat
  }

  /** Decimal rendering without leading zeros. */
  function Decimal(n: nat): (text: string)
    ensures text != "" && forall i | 0 <= i < |text| :: IsDigit(text[i])
  {
    var digit := [('0' as nat + n % 10) as char];
    if n < 10 then digit else Decimal(n / 10) + digit
  }

  /** The value of a digit string, or None if it is empty or holds anything but digits. */
  function DigitsValue(text: string): Option<nat> {
    if text == "" then None
    else if !IsDigit(text[|text| - 1]) then None
    else
      var low := DigitValue(text[|text| - 1]);
      if |text| == 1 then Some(low)
      else
        match DigitsValue(text[..|text| - 1])
        case None => None
        case Some(high) => Some(10 * high + low)
  }

  /** `parse` of an unsigned integer below `range`: digits, with an optional leading plus sign. */
  function ParseUnsigned(text: string, range: nat): (r: Option<nat>)
    ensures r.Some? ==> r.value < range
  {
    var digits := if |text| > 1 && text[0] == '+' then text[1..] else text;
    match DigitsValue(digits)
    case None => None
    case Some(n) => if n < range then Some(n) else None
  }

  lemma {:induction false} DigitsRoundTrip(n: nat)
    ensures DigitsValue(Decimal(n)) == Some(n)
  {
    if n >= 10 {
      DigitsRoundTrip(n / 10);
      var text := Decimal(n);
      assert text[..|text| - 1] == Decimal(n / 10);
    }
  }

  lemma ParseDecimal(n: nat, range: nat)
    ensures ParseUnsigned(Decimal(n), range) == if n < range then Some(n) else None
  {
    DigitsRoundTrip(n);
    assert IsDigit(Decimal(n)[0]);
  }

  predicate IsNumeral(text: string) {
    text != "" && forall i | 0 <= i < |text| :: text[i] in "0123456789"
  }

  /** Read from the left, after a number that stands before. */
  function NumeralValue(before: nat, text: string): nat
    requires forall i | 0 <= i < |text| :: text[i] in "0123456789"
    decreases |text|
  {
    if text == "" then before else NumeralValue(10 * before + (text[0] as int - 48), text[1..])
  }

  lemma {:induction false} NumeralSnoc(before: nat, text: string)
    requires IsNumeral(text)
    ensures NumeralValue(before, text)
         == 10 * NumeralValue(before, text[..|text| - 1]) + (text[|text| - 1] as int - 48)
    decreases |text|
  {
    if |text| == 1 {
      assert text[1..] == "" && text[..0] == "";
    } else {
      NumeralSnoc(10 * before + (text[0] as int - 48), text[1..]);
      assert text[1..][..|text| - 2] == text[..|text| - 1][1..];
    }
  }

  lemma NumeralInit(text: string)
    requires |text| > 1
    ensures IsNumeral(text) <==> IsNumeral(text[..|text| - 1]) && text[|text| - 1] in "0123456789"
  {
    var init := text[..|text| - 1];
    if IsNumeral(init) && text[|text| - 1] in "0123456789" {
      forall i | 0 <= i < |text| ensures text[i] in "0123456789" {
        assert i < |init| ==> text[i] == init[i];
      }
    }
  }

  lemma {:induction false} DigitsValueIs(text: string)
    ensures DigitsValue(text) == if IsNumeral(text) then Some(NumeralValue(0, text)) else None
    decreases |text|
  {
    if text != "" {
      DigitIs(text[|text| - 1]);
      if |text| > 1 {
        NumeralInit(text);
        DigitsValueIs(text[..|text| - 1]);
      }
      if IsNumeral(text) {
        NumeralSnoc(0, text);
      }
      hide IsDigit;
    }
  }

  lemma DigitIs(c: char)
    ensures IsDigit(c) <==> c in "0123456789"
  {
    if IsDigit(c) {
      var digits := "0123456789";
      assert digits[c as int - 48] == c;
    }
  }

  /** Digits, or a plus sign and digits, are a number if it is below the range; nothing else is. */
  lemma ParseUnsignedIs(text: string, range: nat)
    ensures var signed := text != "" && text[0] == '+' && IsNumeral(text[1..]);
      ParseUnsigned(text, range) ==
        if IsNumeral(text) && NumeralValue(0, text) < range then Some(NumeralValue(0, text))
        else if signed && NumeralValue(0, text[1..]) < range then Some(NumeralValue(0, text[1..]))
        else None
  {
    DigitsValueIs(text);
    if text != "" {
      DigitsValueIs(text[1..]);
    }
    hide DigitsValue, NumeralValue;
    assert text != "" && text[0] == '+' ==> !IsNumeral(text);
  }

  /** A number is written as digits with that value, the first one no zero unless it is the only one. */
  lemma {:induction false} DecimalIs(n: nat)
    ensures var text := Decimal(n);
      IsNumeral(text) && NumeralValue(0, text) == n && (|text| > 1 ==> text[0] != '0')
  {
    var text := Decimal(n);
    forall i | 0 <= i < |text| ensures text[i] in "0123456789" {
      DigitIs(text[i]);
    }
    DigitsRoundTrip(n);
    DigitsValueIs(text);
    if n >= 10 {
      DecimalIs(n / 10);
    }
  }

  // ---- Splitting --------------------------------------------------------------------------------

  predicate Free(text: string, c: char) {
    forall i | 0 <= i < |text| :: text[i] != c
  }

  /** `split(c)`: the pieces between separators; never empty. */
  function Split(text: string, c: char): (pieces: seq<string>)
    ensures pieces != [] && forall i | 0 <= i < |pieces| :: Free(pieces[i], c)
  {
    if text == "" then [""]
    else
      var rest := Split(text[1..], c);
      if text[0] == c then [""] + rest else [[text[0]] + rest[0]] + rest[1..]
  }

  function Join(pieces: seq<string>, c: char): string
    requires pieces != []
  {
    if |pieces| == 1 then pieces[0] else pieces[0] + [c] + Join(pieces[1..], c)
  }

  lemma {:induction false} JoinOfSplit(text: string, c: char)
    ensures Join(Split(text, c), c) == text
  {
    if text != "" {
      JoinOfSplit(text[1..], c);
      var rest := Split(text[1..], c);
      if text[0] != c && |rest| > 1 {
        assert Split(text, c)[1..] == rest[1..];
      } else if text[0] == c {
        assert Split(text, c)[1..] == rest;
      }
    }
  }

  lemma {:induction false} SplitOfJoin(pieces: seq<string>, c: char)
    requires pieces != [] && forall i | 0 <= i < |pieces| :: Free(pieces[i], c)
    ensures Split(Join(pieces, c), c) == pieces
    decreases |pieces|, |pieces[0]|
  {
    var text := Join(pieces, c);
    if pieces[0] == "" {
      if |pieces| > 1 {
        assert text[1..] == Join(pieces[1..], c);
        SplitOfJoin(pieces[1..], c);
      }
    } else {
      var shorter := [pieces[0][1..]] + pieces[1..];
      assert shorter[1..] == pieces[1..];
      assert text[1..] == Join(shorter, c);
      SplitOfJoin(shorter, c);
      assert pieces[0] == [pieces[0][0]] + pieces[0][1..];
    }
  }

  /** Joining the first i pieces gives a prefix, followed by the separator if there are more. */
  lemma {:induction false} JoinOfPrefix(pieces: seq<string>, c: char, i: nat)
    requires 0 < i <= |pieces|
    ensures if i == |pieces| then Join(pieces[..i], c) == Join(pieces, c)
            else Join(pieces[..i], c) + [c] + Join(pieces[i..], c) == Join(pieces, c)
  {
    if i == |pieces| {
      assert pieces[..i] == pieces;
    } else if i > 1 {
      assert pieces[..i][1..] == pieces[1..][..i - 1] && pieces[1..][i - 1..] == pieces[i..];
      JoinOfPrefix(pieces[1..], c, i - 1);
    }
  }

  // ---- Searching --------------------------------------------------------------------------------

  predicate OccursAt(text: string, part: string, i: nat) {
    i + |part| <= |text| && text[i..i + |part|] == part
  }

  predicate Contains(text: string, part: string) {
    exists i | 0 <= i <= |text| :: OccursAt(text, part, i)
  }

  /** Position of the first occurrence at or after `start`. */
  function FindFrom(text: string, part: string, start: nat): (r: Option<nat>)
    requires start <= |text|
    ensures match r
      case Some(i) => start <= i && OccursAt(text, part, i) && forall j | start <= j < i :: !OccursAt(text, part, j)
      case None => forall j | start <= j <= |text| :: !OccursAt(text, part, j)
    decreases |text| - start
  {
    if OccursAt(text, part, start) then Some(start)
    else if start == |text| then None
    else FindFrom(text, part, start + 1)
  }

  // ---- White space and lines --------------------------------------------------------------------

  /** The characters with the Unicode White_Space property. */
  predicate IsSpace(c: char) {
    || 0x9 as char <= c <= 0xD as char || c == ' ' || c == 0x85 as char || c == 0xA0 as char
    || c == 0x1680 as char || 0x2000 as char <= c <= 0x200A as char || c == 0x2028 as char
    || c == 0x2029 as char || c == 0x202F as char || c == 0x205F as char || c == 0x3000 as char
  }

  /** White space, code point by code point. */
  lemma SpaceIs(c: char)
    ensures IsSpace(c) <==> c as int in {9, 10, 11, 12, 13, 32, 133, 160, 5760, 8192, 8193, 8194, 8195, 8196, 8197,
      8198, 8199, 8200, 8201, 8202, 8232, 8233, 8239, 8287, 12288}
  {
  }

  function TrimStart(text: string): (r: string)
    ensures |r| <= |text| && r == text[|text| - |r|..]
    ensures forall i | 0 <= i < |text| - |r| :: IsSpace(text[i])
    ensures r != "" ==> !IsSpace(r[0])
  {
    if text != "" && IsSpace(text[0]) then TrimStart(text[1..]) else text
  }

  function TrimEnd(text: string): (r: string)
    ensures |r| <= |text| && r == text[..|r|]
    ensures forall i | |r| <= i < |text| :: IsSpace(text[i])
    ensures r != "" ==> !IsSpace(r[|r| - 1])
  {
    if text != "" && IsSpace(text[|text| - 1]) then TrimEnd(text[..|text| - 1]) else text
  }

  function Trim(text: string): string {
    TrimEnd(TrimStart(text))
  }

  lemma AroundCut(text: string, k: nat)
    requires k <= |text|
    ensures text == text[..k] + text[k..]
  {
  }

  /** Trimming takes off white space at both ends, and all of it. */
  lemma TrimIs(text: string) returns (before: string, after: string)
    ensures text == before + Trim(text) + after
    ensures forall i | 0 <= i < |before| :: IsSpace(before[i])
    ensures forall i | 0 <= i < |after| :: IsSpace(after[i])
    ensures Trim(text) == "" || (!IsSpace(Trim(text)[0]) && !IsSpace(Trim(text)[|Trim(text)| - 1]))
  {
    hide IsSpace, TrimStart, TrimEnd;
    var started, trimmed := TrimStart(text), Trim(text);
    before, after := text[..|text| - |started|], started[|trimmed|..];
    assert started == text[|before|..];
    AroundCut(text, |before|);
    assert trimmed == TrimEnd(started) == started[..|trimmed|];
    AroundCut(started, |trimmed|);
    Associative(before, trimmed, after);
  }

  /** Neither starts nor ends with white space, and is not empty. */
  predicate Tight(text: string) {
    text != "" && !IsSpace(text[0]) && !IsSpace(text[|text| - 1])
  }

  lemma TrimOfTight(text: string)
    requires Tight(text)
    ensures Trim(text) == text
  {
  }

  lemma TrimStartKeeps(text: string, part: string, i: nat)
    requires Tight(part) && OccursAt(text, part, i)
    ensures |text| - |TrimStart(text)| <= i
    ensures OccursAt(TrimStart(text), part, i - (|text| - |TrimStart(text)|))
  {
    hide TrimStart;
    var r := TrimStart(text);
    var cut := |text| - |r|;
    assert text[i..i + |part|][0] == text[i];
    assert r[i - cut..i - cut + |part|] == text[i..i + |part|];
  }

  lemma TrimEndKeeps(text: string, part: string, i: nat)
    requires Tight(part) && OccursAt(text, part, i)
    ensures OccursAt(TrimEnd(text), part, i)
  {
    hide TrimEnd;
    var r := TrimEnd(text);
    assert text[i..i + |part|][|part| - 1] == text[i + |part| - 1];
    assert |r| >= i + |part|;
    assert r[i..i + |part|] == text[i..i + |part|];
  }

  /** Trimming does not lose an occurrence of a tight part. */
  lemma TrimKeeps(text: string, part: string, i: nat)
    requires Tight(part) && OccursAt(text, part, i)
    ensures Contains(Trim(text), part)
  {
    hide TrimStart, TrimEnd, OccursAt;
    TrimStartKeeps(text, part, i);
    var k := i - (|text| - |TrimStart(text)|);
    TrimEndKeeps(TrimStart(text), part, k);
    OccursWithin(Trim(text), part, k);
  }

  lemma OccursWithin(text: string, part: string, i: nat)
    requires OccursAt(text, part, i)
    ensures Contains(text, part)
  {
  }

  function StripCr(line: string): string {
    if line != "" && line[|line| - 1] == '\r' then line[..|line| - 1] else line
  }

  /** `lines`: split at line feeds, no last empty line; a carriage return before a line feed is dropped. */
  function Lines(text: string): seq<string> {
    var pieces := Split(text, '\n');
    var n := if pieces[|pieces| - 1] == "" then |pieces| - 1 else |pieces|;
    seq(n, i requires 0 <= i < n => if i < |pieces| - 1 then StripCr(pieces[i]) else pieces[i])
  }

  function Unlines(lines: seq<string>): string {
    if lines == [] then "" else lines[0] + "\n" + Unlines(lines[1..])
  }

  predicate IsLine(line: string) {
    Free(line, '\n') && Free(line, '\r')
  }

  lemma {:induction false} UnlinesIsJoin(lines: seq<string>)
    ensures Unlines(lines) == Join(lines + [""], '\n')
  {
    if lines != [] {
      assert (lines + [""])[1..] == lines[1..] + [""];
      UnlinesIsJoin(lines[1..]);
    }
  }

  lemma SplitOfUnlines(lines: seq<string>)
    requires forall i | 0 <= i < |lines| :: IsLine(lines[i])
    ensures Split(Unlines(lines), '\n') == lines + [""]
  {
    UnlinesIsJoin(lines);
    hide Join, Unlines, Split;
    var pieces := lines + [""];
    forall i | 0 <= i < |pieces| ensures Free(pieces[i], '\n') {
      assert i < |lines| ==> IsLine(lines[i]);
    }
    SplitOfJoin(pieces, '\n');
  }

  /** Text written line by line is read back line by line. */
  lemma LinesOfUnlines(lines: seq<string>)
    requires forall i | 0 <= i < |lines| :: IsLine(lines[i])
    ensures Lines(Unlines(lines)) == lines
  {
    SplitOfUnlines(lines);
    hide Split, Join, Unlines;
    forall i | 0 <= i < |lines| ensures StripCr((lines + [""])[i]) == lines[i] {
      assert IsLine(lines[i]) && Free(lines[i], '\r');
    }
    hide StripCr, Free, IsLine;
  }

  /** The lines of any text: of its pieces between line feeds all but the last lose a carriage return at the end;
      the last piece is a line, as it is, unless it is empty. */
  lemma LinesAre(pieces: seq<string>, last: string)
    requires (forall i | 0 <= i < |pieces| :: Free(pieces[i], '\n')) && Free(last, '\n')
    ensures var lines := Lines(Join(pieces + [last], '\n'));
      && |lines| == (if last == "" then |pieces| else |pieces| + 1)
      && (forall i | 0 <= i < |pieces| ::
            || lines[i] + "\r" == pieces[i]
            || (lines[i] == pieces[i] && (pieces[i] == "" || pieces[i][|pieces[i]| - 1] != '\r')))
      && (last != "" ==> lines[|pieces|] == last)
  {
    SplitOfJoin(pieces + [last], '\n');
    hide Split, Join, Free;
    forall i | 0 <= i < |pieces|
      ensures var line, piece := StripCr((pieces + [last])[i]), pieces[i];
        line + "\r" == piece || (line == piece && (piece == "" || piece[|piece| - 1] != '\r'))
    {
      StripCrIs(pieces[i]);
    }
    hide StripCr;
  }

  lemma StripCrIs(piece: string)
    ensures StripCr(piece) + "\r" == piece || (StripCr(piece) == piece && (piece == "" || piece[|piece| - 1] != '\r'))
  {
  }
}
