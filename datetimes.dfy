/**
 * The date decoding of the metadata loader (`_getDateTime`): Python's
 * `datetime.strptime` for the directives the loader's two formats use, the
 * formats tried in order on each date tag, and the earliest of the dates read.
 *
 * `strptime` compiles its format into a regular expression: each directive
 * becomes a group of alternatives, a run of format whitespace becomes `\s+`,
 * and other characters match themselves ignoring case. The expression is
 * matched at the start of the text, the first way through it (alternatives in
 * order, `\s+` longest first) wins, and text left over after it is an error,
 * as is a date the calendar does not have.
 */
module DateTimes {
  import opened Wrappers
  import opened Text
  import opened Numbers
  import opened Documents

  /** A naive `datetime.datetime` to the second. */
  datatype DateTime = DateTime(year: int, month: int, day: int, hour: int, minute: int, second: int)

  /** `a < b`: field by field, the year first. */
  predicate Before(a: DateTime, b: DateTime) {
    if a.year != b.year then a.year < b.year
    else if a.month != b.month then a.month < b.month
    else if a.day != b.day then a.day < b.day
    else if a.hour != b.hour then a.hour < b.hour
    else if a.minute != b.minute then a.minute < b.minute
    else a.second < b.second
  }

  /** `a <= b` */
  predicate NotAfter(a: DateTime, b: DateTime) {
    !Before(b, a)
  }

  /** `<=` on dates is a total order. */
  lemma NotAfterIsTotalOrder(a: DateTime, b: DateTime, c: DateTime)
    ensures NotAfter(a, a)
    ensures NotAfter(a, b) || NotAfter(b, a)
    ensures NotAfter(a, b) && NotAfter(b, a) ==> a == b
    ensures NotAfter(a, b) && NotAfter(b, c) ==> NotAfter(a, c)
  {
  }

  predicate IsLeapYear(y: int) {
    y % 4 == 0 && (y % 100 != 0 || y % 400 == 0)
  }

  function DaysInMonth(y: int, m: int): int
    requires 1 <= m <= 12
  {
    if m == 2 then (if IsLeapYear(y) then 29 else 28)
    else if m == 4 || m == 6 || m == 9 || m == 11 then 30
    else 31
  }

  /** The dates `datetime.datetime` accepts (no leap second). */
  predicate IsValid(d: DateTime) {
    1 <= d.year <= 9999 && 1 <= d.month <= 12 && 1 <= d.day <= DaysInMonth(d.year, d.month)
    && 0 <= d.hour <= 23 && 0 <= d.minute <= 59 && 0 <= d.second <= 59
  }

  /** The fields `strptime` starts from before the directives overwrite them. */
  const DefaultFields := DateTime(1900, 1, 1, 0, 0, 0)

  // ---------------------------------------------------------------------------
  // The compiled format

  /** A character class `[lo-hi]`. */
  datatype CharClass = Range(lo: char, hi: char)

  /** One alternative of a directive's pattern: one class per character. */
  type Alternative = seq<CharClass>

  const AnyDigit := Range('0', '9')

  function Only(c: char): CharClass {
    Range(c, c)
  }

  /** The directives this model knows. */
  predicate IsDirective(c: char) {
    c == 'Y' || c == 'm' || c == 'd' || c == 'H' || c == 'M' || c == 'S'
  }

  /**
   * The alternatives of a directive's pattern in the order the regular
   * expression tries them; none for a directive outside the six, which
   * `strptime` does not accept here.
   */
  function Alternatives(directive: char): (alts: seq<Alternative>)
    ensures alts != [] <==> IsDirective(directive)
  {
    match directive
    case 'Y' => [[AnyDigit, AnyDigit, AnyDigit, AnyDigit]]
    case 'm' => [[Only('1'), Range('0', '2')], [Only('0'), Range('1', '9')], [Range('1', '9')]]
    case 'd' => [[Only('3'), Range('0', '1')], [Range('1', '2'), AnyDigit], [Only('0'), Range('1', '9')],
                 [Range('1', '9')], [Only(' '), Range('1', '9')]]
    case 'H' => [[Only('2'), Range('0', '3')], [Range('0', '1'), AnyDigit], [AnyDigit]]
    case 'M' => [[Range('0', '5'), AnyDigit], [AnyDigit]]
    case 'S' => [[Only('6'), Range('0', '1')], [Range('0', '5'), AnyDigit], [AnyDigit]]
    case _ => []
  }

  /** `alt` matches the first `|alt|` characters of `v`. */
  predicate MatchesAt(v: string, alt: Alternative) {
    |alt| <= |v| && forall i :: 0 <= i < |alt| ==> alt[i].lo <= v[i] <= alt[i].hi
  }

  /** The field a directive sets, given the number it read. */
  function SetField(acc: DateTime, directive: char, n: int): DateTime {
    match directive
    case 'Y' => acc.(year := n)
    case 'm' => acc.(month := n)
    case 'd' => acc.(day := n)
    case 'H' => acc.(hour := n)
    case 'M' => acc.(minute := n)
    case 'S' => acc.(second := n)
    case _ => acc
  }

  /** How many whitespace characters `v` starts with. */
  function SpaceRun(v: string): (n: nat)
    ensures n <= |v|
    ensures forall i :: 0 <= i < n ==> IsSpace(v[i])
    ensures n == |v| || !IsSpace(v[n])
  {
    StripLeftIsSuffix(v);
    |v| - |StripLeft(v)|
  }

  /**
   * The compiled `fmt` matched at the start of `v` with the fields `acc` read
   * so far: the fields at the end of the pattern and the text left over, or
   * None when no way through the pattern exists.
   */
  function Match(v: string, fmt: string, acc: DateTime): Option<(DateTime, string)>
    decreases |fmt|, 1, 0
  {
    if fmt == [] then Some((acc, v))
    else if IsSpace(fmt[0]) then MatchSpaces(v, StripLeft(fmt[1..]), acc, SpaceRun(v))
    else if fmt[0] == '%' then
      if |fmt| < 2 then None  // a stray `%`
      else TryAlternatives(v, fmt, acc, Alternatives(fmt[1]))
    else if v != [] && LowerChar(v[0]) == LowerChar(fmt[0]) then Match(v[1..], fmt[1..], acc)
    else None
  }

  /** `\s+` before the rest `fmt` of the pattern: `n` whitespace characters, then fewer. */
  function MatchSpaces(v: string, fmt: string, acc: DateTime, n: nat): Option<(DateTime, string)>
    requires n <= |v|
    decreases |fmt|, 2, n
  {
    if n == 0 then None
    else
      match Match(v[n..], fmt, acc)
      case Some(r) => Some(r)
      case None => MatchSpaces(v, fmt, acc, n - 1)
  }

  /** The directive `fmt[1]` tried with each of `alts` in turn; the number read is `int()` of the text it matched. */
  function TryAlternatives(v: string, fmt: string, acc: DateTime, alts: seq<Alternative>): Option<(DateTime, string)>
    requires |fmt| >= 2
    decreases |fmt|, 0, |alts|
  {
    if alts == [] then None
    else
      var w := |alts[0]|;
      var first :=
        if MatchesAt(v, alts[0]) then
          match ParseInt(v[..w])
          case Some(n) => Match(v[w..], fmt[2..], SetField(acc, fmt[1], n))
          case None => None
        else None;
      if first.Some? then first else TryAlternatives(v, fmt, acc, alts[1..])
  }

  /** `datetime.strptime(v, fmt)`; None where it raises ValueError. */
  function Strptime(v: string, fmt: string): (r: Option<DateTime>)
    ensures r.Some? ==> IsValid(r.value)
  {
    match Match(v, fmt, DefaultFields)
    case None => None
    case Some((d, rest)) => if rest == [] && IsValid(d) then Some(d) else None
  }

  // ---------------------------------------------------------------------------
  // The text a date is written as

  /** `n` as exactly `width` digits, zero-padded on the left. */
  function Padded(n: nat, width: nat): (s: string)
    ensures |s| == width && AllDigits(s)
    ensures n < Pow10(width) ==> DigitsValue(s) == n
  {
    if width == 0 then []
    else
      var s := Padded(n / 10, width - 1) + [DigitChar(n % 10)];
      assert s[..|s| - 1] == Padded(n / 10, width - 1);
      s
  }

  /** The number a directive stands for in `d`. */
  function FieldOf(d: DateTime, directive: char): int {
    match directive
    case 'Y' => d.year
    case 'm' => d.month
    case 'd' => d.day
    case 'H' => d.hour
    case 'M' => d.minute
    case _ => d.second
  }

  /** The text of a directive: four digits for the year, two for the rest. */
  function FieldText(d: DateTime, directive: char): string
    requires IsValid(d)
  {
    var n := FieldOf(d, directive);
    if n < 0 then [] else Padded(n, if directive == 'Y' then 4 else 2)
  }

  /** Every `%` of `fmt` starts one of the six directives. */
  predicate WellFormed(fmt: string)
    decreases |fmt|
  {
    fmt == [] ||
    if fmt[0] == '%' then |fmt| >= 2 && IsDirective(fmt[1]) && WellFormed(fmt[2..])
    else WellFormed(fmt[1..])
  }

  /** `d` written in `fmt`, the way a camera writes a date tag. */
  function Render(d: DateTime, fmt: string): string
    requires IsValid(d)
    decreases |fmt|
  {
    if fmt == [] then []
    else if fmt[0] == '%' && |fmt| >= 2 then FieldText(d, fmt[1]) + Render(d, fmt[2..])
    else [fmt[0]] + Render(d, fmt[1..])
  }

  /** The fields `acc` after the directives of `fmt` have set theirs from `d`. */
  function Fill(acc: DateTime, d: DateTime, fmt: string): DateTime
    decreases |fmt|
  {
    if fmt == [] then acc
    else if fmt[0] == '%' && |fmt| >= 2 then Fill(SetField(acc, fmt[1], FieldOf(d, fmt[1])), d, fmt[2..])
    else Fill(acc, d, fmt[1..])
  }

  // ---------------------------------------------------------------------------
  // Reading back what was written

  lemma DigitIsNotSpace(c: char)
    requires IsDigit(c)
    ensures !IsSpace(c) && c != '+' && c != '-'
  {
  }

  /** `int(s)` of a string of digits is its decimal value. */
  lemma {:induction false} ParseIntOfDigits(s: string)
    requires s != [] && AllDigits(s)
    ensures ParseInt(s) == Some(DigitsValue(s) as int)
  {
    DigitIsNotSpace(s[0]);
    DigitIsNotSpace(s[|s| - 1]);
    TrimOfTrimmed(s);
  }

  lemma {:induction false} PaddedTwo(n: nat)
    requires n < 100
    ensures Padded(n, 2) == [DigitChar(n / 10), DigitChar(n % 10)]
  {
    assert Padded(n / 10, 1) == Padded(n / 100, 0) + [DigitChar(n / 10 % 10)];
  }

  /** `alts[j]` is the first alternative that matches `x`, it reads all of `x`, and no alternative is longer. */
  predicate FirstMatchReadsAll(x: string, alts: seq<Alternative>, j: nat) {
    j < |alts| && |alts[j]| == |x| && MatchesAt(x, alts[j])
    && (forall i :: 0 <= i < j ==> !MatchesAt(x, alts[i]))
    && (forall i :: 0 <= i < |alts| ==> |alts[i]| <= |x|)
  }

  /** `%m` and `%d` on the two digits of a month or a day. */
  lemma {:induction false} DateAlternativeReadsAll(c: char, n: nat) returns (j: nat)
    requires (c == 'm' && 1 <= n <= 12) || (c == 'd' && 1 <= n <= 31)
    ensures FirstMatchReadsAll([DigitChar(n / 10), DigitChar(n % 10)], Alternatives(c), j)
  {
    var x: string := [DigitChar(n / 10), DigitChar(n % 10)];
    assert x[0] as int == '0' as int + n / 10 && x[1] as int == '0' as int + n % 10;
    if c == 'm' {
      j := if n >= 10 then 0 else 1;
    } else {
      j := if n >= 30 then 0 else if n >= 10 then 1 else 2;
    }
  }

  /** `%H`, `%M` and `%S` on the two digits of an hour, a minute or a second. */
  lemma {:induction false} TimeAlternativeReadsAll(c: char, n: nat) returns (j: nat)
    requires (c == 'H' && n <= 23) || ((c == 'M' || c == 'S') && n <= 59)
    ensures FirstMatchReadsAll([DigitChar(n / 10), DigitChar(n % 10)], Alternatives(c), j)
  {
    var x: string := [DigitChar(n / 10), DigitChar(n % 10)];
    assert x[0] as int == '0' as int + n / 10 && x[1] as int == '0' as int + n % 10;
    if c == 'H' {
      j := if n >= 20 then 0 else 1;
    } else if c == 'M' {
      j := 0;
    } else {
      j := 1;
    }
  }

  /** The first alternative of a directive that matches the directive's text in a valid date reads all of that text. */
  lemma {:induction false} FirstAlternativeReadsAll(d: DateTime, c: char) returns (j: nat)
    requires IsValid(d) && IsDirective(c)
    ensures FirstMatchReadsAll(FieldText(d, c), Alternatives(c), j)
  {
    var n := FieldOf(d, c);
    var x := FieldText(d, c);
    if c == 'Y' {
      j := 0;
      assert forall i :: 0 <= i < 4 ==> IsDigit(x[i]);
    } else {
      PaddedTwo(n);
      assert x == [DigitChar(n / 10), DigitChar(n % 10)];
      if c == 'm' || c == 'd' {
        j := DateAlternativeReadsAll(c, n);
      } else {
        j := TimeAlternativeReadsAll(c, n);
      }
    }
  }

  /** `int()` of a directive's text in a valid date is the field it was written from. */
  lemma {:induction false} FieldTextReadsBack(d: DateTime, c: char)
    requires IsValid(d)
    ensures FieldText(d, c) != [] && AllDigits(FieldText(d, c))
    ensures ParseInt(FieldText(d, c)) == Some(FieldOf(d, c))
  {
    var n := FieldOf(d, c);
    assert 0 <= n;
    var w := if c == 'Y' then 4 else 2;
    assert Pow10(2) == 100;
    assert Pow10(4) == 10000;
    assert n < Pow10(w);
    ParseIntOfDigits(Padded(n, w));
  }

  /** The alternative that `TryAlternatives` settles on: the first that matches, when the rest of the pattern then matches too. */
  lemma {:induction false} TryAlternativesPicks(v: string, fmt: string, acc: DateTime, alts: seq<Alternative>, j: nat, n: int)
    requires |fmt| >= 2 && j < |alts|
    requires forall i :: 0 <= i < j ==> !MatchesAt(v, alts[i])
    requires MatchesAt(v, alts[j]) && ParseInt(v[..|alts[j]|]) == Some(n)
    requires Match(v[|alts[j]|..], fmt[2..], SetField(acc, fmt[1], n)).Some?
    ensures TryAlternatives(v, fmt, acc, alts) == Match(v[|alts[j]|..], fmt[2..], SetField(acc, fmt[1], n))
    decreases j
  {
    if j > 0 {
      assert !MatchesAt(v, alts[0]);
      TryAlternativesPicks(v, fmt, acc, alts[1..], j - 1, n);
    }
  }

  /** A directive reads back the number its text was written from. */
  lemma {:induction false} DirectiveReadsFieldText(d: DateTime, fmt: string, rest: string, acc: DateTime)
    requires IsValid(d) && |fmt| >= 2 && IsDirective(fmt[1])
    requires Match(rest, fmt[2..], SetField(acc, fmt[1], FieldOf(d, fmt[1]))).Some?
    ensures TryAlternatives(FieldText(d, fmt[1]) + rest, fmt, acc, Alternatives(fmt[1]))
      == Match(rest, fmt[2..], SetField(acc, fmt[1], FieldOf(d, fmt[1])))
  {
    var c := fmt[1];
    var x := FieldText(d, c);
    var v := x + rest;
    var alts := Alternatives(c);
    var j := FirstAlternativeReadsAll(d, c);
    forall i | 0 <= i < |alts|
      ensures MatchesAt(v, alts[i]) == MatchesAt(x, alts[i])
    {
      assert forall k :: 0 <= k < |alts[i]| ==> v[k] == x[k];
    }
    assert v[..|x|] == x && v[|x|..] == rest;
    FieldTextReadsBack(d, c);
    assert ParseInt(v[..|alts[j]|]) == Some(FieldOf(d, c));
    TryAlternativesPicks(v, fmt, acc, alts, j, FieldOf(d, c));
  }

  /** `Render` copies a leading run of format whitespace. */
  lemma {:induction false} RenderSpaces(d: DateTime, fmt: string, k: nat)
    requires IsValid(d) && k <= |fmt|
    requires forall i :: 0 <= i < k ==> IsSpace(fmt[i])
    ensures Render(d, fmt) == fmt[..k] + Render(d, fmt[k..])
    decreases k
  {
    if k > 0 {
      assert fmt[0] != '%';
      var tail := fmt[1..];
      RenderSpaces(d, tail, k - 1);
      assert tail[k - 1..] == fmt[k..];
      var r := Render(d, fmt[k..]);
      assert Render(d, fmt) == [fmt[0]] + Render(d, tail);
      assert Render(d, tail) == tail[..k - 1] + r;
      assert [fmt[0]] + (tail[..k - 1] + r) == ([fmt[0]] + tail[..k - 1]) + r;
      assert fmt[..k] == [fmt[0]] + tail[..k - 1];
    }
  }

  /** Format whitespace sets no field and leaves the format well-formed. */
  lemma {:induction false} FillSpaces(d: DateTime, fmt: string, k: nat, acc: DateTime)
    requires k <= |fmt|
    requires forall i :: 0 <= i < k ==> IsSpace(fmt[i])
    ensures Fill(acc, d, fmt) == Fill(acc, d, fmt[k..])
    ensures WellFormed(fmt) ==> WellFormed(fmt[k..])
    decreases k
  {
    if k > 0 {
      assert fmt[0] != '%';
      FillSpaces(d, fmt[1..], k - 1, acc);
      assert fmt[1..][k - 1..] == fmt[k..];
    }
  }

  /** A rendered format that does not start with whitespace renders to a text that does not either. */
  lemma {:induction false} RenderStartsWithNonSpace(d: DateTime, fmt: string)
    requires IsValid(d) && WellFormed(fmt) && fmt != [] && !IsSpace(fmt[0])
    ensures Render(d, fmt) != [] && !IsSpace(Render(d, fmt)[0])
  {
    if fmt[0] == '%' {
      var x := FieldText(d, fmt[1]);
      assert x != [] && IsDigit(x[0]);
      DigitIsNotSpace(x[0]);
      assert Render(d, fmt)[0] == x[0];
    }
  }

  /** Whitespace followed by text that does not start with whitespace: the run is exactly the whitespace. */
  lemma SpaceRunOfPrefix(p: string, r: string)
    requires forall i :: 0 <= i < |p| ==> IsSpace(p[i])
    requires r == [] || !IsSpace(r[0])
    ensures SpaceRun(p + r) == |p|
  {
    var v := p + r;
    assert forall i :: 0 <= i < |p| ==> IsSpace(v[i]);
    assert |p| == |v| || !IsSpace(v[|p|]);
  }

  /** The whitespace a format starts with, and the format after it. */
  lemma {:induction false} LeadingSpaces(fmt: string) returns (k: nat)
    requires fmt != [] && IsSpace(fmt[0])
    ensures 0 < k <= |fmt| && fmt[k..] == StripLeft(fmt[1..])
    ensures forall i :: 0 <= i < k ==> IsSpace(fmt[i])
  {
    var g := StripLeft(fmt[1..]);
    StripLeftIsSuffix(fmt[1..]);
    k := |fmt| - |g|;
    forall i | 0 < i < k ensures IsSpace(fmt[i]) {
      assert fmt[i] == fmt[1..][i - 1];
    }
  }

  /** A date written in a format that starts with whitespace starts with exactly that whitespace. */
  lemma {:induction false} RenderedSpaceRun(d: DateTime, fmt: string, k: nat)
    requires IsValid(d) && 0 < k <= |fmt|
    requires forall i :: 0 <= i < k ==> IsSpace(fmt[i])
    requires WellFormed(fmt[k..]) && (fmt[k..] == [] || !IsSpace(fmt[k]))
    ensures k <= |Render(d, fmt)| && SpaceRun(Render(d, fmt)) == k
    ensures Render(d, fmt)[k..] == Render(d, fmt[k..])
  {
    var g := fmt[k..];
    RenderSpaces(d, fmt, k);
    var r := Render(d, g);
    if g != [] {
      RenderStartsWithNonSpace(d, g);
    }
    SpaceRunOfPrefix(fmt[..k], r);
    assert (fmt[..k] + r)[k..] == r;
  }

  /** `\s+` first tries every whitespace character there is. */
  lemma {:induction false} MatchAfterSpaces(v: string, fmt: string, k: nat, acc: DateTime, res: (DateTime, string))
    requires fmt != [] && IsSpace(fmt[0])
    requires 0 < k <= |v| && SpaceRun(v) == k
    requires Match(v[k..], StripLeft(fmt[1..]), acc) == Some(res)
    ensures Match(v, fmt, acc) == Some(res)
  {
  }

  /** Matching a well-formed format against a date written in it reads back every field the format names. */
  lemma {:induction false} MatchRender(d: DateTime, fmt: string, acc: DateTime)
    requires IsValid(d) && WellFormed(fmt)
    ensures Match(Render(d, fmt), fmt, acc) == Some((Fill(acc, d, fmt), []))
    decreases |fmt|
  {
    if fmt == [] {
    } else if IsSpace(fmt[0]) {
      var k := LeadingSpaces(fmt);
      FillSpaces(d, fmt, k, acc);
      MatchRender(d, fmt[k..], acc);
      RenderedSpaceRun(d, fmt, k);
      MatchAfterSpaces(Render(d, fmt), fmt, k, acc, (Fill(acc, d, fmt), []));
    } else if fmt[0] == '%' {
      MatchRender(d, fmt[2..], SetField(acc, fmt[1], FieldOf(d, fmt[1])));
      DirectiveReadsFieldText(d, fmt, Render(d, fmt[2..]), acc);
    } else {
      MatchRender(d, fmt[1..], acc);
      assert Render(d, fmt)[1..] == Render(d, fmt[1..]);
    }
  }

  // ---------------------------------------------------------------------------
  // The loader's two formats

  /** EXIF's own date form, `2021:06:30 14:05:09`. */
  const ColonFormat := "%Y:%m:%d %H:%M:%S"

  /** The ISO 8601 form ImageMagick writes, `2021-06-30T14:05:09`. */
  const IsoFormat := "%Y-%m-%dT%H:%M:%S"

  /** The formats in the order they are tried. */
  const DateFormats := [ColonFormat, IsoFormat]

  lemma ColonFormatWellFormed()
    ensures WellFormed(ColonFormat)
  {
    var f := ColonFormat;
    assert WellFormed(f[14..]);
    assert WellFormed(f[11..]);
    assert WellFormed(f[8..]);
    assert WellFormed(f[5..]);
    assert WellFormed(f[2..]);
  }

  lemma IsoFormatWellFormed()
    ensures WellFormed(IsoFormat)
  {
    var f := IsoFormat;
    assert WellFormed(f[14..]);
    assert WellFormed(f[11..]);
    assert WellFormed(f[8..]);
    assert WellFormed(f[5..]);
    assert WellFormed(f[2..]);
  }

  lemma FillDirective(acc: DateTime, d: DateTime, c: char, rest: string)
    ensures Fill(acc, d, ['%', c] + rest) == Fill(SetField(acc, c, FieldOf(d, c)), d, rest)
  {
    assert (['%', c] + rest)[2..] == rest;
  }

  lemma FillLiteral(acc: DateTime, d: DateTime, c: char, rest: string)
    requires c != '%'
    ensures Fill(acc, d, [c] + rest) == Fill(acc, d, rest)
  {
    assert ([c] + rest)[1..] == rest;
  }

  /** A directive followed by a one-character separator. */
  lemma FillDirectiveThenLiteral(acc: DateTime, d: DateTime, c: char, sep: char, rest: string)
    requires sep != '%'
    ensures Fill(acc, d, ['%', c, sep] + rest) == Fill(SetField(acc, c, FieldOf(d, c)), d, rest)
  {
    FillDirective(acc, d, c, [sep] + rest);
    assert ['%', c] + ([sep] + rest) == ['%', c, sep] + rest;
    FillLiteral(SetField(acc, c, FieldOf(d, c)), d, sep, rest);
  }

  /** The time directives `%H`, `%M`, `%S` with one-character separators. */
  lemma {:induction false} FillTimeFields(d: DateTime, acc: DateTime, s4: char, s5: char)
    requires s4 != '%' && s5 != '%'
    requires acc.year == d.year && acc.month == d.month && acc.day == d.day
    ensures Fill(acc, d, ['%', 'H', s4, '%', 'M', s5, '%', 'S']) == d
  {
    var a4 := SetField(acc, 'H', d.hour);
    var a5 := SetField(a4, 'M', d.minute);
    assert SetField(a5, 'S', d.second) == d;
    var f5: string := ['%', 'S'];
    FillDirective(a5, d, 'S', []);
    assert f5 == ['%', 'S'] + [];
    FillDirectiveThenLiteral(a4, d, 'M', s5, f5);
    FillDirectiveThenLiteral(acc, d, 'H', s4, ['%', 'M', s5] + f5);
    assert ['%', 'H', s4] + (['%', 'M', s5] + f5) == ['%', 'H', s4, '%', 'M', s5, '%', 'S'];
  }

  /** The date directives `%Y`, `%m`, `%d`, each followed by a separator. */
  lemma {:induction false} FillDateFields(d: DateTime, acc: DateTime, s1: char, s2: char, s3: char, rest: string)
    requires s1 != '%' && s2 != '%' && s3 != '%'
    ensures Fill(acc, d, ['%', 'Y', s1, '%', 'm', s2, '%', 'd', s3] + rest)
      == Fill(acc.(year := d.year, month := d.month, day := d.day), d, rest)
  {
    var a1 := SetField(acc, 'Y', d.year);
    var a2 := SetField(a1, 'm', d.month);
    assert SetField(a2, 'd', d.day) == acc.(year := d.year, month := d.month, day := d.day);
    var f2: string := ['%', 'd', s3] + rest;
    var f1: string := ['%', 'm', s2] + f2;
    FillDirectiveThenLiteral(a2, d, 'd', s3, rest);
    FillDirectiveThenLiteral(a1, d, 'm', s2, f2);
    FillDirectiveThenLiteral(acc, d, 'Y', s1, f1);
    assert ['%', 'Y', s1] + f1 == ['%', 'Y', s1, '%', 'm', s2, '%', 'd', s3] + rest;
  }

  /** The six directives of a format with a one-character separator between each two. */
  lemma {:induction false} FillSixFields(d: DateTime, acc: DateTime, s1: char, s2: char, s3: char, s4: char, s5: char)
    requires s1 != '%' && s2 != '%' && s3 != '%' && s4 != '%' && s5 != '%'
    ensures Fill(acc, d, ['%', 'Y', s1, '%', 'm', s2, '%', 'd', s3, '%', 'H', s4, '%', 'M', s5, '%', 'S']) == d
  {
    var time: string := ['%', 'H', s4, '%', 'M', s5, '%', 'S'];
    FillDateFields(d, acc, s1, s2, s3, time);
    FillTimeFields(d, acc.(year := d.year, month := d.month, day := d.day), s4, s5);
    assert ['%', 'Y', s1, '%', 'm', s2, '%', 'd', s3] + time
      == ['%', 'Y', s1, '%', 'm', s2, '%', 'd', s3, '%', 'H', s4, '%', 'M', s5, '%', 'S'];
  }

  /** A valid date written in either of the loader's formats reads back as itself. */
  lemma {:induction false} FormatRoundTrip(d: DateTime, fmt: string)
    requires IsValid(d) && fmt in DateFormats
    ensures Strptime(Render(d, fmt), fmt) == Some(d)
  {
    if fmt == ColonFormat {
      ColonFormatWellFormed();
      FillSixFields(d, DefaultFields, ':', ':', ' ', ':', ':');
    } else {
      IsoFormatWellFormed();
      FillSixFields(d, DefaultFields, '-', '-', 'T', ':', ':');
    }
    MatchRender(d, fmt, DefaultFields);
  }

  /** A format that starts with a four-digit year and a separator only reads texts with that separator at index 4. */
  lemma {:induction false} YearThenSeparator(v: string, sep: char, rest: string, acc: DateTime)
    requires !IsSpace(sep) && sep != '%' && !('A' <= sep <= 'Z') && !('a' <= sep <= 'z')
    requires Match(v, ['%', 'Y', sep] + rest, acc).Some?
    ensures |v| > 4 && v[4] == sep
  {
    var f: string := ['%', 'Y', sep] + rest;
    var alts := Alternatives('Y');
    assert f[2..] == [sep] + rest;
    assert Match(v, f, acc) == TryAlternatives(v, f, acc, alts);
    assert TryAlternatives(v, f, acc, alts[1..]) == None;
    assert MatchesAt(v, alts[0]);
    var n := ParseInt(v[..4]).value;
    var a := SetField(acc, 'Y', n);
    assert Match(v[4..], [sep] + rest, a).Some?;
  }

  /** No text reads as a date in both formats, so the order they are tried in does not matter. */
  lemma {:induction false} FormatsExclusive(v: string)
    ensures !(Strptime(v, ColonFormat).Some? && Strptime(v, IsoFormat).Some?)
  {
    if Strptime(v, ColonFormat).Some? && Strptime(v, IsoFormat).Some? {
      assert ColonFormat == ['%', 'Y', ':'] + ColonFormat[3..];
      assert IsoFormat == ['%', 'Y', '-'] + IsoFormat[3..];
      YearThenSeparator(v, ':', ColonFormat[3..], DefaultFields);
      YearThenSeparator(v, '-', IsoFormat[3..], DefaultFields);
    }
  }

  // ---------------------------------------------------------------------------
  // The date tags

  /** The first format of `fmts` that reads `v`, as the inner loop of `_getDateTime` finds it. */
  function FirstParse(v: string, fmts: seq<string>): (r: Option<DateTime>)
    ensures r.Some? ==> exists j :: 0 <= j < |fmts| && Strptime(v, fmts[j]) == r
                                   && forall i :: 0 <= i < j ==> Strptime(v, fmts[i]).None?
    ensures r.None? <==> forall i :: 0 <= i < |fmts| ==> Strptime(v, fmts[i]).None?
    decreases |fmts|
  {
    if fmts == [] then None
    else if Strptime(v, fmts[0]).Some? then Strptime(v, fmts[0])
    else
      var r := FirstParse(v, fmts[1..]);
      assert forall i :: 1 <= i < |fmts| ==> fmts[i] == fmts[1..][i - 1];
      if r.Some? then
        var j :| 0 <= j < |fmts| - 1 && Strptime(v, fmts[1..][j]) == r
                 && forall i :: 0 <= i < j ==> Strptime(v, fmts[1..][i]).None?;
        assert Strptime(v, fmts[j + 1]) == r;
        r
      else r
  }

  /** A date value read with the loader's formats. */
  function ParseDate(v: string): Option<DateTime> {
    FirstParse(v, DateFormats)
  }

  /** Trying the ISO form first would read the same dates. */
  lemma {:induction false} ParseDateOrderIrrelevant(v: string)
    ensures ParseDate(v) == FirstParse(v, [IsoFormat, ColonFormat])
  {
    FormatsExclusive(v);
    assert [ColonFormat, IsoFormat][1..] == [IsoFormat];
    assert [IsoFormat, ColonFormat][1..] == [ColonFormat];
  }

  /** A date written in either form reads back as itself. */
  lemma {:induction false} ParseDateRoundTrip(d: DateTime, fmt: string)
    requires IsValid(d) && fmt in DateFormats
    ensures ParseDate(Render(d, fmt)) == Some(d)
  {
    FormatRoundTrip(d, fmt);
    FormatsExclusive(Render(d, fmt));
    assert DateFormats[1..] == [IsoFormat];
  }

  /** The property tags a date is looked for in, highest priority first. */
  const DateTags := ["exif:DateTimeOriginal", "exif:DateTimeDigitized", "exif:DateTime",
                     "dng:create.date", "date:modify", "date:create"]

  /** The date tag `t` holds, read from its text up to the first `+` (a time zone offset). */
  function TagDate(props: map<string, string>, t: string): Option<DateTime> {
    if t in props then ParseDate(Split(props[t], '+')[0]) else None
  }

  /** Whatever follows the first `+` of a tag's text is ignored. */
  lemma {:induction false} TagDateIgnoresZone(props: map<string, string>, t: string, v: string, zone: string)
    requires t in props && props[t] == v + "+" + zone && '+' !in v
    ensures TagDate(props, t) == ParseDate(v)
  {
    SplitAfterPiece(v, '+', zone);
  }

  function Found(r: Option<DateTime>): seq<DateTime> {
    if r.Some? then [r.value] else []
  }

  /** `dates` after the outer loop of `_getDateTime` has seen `tags`. */
  function Candidates(props: map<string, string>, tags: seq<string>): seq<DateTime>
    decreases |tags|
  {
    if tags == [] then [] else Candidates(props, tags[..|tags| - 1]) + Found(TagDate(props, tags[|tags| - 1]))
  }

  /** The dates collected are exactly the dates the tags hold. */
  lemma {:induction false} CandidatesAreTagDates(props: map<string, string>, tags: seq<string>)
    ensures forall d :: d in Candidates(props, tags) <==> exists t :: t in tags && TagDate(props, t) == Some(d)
    decreases |tags|
  {
    if tags != [] {
      var init := tags[..|tags| - 1];
      CandidatesAreTagDates(props, init);
      assert tags == init + [tags[|tags| - 1]];
      forall d ensures d in Candidates(props, tags) <==> exists t :: t in tags && TagDate(props, t) == Some(d) {
        if d in Candidates(props, tags) && d !in Candidates(props, init) {
          assert TagDate(props, tags[|tags| - 1]) == Some(d);
        }
        if exists t :: t in tags && TagDate(props, t) == Some(d) {
          var t :| t in tags && TagDate(props, t) == Some(d);
          if t !in init {
            assert t == tags[|tags| - 1];
          }
        }
      }
    }
  }

  /** `sorted(dates)[0]`: the earliest date. */
  function Earliest(ds: seq<DateTime>): (e: DateTime)
    requires ds != []
    ensures e in ds && forall x :: x in ds ==> NotAfter(e, x)
    decreases |ds|
  {
    if |ds| == 1 then ds[0]
    else
      var m := Earliest(ds[1..]);
      assert forall x :: x in ds ==> x == ds[0] || x in ds[1..];
      if Before(ds[0], m) then ds[0] else m
  }

  /** The earliest of a list depends only on which dates are in it. */
  lemma EarliestOfSameDates(ds: seq<DateTime>, es: seq<DateTime>)
    requires ds != [] && forall x :: x in ds <==> x in es
    ensures Earliest(ds) == Earliest(es)
  {
    NotAfterIsTotalOrder(Earliest(ds), Earliest(es), Earliest(ds));
  }

  /** What `_getDateTime` returns for the property dictionary `props` and the tags `tags`. */
  function EarliestDate(props: map<string, string>, tags: seq<string>): Option<DateTime> {
    var ds := Candidates(props, tags);
    if ds == [] then None else Some(Earliest(ds))
  }

  /**
   * The date is absent exactly when no tag holds a readable date; otherwise
   * it is the date of one of the tags and no tag holds an earlier one.
   */
  lemma {:induction false} EarliestDateIsMinimum(props: map<string, string>, tags: seq<string>)
    ensures EarliestDate(props, tags).None? <==> forall t :: t in tags ==> TagDate(props, t).None?
    ensures EarliestDate(props, tags).Some? ==>
      (exists t :: t in tags && TagDate(props, t) == EarliestDate(props, tags))
      && forall t :: t in tags && TagDate(props, t).Some? ==> NotAfter(EarliestDate(props, tags).value, TagDate(props, t).value)
  {
    CandidatesAreTagDates(props, tags);
    var ds := Candidates(props, tags);
    if ds != [] {
      assert ds[0] in ds;
    }
  }

  /** The priority of the tags plays no part: any order of the same tags gives the same date. */
  lemma {:induction false} EarliestDateIgnoresTagOrder(props: map<string, string>, tags: seq<string>, others: seq<string>)
    requires forall t :: t in tags <==> t in others
    ensures EarliestDate(props, tags) == EarliestDate(props, others)
  {
    CandidatesAreTagDates(props, tags);
    CandidatesAreTagDates(props, others);
    var ds, es := Candidates(props, tags), Candidates(props, others);
    assert forall d :: d in ds <==> d in es;
    if ds != [] {
      EarliestOfSameDates(ds, es);
    }
  }

  /** A written date holds only the format's own characters and digits. */
  lemma {:induction false} RenderCharacters(d: DateTime, fmt: string)
    requires IsValid(d)
    ensures forall c :: c in Render(d, fmt) ==> c in fmt || IsDigit(c)
    decreases |fmt|
  {
    if fmt != [] {
      if fmt[0] == '%' && |fmt| >= 2 {
        RenderCharacters(d, fmt[2..]);
        var x := FieldText(d, fmt[1]);
        assert forall c :: c in x ==> IsDigit(c);
        assert forall c :: c in fmt[2..] ==> c in fmt;
      } else {
        RenderCharacters(d, fmt[1..]);
        assert forall c :: c in fmt[1..] ==> c in fmt;
      }
    }
  }

  /** A date written in one of the loader's formats holds no `+`. */
  lemma NoPlusInRendered(d: DateTime, fmt: string)
    requires IsValid(d) && fmt in DateFormats
    ensures '+' !in Render(d, fmt)
  {
    RenderCharacters(d, fmt);
    assert '+' !in ColonFormat && '+' !in IsoFormat;
  }

  /** A tag's text without a `+` is read whole. */
  lemma TagDateWithoutZone(props: map<string, string>, t: string)
    requires t in props && '+' !in props[t]
    ensures TagDate(props, t) == ParseDate(props[t])
  {
  }

  /** With two tags holding dates and the rest none, the earlier of the two is returned. */
  lemma {:induction false} EarlierOfTwoTags(props: map<string, string>, tags: seq<string>,
                                            t1: string, t2: string, d1: DateTime, d2: DateTime)
    requires t1 in tags && t2 in tags && Before(d2, d1)
    requires TagDate(props, t1) == Some(d1) && TagDate(props, t2) == Some(d2)
    requires forall t :: t in tags && t != t1 && t != t2 ==> TagDate(props, t).None?
    ensures EarliestDate(props, tags) == Some(d2)
  {
    EarliestDateIsMinimum(props, tags);
  }

  /** The tags other than the two written below are absent. */
  lemma OnlyTwoTagsPresent(props: map<string, string>)
    requires props.Keys == {"exif:DateTimeOriginal", "date:create"}
    ensures forall t :: t in DateTags && t != "exif:DateTimeOriginal" && t != "date:create" ==> TagDate(props, t).None?
  {
    assert "exif:DateTimeDigitized" !in props.Keys by {
      assert "exif:DateTimeDigitized"[13] != "exif:DateTimeOriginal"[13];
    }
  }

  /**
   * The original capture date does not win for being first: a creation date
   * with a time zone that is earlier is the one returned.
   */
  lemma {:induction false} EarlierLowPriorityTagWins(d1: DateTime, d2: DateTime, zone: string)
    requires IsValid(d1) && IsValid(d2) && Before(d2, d1)
    ensures EarliestDate(map["exif:DateTimeOriginal" := Render(d1, ColonFormat),
                             "date:create" := Render(d2, IsoFormat) + "+" + zone], DateTags) == Some(d2)
  {
    var t1, t2 := "exif:DateTimeOriginal", "date:create";
    assert |t1| != |t2|;
    var props := map[t1 := Render(d1, ColonFormat), t2 := Render(d2, IsoFormat) + "+" + zone];
    assert props[t1] == Render(d1, ColonFormat);
    assert t1 == DateTags[0] && t2 == DateTags[5];
    NoPlusInRendered(d1, ColonFormat);
    NoPlusInRendered(d2, IsoFormat);
    TagDateWithoutZone(props, t1);
    ParseDateRoundTrip(d1, ColonFormat);
    ParseDateRoundTrip(d2, IsoFormat);
    TagDateIgnoresZone(props, "date:create", Render(d2, IsoFormat), zone);
    OnlyTwoTagsPresent(props);
    assert TagDate(props, t1) == Some(d1);
    EarlierOfTwoTags(props, DateTags, t1, t2, d1, d2);
  }

  /** `_getDateTime(img)`: every date tag tried in order, the formats tried in order on each, the earliest date kept. */
  method GetDateTime(img: Image) returns (r: Option<DateTime>)
    ensures r == EarliestDate(PropertiesOf(img), DateTags)
  {
    var props := PropertiesOf(img);
    var tags := DateTags;
    var fmts := DateFormats;
    var dates: seq<DateTime> := [];
    for i := 0 to |tags|
      invariant dates == Candidates(props, tags[..i])
    {
      assert tags[..i + 1][..i] == tags[..i];
      var t := tags[i];
      if t !in props {
        continue;
      }
      var v := Split(props[t], '+')[0];
      var parsed: Option<DateTime> := None;
      var j := 0;
      while j < |fmts|
        invariant 0 <= j <= |fmts|
        invariant parsed == None
        invariant FirstParse(v, fmts) == FirstParse(v, fmts[j..])
      {
        parsed := Strptime(v, fmts[j]);
        if parsed.Some? {
          break;
        }
        assert fmts[j..][1..] == fmts[j + 1..];
        j := j + 1;
      }
      assert parsed == TagDate(props, t);
      if parsed.Some? {
        dates := dates + [parsed.value];
      }
    }
    assert tags[..|tags|] == tags;
    if |dates| < 1 {
      return None;
    }
    return Some(Earliest(dates));
  }
}
