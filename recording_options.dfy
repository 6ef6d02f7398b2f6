/**
 * Recording options: a builder that validates and normalises free-form
 * strings into a table keyed by option, and the immutable, sparse snapshot it
 * builds, which omits every option left at its default except `disk`.
 */
module RecordingOptions {
  import opened Wrappers
  import opened JavaLang
  import opened Exceptions

  /** The keys of the builder's table. */
  datatype OptionKey = Name | MaxAge | MaxSize | DumpOnExit | Destination | Disk | Duration

  /** Every option, in declaration order (`Option.values()`). */
  const ALL_OPTIONS: seq<OptionKey> := [Name, MaxAge, MaxSize, DumpOnExit, Destination, Disk, Duration]

  /** The FlightRecorderMXBean name of an option. */
  function KeyName(k: OptionKey): string
  {
    match k
    case Name => "name"
    case MaxAge => "maxAge"
    case MaxSize => "maxSize"
    case DumpOnExit => "dumpOnExit"
    case Destination => "destination"
    case Disk => "disk"
    case Duration => "duration"
  }

  /** The documented default of an option. */
  function DefaultValue(k: OptionKey): string
  {
    match k
    case Name => ""
    case MaxAge => "0"
    case MaxSize => "0"
    case DumpOnExit => "false"
    case Destination => ""
    case Disk => "false"
    case Duration => "0"
  }

  lemma KeyNameInjective(a: OptionKey, b: OptionKey)
    ensures KeyName(a) == KeyName(b) ==> a == b
  {
  }

  // ---------------------------------------------------------------- durations

  /** `\s` of java.util.regex: space, tab, newline, vertical tab, form feed, carriage return. */
  predicate IsRegexSpace(c: char) {
    c == ' ' || c == '\t' || c == '\n' || c == '\U{0B}' || c == '\U{0C}' || c == '\r'
  }

  /** `\w` of java.util.regex: `[a-zA-Z_0-9]`. */
  predicate IsWordChar(c: char) {
    ('a' <= c <= 'z') || ('A' <= c <= 'Z') || c == '_' || IsDigit(c)
  }

  function DigitsEnd(s: string, i: nat): (j: nat)
    requires i <= |s|
    ensures i <= j <= |s| && (j == |s| || !IsDigit(s[j]))
    ensures forall k :: i <= k < j ==> IsDigit(s[k])
    decreases |s| - i
  {
    if i < |s| && IsDigit(s[i]) then DigitsEnd(s, i + 1) else i
  }

  function SpacesEnd(s: string, i: nat): (j: nat)
    requires i <= |s|
    ensures i <= j <= |s| && (j == |s| || !IsRegexSpace(s[j]))
    ensures forall k :: i <= k < j ==> IsRegexSpace(s[k])
    decreases |s| - i
  {
    if i < |s| && IsRegexSpace(s[i]) then SpacesEnd(s, i + 1) else i
  }

  function WordEnd(s: string, i: nat): (j: nat)
    requires i <= |s|
    ensures i <= j <= |s| && (j == |s| || !IsWordChar(s[j]))
    ensures forall k :: i <= k < j ==> IsWordChar(s[k])
    decreases |s| - i
  {
    if i < |s| && IsWordChar(s[i]) then WordEnd(s, i + 1) else i
  }

  predicate IsSign(s: string) {
    s == "" || s == "-" || s == "+"
  }

  predicate AllSpaces(s: string) {
    forall i :: 0 <= i < |s| ==> IsRegexSpace(s[i])
  }

  predicate AllWordChars(s: string) {
    forall i :: 0 <= i < |s| ==> IsWordChar(s[i])
  }

  /**
   * `([-+]?\d+)\s*(\w*)` matched against the whole string: the two groups.
   * The quantifiers are greedy; giving back digits or spaces never rescues a
   * failed attempt (digits are word characters, spaces are not), so the
   * groups are those of the greedy attempt.
   */
  function MatchDuration(s: string): (r: Option<(string, string)>)
    ensures r.Some? ==> exists sign, digits, spaces ::
      IsSign(sign) && digits != [] && AllDigits(digits) && AllSpaces(spaces) && AllWordChars(r.value.1) &&
      r.value.0 == sign + digits && s == sign + digits + spaces + r.value.1
  {
    var signEnd := if |s| > 0 && (s[0] == '-' || s[0] == '+') then 1 else 0;
    var digitsEnd := DigitsEnd(s, signEnd);
    if digitsEnd == signEnd then
      None
    else
      var spacesEnd := SpacesEnd(s, digitsEnd);
      var wordEnd := WordEnd(s, spacesEnd);
      if wordEnd == |s| then
        MatchShape(s, signEnd, digitsEnd, spacesEnd);
        Some((s[..digitsEnd], s[spacesEnd..]))
      else
        None
  }

  /** A text cut after an optional sign, a run of digits and a run of spaces. */
  lemma MatchShape(s: string, a: nat, b: nat, c: nat)
    requires a < b <= c <= |s| && (a == 0 || (a == 1 && (s[0] == '-' || s[0] == '+')))
    requires forall k :: a <= k < b ==> IsDigit(s[k])
    requires forall k :: b <= k < c ==> IsRegexSpace(s[k])
    requires forall k :: c <= k < |s| ==> IsWordChar(s[k])
    ensures exists sign, digits, spaces ::
      IsSign(sign) && digits != [] && AllDigits(digits) && AllSpaces(spaces) && AllWordChars(s[c..]) &&
      s[..b] == sign + digits && s == sign + digits + spaces + s[c..]
  {
    var sign, digits, spaces, units := s[..a], s[a..b], s[b..c], s[c..];
    assert IsSign(sign) by {
      if a == 1 {
        assert sign == [s[0]];
      }
    }
    assert AllDigits(digits) by {
      forall i | 0 <= i < |digits| ensures IsDigit(digits[i]) {
        assert digits[i] == s[a + i];
      }
    }
    assert AllSpaces(spaces) by {
      forall i | 0 <= i < |spaces| ensures IsRegexSpace(spaces[i]) {
        assert spaces[i] == s[b + i];
      }
    }
    assert AllWordChars(units) by {
      forall i | 0 <= i < |units| ensures IsWordChar(units[i]) {
        assert units[i] == s[c + i];
      }
    }
    assert s[..b] == sign + digits;
    assert s == sign + digits + spaces + units;
  }

  /** The units the switch in `validateDuration` accepts after a number. */
  predicate IsUnit(u: string) {
    u == "ns" || u == "us" || u == "ms" || u == "s" || u == "m" || u == "h" || u == "d"
  }

  const NUMBER_FORMAT_EXCEPTION: string := "java.lang.NumberFormatException"

  /**
   * The message of the IllegalArgumentException wrapping a NumberFormatException:
   * the wrapped exception's class name and its own message.
   */
  function NumberFormatMessage(input: string): string {
    NUMBER_FORMAT_EXCEPTION + ": For input string: \"" + input + "\""
  }

  /** The message of the IllegalArgumentException for a text the pattern or the checks refuse. */
  function BadFormatMessage(option: OptionKey, text: string): string {
    "bad format: " + KeyName(option) + " = \"" + text + "\""
  }

  /** A duration as `validateDuration` writes it: a non-negative long, then optionally a space and a unit. */
  function DurationText(value: nat, units: string): string {
    if units == "" then LongToString(value) else LongToString(value) + " " + units
  }

  /**
   * `validateDuration`: a null or blank text gives the default; otherwise the
   * whole text must be a signed number, optional whitespace and a unit from
   * the whitelist (or none), and the number a long that is not negative.
   */
  function ValidateDuration(option: OptionKey, duration: JString): (r: Result<string, Error>)
    ensures duration.None? ==> r == Success(DefaultValue(option))
    ensures duration.Some? && Trim(duration.value) == [] ==> r == Success(DefaultValue(option))
    ensures r.Failure? ==> r.error.IllegalArgument?
  {
    if duration.None? || Trim(duration.value) == [] then
      Success(DefaultValue(option))
    else
      var text := duration.value;
      var badFormat := Failure(IllegalArgument(BadFormatMessage(option, text)));
      match MatchDuration(text)
      case None => badFormat
      case Some((number, units)) =>
        match ParseLong(number)
        case None => Failure(IllegalArgument(NumberFormatMessage(number)))
        case Some(value) =>
          if value >= 0 && (units == "" || IsUnit(units)) then Success(DurationText(value, units))
          else badFormat
  }

  /** The greedy match takes every digit into the number and the word after the spaces as the unit. */
  lemma MatchDurationOf(sign: string, digits: string, spaces: string, units: string)
    requires IsSign(sign) && digits != [] && AllDigits(digits) && AllSpaces(spaces) && AllWordChars(units)
    requires spaces == [] ==> units == [] || !IsDigit(units[0])
    ensures MatchDuration(sign + digits + spaces + units) == Some((sign + digits, units))
  {
    var s := sign + digits + spaces + units;
    var a, b := |sign|, |sign| + |digits|;
    var c := b + |spaces|;
    Pieces(sign, digits, spaces, units);
    assert a == (if |s| > 0 && (s[0] == '-' || s[0] == '+') then 1 else 0) by {
      if a == 0 {
        assert s[0] == s[a..b][0];
      }
    }
    assert b == |s| || !IsDigit(s[b]) by {
      if b < |s| {
        if spaces != [] {
          assert s[b] == s[b..c][0];
        } else {
          assert s[b] == s[c..][0];
        }
      }
    }
    DigitsEndOf(s, a, b);
    assert c == |s| || !IsRegexSpace(s[c]) by {
      if c < |s| {
        assert s[c] == s[c..][0];
      }
    }
    SpacesEndOf(s, b, c);
    WordEndOf(s, c);
  }

  /** Where the four parts of a duration text lie. */
  lemma Pieces(sign: string, digits: string, spaces: string, units: string)
    ensures var s := sign + digits + spaces + units;
      var a, b := |sign|, |sign| + |digits|;
      var c := b + |spaces|;
      s[..a] == sign && s[a..b] == digits && s[b..c] == spaces && s[c..] == units && s[..b] == sign + digits
  {
    var s := sign + digits + spaces + units;
    var p := sign + digits;
    assert s == p + spaces + units;
    assert s[..|p|] == p && p[..|sign|] == sign && p[|sign|..] == digits;
  }

  lemma {:induction false} DigitsEndOf(s: string, i: nat, j: nat)
    requires i <= j <= |s| && AllDigits(s[i..j]) && (j == |s| || !IsDigit(s[j]))
    ensures DigitsEnd(s, i) == j
    decreases j - i
  {
    if i < j {
      assert s[i] == s[i..j][0] && s[i + 1..j] == s[i..j][1..];
      DigitsEndOf(s, i + 1, j);
    }
  }

  lemma {:induction false} SpacesEndOf(s: string, i: nat, j: nat)
    requires i <= j <= |s| && AllSpaces(s[i..j]) && (j == |s| || !IsRegexSpace(s[j]))
    ensures SpacesEnd(s, i) == j
    decreases j - i
  {
    if i < j {
      assert s[i] == s[i..j][0] && s[i + 1..j] == s[i..j][1..];
      SpacesEndOf(s, i + 1, j);
    }
  }

  lemma {:induction false} WordEndOf(s: string, i: nat)
    requires i <= |s| && AllWordChars(s[i..])
    ensures WordEnd(s, i) == |s|
    decreases |s| - i
  {
    if i < |s| {
      assert s[i] == s[i..][0] && s[i + 1..] == s[i..][1..];
      WordEndOf(s, i + 1);
    }
  }

  /**
   * Every well-formed duration is accepted, and normalised to the canonical
   * decimal of its value followed by a space and the unit, if any.
   */
  lemma DurationAccepted(option: OptionKey, sign: string, digits: string, spaces: string, units: string)
    requires IsSign(sign) && digits != [] && AllDigits(digits) && AllSpaces(spaces)
    requires units == "" || IsUnit(units)
    requires ParseLong(sign + digits).Some? && ParseLong(sign + digits).value >= 0
    ensures ValidateDuration(option, Some(sign + digits + spaces + units))
         == Success(DurationText(ParseLong(sign + digits).value, units))
  {
    var s := sign + digits + spaces + units;
    UnitShape(units);
    MatchDurationOf(sign, digits, spaces, units);
    Pieces(sign, digits, spaces, units);
    assert s[|sign|] == digits[0];
    NotBlank(s, |sign|);
    DurationMatched(option, s, sign + digits, units);
  }

  /** A matched text whose value is a long that is not negative and whose unit is known is accepted. */
  lemma DurationMatched(option: OptionKey, s: string, number: string, units: string)
    requires Trim(s) != [] && MatchDuration(s) == Some((number, units)) && ParseLong(number).Some?
    requires ParseLong(number).value >= 0 && (units == "" || IsUnit(units))
    ensures ValidateDuration(option, Some(s)) == Success(DurationText(ParseLong(number).value, units))
  {
  }

  /**
   * A matched number too large for a long: `Long.parseLong` throws, and the
   * NumberFormatException is rethrown wrapped in an IllegalArgumentException.
   */
  lemma DurationOverflow(option: OptionKey, s: string, number: string, units: string)
    requires Trim(s) != [] && MatchDuration(s) == Some((number, units)) && ParseLong(number).None?
    ensures ValidateDuration(option, Some(s)) == Failure(IllegalArgument(NumberFormatMessage(number)))
  {
  }

  /**
   * Every text the pattern matches (`MatchDuration`, `MatchDurationOf`) is
   * accepted exactly when its number is a long that is not negative and its
   * unit is in the whitelist or absent; the value stored is then canonical.
   */
  lemma DurationAcceptedIff(option: OptionKey, sign: string, digits: string, spaces: string, units: string)
    requires IsSign(sign) && digits != [] && AllDigits(digits) && AllSpaces(spaces) && AllWordChars(units)
    requires spaces == [] ==> units == [] || !IsDigit(units[0])
    ensures var r := ValidateDuration(option, Some(sign + digits + spaces + units));
      && (r.Success? <==> ParseLong(sign + digits).Some? && ParseLong(sign + digits).value >= 0 && (units == "" || IsUnit(units)))
      && (r.Success? ==> r.value == DurationText(ParseLong(sign + digits).value, units))
  {
    var s := sign + digits + spaces + units;
    var number := sign + digits;
    MatchDurationOf(sign, digits, spaces, units);
    Pieces(sign, digits, spaces, units);
    assert s[|sign|] == digits[0];
    NotBlank(s, |sign|);
    if ParseLong(number).None? {
      DurationOverflow(option, s, number, units);
    } else if ParseLong(number).value >= 0 && (units == "" || IsUnit(units)) {
      DurationMatched(option, s, number, units);
    } else {
      DurationRefused(option, s, number, units);
    }
  }

  /** The units are non-empty words of letters. */
  lemma UnitShape(u: string)
    requires u == "" || IsUnit(u)
    ensures AllWordChars(u) && (u == [] || !IsDigit(u[0]))
  {
  }

  /** A duration text `validateDuration` produced. */
  ghost predicate IsDurationText(v: string) {
    exists value: nat, units :: IsLong(value) && (units == "" || IsUnit(units)) && v == DurationText(value, units)
  }

  /** A duration `validateDuration` accepts is normalised to a canonical duration text. */
  lemma DurationResult(option: OptionKey, duration: JString)
    requires option == MaxAge || option == Duration
    requires ValidateDuration(option, duration).Success?
    ensures IsDurationText(ValidateDuration(option, duration).value)
  {
    var r := ValidateDuration(option, duration);
    if duration.None? || Trim(duration.value) == [] {
      assert r.value == DurationText(0, "");
    } else {
      var m := MatchDuration(duration.value).value;
      var value := ParseLong(m.0).value;
      assert r.value == DurationText(value, m.1);
    }
  }

  /** Validating a normalised duration again returns it unchanged. */
  lemma DurationIdempotent(option: OptionKey, v: string)
    requires IsDurationText(v)
    ensures ValidateDuration(option, Some(v)) == Success(v)
  {
    var value: nat, units :| IsLong(value) && (units == "" || IsUnit(units)) && v == DurationText(value, units);
    var digits := LongToString(value);
    LongToStringCanonical(value);
    ParseLongToString(value);
    var spaces := DurationTextPieces(value, units);
    DurationAccepted(option, "", digits, spaces, units);
  }

  /** A canonical duration text cut into the pieces the pattern matches; the result is the blank run. */
  lemma DurationTextPieces(value: nat, units: string) returns (spaces: string)
    ensures AllSpaces(spaces) && (units != "" ==> spaces == " ")
    ensures DurationText(value, units) == "" + LongToString(value) + spaces + units
    ensures "" + LongToString(value) == LongToString(value)
  {
    spaces := if units == "" then "" else " ";
  }

  /** A unit written without the space is normalised to the documented form. */
  lemma DurationExampleUnit()
    ensures ValidateDuration(MaxAge, Some("2h")) == Success("2 h")
  {
    assert ParseLong("2") == Some(2);
    assert DurationText(2, "h") == "2 h";
    DurationAccepted(MaxAge, "", "2", "", "h");
    assert "" + "2" + "" + "h" == "2h";
  }

  /** A sign and leading zeros are dropped from a bare number. */
  lemma DurationExampleSign()
    ensures ValidateDuration(Duration, Some("+07")) == Success("7")
  {
    assert ParseLong("+07") == Some(7) by {
      assert "+07"[1..] == "07";
      assert AllDigits("07");
      assert DigitsValue("07") == 7 by {
        assert "07"[..1] == "0";
      }
    }
    assert DurationText(7, "") == "7";
    DurationAccepted(Duration, "+", "07", "", "");
    assert "+" + "07" + "" + "" == "+07";
  }

  /** A text the pattern does not match is refused with the bad-format message. */
  lemma DurationUnmatched(option: OptionKey, s: string)
    requires Trim(s) != [] && MatchDuration(s) == None
    ensures ValidateDuration(option, Some(s)) == Failure(IllegalArgument(BadFormatMessage(option, s)))
  {
  }

  /** A matched text whose value is negative or whose unit is unknown is refused with the bad-format message. */
  lemma DurationRefused(option: OptionKey, s: string, number: string, units: string)
    requires Trim(s) != [] && MatchDuration(s) == Some((number, units)) && ParseLong(number).Some?
    requires ParseLong(number).value < 0 || (units != "" && !IsUnit(units))
    ensures ValidateDuration(option, Some(s)) == Failure(IllegalArgument(BadFormatMessage(option, s)))
  {
  }

  /**
   * Leading blanks are refused, as in " 5": blankness is tested on the
   * trimmed text, but the pattern must match the untrimmed one.
   */
  lemma DurationRejectsLeadingBlank(option: OptionKey, s: string)
    requires |s| > 0 && s[0] <= ' ' && Trim(s) != []
    ensures ValidateDuration(option, Some(s)) == Failure(IllegalArgument(BadFormatMessage(option, s)))
  {
    UnmatchedWithoutDigit(s);
    DurationUnmatched(option, s);
  }

  /** The pattern needs a digit right at the start, or after a sign. */
  lemma UnmatchedWithoutDigit(s: string)
    requires |s| > 0 && !IsDigit(s[0]) && s[0] != '-' && s[0] != '+'
    ensures MatchDuration(s) == None
  {
    assert DigitsEnd(s, 0) == 0;
  }

  /** A text holding a digit is not blank. */
  lemma NotBlank(s: string, i: nat)
    requires i < |s| && IsDigit(s[i])
    ensures Trim(s) != []
  {
    TrimBlank(s);
  }

  /** How the pattern splits a text of a number, one space and a word. */
  lemma MatchNumberSpaceWord(sign: string, digit: char, unit: char)
    requires IsSign(sign) && IsDigit(digit) && IsWordChar(unit)
    ensures MatchDuration(sign + [digit, ' ', unit]) == Some((sign + [digit], [unit]))
  {
    MatchDurationOf(sign, [digit], [' '], [unit]);
    assert sign + [digit] + [' '] + [unit] == sign + [digit, ' ', unit];
  }

  /** `Long.parseLong` of a single digit, with or without a minus sign. */
  lemma ParseOneDigit(digit: char)
    requires IsDigit(digit)
    ensures ParseLong([digit]) == Some(digit as int - '0' as int)
    ensures ParseLong("-" + [digit]) == Some('0' as int - digit as int)
  {
    var value := digit as int - '0' as int;
    assert DigitsValue([digit]) == value by {
      assert [digit][..0] == [];
    }
    assert IsLong(value) && IsLong(-value);
    assert ("-" + [digit])[1..] == [digit];
  }

  /** A negative duration such as "-1 s" is refused (while "-0 s" is accepted as "0 s"). */
  lemma DurationRejectsNegative(option: OptionKey, digit: char, unit: char)
    requires '1' <= digit <= '9' && IsUnit([unit])
    ensures ValidateDuration(option, Some(['-', digit, ' ', unit]))
         == Failure(IllegalArgument(BadFormatMessage(option, ['-', digit, ' ', unit])))
  {
    var s := ['-', digit, ' ', unit];
    assert s == "-" + [digit, ' ', unit];
    NotBlank(s, 1);
    MatchNumberSpaceWord("-", digit, unit);
    var number := "-" + [digit];
    ParseOneDigit(digit);
    DurationRefused(option, s, number, [unit]);
  }

  /** A number followed by a unit outside the whitelist, such as "5 x", is refused. */
  lemma DurationRejectsUnknownUnit(option: OptionKey, digit: char, unit: char)
    requires IsDigit(digit) && IsWordChar(unit) && !IsUnit([unit])
    ensures ValidateDuration(option, Some([digit, ' ', unit]))
         == Failure(IllegalArgument(BadFormatMessage(option, [digit, ' ', unit])))
  {
    var s := [digit, ' ', unit];
    assert s == "" + [digit, ' ', unit];
    NotBlank(s, 0);
    MatchNumberSpaceWord("", digit, unit);
    var number := "" + [digit];
    ParseOneDigit(digit);
    assert number == [digit];
    DurationRefused(option, s, number, [unit]);
  }

  // ---------------------------------------------------------------- other options

  /**
   * The value `maxSize` stores: null or blank gives the default; otherwise
   * the trimmed text must parse as a long that is not negative, and is stored
   * in canonical decimal.
   */
  function ValidateMaxSize(maxSize: JString): (r: Result<string, Error>)
    ensures maxSize.None? ==> r == Success("0")
    ensures r.Failure? ==> r.error.IllegalArgument?
    ensures r.Success? ==> exists value: nat :: IsLong(value) && r.value == LongToString(value)
  {
    var numVal := if maxSize.None? || Trim(maxSize.value) == [] then DefaultValue(MaxSize) else Trim(maxSize.value);
    match ParseLong(numVal)
    case None => Failure(IllegalArgument(NumberFormatMessage(numVal)))
    case Some(value) =>
      if value < 0 then Failure(IllegalArgument("maxSize: " + LongToString(value) + " < 0"))
      else Success(LongToString(value))
  }

  /** A size surrounded by any padding `trim` strips is accepted and stored without it. */
  lemma MaxSizeAccepted(before: string, value: nat, after: string)
    requires IsLong(value)
    requires forall i :: 0 <= i < |before| ==> before[i] <= ' '
    requires forall i :: 0 <= i < |after| ==> after[i] <= ' '
    ensures ValidateMaxSize(Some(before + LongToString(value) + after)) == Success(LongToString(value))
  {
    var t := LongToString(value);
    LongToStringCanonical(value);
    assert IsDigit(t[0]) && IsDigit(t[|t| - 1]);
    TrimPadded(before, t, after);
    ParseLongToString(value);
  }

  /** A negative size is refused with a message naming the value. */
  lemma MaxSizeRejectsNegative(value: int)
    requires IsLong(value) && value < 0
    ensures ValidateMaxSize(Some(LongToString(value)))
         == Failure(IllegalArgument("maxSize: " + LongToString(value) + " < 0"))
  {
    var t := LongToString(value);
    assert t == "-" + DecimalDigits(-value);
    assert IsDigit(t[|t| - 1]);
    TrimPadded("", t, "");
    assert "" + t + "" == t;
    ParseLongToString(value);
  }

  /**
   * `maxSize` on any text: a blank text stores "0"; otherwise the trimmed
   * text is accepted exactly when `Long.parseLong` reads a value of at least
   * 0 from it, the value is stored in canonical decimal, and a text that is
   * not a long is refused with the NumberFormatException's message.
   */
  lemma MaxSizeOfText(s: string)
    ensures Trim(s) == [] ==> ValidateMaxSize(Some(s)) == Success("0")
    ensures Trim(s) != [] ==>
      (ValidateMaxSize(Some(s)).Success? <==> ParseLong(Trim(s)).Some? && ParseLong(Trim(s)).value >= 0)
    ensures Trim(s) != [] && ValidateMaxSize(Some(s)).Success? ==>
      ValidateMaxSize(Some(s)).value == LongToString(ParseLong(Trim(s)).value)
    ensures Trim(s) != [] && ParseLong(Trim(s)).None? ==>
      ValidateMaxSize(Some(s)) == Failure(IllegalArgument(NumberFormatMessage(Trim(s))))
  {
    if Trim(s) == [] {
      assert ParseLong("0") == Some(0) by {
        assert DigitsValue("0") == DigitsValue("0"[..0]) * 10 + 0;
      }
    }
  }

  /** Storing a size that `maxSize` produced again leaves it unchanged. */
  lemma MaxSizeIdempotent(maxSize: JString)
    requires ValidateMaxSize(maxSize).Success?
    ensures ValidateMaxSize(Some(ValidateMaxSize(maxSize).value)) == ValidateMaxSize(maxSize)
  {
    var r := ValidateMaxSize(maxSize);
    var value: nat :| IsLong(value) && r.value == LongToString(value);
    var t := LongToString(value);
    assert "" + t + "" == t;
    MaxSizeAccepted("", value, "");
    assert ValidateMaxSize(Some(t)) == Success(t);
  }

  /** The option values the builder stores for the simple setters. */
  function TrimmedOrDefault(option: OptionKey, s: JString): (r: string)
    ensures s.None? ==> r == DefaultValue(option)
    ensures s.Some? ==> r == Trim(s.value)
  {
    if s.Some? then Trim(s.value) else DefaultValue(option)
  }

  // ---------------------------------------------------------------- the builder

  /** The value the builder holds for an option, or its default when unset (`getOrDefault`). */
  function ValueOf(options: map<OptionKey, string>, k: OptionKey): string
  {
    if k in options then options[k] else DefaultValue(k)
  }

  /** The builder's value for `k` differs from the default, so `build` keeps it. */
  predicate Differs(options: map<OptionKey, string>, k: OptionKey) {
    ValueOf(options, k) != DefaultValue(k)
  }

  /**
   * The sparse snapshot of a builder's table: an option is present exactly
   * when its value differs from its default, or when it is `disk`, and is
   * mapped to the builder's value (the default for an unset `disk`).
   */
  ghost predicate IsSnapshotOf(snapshot: map<string, string>, options: map<OptionKey, string>) {
    && (forall name :: name in snapshot ==> exists k :: KeyName(k) == name)
    && (forall k :: KeyName(k) in snapshot <==> Differs(options, k) || k == Disk)
    && (forall k :: KeyName(k) in snapshot ==> snapshot[KeyName(k)] == ValueOf(options, k))
  }

  /** The map `Stream.of(Option.values()).filter(...).collect(...)` produces from some of the options. */
  function Collected(options: map<OptionKey, string>, keys: seq<OptionKey>): (r: map<string, string>)
    ensures forall name :: name in r ==> exists k :: k in keys && KeyName(k) == name
    ensures forall k :: KeyName(k) in r <==> k in keys && Differs(options, k)
    ensures forall k :: KeyName(k) in r ==> r[KeyName(k)] == ValueOf(options, k)
  {
    if keys == [] then
      map[]
    else
      var rest := Collected(options, keys[1..]);
      var k := keys[0];
      assert forall j :: j in keys <==> j == k || j in keys[1..];
      forall j ensures KeyName(j) == KeyName(k) ==> j == k {
        KeyNameInjective(j, k);
      }
      if Differs(options, k) then rest[KeyName(k) := options[k]] else rest
  }

  /** The immutable options a builder produces. */
  datatype RecordingOptions = RecordingOptions(recordingOptions: map<string, string>) {

    /** Any getter: the snapshot's value, or the option's default when absent. */
    function Get(k: OptionKey): string
    {
      if KeyName(k) in recordingOptions then recordingOptions[KeyName(k)] else DefaultValue(k)
    }

    function GetName(): string { Get(Name) }
    function GetMaxAge(): string { Get(MaxAge) }
    function GetMaxSize(): string { Get(MaxSize) }
    function GetDumpOnExit(): string { Get(DumpOnExit) }
    function GetDestination(): string { Get(Destination) }
    function GetDisk(): string { Get(Disk) }
    function GetDuration(): string { Get(Duration) }
  }

  /** Each getter of a built snapshot returns the value the builder held, or the default. */
  lemma GetAfterBuild(snapshot: map<string, string>, options: map<OptionKey, string>, k: OptionKey)
    requires IsSnapshotOf(snapshot, options)
    ensures RecordingOptions(snapshot).Get(k) == ValueOf(options, k)
  {
  }

  /** A built snapshot is never empty: it always holds `disk`. */
  lemma SnapshotHoldsDisk(snapshot: map<string, string>, options: map<OptionKey, string>)
    requires IsSnapshotOf(snapshot, options)
    ensures "disk" in snapshot && |snapshot| > 0
  {
    assert KeyName(Disk) in snapshot;
  }

  /** The builder: a table from option to validated value, filled by the setters. */
  class Builder {
    var options: map<OptionKey, string>

    constructor ()
      ensures options == map[]
    {
      options := map[];
    }

    /** `name`: stores the trimmed name, or the empty default for null. */
    method SetName(name: JString)
      modifies this
      ensures options == old(options)[Name := TrimmedOrDefault(Name, name)]
    {
      options := options[Name := if name != None then Trim(name.value) else DefaultValue(Name)];
    }

    /** `maxAge`: validates first, so a refused value leaves the table unchanged. */
    method SetMaxAge(maxAge: JString) returns (r: Outcome<Error>)
      modifies this
      ensures ValidateDuration(MaxAge, maxAge).Success? ==>
        r == Pass && options == old(options)[MaxAge := ValidateDuration(MaxAge, maxAge).value]
      ensures ValidateDuration(MaxAge, maxAge).Failure? ==>
        r == Fail(ValidateDuration(MaxAge, maxAge).error) && options == old(options)
    {
      var validated := ValidateDuration(MaxAge, maxAge);
      if validated.Failure? {
        return Fail(validated.error);
      }
      options := options[MaxAge := validated.value];
      r := Pass;
    }

    /** `maxSize`: validates first, so a refused value leaves the table unchanged. */
    method SetMaxSize(maxSize: JString) returns (r: Outcome<Error>)
      modifies this
      ensures ValidateMaxSize(maxSize).Success? ==>
        r == Pass && options == old(options)[MaxSize := ValidateMaxSize(maxSize).value]
      ensures ValidateMaxSize(maxSize).Failure? ==>
        r == Fail(ValidateMaxSize(maxSize).error) && options == old(options)
    {
      var validated := ValidateMaxSize(maxSize);
      if validated.Failure? {
        return Fail(validated.error);
      }
      options := options[MaxSize := validated.value];
      r := Pass;
    }

    /** `dumpOnExit`: stores `Boolean.valueOf(dumpOnExit).toString()`. */
    method SetDumpOnExit(dumpOnExit: JString)
      modifies this
      ensures options == old(options)[DumpOnExit := BooleanValueOf(dumpOnExit)]
    {
      options := options[DumpOnExit := BooleanValueOf(dumpOnExit)];
    }

    /** `destination`: stores the trimmed path, or the empty default for null. */
    method SetDestination(destination: JString)
      modifies this
      ensures options == old(options)[Destination := TrimmedOrDefault(Destination, destination)]
    {
      options := options[Destination := if destination != None then Trim(destination.value) else DefaultValue(Destination)];
    }

    /** `disk`: stores `Boolean.valueOf(disk).toString()`. */
    method SetDisk(disk: JString)
      modifies this
      ensures options == old(options)[Disk := BooleanValueOf(disk)]
    {
      options := options[Disk := BooleanValueOf(disk)];
    }

    /** `duration`: validates first, so a refused value leaves the table unchanged. */
    method SetDuration(duration: JString) returns (r: Outcome<Error>)
      modifies this
      ensures ValidateDuration(Duration, duration).Success? ==>
        r == Pass && options == old(options)[Duration := ValidateDuration(Duration, duration).value]
      ensures ValidateDuration(Duration, duration).Failure? ==>
        r == Fail(ValidateDuration(Duration, duration).error) && options == old(options)
    {
      var validated := ValidateDuration(Duration, duration);
      if validated.Failure? {
        return Fail(validated.error);
      }
      options := options[Duration := validated.value];
      r := Pass;
    }

    /**
     * `build`: collects the options that differ from their defaults, then
     * puts `disk` with its default when it was left out. The builder itself
     * is not changed.
     */
    method Build() returns (built: RecordingOptions)
      ensures IsSnapshotOf(built.recordingOptions, options)
    {
      var collected := Collected(options, ALL_OPTIONS);
      assert forall k :: k in ALL_OPTIONS;
      if KeyName(Disk) !in collected {
        collected := collected[KeyName(Disk) := DefaultValue(Disk)];
      }
      built := RecordingOptions(collected);
    }
  }
}
