/** internal/config/duration.go: the integer duration syntax of `max_age`
    ("30d", "24h", "60m", "3600s", "100"), as `time.Duration` nanoseconds. */
module Duration {
  import opened Common
  import opened Text

  const Second: int := 1_000_000_000
  const Minute: int := 60 * Second
  const Day: int := 24 * Hour

  /** `DefaultMaxAge`: thirty days. */
  const DefaultMaxAge: int := 30 * Day

  const MaxInt64: int := 0x7fff_ffff_ffff_ffff
  const TwoTo64: int := 0x1_0000_0000_0000_0000

  /** Go's `int64` multiplication wraps modulo 2^64 into [-2^63, 2^63). */
  function Wrap64(x: int): (r: int)
    ensures -MaxInt64 - 1 <= r <= MaxInt64
    ensures -MaxInt64 - 1 <= x <= MaxInt64 ==> r == x
    ensures (r - x) % TwoTo64 == 0
  {
    (x + MaxInt64 + 1) % TwoTo64 - MaxInt64 - 1
  }

  /** RE2's `\s`: tab, newline, form feed, carriage return and space. */
  predicate IsRegexSpace(c: char)
  {
    c == '\t' || c == '\n' || c == '\U{0C}' || c == '\r' || c == ' '
  }

  /** The characters `(?i)[dhms]` matches: the four letters in either case,
      and U+017F LATIN SMALL LETTER LONG S, which case-folds to "s". */
  predicate IsUnitChar(c: char)
  {
    c in "dhmsDHMS" || c == '\U{017F}'
  }

  function DigitRun(t: string): (n: nat)
    ensures n <= |t| && AllDigits(t[..n])
    ensures n < |t| ==> !IsDigit(t[n])
  {
    if t != [] && IsDigit(t[0]) then
      var k := DigitRun(t[1..]);
      assert t[..k + 1] == [t[0]] + t[1..][..k];
      k + 1
    else 0
  }

  function SpaceRun(t: string): (n: nat)
    ensures n <= |t|
    ensures forall k :: 0 <= k < n ==> IsRegexSpace(t[k])
    ensures n < |t| ==> !IsRegexSpace(t[n])
  {
    if t != [] && IsRegexSpace(t[0]) then 1 + SpaceRun(t[1..]) else 0
  }

  /** The two submatches of `^(\d+)\s*([dhms]?)$` (case-insensitive). */
  datatype Submatches = Submatches(digits: string, unit: string)

  /** `durationRegex.FindStringSubmatch(t)`. */
  function FindSubmatch(t: string): Option<Submatches>
  {
    var n := DigitRun(t);
    if n == 0 then None
    else
      var tail := t[n..][SpaceRun(t[n..])..];
      if tail == [] || (|tail| == 1 && IsUnitChar(tail[0])) then Some(Submatches(t[..n], tail))
      else None
  }

  /** `t` is digits, then regex spaces, then at most one unit character. */
  predicate Spells(t: string, digits: string, spaces: string, unit: string)
  {
    t == digits + spaces + unit
    && digits != [] && AllDigits(digits)
    && (forall k :: 0 <= k < |spaces| ==> IsRegexSpace(spaces[k]))
    && (unit == [] || (|unit| == 1 && IsUnitChar(unit[0])))
  }

  lemma {:induction false} DigitRunOf(d: string, rest: string)
    requires AllDigits(d) && (rest == [] || !IsDigit(rest[0]))
    ensures DigitRun(d + rest) == |d|
  {
    if d != [] {
      assert (d + rest)[1..] == d[1..] + rest;
      DigitRunOf(d[1..], rest);
    } else {
      assert d + rest == rest;
    }
  }

  lemma {:induction false} SpaceRunOf(sp: string, rest: string)
    requires (forall k :: 0 <= k < |sp| ==> IsRegexSpace(sp[k])) && (rest == [] || !IsRegexSpace(rest[0]))
    ensures SpaceRun(sp + rest) == |sp|
  {
    if sp != [] {
      assert (sp + rest)[1..] == sp[1..] + rest;
      SpaceRunOf(sp[1..], rest);
    } else {
      assert sp + rest == rest;
    }
  }

  /** What follows the digits of a string of the expression's shape: no
      digit first, and a space run that ends right at the unit. */
  lemma TailAfterDigits(sp: string, u: string)
    requires forall k :: 0 <= k < |sp| ==> IsRegexSpace(sp[k])
    requires u == [] || (|u| == 1 && IsUnitChar(u[0]))
    ensures sp + u == [] || !IsDigit((sp + u)[0])
    ensures SpaceRun(sp + u) == |sp| && (sp + u)[|sp|..] == u
  {
    if sp != [] {
      assert (sp + u)[0] == sp[0];
    }
    SpaceRunOf(sp, u);
  }

  /** A string of the regular expression's shape is matched with its digits
      and its unit as the submatches. */
  lemma MatchesSpelling(t: string, d: string, sp: string, u: string)
    requires Spells(t, d, sp, u)
    ensures FindSubmatch(t) == Some(Submatches(d, u))
  {
    var rest := sp + u;
    assert t == d + rest;
    TailAfterDigits(sp, u);
    DigitRunOf(d, rest);
    assert t[..|d|] == d && t[|d|..] == rest;
  }

  /** Whatever the matcher accepts splits into digits, spaces and a unit. */
  lemma SubmatchSpelled(t: string)
    requires FindSubmatch(t).Some?
    ensures exists d, sp, u :: Spells(t, d, sp, u)
  {
    var n := DigitRun(t);
    var rest := t[n..];
    var k := SpaceRun(rest);
    assert t == t[..n] + rest[..k] + rest[k..];
    assert Spells(t, t[..n], rest[..k], rest[k..]);
  }

  /** The matcher accepts exactly the strings of the regular expression, and
      its submatches are the digits and the unit of the one way to split them. */
  lemma FindSubmatchExact(t: string)
    ensures FindSubmatch(t).Some? <==> exists d, sp, u :: Spells(t, d, sp, u)
    ensures forall d, sp, u :: Spells(t, d, sp, u) ==> FindSubmatch(t) == Some(Submatches(d, u))
  {
    forall d, sp, u | Spells(t, d, sp, u)
      ensures FindSubmatch(t) == Some(Submatches(d, u))
    {
      MatchesSpelling(t, d, sp, u);
    }
    if FindSubmatch(t).Some? {
      SubmatchSpelled(t);
    }
  }

  /** What the number and unit stand for before the final multiplication. */
  datatype Reading = Reading(count: nat, scale: int)

  /** The `switch` on the lower-cased unit. */
  function UnitScale(unit: string): Option<int>
  {
    if unit == "" || unit == "s" then Some(Second)
    else if unit == "m" then Some(Minute)
    else if unit == "h" then Some(Hour)
    else if unit == "d" then Some(Day)
    else None
  }

  /** Matching, `strconv.ParseInt` and the unit switch of a trimmed input. */
  function Read(t: string): (r: Result<Reading, Error>)
    ensures r.Ok? ==> r.value.count <= MaxInt64
    ensures r.Ok? ==> r.value.scale in {Second, Minute, Hour, Day}
  {
    match FindSubmatch(t)
    case None => Err(Message("invalid duration format: " + Quote(t)))
    case Some(m) =>
      var value := DigitsValue(m.digits);
      if value > MaxInt64 then
        Err(Wrapped("parse duration value",
                    Message("strconv.ParseInt: parsing " + Quote(m.digits) + ": value out of range")))
      else
        var unit := ToLower(m.unit);
        match UnitScale(unit)
        case None => Err(Message("unknown duration unit: " + Quote(unit)))
        case Some(scale) => Ok(Reading(value, scale))
  }

  /** A string of the expression's shape reads as its count and the scale
      of its lower-cased unit, when the count fits `int64` and the unit is
      one the switch knows. */
  lemma ReadSpelled(t: string, d: string, sp: string, u: string)
    requires Spells(t, d, sp, u) && DigitsValue(d) <= MaxInt64 && UnitScale(ToLower(u)).Some?
    ensures Read(t) == Ok(Reading(DigitsValue(d), UnitScale(ToLower(u)).value))
  {
    MatchesSpelling(t, d, sp, u);
  }

  /** The same shape with a unit the switch does not know is an
      unknown-unit error naming the lower-cased unit. */
  lemma ReadUnknownUnit(t: string, d: string, sp: string, u: string)
    requires Spells(t, d, sp, u) && DigitsValue(d) <= MaxInt64 && UnitScale(ToLower(u)).None?
    ensures Read(t) == Err(Message("unknown duration unit: " + Quote(ToLower(u))))
  {
    MatchesSpelling(t, d, sp, u);
  }

  /** `ParseDuration`. */
  function ParseDuration(s: string): (r: Result<int, Error>)
    ensures TrimSpace(s) == [] ==> r == Ok(DefaultMaxAge)
    ensures r.Ok? ==> -MaxInt64 - 1 <= r.value <= MaxInt64
    ensures r.Err? <==> TrimSpace(s) != [] && Read(TrimSpace(s)).Err?
  {
    var t := TrimSpace(s);
    if t == [] then Ok(DefaultMaxAge)
    else
      match Read(t)
      case Err(e) => Err(e)
      case Ok(reading) => Ok(Wrap64(reading.count * reading.scale))
  }

  /** Without `int64` overflow, a parsed duration is the count times the
      unit and never negative. */
  lemma NonNegativeWithoutOverflow(s: string)
    requires ParseDuration(s).Ok? && TrimSpace(s) != []
    ensures Read(TrimSpace(s)).Ok?
    ensures var reading := Read(TrimSpace(s)).value;
      reading.count * reading.scale <= MaxInt64 ==>
        ParseDuration(s).value == reading.count * reading.scale >= 0
  {
    var reading := Read(TrimSpace(s)).value;
    assert ParseDuration(s) == Ok(Wrap64(reading.count * reading.scale));
    assert reading.scale > 0;
    NatTimesPositive(reading.count, reading.scale);
  }

  lemma NatTimesPositive(a: nat, b: int)
    requires b > 0
    ensures a * b >= 0
  {
  }

  lemma CountWithinProduct(a: nat, b: int)
    requires b >= 1
    ensures a <= a * b
  {
  }

  /** The scale a unit letter stands for, in either case. */
  function LetterScale(c: char): int
    requires c in "dhmsDHMS"
  {
    match LowerChar(c)
    case 'd' => Day
    case 'h' => Hour
    case 'm' => Minute
    case _ => Second
  }

  lemma TrimmedAlready(t: string)
    requires t != [] && !IsSpace(t[0]) && !IsSpace(t[|t| - 1])
    ensures TrimSpace(t) == t
  {
    assert TrimLeft(t) == t;
  }

  /** Digits first and a non-space last: nothing to trim. */
  lemma DigitsFirstTrimmed(t: string)
    requires t != [] && IsDigit(t[0]) && !IsSpace(t[|t| - 1])
    ensures TrimSpace(t) == t
  {
    TrimmedAlready(t);
  }

  /** A unit letter passes the regular expression, and the switch maps its
      lower-cased form to the letter's scale. */
  lemma UnitLetterScale(c: char)
    requires c in "dhmsDHMS"
    ensures IsUnitChar(c) && !IsSpace(c)
    ensures UnitScale(ToLower([c])) == Some(LetterScale(c))
    ensures LetterScale(c) >= 1
  {
    assert ToLower([c]) == [LowerChar(c)];
  }

  /** A trimmed input that reads without overflow parses to the product. */
  lemma ParseRead(t: string, reading: Reading)
    requires t != [] && TrimSpace(t) == t && Read(t) == Ok(reading)
    requires reading.count * reading.scale <= MaxInt64 && reading.scale >= 1
    ensures ParseDuration(t) == Ok(reading.count * reading.scale)
  {
    CountWithinProduct(reading.count, reading.scale);
  }

  /** A trimmed input that does not read fails with the reading's error. */
  lemma ParseReadError(t: string)
    requires t != [] && TrimSpace(t) == t && Read(t).Err?
    ensures ParseDuration(t) == Err(Read(t).error)
  {
  }

  /** Printing a count in decimal, any regex spaces and a unit letter in
      either case, then parsing it back, gives the count times the unit. */
  lemma {:induction false} ParseCountWithUnit(d: string, sp: string, c: char)
    requires d != [] && AllDigits(d) && forall k :: 0 <= k < |sp| ==> IsRegexSpace(sp[k])
    requires c in "dhmsDHMS" && DigitsValue(d) * LetterScale(c) <= MaxInt64
    ensures ParseDuration(d + sp + [c]) == Ok(DigitsValue(d) * LetterScale(c))
  {
    var n := DigitsValue(d);
    var t := d + sp + [c];
    UnitLetterScale(c);
    assert t[0] == d[0] && t[|t| - 1] == c;
    DigitsFirstTrimmed(t);
    assert Spells(t, d, sp, [c]);
    CountWithinProduct(n, LetterScale(c));
    ReadSpelled(t, d, sp, [c]);
    ParseRead(t, Reading(n, LetterScale(c)));
  }

  /** A bare count means seconds. */
  lemma {:induction false} ParseBareCount(d: string)
    requires d != [] && AllDigits(d) && DigitsValue(d) * Second <= MaxInt64
    ensures ParseDuration(d) == Ok(DigitsValue(d) * Second)
  {
    var n := DigitsValue(d);
    assert IsDigit(d[|d| - 1]);
    DigitsFirstTrimmed(d);
    assert Spells(d, d, [], []) by { assert d == d + [] + []; }
    assert ToLower([]) == [];
    CountWithinProduct(n, Second);
    ReadSpelled(d, d, [], []);
    ParseRead(d, Reading(n, Second));
  }

  /** Whitespace around the input never changes the outcome. */
  lemma PaddingIgnored(pre: string, s: string, post: string)
    requires AllSpace(pre) && AllSpace(post)
    ensures ParseDuration(pre + s + post) == ParseDuration(s)
  {
    TrimSpacePadded(pre, s, post);
  }

  /** Input whose first non-space character is not a digit (a sign, a letter)
      is rejected as malformed. */
  lemma {:induction false} NonDigitStartRejected(s: string)
    requires TrimSpace(s) != [] && !IsDigit(TrimSpace(s)[0])
    ensures ParseDuration(s) == Err(Message("invalid duration format: " + Quote(TrimSpace(s))))
  {
  }

  /** Hence a leading sign is always an error. */
  lemma {:induction false} SignRejected(sign: char, rest: string)
    requires sign == '-' || sign == '+'
    ensures ParseDuration([sign] + rest).Err?
  {
    var s := [sign] + rest;
    assert !IsSpace(s[0]);
    assert TrimLeft(s) == s;
    assert TrimSpace(s)[0] == sign;
    NonDigitStartRejected(s);
  }

  /** A count beyond `int64` is a "parse duration value" error, whatever the unit. */
  lemma {:induction false} CountOutOfRange(d: string)
    requires d != [] && AllDigits(d) && DigitsValue(d) > MaxInt64
    ensures ParseDuration(d).Err? && ParseDuration(d).error.Wrapped?
      && ParseDuration(d).error.prefix == "parse duration value"
  {
    assert IsDigit(d[0]) && IsDigit(d[|d| - 1]);
    TrimmedAlready(d);
    assert Spells(d, d, [], []) by { assert d == d + [] + []; }
    MatchesSpelling(d, d, [], []);
  }

  /** The regular expression lets U+017F through as a unit, and the switch
      then rejects it: "1ſ" is an unknown-unit error, not a format error. */
  lemma LongSIsUnknownUnit(d: string)
    requires d != [] && AllDigits(d) && DigitsValue(d) <= MaxInt64
    ensures ParseDuration(d + "\U{017F}") == Err(Message("unknown duration unit: " + Quote("\U{017F}")))
  {
    var t := d + "\U{017F}";
    assert t[0] == d[0] && t[|t| - 1] == '\U{017F}';
    DigitsFirstTrimmed(t);
    assert Spells(t, d, [], "\U{017F}");
    assert ToLower("\U{017F}") == "\U{017F}";
    ReadUnknownUnit(t, d, [], "\U{017F}");
    ParseReadError(t);
  }

  /** A count followed by a character that is neither a digit, a space
      nor a unit letter is malformed ("30x"). */
  lemma {:induction false} UnknownSuffixRejected(d: string, c: char)
    requires d != [] && AllDigits(d)
    requires !IsDigit(c) && !IsRegexSpace(c) && !IsUnitChar(c) && !IsSpace(c)
    ensures ParseDuration(d + [c]).Err?
  {
    var t := d + [c];
    assert t[0] == d[0] && t[|t| - 1] == c;
    DigitsFirstTrimmed(t);
    DigitRunOf(d, [c]);
    assert t[|d|..] == [c];
    SpaceRunOf([], [c]);
    assert FindSubmatch(t).None?;
    ParseReadError(t);
  }

  /** Blank input means the thirty-day default. */
  lemma BlankIsDefault(s: string)
    requires AllSpace(s)
    ensures ParseDuration(s) == Ok(DefaultMaxAge)
  {
    TrimSpacePadded(s, [], []);
    assert s + [] + [] == s;
  }
}
