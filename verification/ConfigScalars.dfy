/** The scalars of the configuration file: how they are written and how they are read back. */
module ConfigScalars {
  import opened Options
  import opened PythonText

  datatype Scalar = Null | Bool(b: bool) | Int(n: int) | Str(s: string)

  // ---------------------------------------------------------------- integers

  /** Where the runs of ten decimal digits outside ASCII start (Unicode 15.0, category Nd). */
  const OTHER_DIGIT_ZEROS: seq<int> := [
    0x660, 0x6F0, 0x7C0, 0x966, 0x9E6, 0xA66, 0xAE6, 0xB66, 0xBE6, 0xC66, 0xCE6, 0xD66, 0xDE6, 0xE50, 0xED0,
    0xF20, 0x1040, 0x1090, 0x17E0, 0x1810, 0x1946, 0x19D0, 0x1A80, 0x1A90, 0x1B50, 0x1BB0, 0x1C40, 0x1C50,
    0xA620, 0xA8D0, 0xA900, 0xA9D0, 0xA9F0, 0xAA50, 0xABF0, 0xFF10, 0x104A0, 0x10D30, 0x11066, 0x110F0,
    0x11136, 0x111D0, 0x112F0, 0x11450, 0x114D0, 0x11650, 0x116C0, 0x11730, 0x118E0, 0x11950, 0x11C50,
    0x11D50, 0x11DA0, 0x11F50, 0x16A60, 0x16AC0, 0x16B50, 0x1D7CE, 0x1D7D8, 0x1D7E2, 0x1D7EC, 0x1D7F6,
    0x1E140, 0x1E2F0, 0x1E4F0, 0x1E950, 0x1FBF0]

  function DigitIn(code: int, zeros: seq<int>): Option<nat> {
    if zeros == [] then None
    else if zeros[0] <= code < zeros[0] + 10 then Some(code - zeros[0])
    else DigitIn(code, zeros[1..])
  }

  function DigitValue(c: char): Option<nat> {
    if '0' <= c <= '9' then Some(c as int - '0' as int)
    else if c < '\U{80}' then None
    else DigitIn(c as int, OTHER_DIGIT_ZEROS)
  }

  /** Digits of an integer literal, with single underscores allowed between digits. */
  function ReadDigits(s: string, acc: nat, afterDigit: bool): Option<nat> {
    if s == "" then if afterDigit then Some(acc) else None
    else match DigitValue(s[0])
      case Some(d) => ReadDigits(s[1..], 10 * acc + d, true)
      case None => if s[0] == '_' && afterDigit then ReadDigits(s[1..], acc, false) else None
  }

  /** `int(value)` on trimmed text; None where Python raises ValueError. */
  function ReadInt(s: string): Option<int> {
    var signed := s != "" && (s[0] == '-' || s[0] == '+');
    match ReadDigits(if signed then s[1..] else s, 0, false)
    case Some(n) => if signed && s[0] == '-' then Some(0 - n) else Some(n)
    case None => None
  }

  function DigitsOf(n: nat): (s: string)
    ensures s != "" && forall i :: 0 <= i < |s| ==> '0' <= s[i] <= '9'
  {
    var last := [(n % 10 + '0' as int) as char];
    if n < 10 then last else DigitsOf(n / 10) + last
  }

  /** `str(n)`. */
  function IntText(n: int): (s: string)
    ensures s != "" && (s[0] == '-' || '0' <= s[0] <= '9')
    ensures forall i :: 0 < i < |s| ==> '0' <= s[i] <= '9'
    ensures '0' <= s[|s| - 1] <= '9'
  {
    if n < 0 then "-" + DigitsOf(-n) else DigitsOf(n)
  }

  lemma {:induction false} ReadDigitsSnoc(s: string, c: char, acc: nat, afterDigit: bool)
    requires forall i :: 0 <= i < |s| ==> '0' <= s[i] <= '9'
    requires s != "" || afterDigit
    requires '0' <= c <= '9'
    ensures ReadDigits(s, acc, afterDigit).Some?
    ensures ReadDigits(s + [c], acc, afterDigit)
         == Some(10 * ReadDigits(s, acc, afterDigit).value + (c as int - '0' as int))
  {
    if s == "" {
      assert s + [c] == [c] && [c][1..] == "";
      assert ReadDigits([c], acc, afterDigit) == ReadDigits("", 10 * acc + (c as int - '0' as int), true);
    } else {
      assert (s + [c])[1..] == s[1..] + [c];
      ReadDigitsSnoc(s[1..], c, 10 * acc + (s[0] as int - '0' as int), true);
    }
  }

  lemma {:induction false} ReadDigitsOf(n: nat)
    ensures ReadDigits(DigitsOf(n), 0, false) == Some(n)
  {
    var last := (n % 10 + '0' as int) as char;
    if n < 10 {
      assert [last][1..] == "";
      assert ReadDigits([last], 0, false) == ReadDigits("", n, true);
    } else {
      ReadDigitsOf(n / 10);
      ReadDigitsSnoc(DigitsOf(n / 10), last, 0, false);
    }
  }

  // ---------------------------------------------------------------- printing and parsing

  function RenderScalar(v: Scalar): string {
    match v
    case Null => "null"
    case Bool(b) => if b then "true" else "false"
    case Int(n) => IntText(n)
    case Str(s) => s
  }

  predicate Quoted(s: string) {
    s != "" && (s[0] == '"' || s[0] == '\'') && s[|s| - 1] == s[0]
  }

  function ParseScalar(value: string): (v: Scalar)
    ensures v.Str? ==> v.s == value || (Quoted(value) && |v.s| < |value|)
    ensures v.Str? && SingleLine(value) ==> SingleLine(v.s)
  {
    var lowered := Lower(value);
    if lowered == "null" || lowered == "~" then Null
    else if lowered == "true" then Bool(true)
    else if lowered == "false" then Bool(false)
    else if Quoted(value) then Str(if |value| >= 2 then value[1..|value| - 1] else "")
    else if '.' !in value then
      match ReadInt(value)
      case Some(n) => Int(n)
      case None => Str(value)
    else Str(value)
  }

  /**
   * Text that is read back as the very same string: none of the spellings of null, true or
   * false, not wrapped in matching quotes, and not an integer literal.
   */
  predicate PlainText(s: string) {
    && Lower(s) !in {"null", "~", "true", "false"}
    && !Quoted(s)
    && ReadInt(s).None?
  }

  lemma {:induction false} ReadDigitsHasNoDot(s: string, acc: nat, afterDigit: bool)
    requires ReadDigits(s, acc, afterDigit).Some?
    ensures '.' !in s
  {
    if s != "" {
      match DigitValue(s[0]) {
        case Some(d) => ReadDigitsHasNoDot(s[1..], 10 * acc + d, true);
        case None => ReadDigitsHasNoDot(s[1..], acc, false);
      }
      assert forall c | c in s :: c == s[0] || c in s[1..];
    }
  }

  lemma ReadIntText(n: int)
    ensures ReadInt(IntText(n)) == Some(n) && '.' !in IntText(n)
  {
    var s := IntText(n);
    var digits := if n < 0 then s[1..] else s;
    ReadDigitsOf(if n < 0 then -n else n);
    assert digits == DigitsOf(if n < 0 then -n else n);
  }

  lemma LowerKeepsNonLetter(s: string)
    requires s != "" && s[0] < 'A'
    ensures Lower(s) != "" && Lower(s)[0] == s[0]
  {
  }

  /** Every null, boolean and integer survives being written and read. */
  lemma RoundTripNonString(v: Scalar)
    requires !v.Str?
    ensures ParseScalar(RenderScalar(v)) == v
  {
    match v {
      case Null => assert Lower("null") == "null";
      case Bool(b) => assert Lower("true") == "true"; assert Lower("false") == "false";
      case Int(n) => RoundTripInt(n);
    }
  }

  lemma RoundTripInt(n: int)
    ensures ParseScalar(IntText(n)) == Int(n)
  {
    ReadIntText(n);
    hide IntText, ReadInt;
    LowerKeepsNonLetter(IntText(n));
    hide Lower;
    assert Lower(IntText(n))[0] < 'A';
  }

  /** A string survives exactly when its text is plain. */
  lemma RoundTripString(s: string)
    ensures ParseScalar(s) == Str(s) <==> PlainText(s)
  {
    if ReadInt(s).Some? {
      if s[0] == '-' || s[0] == '+' {
        ReadDigitsHasNoDot(s[1..], 0, false);
        assert forall c | c in s :: c == s[0] || c in s[1..];
      } else {
        ReadDigitsHasNoDot(s, 0, false);
      }
    }
  }

  // ---------------------------------------------------------------- forms that the printer does not write

  /** `s` is the lower-case ASCII word `word`, in any mixture of cases. */
  predicate AnyCase(s: string, word: string) {
    |s| == |word| && forall i :: 0 <= i < |s| ==> s[i] == word[i] || s[i] as int + 32 == word[i] as int
  }

  lemma LowerAnyCase(s: string, word: string)
    requires forall i :: 0 <= i < |word| ==> 'a' <= word[i] <= 'z' && word[i] != 'k'
    ensures Lower(s) == word <==> AnyCase(s, word)
  {
    var lowered := Lower(s);
    forall i | 0 <= i < |s| && i < |word|
      ensures LowerChar(s[i]) == word[i] <==> s[i] == word[i] || s[i] as int + 32 == word[i] as int
    {
    }
    if lowered != word && |s| == |word| {
      var i :| 0 <= i < |s| && lowered[i] != word[i];
    }
  }

  /** Null and the booleans are read from their names in any case, null also from a tilde, and from nothing else. */
  lemma NamesRead(s: string)
    ensures ParseScalar(s) == Null <==> s == "~" || AnyCase(s, "null")
    ensures ParseScalar(s) == Bool(true) <==> AnyCase(s, "true")
    ensures ParseScalar(s) == Bool(false) <==> AnyCase(s, "false")
  {
    LowerAnyCase(s, "null");
    LowerAnyCase(s, "true");
    LowerAnyCase(s, "false");
    var lowered := Lower(s);
    assert lowered == "~" <==> s == "~" by {
      if |s| == 1 { assert lowered[0] == LowerChar(s[0]); }
    }
    hide Lower, ReadInt, Quoted;
  }

  /** Text in matching quotes is read as what is between them, whatever that spells. */
  lemma QuotedIsInside(inner: string, quote: char)
    requires quote == '"' || quote == '\''
    ensures ParseScalar([quote] + inner + [quote]) == Str(inner)
  {
    var s := [quote] + inner + [quote];
    NamesRead(s);
    assert s[0] == quote && s[|s| - 1] == quote && s[1..|s| - 1] == inner;
    hide ReadInt;
  }

  /** Every other text is an integer when Python's `int` takes it, and itself otherwise. */
  lemma OthersRead(s: string)
    requires s != "~" && !AnyCase(s, "null") && !AnyCase(s, "true") && !AnyCase(s, "false") && !Quoted(s)
    ensures ParseScalar(s) == if ReadInt(s).Some? then Int(ReadInt(s).value) else Str(s)
  {
    NamesRead(s);
    RoundTripString(s);
    hide Lower, Quoted, ReadInt, AnyCase;
  }

  predicate Decimal(s: string) {
    s != "" && forall i :: 0 <= i < |s| ==> '0' <= s[i] <= '9'
  }

  lemma {:induction false} ReadDigitsJoined(a: string, b: string, acc: nat, afterDigit: bool)
    requires Decimal(a) && Decimal(b)
    ensures ReadDigits(a + "_" + b, acc, afterDigit) == ReadDigits(a + b, acc, afterDigit)
  {
    var next := 10 * acc + (a[0] as int - '0' as int);
    assert (a + "_" + b)[1..] == a[1..] + "_" + b && (a + b)[1..] == a[1..] + b;
    if |a| == 1 {
      assert a[1..] + "_" + b == "_" + b && a[1..] + b == b && ("_" + b)[1..] == b;
      assert ReadDigits("_" + b, next, true) == ReadDigits(b, next, false);
      assert ReadDigits(b, next, false) == ReadDigits(b, next, true);
    } else {
      ReadDigitsJoined(a[1..], b, next, true);
    }
  }

  /** Underscores between digits and a plus sign make no difference, a minus sign negates. */
  lemma IntForms(a: string, b: string)
    requires Decimal(a) && Decimal(b)
    ensures ReadInt(a + b).Some? && ReadInt(a + "_" + b) == ReadInt(a + b) == ReadInt("+" + a + b)
    ensures ReadInt("-" + a + b) == Some(0 - ReadInt(a + b).value)
  {
    ReadDigitsJoined(a, b, 0, false);
    assert ("+" + a + b)[1..] == a + b && ("-" + a + b)[1..] == a + b;
    var front, last := (a + b)[..|a + b| - 1], (a + b)[|a + b| - 1];
    assert a + b == front + [last];
    ReadDigitsSnoc(front, last, 0, false);
  }
}
