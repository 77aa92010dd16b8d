/** The validator of the car "numbers" field: two or three space-separated
    tokens must start with an integer; any other input must match some
    registration of the event. */
module NumbersValidation {
  import opened Domain

  // ---------------------------------------------------------------------------
  // Splitting on single spaces
  // ---------------------------------------------------------------------------

  /** The pieces of `s` between single spaces, empty pieces included, so there
      is always at least one: "" gives [""], "1  HS" gives ["1", "", "HS"]. */
  function Split(s: string): (tokens: seq<string>)
    ensures |tokens| >= 1
    ensures forall i :: 0 <= i < |tokens| ==> ' ' !in tokens[i]
  {
    if s == [] then [""]
    else
      var rest := Split(s[1..]);
      if s[0] == ' ' then [""] + rest
      else [[s[0]] + rest[0]] + rest[1..]
  }

  /** The tokens glued back together with single spaces. */
  function Join(tokens: seq<string>): string
    requires |tokens| >= 1
  {
    if |tokens| == 1 then tokens[0] else tokens[0] + " " + Join(tokens[1..])
  }

  /** The number of spaces in `s`. */
  function SpaceCount(s: string): nat
  {
    if s == [] then 0 else (if s[0] == ' ' then 1 else 0) + SpaceCount(s[1..])
  }

  /** The longest prefix of `s` without a space. */
  function BeforeFirstSpace(s: string): (p: string)
    ensures ' ' !in p && p <= s
    ensures |p| < |s| ==> s[|p|] == ' '
  {
    if s == [] || s[0] == ' ' then "" else [s[0]] + BeforeFirstSpace(s[1..])
  }

  /** Splitting loses nothing: joining the tokens gives the input back. */
  lemma {:induction false} JoinSplit(s: string)
    ensures Join(Split(s)) == s
  {
    if s != [] {
      var rest := Split(s[1..]);
      JoinSplit(s[1..]);
      if s[0] != ' ' {
        var tokens := Split(s);
        assert tokens[0] == [s[0]] + rest[0] && tokens[1..] == rest[1..];
        if |rest| > 1 {
          assert Join(rest) == rest[0] + " " + Join(rest[1..]);
        }
      } else {
        assert Split(s)[1..] == rest;
      }
    }
  }

  /** There is one token more than there are spaces. */
  lemma {:induction false} SplitCount(s: string)
    ensures |Split(s)| == SpaceCount(s) + 1
  {
    if s != [] {
      SplitCount(s[1..]);
    }
  }

  /** The first token is everything before the first space. */
  lemma {:induction false} SplitFirst(s: string)
    ensures Split(s)[0] == BeforeFirstSpace(s)
  {
    if s != [] && s[0] != ' ' {
      SplitFirst(s[1..]);
    }
  }

  /** "1 HS" has two tokens; "1  HS" has three, the middle one empty. */
  lemma SplitExamples()
    ensures Split("1 HS") == ["1", "HS"]
    ensures Split("1  HS") == ["1", "", "HS"]
  {
    assert "S"[1..] == "" && "HS"[1..] == "S" && " HS"[1..] == "HS" && "  HS"[1..] == " HS";
    assert "1 HS"[1..] == " HS" && "1  HS"[1..] == "  HS";
    assert Split("") == [""];
    assert "S"[0] == 'S' && "HS"[0] == 'H';
    assert ['S'] + "" == "S" && ['H'] + "S" == "HS";
    assert Split("S") == ["S"];
    assert Split("HS") == ["HS"];
    assert Split(" HS") == ["", "HS"];
    assert Split("  HS") == ["", "", "HS"];
    assert "1 HS"[0] == '1' && ['1'] + "" == "1";
    assert Split("1 HS") == [['1'] + Split(" HS")[0]] + Split(" HS")[1..];
  }

  // ---------------------------------------------------------------------------
  // Kotlin's String.toIntOrNull, for the decimal digits 0-9
  // ---------------------------------------------------------------------------

  const IntMin: int := -0x8000_0000
  const IntMax: int := 0x7fff_ffff

  predicate IsDigit(c: char)
  {
    '0' <= c <= '9'
  }

  predicate AllDigits(s: string)
  {
    forall i :: 0 <= i < |s| ==> IsDigit(s[i])
  }

  /** The value of a string of decimal digits, most significant first. */
  function DigitsValue(s: string): nat
    requires AllDigits(s)
  {
    if s == [] then 0 else DigitsValue(s[..|s| - 1]) * 10 + (s[|s| - 1] as int - '0' as int)
  }

  /** The 32-bit integer `s` spells: an optional sign followed by at least one
      digit, within the range of a 32-bit signed integer; None otherwise. */
  function ParseInt(s: string): (r: Option<int>)
    ensures r.Some? ==> IntMin <= r.value <= IntMax
    ensures r.Some? ==> |s| > 0 && (r.value < 0 ==> s[0] == '-')
    ensures r.Some? ==>
              var d := if s[0] == '-' || s[0] == '+' then s[1..] else s;
              |d| > 0 && AllDigits(d) &&
              r.value == (if s[0] == '-' then -(DigitsValue(d) as int) else DigitsValue(d) as int)
  {
    if |s| == 0 then None
    else
      var digits := if s[0] == '-' || s[0] == '+' then s[1..] else s;
      if |digits| == 0 || !AllDigits(digits) then None
      else
        var v: int := if s[0] == '-' then -(DigitsValue(digits) as int) else DigitsValue(digits);
        if IntMin <= v <= IntMax then Some(v) else None
  }

  /** True when the token reads as a 32-bit integer. */
  predicate IsInt(s: string)
  {
    ParseInt(s).Some?
  }

  /** The converse, without a sign: one or more digits are an integer exactly
      when their value fits in 32 bits, and then it is that value; leading
      zeros are accepted. */
  lemma ParseDigits(digits: string)
    requires |digits| > 0 && AllDigits(digits)
    ensures var n := DigitsValue(digits) as int;
            ParseInt(digits) == if n <= IntMax then Some(n) else None
  {
    assert IsDigit(digits[0]);
  }

  /** The converse, with a sign: '+' or '-' followed by one or more digits is
      an integer exactly when its value, negated after '-', fits in 32 bits. */
  lemma ParseSignedDigits(s: string)
    requires |s| > 1 && (s[0] == '-' || s[0] == '+') && AllDigits(s[1..])
    ensures var n := DigitsValue(s[1..]) as int;
            ParseInt(s) == if s[0] == '-' then (if IntMin <= -n then Some(-n) else None)
                           else (if n <= IntMax then Some(n) else None)
  {
  }

  /** A character that is neither a digit nor a leading sign followed by
      more text makes the token not an integer: "1a", "1.5", "HS", "-". */
  lemma ParseRejectsNonDigit(s: string, i: nat)
    requires i < |s| && !IsDigit(s[i])
    requires !(i == 0 && |s| > 1 && (s[0] == '-' || s[0] == '+'))
    ensures ParseInt(s).None?
  {
    if i > 0 && (s[0] == '-' || s[0] == '+') {
      assert s[1..][i - 1] == s[i];
    }
  }

  /** Kotlin's parser on a few tokens: signs, leading zeros and negative zero
      are accepted, and a fraction or a letter is not. */
  lemma ParseExamples()
    ensures ParseInt("+5") == Some(5)
    ensures ParseInt("007") == Some(7)
    ensures ParseInt("-0") == Some(0)
    ensures ParseInt("1a").None? && ParseInt("1.5").None? && ParseInt("").None?
  {
    assert DigitsValue("5") == 5 by { assert "5"[..0] == ""; }
    assert DigitsValue("0") == 0 by { assert "0"[..0] == ""; }
    assert DigitsValue("007") == 7 by {
      assert "007"[..2] == "00" && "00"[..1] == "0";
    }
    assert "+5"[1..] == "5" && "-0"[1..] == "0";
    ParseSignedDigits("+5");
    ParseSignedDigits("-0");
    ParseDigits("007");
    ParseRejectsNonDigit("1a", 1);
    ParseRejectsNonDigit("1.5", 1);
  }

  function DigitChar(d: nat): char
    requires d < 10
  {
    ('0' as int + d) as char
  }

  /** The decimal digits of n, without leading zeros. */
  function FormatNat(n: nat): (s: string)
    ensures |s| > 0 && AllDigits(s)
  {
    if n < 10 then [DigitChar(n)] else FormatNat(n / 10) + [DigitChar(n % 10)]
  }

  /** The usual decimal spelling of an integer, with '-' when negative. */
  function FormatInt(n: int): string
  {
    if n < 0 then "-" + FormatNat(-n) else FormatNat(n)
  }

  lemma {:induction false} FormatNatValue(n: nat)
    ensures DigitsValue(FormatNat(n)) == n
  {
    if n >= 10 {
      FormatNatValue(n / 10);
      var s := FormatNat(n);
      assert s[..|s| - 1] == FormatNat(n / 10);
    }
  }

  /** An integer, written out, reads back as itself exactly when it fits in
      32 bits; beyond that range the token is not an integer. */
  lemma ParseFormat(n: int)
    ensures IntMin <= n <= IntMax ==> ParseInt(FormatInt(n)) == Some(n)
    ensures (n < IntMin || n > IntMax) ==> !IsInt(FormatInt(n))
  {
    var m: nat := if n < 0 then -n else n;
    var digits := FormatNat(m);
    FormatNatValue(m);
    var s := FormatInt(n);
    if n < 0 {
      assert s[0] == '-' && s[1..] == digits;
    } else {
      assert s == digits && IsDigit(s[0]);
    }
    assert ParseInt(s) == if IntMin <= n <= IntMax then Some(n) else None;
  }

  // ---------------------------------------------------------------------------
  // The validator
  // ---------------------------------------------------------------------------

  /** An error-severity message for the field. */
  datatype ValidationMessage = ErrorMessage(message: string)

  /** None for valid input, an error with an empty message otherwise. With two
      or three tokens only the first token is checked, and it must be an
      integer; any other token count is valid when the registration search for
      the raw text finds something. A null field is the single token "" and is
      searched as "". `search` is the registration search over the event's
      registrations. */
  function Validate(numbers: Option<string>, search: string -> seq<Registration>)
    : (r: Option<ValidationMessage>)
    ensures r.None? || r == Some(ErrorMessage(""))
  {
    var tokens := if numbers.Some? then Split(numbers.value) else [""];
    if |tokens| == 2 || |tokens| == 3 then
      if IsInt(tokens[0]) then None else Some(ErrorMessage(""))
    else
      if |search(if numbers.Some? then numbers.value else "")| > 0 then None else Some(ErrorMessage(""))
  }

  /** The validator in terms of the raw text: one or two spaces means the text
      before the first space must be an integer; otherwise the search decides. */
  lemma ValidateByText(numbers: string, search: string -> seq<Registration>)
    ensures Validate(Some(numbers), search).None? <==>
              if SpaceCount(numbers) == 1 || SpaceCount(numbers) == 2
              then IsInt(BeforeFirstSpace(numbers))
              else |search(numbers)| > 0
  {
    SplitCount(numbers);
    SplitFirst(numbers);
  }

  /** With one or two spaces the tokens after the first are ignored: two such
      inputs with the same first token get the same verdict. */
  lemma OnlyFirstTokenMatters(a: string, b: string, search: string -> seq<Registration>)
    requires SpaceCount(a) == 1 || SpaceCount(a) == 2
    requires SpaceCount(b) == 1 || SpaceCount(b) == 2
    requires BeforeFirstSpace(a) == BeforeFirstSpace(b)
    ensures Validate(Some(a), search) == Validate(Some(b), search)
  {
    ValidateByText(a, search);
    ValidateByText(b, search);
  }

  /** A null field falls into the search branch, searching for "". */
  lemma NullIsSearched(search: string -> seq<Registration>)
    ensures Validate(None, search).None? <==> |search("")| > 0
  {
  }

  /** "1 HS" is valid whatever the search says; "1  HS" (three tokens) too;
      "HS 1" is not. */
  lemma ValidateExamples(search: string -> seq<Registration>)
    ensures Validate(Some("1 HS"), search).None?
    ensures Validate(Some("1  HS"), search).None?
    ensures Validate(Some("HS 1"), search) == Some(ErrorMessage(""))
  {
    SplitExamples();
    assert ParseInt("1") == Some(1) by {
      assert DigitsValue("1") == 1 by { assert "1"[..0] == ""; }
    }
    assert Split("HS 1")[0] == "HS" by {
      SplitFirst("HS 1");
      assert BeforeFirstSpace("HS 1") == "HS";
    }
    SplitCount("HS 1");
    assert SpaceCount("HS 1") == 1;
  }
}
