/**
 * The parts of Ruby and ActiveSupport that the lock object relies on to
 * normalise a holder: `present?` / `blank?` and `to_s`.
 */
module RubyValues {
  import opened Wrappers

  /** The kinds of object a caller may pass as a holder. */
  datatype RubyValue = Nil | Bool(b: bool) | Integer(i: int) | Str(s: string)

  /** Characters of the Unicode White_Space property, which `[[:space:]]` matches. */
  predicate IsSpace(c: char) {
    ('\t' <= c <= '\r') || c == ' ' || c == '\U{0085}' || c == '\U{00A0}' || c == '\U{1680}'
    || ('\U{2000}' <= c <= '\U{200A}') || c == '\U{2028}' || c == '\U{2029}' || c == '\U{202F}'
    || c == '\U{205F}' || c == '\U{3000}'
  }

  /** String#blank?: empty or whitespace only. */
  predicate Blank(s: string) {
    forall i :: 0 <= i < |s| ==> IsSpace(s[i])
  }

  /** Object#present? for a String that may be nil. */
  predicate PresentString(o: Option<string>) {
    o.Some? && !Blank(o.value)
  }

  /** Object#present?: nil and false are blank, so is a blank String; every Integer is present. */
  predicate Present(v: RubyValue) {
    match v
    case Nil => false
    case Bool(b) => b
    case Integer(_) => true
    case Str(s) => !Blank(s)
  }

  function DigitChar(d: nat): char
    requires d < 10
  {
    ['0', '1', '2', '3', '4', '5', '6', '7', '8', '9'][d]
  }

  function DigitValue(c: char): nat {
    if '0' <= c <= '9' then (c - '0') as nat else 0
  }

  /** Decimal digits of a natural number, most significant first, without leading zeros. */
  function Digits(n: nat): (r: string)
    ensures |r| > 0 && '0' <= r[0] <= '9'
    ensures forall i :: 0 <= i < |r| ==> '0' <= r[i] <= '9'
    ensures n > 0 ==> r[0] != '0'
  {
    if n < 10 then [DigitChar(n)] else Digits(n / 10) + [DigitChar(n % 10)]
  }

  /** Integer#to_s: decimal, with a leading '-' for negative numbers. */
  function IntegerToS(n: int): string {
    if n < 0 then "-" + Digits(-n) else Digits(n)
  }

  /** Object#to_s for the holder kinds above. */
  function ToS(v: RubyValue): string {
    match v
    case Nil => ""
    case Bool(b) => if b then "true" else "false"
    case Integer(i) => IntegerToS(i)
    case Str(s) => s
  }

  /** Reads back a string of decimal digits. */
  function ParseDigits(s: string): nat {
    if s == [] then 0 else ParseDigits(s[..|s| - 1]) * 10 + DigitValue(s[|s| - 1])
  }

  /** String#to_i for the strings IntegerToS produces. */
  function ParseInteger(s: string): int {
    if |s| > 0 && s[0] == '-' then -(ParseDigits(s[1..]) as int) else ParseDigits(s)
  }

  lemma {:induction false} DigitsRoundTrip(n: nat)
    ensures ParseDigits(Digits(n)) == n
  {
    if n >= 10 {
      var s := Digits(n);
      assert s[..|s| - 1] == Digits(n / 10);
      DigitsRoundTrip(n / 10);
    }
  }

  /** Integer#to_s is inverted by String#to_i. */
  lemma {:induction false} IntegerToSRoundTrip(n: int)
    ensures ParseInteger(IntegerToS(n)) == n
  {
    if n < 0 {
      var d := Digits(-n);
      DigitsRoundTrip(-n);
      assert IntegerToS(n) == "-" + d;
      assert ("-" + d)[1..] == d;
    } else {
      var d := Digits(n);
      DigitsRoundTrip(n);
      assert IntegerToS(n) == d && d[0] != '-';
    }
  }

  /**
   * The holder stored by LockObject#initialize: `value.present? ? value.to_s : nil`.
   * The result is absent exactly for blank values, and a stored holder is never blank.
   */
  function Normalise(v: RubyValue): (r: Option<string>)
    ensures r.None? <==> !Present(v)
    ensures r.Some? ==> !Blank(r.value)
    ensures v.Str? && r.Some? ==> r.value == v.s
    ensures v.Integer? ==> r.Some? && ParseInteger(r.value) == v.i
  {
    if Present(v) then
      assert v.Integer? ==> !IsSpace(ToS(v)[0]) by {
        if v.Integer? && v.i >= 0 { assert ToS(v)[0] == Digits(v.i)[0]; }
      }
      assert v.Bool? ==> ToS(v)[0] == 't';
      assert v.Integer? ==> ParseInteger(ToS(v)) == v.i by {
        if v.Integer? { IntegerToSRoundTrip(v.i); }
      }
      Some(ToS(v))
    else None
  }

  /** Normalising a stored holder again gives the same holder. */
  lemma NormaliseIdempotent(v: RubyValue)
    requires Normalise(v).Some?
    ensures Normalise(Str(Normalise(v).value)) == Normalise(v)
  {
  }

  /** An Integer holder is kept as its decimal string: 123 becomes "123". */
  lemma IntegerHolderExample()
    ensures Normalise(Integer(123)) == Some("123")
  {
    assert Digits(1) == "1";
    assert Digits(12) == Digits(1) + ['2'] == "12";
    assert Digits(123) == Digits(12) + ['3'] == "123";
    assert ToS(Integer(123)) == "123";
  }
}
