/** Turning the text typed into an order-count field into an integer, as
    `parseInt(count) || 0` does on the page: leading white space is skipped,
    an optional sign is read, then the longest run of decimal digits; text
    with no digits there gives 0. Negative values keep their sign. */
module OrderText {
  import opened Wrappers

  predicate IsSpace(c: char) {
    c == ' ' || c == '\t' || c == '\n' || c == '\r' || c == '\U{000B}' || c == '\U{000C}'
  }

  predicate IsDigit(c: char) {
    '0' <= c <= '9'
  }

  predicate AllDigits(d: string) {
    forall j :: 0 <= j < |d| ==> IsDigit(d[j])
  }

  /** `s` without its leading white space. */
  function TrimStart(s: string): (r: string)
    ensures |r| <= |s| && r == s[|s| - |r|..]
    ensures forall j :: 0 <= j < |s| - |r| ==> IsSpace(s[j])
    ensures r == [] || !IsSpace(r[0])
  {
    if s != [] && IsSpace(s[0]) then TrimStart(s[1..]) else s
  }

  /** Length of the longest prefix of `s` made of decimal digits. */
  function DigitRun(s: string): (r: nat)
    ensures r <= |s|
    ensures AllDigits(s[..r])
    ensures r == |s| || !IsDigit(s[r])
  {
    if s == [] || !IsDigit(s[0]) then 0 else 1 + DigitRun(s[1..])
  }

  /** The value of a digit string, most significant digit first. */
  function DigitsValue(d: string): nat
    requires AllDigits(d)
  {
    if d == [] then 0
    else DigitsValue(d[..|d| - 1]) * 10 + (d[|d| - 1] as int - '0' as int)
  }

  /** The text after an optional leading sign. */
  function Unsigned(t: string): string {
    if t != [] && (t[0] == '-' || t[0] == '+') then t[1..] else t
  }

  /** Decimal `parseInt`: `None` stands for the NaN it returns when no digit
      follows the white space and sign. */
  function ParseInt(s: string): Option<int> {
    var t := TrimStart(s);
    var body := Unsigned(t);
    var k := DigitRun(body);
    if k == 0 then None
    else
      var v: int := DigitsValue(body[..k]);
      Some(if t != [] && t[0] == '-' then -v else v)
  }

  /** `parseInt(count) || 0`: NaN, and 0 itself, become 0. */
  function OrderValue(s: string): int {
    match ParseInt(s)
    case None => 0
    case Some(v) => v
  }

  /** Decimal digits of a natural number, without leading zeros. */
  function Decimal(n: nat): (r: string)
    ensures r != [] && AllDigits(r)
  {
    if n < 10 then [('0' as int + n) as char]
    else Decimal(n / 10) + [('0' as int + n % 10) as char]
  }

  /** Decimal text of an integer, with a minus sign when it is negative. */
  function Signed(n: int): string {
    if n < 0 then "-" + Decimal(-n) else Decimal(n)
  }

  lemma {:induction false} DecimalValue(n: nat)
    ensures DigitsValue(Decimal(n)) == n
  {
    var d := Decimal(n);
    if n >= 10 {
      assert d[..|d| - 1] == Decimal(n / 10);
      DecimalValue(n / 10);
    }
  }

  lemma {:induction false} DigitRunStops(d: string, tail: string)
    requires AllDigits(d)
    requires tail == [] || !IsDigit(tail[0])
    ensures DigitRun(d + tail) == |d|
  {
    if d != [] {
      assert (d + tail)[1..] == d[1..] + tail;
      DigitRunStops(d[1..], tail);
    }
  }

  /** Parsing text that starts (after its sign) with the digits `d`. */
  lemma ParseDigitsThenTail(t: string, d: string, tail: string, negative: bool)
    requires TrimStart(t) == t && Unsigned(t) == d + tail
    requires d != [] && AllDigits(d)
    requires tail == [] || !IsDigit(tail[0])
    requires negative <==> t[0] == '-'
    ensures ParseInt(t) == Some(if negative then 0 - DigitsValue(d) as int else DigitsValue(d) as int)
  {
    DigitRunStops(d, tail);
    assert (d + tail)[..|d|] == d;
  }

  /** Digits followed by `tail`: no white space or sign to strip. */
  lemma DigitsShape(d: string, tail: string)
    requires d != [] && AllDigits(d)
    ensures var t := d + tail; t[0] != '-' && TrimStart(t) == t && Unsigned(t) == t
  {
    assert (d + tail)[0] == d[0];
  }

  /** A minus sign, then digits followed by `tail`: no white space to strip,
      and the sign comes off. */
  lemma MinusShape(d: string, tail: string)
    ensures var t := "-" + (d + tail); t[0] == '-' && TrimStart(t) == t && Unsigned(t) == d + tail
  {
    assert ("-" + (d + tail))[1..] == d + tail;
  }

  /** The decimal text of `n` followed by `tail`: a minus sign exactly when
      `n` is negative, no leading white space, then the digits of `|n|`. */
  lemma SignedShape(n: int, tail: string)
    ensures var t := Signed(n) + tail;
            && t != []
            && (t[0] == '-' <==> n < 0)
            && TrimStart(t) == t
            && Unsigned(t) == Decimal(if n < 0 then -n else n) + tail
  {
    if n < 0 {
      var d := Decimal(-n);
      assert Signed(n) + tail == "-" + (d + tail);
      MinusShape(d, tail);
    } else {
      var d := Decimal(n);
      assert Signed(n) + tail == d + tail;
      DigitsShape(d, tail);
    }
  }

  /** Reading back the decimal text of any integer, followed by anything that
      does not start with a digit, gives that integer: the sign is kept and
      the trailing text is ignored. */
  lemma ParseSigned(n: int, tail: string)
    requires tail == [] || !IsDigit(tail[0])
    ensures ParseInt(Signed(n) + tail) == Some(n)
    ensures OrderValue(Signed(n) + tail) == n
  {
    var m: nat := if n < 0 then -n else n;
    SignedShape(n, tail);
    ParseDigitsThenTail(Signed(n) + tail, Decimal(m), tail, n < 0);
    DecimalValue(m);
  }

  /** Text with no digit after its white space and sign is worth 0 orders. */
  lemma NoDigitsIsZero(s: string)
    requires var b := Unsigned(TrimStart(s)); b == [] || !IsDigit(b[0])
    ensures ParseInt(s) == None
    ensures OrderValue(s) == 0
  {
  }

  /** A leading white-space character does not change the value. */
  lemma {:induction false} SpacesIgnored(c: char, s: string)
    requires IsSpace(c)
    ensures OrderValue([c] + s) == OrderValue(s)
  {
    assert ([c] + s)[1..] == s;
  }

  /** A minus sign is kept: "-5" is -5 orders. */
  lemma NegativeKept()
    ensures OrderValue("-5") == -5
  {
    assert Signed(-5) + [] == "-5";
    ParseSigned(-5, []);
  }

  /** Digits followed by other text: "  12 orders" is 12 orders. */
  lemma TrailingTextIgnored()
    ensures OrderValue("  12 orders") == 12
  {
    var rest := Signed(12) + " orders";
    assert "  12 orders" == [' '] + ([' '] + rest);
    SpacesIgnored(' ', [' '] + rest);
    SpacesIgnored(' ', rest);
    ParseSigned(12, " orders");
  }

  /** Empty text is 0 orders. */
  lemma EmptyIsZero()
    ensures OrderValue("") == 0
  {
    NoDigitsIsZero("");
  }

  /** Non-numeric text is 0 orders. */
  lemma LettersAreZero()
    ensures OrderValue("abc") == 0
  {
    assert TrimStart("abc") == "abc" by { assert "abc"[0] == 'a'; }
    NoDigitsIsZero("abc");
  }

  /** A sign with no digits after it is 0 orders. */
  lemma LoneSignIsZero()
    ensures OrderValue("-") == 0
  {
    assert TrimStart("-") == "-" by { assert "-"[0] == '-'; }
    NoDigitsIsZero("-");
  }
}
