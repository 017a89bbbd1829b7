/** The string operations the gateway relies on: trimming, decimal numbers, default labels. */
module Text {
  import opened Wrappers

  /** Unicode white space, as strings.TrimSpace knows it. */
  predicate IsSpace(c: char) {
    var n := c as int;
    || 0x09 <= n <= 0x0D || n == 0x20 || n == 0x85 || n == 0xA0 || n == 0x1680
    || 0x2000 <= n <= 0x200A || n == 0x2028 || n == 0x2029 || n == 0x202F || n == 0x205F || n == 0x3000
  }

  function TrimLeftSpace(s: string): string {
    if s != "" && IsSpace(s[0]) then TrimLeftSpace(s[1..]) else s
  }

  function TrimRightSpace(s: string): string {
    if s != "" && IsSpace(s[|s| - 1]) then TrimRightSpace(s[..|s| - 1]) else s
  }

  function TrimSpace(s: string): string {
    TrimRightSpace(TrimLeftSpace(s))
  }

  /** The white space characters, by number. */
  lemma SpacesAre(c: char)
    ensures IsSpace(c) <==> c as int in {
      0x09, 0x0A, 0x0B, 0x0C, 0x0D, 0x20, 0x85, 0xA0, 0x1680,
      0x2000, 0x2001, 0x2002, 0x2003, 0x2004, 0x2005, 0x2006, 0x2007, 0x2008, 0x2009, 0x200A,
      0x2028, 0x2029, 0x202F, 0x205F, 0x3000}
  {
  }

  predicate Blank(s: string) {
    forall i :: 0 <= i < |s| ==> IsSpace(s[i])
  }

  lemma {:induction false} TrimLeftLaw(s: string) returns (cut: string)
    ensures s == cut + TrimLeftSpace(s) && Blank(cut)
    ensures TrimLeftSpace(s) != "" ==> !IsSpace(TrimLeftSpace(s)[0])
  {
    cut := "";
    if s != "" && IsSpace(s[0]) {
      var more := TrimLeftLaw(s[1..]);
      hide IsSpace;
      cut := [s[0]] + more;
      assert s == [s[0]] + s[1..];
    }
  }

  lemma {:induction false} TrimRightLaw(s: string) returns (cut: string)
    ensures s == TrimRightSpace(s) + cut && Blank(cut)
    ensures TrimRightSpace(s) != "" ==> !IsSpace(TrimRightSpace(s)[|TrimRightSpace(s)| - 1])
  {
    cut := "";
    var n := |s| - 1;
    if s != "" && IsSpace(s[n]) {
      var more := TrimRightLaw(s[..n]);
      hide IsSpace;
      cut := more + [s[n]];
      assert s == s[..n] + [s[n]];
    }
  }

  lemma {:induction false} TrimmedParts(s: string) returns (a: string, b: string)
    ensures s == a + TrimSpace(s) + b && Blank(a) && Blank(b)
    ensures var r := TrimSpace(s); r != "" ==> !IsSpace(r[0]) && !IsSpace(r[|r| - 1])
  {
    a := TrimLeftLaw(s);
    b := TrimRightLaw(TrimLeftSpace(s));
    hide TrimLeftSpace, TrimRightSpace, IsSpace;
    var t, r := TrimLeftSpace(s), TrimSpace(s);
    assert r == TrimRightSpace(t) && t == r + b;
    assert a + (r + b) == a + r + b;
    assert r != "" ==> t[0] == r[0];
  }

  /** Trimming cuts off white space at both ends and nothing else, and stops at the first other character; what
      is left of a blank text, and only of that, is nothing. */
  lemma {:induction false} TrimSpaceLaw(s: string)
    ensures var r := TrimSpace(s);
      && (exists a, b :: s == a + r + b && Blank(a) && Blank(b))
      && (r != "" ==> !IsSpace(r[0]) && !IsSpace(r[|r| - 1]))
      && (r == "" <==> Blank(s))
  {
    var a, b := TrimmedParts(s);
    hide TrimSpace, IsSpace;
    var r := TrimSpace(s);
    if r != "" {
      assert s[|a|] == r[0];
    } else {
      assert s == a + b;
    }
  }

  /** strings.TrimRight(s, "/"): what is left is s without its trailing slashes. */
  function TrimRightSlash(s: string): (r: string)
    ensures r <= s
    ensures forall i :: |r| <= i < |s| ==> s[i] == '/'
    ensures r == "" || r[|r| - 1] != '/'
  {
    if s != "" && s[|s| - 1] == '/' then TrimRightSlash(s[..|s| - 1]) else s
  }

  function Digit(d: nat): char
    requires d < 10
  {
    '0' + d as char
  }

  predicate IsDigit(c: char) {
    '0' <= c <= '9'
  }

  function Decimal(n: nat): (s: string)
    ensures s != "" && forall c :: c in s ==> IsDigit(c)
  {
    if n < 10 then [Digit(n)] else Decimal(n / 10) + [Digit(n % 10)]
  }

  /** strconv.Itoa. */
  function Itoa(n: int): string {
    if n < 0 then "-" + Decimal(-n) else Decimal(n)
  }

  function ParseDigits(s: string): Option<nat> {
    if s == "" then None
    else if !IsDigit(s[|s| - 1]) then None
    else
      var last := s[|s| - 1] as int - '0' as int;
      if |s| == 1 then Some(last)
      else match ParseDigits(s[..|s| - 1])
           case None => None
           case Some(high) => Some(10 * high + last)
  }

  /** strconv.Atoi, without its range limit: an optional sign, then digits. */
  function Atoi(s: string): Option<int> {
    if s != "" && (s[0] == '-' || s[0] == '+') then
      match ParseDigits(s[1..])
      case None => None
      case Some(n) => Some(if s[0] == '-' then -(n as int) else n as int)
    else
      match ParseDigits(s)
      case None => None
      case Some(n) => Some(n)
  }

  lemma {:induction false} ParseDecimal(n: nat)
    ensures ParseDigits(Decimal(n)) == Some(n)
  {
    if n >= 10 {
      ParseDecimal(n / 10);
      var s := Decimal(n);
      assert s[..|s| - 1] == Decimal(n / 10);
    }
  }

  lemma {:induction false} NoDigitIsASign(n: nat)
    ensures Decimal(n)[0] != '-' && Decimal(n)[0] != '+'
  {
    assert Decimal(n)[0] in Decimal(n);
  }

  /** Printing an integer and reading it back gives the integer. */
  lemma {:induction false} AtoiInvertsItoa(n: int)
    ensures Atoi(Itoa(n)) == Some(n)
  {
    var digits := Decimal(if n < 0 then -n else n);
    ParseDecimal(if n < 0 then -n else n);
    NoDigitIsASign(if n < 0 then -n else n);
    assert ("-" + digits)[1..] == digits;
  }

  /** An optional sign, and then nothing but digits, at least one. */
  predicate IsNumeral(s: string) {
    if s != "" && (s[0] == '-' || s[0] == '+') then AreDigits(s[1..]) else AreDigits(s)
  }

  predicate AreDigits(s: string) {
    s != "" && forall i :: 0 <= i < |s| ==> '0' <= s[i] <= '9'
  }

  lemma {:induction false} ParsesDigitsIff(s: string)
    ensures ParseDigits(s).Some? <==> AreDigits(s)
  {
    if |s| > 1 {
      ParsesDigitsIff(s[..|s| - 1]);
    }
  }

  /** Just the numerals are read as numbers. */
  lemma {:induction false} AtoiAcceptsIff(s: string)
    ensures Atoi(s).Some? <==> IsNumeral(s)
  {
    if s != "" {
      ParsesDigitsIff(s[1..]);
    }
    ParsesDigitsIff(s);
  }

  /** The digits are written from the highest to the lowest, in base ten. */
  lemma {:induction false} DecimalByHand()
    ensures Decimal(1) == "1" && Decimal(120) == "120"
  {
    assert Decimal(12) == "12";
  }

  lemma {:induction false} SignsByHand()
    ensures Itoa(-120) == "-120" && Atoi("-120") == Some(-120) && Atoi("+120") == Some(120) && Atoi("120") == Some(120)
  {
    DecimalByHand();
    ParseDecimal(120);
    assert "-" + "120" == "-120" && "-120"[1..] == "120" && "+120"[1..] == "120";
  }

  /** The label given to the key at position m, counted from 1, when it has none. */
  function KeyLabel(m: nat): string {
    "key-" + Decimal(m)
  }

  lemma {:induction false} FirstKeyLabel()
    ensures KeyLabel(1) == "key-1"
  {
    DecimalByHand();
    hide Decimal;
    assert "key-" + "1" == "key-1";
  }

  lemma KeyLabelInjective(m: nat, n: nat)
    requires KeyLabel(m) == KeyLabel(n)
    ensures m == n
  {
    assert KeyLabel(m)[4..] == Decimal(m) && KeyLabel(n)[4..] == Decimal(n);
    ParseDecimal(m);
    ParseDecimal(n);
  }
}
