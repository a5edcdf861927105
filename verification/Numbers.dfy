/** Decimal numbers as the C library and .NET print and parse them. */
module Numbers {
  import opened Schema

  predicate IsInt32(n: int) {
    -0x8000_0000 <= n < 0x8000_0000
  }

  /** What a conversion to a 32-bit int keeps, as sqlite3_value_int and casts do: the low bits. */
  function Int32(i: int): (r: int)
    ensures IsInt32(r)
  {
    (i + 0x8000_0000) % 0x1_0000_0000 - 0x8000_0000
  }

  function Digits(n: nat): (r: string)
    ensures r != [] && forall i | 0 <= i < |r| :: '0' <= r[i] <= '9'
  {
    if n < 10 then [('0' as int + n) as char] else Digits(n / 10) + [('0' as int + n % 10) as char]
  }

  /** The printing of %d. */
  function Decimal(n: int): string {
    if n < 0 then "-" + Digits(-n) else Digits(n)
  }

  predicate IsDigit(c: char) {
    '0' <= c <= '9'
  }

  predicate IsWhite(c: char) {
    c == ' ' || 9 as char <= c <= 13 as char
  }

  function DropWhite(s: string): string {
    if s != [] && IsWhite(s[0]) then DropWhite(s[1..]) else s
  }

  function DropNul(s: string): string {
    if s != [] && s[0] == 0 as char then DropNul(s[1..]) else s
  }

  function DigitRun(s: string): (n: nat)
    ensures n <= |s| && forall i | 0 <= i < n :: IsDigit(s[i])
    ensures n < |s| ==> !IsDigit(s[n])
  {
    if s != [] && IsDigit(s[0]) then 1 + DigitRun(s[1..]) else 0
  }

  function Value(s: string): nat
    requires forall i | 0 <= i < |s| :: IsDigit(s[i])
  {
    if s == [] then 0
    else assert IsDigit(s[|s| - 1]); 10 * Value(s[..|s| - 1]) + (s[|s| - 1] as int - '0' as int)
  }

  /** int.TryParse: white space, a sign, digits, white space, trailing nulls, 32 bits. */
  function TryParse(s: string): Option<int> {
    var t := DropWhite(s);
    if t != [] && (t[0] == '-' || t[0] == '+') then ParseDigits(t[1..], t[0] == '-') else ParseDigits(t, false)
  }

  function ParseDigits(u: string, negative: bool): Option<int> {
    var d := DigitRun(u);
    if d == 0 || DropNul(DropWhite(u[d..])) != [] then None
    else
      var v := Signed(Value(u[..d]), negative);
      if IsInt32(v) then Some(v) else None
  }

  function Signed(m: int, negative: bool): int {
    if negative then -m else m
  }

  lemma {:induction false} ValueOfDigits(n: nat)
    ensures Value(Digits(n)) == n
  {
    if n >= 10 {
      ValueOfDigits(n / 10);
      assert Digits(n)[..|Digits(n)| - 1] == Digits(n / 10);
    }
  }

  lemma {:induction false} DigitRunOfDigits(s: string)
    requires forall i | 0 <= i < |s| :: IsDigit(s[i])
    ensures DigitRun(s) == |s|
  {
  }

  lemma ParsePrinted(m: nat, negative: bool)
    ensures var v := Signed(m, negative);
            ParseDigits(Digits(m), negative) == if IsInt32(v) then Some(v) else None
  {
    var u := Digits(m);
    DigitRunOfDigits(u);
    ValueOfDigits(m);
    assert u[..|u|] == u && u[|u|..] == [];
  }

  /** Printing and parsing a number are inverse exactly on 32-bit numbers. */
  lemma TryParseDecimal(n: int)
    ensures TryParse(Decimal(n)) == if -0x8000_0000 <= n <= 0x7FFF_FFFF then Some(n) else None
  {
    if n < 0 {
      var s := "-" + Digits(-n);
      assert s[0] == '-' && s[1..] == Digits(-n);
      assert DropWhite(s) == s;
      ParsePrinted(-n, true);
    } else {
      var u := Digits(n);
      assert IsDigit(u[0]);
      assert DropWhite(u) == u;
      ParsePrinted(n, false);
    }
  }

  lemma PrintedExamples()
    ensures Digits(0) == "0" && Digits(768) == "768" && Decimal(-12) == "-12"
  {
    assert Digits(76) == Digits(7) + "6" && Digits(768) == Digits(76) + "8";
  }

  lemma {:induction false} DigitsLength(n: nat, k: nat, bound: nat)
    requires bound == Power(k) && n < bound && k >= 1
    ensures |Digits(n)| <= k
    decreases k
  {
    if n >= 10 {
      assert k >= 2;
      DigitsLength(n / 10, k - 1, Power(k - 1));
    }
  }

  function Power(k: nat): nat {
    if k == 0 then 1 else 10 * Power(k - 1)
  }

  // ----- atoi -----

  /** strtol saturates at 64 bits. */
  function Saturate(n: int): int {
    if n < -0x8000_0000_0000_0000 then -0x8000_0000_0000_0000
    else if n > 0x7FFF_FFFF_FFFF_FFFF then 0x7FFF_FFFF_FFFF_FFFF
    else n
  }

  /** atoi, which is (int) strtol on the platforms the library is built for. */
  function Atoi(s: string): int {
    var t := DropWhite(s);
    if t != [] && (t[0] == '-' || t[0] == '+') then ReadDigits(t[1..], t[0] == '-') else ReadDigits(t, false)
  }

  function ReadDigits(u: string, negative: bool): int {
    Int32(Saturate(Signed(Value(u[..DigitRun(u)]), negative)))
  }

  lemma SmallUnchanged(n: int)
    requires IsInt32(n)
    ensures Int32(Saturate(n)) == n
  {
  }

  lemma {:induction false} DigitRunStops(s: string, rest: string)
    requires forall i | 0 <= i < |s| :: IsDigit(s[i])
    requires rest == [] || !IsDigit(rest[0])
    ensures DigitRun(s + rest) == |s|
    decreases |s|
  {
    if s == [] {
      assert s + rest == rest;
    } else {
      DigitRunStops(s[1..], rest);
      assert (s + rest)[1..] == s[1..] + rest;
    }
  }

  lemma ReadPrinted(n: nat, rest: string)
    requires IsInt32(n) && (rest == [] || !IsDigit(rest[0]))
    ensures ReadDigits(Digits(n) + rest, false) == n
  {
    var u := Digits(n) + rest;
    DigitRunStops(Digits(n), rest);
    assert u[..|Digits(n)|] == Digits(n);
    ValueOfDigits(n);
    SmallUnchanged(n);
  }

  /** A printed number is read back whatever follows its digits. */
  lemma AtoiPrinted(n: nat, rest: string)
    requires IsInt32(n) && (rest == [] || !IsDigit(rest[0]))
    ensures Atoi(Digits(n) + rest) == n
  {
    var s := Digits(n) + rest;
    assert s[0] == Digits(n)[0] && IsDigit(s[0]);
    assert DropWhite(s) == s;
    ReadPrinted(n, rest);
  }

  /** What the C standard promises of atoi: printed numbers that fit come back, whatever
      follows their digits, and blanks alone give 0. */
  ghost predicate IsAtoi(atoi: string -> int) {
    && (forall n: nat, rest: string {:trigger Digits(n) + rest} ::
          IsInt32(n) && (rest == [] || !IsDigit(rest[0])) ==> atoi(Digits(n) + rest) == n)
    && (forall s: string :: DropWhite(s) == [] ==> atoi(s) == 0)
  }

  lemma AtoiIsAtoi()
    ensures IsAtoi(Atoi)
  {
    forall n: nat, rest: string | IsInt32(n) && (rest == [] || !IsDigit(rest[0]))
      ensures Atoi(Digits(n) + rest) == n
    {
      AtoiPrinted(n, rest);
    }
    SmallUnchanged(0);
  }
}
