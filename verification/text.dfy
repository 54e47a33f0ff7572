/** The text handling the protocol depends on: trimming and lower-casing of e-mail
    addresses (ASCII only), and the zero-padded decimal rendering of one-time codes. */
module Text {

  // ---------- ASCII trimming and lower-casing ----------

  predicate IsSpace(c: char) {
    9 <= c as int <= 13 || c == ' '
  }

  function TrimLeft(s: string): string {
    if s != [] && IsSpace(s[0]) then TrimLeft(s[1..]) else s
  }

  function TrimRight(s: string): string {
    if s != [] && IsSpace(s[|s| - 1]) then TrimRight(s[..|s| - 1]) else s
  }

  function TrimSpace(s: string): string {
    TrimRight(TrimLeft(s))
  }

  function LowerChar(c: char): char {
    if 'A' <= c <= 'Z' then (c as int + 32) as char else c
  }

  function ToLower(s: string): string {
    seq(|s|, i requires 0 <= i < |s| => LowerChar(s[i]))
  }

  /** The identifier under which the service files everything about an address. */
  function Normalise(email: string): string {
    ToLower(TrimSpace(email))
  }

  /** No white space at either end: exactly the strings trimming leaves alone. */
  predicate Tight(s: string) {
    s == [] || (!IsSpace(s[0]) && !IsSpace(s[|s| - 1]))
  }

  lemma {:induction false} TrimRightKeepsHead(s: string)
    requires s != [] && !IsSpace(s[0])
    ensures TrimRight(s) != [] && TrimRight(s)[0] == s[0] && Tight(TrimRight(s))
    decreases |s|
  {
    if IsSpace(s[|s| - 1]) {
      TrimRightKeepsHead(s[..|s| - 1]);
    }
  }

  lemma {:induction false} TrimLeftStops(s: string)
    ensures TrimLeft(s) == [] || !IsSpace(TrimLeft(s)[0])
    decreases |s|
  {
    if s != [] && IsSpace(s[0]) {
      TrimLeftStops(s[1..]);
    }
  }

  /** Trimming yields a tight string, and a string is its own trimming exactly when it is tight. */
  lemma TrimSpaceIsTight(s: string)
    ensures Tight(TrimSpace(s))
    ensures TrimSpace(s) == s <==> Tight(s)
  {
    TrimLeftStops(s);
    if TrimLeft(s) != [] {
      TrimRightKeepsHead(TrimLeft(s));
    }
  }

  /** The ASCII white space: blank, tab, line feed, vertical tab, form feed, carriage return. */
  predicate Blank(s: string) {
    forall i :: 0 <= i < |s| ==> s[i] in {' ', '\t', '\n', '\r'} || s[i] as int == 11 || s[i] as int == 12
  }

  /** `t` stands between white space in `s` and has none at its own ends. */
  predicate CoreOf(s: string, a: string, t: string, b: string) {
    s == a + t + b && Blank(a) && Blank(b) && (t != [] ==> !Blank(t[..1]) && !Blank(t[|t| - 1..]))
  }

  lemma {:induction false} TrimLeftCuts(s: string) returns (a: string)
    ensures s == a + TrimLeft(s) && Blank(a)
    decreases |s|
  {
    a := [];
    if s != [] && IsSpace(s[0]) {
      var rest := TrimLeftCuts(s[1..]);
      a := [s[0]] + rest;
    }
  }

  lemma {:induction false} TrimRightCuts(s: string) returns (b: string)
    ensures s == TrimRight(s) + b && Blank(b)
    decreases |s|
  {
    b := [];
    if s != [] && IsSpace(s[|s| - 1]) {
      var rest := TrimRightCuts(s[..|s| - 1]);
      b := rest + [s[|s| - 1]];
    }
  }

  lemma {:induction false} TrimLeftSkips(a: string, s: string)
    requires Blank(a)
    ensures TrimLeft(a + s) == TrimLeft(s)
    decreases |a|
  {
    if a == [] {
      assert a + s == s;
    } else {
      assert (a + s)[1..] == a[1..] + s;
      TrimLeftSkips(a[1..], s);
    }
  }

  lemma {:induction false} TrimRightSkips(s: string, b: string)
    requires Blank(b)
    ensures TrimRight(s + b) == TrimRight(s)
    decreases |b|
  {
    if b == [] {
      assert s + b == s;
    } else {
      assert (s + b)[..|s + b| - 1] == s + b[..|b| - 1];
      TrimRightSkips(s, b[..|b| - 1]);
    }
  }

  /** Trimming gives exactly the part between the white space at the two ends. */
  lemma TrimSpaceExactly(s: string, t: string)
    ensures TrimSpace(s) == t <==> exists a, b :: CoreOf(s, a, t, b)
  {
    if TrimSpace(s) == t {
      var _, _ := TrimmedIsCore(s);
    }
    if exists a, b :: CoreOf(s, a, t, b) {
      var a, b :| CoreOf(s, a, t, b);
      if t != [] {
        CoreIsTight(t);
      }
      CoreIsTrimmed(a, t, b);
    }
  }

  lemma TrimmedIsCore(s: string) returns (a: string, b: string)
    ensures CoreOf(s, a, TrimSpace(s), b)
  {
    a := TrimLeftCuts(s);
    b := TrimRightCuts(TrimLeft(s));
    TrimSpaceIsTight(s);
    if TrimSpace(s) != [] {
      TightEnds(TrimSpace(s));
    }
    Associative(a, TrimSpace(s), b);
  }

  lemma Associative(a: string, t: string, b: string)
    ensures a + (t + b) == a + t + b
  {
  }

  lemma TightEnds(t: string)
    requires Tight(t) && t != []
    ensures !Blank(t[..1]) && !Blank(t[|t| - 1..])
  {
    assert t[..1][0] == t[0] && t[|t| - 1..][0] == t[|t| - 1];
  }

  lemma CoreIsTight(t: string)
    requires t != [] && !Blank(t[..1]) && !Blank(t[|t| - 1..])
    ensures Tight(t)
  {
  }

  lemma TrimLeftKeeps(t: string, b: string)
    requires t != [] && Tight(t)
    ensures TrimLeft(t + b) == t + b
  {
    assert (t + b)[0] == t[0];
  }

  lemma BlankVanishes(b: string)
    requires Blank(b)
    ensures TrimLeft([] + b) == []
  {
    TrimLeftSkips(b, []);
    assert [] + b == b + [];
  }

  lemma CoreIsTrimmed(a: string, t: string, b: string)
    requires Blank(a) && Blank(b) && Tight(t)
    ensures TrimSpace(a + t + b) == t
  {
    Associative(a, t, b);
    TrimLeftSkips(a, t + b);
    if t == [] {
      BlankVanishes(b);
    } else {
      TrimLeftKeeps(t, b);
      TrimRightSkips(t, b);
    }
  }

  /** A normal form is the trimmed address with the capital letters A to Z, and nothing else, made small. */
  lemma NormaliseExactly(email: string)
    ensures |Normalise(email)| == |TrimSpace(email)|
    ensures forall i :: 0 <= i < |Normalise(email)| ==>
              var c, d := TrimSpace(email)[i], Normalise(email)[i];
              if 'A' <= c <= 'Z' then 'a' <= d <= 'z' && d - 'a' == c - 'A' else d == c
  {
  }

  /** Normalising twice is normalising once, so a stored identifier is itself a spelling of its address. */
  lemma NormaliseIdempotent(email: string)
    ensures Normalise(Normalise(email)) == Normalise(email)
  {
    var t := TrimSpace(email);
    TrimSpaceIsTight(email);
    assert Tight(ToLower(t));
    TrimSpaceIsTight(ToLower(t));
    assert ToLower(ToLower(t)) == ToLower(t);
  }

  // ---------- Zero-padded decimals ----------

  function Pow10(w: nat): nat {
    if w == 0 then 1 else 10 * Pow10(w - 1)
  }

  function DigitChar(d: nat): char
    requires d < 10
  {
    ('0' as int + d) as char
  }

  predicate IsDigit(c: char) {
    '0' <= c <= '9'
  }

  predicate AllDigits(s: string) {
    forall i :: 0 <= i < |s| ==> IsDigit(s[i])
  }

  /** Plain decimal rendering, the verb `%d` on a non-negative number. */
  function Decimal(n: nat): string {
    if n < 10 then [DigitChar(n)] else Decimal(n / 10) + [DigitChar(n % 10)]
  }

  function Zeros(k: nat): string {
    seq(k, _ => '0')
  }

  /** The verb `%0*d`: at least `w` characters, filled with zeros on the left. */
  function ZeroPadded(n: nat, w: nat): string {
    var d := Decimal(n);
    if |d| < w then Zeros(w - |d|) + d else d
  }

  function ParseDecimal(s: string): nat
    requires AllDigits(s)
  {
    if s == [] then 0
    else 10 * ParseDecimal(s[..|s| - 1]) + (s[|s| - 1] as int - '0' as int)
  }

  lemma {:induction false} DecimalFits(n: nat, w: nat)
    requires 1 <= w && n < Pow10(w)
    ensures 1 <= |Decimal(n)| <= w
    decreases w
  {
    if n >= 10 {
      DecimalFits(n / 10, w - 1);
    }
  }

  lemma ZeroPaddedSnoc(n: nat, w: nat)
    requires 2 <= w && n < Pow10(w)
    ensures n / 10 < Pow10(w - 1)
    ensures ZeroPadded(n, w) == ZeroPadded(n / 10, w - 1) + [DigitChar(n % 10)]
  {
    DecimalFits(n, w);
    DecimalFits(n / 10, w - 1);
    if n < 10 {
      assert Decimal(n / 10) == ['0'];
      assert Zeros(w - 1) == Zeros(w - 2) + ['0'];
    }
  }

  /** Rendering then parsing is the identity on 0 .. 10^w - 1, and always gives w digits. */
  lemma {:induction false} ParseAfterFormat(n: nat, w: nat)
    requires 1 <= w && n < Pow10(w)
    ensures |ZeroPadded(n, w)| == w && AllDigits(ZeroPadded(n, w))
    ensures ParseDecimal(ZeroPadded(n, w)) == n
    decreases w
  {
    if w == 1 {
      assert Pow10(1) == 10;
      var s := ZeroPadded(n, 1);
      assert s == [DigitChar(n)] && s[..0] == [];
    } else {
      ZeroPaddedSnoc(n, w);
      ParseAfterFormat(n / 10, w - 1);
      var s := ZeroPadded(n, w);
      assert s[..|s| - 1] == ZeroPadded(n / 10, w - 1);
    }
  }

  /** Parsing then rendering is the identity on strings of w digits. */
  lemma {:induction false} FormatAfterParse(s: string)
    requires s != [] && AllDigits(s)
    ensures ParseDecimal(s) < Pow10(|s|)
    ensures ZeroPadded(ParseDecimal(s), |s|) == s
    decreases |s|
  {
    var init, last := s[..|s| - 1], s[|s| - 1];
    if |s| == 1 {
      assert ParseDecimal(init) == 0;
      assert Pow10(1) == 10;
      assert s == [last];
    } else {
      FormatAfterParse(init);
      ZeroPaddedSnoc(ParseDecimal(s), |s|);
      assert s == init + [last];
    }
  }

  // ---------- One-time codes ----------

  const OTP_LENGTH: nat := 6

  /** What a draw from the random source can be: below 10^6. */
  type Draw = n: nat | n < 1_000_000

  function CodeOf(n: Draw): string {
    ZeroPadded(n, OTP_LENGTH)
  }

  /** Every code that can be generated has six digits, is untouched by trimming, and
      comes from one draw only. */
  lemma CodesAreSixDigits(n: Draw)
    ensures |CodeOf(n)| == OTP_LENGTH && AllDigits(CodeOf(n))
    ensures TrimSpace(CodeOf(n)) == CodeOf(n)
    ensures forall m: Draw :: CodeOf(m) == CodeOf(n) <==> m == n
  {
    SixDigits();
    ParseAfterFormat(n, OTP_LENGTH);
    TrimSpaceIsTight(CodeOf(n));
    forall m: Draw | CodeOf(m) == CodeOf(n)
      ensures m == n
    {
      ParseAfterFormat(m, OTP_LENGTH);
    }
  }

  /** The code is the six decimal digits of the draw, the highest first. */
  lemma DigitsOfCode(n: Draw)
    ensures CodeOf(n) == [DigitChar(n / 100_000), DigitChar(n / 10_000 % 10), DigitChar(n / 1_000 % 10),
                          DigitChar(n / 100 % 10), DigitChar(n / 10 % 10), DigitChar(n % 10)]
  {
    SixDigits();
    var high := n / 10_000;
    assert n / 100 / 100 == high && n / 100 / 10 == n / 1_000 && high / 10 == n / 100_000 < 10;
    TwoDigits(n, 6);
    TwoDigits(n / 100, 4);
    LastTwoDigits(high);
  }

  lemma LastTwoDigits(n: nat)
    requires n < 100
    ensures ZeroPadded(n, 2) == [DigitChar(n / 10), DigitChar(n % 10)]
  {
    assert Pow10(2) == 100;
    ZeroPaddedSnoc(n, 2);
  }

  lemma TwoDigits(n: nat, w: nat)
    requires 3 <= w && n < Pow10(w)
    ensures n / 100 < Pow10(w - 2)
    ensures ZeroPadded(n, w) == ZeroPadded(n / 100, w - 2) + [DigitChar(n / 10 % 10), DigitChar(n % 10)]
  {
    ZeroPaddedSnoc(n, w);
    ZeroPaddedSnoc(n / 10, w - 1);
    assert n / 10 / 10 == n / 100;
  }

  lemma SixDigits()
    ensures Pow10(OTP_LENGTH) == 1_000_000
  {
    assert Pow10(3) == 1000;
    assert Pow10(5) == 100 * Pow10(3);
  }

  /** Conversely every six-digit string is the code of some draw. */
  lemma EverySixDigitStringIsACode(s: string)
    requires |s| == OTP_LENGTH && AllDigits(s)
    ensures exists n: Draw :: CodeOf(n) == s
  {
    SixDigits();
    FormatAfterParse(s);
    var n: Draw := ParseDecimal(s);
    assert CodeOf(n) == s;
  }
}
