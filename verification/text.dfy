/** String helpers the services rely on: Python's decimal rendering of integers (f-strings) and str.strip(). */
module Text {

  predicate IsDigit(c: char) { '0' <= c <= '9' }

  function DigitChar(d: nat): (c: char)
    requires d < 10
    ensures IsDigit(c) && c as int - '0' as int == d
  {
    ['0', '1', '2', '3', '4', '5', '6', '7', '8', '9'][d]
  }

  /** Decimal rendering of a non-negative integer, as `str(n)` / `f"{n}"` produce it. */
  function NatToDecimal(n: nat): (s: string)
    ensures |s| >= 1
    ensures forall i :: 0 <= i < |s| ==> IsDigit(s[i])
    ensures |s| > 1 ==> s[0] != '0'
  {
    if n < 10 then [DigitChar(n)] else NatToDecimal(n / 10) + [DigitChar(n % 10)]
  }

  /** Decimal rendering of any integer: a leading '-' for negative values. */
  function IntToDecimal(i: int): (s: string)
    ensures |s| >= 1
    ensures i >= 0 ==> s == NatToDecimal(i)
    ensures i < 0 ==> s[0] == '-' && s[1..] == NatToDecimal(-i)
  {
    if i < 0 then "-" + NatToDecimal(-i) else NatToDecimal(i)
  }

  function DigitValue(c: char): (d: nat)
    requires IsDigit(c)
    ensures d < 10
  {
    c as int - '0' as int
  }

  /** The value a digit string denotes (the reading direction of NatToDecimal). */
  function DecimalValue(s: string): nat
    requires forall i :: 0 <= i < |s| ==> IsDigit(s[i])
  {
    if s == [] then 0 else DecimalValue(s[..|s| - 1]) * 10 + DigitValue(s[|s| - 1])
  }

  /** Rendering a number and reading it back gives the number: the rendering loses nothing. */
  lemma {:induction false} DecimalRoundTrip(n: nat)
    ensures DecimalValue(NatToDecimal(n)) == n
  {
    if n >= 10 {
      var s := NatToDecimal(n);
      assert s[..|s| - 1] == NatToDecimal(n / 10);
      DecimalRoundTrip(n / 10);
    }
  }

  /** Different numbers render differently, so links built from ids never collide. */
  lemma NatToDecimalInjective(m: nat, n: nat)
    requires NatToDecimal(m) == NatToDecimal(n)
    ensures m == n
  {
    DecimalRoundTrip(m);
    DecimalRoundTrip(n);
  }

  /** The decimal renderings of the default ports the services are configured with. */
  lemma RenderDefaultPorts()
    ensures NatToDecimal(80) == "80" && NatToDecimal(8000) == "8000"
    ensures NatToDecimal(27017) == "27017" && NatToDecimal(50051) == "50051" && NatToDecimal(50052) == "50052"
  {
    assert NatToDecimal(8) == "8";
    assert NatToDecimal(80) == "80";
    assert NatToDecimal(800) == "800";
    assert NatToDecimal(2) == "2";
    assert NatToDecimal(27) == "27";
    assert NatToDecimal(270) == "270";
    assert NatToDecimal(2701) == "2701";
    assert NatToDecimal(5) == "5";
    assert NatToDecimal(50) == "50";
    assert NatToDecimal(500) == "500";
    assert NatToDecimal(5005) == "5005";
  }

  /** The characters for which Python's str.isspace() holds; str.strip() with no argument removes exactly these. */
  predicate IsSpace(c: char) {
    c == ' ' || ('\t' <= c <= '\r') || ('\U{1c}' <= c <= '\U{1f}') || c == '\U{85}' || c == '\U{a0}'
    || c == '\U{1680}' || ('\U{2000}' <= c <= '\U{200a}') || c == '\U{2028}' || c == '\U{2029}'
    || c == '\U{202f}' || c == '\U{205f}' || c == '\U{3000}'
  }

  predicate AllSpace(s: string) { forall i :: 0 <= i < |s| ==> IsSpace(s[i]) }

  /** The length of the whitespace run at the start of `s`. */
  function LeadingSpaces(s: string): (n: nat)
    ensures n <= |s| && AllSpace(s[..n])
    ensures n == |s| || !IsSpace(s[n])
  {
    if s != [] && IsSpace(s[0]) then
      var m := LeadingSpaces(s[1..]);
      assert s[..m + 1] == [s[0]] + s[1..][..m];
      m + 1
    else 0
  }

  /** The length of the whitespace run at the end of `s`. */
  function TrailingSpaces(s: string): (n: nat)
    ensures n <= |s| && AllSpace(s[|s| - n..])
    ensures n == |s| || !IsSpace(s[|s| - n - 1])
  {
    if s != [] && IsSpace(s[|s| - 1]) then
      var init := s[..|s| - 1];
      var m := TrailingSpaces(init);
      assert s[|s| - (m + 1)..] == init[|init| - m..] + [s[|s| - 1]];
      m + 1
    else 0
  }

  /** `s.lstrip()`: drops the leading whitespace run. */
  function StripLeading(s: string): (r: string)
    ensures |r| <= |s| && r == s[|s| - |r|..] && AllSpace(s[..|s| - |r|])
    ensures r == [] || !IsSpace(r[0])
  {
    s[LeadingSpaces(s)..]
  }

  /** `s.rstrip()`: drops the trailing whitespace run. */
  function StripTrailing(s: string): (r: string)
    ensures |r| <= |s| && r == s[..|r|] && AllSpace(s[|r|..])
    ensures r == [] || !IsSpace(r[|r| - 1])
  {
    s[..|s| - TrailingSpaces(s)]
  }

  /** Python's `s.strip()`. */
  function Strip(s: string): string
  {
    StripTrailing(StripLeading(s))
  }

  /** Cutting a whitespace prefix and then a whitespace suffix leaves a slice framed by whitespace. */
  lemma TrimmedSlice(s: string, l: string, r: string)
    requires |l| <= |s| && AllSpace(s[..|s| - |l|]) && s[|s| - |l|..] == l
    requires |r| <= |l| && AllSpace(l[|r|..]) && l[..|r|] == r
    ensures var i := |s| - |l|;
      r == s[i..i + |r|] && AllSpace(s[..i]) && AllSpace(s[i + |r|..])
  {
    var i := |s| - |l|;
    assert s[i + |r|..] == l[|r|..];
  }

  /** Strip keeps the slice between the leading and the trailing whitespace runs. */
  lemma StripSlice(s: string)
    ensures var i := |s| - |StripLeading(s)|; i + |Strip(s)| <= |s| && Strip(s) == s[i..i + |Strip(s)|]
    ensures var i := |s| - |StripLeading(s)|; AllSpace(s[..i])
    ensures var i := |s| - |StripLeading(s)|; i + |Strip(s)| <= |s| && AllSpace(s[i + |Strip(s)|..])
  {
    var l := StripLeading(s);
    var r := StripTrailing(l);
    assert |l| <= |s| && AllSpace(s[..|s| - |l|]) && s[|s| - |l|..] == l;
    assert |r| <= |l| && AllSpace(l[|r|..]) && l[..|r|] == r;
    TrimmedSlice(s, l, r);
    assert r == Strip(s);
  }

  /** Strip removes only whitespace, only at the two ends, and leaves no whitespace at either end. */
  lemma StripShape(s: string)
    ensures var r := Strip(s);
      && (exists i :: 0 <= i <= |s| - |r| && r == s[i..i + |r|]
            && AllSpace(s[..i]) && AllSpace(s[i + |r|..]))
      && (r == [] || (!IsSpace(r[0]) && !IsSpace(r[|r| - 1])))
  {
    StripSlice(s);
    var l := StripLeading(s);
    if Strip(s) != [] {
      assert Strip(s)[0] == l[0];
    }
  }

  /** A string strips to nothing exactly when it is whitespace only. */
  lemma StripEmptyIffAllSpace(s: string)
    ensures Strip(s) == [] <==> AllSpace(s)
  {
  }

  /** A string with no whitespace at either end is its own `strip()`. */
  lemma StripFramed(s: string)
    requires s != [] && !IsSpace(s[0]) && !IsSpace(s[|s| - 1])
    ensures Strip(s) == s
  {
    assert StripLeading(s) == s;
  }

  /** Stripping twice is stripping once. */
  lemma StripIdempotent(s: string)
    ensures Strip(Strip(s)) == Strip(s)
  {
    StripShape(s);
  }
}
