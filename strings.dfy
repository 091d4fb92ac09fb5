/** Pure text helpers used to build route keys, method names and the dial
    address: ASCII case mapping, literal stripping, title casing and decimal
    rendering of the listen port. */
module Strings {

  predicate IsUpper(ch: char) { 'A' <= ch <= 'Z' }

  predicate IsLowerLetter(ch: char) { 'a' <= ch <= 'z' }

  predicate IsDigit(ch: char) { '0' <= ch <= '9' }

  /** ASCII lower case of one character; every other character is kept. */
  function LowerChar(ch: char): (r: char)
    ensures !IsUpper(r)
    ensures IsUpper(ch) ==> r as int == ch as int + 32
    ensures !IsUpper(ch) ==> r == ch
  {
    if IsUpper(ch) then (ch as int + 32) as char else ch
  }

  /** ASCII upper case of one character; every other character is kept. */
  function UpperChar(ch: char): (r: char)
    ensures !IsLowerLetter(r)
    ensures IsLowerLetter(ch) ==> r as int == ch as int - 32
    ensures !IsLowerLetter(ch) ==> r == ch
  {
    if IsLowerLetter(ch) then (ch as int - 32) as char else ch
  }

  lemma LowerOfUpper(ch: char)
    ensures LowerChar(UpperChar(ch)) == LowerChar(ch)
  {
  }

  /** strings.ToLower restricted to ASCII letters. */
  function Lower(s: string): (r: string)
    ensures |r| == |s|
  {
    if s == [] then [] else [LowerChar(s[0])] + Lower(s[1..])
  }

  /** Lower keeps the length and maps every character on its own. */
  lemma {:induction false} LowerIsPointwise(s: string)
    ensures |Lower(s)| == |s|
    ensures forall i :: 0 <= i < |s| ==> Lower(s)[i] == LowerChar(s[i])
  {
    if s != [] {
      LowerIsPointwise(s[1..]);
    }
  }

  lemma LowerConcat(a: string, b: string)
    ensures Lower(a + b) == Lower(a) + Lower(b)
  {
    LowerIsPointwise(a + b);
    LowerIsPointwise(a);
    LowerIsPointwise(b);
    assert forall i :: 0 <= i < |a + b| ==> Lower(a + b)[i] == (Lower(a) + Lower(b))[i];
  }

  /** Lowering twice is lowering once. */
  lemma LowerIdempotent(s: string)
    ensures Lower(Lower(s)) == Lower(s)
  {
    LowerIsPointwise(s);
    LowerIsPointwise(Lower(s));
  }

  /** The route key "<command>_<object>", lower-cased as a whole. */
  function CompoundKey(c: string, o: string): (r: string)
    ensures |r| == |c| + 1 + |o|
  {
    Lower(c + "_" + o)
  }

  /** Registration lowers the command first and then the whole key; the
      result is the same key the resolver builds from the raw tokens. */
  lemma RegistrationKeyIsCompoundKey(c: string, o: string)
    ensures Lower(Lower(c) + "_" + o) == CompoundKey(c, o)
  {
    assert Lower(c) + "_" + o == Lower(c) + ("_" + o);
    assert c + "_" + o == c + ("_" + o);
    LowerConcat(Lower(c), "_" + o);
    LowerConcat(c, "_" + o);
    LowerIdempotent(c);
  }

  /** strings.Split(s, "'")[0]: everything before the first apostrophe, or
      all of s when it has none. */
  function StripLiteral(s: string): (r: string)
    ensures |r| <= |s|
  {
    if s == [] || s[0] == '\'' then [] else [s[0]] + StripLiteral(s[1..])
  }

  /** The stripped token is a prefix of s holding no apostrophe, and it stops
      only at an apostrophe or at the end of s. */
  lemma {:induction false} StripLiteralIsPrefixBeforeQuote(s: string)
    ensures StripLiteral(s) <= s
    ensures '\'' !in StripLiteral(s)
    ensures |StripLiteral(s)| < |s| ==> s[|StripLiteral(s)|] == '\''
  {
    if s != [] && s[0] != '\'' {
      StripLiteralIsPrefixBeforeQuote(s[1..]);
    }
  }

  /** A token without an apostrophe is kept whole, so stripping is idempotent. */
  lemma {:induction false} StripLiteralKeepsPlainToken(s: string)
    requires '\'' !in s
    ensures StripLiteral(s) == s
  {
    if s != [] {
      StripLiteralKeepsPlainToken(s[1..]);
    }
  }

  /** The separator test of strings.Title for ASCII: anything that is not a
      letter, a digit or an underscore. Non-ASCII characters count as word
      characters. */
  predicate IsSeparator(ch: char)
  {
    ch as int <= 0x7F && !(IsUpper(ch) || IsLowerLetter(ch) || IsDigit(ch) || ch == '_')
  }

  /** Title casing that continues after the character prev. */
  function TitleFrom(prev: char, s: string): (r: string)
    ensures |r| == |s|
    ensures |s| > 0 ==> r[0] == (if IsSeparator(prev) then UpperChar(s[0]) else s[0])
    ensures forall i :: 0 < i < |s| ==> r[i] == (if IsSeparator(s[i - 1]) then UpperChar(s[i]) else s[i])
    decreases s
  {
    if s == [] then []
    else [if IsSeparator(prev) then UpperChar(s[0]) else s[0]] + TitleFrom(s[0], s[1..])
  }

  /** strings.Title: upper-case every letter that starts a word. */
  function Title(s: string): (r: string)
    ensures |r| == |s|
  {
    TitleFrom(' ', s)
  }

  /** Title casing changes letter case only. */
  lemma TitleOnlyChangesCase(s: string)
    ensures |Title(s)| == |s|
    ensures Lower(Title(s)) == Lower(s)
  {
    var t := TitleFrom(' ', s);
    LowerIsPointwise(s);
    LowerIsPointwise(t);
    forall i | 0 <= i < |s|
      ensures Lower(t)[i] == Lower(s)[i]
    {
      if i == 0 {
        assert t[0] == UpperChar(s[0]);
      } else {
        assert t[i] == (if IsSeparator(s[i - 1]) then UpperChar(s[i]) else s[i]);
      }
      LowerOfUpper(s[i]);
    }
  }

  function DigitChar(d: nat): (r: char)
    requires d < 10
    ensures IsDigit(r)
  {
    ('0' as int + d) as char
  }

  function DigitValue(ch: char): nat
  {
    if IsDigit(ch) then ch as int - '0' as int else 0
  }

  /** Decimal digits of a natural number, most significant first. */
  function NatToDecimal(n: nat): (r: string)
    ensures |r| > 0
    ensures forall i :: 0 <= i < |r| ==> IsDigit(r[i])
  {
    if n < 10 then [DigitChar(n)] else NatToDecimal(n / 10) + [DigitChar(n % 10)]
  }

  /** strconv.Itoa. */
  function Itoa(n: int): (r: string)
    ensures |r| > 0
    ensures r[0] == '-' <==> n < 0
  {
    if n < 0 then "-" + NatToDecimal(-n) else NatToDecimal(n)
  }

  /** Reads back a run of decimal digits. */
  function DecimalToNat(s: string): nat
  {
    if s == [] then 0 else DecimalToNat(s[..|s| - 1]) * 10 + DigitValue(s[|s| - 1])
  }

  /** Reads back an optionally signed decimal number. */
  function Atoi(s: string): int
  {
    if |s| > 0 && s[0] == '-' then 0 - DecimalToNat(s[1..]) else DecimalToNat(s)
  }

  lemma {:induction false} NatToDecimalRoundTrip(n: nat)
    ensures DecimalToNat(NatToDecimal(n)) == n
  {
    if n >= 10 {
      NatToDecimalRoundTrip(n / 10);
      var s := NatToDecimal(n);
      assert s[..|s| - 1] == NatToDecimal(n / 10);
    }
  }

  /** The decimal rendering of an integer reads back as that integer. */
  lemma ItoaRoundTrip(n: int)
    ensures Atoi(Itoa(n)) == n
  {
    if n < 0 {
      NatToDecimalRoundTrip(-n);
      assert Itoa(n)[1..] == NatToDecimal(-n);
    } else {
      NatToDecimalRoundTrip(n);
    }
  }
}
