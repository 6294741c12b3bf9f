/** The string primitives the page relies on: String.prototype.trim,
    lower-casing, String.prototype.includes, the decimal numerals a template
    literal prints for an integer, and Number() applied to a form value. */
module Text {
  import opened Optional

  /** The ECMAScript WhiteSpace and LineTerminator code points: what trim() strips. */
  const WhiteSpace: set<char> := {
    '\t', '\n', '\U{000B}', '\U{000C}', '\r', ' ', '\U{00A0}', '\U{1680}',
    '\U{2000}', '\U{2001}', '\U{2002}', '\U{2003}', '\U{2004}', '\U{2005}',
    '\U{2006}', '\U{2007}', '\U{2008}', '\U{2009}', '\U{200A}',
    '\U{2028}', '\U{2029}', '\U{202F}', '\U{205F}', '\U{3000}', '\U{FEFF}'
  }

  /** Whether trim() strips `c`. */
  predicate IsSpace(c: char) {
    c in WhiteSpace
  }

  /** `s` without its leading white space. */
  function TrimStart(s: string): (r: string)
    ensures |r| <= |s|
    ensures forall i :: 0 <= i < |s| - |r| ==> IsSpace(s[i])
    ensures r == [] || !IsSpace(r[0])
  {
    if s != [] && IsSpace(s[0]) then TrimStart(s[1..]) else s
  }

  /** `s` without its trailing white space. */
  function TrimEnd(s: string): (r: string)
    ensures |r| <= |s|
    ensures forall i :: |r| <= i < |s| ==> IsSpace(s[i])
    ensures r == [] || !IsSpace(r[|r| - 1])
  {
    if s != [] && IsSpace(s[|s| - 1]) then TrimEnd(s[..|s| - 1]) else s
  }

  /** What TrimStart keeps is the tail of `s` it leaves off at. */
  lemma {:induction false} TrimStartIsSuffix(s: string)
    ensures TrimStart(s) == s[|s| - |TrimStart(s)|..]
  {
    if s != [] && IsSpace(s[0]) {
      TrimStartIsSuffix(s[1..]);
    }
  }

  /** What TrimEnd keeps is the head of `s` it stops at. */
  lemma {:induction false} TrimEndIsPrefix(s: string)
    ensures TrimEnd(s) == s[..|TrimEnd(s)|]
  {
    if s != [] && IsSpace(s[|s| - 1]) {
      TrimEndIsPrefix(s[..|s| - 1]);
    }
  }

  /** Everything in `s` outside the run of `len` characters starting at `k`
      is white space. */
  predicate Flanked(s: string, k: int, len: nat) {
    0 <= k && k + len <= |s|
    && (forall i :: 0 <= i < k ==> IsSpace(s[i]))
    && (forall i :: k + len <= i < |s| ==> IsSpace(s[i]))
  }

  /** String.prototype.trim: `s` without the white space at both ends. It
      neither starts nor ends with white space, and it is empty exactly
      when `s` is all white space. */
  function Trim(s: string): (r: string)
    ensures r == [] <==> forall i :: 0 <= i < |s| ==> IsSpace(s[i])
    ensures r != [] ==> !IsSpace(r[0]) && !IsSpace(r[|r| - 1])
  {
    TrimStartIsSuffix(s);
    TrimEndIsPrefix(TrimStart(s));
    TrimEnd(TrimStart(s))
  }

  /** What Trim keeps is a run of `s` with only white space before and
      after it: trim removes white space and nothing else. */
  lemma TrimStrips(s: string)
    ensures var r := Trim(s);
      exists k :: OccursAt(s, r, k) && Flanked(s, k, |r|)
  {
    var t := TrimStart(s);
    var r := TrimEnd(t);
    var k := |s| - |t|;
    assert r == Trim(s);
    assert t == s[k..] by {
      TrimStartIsSuffix(s);
    }
    assert r == t[..|r|] by {
      TrimEndIsPrefix(t);
    }
    assert OccursAt(s, r, k) by {
      assert s[k..k + |r|] == s[k..][..|r|];
    }
    assert Flanked(s, k, |r|) by {
      forall i | k + |r| <= i < |s| ensures IsSpace(s[i]) {
        assert s[i] == t[i - k];
      }
    }
  }

  /** Lower-casing of one character; only the ASCII letters A-Z change. */
  function LowerChar(c: char): (d: char)
    ensures !('A' <= d <= 'Z')
    ensures !('A' <= c <= 'Z') ==> d == c
    ensures 'A' <= c <= 'Z' ==> 'a' <= d <= 'z' && d as int - 'a' as int == c as int - 'A' as int
    ensures IsSpace(d) <==> IsSpace(c)
  {
    if 'A' <= c <= 'Z' then (c as int + 32) as char else c
  }

  /** String.prototype.toLowerCase, restricted to ASCII: `s` with each letter
      A-Z replaced by its lower-case form, everything else in place. */
  function Lower(s: string): (r: string)
    ensures |r| == |s|
    ensures forall i :: 0 <= i < |s| ==> r[i] == LowerChar(s[i])
  {
    if s == [] then [] else [LowerChar(s[0])] + Lower(s[1..])
  }

  /** `needle` occurs in `hay` starting at position `i`. */
  predicate OccursAt(hay: string, needle: string, i: int) {
    0 <= i && i + |needle| <= |hay| && hay[i..i + |needle|] == needle
  }

  /** String.prototype.includes: is there a position where `needle` occurs? */
  function Includes(hay: string, needle: string): (r: bool)
    ensures r <==> exists i :: OccursAt(hay, needle, i)
    decreases |hay|
  {
    if |needle| <= |hay| && hay[..|needle|] == needle then
      assert OccursAt(hay, needle, 0);
      true
    else if hay == [] then
      false
    else
      var r := Includes(hay[1..], needle);
      assert forall i :: OccursAt(hay[1..], needle, i) ==> OccursAt(hay, needle, i + 1) by {
        forall i | OccursAt(hay[1..], needle, i) ensures OccursAt(hay, needle, i + 1) {
          assert hay[1..][i..i + |needle|] == hay[i + 1..i + 1 + |needle|];
        }
      }
      assert forall i :: OccursAt(hay, needle, i) ==> OccursAt(hay[1..], needle, i - 1) by {
        forall i | OccursAt(hay, needle, i) ensures OccursAt(hay[1..], needle, i - 1) {
          assert i != 0;
          assert hay[1..][i - 1..i - 1 + |needle|] == hay[i..i + |needle|];
        }
      }
      r
  }

  predicate IsDigit(c: char) {
    '0' <= c <= '9'
  }

  predicate AllDigits(s: string) {
    forall i :: 0 <= i < |s| ==> IsDigit(s[i])
  }

  function DigitChar(d: int): (c: char)
    requires 0 <= d < 10
    ensures IsDigit(c)
  {
    ('0' as int + d) as char
  }

  function DigitValue(c: char): (d: nat)
    requires IsDigit(c)
    ensures d < 10 && DigitChar(d) == c
  {
    c as int - '0' as int
  }

  /** The numeral a template literal prints for a non-negative integer:
      decimal digits only, never empty, and with no leading zero unless the
      number is 0. */
  function Decimal(n: nat): (s: string)
    ensures s != [] && AllDigits(s)
    ensures s[0] == '0' <==> n == 0
  {
    if n < 10 then [DigitChar(n)] else Decimal(n / 10) + [DigitChar(n % 10)]
  }

  /** The value of a run of decimal digits. */
  function ParseDecimal(s: string): (n: nat)
    requires AllDigits(s)
    ensures s == [] ==> n == 0
  {
    if s == [] then 0 else 10 * ParseDecimal(s[..|s| - 1]) + DigitValue(s[|s| - 1])
  }

  /** Reading back a printed numeral gives the number that was printed. */
  lemma {:induction false} ParseDecimalOfDecimal(n: nat)
    ensures ParseDecimal(Decimal(n)) == n
  {
    var s := Decimal(n);
    if n >= 10 {
      assert s[..|s| - 1] == Decimal(n / 10);
      ParseDecimalOfDecimal(n / 10);
    }
  }

  /** Printing is one-to-one: different numbers print differently. */
  lemma DecimalInjective(m: nat, n: nat)
    requires Decimal(m) == Decimal(n)
    ensures m == n
  {
    ParseDecimalOfDecimal(m);
    ParseDecimalOfDecimal(n);
  }

  /** The text of a JavaScript integer in a template literal. */
  function IntText(i: int): (s: string)
    ensures s != [] && (s[0] == '-' <==> i < 0)
  {
    if i < 0 then "-" + Decimal(-i) else Decimal(i)
  }

  /** Apart from the leading minus sign of a negative number, the text of
      an integer is decimal digits only. */
  lemma IntTextDigits(i: int)
    ensures var s := IntText(i);
      forall k :: 0 <= k < |s| ==> IsDigit(s[k]) || (k == 0 && i < 0)
  {
  }

  /** A sign-less or signed run of decimal digits, with its value. */
  function SignedDigits(t: string): (r: Option<int>)
    ensures t == [] ==> r == None
    ensures AllDigits(t) && t != [] ==> r == Some(ParseDecimal(t))
  {
    if t != [] && AllDigits(t) then Some(ParseDecimal(t))
    else if |t| > 1 && t[0] == '+' && AllDigits(t[1..]) then Some(ParseDecimal(t[1..]))
    else if |t| > 1 && t[0] == '-' && AllDigits(t[1..]) then Some(-(ParseDecimal(t[1..]) as int))
    else None
  }

  /** Number(value) for a form value: blank text is 0, an optionally signed
      decimal integer surrounded by white space is its value, and anything
      else is NaN (None). */
  function NumberValue(value: string): (r: Option<int>)
    ensures (forall i :: 0 <= i < |value| ==> IsSpace(value[i])) ==> r == Some(0)
  {
    var t := Trim(value);
    if t == [] then Some(0) else SignedDigits(t)
  }

  /** Every printed non-negative numeral converts back to its number. */
  lemma NumberValueOfDecimal(n: nat)
    ensures NumberValue(Decimal(n)) == Some(n)
  {
    var s := Decimal(n);
    assert !IsSpace(s[0]);
    assert TrimStart(s) == s;
    assert !IsSpace(s[|s| - 1]);
    assert TrimEnd(s) == s;
    ParseDecimalOfDecimal(n);
  }

  /** Number() reads the text of any integer back as that integer. */
  lemma IntTextReadsBack(i: int)
    ensures NumberValue(IntText(i)) == Some(i)
  {
    if i >= 0 {
      NumberValueOfDecimal(i);
    } else {
      var s := IntText(i);
      var d := Decimal(-i);
      assert s == "-" + d;
      assert TrimStart(s) == s;
      assert !IsSpace(s[|s| - 1]);
      assert TrimEnd(s) == s;
      assert s[1..] == d;
      ParseDecimalOfDecimal(-i);
    }
  }
}
