/** The little string handling the services rely on: Go's strings.ToLower
    (restricted to ASCII letters), strings.Contains, and the decimal form of
    an integer as it appears in a URL path segment. */
module Text {

  predicate IsUpper(c: char) {
    'A' <= c <= 'Z'
  }

  function LowerChar(c: char): char {
    if IsUpper(c) then (c as int + 32) as char else c
  }

  /** strings.ToLower, folding ASCII letters only. */
  function Lower(s: string): (r: string)
    ensures |r| == |s|
    ensures forall i :: 0 <= i < |s| ==> r[i] == LowerChar(s[i])
  {
    seq(|s|, i requires 0 <= i < |s| => LowerChar(s[i]))
  }

  /** A string without upper-case letters is its own lower-case form. */
  lemma LowerFixesLowerCase(s: string)
    requires forall i :: 0 <= i < |s| ==> !IsUpper(s[i])
    ensures Lower(s) == s
  {
  }

  /** Lower-casing twice is lower-casing once. */
  lemma LowerIdempotent(s: string)
    ensures Lower(Lower(s)) == Lower(s)
  {
  }

  predicate HasPrefix(s: string, prefix: string) {
    |prefix| <= |s| && s[..|prefix|] == prefix
  }

  /** strings.Contains: `sub` occurs in `s` at some offset. */
  predicate Contains(s: string, sub: string)
    decreases |s|
  {
    HasPrefix(s, sub) || (0 < |s| && Contains(s[1..], sub))
  }

  function DigitChar(d: int): char
    requires 0 <= d < 10
  {
    ('0' as int + d) as char
  }

  /** Decimal digits of a natural number, most significant first. */
  function NatText(n: nat): (r: string)
    ensures 1 <= |r|
    ensures forall i :: 0 <= i < |r| ==> '0' <= r[i] <= '9'
    ensures n < 10 <==> |r| == 1
    decreases n
  {
    if n < 10 then [DigitChar(n)] else NatText(n / 10) + [DigitChar(n % 10)]
  }

  /** The text of an integer as strconv.Itoa writes it. */
  function IntText(n: int): (r: string)
    ensures 1 <= |r|
    ensures r[0] == '-' <==> n < 0
  {
    if n < 0 then "-" + NatText(-n) else NatText(n)
  }

  lemma {:induction false} NatTextInjective(a: nat, b: nat)
    requires NatText(a) == NatText(b)
    ensures a == b
    decreases a
  {
    if a < 10 || b < 10 {
      assert |NatText(a)| == |NatText(b)|;
      assert a < 10 && b < 10;
      assert NatText(a)[0] == NatText(b)[0];
    } else {
      var ta, tb := NatText(a / 10), NatText(b / 10);
      assert NatText(a) == ta + [DigitChar(a % 10)];
      assert NatText(b) == tb + [DigitChar(b % 10)];
      assert |ta| == |tb|;
      assert ta == NatText(a)[..|ta|] == NatText(b)[..|tb|] == tb;
      assert NatText(a)[|ta|] == NatText(b)[|tb|];
      NatTextInjective(a / 10, b / 10);
    }
  }

  /** Different integers have different decimal texts, so matching a record
      against the text of a stage ID picks exactly the records of that stage. */
  lemma {:induction false} IntTextInjective(a: int, b: int)
    requires IntText(a) == IntText(b)
    ensures a == b
  {
    if a < 0 {
      assert b < 0;
      assert IntText(a)[1..] == NatText(-a);
      assert IntText(b)[1..] == NatText(-b);
      NatTextInjective(-a, -b);
    } else {
      assert b >= 0;
      NatTextInjective(a, b);
    }
  }

  /** "0" is the text of zero and of nothing else. */
  lemma {:induction false} IntTextZero(n: int)
    ensures IntText(n) == "0" <==> n == 0
  {
    if IntText(n) == "0" {
      assert IntText(0) == "0";
      IntTextInjective(n, 0);
    }
  }
}
