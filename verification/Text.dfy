/**
 Strings as the services use them: prefix tests, decimal rendering of integers,
 joining with a separator, and trimming of white space.
 */
module Text {

  predicate StartsWith(s: string, prefix: string) {
    |prefix| <= |s| && s[..|prefix|] == prefix
  }

  /** `\n`-style join: the separator goes between consecutive pieces only. */
  function Join(sep: string, pieces: seq<string>): string {
    if |pieces| == 0 then ""
    else if |pieces| == 1 then pieces[0]
    else pieces[0] + sep + Join(sep, pieces[1..])
  }

  const DIGITS := "0123456789"

  function DecimalNat(n: nat): string {
    if n < 10 then [DIGITS[n]] else DecimalNat(n / 10) + [DIGITS[n % 10]]
  }

  /** The decimal text of an integer, with a leading minus sign when negative. */
  function Decimal(n: int): string {
    if n < 0 then "-" + DecimalNat(-n) else DecimalNat(n)
  }

  lemma {:induction false} DecimalNatShape(n: nat)
    ensures |DecimalNat(n)| >= 1
    ensures forall k :: 0 <= k < |DecimalNat(n)| ==> DecimalNat(n)[k] in DIGITS
  {
    if n >= 10 {
      DecimalNatShape(n / 10);
    }
  }

  lemma DigitsDiffer(i: nat, j: nat)
    requires i < 10 && j < 10 && DIGITS[i] == DIGITS[j]
    ensures i == j
  {
  }

  lemma DecimalNatEnds(n: nat)
    ensures var s := DecimalNat(n);
            && |s| >= 1 && s[|s| - 1] == DIGITS[n % 10] && (|s| == 1 <==> n < 10)
            && (n >= 10 ==> s[..|s| - 1] == DecimalNat(n / 10))
  {
    DecimalNatShape(n / 10);
  }

  lemma {:induction false} DecimalNatInjective(m: nat, n: nat)
    requires DecimalNat(m) == DecimalNat(n)
    ensures m == n
  {
    DecimalNatEnds(m);
    DecimalNatEnds(n);
    DigitsDiffer(m % 10, n % 10);
    if m >= 10 && n >= 10 {
      DecimalNatInjective(m / 10, n / 10);
    }
  }

  lemma DecimalInjective(m: int, n: int)
    requires Decimal(m) == Decimal(n)
    ensures m == n
  {
    hide DecimalNat;
    DecimalNatShape(if m < 0 then -m else m);
    DecimalNatShape(if n < 0 then -n else n);
    assert '-' !in DIGITS;
    assert Decimal(m)[0] == '-' <==> m < 0;
    assert Decimal(n)[0] == '-' <==> n < 0;
    if m < 0 {
      assert Decimal(m)[1..] == DecimalNat(-m) && Decimal(n)[1..] == DecimalNat(-n);
      DecimalNatInjective(-m, -n);
    } else {
      DecimalNatInjective(m, n);
    }
  }

  /** Reading digits back, most significant first. */
  function DigitsValue(s: string): int {
    if s == "" then 0 else 10 * DigitsValue(s[..|s| - 1]) + (s[|s| - 1] as int - '0' as int)
  }

  lemma {:induction false} DecimalNatReads(n: nat)
    ensures DigitsValue(DecimalNat(n)) == n
  {
    DecimalNatEnds(n);
    assert forall d :: 0 <= d < 10 ==> DIGITS[d] as int == '0' as int + d;
    if n >= 10 {
      DecimalNatReads(n / 10);
    } else {
      assert DecimalNat(n)[..|DecimalNat(n)| - 1] == "";
    }
  }

  /** The text of an integer reads back as that integer. */
  lemma DecimalReads(n: int)
    ensures n >= 0 ==> DigitsValue(Decimal(n)) == n
    ensures n < 0 ==> |Decimal(n)| >= 1 && Decimal(n)[0] == '-' && DigitsValue(Decimal(n)[1..]) == -n
  {
    DecimalNatReads(if n < 0 then -n else n);
    if n < 0 {
      assert Decimal(n)[1..] == DecimalNat(-n);
    }
  }

  lemma DecimalHasNoColon(n: int)
    ensures ':' !in Decimal(n)
  {
    DecimalNatShape(if n < 0 then -n else n);
    assert ':' !in DIGITS;
  }

  /** A string splits in at most one way at a separator that its right part does not contain. */
  lemma LastSeparatorUnique(a: string, b: string, sep: char, x: string, y: string)
    requires a + [sep] + x == b + [sep] + y
    requires sep !in x && sep !in y
    ensures a == b && x == y
  {
    var s, t := a + [sep] + x, b + [sep] + y;
    assert s[|a|] == sep && forall k :: |a| < k < |s| ==> s[k] == x[k - |a| - 1] != sep;
    assert t[|b|] == sep && forall k :: |b| < k < |t| ==> t[k] == y[k - |b| - 1] != sep;
    assert s[..|a|] == a && t[..|b|] == b;
    assert s[|a| + 1..] == x && t[|b| + 1..] == y;
  }

  /** The dual: unique split at a separator that the left part does not contain. */
  lemma FirstSeparatorUnique(a: string, b: string, sep: char, x: string, y: string)
    requires a + [sep] + x == b + [sep] + y
    requires sep !in a && sep !in b
    ensures a == b && x == y
  {
    var s, t := a + [sep] + x, b + [sep] + y;
    assert s[|a|] == sep && forall k :: 0 <= k < |a| ==> s[k] == a[k] != sep;
    assert t[|b|] == sep && forall k :: 0 <= k < |b| ==> t[k] == b[k] != sep;
    assert s[..|a|] == a && t[..|b|] == b;
    assert s[|a| + 1..] == x && t[|b| + 1..] == y;
  }

  /** The characters with the Unicode White_Space property. */
  predicate IsSpace(c: char) {
    c in "\t\n\U{0B}\U{0C}\r \U{85}\U{A0}\U{1680}\U{2028}\U{2029}\U{202F}\U{205F}\U{3000}"
    || '\U{2000}' <= c <= '\U{200A}'
  }

  /** In ASCII: the blank, and the controls from tab to carriage return. */
  lemma AsciiSpaces(c: char)
    requires c < '\U{80}'
    ensures IsSpace(c) <==> c == ' ' || '\t' <= c <= '\r'
  {
    assert '\t' as int == 9 && '\r' as int == 13 && '\n' as int == 10;
  }

  function TrimLeft(s: string): string {
    if s == "" || !IsSpace(s[0]) then s else TrimLeft(s[1..])
  }

  function TrimRight(s: string): string {
    if s == "" || !IsSpace(s[|s| - 1]) then s else TrimRight(s[..|s| - 1])
  }

  function TrimSpace(s: string): string {
    TrimRight(TrimLeft(s))
  }

  lemma {:induction false} TrimLeftCuts(s: string) returns (i: nat)
    ensures i <= |s| && TrimLeft(s) == s[i..] && (forall k :: 0 <= k < i ==> IsSpace(s[k]))
    ensures i < |s| ==> !IsSpace(s[i])
  {
    i := 0;
    if s != "" && IsSpace(s[0]) {
      i := TrimLeftCuts(s[1..]);
      i := i + 1;
    }
  }

  lemma {:induction false} TrimRightCuts(s: string) returns (j: nat)
    ensures j <= |s| && TrimRight(s) == s[..j] && (forall k :: j <= k < |s| ==> IsSpace(s[k]))
    ensures j > 0 ==> !IsSpace(s[j - 1])
  {
    hide IsSpace;
    j := |s|;
    if s != "" && IsSpace(s[|s| - 1]) {
      j := TrimRightCuts(s[..|s| - 1]);
      assert s[..|s| - 1][..j] == s[..j];
    }
  }

  /** Trimming cuts white space off both ends, all of it and nothing else. */
  lemma TrimSpaceCuts(s: string) returns (i: nat, j: nat)
    ensures i <= j <= |s| && TrimSpace(s) == s[i..j]
    ensures forall k :: 0 <= k < i || j <= k < |s| ==> IsSpace(s[k])
    ensures i < j ==> !IsSpace(s[i]) && !IsSpace(s[j - 1])
  {
    hide IsSpace, TrimLeft, TrimRight;
    i := TrimLeftCuts(s);
    var t := s[i..];
    j := TrimRightCuts(t);
    forall k | i + j <= k < |s| ensures IsSpace(s[k]) {
      assert s[k] == t[k - i];
    }
    assert t[..j] == s[i..i + j];
    j := i + j;
  }

  lemma {:induction false} TrimLeftKeeps(s: string, k: nat)
    requires k < |s| && !IsSpace(s[k])
    ensures s[k] in TrimLeft(s)
  {
    if IsSpace(s[0]) {
      TrimLeftKeeps(s[1..], k - 1);
    }
  }

  lemma {:induction false} TrimRightKeeps(s: string, k: nat)
    requires k < |s| && !IsSpace(s[k])
    ensures s[k] in TrimRight(s)
  {
    if IsSpace(s[|s| - 1]) {
      TrimRightKeeps(s[..|s| - 1], k);
    }
  }

  /** Trimming never removes a character that is not white space. */
  lemma TrimSpaceKeeps(s: string, k: nat)
    requires k < |s| && !IsSpace(s[k])
    ensures s[k] in TrimSpace(s)
  {
    TrimLeftKeeps(s, k);
    var t := TrimLeft(s);
    var j :| 0 <= j < |t| && t[j] == s[k];
    TrimRightKeeps(t, j);
  }
}
