/**
 * The comparator that orders the options inside one group:
 * `a.localeCompare(b, 'en', { numeric: true, sensitivity: 'base' })`.
 *
 * ICU collation is replaced by a concrete natural order over ASCII. A code
 * is read as a sequence of tokens, each written into its sort key as a pair
 * (rank, value):
 *   - a maximal run of decimal digits is one token (1, numeric value), so
 *     `a2` comes before `a10` and `a01` ties with `a1`;
 *   - an ASCII letter is (2, ordinal of its lower-case form), so case is
 *     ignored;
 *   - any other character is (0, its ordinal), so punctuation comes before
 *     digits, which come before letters.
 * Two codes compare as their keys do, lexicographically. Codes with equal
 * keys compare as 0: the comparator is a total preorder, not an order.
 */
module NaturalOrder {
  import Lex
  import opened Ascii

  const SymbolRank := 0
  const NumberRank := 1
  const LetterRank := 2

  /** Length of the run of digits that starts `s`. */
  function DigitRunLength(s: string): (k: nat)
    ensures k <= |s|
    ensures forall i :: 0 <= i < k ==> IsDigit(s[i])
    ensures k == |s| || !IsDigit(s[k])
  {
    if s == [] || !IsDigit(s[0]) then 0 else 1 + DigitRunLength(s[1..])
  }

  /** The value of a string of decimal digits, most significant first. */
  function DecimalValue(digits: string): nat
    requires forall i :: 0 <= i < |digits| ==> IsDigit(digits[i])
  {
    if digits == [] then 0
    else
      var last := digits[|digits| - 1];
      assert IsDigit(last);
      DecimalValue(digits[..|digits| - 1]) * 10 + (last as int - '0' as int)
  }

  /** Length of the first token of a non-empty code. */
  function TokenLength(s: string): (k: nat)
    requires s != []
    ensures 0 < k <= |s|
  {
    if IsDigit(s[0]) then DigitRunLength(s) else 1
  }

  /** The (rank, value) pair of the first token of a non-empty code. */
  function Token(s: string): seq<int>
    requires s != []
  {
    if IsDigit(s[0]) then [NumberRank, DecimalValue(s[..DigitRunLength(s)])]
    else if IsLetter(s[0]) then [LetterRank, Lower(s[0]) as int]
    else [SymbolRank, s[0] as int]
  }

  /** The sort key of a code: its tokens' pairs, in order. */
  function Key(s: string): seq<int>
    decreases |s|
  {
    if s == [] then [] else Token(s) + Key(s[TokenLength(s)..])
  }

  /** Negative, zero or positive, as `localeCompare` answers. */
  function Compare(a: string, b: string): int
  {
    if Lex.Less(Key(a), Key(b)) then -1
    else if Lex.Less(Key(b), Key(a)) then 1
    else 0
  }

  /** The comparator's answer as the "less than or equal" test a sort uses. */
  predicate NaturalLe(a: string, b: string)
  {
    Compare(a, b) <= 0
  }

  lemma CompareAntisymmetric(a: string, b: string)
    ensures Compare(a, b) == -Compare(b, a)
  {
    if Lex.Less(Key(a), Key(b)) {
      Lex.LessAsymmetric(Key(a), Key(b));
    }
  }

  lemma CompareZeroIffSameKey(a: string, b: string)
    ensures Compare(a, b) == 0 <==> Key(a) == Key(b)
  {
    Lex.LessTrichotomy(Key(a), Key(b));
    Lex.LessIrreflexive(Key(a));
  }

  lemma NaturalLeNotGreater(a: string, b: string)
    ensures NaturalLe(a, b) <==> !Lex.Less(Key(b), Key(a))
  {
    if Lex.Less(Key(a), Key(b)) {
      Lex.LessAsymmetric(Key(a), Key(b));
    }
  }

  lemma CompareTotal(a: string, b: string)
    ensures NaturalLe(a, b) || NaturalLe(b, a)
  {
    CompareAntisymmetric(a, b);
  }

  lemma CompareTransitive(a: string, b: string, c: string)
    requires NaturalLe(a, b) && NaturalLe(b, c)
    ensures NaturalLe(a, c)
  {
    var ka, kb, kc := Key(a), Key(b), Key(c);
    NaturalLeNotGreater(a, b);
    NaturalLeNotGreater(b, c);
    NaturalLeNotGreater(a, c);
    Lex.LessTrichotomy(ka, kb);
    if Lex.Less(kc, ka) && Lex.Less(ka, kb) {
      Lex.LessTransitive(kc, ka, kb);
    }
  }

  lemma {:induction false} DigitRunLengthLower(s: string)
    ensures DigitRunLength(LowerString(s)) == DigitRunLength(s)
  {
    if s != [] {
      assert LowerString(s)[1..] == LowerString(s[1..]);
      DigitRunLengthLower(s[1..]);
    }
  }

  lemma {:induction false} KeyIgnoresCase(s: string)
    ensures Key(LowerString(s)) == Key(s)
    decreases |s|
  {
    var t := LowerString(s);
    if s != [] {
      var k := TokenLength(s);
      if IsDigit(s[0]) {
        DigitRunLengthLower(s);
        assert t[..k] == s[..k];
      }
      assert Token(t) == Token(s) && TokenLength(t) == k;
      assert t[k..] == LowerString(s[k..]);
      KeyIgnoresCase(s[k..]);
    }
  }

  /** Case is ignored: a code ties with its lower-case spelling. */
  lemma CompareIgnoresCase(s: string)
    ensures Compare(s, LowerString(s)) == 0
  {
    KeyIgnoresCase(s);
    CompareZeroIffSameKey(s, LowerString(s));
  }

  predicate AllDigits(s: string)
  {
    forall i :: 0 <= i < |s| ==> IsDigit(s[i])
  }

  lemma DigitsKey(d: string)
    requires d != [] && AllDigits(d)
    ensures Key(d) == [NumberRank, DecimalValue(d)]
  {
    assert DigitRunLength(d) == |d|;
    assert d[..|d|] == d && d[|d|..] == [];
  }

  lemma {:induction false} KeyAppend(p: string, q: string)
    requires p == [] || q == [] || !IsDigit(p[|p| - 1]) || !IsDigit(q[0])
    ensures Key(p + q) == Key(p) + Key(q)
    decreases |p|
  {
    if p == [] {
      assert p + q == q;
    } else {
      var k := TokenLength(p);
      TokenAppend(p, q);
      var rest := p[k..];
      assert (p + q)[k..] == rest + q;
      assert rest == [] || rest[|rest| - 1] == p[|p| - 1];
      KeyAppend(rest, q);
      Reassociate(Token(p), Key(rest), Key(q));
    }
  }

  lemma Reassociate(a: seq<int>, b: seq<int>, c: seq<int>)
    ensures a + (b + c) == (a + b) + c
  {
  }

  /** The first token of `p + q` is the first token of `p`. */
  lemma TokenAppend(p: string, q: string)
    requires p != []
    requires q == [] || !IsDigit(q[0]) || !IsDigit(p[|p| - 1])
    ensures Token(p + q) == Token(p) && TokenLength(p + q) == TokenLength(p)
  {
    var s := p + q;
    assert s[0] == p[0];
    if IsDigit(p[0]) {
      DigitRunPrefix(p, q);
      assert s[..DigitRunLength(p)] == p[..DigitRunLength(p)];
    }
  }

  lemma {:induction false} DigitRunPrefix(p: string, q: string)
    requires q == [] || !IsDigit(q[0]) || (p != [] && !IsDigit(p[|p| - 1]))
    ensures DigitRunLength(p + q) == DigitRunLength(p)
  {
    if p == [] {
      assert p + q == q;
    } else {
      assert (p + q)[0] == p[0];
      if IsDigit(p[0]) {
        assert (p + q)[1..] == p[1..] + q;
        DigitRunPrefix(p[1..], q);
      }
    }
  }

  lemma {:induction false} LessCommonPrefix(x: seq<int>, a: seq<int>, b: seq<int>)
    ensures Lex.Less(x + a, x + b) <==> Lex.Less(a, b)
  {
    if x != [] {
      assert (x + a)[1..] == x[1..] + a && (x + b)[1..] == x[1..] + b;
      LessCommonPrefix(x[1..], a, b);
    } else {
      assert x + a == a && x + b == b;
    }
  }

  /**
   * Digit runs compare by numeric value: after a common prefix that does not
   * end in a digit, `p + d1` sorts before `p + d2` exactly when d1's value is
   * smaller, and they tie exactly when the values are equal.
   */
  lemma DigitRunsCompareByValue(p: string, d1: string, d2: string)
    requires p == [] || !IsDigit(p[|p| - 1])
    requires d1 != [] && AllDigits(d1)
    requires d2 != [] && AllDigits(d2)
    ensures Compare(p + d1, p + d2) < 0 <==> DecimalValue(d1) < DecimalValue(d2)
    ensures Compare(p + d1, p + d2) == 0 <==> DecimalValue(d1) == DecimalValue(d2)
  {
    KeyAppend(p, d1);
    KeyAppend(p, d2);
    DigitsKey(d1);
    DigitsKey(d2);
    LessCommonPrefix(Key(p), Key(d1), Key(d2));
    LessCommonPrefix(Key(p), Key(d2), Key(d1));
    CompareZeroIffSameKey(p + d1, p + d2);
  }
  /**
   * The ranks of the two first tokens decide: after a common prefix that does
   * not end in a digit, a token of lower rank sorts first.
   */
  lemma RankDecides(p: string, a: string, b: string)
    requires p == [] || !IsDigit(p[|p| - 1])
    requires a != [] && b != [] && Token(a)[0] < Token(b)[0]
    ensures Compare(p + a, p + b) < 0
  {
    KeyAppend(p, a);
    KeyAppend(p, b);
    LessCommonPrefix(Key(p), Key(a), Key(b));
  }

  /** Digits sort before letters, as in the ICU root order. */
  lemma DigitBeforeLetter(p: string, a: string, b: string)
    requires p == [] || !IsDigit(p[|p| - 1])
    requires a != [] && b != [] && IsDigit(a[0]) && IsLetter(b[0])
    ensures Compare(p + a, p + b) < 0
  {
    assert Token(a)[0] == NumberRank && Token(b)[0] == LetterRank;
    RankDecides(p, a, b);
  }

  /** Punctuation and other symbols sort before digits. */
  lemma SymbolBeforeDigit(p: string, a: string, b: string)
    requires p == [] || !IsDigit(p[|p| - 1])
    requires a != [] && b != [] && !IsDigit(a[0]) && !IsLetter(a[0]) && IsDigit(b[0])
    ensures Compare(p + a, p + b) < 0
  {
    assert Token(a)[0] == SymbolRank && Token(b)[0] == NumberRank;
    RankDecides(p, a, b);
  }

  /** Punctuation and other symbols sort before letters. */
  lemma SymbolBeforeLetter(p: string, a: string, b: string)
    requires p == [] || !IsDigit(p[|p| - 1])
    requires a != [] && b != [] && !IsDigit(a[0]) && !IsLetter(a[0]) && IsLetter(b[0])
    ensures Compare(p + a, p + b) < 0
  {
    assert Token(a)[0] == SymbolRank && Token(b)[0] == LetterRank;
    RankDecides(p, a, b);
  }
}
