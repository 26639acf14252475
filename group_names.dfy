/** The group label derived from an instance-type code, one rule per provider. */
module GroupNames {
  import opened Wrappers
  import opened Ascii
  import opened Dtos

  /** The label `translate('Other')` yields; translation is fixed to the English key. */
  const OtherLabel: string := "Other"

  /**
   * The Azure series table in its declared order. Each entry pairs a label
   * with the lower-case prefix of its pattern `/^<prefix>.+/i`.
   */
  const AzureInstanceTypeGroups: seq<(string, string)> := [
    ("B-Series", "standard_b"),
    ("D-Series", "standard_d"),
    ("E-Series", "standard_e"),
    ("F-Series", "standard_f"),
    ("GS-Series", "standard_gs"),
    ("H-Series", "standard_h"),
    ("L-Series", "standard_l"),
    ("M-Series", "standard_m"),
    ("N-Series", "standard_n"),
    ("P-Series", "standard_p")
  ]

  /** `s.split(sep)[0]`. */
  function BeforeFirst(s: string, sep: char): (r: string)
    ensures r <= s && sep !in r
    ensures r == s || s[|r|] == sep
  {
    if s == [] || s[0] == sep then [] else [s[0]] + BeforeFirst(s[1..], sep)
  }

  /** The characters a regular-expression `.` does not match. */
  predicate IsLineTerminator(c: char)
  {
    c == '\n' || c == '\r' || c == '\U{2028}' || c == '\U{2029}'
  }

  /**
   * `/^<prefix>.+/i.test(code)` for a lower-case ASCII prefix: the code
   * starts with the prefix, ignoring ASCII case, and at least one character
   * other than a line terminator follows it.
   */
  predicate MatchesSeries(code: string, prefix: string)
  {
    |code| > |prefix| && LowerString(code[..|prefix|]) == prefix && !IsLineTerminator(code[|prefix|])
  }

  /** Entry `i` of `table` matches `code` and no earlier entry does. */
  predicate IsFirstMatch(table: seq<(string, string)>, code: string, i: int)
  {
    0 <= i < |table| && MatchesSeries(code, table[i].1) &&
    forall j :: 0 <= j < i ==> !MatchesSeries(code, table[j].1)
  }

  /** The label of the first entry of `table` whose pattern matches `code`. */
  function FirstMatch(table: seq<(string, string)>, code: string): (r: Option<string>)
    ensures r.None? <==> forall i :: 0 <= i < |table| ==> !MatchesSeries(code, table[i].1)
    ensures r.Some? ==> exists i :: IsFirstMatch(table, code, i) && table[i].0 == r.value
  {
    if table == [] then None
    else if MatchesSeries(code, table[0].1) then
      assert IsFirstMatch(table, code, 0);
      Some(table[0].0)
    else
      var r := FirstMatch(table[1..], code);
      assert r.Some? ==> exists i :: IsFirstMatch(table, code, i) && table[i].0 == r.value by {
        if r.Some? {
          var i :| IsFirstMatch(table[1..], code, i) && table[1..][i].0 == r.value;
          assert table[i + 1] == table[1..][i];
          forall j | 1 <= j < i + 1 ensures !MatchesSeries(code, table[j].1) {
            assert table[j] == table[1..][j - 1];
          }
          assert IsFirstMatch(table, code, i + 1);
        }
      }
      assert r.None? ==> forall i :: 1 <= i < |table| ==> !MatchesSeries(code, table[i].1) by {
        if r.None? {
          forall i | 1 <= i < |table| ensures !MatchesSeries(code, table[i].1) {
            assert table[i] == table[1..][i - 1];
          }
        }
      }
      r
  }

  function AzureGroupName(code: string): string
  {
    match FirstMatch(AzureInstanceTypeGroups, code)
    case Some(series) => series
    case None => OtherLabel
  }

  /** `getGroupName`: the label of the group an instance-type code belongs to. */
  function GroupName(cloud: Option<CloudType>, code: string): string
  {
    match cloud
    case Some(Aws) => BeforeFirst(code, '.')
    case Some(Gcp) => BeforeFirst(code, '-')
    case Some(Azu) => AzureGroupName(code)
    case _ => ""
  }

  /**
   * The provider rules: AWS and GCP take the text before the first `.` or
   * `-` (all of the code when it has none); Azure takes the label of the
   * first series whose pattern matches, and "Other" exactly when none does;
   * every other provider, and no provider, yields the empty label.
   */
  lemma GroupNameRules(cloud: Option<CloudType>, code: string)
    ensures var r := GroupName(cloud, code);
      && (cloud == Some(Aws) ==> r <= code && '.' !in r && (r == code || code[|r|] == '.'))
      && (cloud == Some(Aws) && '.' !in code ==> r == code)
      && (cloud == Some(Gcp) ==> r <= code && '-' !in r && (r == code || code[|r|] == '-'))
      && (cloud == Some(Gcp) && '-' !in code ==> r == code)
      && (cloud == Some(Azu) ==>
            (r == OtherLabel <==> forall i :: 0 <= i < |AzureInstanceTypeGroups| ==> !MatchesSeries(code, AzureInstanceTypeGroups[i].1)))
      && (cloud == Some(Azu) && r != OtherLabel ==>
            exists i :: IsFirstMatch(AzureInstanceTypeGroups, code, i) && AzureInstanceTypeGroups[i].0 == r)
      && (cloud !in {Some(Aws), Some(Gcp), Some(Azu)} ==> r == "")
  {
    if cloud == Some(Azu) {
      assert forall i :: 0 <= i < |AzureInstanceTypeGroups| ==> AzureInstanceTypeGroups[i].0 != OtherLabel;
    }
  }

  /**
   * The Azure patterns never overlap: their prefixes all differ at index 9,
   * just after "standard_", so no code matches two of them and the
   * first-match rule never has to break a tie.
   */
  lemma AzureSeriesExclusive(code: string, i: nat, j: nat)
    requires i < j < |AzureInstanceTypeGroups|
    ensures !(MatchesSeries(code, AzureInstanceTypeGroups[i].1) && MatchesSeries(code, AzureInstanceTypeGroups[j].1))
  {
    var t := AzureInstanceTypeGroups;
    var pi, pj := t[i].1, t[j].1;
    assert |pi| > 9 && |pj| > 9 && pi[9] != pj[9];
  }

  lemma AwsGcpExamples()
    ensures GroupName(Some(Aws), "c5.large") == "c5"
    ensures GroupName(Some(Gcp), "n1-standard-1") == "n1"
    ensures GroupName(Some(Kubernetes), "small") == ""
    ensures GroupName(None, "c5.large") == ""
  {
  }

  lemma AzureSeriesExample()
    ensures GroupName(Some(Azu), "Standard_B2s") == "B-Series"
  {
    var code := "Standard_B2s";
    assert MatchesSeries(code, "standard_b") by {
      var l := LowerString(code[..10]);
      assert l[0] == 's' && l[1] == 't' && l[2] == 'a' && l[3] == 'n' && l[4] == 'd';
      assert l[5] == 'a' && l[6] == 'r' && l[7] == 'd' && l[8] == '_' && l[9] == 'b';
      assert l == "standard_b";
    }
    assert FirstMatch(AzureInstanceTypeGroups, code) == Some("B-Series");
  }

  /** A code shorter than every pattern's prefix falls into "Other". */
  lemma AzureOtherExample()
    ensures GroupName(Some(Azu), "custom_x") == OtherLabel
  {
    forall i | 0 <= i < |AzureInstanceTypeGroups|
      ensures !MatchesSeries("custom_x", AzureInstanceTypeGroups[i].1)
    {
      assert |AzureInstanceTypeGroups[i].1| >= 10;
    }
  }

  lemma {:induction false} BeforeFirstOfSplit(p: string, sep: char, rest: string)
    requires sep !in p
    ensures BeforeFirst(p + [sep] + rest, sep) == p
  {
    var s := p + [sep] + rest;
    if p == [] {
      assert s[0] == sep;
    } else {
      assert s[0] == p[0] && s[1..] == p[1..] + [sep] + rest;
      BeforeFirstOfSplit(p[1..], sep, rest);
      assert p == [p[0]] + p[1..];
    }
  }

  /**
   * `c5.large --> c5` and `n1-standard-1 --> n1`: whatever precedes the
   * first separator is the label, whatever follows it is ignored.
   */
  lemma SplitRule(cloud: Option<CloudType>, p: string, rest: string)
    ensures cloud == Some(Aws) && '.' !in p ==> GroupName(cloud, p + ['.'] + rest) == p
    ensures cloud == Some(Gcp) && '-' !in p ==> GroupName(cloud, p + ['-'] + rest) == p
  {
    if cloud == Some(Aws) && '.' !in p {
      BeforeFirstOfSplit(p, '.', rest);
    }
    if cloud == Some(Gcp) && '-' !in p {
      BeforeFirstOfSplit(p, '-', rest);
    }
  }
}
