/**
 * Worked instances of `sortAndGroup`: the ordering inside a group and the
 * grouping of a small AWS list.
 */
module GroupingExamples {
  import opened Wrappers
  import opened Dtos
  import opened NaturalOrder
  import opened Ascii
  import opened Grouping
  import GroupNames

  /** A record that carries only its code. */
  function Bare(code: string): InstanceType
  {
    InstanceType(code, None, None)
  }

  /** Digit runs compare by value: `a2` sorts before `a10` and `a12`. */
  lemma NumericRunsOrder()
    ensures Compare("a1", "a2") < 0 && Compare("a2", "a10") < 0 && Compare("a10", "a12") < 0
    ensures !NaturalLe("a2", "a1") && !NaturalLe("a10", "a2") && !NaturalLe("a12", "a10")
  {
    assert "a1" == "a" + "1" && "a2" == "a" + "2";
    assert "a10" == "a" + "10" && "a12" == "a" + "12";
    assert DecimalValue("10") == 10 && DecimalValue("12") == 12 by {
      assert "10"[..1] == "1" && "12"[..1] == "1";
    }
    DigitRunsCompareByValue("a", "1", "2");
    DigitRunsCompareByValue("a", "2", "10");
    DigitRunsCompareByValue("a", "10", "12");
    CompareAntisymmetric("a1", "a2");
    CompareAntisymmetric("a2", "a10");
    CompareAntisymmetric("a10", "a12");
  }

  lemma InsertSkips<T>(x: T, y: T, s: seq<T>, le: (T, T) -> bool)
    requires !le(x, y)
    ensures Sorting.Insert(x, [y] + s, le) == [y] + Sorting.Insert(x, s, le)
  {
    assert ([y] + s)[1..] == s;
  }

  lemma SortStep<T>(x: T, s: seq<T>, le: (T, T) -> bool)
    ensures Sorting.SortBy([x] + s, le) == Sorting.Insert(x, Sorting.SortBy(s, le), le)
  {
    assert ([x] + s)[1..] == s;
  }

  lemma SortTwo<T>(a12: T, a1: T, le: (T, T) -> bool)
    requires !le(a12, a1)
    ensures Sorting.SortBy([a12, a1], le) == [a1, a12]
  {
    assert [a1] == [a1] + [];
    SortStep(a1, [], le);
    assert [a12, a1] == [a12] + [a1];
    SortStep(a12, [a1], le);
    InsertSkips(a12, a1, [], le);
  }

  lemma SortThree<T>(a2: T, a12: T, a1: T, le: (T, T) -> bool)
    requires !le(a12, a1) && !le(a2, a1) && le(a2, a12)
    ensures Sorting.SortBy([a2, a12, a1], le) == [a1, a2, a12]
  {
    SortTwo(a12, a1, le);
    assert [a1, a12] == [a1] + [a12];
    InsertSkips(a2, a1, [a12], le);
    assert [a2, a12, a1] == [a2] + [a12, a1];
    SortStep(a2, [a12, a1], le);
  }

  lemma InsertThird<T>(a10: T, a1: T, a2: T, a12: T, le: (T, T) -> bool)
    requires !le(a10, a1) && !le(a10, a2) && le(a10, a12)
    ensures Sorting.Insert(a10, [a1, a2, a12], le) == [a1, a2, a10, a12]
  {
    var last := Sorting.Insert(a10, [a12], le);
    assert last == [a10, a12];
    assert [a2, a12] == [a2] + [a12];
    InsertSkips(a10, a2, [a12], le);
    var middle := Sorting.Insert(a10, [a2, a12], le);
    assert middle == [a2] + last;
    assert [a1, a2, a12] == [a1] + [a2, a12];
    InsertSkips(a10, a1, [a2, a12], le);
    assert Sorting.Insert(a10, [a1, a2, a12], le) == [a1] + middle;
    assert [a1] + ([a2] + [a10, a12]) == [a1, a2, a10, a12];
  }

  /** The insertion steps that sort `a10, a2, a12, a1`, for any order that ranks them so. */
  lemma SortFour<T>(a10: T, a2: T, a12: T, a1: T, le: (T, T) -> bool)
    requires !le(a12, a1) && !le(a2, a1) && le(a2, a12)
    requires !le(a10, a1) && !le(a10, a2) && le(a10, a12)
    ensures Sorting.SortBy([a10, a2, a12, a1], le) == [a1, a2, a10, a12]
  {
    assert [a10, a2, a12, a1] == [a10] + [a2, a12, a1];
    SortThree(a2, a12, a1, le);
    InsertThird(a10, a1, a2, a12, le);
    SortStep(a10, [a2, a12, a1], le);
  }

  /** `['a10', 'a2', 'a12', 'a1'] --> ['a1', 'a2', 'a10', 'a12']`. */
  lemma NumericSortExample()
    ensures SortOptions([Bare("a10"), Bare("a2"), Bare("a12"), Bare("a1")])
         == [Bare("a1"), Bare("a2"), Bare("a10"), Bare("a12")]
  {
    NumericOptionOrder();
    SortFour(Bare("a10"), Bare("a2"), Bare("a12"), Bare("a1"), OptionLe);
  }

  /** The comparator facts the sort of `a10, a2, a12, a1` consults. */
  lemma NumericOptionOrder()
    ensures !OptionLe(Bare("a12"), Bare("a1")) && !OptionLe(Bare("a2"), Bare("a1"))
    ensures !OptionLe(Bare("a10"), Bare("a1")) && !OptionLe(Bare("a10"), Bare("a2"))
    ensures OptionLe(Bare("a2"), Bare("a12")) && OptionLe(Bare("a10"), Bare("a12"))
  {
    NumericRunsOrder();
    TwoBeforeTwelve();
    OneBeforeTens();
  }

  lemma TwoBeforeTwelve()
    ensures NaturalLe("a2", "a12")
  {
    assert "a12" == "a" + "12" && "a2" == "a" + "2";
    assert DecimalValue("12") == 12 by { assert "12"[..1] == "1"; }
    DigitRunsCompareByValue("a", "2", "12");
  }

  lemma OneBeforeTens()
    ensures !NaturalLe("a12", "a1") && !NaturalLe("a10", "a1")
  {
    assert "a12" == "a" + "12" && "a1" == "a" + "1" && "a10" == "a" + "10";
    assert DecimalValue("12") == 12 && DecimalValue("10") == 10 by {
      assert "12"[..1] == "1" && "10"[..1] == "1";
    }
    DigitRunsCompareByValue("a", "1", "12");
    DigitRunsCompareByValue("a", "1", "10");
    CompareAntisymmetric("a1", "a12");
    CompareAntisymmetric("a1", "a10");
  }

  /** Within `c5`, a size starting with a digit sorts before one starting with a letter. */
  lemma SizeDigitBeforeLetter()
    ensures Compare("c5.2xlarge", "c5.large") < 0 && !NaturalLe("c5.large", "c5.2xlarge")
  {
    assert "c5.2xlarge" == "c5." + "2xlarge" && "c5.large" == "c5." + "large";
    DigitBeforeLetter("c5.", "2xlarge", "large");
    CompareAntisymmetric("c5.2xlarge", "c5.large");
  }

  /** Codes that differ only in case compare equal. */
  lemma CaseTie()
    ensures Compare("A1", "a1") == 0 && Compare("a1", "A1") == 0
  {
    CompareIgnoresCase("A1");
    assert LowerString("A1") == "a1";
    CompareAntisymmetric("A1", "a1");
  }

  /**
   * The sort is stable, so records the comparator ties keep their input
   * order: the two orders of `A1` and `a1` give two different groups.
   */
  lemma TiesKeepInputOrder()
    ensures SortOptions([Bare("A1"), Bare("a1")]) == [Bare("A1"), Bare("a1")]
    ensures SortOptions([Bare("a1"), Bare("A1")]) == [Bare("a1"), Bare("A1")]
  {
    CaseTie();
    SortPairInOrder(Bare("A1"), Bare("a1"), OptionLe);
    SortPairInOrder(Bare("a1"), Bare("A1"), OptionLe);
  }

  lemma SortPairInOrder<T>(a: T, b: T, le: (T, T) -> bool)
    requires le(a, b)
    ensures Sorting.SortBy([a, b], le) == [a, b]
  {
    assert [b] == [b] + [];
    SortStep(b, [], le);
    assert [a, b] == [a] + [b];
    SortStep(a, [b], le);
  }

  lemma SortSingle<T>(a: T, le: (T, T) -> bool)
    ensures Sorting.SortBy([a], le) == [a]
  {
    assert [a] == [a] + [];
    SortStep(a, [], le);
  }

  lemma InGroupOfThree(x: InstanceType, y: InstanceType, z: InstanceType, nameOf: string -> string, p: string, q: string)
    requires nameOf(x.instanceTypeCode) == p && nameOf(z.instanceTypeCode) == p && nameOf(y.instanceTypeCode) == q
    requires p != q
    ensures InGroup([x, y, z], nameOf, p) == [x, z]
    ensures InGroup([x, y, z], nameOf, q) == [y]
  {
    assert [x, y, z][..2] == [x, y] && [x, y][..1] == [x] && [x][..0] == [];
    assert InGroup([x], nameOf, p) == [x] && InGroup([x], nameOf, q) == [];
    assert InGroup([x, y], nameOf, p) == [x] && InGroup([x, y], nameOf, q) == [y];
  }

  /**
   * Three records `x, y, z` where `x` and `z` share the name `p`, `y` has
   * the name `q` and `p` sorts before `q`: two groups, `p` holding `x, z`.
   */
  lemma GroupingOfThree(x: InstanceType, y: InstanceType, z: InstanceType, nameOf: string -> string, p: string, q: string)
    requires nameOf(x.instanceTypeCode) == p && nameOf(z.instanceTypeCode) == p && nameOf(y.instanceTypeCode) == q
    requires LabelLess(p, q) && OptionLe(x, z)
    ensures IsGrouping([x, y, z], nameOf, [Group(p, [x, z]), Group(q, [y])])
  {
    var items := [x, y, z];
    var result := [Group(p, [x, z]), Group(q, [y])];
    LabelLessIrreflexive(p);
    InGroupOfThree(x, y, z, nameOf, p, q);
    SortPairInOrder(x, z, OptionLe);
    SortSingle(y, OptionLe);
    assert Labels(result) == [p, q];
    assert LabelsOf(items, nameOf) == {p, q};
  }

  /** `c5.large`, `m5.large`, `c5.xlarge` on AWS: groups `c5` and `m5`. */
  lemma AwsGroupingExample()
    ensures IsGrouping([Bare("c5.large"), Bare("m5.large"), Bare("c5.xlarge")], NameRule(Some(Aws)),
                       [Group("c5", [Bare("c5.large"), Bare("c5.xlarge")]), Group("m5", [Bare("m5.large")])])
  {
    AwsNames();
    AwsOrder();
    GroupingOfThree(Bare("c5.large"), Bare("m5.large"), Bare("c5.xlarge"), NameRule(Some(Aws)), "c5", "m5");
  }

  lemma AwsNames()
    ensures NameRule(Some(Aws))("c5.large") == "c5"
    ensures NameRule(Some(Aws))("m5.large") == "m5"
    ensures NameRule(Some(Aws))("c5.xlarge") == "c5"
  {
    assert "c5.large" == "c5" + ['.'] + "large" && "m5.large" == "m5" + ['.'] + "large";
    assert "c5.xlarge" == "c5" + ['.'] + "xlarge";
    GroupNames.SplitRule(Some(Aws), "c5", "large");
    GroupNames.SplitRule(Some(Aws), "m5", "large");
    GroupNames.SplitRule(Some(Aws), "c5", "xlarge");
  }

  /** After any common prefix, the first differing letters decide, ignoring case. */
  lemma LetterDecides(p: string, a: string, b: string)
    requires a != [] && b != [] && IsLetter(a[0]) && IsLetter(b[0]) && Lower(a[0]) < Lower(b[0])
    ensures Compare(p + a, p + b) < 0
  {
    KeyAppend(p, a);
    KeyAppend(p, b);
    LessCommonPrefix(Key(p), Key(a), Key(b));
    assert Token(a) == [LetterRank, Lower(a[0]) as int];
    assert Token(b) == [LetterRank, Lower(b[0]) as int];
  }

  lemma AwsOrder()
    ensures LabelLess("c5", "m5")
    ensures OptionLe(Bare("c5.large"), Bare("c5.xlarge"))
  {
    assert Ordinals("c5")[0] == 'c' as int && Ordinals("m5")[0] == 'm' as int;
    assert "c5.large" == "c5." + "large" && "c5.xlarge" == "c5." + "xlarge";
    LetterDecides("c5.", "large", "xlarge");
  }
}
