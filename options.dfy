/**
 * What the select box shows for an option and how the field's value is
 * mapped back to an option: `getOptionLabel`, `getOptionValue` and the
 * lookup over the grouped options.
 */
module Options {
  import opened Wrappers
  import opened Dtos
  import opened Ascii
  import NaturalOrder
  import Grouping

  /** JavaScript truthiness of an optional count: present and non-zero. */
  predicate Truthy(n: Option<nat>)
  {
    n.Some? && n.value != 0
  }

  function DigitChar(d: nat): char
    requires d < 10
  {
    ('0' as int + d) as char
  }

  /** The decimal text of a whole number, as a template literal prints it. */
  function NatToString(n: nat): (r: string)
    ensures r != [] && NaturalOrder.AllDigits(r)
    ensures r[0] == '0' ==> n == 0
    decreases n
  {
    if n < 10 then [DigitChar(n)] else NatToString(n / 10) + [DigitChar(n % 10)]
  }

  /** Printing a number and reading its digits back gives the number. */
  lemma {:induction false} NatToStringValue(n: nat)
    ensures NaturalOrder.DecimalValue(NatToString(n)) == n
  {
    if n >= 10 {
      NatToStringValue(n / 10);
      var r := NatToString(n);
      assert r[..|r| - 1] == NatToString(n / 10);
    }
  }

  lemma NatToStringInjective(m: nat, n: nat)
    requires NatToString(m) == NatToString(n)
    ensures m == n
  {
    NatToStringValue(m);
    NatToStringValue(n);
  }

  /**
   * `pluralize(word, count, true)` for the one word the field uses: the
   * count, a space, and the word with an `s` unless the count is 1.
   */
  function Pluralize(word: string, count: nat): string
  {
    NatToString(count) + (" " + (if count == 1 then word else word + "s"))
  }

  /** The text appended to a code when both its counts are known. */
  function Decoration(cores: nat, memory: nat): string
  {
    " (" + (Pluralize("core", cores) + (", " + (NatToString(memory) + "GB RAM)")))
  }

  /** Both counts of `option` are truthy, so its label shows them. */
  predicate Decorated(option: InstanceType)
  {
    Truthy(option.numCores) && Truthy(option.memSizeGB)
  }

  /**
   * `getOptionLabel`: the code, followed by the core count and memory size
   * when both are known and non-zero.
   */
  function GetOptionLabel(option: InstanceType): (r: string)
    ensures option.instanceTypeCode <= r
    ensures r == option.instanceTypeCode <==> !Decorated(option)
  {
    if Decorated(option) then
      option.instanceTypeCode + Decoration(option.numCores.value, option.memSizeGB.value)
    else option.instanceTypeCode
  }

  lemma DropPrefix<T>(a: seq<T>, b: seq<T>)
    ensures (a + b)[|a|..] == b
  {
  }

  lemma Associate<T>(a: seq<T>, b: seq<T>, c: seq<T>)
    ensures (a + b) + c == a + (b + c)
  {
  }

  lemma AllDigitsRun(d: string)
    requires NaturalOrder.AllDigits(d)
    ensures NaturalOrder.DigitRunLength(d) == |d|
  {
  }

  /** A run of digits followed by a non-digit splits off in one way only. */
  lemma DigitsSplitUnique(d1: string, t1: string, d2: string, t2: string)
    requires NaturalOrder.AllDigits(d1) && NaturalOrder.AllDigits(d2)
    requires t1 != [] && !IsDigit(t1[0]) && t2 != [] && !IsDigit(t2[0])
    requires d1 + t1 == d2 + t2
    ensures d1 == d2 && t1 == t2
  {
    NaturalOrder.DigitRunPrefix(d1, t1);
    NaturalOrder.DigitRunPrefix(d2, t2);
    AllDigitsRun(d1);
    AllDigitsRun(d2);
    assert d1 == (d1 + t1)[..|d1|] && d2 == (d2 + t2)[..|d2|];
    DropPrefix(d1, t1);
    DropPrefix(d2, t2);
  }

  /** The decoration can be read back: it determines both counts. */
  lemma DecorationInjective(c1: nat, m1: nat, c2: nat, m2: nat)
    requires Decoration(c1, m1) == Decoration(c2, m2)
    ensures c1 == c2 && m1 == m2
  {
    var w1 := " " + (if c1 == 1 then "core" else "core" + "s");
    var w2 := " " + (if c2 == 1 then "core" else "core" + "s");
    var t1 := ", " + (NatToString(m1) + "GB RAM)");
    var t2 := ", " + (NatToString(m2) + "GB RAM)");
    assert Decoration(c1, m1) == " (" + (Pluralize("core", c1) + t1);
    assert Decoration(c2, m2) == " (" + (Pluralize("core", c2) + t2);
    DropPrefix(" (", Pluralize("core", c1) + t1);
    DropPrefix(" (", Pluralize("core", c2) + t2);
    assert Pluralize("core", c1) + t1 == Pluralize("core", c2) + t2;
    assert (w1 + t1)[0] == ' ' && (w2 + t2)[0] == ' ';
    Associate(NatToString(c1), w1, t1);
    Associate(NatToString(c2), w2, t2);
    DigitsSplitUnique(NatToString(c1), w1 + t1, NatToString(c2), w2 + t2);
    NatToStringInjective(c1, c2);
    DropPrefix(w1, t1);
    DropPrefix(w2, t2);
    DropPrefix(", ", NatToString(m1) + "GB RAM)");
    DropPrefix(", ", NatToString(m2) + "GB RAM)");
    DigitsSplitUnique(NatToString(m1), "GB RAM)", NatToString(m2), "GB RAM)");
    NatToStringInjective(m1, m2);
  }

  /**
   * Two options with the same code get the same label exactly when both
   * are undecorated or both show the same core count and memory size.
   */
  lemma LabelDeterminesCounts(o1: InstanceType, o2: InstanceType)
    requires o1.instanceTypeCode == o2.instanceTypeCode
    ensures GetOptionLabel(o1) == GetOptionLabel(o2) <==>
            (!Decorated(o1) && !Decorated(o2)) ||
            (Decorated(o1) && Decorated(o2) && o1.numCores == o2.numCores && o1.memSizeGB == o2.memSizeGB)
  {
    var code := o1.instanceTypeCode;
    if GetOptionLabel(o1) == GetOptionLabel(o2) && Decorated(o1) && Decorated(o2) {
      var d1 := Decoration(o1.numCores.value, o1.memSizeGB.value);
      var d2 := Decoration(o2.numCores.value, o2.memSizeGB.value);
      DropPrefix(code, d1);
      DropPrefix(code, d2);
      DecorationInjective(o1.numCores.value, o1.memSizeGB.value, o2.numCores.value, o2.memSizeGB.value);
    }
  }

  /** `pluralize('core', n, true)`: `1 core`, `2 cores`, `0 cores`. */
  lemma PluralizeExamples()
    ensures Pluralize("core", 1) == "1 core"
    ensures Pluralize("core", 2) == "2 cores"
    ensures Pluralize("core", 0) == "0 cores"
  {
    assert NatToString(1) == "1" && NatToString(2) == "2" && NatToString(0) == "0";
  }

  /** A missing or zero count leaves the bare code. */
  lemma BareLabelExamples()
    ensures GetOptionLabel(InstanceType("c5.large", Some(2), None)) == "c5.large"
    ensures GetOptionLabel(InstanceType("c5.large", Some(0), Some(4))) == "c5.large"
  {
  }

  /** `getOptionValue`: an option is identified by its code. */
  function GetOptionValue(option: InstanceType): string
  {
    option.instanceTypeCode
  }

  /** Position `i` is the first option whose code is the field value. */
  predicate IsFirstWithCode(options: seq<InstanceType>, value: Option<string>, i: int)
  {
    0 <= i < |options| && Some(options[i].instanceTypeCode) == value &&
    forall j :: 0 <= j < i ==> Some(options[j].instanceTypeCode) != value
  }

  /**
   * `options.find((item) => item.instanceTypeCode === value) || null`; a
   * field value of `undefined` equals no code.
   */
  function FindByCode(options: seq<InstanceType>, value: Option<string>): (r: Option<InstanceType>)
    ensures r.None? <==> forall i :: 0 <= i < |options| ==> Some(options[i].instanceTypeCode) != value
    ensures r.Some? ==> exists i :: IsFirstWithCode(options, value, i) && r.value == options[i]
  {
    if options == [] then None
    else if Some(options[0].instanceTypeCode) == value then
      assert IsFirstWithCode(options, value, 0);
      Some(options[0])
    else
      var r := FindByCode(options[1..], value);
      assert r.Some? ==> exists i :: IsFirstWithCode(options, value, i) && r.value == options[i] by {
        if r.Some? {
          var i :| IsFirstWithCode(options[1..], value, i) && r.value == options[1..][i];
          forall j | 1 <= j < i + 1 ensures Some(options[j].instanceTypeCode) != value {
            assert options[j] == options[1..][j - 1];
          }
          assert IsFirstWithCode(options, value, i + 1);
        }
      }
      assert r.None? ==> forall i :: 1 <= i < |options| ==> Some(options[i].instanceTypeCode) != value by {
        if r.None? {
          forall i | 1 <= i < |options| ensures Some(options[i].instanceTypeCode) != value {
            assert options[i] == options[1..][i - 1];
          }
        }
      }
      r
  }

  /** The `value` the select box is given: the option whose code is the field's value. */
  function SelectedOption(groups: seq<Grouping.Group>, value: Option<string>): Option<InstanceType>
  {
    FindByCode(Grouping.Flatten(groups), value)
  }

  /**
   * Over a grouping of the fetched list, the field value selects an option
   * exactly when some fetched record has that code; the option found is one
   * of the fetched records.
   */
  lemma SelectedOptionOfGrouping(items: seq<InstanceType>, nameOf: string -> string,
                                 result: seq<Grouping.Group>, value: Option<string>)
    requires Grouping.IsGrouping(items, nameOf, result)
    ensures SelectedOption(result, value).Some? <==> exists x :: x in items && Some(x.instanceTypeCode) == value
    ensures SelectedOption(result, value).Some? ==>
              SelectedOption(result, value).value in items &&
              Some(SelectedOption(result, value).value.instanceTypeCode) == value
  {
    var flat := Grouping.Flatten(result);
    forall x ensures x in flat <==> x in items {
      Grouping.FlattenMembers(items, nameOf, result, x);
    }
    var r := SelectedOption(result, value);
    if exists x :: x in items && Some(x.instanceTypeCode) == value {
      var x :| x in items && Some(x.instanceTypeCode) == value;
      var i :| 0 <= i < |flat| && flat[i] == x;
    }
    if r.Some? {
      var i :| IsFirstWithCode(flat, value, i) && r.value == flat[i];
    }
  }

  /**
   * Choosing an option stores its code, and the lookup then finds an
   * option with that code: the first one in the grouped list.
   */
  lemma SelectionRoundTrip(groups: seq<Grouping.Group>, option: InstanceType)
    requires option in Grouping.Flatten(groups)
    ensures SelectedOption(groups, Some(GetOptionValue(option))).Some?
    ensures SelectedOption(groups, Some(GetOptionValue(option))).value.instanceTypeCode == option.instanceTypeCode
  {
    var flat := Grouping.Flatten(groups);
    var r := SelectedOption(groups, Some(GetOptionValue(option)));
    var i :| 0 <= i < |flat| && flat[i] == option;
    if r.Some? {
      var k :| IsFirstWithCode(flat, Some(GetOptionValue(option)), k) && r.value == flat[k];
    }
  }

  /** An unset field value selects nothing: `undefined` equals no code. */
  lemma UnsetValueSelectsNothing(groups: seq<Grouping.Group>)
    ensures SelectedOption(groups, None) == None
  {
  }
}
