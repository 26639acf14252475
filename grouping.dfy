/**
 * `sortAndGroup`: the fetched instance types, split into labelled groups,
 * each group sorted by the natural-order comparator, the groups sorted by
 * label.
 */
module Grouping {
  import opened Wrappers
  import opened Dtos
  import opened GroupNames
  import opened NaturalOrder
  import Lex
  import Sorting

  /** One entry of the grouped option list the select box shows. */
  datatype Group = Group(groupLabel: string, options: seq<InstanceType>)

  // ---------------------------------------------------------------------
  // The order inside a group: `list.sort(comparator)`.

  /** The field's comparator, as the test a sort uses. */
  predicate OptionLe(a: InstanceType, b: InstanceType)
  {
    NaturalLe(a.instanceTypeCode, b.instanceTypeCode)
  }

  lemma OptionLeTotalPreorder()
    ensures Sorting.Total(OptionLe) && Sorting.Transitive(OptionLe)
  {
    forall x: InstanceType, y: InstanceType ensures OptionLe(x, y) || OptionLe(y, x) {
      CompareTotal(x.instanceTypeCode, y.instanceTypeCode);
    }
    forall x: InstanceType, y: InstanceType, z: InstanceType | OptionLe(x, y) && OptionLe(y, z)
      ensures OptionLe(x, z)
    {
      CompareTransitive(x.instanceTypeCode, y.instanceTypeCode, z.instanceTypeCode);
    }
  }

  /** `list.sort(comparator)`: a stable sort of one group's options. */
  function SortOptions(list: seq<InstanceType>): (r: seq<InstanceType>)
    ensures multiset(r) == multiset(list)
    ensures Sorting.SortedBy(r, OptionLe)
  {
    OptionLeTotalPreorder();
    Sorting.SortBySorted(list, OptionLe);
    Sorting.SortByPermutes(list, OptionLe);
    Sorting.SortBy(list, OptionLe)
  }

  /**
   * `list.sort` is stable: the records whose codes compare equal to any
   * given record's code keep their input order.
   */
  lemma SortOptionsStable(list: seq<InstanceType>, x: InstanceType)
    ensures Sorting.Ties(SortOptions(list), x, OptionLe) == Sorting.Ties(list, x, OptionLe)
  {
    OptionLeTotalPreorder();
    Sorting.SortByStable(list, x, OptionLe);
  }

  // ---------------------------------------------------------------------
  // The order of the groups: `_.sortBy(result, 'label')`, which compares
  // labels with JavaScript's `<` on strings, character by character.

  function Ordinals(s: string): (r: seq<int>)
    ensures |r| == |s|
    ensures forall i :: 0 <= i < |s| ==> r[i] == s[i] as int
  {
    seq(|s|, i requires 0 <= i < |s| => s[i] as int)
  }

  predicate LabelLess(a: string, b: string)
  {
    Lex.Less(Ordinals(a), Ordinals(b))
  }

  lemma LabelLessIrreflexive(a: string)
    ensures !LabelLess(a, a)
  {
    Lex.LessIrreflexive(Ordinals(a));
  }

  lemma LabelLessTransitive(a: string, b: string, c: string)
    requires LabelLess(a, b) && LabelLess(b, c)
    ensures LabelLess(a, c)
  {
    Lex.LessTransitive(Ordinals(a), Ordinals(b), Ordinals(c));
  }

  lemma LabelLessAsymmetric(a: string, b: string)
    requires LabelLess(a, b)
    ensures !LabelLess(b, a)
  {
    Lex.LessAsymmetric(Ordinals(a), Ordinals(b));
  }

  lemma LabelTrichotomy(a: string, b: string)
    ensures a == b || LabelLess(a, b) || LabelLess(b, a)
  {
    Lex.LessTrichotomy(Ordinals(a), Ordinals(b));
    if Ordinals(a) == Ordinals(b) {
      assert |a| == |b|;
      forall i | 0 <= i < |a| ensures a[i] == b[i] {
        assert Ordinals(a)[i] == Ordinals(b)[i];
      }
    }
  }

  /** lodash's ascending comparison of two groups by label. */
  predicate GroupLe(g: Group, h: Group)
  {
    !LabelLess(h.groupLabel, g.groupLabel)
  }

  lemma GroupLeTotalPreorder()
    ensures Sorting.Total(GroupLe) && Sorting.Transitive(GroupLe)
  {
    forall g: Group, h: Group ensures GroupLe(g, h) || GroupLe(h, g) {
      if LabelLess(h.groupLabel, g.groupLabel) {
        LabelLessAsymmetric(h.groupLabel, g.groupLabel);
      }
    }
    forall g: Group, h: Group, k: Group | GroupLe(g, h) && GroupLe(h, k)
      ensures GroupLe(g, k)
    {
      LabelTrichotomy(g.groupLabel, h.groupLabel);
      if LabelLess(k.groupLabel, g.groupLabel) && LabelLess(g.groupLabel, h.groupLabel) {
        LabelLessTransitive(k.groupLabel, g.groupLabel, h.groupLabel);
      }
    }
  }

  /** `_.sortBy(groups, 'label')`: a stable sort of the groups by label. */
  function SortGroups(gs: seq<Group>): (r: seq<Group>)
    ensures multiset(r) == multiset(gs)
    ensures Sorting.SortedBy(r, GroupLe)
  {
    GroupLeTotalPreorder();
    Sorting.SortBySorted(gs, GroupLe);
    Sorting.SortByPermutes(gs, GroupLe);
    Sorting.SortBy(gs, GroupLe)
  }

  // ---------------------------------------------------------------------
  // What a correct grouping is.

  /** `getGroupName`, the closure over the provider that sortAndGroup builds. */
  function NameRule(cloud: Option<CloudType>): string -> string
  {
    code => GroupName(cloud, code)
  }

  function ItemsOf(data: Option<seq<InstanceType>>): seq<InstanceType>
  {
    match data
    case None => []
    case Some(items) => items
  }

  /** The records of `items` whose group name is `name`, in input order. */
  function InGroup(items: seq<InstanceType>, nameOf: string -> string, name: string): seq<InstanceType>
  {
    if items == [] then []
    else
      var last := items[|items| - 1];
      InGroup(items[..|items| - 1], nameOf, name) + (if nameOf(last.instanceTypeCode) == name then [last] else [])
  }

  /** A group holds every copy of each record with its name, and nothing else. */
  lemma {:induction false} InGroupCount(items: seq<InstanceType>, nameOf: string -> string, name: string, x: InstanceType)
    ensures multiset(InGroup(items, nameOf, name))[x] ==
            if nameOf(x.instanceTypeCode) == name then multiset(items)[x] else 0
  {
    if items != [] {
      var last := items[|items| - 1];
      assert items == items[..|items| - 1] + [last];
      InGroupCount(items[..|items| - 1], nameOf, name, x);
    }
  }

  ghost function LabelsOf(items: seq<InstanceType>, nameOf: string -> string): set<string>
  {
    set x | x in items :: nameOf(x.instanceTypeCode)
  }

  function Labels(gs: seq<Group>): (r: seq<string>)
    ensures |r| == |gs|
    ensures forall k :: 0 <= k < |gs| ==> r[k] == gs[k].groupLabel
  {
    seq(|gs|, k requires 0 <= k < |gs| => gs[k].groupLabel)
  }

  ghost predicate StrictlySorted(labels: seq<string>)
  {
    forall i, j :: 0 <= i < j < |labels| ==> LabelLess(labels[i], labels[j])
  }

  ghost predicate DistinctLabels(gs: seq<Group>)
  {
    forall i, j :: 0 <= i < j < |gs| ==> gs[i].groupLabel != gs[j].groupLabel
  }

  /**
   * `result` is the grouping of `items` by `nameOf`: one group per group
   * name that occurs, labels strictly ascending, and each group holding
   * exactly the records with that name, sorted by the comparator.
   */
  ghost predicate IsGrouping(items: seq<InstanceType>, nameOf: string -> string, result: seq<Group>)
  {
    && StrictlySorted(Labels(result))
    && (forall n :: n in Labels(result) <==> n in LabelsOf(items, nameOf))
    && forall g :: g in result ==> g.options == SortOptions(InGroup(items, nameOf, g.groupLabel))
  }

  // ---------------------------------------------------------------------
  // The operation.

  /**
   * The state the first loop of SortAndGroup keeps: the dictionary holds one
   * list per group name seen in `prefix`, with the records of that name in
   * input order, and `names` lists its keys once each, in insertion order.
   */
  ghost predicate Breakdown(prefix: seq<InstanceType>, nameOf: string -> string,
                            groups: map<string, seq<InstanceType>>, names: seq<string>)
  {
    && (forall n :: n in groups <==> n in names)
    && (forall m, n :: 0 <= m < n < |names| ==> names[m] != names[n])
    && (forall n :: n in groups ==> groups[n] == InGroup(prefix, nameOf, n))
    && (forall n :: n in groups <==> InGroup(prefix, nameOf, n) != [])
  }

  /** `sortAndGroup(data, cloud)`: the records grouped by the provider's name rule. */
  method SortAndGroup(data: Option<seq<InstanceType>>, cloud: Option<CloudType>) returns (result: seq<Group>)
    ensures ItemsOf(data) == [] ==> result == []
    ensures IsGrouping(ItemsOf(data), NameRule(cloud), result)
  {
    if data.None? {
      return [];
    }
    var items := data.value;
    var nameOf := NameRule(cloud);
    var groups, names := BreakDownByName(items, nameOf);
    var unsorted := ToGroupList(groups, names);
    result := SortGroups(unsorted);
    SortedGroupsAreGrouping(items, nameOf, names, groups, unsorted, result);
    if items == [] {
      EmptyWithoutMembers(Labels(result));
    }
  }

  /**
   * The first loop of `sortAndGroup`: one pass over the records,
   * appending each to the dictionary entry of its group name and creating
   * the entry the first time the name is seen.
   */
  method BreakDownByName(items: seq<InstanceType>, nameOf: string -> string)
    returns (groups: map<string, seq<InstanceType>>, names: seq<string>)
    ensures Breakdown(items, nameOf, groups, names)
  {
    groups, names := map[], [];
    var i := 0;
    while i < |items|
      invariant 0 <= i <= |items|
      invariant Breakdown(items[..i], nameOf, groups, names)
    {
      var item := items[i];
      var name := nameOf(item.instanceTypeCode);
      ghost var groups0, names0 := groups, names;
      if name in groups {
        groups := groups[name := groups[name] + [item]];
      } else {
        groups := groups[name := [item]];
        names := names + [name];
      }
      BreakdownStep(items, i, nameOf, groups0, names0, groups, names);
      i := i + 1;
    }
    assert items[..i] == items;
  }

  /**
   * The second loop of `sortAndGroup`: one group per dictionary entry, in
   * entry order, each with its list sorted by the comparator.
   */
  method ToGroupList(groups: map<string, seq<InstanceType>>, names: seq<string>) returns (unsorted: seq<Group>)
    requires forall n :: n in names ==> n in groups
    ensures |unsorted| == |names|
    ensures forall k :: 0 <= k < |names| ==> unsorted[k] == Group(names[k], SortOptions(groups[names[k]]))
  {
    unsorted := [];
    var j := 0;
    while j < |names|
      invariant 0 <= j <= |names|
      invariant |unsorted| == j
      invariant forall k :: 0 <= k < j ==> unsorted[k] == Group(names[k], SortOptions(groups[names[k]]))
    {
      var name := names[j];
      var group := Group(name, SortOptions(groups[name]));
      ghost var before := unsorted;
      unsorted := unsorted + [group];
      assert forall k :: 0 <= k < j ==> unsorted[k] == before[k];
      j := j + 1;
    }
  }

  /** The dictionary update of one forEach step keeps Breakdown. */
  lemma BreakdownStep(items: seq<InstanceType>, i: nat, nameOf: string -> string,
                      groups: map<string, seq<InstanceType>>, names: seq<string>,
                      groups': map<string, seq<InstanceType>>, names': seq<string>)
    requires i < |items|
    requires Breakdown(items[..i], nameOf, groups, names)
    requires var name := nameOf(items[i].instanceTypeCode);
      if name in groups then groups' == groups[name := groups[name] + [items[i]]] && names' == names
      else groups' == groups[name := [items[i]]] && names' == names + [name]
    ensures Breakdown(items[..i + 1], nameOf, groups', names')
  {
    assert items[..i + 1] == items[..i] + [items[i]];
    if nameOf(items[i].instanceTypeCode) in groups {
      BreakdownExtend(items[..i], items[i], nameOf, groups, names, groups');
    } else {
      BreakdownAdd(items[..i], items[i], nameOf, groups, names, groups', names');
    }
  }

  /** A record whose name is already a key goes at the end of that key's list. */
  lemma BreakdownExtend(prefix: seq<InstanceType>, item: InstanceType, nameOf: string -> string,
                        groups: map<string, seq<InstanceType>>, names: seq<string>,
                        groups': map<string, seq<InstanceType>>)
    requires Breakdown(prefix, nameOf, groups, names)
    requires var name := nameOf(item.instanceTypeCode);
      name in groups && groups' == groups[name := groups[name] + [item]]
    ensures Breakdown(prefix + [item], nameOf, groups', names)
  {
    forall n ensures InGroup(prefix + [item], nameOf, n) ==
                     InGroup(prefix, nameOf, n) + (if nameOf(item.instanceTypeCode) == n then [item] else []) {
      InGroupAppend(prefix, item, nameOf, n);
    }
  }

  /** A record with a new name adds a key, listed last. */
  lemma BreakdownAdd(prefix: seq<InstanceType>, item: InstanceType, nameOf: string -> string,
                     groups: map<string, seq<InstanceType>>, names: seq<string>,
                     groups': map<string, seq<InstanceType>>, names': seq<string>)
    requires Breakdown(prefix, nameOf, groups, names)
    requires var name := nameOf(item.instanceTypeCode);
      name !in groups && groups' == groups[name := [item]] && names' == names + [name]
    ensures Breakdown(prefix + [item], nameOf, groups', names')
  {
    forall n ensures InGroup(prefix + [item], nameOf, n) ==
                     InGroup(prefix, nameOf, n) + (if nameOf(item.instanceTypeCode) == n then [item] else []) {
      InGroupAppend(prefix, item, nameOf, n);
    }
    forall m, n | 0 <= m < n < |names'| ensures names'[m] != names'[n] {
      if n == |names| {
        assert names[m] in groups;
      }
    }
  }

  /** A sequence without members is empty. */
  lemma EmptyWithoutMembers<T>(s: seq<T>)
    requires forall x :: x !in s
    ensures s == []
  {
    forall x ensures multiset(s)[x] == 0 {
      assert x !in s;
      assert x !in multiset(s);
    }
    assert multiset(s) == multiset{};
  }

  lemma InGroupAppend(prefix: seq<InstanceType>, item: InstanceType, nameOf: string -> string, n: string)
    ensures InGroup(prefix + [item], nameOf, n) ==
            InGroup(prefix, nameOf, n) + (if nameOf(item.instanceTypeCode) == n then [item] else [])
  {
    var s := prefix + [item];
    assert s[..|s| - 1] == prefix && s[|s| - 1] == item;
  }

  /** A name has a non-empty group exactly when some record carries it. */
  lemma InGroupNonEmpty(items: seq<InstanceType>, nameOf: string -> string, name: string)
    ensures InGroup(items, nameOf, name) != [] <==> name in LabelsOf(items, nameOf)
  {
    var r := InGroup(items, nameOf, name);
    if r != [] {
      InGroupCount(items, nameOf, name, r[0]);
      assert r[0] in multiset(r);
    }
    if name in LabelsOf(items, nameOf) {
      var x :| x in items && nameOf(x.instanceTypeCode) == name;
      InGroupCount(items, nameOf, name, x);
      assert x in multiset(items);
    }
  }

  lemma SortedGroupsAreGrouping(items: seq<InstanceType>, nameOf: string -> string, names: seq<string>,
                                groups: map<string, seq<InstanceType>>, unsorted: seq<Group>, result: seq<Group>)
    requires Breakdown(items, nameOf, groups, names)
    requires |unsorted| == |names|
    requires forall k :: 0 <= k < |names| ==> unsorted[k] == Group(names[k], SortOptions(groups[names[k]]))
    requires result == SortGroups(unsorted)
    ensures IsGrouping(items, nameOf, result)
  {
    SameMembers(unsorted, result);
    UnsortedLabelsDistinct(names, groups, unsorted);
    SortKeepsLabelsDistinct(unsorted);
    DistinctSortedIsStrict(result);
    ResultLabels(names, groups, unsorted, result);
    forall n ensures n in Labels(result) <==> n in LabelsOf(items, nameOf) {
      InGroupNonEmpty(items, nameOf, n);
    }
  }

  lemma UnsortedLabelsDistinct(names: seq<string>, groups: map<string, seq<InstanceType>>, unsorted: seq<Group>)
    requires forall m, n :: 0 <= m < n < |names| ==> names[m] != names[n]
    requires forall n :: n in names ==> n in groups
    requires |unsorted| == |names|
    requires forall k :: 0 <= k < |names| ==> unsorted[k] == Group(names[k], SortOptions(groups[names[k]]))
    ensures DistinctLabels(unsorted)
  {
    forall i, j | 0 <= i < j < |unsorted| ensures unsorted[i].groupLabel != unsorted[j].groupLabel {
      assert unsorted[i].groupLabel == names[i] && unsorted[j].groupLabel == names[j];
    }
  }

  lemma ResultLabels(names: seq<string>, groups: map<string, seq<InstanceType>>, unsorted: seq<Group>, result: seq<Group>)
    requires forall n :: n in names ==> n in groups
    requires |unsorted| == |names|
    requires forall k :: 0 <= k < |names| ==> unsorted[k] == Group(names[k], SortOptions(groups[names[k]]))
    requires forall g :: g in result <==> g in unsorted
    ensures forall n :: n in Labels(result) <==> n in names
    ensures forall g :: g in result ==> g.groupLabel in groups && g.options == SortOptions(groups[g.groupLabel])
  {
    forall n ensures n in Labels(result) <==> n in names {
      if n in names {
        var k :| 0 <= k < |names| && names[k] == n;
        assert unsorted[k] in result;
        var m :| 0 <= m < |result| && result[m] == unsorted[k];
        assert Labels(result)[m] == n;
      }
      if n in Labels(result) {
        var m :| 0 <= m < |result| && Labels(result)[m] == n;
        assert result[m] in unsorted;
        var k :| 0 <= k < |unsorted| && unsorted[k] == result[m];
      }
    }
    forall g | g in result ensures g.groupLabel in names && g.options == SortOptions(groups[g.groupLabel]) {
      var k :| 0 <= k < |unsorted| && unsorted[k] == g;
    }
  }

  lemma SameMembers(unsorted: seq<Group>, result: seq<Group>)
    requires result == SortGroups(unsorted)
    ensures forall g :: g in result <==> g in unsorted
  {
    forall g ensures g in result <==> g in unsorted {
      Sorting.SortByMembers(unsorted, GroupLe, g);
    }
  }

  lemma DistinctSortedIsStrict(result: seq<Group>)
    requires Sorting.SortedBy(result, GroupLe)
    requires DistinctLabels(result)
    ensures StrictlySorted(Labels(result))
  {
    forall i, j | 0 <= i < j < |result| ensures LabelLess(Labels(result)[i], Labels(result)[j]) {
      assert GroupLe(result[i], result[j]);
      LabelTrichotomy(result[i].groupLabel, result[j].groupLabel);
    }
  }

  lemma {:induction false} InsertKeepsLabelsDistinct(g: Group, s: seq<Group>)
    requires DistinctLabels(s)
    requires forall h :: h in s ==> h.groupLabel != g.groupLabel
    ensures DistinctLabels(Sorting.Insert(g, s, GroupLe))
  {
    if s != [] && !GroupLe(g, s[0]) {
      var t := Sorting.Insert(g, s[1..], GroupLe);
      assert DistinctLabels(s[1..]) by {
        forall i, j | 0 <= i < j < |s[1..]| ensures s[1..][i].groupLabel != s[1..][j].groupLabel {
          assert s[1..][i] == s[i + 1] && s[1..][j] == s[j + 1];
        }
      }
      InsertKeepsLabelsDistinct(g, s[1..]);
      InsertedLabelsDiffer(g, s, t);
      ConsKeepsLabelsDistinct(s[0], t);
    }
  }

  lemma InsertedLabelsDiffer(g: Group, s: seq<Group>, t: seq<Group>)
    requires s != [] && DistinctLabels(s) && t == Sorting.Insert(g, s[1..], GroupLe)
    requires g.groupLabel != s[0].groupLabel
    ensures forall h :: h in t ==> h.groupLabel != s[0].groupLabel
  {
    Sorting.InsertPermutes(g, s[1..], GroupLe);
    forall h | h in t ensures h.groupLabel != s[0].groupLabel {
      assert h in multiset(t);
      if h != g {
        assert h in multiset(s[1..]);
        var m :| 0 <= m < |s[1..]| && s[1..][m] == h;
        assert s[m + 1] == h;
      }
    }
  }

  lemma ConsKeepsLabelsDistinct(g: Group, t: seq<Group>)
    requires DistinctLabels(t)
    requires forall h :: h in t ==> h.groupLabel != g.groupLabel
    ensures DistinctLabels([g] + t)
  {
    var r := [g] + t;
    forall i, j | 0 <= i < j < |r| ensures r[i].groupLabel != r[j].groupLabel {
      assert r[j] == t[j - 1];
      if i > 0 {
        assert r[i] == t[i - 1];
      }
    }
  }

  lemma {:induction false} SortKeepsLabelsDistinct(s: seq<Group>)
    requires DistinctLabels(s)
    ensures DistinctLabels(Sorting.SortBy(s, GroupLe))
  {
    if s != [] {
      var t := Sorting.SortBy(s[1..], GroupLe);
      SortKeepsLabelsDistinct(s[1..]);
      forall h | h in t ensures h.groupLabel != s[0].groupLabel {
        Sorting.SortByMembers(s[1..], GroupLe, h);
        var m :| 0 <= m < |s[1..]| && s[1..][m] == h;
        assert s[m + 1] == h;
      }
      InsertKeepsLabelsDistinct(s[0], t);
    }
  }

  // ---------------------------------------------------------------------
  // What a grouping guarantees.

  /** `instanceTypes.flatMap((item) => item.options)`. */
  function Flatten(gs: seq<Group>): seq<InstanceType>
  {
    if gs == [] then [] else gs[0].options + Flatten(gs[1..])
  }

  lemma FlattenCount(items: seq<InstanceType>, nameOf: string -> string, gs: seq<Group>, x: InstanceType)
    requires DistinctLabels(gs)
    requires forall g :: g in gs ==> multiset(g.options) == multiset(InGroup(items, nameOf, g.groupLabel))
    ensures multiset(Flatten(gs))[x] == if nameOf(x.instanceTypeCode) in Labels(gs) then multiset(items)[x] else 0
  {
    var name, n := nameOf(x.instanceTypeCode), multiset(items)[x];
    forall g | g in gs ensures multiset(g.options)[x] == if g.groupLabel == name then n else 0 {
      InGroupCount(items, nameOf, g.groupLabel, x);
    }
    FlattenCountOf(gs, x, name, n);
  }

  /**
   * When each group holds `n` copies of `x` if it carries `name` and none
   * otherwise, and the labels are distinct, the groups together hold `n`
   * copies if some group carries `name` and none otherwise.
   */
  lemma {:induction false} FlattenCountOf(gs: seq<Group>, x: InstanceType, name: string, n: nat)
    requires DistinctLabels(gs)
    requires forall g :: g in gs ==> multiset(g.options)[x] == if g.groupLabel == name then n else 0
    ensures multiset(Flatten(gs))[x] == if name in Labels(gs) then n else 0
  {
    if gs != [] {
      var head, rest := gs[0], gs[1..];
      DistinctTail(gs);
      assert forall g :: g in rest ==> g in gs;
      FlattenCountOf(rest, x, name, n);
      assert head in gs;
      CombineCounts(gs, x, name, n);
    }
  }

  /** The count over all groups from the counts of the first group and of the rest. */
  lemma CombineCounts(gs: seq<Group>, x: InstanceType, name: string, n: nat)
    requires gs != []
    requires Labels(gs) == [gs[0].groupLabel] + Labels(gs[1..]) && gs[0].groupLabel !in Labels(gs[1..])
    requires multiset(gs[0].options)[x] == if gs[0].groupLabel == name then n else 0
    requires multiset(Flatten(gs[1..]))[x] == if name in Labels(gs[1..]) then n else 0
    ensures multiset(Flatten(gs))[x] == if name in Labels(gs) then n else 0
  {
    FlattenStep(gs, x);
    if name == gs[0].groupLabel {
      assert name in Labels(gs);
    } else {
      assert name in Labels(gs) <==> name in Labels(gs[1..]);
    }
  }

  lemma FlattenStep(gs: seq<Group>, x: InstanceType)
    requires gs != []
    ensures multiset(Flatten(gs))[x] == multiset(gs[0].options)[x] + multiset(Flatten(gs[1..]))[x]
  {
  }

  /** Splitting off the first group keeps the labels distinct, and its label is not among the rest. */
  lemma DistinctTail(gs: seq<Group>)
    requires gs != [] && DistinctLabels(gs)
    ensures DistinctLabels(gs[1..])
    ensures gs[0].groupLabel !in Labels(gs[1..])
    ensures Labels(gs) == [gs[0].groupLabel] + Labels(gs[1..])
  {
    var rest := gs[1..];
    forall i, j | 0 <= i < j < |rest| ensures rest[i].groupLabel != rest[j].groupLabel {
      assert rest[i] == gs[i + 1] && rest[j] == gs[j + 1];
    }
    forall k | 0 <= k < |rest| ensures Labels(rest)[k] != gs[0].groupLabel {
      assert rest[k] == gs[k + 1];
    }
  }

  /**
   * A grouping is a partition of the input: every record lies in exactly
   * one group, the one labelled with its group name; nothing is dropped or
   * duplicated; no group is empty and each is sorted by the comparator.
   */
  lemma GroupingPartition(items: seq<InstanceType>, nameOf: string -> string, result: seq<Group>)
    requires IsGrouping(items, nameOf, result)
    ensures multiset(Flatten(result)) == multiset(items)
    ensures DistinctLabels(result)
    ensures forall x :: x in items ==> nameOf(x.instanceTypeCode) in Labels(result)
    ensures forall k, x :: 0 <= k < |result| && x in items ==>
              (x in result[k].options <==> result[k].groupLabel == nameOf(x.instanceTypeCode))
    ensures forall k, o :: 0 <= k < |result| && o in result[k].options ==>
              o in items && nameOf(o.instanceTypeCode) == result[k].groupLabel
    ensures forall k :: 0 <= k < |result| ==> result[k].options != [] && Sorting.SortedBy(result[k].options, OptionLe)
  {
    assert DistinctLabels(result) by {
      forall i, j | 0 <= i < j < |result| ensures result[i].groupLabel != result[j].groupLabel {
        assert LabelLess(Labels(result)[i], Labels(result)[j]);
        LabelLessIrreflexive(result[i].groupLabel);
      }
    }
    forall g | g in result ensures multiset(g.options) == multiset(InGroup(items, nameOf, g.groupLabel)) {
      assert g.options == SortOptions(InGroup(items, nameOf, g.groupLabel));
    }
    forall x ensures multiset(Flatten(result))[x] == multiset(items)[x] {
      FlattenCount(items, nameOf, result, x);
      if x !in items {
        assert x !in multiset(items);
      }
    }
    forall k, x | 0 <= k < |result|
      ensures x in result[k].options <==> (x in items && result[k].groupLabel == nameOf(x.instanceTypeCode))
    {
      assert result[k] in result;
      InGroupCount(items, nameOf, result[k].groupLabel, x);
      assert x in result[k].options <==> x in multiset(result[k].options);
      assert x in items <==> x in multiset(items);
    }
    GroupsNonEmpty(items, nameOf, result);
  }

  /** Every group of a grouping holds at least one record. */
  lemma GroupsNonEmpty(items: seq<InstanceType>, nameOf: string -> string, result: seq<Group>)
    requires IsGrouping(items, nameOf, result)
    ensures forall k :: 0 <= k < |result| ==> result[k].options != []
  {
    forall k | 0 <= k < |result| ensures result[k].options != [] {
      var g := result[k];
      assert g in result;
      assert Labels(result)[k] in LabelsOf(items, nameOf);
      InGroupNonEmpty(items, nameOf, g.groupLabel);
      SortOptionsEmpty(InGroup(items, nameOf, g.groupLabel));
    }
  }

  lemma SortOptionsEmpty(list: seq<InstanceType>)
    ensures SortOptions(list) == [] <==> list == []
  {
    assert |SortOptions(list)| == |multiset(SortOptions(list))|;
  }

  /** The options of a grouping are exactly the fetched records. */
  lemma FlattenMembers(items: seq<InstanceType>, nameOf: string -> string, result: seq<Group>, x: InstanceType)
    requires IsGrouping(items, nameOf, result)
    ensures x in Flatten(result) <==> x in items
  {
    GroupingPartition(items, nameOf, result);
    assert x in Flatten(result) <==> x in multiset(Flatten(result));
    assert x in items <==> x in multiset(items);
  }

  lemma {:induction false} StrictlySortedUnique(a: seq<string>, b: seq<string>)
    requires StrictlySorted(a) && StrictlySorted(b)
    requires forall n :: n in a <==> n in b
    ensures a == b
  {
    if a == [] {
      EmptyWithoutMembers(b);
    } else if b == [] {
      EmptyWithoutMembers(a);
    } else {
      if a[0] != b[0] {
        assert b[0] in b && a[0] in a;
        var i :| 0 <= i < |a| && a[i] == b[0];
        var j :| 0 <= j < |b| && b[j] == a[0];
        assert LabelLess(a[0], a[i]) && LabelLess(b[0], b[j]);
        LabelLessAsymmetric(a[0], b[0]);
        assert false;
      }
      forall n ensures n in a[1..] <==> n in b[1..] {
        TailMembers(a, n);
        TailMembers(b, n);
      }
      assert StrictlySorted(a[1..]) by {
        forall i, j | 0 <= i < j < |a[1..]| ensures LabelLess(a[1..][i], a[1..][j]) {
          assert a[1..][i] == a[i + 1] && a[1..][j] == a[j + 1];
        }
      }
      assert StrictlySorted(b[1..]) by {
        forall i, j | 0 <= i < j < |b[1..]| ensures LabelLess(b[1..][i], b[1..][j]) {
          assert b[1..][i] == b[i + 1] && b[1..][j] == b[j + 1];
        }
      }
      StrictlySortedUnique(a[1..], b[1..]);
      assert a == [a[0]] + a[1..] && b == [b[0]] + b[1..];
    }
  }

  lemma TailMembers(a: seq<string>, n: string)
    requires a != [] && StrictlySorted(a)
    ensures n in a[1..] <==> n in a && n != a[0]
  {
    if n in a[1..] {
      var k :| 0 <= k < |a[1..]| && a[1..][k] == n;
      assert LabelLess(a[0], a[k + 1]);
      LabelLessIrreflexive(a[0]);
    }
    if n in a && n != a[0] {
      var k :| 0 <= k < |a| && a[k] == n;
      assert a[1..][k - 1] == n;
    }
  }

  /** The grouping of a list is unique: IsGrouping pins the result down. */
  lemma GroupingUnique(items: seq<InstanceType>, nameOf: string -> string, r1: seq<Group>, r2: seq<Group>)
    requires IsGrouping(items, nameOf, r1) && IsGrouping(items, nameOf, r2)
    ensures r1 == r2
  {
    StrictlySortedUnique(Labels(r1), Labels(r2));
    assert |r1| == |r2|;
    forall k | 0 <= k < |r1| ensures r1[k] == r2[k] {
      assert Labels(r1)[k] == Labels(r2)[k];
      assert r1[k] in r1 && r2[k] in r2;
    }
  }

  /**
   * Reordering the input changes neither the labels nor which records each
   * group holds; only the order of records the comparator ties with each
   * other can change, since the sort is stable.
   */
  lemma GroupingPermutationInvariant(items1: seq<InstanceType>, items2: seq<InstanceType>, nameOf: string -> string,
                                     r1: seq<Group>, r2: seq<Group>)
    requires multiset(items1) == multiset(items2)
    requires IsGrouping(items1, nameOf, r1) && IsGrouping(items2, nameOf, r2)
    ensures Labels(r1) == Labels(r2)
    ensures forall k :: 0 <= k < |r1| ==> multiset(r1[k].options) == multiset(r2[k].options)
  {
    assert LabelsOf(items1, nameOf) == LabelsOf(items2, nameOf) by {
      forall x ensures x in items1 <==> x in items2 {
        assert x in items1 <==> x in multiset(items1);
        assert x in items2 <==> x in multiset(items2);
      }
    }
    StrictlySortedUnique(Labels(r1), Labels(r2));
    forall k | 0 <= k < |r1| ensures multiset(r1[k].options) == multiset(r2[k].options) {
      assert Labels(r1)[k] == Labels(r2)[k];
      assert r1[k] in r1 && r2[k] in r2;
      forall x ensures multiset(r1[k].options)[x] == multiset(r2[k].options)[x] {
        InGroupCount(items1, nameOf, r1[k].groupLabel, x);
        InGroupCount(items2, nameOf, r2[k].groupLabel, x);
      }
    }
  }
}
