/**
 * The dictionary `sortAndGroup` actually builds: a plain JavaScript object
 * `{}`. Such an object has its own properties and a prototype, reached
 * through the inherited `__proto__` accessor. Reading `groups['__proto__']`
 * returns the prototype, and assigning an array to it makes that array the
 * prototype instead of adding an own property. `Object.entries` lists own
 * properties only. This module models the first loop and the entry listing
 * over that object and compares the outcome with the grouping.
 */
module PlainObject {
  import opened Wrappers
  import opened Dtos
  import opened Grouping
  import GroupNames

  /** The property name through which a plain object reaches its prototype. */
  const ProtoKey: string := "__proto__"

  /** The prototype of the dictionary: `Object.prototype`, or an array assigned to `__proto__`. */
  datatype Prototype = ObjectPrototype | ArrayPrototype(elements: seq<InstanceType>)

  /**
   * A plain object whose own properties are arrays of records: their values,
   * their keys in insertion order, and the prototype.
   */
  datatype Dictionary = Dictionary(own: map<string, seq<InstanceType>>, keys: seq<string>, proto: Prototype)

  /** The object literal `{}`. */
  function EmptyObject(): (d: Dictionary)
    ensures d.own == map[] && d.keys == [] && d.proto == ObjectPrototype
  {
    Dictionary(map[], [], ObjectPrototype)
  }

  /**
   * `groups[key]` when `Array.isArray` holds of it. `__proto__` reads the
   * prototype. An own key reads its array. Any other key falls through to
   * the prototype chain, where no property is an array of records: the
   * members of `Object.prototype` are functions, and the properties of an
   * array prototype are its elements, its length and its methods.
   */
  function ArrayAt(d: Dictionary, key: string): (r: Option<seq<InstanceType>>)
    ensures key != ProtoKey ==> (r.Some? <==> key in d.own)
    ensures key == ProtoKey ==> (r.Some? <==> d.proto.ArrayPrototype?)
  {
    if key == ProtoKey then
      match d.proto
      case ArrayPrototype(elements) => Some(elements)
      case ObjectPrototype => None
    else if key in d.own then Some(d.own[key])
    else None
  }

  /**
   * `groups[key] = list`, and equally `groups[key].push(item)` on the array
   * that `groups[key]` reaches. Assigning to `__proto__` replaces the
   * prototype; any other key sets an own property, created last when new.
   */
  function Assign(d: Dictionary, key: string, list: seq<InstanceType>): (r: Dictionary)
    ensures ArrayAt(r, key) == Some(list)
    ensures key == ProtoKey ==> r.own == d.own && r.keys == d.keys
    ensures key != ProtoKey ==> r.proto == d.proto && r.own == d.own[key := list]
    ensures key != ProtoKey ==> r.keys == if key in d.own then d.keys else d.keys + [key]
  {
    if key == ProtoKey then d.(proto := ArrayPrototype(list))
    else if key in d.own then d.(own := d.own[key := list])
    else d.(own := d.own[key := list], keys := d.keys + [key])
  }

  /** Assigning to one key leaves what every other key reads unchanged. */
  lemma AssignFrame(d: Dictionary, key: string, list: seq<InstanceType>, k: string)
    requires k != key
    ensures ArrayAt(Assign(d, key, list), k) == ArrayAt(d, k)
  {
  }

  /** The records of `items` whose group name is not `key`, in input order. */
  function Without(items: seq<InstanceType>, nameOf: string -> string, key: string): seq<InstanceType>
  {
    if items == [] then []
    else
      var last := items[|items| - 1];
      Without(items[..|items| - 1], nameOf, key) + (if nameOf(last.instanceTypeCode) != key then [last] else [])
  }

  lemma WithoutAppend(prefix: seq<InstanceType>, item: InstanceType, nameOf: string -> string, key: string)
    ensures nameOf(item.instanceTypeCode) != key ==> Without(prefix + [item], nameOf, key) == Without(prefix, nameOf, key) + [item]
    ensures nameOf(item.instanceTypeCode) == key ==> Without(prefix + [item], nameOf, key) == Without(prefix, nameOf, key)
  {
    var s := prefix + [item];
    assert s[..|s| - 1] == prefix && s[|s| - 1] == item;
    var w := Without(prefix, nameOf, key);
    assert w + [] == w;
  }

  /** Leaving out the name `key` empties its group and leaves the others alone. */
  lemma {:induction false} WithoutInGroup(items: seq<InstanceType>, nameOf: string -> string, key: string, n: string)
    ensures InGroup(Without(items, nameOf, key), nameOf, n) == if n == key then [] else InGroup(items, nameOf, n)
  {
    if items != [] {
      var prefix, last := items[..|items| - 1], items[|items| - 1];
      WithoutInGroup(prefix, nameOf, key, n);
      assert items == prefix + [last];
      InGroupAppend(prefix, last, nameOf, n);
      WithoutAppend(prefix, last, nameOf, key);
      if nameOf(last.instanceTypeCode) != key {
        InGroupAppend(Without(prefix, nameOf, key), last, nameOf, n);
      } else {
        assert Without(items, nameOf, key) == Without(prefix, nameOf, key);
      }
    }
  }

  /** A record is kept exactly when it is in `items` and its name is not `key`. */
  lemma {:induction false} WithoutMembers(items: seq<InstanceType>, nameOf: string -> string, key: string, x: InstanceType)
    ensures x in Without(items, nameOf, key) <==> x in items && nameOf(x.instanceTypeCode) != key
  {
    if items != [] {
      var prefix, last := items[..|items| - 1], items[|items| - 1];
      WithoutMembers(prefix, nameOf, key, x);
      assert items == prefix + [last];
    }
  }

  /**
   * The prototype after the records of `prefix`: `Object.prototype` while
   * no record named `__proto__` has been seen, and afterwards the array of
   * those records, in input order.
   */
  function ProtoAfter(prefix: seq<InstanceType>, nameOf: string -> string): Prototype
  {
    var named := InGroup(prefix, nameOf, ProtoKey);
    if named == [] then ObjectPrototype else ArrayPrototype(named)
  }

  /**
   * What the as-written first loop leaves after `prefix`: the own
   * properties are the dictionary of the records not named `__proto__`, and
   * the records named `__proto__` form the array that is now the prototype.
   */
  ghost predicate AsWritten(prefix: seq<InstanceType>, nameOf: string -> string, d: Dictionary)
  {
    Breakdown(Without(prefix, nameOf, ProtoKey), nameOf, d.own, d.keys) && d.proto == ProtoAfter(prefix, nameOf)
  }

  /**
   * The `forEach` of `sortAndGroup` over the plain object: push onto
   * `groups[name]` when `Array.isArray` holds of it, otherwise assign
   * `[item]` to it.
   */
  method BreakDownAsWritten(items: seq<InstanceType>, nameOf: string -> string) returns (d: Dictionary)
    ensures AsWritten(items, nameOf, d)
  {
    d := EmptyObject();
    ghost var kept: seq<InstanceType> := [];
    var i := 0;
    while i < |items|
      invariant 0 <= i <= |items|
      invariant kept == Without(items[..i], nameOf, ProtoKey)
      invariant Breakdown(kept, nameOf, d.own, d.keys)
      invariant d.proto == ProtoAfter(items[..i], nameOf)
    {
      var item := items[i];
      var name := nameOf(item.instanceTypeCode);
      var current := ArrayAt(d, name);
      ghost var d0 := d;
      if current.Some? {
        d := Assign(d, name, current.value + [item]);
      } else {
        d := Assign(d, name, [item]);
      }
      TakeOneMore(items, i);
      WithoutAppend(items[..i], item, nameOf, ProtoKey);
      ProtoStep(items[..i], item, nameOf, d0, d);
      if name != ProtoKey {
        OwnKeyStep(kept, item, nameOf, d0, d);
        kept := kept + [item];
      }
      i := i + 1;
    }
    assert items[..i] == items;
  }

  lemma TakeOneMore<T>(s: seq<T>, i: nat)
    requires i < |s|
    ensures s[..i + 1] == s[..i] + [s[i]]
  {
  }

  /** A record with an ordinary name updates the own properties as the dictionary step does. */
  lemma OwnKeyStep(kept: seq<InstanceType>, item: InstanceType, nameOf: string -> string, d: Dictionary, d': Dictionary)
    requires Breakdown(kept, nameOf, d.own, d.keys)
    requires var name := nameOf(item.instanceTypeCode);
      var current := ArrayAt(d, name);
      name != ProtoKey && d' == Assign(d, name, if current.Some? then current.value + [item] else [item])
    ensures Breakdown(kept + [item], nameOf, d'.own, d'.keys)
  {
    if nameOf(item.instanceTypeCode) in d.own {
      BreakdownExtend(kept, item, nameOf, d.own, d.keys, d'.own);
    } else {
      BreakdownAdd(kept, item, nameOf, d.own, d.keys, d'.own, d'.keys);
    }
  }

  /**
   * One record and the prototype: a record named `__proto__` goes onto the
   * prototype array, any other record leaves the prototype as it was.
   */
  lemma ProtoStep(prefix: seq<InstanceType>, item: InstanceType, nameOf: string -> string, d: Dictionary, d': Dictionary)
    requires d.proto == ProtoAfter(prefix, nameOf)
    requires var name := nameOf(item.instanceTypeCode);
      var current := ArrayAt(d, name);
      d' == Assign(d, name, if current.Some? then current.value + [item] else [item])
    ensures d'.proto == ProtoAfter(prefix + [item], nameOf)
    ensures nameOf(item.instanceTypeCode) == ProtoKey ==> d'.own == d.own && d'.keys == d.keys
  {
    InGroupAppend(prefix, item, nameOf, ProtoKey);
  }

  /**
   * `sortAndGroup` as written: the as-written first loop, then one group
   * per entry that `Object.entries` lists, that is per own property, then
   * the sort by label. The result is the grouping of the records whose name
   * is not `__proto__`.
   */
  method SortAndGroupAsWritten(data: Option<seq<InstanceType>>, cloud: Option<CloudType>) returns (result: seq<Group>)
    ensures IsGrouping(Without(ItemsOf(data), NameRule(cloud), ProtoKey), NameRule(cloud), result)
  {
    if data.None? {
      return [];
    }
    var items := data.value;
    var nameOf := NameRule(cloud);
    var d := BreakDownAsWritten(items, nameOf);
    var unsorted := ToGroupList(d.own, d.keys);
    result := SortGroups(unsorted);
    SortedGroupsAreGrouping(Without(items, nameOf, ProtoKey), nameOf, d.keys, d.own, unsorted, result);
  }

  /**
   * The as-written result against the grouping: a record named
   * `__proto__` is in no group of the as-written result and in no label of
   * it, but it is in the grouping.
   */
  lemma PlainObjectDropsProto(items: seq<InstanceType>, nameOf: string -> string,
                              written: seq<Group>, corrected: seq<Group>, x: InstanceType)
    requires IsGrouping(Without(items, nameOf, ProtoKey), nameOf, written)
    requires IsGrouping(items, nameOf, corrected)
    requires x in items && nameOf(x.instanceTypeCode) == ProtoKey
    ensures x !in Flatten(written) && ProtoKey !in Labels(written)
    ensures x in Flatten(corrected) && ProtoKey in Labels(corrected)
  {
    var kept := Without(items, nameOf, ProtoKey);
    FlattenMembers(kept, nameOf, written, x);
    WithoutMembers(items, nameOf, ProtoKey, x);
    if ProtoKey in LabelsOf(kept, nameOf) {
      var y :| y in kept && nameOf(y.instanceTypeCode) == ProtoKey;
      WithoutMembers(items, nameOf, ProtoKey, y);
    }
    FlattenMembers(items, nameOf, corrected, x);
  }

  /** Without a record named `__proto__`, the as-written result is the grouping. */
  lemma AsWrittenAgreesWithoutProto(items: seq<InstanceType>, nameOf: string -> string,
                                    written: seq<Group>, corrected: seq<Group>)
    requires IsGrouping(Without(items, nameOf, ProtoKey), nameOf, written)
    requires IsGrouping(items, nameOf, corrected)
    requires forall x :: x in items ==> nameOf(x.instanceTypeCode) != ProtoKey
    ensures written == corrected
  {
    WithoutAll(items, nameOf, ProtoKey);
    GroupingUnique(items, nameOf, written, corrected);
  }

  lemma {:induction false} WithoutAll(items: seq<InstanceType>, nameOf: string -> string, key: string)
    requires forall x :: x in items ==> nameOf(x.instanceTypeCode) != key
    ensures Without(items, nameOf, key) == items
  {
    if items != [] {
      var prefix, last := items[..|items| - 1], items[|items| - 1];
      assert items == prefix + [last];
      forall x | x in prefix ensures nameOf(x.instanceTypeCode) != key {
        assert x in items;
      }
      WithoutAll(prefix, nameOf, key);
      assert last in items;
      WithoutAppend(prefix, last, nameOf, key);
    }
  }

  /** The AWS code `__proto__.large` names the group `__proto__`. */
  lemma ProtoCodeExample()
    ensures NameRule(Some(Aws))("__proto__.large") == ProtoKey
  {
    assert "__proto__.large" == ProtoKey + ['.'] + "large";
    GroupNames.SplitRule(Some(Aws), ProtoKey, "large");
  }
}
