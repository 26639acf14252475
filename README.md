# Instance-type options of the universe wizard

A Dafny model of the option builder behind the instance-type field of the
universe creation wizard (`InstanceTypeField.tsx`). The field fetches the
instance types a provider offers and shows them in a grouped select box. It:

- derives each record's group label from its code with one rule per provider
  (`getGroupName`: text before the first `.` on AWS, before the first `-` on
  GCP, the first matching `standard_<x>` series on Azure or else "Other",
  the empty label otherwise);
- builds the groups (`sortAndGroup`): a dictionary from label to records,
  each list sorted with a case-insensitive, numeric-aware comparator, the
  groups then sorted by label;
- labels options (`getOptionLabel`), identifies them by code
  (`getOptionValue`), and maps the field value back to the selected option;
- preselects a value when the list arrives (`onSuccess`): only into an empty
  field, only with a known provider and a non-empty list, using the
  provider's default code or else the first fetched code.

Modules, one file each:

| file | module | contents |
|---|---|---|
| `wrappers.dfy` | `Wrappers` | `Option` |
| `dtos.dfy` | `Dtos` | `CloudType`, `InstanceType` |
| `ascii.dfy` | `Ascii` | digit and letter tests, ASCII lower-casing |
| `lex.dfy` | `Lex` | strict lexicographic order on integer sequences |
| `sorting.dfy` | `Sorting` | the stable sort both library sorts stand for |
| `natural_order.dfy` | `NaturalOrder` | the comparator `localeCompare(…, {numeric, sensitivity: 'base'})` |
| `group_names.dfy` | `GroupNames` | the Azure table and `getGroupName` |
| `grouping.dfy` | `Grouping` | `sortAndGroup` as an imperative method, the grouping predicate and its lemmas |
| `grouping_examples.dfy` | `GroupingExamples` | worked instances of the ordering and the grouping |
| `options.dfy` | `Options` | `getOptionLabel`, `getOptionValue`, the selected-option lookup |
| `default_selection.dfy` | `DefaultSelection` | `DEFAULT_INSTANCE_TYPES`, the `onSuccess` rule, the form-state class |
| `plain_object.dfy` | `PlainObject` | `sortAndGroup` over the plain object `{}` it actually uses, prototype included |

`sortAndGroup` changes state step by step in the source, so
`Grouping.SortAndGroup` is a method. Its first loop, `Grouping.BreakDownByName`,
fills a `map` and the list of its keys in insertion order. Its second loop,
`Grouping.ToGroupList`, turns the entries into groups. The method's
postcondition is the predicate `Grouping.IsGrouping`, a complete description of the
result. `Grouping.GroupingUnique` shows that the predicate determines the
result. The form state is a class with one field, the field value.
`onSuccess` and `onChange` are its methods.

The comparator is a concrete natural order over ASCII. Each code is read as
a sequence of tokens, and each token becomes a (rank, value) pair:

- a maximal run of decimal digits is (1, its numeric value);
- an ASCII letter is (2, the ordinal of its lower-case form);
- any other character is (0, its ordinal).

Codes compare as their token sequences do, lexicographically. The comparator
is a total preorder: codes that differ only in case, or in leading zeros,
tie. Both library sorts are stable, and so is the insertion sort that models
them. Group labels are compared character by character, as `<` on strings
does in `_.sortBy`.

## Model

| member | source | states |
|---|---|---|
| `Sorting.SortBy` | managed/ui/src/redesign/universe/wizard/fields/InstanceTypeField/InstanceTypeField.tsx:80-85 | `list.sort(comparator)` at :80 and `_.sortBy(result, 'label')` at :85, as one stable insertion sort; what it promises is `Sorting.SortByPermutes`, `Sorting.SortBySorted` and `Sorting.SortByStable` |
| `Sorting.SortByPermutes` | managed/ui/src/redesign/universe/wizard/fields/InstanceTypeField/InstanceTypeField.tsx:80-85 | sorting only reorders: the result is a permutation of the input |
| `Sorting.SortBySorted` | managed/ui/src/redesign/universe/wizard/fields/InstanceTypeField/InstanceTypeField.tsx:80-85 | for any total preorder, the result is sorted by it |
| `Sorting.SortByStable` | managed/ui/src/redesign/universe/wizard/fields/InstanceTypeField/InstanceTypeField.tsx:80 | stability: for every element, the elements tied with it keep their input order |
| `Sorting.InsertTies` | managed/ui/src/redesign/universe/wizard/fields/InstanceTypeField/InstanceTypeField.tsx:80 | an inserted element goes ahead of the elements it ties with, whose order is kept |
| `Sorting.InsertSorted` | managed/ui/src/redesign/universe/wizard/fields/InstanceTypeField/InstanceTypeField.tsx:80 | inserting into a sorted sequence keeps it sorted |
| `NaturalOrder.Compare` | managed/ui/src/redesign/universe/wizard/fields/InstanceTypeField/InstanceTypeField.tsx:60-63 | the comparator, `localeCompare` with `numeric` and base sensitivity; its laws are the `NaturalOrder.Compare…` lemmas below and the rank order is `NaturalOrder.RankDecides` |
| `NaturalOrder.NaturalLe` | managed/ui/src/redesign/universe/wizard/fields/InstanceTypeField/InstanceTypeField.tsx:60-63 | "the comparator answers at most 0", the order the sort uses; total and transitive by `NaturalOrder.CompareTotal` and `NaturalOrder.CompareTransitive` |
| `NaturalOrder.CompareAntisymmetric` | managed/ui/src/redesign/universe/wizard/fields/InstanceTypeField/InstanceTypeField.tsx:60-63 | swapping the operands negates the comparator's answer |
| `NaturalOrder.CompareTotal` | managed/ui/src/redesign/universe/wizard/fields/InstanceTypeField/InstanceTypeField.tsx:60-63 | any two codes are comparable |
| `NaturalOrder.CompareTransitive` | managed/ui/src/redesign/universe/wizard/fields/InstanceTypeField/InstanceTypeField.tsx:60-63 | "sorts no later than" is transitive, so the comparator is consistent for `sort` |
| `NaturalOrder.CompareZeroIffSameKey` | managed/ui/src/redesign/universe/wizard/fields/InstanceTypeField/InstanceTypeField.tsx:60-63 | two codes tie exactly when their token sequences are equal |
| `NaturalOrder.CompareIgnoresCase` | managed/ui/src/redesign/universe/wizard/fields/InstanceTypeField/InstanceTypeField.tsx:61 | `sensitivity: 'base'`: a code ties with its lower-case spelling |
| `NaturalOrder.DigitRunsCompareByValue` | managed/ui/src/redesign/universe/wizard/fields/InstanceTypeField/InstanceTypeField.tsx:59-61 | `numeric: true`: after a common prefix, digit runs order by numeric value and tie exactly on equal values |
| `NaturalOrder.KeyAppend` | managed/ui/src/redesign/universe/wizard/fields/InstanceTypeField/InstanceTypeField.tsx:59-62 | tokens do not cross a split between a non-digit and anything else: the key of a concatenation is the concatenation of keys |
| `NaturalOrder.RankDecides` | managed/ui/src/redesign/universe/wizard/fields/InstanceTypeField/InstanceTypeField.tsx:60-62 | after a common prefix not ending in a digit, the first token of lower rank sorts first |
| `NaturalOrder.DigitBeforeLetter` | managed/ui/src/redesign/universe/wizard/fields/InstanceTypeField/InstanceTypeField.tsx:60-62 | a digit sorts before a letter, so `c5.2xlarge` comes before `c5.large` |
| `NaturalOrder.SymbolBeforeDigit` | managed/ui/src/redesign/universe/wizard/fields/InstanceTypeField/InstanceTypeField.tsx:60-62 | punctuation and other symbols sort before digits |
| `NaturalOrder.SymbolBeforeLetter` | managed/ui/src/redesign/universe/wizard/fields/InstanceTypeField/InstanceTypeField.tsx:60-62 | punctuation and other symbols sort before letters |
| `GroupNames.BeforeFirst` | managed/ui/src/redesign/universe/wizard/fields/InstanceTypeField/InstanceTypeField.tsx:46-48 | `split(sep)[0]` is a prefix without `sep`, and is either the whole string or stops right at a `sep` |
| `GroupNames.FirstMatch` | managed/ui/src/redesign/universe/wizard/fields/InstanceTypeField/InstanceTypeField.tsx:50-52 | no label exactly when no pattern matches; otherwise the label of a matching entry with no earlier match |
| `GroupNames.MatchesSeries` | managed/ui/src/redesign/universe/wizard/fields/InstanceTypeField/InstanceTypeField.tsx:17-26 | `regexp.test(code)` for `/^standard_<x>.+/i`, as called at :51; no code matches two patterns (`GroupNames.AzureSeriesExclusive`) |
| `GroupNames.AzureGroupName` | managed/ui/src/redesign/universe/wizard/fields/InstanceTypeField/InstanceTypeField.tsx:49-53 | the Azure arm: the first series whose pattern matches, else "Other"; stated by `GroupNames.FirstMatch` and `GroupNames.GroupNameRules` |
| `GroupNames.GroupName` | managed/ui/src/redesign/universe/wizard/fields/InstanceTypeField/InstanceTypeField.tsx:43-57 | `getGroupName`; its rules are `GroupNames.GroupNameRules` |
| `GroupNames.GroupNameRules` | managed/ui/src/redesign/universe/wizard/fields/InstanceTypeField/InstanceTypeField.tsx:43-56 | all provider rules: AWS and GCP take the text before the first separator, or the whole code without one; Azure takes the first matching series, and "Other" exactly when none matches; any other provider or none gives `''` |
| `GroupNames.SplitRule` | managed/ui/src/redesign/universe/wizard/fields/InstanceTypeField/InstanceTypeField.tsx:45-48 | `c5.large --> c5`, `n1-standard-1 --> n1`: the text before the first separator is the label whatever follows |
| `GroupNames.AzureSeriesExclusive` | managed/ui/src/redesign/universe/wizard/fields/InstanceTypeField/InstanceTypeField.tsx:16-27 | no code matches two patterns of the table |
| `GroupNames.AwsGcpExamples` | managed/ui/src/redesign/universe/wizard/fields/InstanceTypeField/InstanceTypeField.tsx:44-56 | `c5.large` on AWS is `c5`, `n1-standard-1` on GCP is `n1`, Kubernetes and no provider give `''` |
| `GroupNames.AzureSeriesExample` | managed/ui/src/redesign/universe/wizard/fields/InstanceTypeField/InstanceTypeField.tsx:17 | `Standard_B2s` is in `B-Series`, the pattern ignoring case |
| `GroupNames.AzureOtherExample` | managed/ui/src/redesign/universe/wizard/fields/InstanceTypeField/InstanceTypeField.tsx:53 | a code no pattern matches is in "Other" |
| `Grouping.OptionLeTotalPreorder` | managed/ui/src/redesign/universe/wizard/fields/InstanceTypeField/InstanceTypeField.tsx:60-63 | the option comparator is total and transitive |
| `Grouping.SortOptions` | managed/ui/src/redesign/universe/wizard/fields/InstanceTypeField/InstanceTypeField.tsx:80 | `list.sort(comparator)` returns a permutation of the list, sorted by the comparator; its stability is `Grouping.SortOptionsStable` |
| `Grouping.SortOptionsStable` | managed/ui/src/redesign/universe/wizard/fields/InstanceTypeField/InstanceTypeField.tsx:80 | `list.sort` is stable: records whose codes compare equal keep their input order |
| `Grouping.LabelTrichotomy` | managed/ui/src/redesign/universe/wizard/fields/InstanceTypeField/InstanceTypeField.tsx:85 | two labels are equal or one is less than the other |
| `Grouping.SortGroups` | managed/ui/src/redesign/universe/wizard/fields/InstanceTypeField/InstanceTypeField.tsx:85 | `_.sortBy(result, 'label')` returns a permutation of the groups in ascending label order |
| `Grouping.InGroupCount` | managed/ui/src/redesign/universe/wizard/fields/InstanceTypeField/InstanceTypeField.tsx:69-76 | a group's list holds every copy of each record with its name and nothing else |
| `Grouping.SortAndGroup` | managed/ui/src/redesign/universe/wizard/fields/InstanceTypeField/InstanceTypeField.tsx:40-86 | an absent or empty list gives `[]`; otherwise the result is the grouping of the records by the provider's rule |
| `Grouping.BreakDownByName` | managed/ui/src/redesign/universe/wizard/fields/InstanceTypeField/InstanceTypeField.tsx:65-76 | after the `forEach`, the dictionary holds one list per name that occurs, with the records of that name in input order, and the key list holds each name once |
| `Grouping.ToGroupList` | managed/ui/src/redesign/universe/wizard/fields/InstanceTypeField/InstanceTypeField.tsx:79-82 | one group per dictionary entry, in entry order, each with its list sorted |
| `Grouping.BreakdownStep` | managed/ui/src/redesign/universe/wizard/fields/InstanceTypeField/InstanceTypeField.tsx:70-75 | one `forEach` step, push or a new entry, keeps the dictionary invariant |
| `Grouping.SortedGroupsAreGrouping` | managed/ui/src/redesign/universe/wizard/fields/InstanceTypeField/InstanceTypeField.tsx:79-85 | the sorted group list built from the final dictionary is the grouping |
| `Grouping.GroupingPartition` | managed/ui/src/redesign/universe/wizard/fields/InstanceTypeField/InstanceTypeField.tsx:69-85 | partition: the groups' options are a permutation of the input; every record is in exactly the group labelled with its name; labels are distinct; no group is empty; each group is sorted |
| `Grouping.Flatten` | managed/ui/src/redesign/universe/wizard/fields/InstanceTypeField/InstanceTypeField.tsx:137 | `flatMap((item) => item.options)`; over a grouping it holds exactly the fetched records (`Grouping.FlattenMembers`) |
| `Grouping.FlattenMembers` | managed/ui/src/redesign/universe/wizard/fields/InstanceTypeField/InstanceTypeField.tsx:136-137 | the flattened options are exactly the fetched records |
| `Grouping.GroupingUnique` | managed/ui/src/redesign/universe/wizard/fields/InstanceTypeField/InstanceTypeField.tsx:40-86 | two groupings of the same list are equal: the result is determined by the records |
| `Grouping.GroupingPermutationInvariant` | managed/ui/src/redesign/universe/wizard/fields/InstanceTypeField/InstanceTypeField.tsx:69-85 | a reordered input gives the same labels and the same records in each group |
| `Grouping.StrictlySortedUnique` | managed/ui/src/redesign/universe/wizard/fields/InstanceTypeField/InstanceTypeField.tsx:85 | two strictly ascending label lists with the same members are equal |
| `GroupingExamples.NumericRunsOrder` | managed/ui/src/redesign/universe/wizard/fields/InstanceTypeField/InstanceTypeField.tsx:59 | `a1 < a2 < a10 < a12` under the comparator |
| `GroupingExamples.NumericSortExample` | managed/ui/src/redesign/universe/wizard/fields/InstanceTypeField/InstanceTypeField.tsx:59 | `['a10', 'a2', 'a12', 'a1'] --> ['a1', 'a2', 'a10', 'a12']` |
| `GroupingExamples.SizeDigitBeforeLetter` | managed/ui/src/redesign/universe/wizard/fields/InstanceTypeField/InstanceTypeField.tsx:60-62 | `c5.2xlarge` sorts strictly before `c5.large`: after `c5.`, the digit comes first |
| `GroupingExamples.CaseTie` | managed/ui/src/redesign/universe/wizard/fields/InstanceTypeField/InstanceTypeField.tsx:61-62 | `A1` and `a1` tie |
| `GroupingExamples.TiesKeepInputOrder` | managed/ui/src/redesign/universe/wizard/fields/InstanceTypeField/InstanceTypeField.tsx:80 | tied records keep their input order, so the two orders of `A1`, `a1` give different groups |
| `GroupingExamples.AwsGroupingExample` | managed/ui/src/redesign/universe/wizard/fields/InstanceTypeField/InstanceTypeField.tsx:45-85 | `c5.large, m5.large, c5.xlarge` on AWS group into `c5: [c5.large, c5.xlarge]` then `m5: [m5.large]` |
| `GroupingExamples.GroupingOfThree` | managed/ui/src/redesign/universe/wizard/fields/InstanceTypeField/InstanceTypeField.tsx:69-85 | two records of one name and one of a later name form two groups in label order |
| `GroupingExamples.LetterDecides` | managed/ui/src/redesign/universe/wizard/fields/InstanceTypeField/InstanceTypeField.tsx:61-62 | after any common prefix, digits included (`c5a` against `c5d`), the first differing letters decide, ignoring case |
| `PlainObject.EmptyObject` | managed/ui/src/redesign/universe/wizard/fields/InstanceTypeField/InstanceTypeField.tsx:66 | `{}` has no own properties and `Object.prototype` as prototype |
| `PlainObject.ArrayAt` | managed/ui/src/redesign/universe/wizard/fields/InstanceTypeField/InstanceTypeField.tsx:71 | `Array.isArray(groups[key])`: for `__proto__` it holds exactly when the prototype is an array; for any other key exactly when the key is an own property |
| `PlainObject.Assign` | managed/ui/src/redesign/universe/wizard/fields/InstanceTypeField/InstanceTypeField.tsx:72-74 | read after write gives the assigned array; `__proto__` replaces the prototype and leaves the own properties; any other key sets an own property, listed last when new |
| `PlainObject.AssignFrame` | managed/ui/src/redesign/universe/wizard/fields/InstanceTypeField/InstanceTypeField.tsx:72-74 | an assignment leaves what every other key reads unchanged |
| `PlainObject.WithoutInGroup` | managed/ui/src/redesign/universe/wizard/fields/InstanceTypeField/InstanceTypeField.tsx:69-76 | leaving out one name empties that name's records and keeps every other name's records |
| `PlainObject.WithoutMembers` | managed/ui/src/redesign/universe/wizard/fields/InstanceTypeField/InstanceTypeField.tsx:69-76 | a record is left in exactly when it is fetched and its name is not the one left out |
| `PlainObject.BreakDownAsWritten` | managed/ui/src/redesign/universe/wizard/fields/InstanceTypeField/InstanceTypeField.tsx:66-76 | the `forEach` over `{}`: the own properties hold the dictionary of the records not named `__proto__`, and the records named `__proto__`, in input order, form the array that becomes the prototype |
| `PlainObject.OwnKeyStep` | managed/ui/src/redesign/universe/wizard/fields/InstanceTypeField/InstanceTypeField.tsx:70-75 | a record with an ordinary name updates the own properties as a dictionary step does |
| `PlainObject.ProtoStep` | managed/ui/src/redesign/universe/wizard/fields/InstanceTypeField/InstanceTypeField.tsx:70-75 | a record named `__proto__` goes onto the prototype array and leaves the own properties; any other record leaves the prototype |
| `PlainObject.SortAndGroupAsWritten` | managed/ui/src/redesign/universe/wizard/fields/InstanceTypeField/InstanceTypeField.tsx:40-86 | the code as written returns the grouping of the records whose name is not `__proto__` |
| `PlainObject.PlainObjectDropsProto` | managed/ui/src/redesign/universe/wizard/fields/InstanceTypeField/InstanceTypeField.tsx:66-85 | a record named `__proto__` is in no group and no label of the as-written result, and is in the grouping |
| `PlainObject.AsWrittenAgreesWithoutProto` | managed/ui/src/redesign/universe/wizard/fields/InstanceTypeField/InstanceTypeField.tsx:40-86 | with no record named `__proto__`, the as-written result is the grouping |
| `PlainObject.ProtoCodeExample` | managed/ui/src/redesign/universe/wizard/fields/InstanceTypeField/InstanceTypeField.tsx:46 | the AWS code `__proto__.large` is named `__proto__` |
| `Options.NatToString` | managed/ui/src/redesign/universe/wizard/fields/InstanceTypeField/InstanceTypeField.tsx:33 | a number prints as non-empty decimal digits without a leading zero |
| `Options.NatToStringValue` | managed/ui/src/redesign/universe/wizard/fields/InstanceTypeField/InstanceTypeField.tsx:33 | reading the printed digits back gives the number |
| `Options.GetOptionValue` | managed/ui/src/redesign/universe/wizard/fields/InstanceTypeField/InstanceTypeField.tsx:37 | `getOptionValue`, the code; `Options.SelectionRoundTrip` shows the value it stores selects an option with that code |
| `Options.GetOptionLabel` | managed/ui/src/redesign/universe/wizard/fields/InstanceTypeField/InstanceTypeField.tsx:29-36 | the label starts with the code, and is the bare code exactly when `numCores` or `memSizeGB` is missing or zero |
| `Options.DecorationInjective` | managed/ui/src/redesign/universe/wizard/fields/InstanceTypeField/InstanceTypeField.tsx:32-33 | the appended text `(N core(s), MGB RAM)` determines both counts |
| `Options.LabelDeterminesCounts` | managed/ui/src/redesign/universe/wizard/fields/InstanceTypeField/InstanceTypeField.tsx:29-36 | for one code, two labels are equal exactly when both are bare or both show the same counts |
| `Options.Pluralize` | managed/ui/src/redesign/universe/wizard/fields/InstanceTypeField/InstanceTypeField.tsx:32 | `pluralize('core', n, true)` for the one word the field passes; instances are `Options.PluralizeExamples` |
| `Options.PluralizeExamples` | managed/ui/src/redesign/universe/wizard/fields/InstanceTypeField/InstanceTypeField.tsx:32 | `1 core`, `2 cores`, `0 cores` |
| `Options.BareLabelExamples` | managed/ui/src/redesign/universe/wizard/fields/InstanceTypeField/InstanceTypeField.tsx:31 | a missing or zero count leaves the bare code |
| `Options.SelectedOption` | managed/ui/src/redesign/universe/wizard/fields/InstanceTypeField/InstanceTypeField.tsx:135-139 | the `value` prop: the first flattened option with the field's code, else nothing; stated by `Options.FindByCode` and `Options.SelectedOptionOfGrouping` |
| `Options.FindByCode` | managed/ui/src/redesign/universe/wizard/fields/InstanceTypeField/InstanceTypeField.tsx:138 | `find` gives nothing exactly when no code equals the value; otherwise the option at the first position whose code equals it |
| `Options.SelectedOptionOfGrouping` | managed/ui/src/redesign/universe/wizard/fields/InstanceTypeField/InstanceTypeField.tsx:135-139 | over a grouping, the value selects an option exactly when a fetched record has that code, and the option found is such a record |
| `Options.SelectionRoundTrip` | managed/ui/src/redesign/universe/wizard/fields/InstanceTypeField/InstanceTypeField.tsx:134-142 | choosing an option stores its code and the lookup then finds an option with that code |
| `Options.UnsetValueSelectsNothing` | managed/ui/src/redesign/universe/wizard/fields/InstanceTypeField/InstanceTypeField.tsx:138 | an unset value selects nothing (`|| null`) |
| `DefaultSelection.DefaultCode` | managed/ui/src/redesign/universe/wizard/fields/InstanceTypeField/InstanceTypeField.tsx:88-92 | the table entry, which is never empty, when the provider has one; else the first fetched code |
| `DefaultSelection.IsBlank` | managed/ui/src/redesign/universe/wizard/fields/InstanceTypeField/InstanceTypeField.tsx:112 | `!getValues(FIELD_NAME)`: the value is undefined or the empty string, the only falsy field values; used by `DefaultSelection.OnSuccessValue` and `DefaultSelection.RequiredError` |
| `DefaultSelection.OnSuccessValue` | managed/ui/src/redesign/universe/wizard/fields/InstanceTypeField/InstanceTypeField.tsx:112-115 | a non-blank value is never overwritten; nothing is written without a provider or with an empty list; otherwise the default code is written |
| `DefaultSelection.WritesOnlyWhenGuarded` | managed/ui/src/redesign/universe/wizard/fields/InstanceTypeField/InstanceTypeField.tsx:112 | the value changes only when all three guards hold, and then a value is set |
| `DefaultSelection.AppliedOnce` | managed/ui/src/redesign/universe/wizard/fields/InstanceTypeField/InstanceTypeField.tsx:112-115 | a written non-empty default survives every later fetch |
| `DefaultSelection.FallbackIsListed` | managed/ui/src/redesign/universe/wizard/fields/InstanceTypeField/InstanceTypeField.tsx:114 | the fallback is the first fetched record's code, which the select box finds in the grouped list |
| `DefaultSelection.UnlistedDefaultSelectsNothing` | managed/ui/src/redesign/universe/wizard/fields/InstanceTypeField/InstanceTypeField.tsx:113-115 | a table default that no record carries is still written, and then no option is shown as selected |
| `DefaultSelection.DefaultExamples` | managed/ui/src/redesign/universe/wizard/fields/InstanceTypeField/InstanceTypeField.tsx:88-92 | `c5.large`, `n1-standard-1`, `small`; Azure and other providers take the first fetched code |
| `DefaultSelection.RequiredError` | managed/ui/src/redesign/universe/wizard/fields/InstanceTypeField/InstanceTypeField.tsx:127 | the `required` rule applied at :127 reports `ERROR_NO_INSTANCE_TYPE`, declared at :94, exactly when the value is blank |
| `DefaultSelection.InstanceTypeFieldState.constructor` | managed/ui/src/redesign/universe/wizard/fields/InstanceTypeField/InstanceTypeField.tsx:98-103 | the form state starts with the given value |
| `DefaultSelection.InstanceTypeFieldState.ApplyFetchedDefault` | managed/ui/src/redesign/universe/wizard/fields/InstanceTypeField/InstanceTypeField.tsx:110-117 | `onSuccess` sets the value to the rule's result for the old value |
| `DefaultSelection.InstanceTypeFieldState.OnChange` | managed/ui/src/redesign/universe/wizard/fields/InstanceTypeField/InstanceTypeField.tsx:141-143 | `onChange` stores the chosen option's code |
| `DefaultSelection.PickThenRefetch` | managed/ui/src/redesign/universe/wizard/fields/InstanceTypeField/InstanceTypeField.tsx:112-142 | after the user picks an option, a later fetch keeps the value, the option stays selected and the field is valid |

## Left out

- Rendering, the `Controller` and `Select` wiring, CSS classes, `ErrorMessage` and `formatGroupLabel` (an identity on the label): user interface.
- The fetch (`useQuery`, `api.fetchInstanceTypes`, caching, the `enabled` flag): asynchronous I/O. The fetched list is an input.
- react-hook-form beyond one field value: when validation runs, the "touched" state, and the fact that the programmatic `setValue` skips validation.
- `pluralize` is a library call. `Options.Pluralize` covers only the one word the field passes: `core` for a count of 1, `cores` otherwise.
- `translate('Other')` is a library call. The label is fixed to the English `"Other"`.
- ICU collation: only ASCII is modelled. Non-ASCII letters, accents, and ICU's own weights for punctuation and spaces are not modelled. Every non-alphanumeric character ranks below the digits, ordered by its code point.
- `_.sortBy` on labels compares UTF-16 code units. The model compares code points, which agree on the Basic Multilingual Plane.
- `Options.GetOptionLabel`: `numCores` and `memSizeGB` are whole numbers here. Fractional, negative or `NaN` sizes, and JavaScript's exponent notation for very large numbers, are not modelled.
- `Object.entries` lists integer-like keys, such as a label `"10"`, first and in ascending order. `Grouping.ToGroupList` uses insertion order instead. This cannot change the result, which `_.sortBy` re-sorts by label; `Grouping.GroupingUnique` shows the result depends only on the records.
- `list.sort` sorts the dictionary's arrays in place, and `result` shares them. The model sorts copies, which is the same result because nothing reads the arrays afterwards.
- `CloudType` has more members than the model's `Aws`, `Gcp`, `Azu` and `Kubernetes`. The rest are one value, `OtherCloud`, because the code treats them all alike.
- `Grouping.GroupingPermutationInvariant`: a permuted input does not always give identical output. Records whose codes the comparator ties keep their input order, because the sort is stable (`Grouping.SortOptionsStable`; `GroupingExamples.TiesKeepInputOrder` shows `A1` and `a1`). What holds is stated instead: the same labels, and the same records in each group.
- The Azure patterns are mutually exclusive for the table as declared (`GroupNames.AzureSeriesExclusive`). First-match order is still modelled, so a table with overlapping patterns would also be covered.
- `yugabyted-ui/ui/src/api/src/models/CustomImageData.ts` (an interface without logic) and `managed/yba-installer/cmd/version.go` (a command that prints a version) are not part of this model.

## Findings

| source | as written | input that shows it | evidently intended | confidence | as-written member | corrected member |
|---|---|---|---|---|---|---|
| managed/ui/src/redesign/universe/wizard/fields/InstanceTypeField/InstanceTypeField.tsx:66-79 | `groups` is a plain object `{}`. `groups['__proto__'] = [item]` replaces the object's prototype instead of adding an entry, and later records of that name are pushed onto the prototype, so `Object.entries` never yields that group | an AWS record coded `__proto__.large`, named `__proto__` by `split('.')[0]` | every record appears in the group of its name (a `Map`, or `Object.create(null)`) | low: depends on a code no provider is known to use; not executed | `PlainObject.SortAndGroupAsWritten` and `PlainObject.PlainObjectDropsProto` | `Grouping.SortAndGroup` and `Grouping.GroupingPartition` |
