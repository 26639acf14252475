/**
 * The field's form state and the rule that preselects an instance type
 * when the list arrives (`onSuccess`): only an empty field is written, only
 * once a provider is chosen and the list is non-empty, and the written code
 * is the provider's default or else the first fetched code.
 */
module DefaultSelection {
  import opened Wrappers
  import opened Dtos
  import Grouping
  import Options

  /** `DEFAULT_INSTANCE_TYPES`: providers without an entry fall back to the list. */
  const DefaultInstanceTypes: map<CloudType, string> :=
    map[Aws := "c5.large", Gcp := "n1-standard-1", Kubernetes := "small"]

  /** `ERROR_NO_INSTANCE_TYPE`, the message of the `required` rule. */
  const ErrorNoInstanceType: string := "Instance Type value is required"

  /** `!getValues(FIELD_NAME)`: no value, or the empty string. */
  predicate IsBlank(value: Option<string>)
  {
    value.None? || value.value == ""
  }

  /** `DEFAULT_INSTANCE_TYPES[code] || data[0].instanceTypeCode`. */
  function DefaultCode(provider: CloudType, data: seq<InstanceType>): (r: string)
    requires data != []
    ensures provider in DefaultInstanceTypes ==> r == DefaultInstanceTypes[provider] && r != ""
    ensures provider !in DefaultInstanceTypes ==> r == data[0].instanceTypeCode
  {
    if provider in DefaultInstanceTypes && DefaultInstanceTypes[provider] != "" then DefaultInstanceTypes[provider]
    else data[0].instanceTypeCode
  }

  /**
   * The field value after `onSuccess(data)`: written with the default code
   * when the field is blank, the provider code is set and the list is
   * non-empty; left as it was otherwise.
   */
  function OnSuccessValue(value: Option<string>, provider: Option<CloudType>, data: seq<InstanceType>): (r: Option<string>)
    ensures !IsBlank(value) ==> r == value
    ensures provider.None? || data == [] ==> r == value
    ensures IsBlank(value) && provider.Some? && data != [] ==> r == Some(DefaultCode(provider.value, data))
  {
    if IsBlank(value) && provider.Some? && |data| > 0 then Some(DefaultCode(provider.value, data))
    else value
  }

  /** The rule writes a different value only when all three guards hold. */
  lemma WritesOnlyWhenGuarded(value: Option<string>, provider: Option<CloudType>, data: seq<InstanceType>)
    ensures OnSuccessValue(value, provider, data) != value ==> IsBlank(value) && provider.Some? && data != []
    ensures IsBlank(value) && provider.Some? && data != [] ==> OnSuccessValue(value, provider, data).Some?
  {
  }

  /**
   * The default is applied once: after a write of a non-empty code, a later
   * fetch, with whatever list, leaves the value alone. The written code is
   * non-empty whenever the provider has a table entry or the first fetched
   * code is non-empty.
   */
  lemma AppliedOnce(value: Option<string>, provider: Option<CloudType>, d1: seq<InstanceType>, d2: seq<InstanceType>)
    requires provider.Some? && d1 != []
    requires provider.value in DefaultInstanceTypes || d1[0].instanceTypeCode != ""
    ensures !IsBlank(OnSuccessValue(value, provider, d1))
    ensures OnSuccessValue(OnSuccessValue(value, provider, d1), provider, d2) == OnSuccessValue(value, provider, d1)
  {
  }

  /**
   * Without a table entry the default is the first fetched record's code,
   * so the select box finds a record with that code in the grouped list.
   */
  lemma FallbackIsListed(value: Option<string>, provider: CloudType, data: seq<InstanceType>,
                         nameOf: string -> string, groups: seq<Grouping.Group>)
    requires IsBlank(value) && data != [] && provider !in DefaultInstanceTypes
    requires Grouping.IsGrouping(data, nameOf, groups)
    ensures Options.SelectedOption(groups, OnSuccessValue(value, Some(provider), data)).Some?
    ensures Options.SelectedOption(groups, OnSuccessValue(value, Some(provider), data)).value.instanceTypeCode
            == data[0].instanceTypeCode
  {
    Options.SelectedOptionOfGrouping(data, nameOf, groups, OnSuccessValue(value, Some(provider), data));
    assert data[0] in data;
  }

  /**
   * A table default that no fetched record carries is still written, and
   * then the select box shows no option.
   */
  lemma UnlistedDefaultSelectsNothing(value: Option<string>, provider: CloudType, data: seq<InstanceType>,
                                      nameOf: string -> string, groups: seq<Grouping.Group>)
    requires IsBlank(value) && data != [] && provider in DefaultInstanceTypes
    requires forall x :: x in data ==> x.instanceTypeCode != DefaultInstanceTypes[provider]
    requires Grouping.IsGrouping(data, nameOf, groups)
    ensures OnSuccessValue(value, Some(provider), data) == Some(DefaultInstanceTypes[provider])
    ensures Options.SelectedOption(groups, OnSuccessValue(value, Some(provider), data)) == None
  {
    Options.SelectedOptionOfGrouping(data, nameOf, groups, OnSuccessValue(value, Some(provider), data));
  }

  lemma DefaultExamples(data: seq<InstanceType>)
    requires data != []
    ensures DefaultCode(Aws, data) == "c5.large"
    ensures DefaultCode(Gcp, data) == "n1-standard-1"
    ensures DefaultCode(Kubernetes, data) == "small"
    ensures DefaultCode(Azu, data) == data[0].instanceTypeCode
    ensures DefaultCode(OtherCloud, data) == data[0].instanceTypeCode
  {
  }

  /** The `required` rule: an error exactly when the value is blank. */
  function RequiredError(value: Option<string>): (r: Option<string>)
    ensures r.Some? <==> IsBlank(value)
    ensures r.Some? ==> r.value == ErrorNoInstanceType
  {
    if IsBlank(value) then Some(ErrorNoInstanceType) else None
  }

  /** The react-hook-form state of the one field, `instanceType`. */
  class InstanceTypeFieldState {
    var value: Option<string>

    constructor(initial: Option<string>)
      ensures value == initial
    {
      value := initial;
    }

    /** `onSuccess`: the preselection once the list has been fetched. */
    method ApplyFetchedDefault(provider: Option<CloudType>, data: seq<InstanceType>)
      modifies this
      ensures value == OnSuccessValue(old(value), provider, data)
    {
      if IsBlank(value) && provider.Some? && |data| > 0 {
        var code;
        if provider.value in DefaultInstanceTypes && DefaultInstanceTypes[provider.value] != "" {
          code := DefaultInstanceTypes[provider.value];
        } else {
          code := data[0].instanceTypeCode;
        }
        value := Some(code);
      }
    }

    /** `onChange`: the user picked `option`; its code becomes the value. */
    method OnChange(option: InstanceType)
      modifies this
      ensures value == Some(Options.GetOptionValue(option))
    {
      value := Some(option.instanceTypeCode);
    }

    /** The option shown as selected in the grouped list. */
    function Selected(groups: seq<Grouping.Group>): Option<InstanceType>
      reads this
    {
      Options.SelectedOption(groups, value)
    }

    /** The validation message of the `required` rule for the current value. */
    function Error(): Option<string>
      reads this
    {
      RequiredError(value)
    }
  }

  /**
   * A field holding a value the user picked keeps it when the list is
   * fetched again, and the picked option stays selected.
   */
  method PickThenRefetch(groups: seq<Grouping.Group>, option: InstanceType, provider: Option<CloudType>,
                         data: seq<InstanceType>) returns (selected: Option<InstanceType>, error: Option<string>)
    requires option in Grouping.Flatten(groups) && option.instanceTypeCode != ""
    ensures selected.Some? && selected.value.instanceTypeCode == option.instanceTypeCode
    ensures error.None?
  {
    var field := new InstanceTypeFieldState(None);
    field.OnChange(option);
    field.ApplyFetchedDefault(provider, data);
    assert field.value == Some(option.instanceTypeCode);
    Options.SelectionRoundTrip(groups, option);
    selected := field.Selected(groups);
    error := field.Error();
  }
}
