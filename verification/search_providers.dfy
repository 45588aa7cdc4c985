/** The search-provider registry: a dict from provider name to its fetch
    endpoint or implementation, kept in registration order, and the list of
    names whose registration completed. */
module SearchProviders {
  import opened Base

  /** A provider implementation, as far as the listing reads it: its optional
      `label` attribute. */
  datatype ProviderClass = ProviderClass(labelAttr: Option<string>)

  /** A value stored in the registry. */
  datatype Registered = ClassValue(cls: ProviderClass) | EndpointValue(url: string) | NoneValue

  /** Python truthiness of a stored value: a class is truthy, a string when
      it is not empty, `None` never. */
  predicate Truthy(v: Registered) {
    match v
    case ClassValue(_) => true
    case EndpointValue(url) => url != ""
    case NoneValue => false
  }

  /** `provider_class if provider_class else fetch_endpoint`. */
  function StoredValue(endpoint: Option<string>, providerClass: Option<ProviderClass>): Registered {
    if providerClass.Some? then ClassValue(providerClass.value)
    else if endpoint.Some? then EndpointValue(endpoint.value)
    else NoneValue
  }

  /** `AlreadyExistsError` for a taken name; `KeyError` from formatting the
      message of a taken endpoint; `ValueError` when nothing was given; and
      the error the endpoint check was meant to raise. */
  datatype RegisterError = NameTaken(name: string) | MissingKey(key: string) | NothingToRegister | EndpointTaken(url: string, owner: string)

  /** The fetch endpoint is given (truthy) and some name already stores it. */
  predicate EndpointClash(values: map<string, Registered>, endpoint: Option<string>) {
    endpoint.Some? && endpoint.value != "" && EndpointValue(endpoint.value) in values.Values
  }

  /** The checks made before anything is stored, as written: the endpoint
      check looks up the new name, which is not in the dict, so it raises a
      `KeyError` for that name. */
  function Rejection(values: map<string, Registered>, name: string, endpoint: Option<string>): Option<RegisterError> {
    if name in values then Some(NameTaken(name))
    else if EndpointClash(values, endpoint) then Some(MissingKey(name))
    else None
  }

  /** The first name storing the endpoint. */
  function OwnerOf(names: seq<string>, values: map<string, Registered>, url: string): (o: Option<string>)
    ensures o.Some? ==> o.value in names && o.value in values && values[o.value] == EndpointValue(url)
    ensures o.None? ==> forall n :: n in names && n in values ==> values[n] != EndpointValue(url)
  {
    if names == [] then None
    else if names[0] in values && values[names[0]] == EndpointValue(url) then Some(names[0])
    else OwnerOf(names[1..], values, url)
  }

  /** The checks as the documentation states them: a taken endpoint is an
      `AlreadyExistsError` naming the provider that holds it. */
  function IntendedRejection(names: seq<string>, values: map<string, Registered>, name: string, endpoint: Option<string>): Option<RegisterError>
    requires forall n :: n in values <==> n in names
  {
    if name in values then Some(NameTaken(name))
    else if EndpointClash(values, endpoint) then
      var o := OwnerOf(names, values, endpoint.value);
      if o.Some? then Some(EndpointTaken(endpoint.value, o.value)) else None
    else None
  }

  /** The intended checks refuse exactly the registrations the code refuses,
      and a taken endpoint is reported with the name that really holds it. */
  lemma IntendedRejectionSpec(names: seq<string>, values: map<string, Registered>, name: string, endpoint: Option<string>)
    requires forall n :: n in values <==> n in names
    ensures IntendedRejection(names, values, name, endpoint).Some? <==> Rejection(values, name, endpoint).Some?
    ensures name !in values && EndpointClash(values, endpoint) ==>
      exists owner :: owner in values && values[owner] == EndpointValue(endpoint.value) &&
        IntendedRejection(names, values, name, endpoint) == Some(EndpointTaken(endpoint.value, owner))
  {
    if name !in values && EndpointClash(values, endpoint) {
      var n :| n in values && values[n] == EndpointValue(endpoint.value);
      assert n in names;
    }
  }

  /** Registering a second name for a taken endpoint reports the new name as
      a missing key instead of the clash. */
  lemma EndpointClashRaisesKeyError()
    ensures var values := map["superdesk" := EndpointValue("search_providers_proxy")];
      Rejection(values, "other", Some("search_providers_proxy")) == Some(MissingKey("other"))
  {
    var values := map["superdesk" := EndpointValue("search_providers_proxy")];
    assert values["superdesk"] == EndpointValue("search_providers_proxy");
  }

  /** One entry of the listing of allowed providers. */
  datatype Entry = Entry(searchProvider: string, labelText: string)

  /** `getattr(registered, 'label', provider_id)`: only a class with a label
      has one. */
  function LabelOf(name: string, v: Registered): string {
    if v.ClassValue? && v.cls.labelAttr.Some? then v.cls.labelAttr.value else name
  }

  /** The module-level `registered_search_providers` (with its insertion order
      in `names`) and `allowed_search_providers`. */
  class Registry {
    var names: seq<string>
    var values: map<string, Registered>
    var allowed: seq<string>

    /** Names are registered once; `allowed` lists, in registration order and
        without repetition, the names stored with a truthy value. */
    ghost predicate Valid()
      reads this
    {
      && (forall i, j :: 0 <= i < j < |names| ==> names[i] != names[j])
      && (forall n :: n in values <==> n in names)
      && IsSubsequence(allowed, names)
      && (forall i, j :: 0 <= i < j < |allowed| ==> allowed[i] != allowed[j])
      && (forall i :: 0 <= i < |allowed| ==> allowed[i] in values && Truthy(values[allowed[i]]))
    }

    constructor ()
      ensures Valid() && names == [] && values == map[] && allowed == []
    {
      names := [];
      values := map[];
      allowed := [];
    }

    /** `register_search_provider`.  A rejection changes nothing; otherwise the
        value is stored, and the name joins `allowed` only when the value is
        truthy (a falsy value is stored and then refused, so the name stays
        taken). */
    method Register(name: string, endpoint: Option<string>, providerClass: Option<ProviderClass>)
      returns (r: Result<(), RegisterError>)
      requires Valid()
      modifies this
      ensures Valid()
      ensures Rejection(old(values), name, endpoint).Some? ==>
        && r == Err(Rejection(old(values), name, endpoint).value)
        && names == old(names) && values == old(values) && allowed == old(allowed)
      ensures Rejection(old(values), name, endpoint).None? ==>
        && names == old(names) + [name]
        && values == old(values)[name := StoredValue(endpoint, providerClass)]
        && (Truthy(StoredValue(endpoint, providerClass)) ==> r == Ok(()) && allowed == old(allowed) + [name])
        && (!Truthy(StoredValue(endpoint, providerClass)) ==> r == Err(NothingToRegister) && allowed == old(allowed))
    {
      if name in values {
        return Err(NameTaken(name));
      }
      if endpoint.Some? && endpoint.value != "" && EndpointValue(endpoint.value) in values.Values {
        return Err(MissingKey(name));
      }
      var stored := StoredValue(endpoint, providerClass);
      SubsequenceSnoc(allowed, names, name);
      names := names + [name];
      values := values[name := stored];
      if !Truthy(stored) {
        return Err(NothingToRegister);
      }
      allowed := allowed + [name];
      r := Ok(());
    }

    /** `SearchProviderAllowedService.get`: one entry per registered name, in
        registration order, whether or not its registration completed. */
    function Get(): (entries: seq<Entry>)
      reads this
      requires Valid()
      ensures |entries| == |names|
      ensures forall i :: 0 <= i < |names| ==>
        entries[i].searchProvider == names[i] &&
        (values[names[i]].ClassValue? && values[names[i]].cls.labelAttr.Some? ==> entries[i].labelText == values[names[i]].cls.labelAttr.value) &&
        (values[names[i]].ClassValue? && values[names[i]].cls.labelAttr.None? ==> entries[i].labelText == names[i]) &&
        (!values[names[i]].ClassValue? ==> entries[i].labelText == names[i])
    {
      EntriesOf(names, values)
    }
  }

  function EntriesOf(names: seq<string>, values: map<string, Registered>): (entries: seq<Entry>)
    requires forall n :: n in names ==> n in values
    ensures |entries| == |names|
    ensures forall i :: 0 <= i < |names| ==> entries[i] == Entry(names[i], LabelOf(names[i], values[names[i]]))
  {
    if names == [] then [] else [Entry(names[0], LabelOf(names[0], values[names[0]]))] + EntriesOf(names[1..], values)
  }
}
