/**
 * PropertiesResource.java over the property repository, seen as a map from a
 * property's name to the property. The repository saves a property under its
 * own name and deletes softly, by marking it Inactive; findAll lists the
 * active properties unless the inactive ones are asked for too.
 */
module Properties {
  import opened Wrappers
  import opened Entities
  import opened Stores

  predicate IsFilled(s: Option<string>) {
    s.Some? && s.value != ""
  }

  /** validateAttributeRequest(Attribute): a non-empty name and a state (the value is not checked). */
  predicate IsValidAttribute(a: Attribute) {
    IsFilled(a.name) && a.state.Some?
  }

  /** The checks of validatePropertyRequest made before the attributes: name, owner and state. */
  predicate HasValidHeader(p: Property) {
    IsFilled(p.name) && IsFilled(p.owner) && p.state.Some?
  }

  /** Everything validatePropertyRequest checks. */
  predicate IsValidProperty(p: Property) {
    HasValidHeader(p) && p.attributes.Some? && forall a :: a in p.attributes.value ==> IsValidAttribute(a)
  }

  /**
   * How validatePropertyRequest fails on an invalid property: iterating a null
   * attribute set throws, every other defect is a 400.
   */
  function PropertyError(p: Property): Error {
    if HasValidHeader(p) && p.attributes.None? then NullPointer else BadRequest
  }

  function RetireProperty(p: Property): Property { p.Retired() }

  function IsActiveProperty(p: Property): bool { p.state == Some(Active) }

  /** A batch keyed by the properties' names, as saveAll indexes it. */
  function Keyed(batch: seq<Property>): (keyed: seq<(string, Property)>)
    ensures |keyed| == |batch|
    ensures forall i :: 0 <= i < |batch| ==> keyed[i] == (batch[i].name.GetOr(""), batch[i])
  {
    if batch == [] then [] else Keyed(batch[..|batch| - 1]) + [(batch[|batch| - 1].name.GetOr(""), batch[|batch| - 1])]
  }

  /** validateAttributeRequest(Iterable): the first invalid attribute stops the request with 400. */
  method ValidateAttributeRequest(attributes: set<Attribute>) returns (r: Result<()>)
    ensures r.Ok? <==> forall a :: a in attributes ==> IsValidAttribute(a)
    ensures r.Err? ==> r.error == BadRequest
  {
    var rest := attributes;
    while rest != {}
      invariant rest <= attributes
      invariant forall a :: a in attributes && a !in rest ==> IsValidAttribute(a)
      decreases rest
    {
      var a :| a in rest;
      if !IsValidAttribute(a) {
        return Err(BadRequest);
      }
      rest := rest - {a};
    }
    return Ok(());
  }

  /** validatePropertyRequest(Property): name, owner, state, then each attribute. */
  method ValidatePropertyRequest(p: Property) returns (r: Result<()>)
    ensures r.Ok? <==> IsValidProperty(p)
    ensures r.Err? ==> r.error == PropertyError(p)
  {
    if !IsFilled(p.name) || !IsFilled(p.owner) || p.state.None? {
      return Err(BadRequest);
    }
    if p.attributes.None? {
      return Err(NullPointer);
    }
    r := ValidateAttributeRequest(p.attributes.value);
  }

  /** validatePropertyRequest(Iterable): the first invalid property decides the failure. */
  method ValidatePropertiesRequest(batch: seq<Property>) returns (r: Result<()>)
    ensures r.Ok? <==> forall i :: 0 <= i < |batch| ==> IsValidProperty(batch[i])
    ensures r.Err? ==>
      (exists i :: 0 <= i < |batch| && !IsValidProperty(batch[i])
         && (forall j :: 0 <= j < i ==> IsValidProperty(batch[j]))
         && r.error == PropertyError(batch[i]))
  {
    for i := 0 to |batch|
      invariant forall j :: 0 <= j < i ==> IsValidProperty(batch[j])
    {
      var checked := ValidatePropertyRequest(batch[i]);
      if checked.Err? {
        return checked;
      }
    }
    return Ok(());
  }

  class PropertiesResource {
    /** The property index: every property ever saved, under its name. */
    var properties: map<string, Property>

    /** Each property is stored under its own name. */
    ghost predicate Valid()
      reads this
    {
      forall n :: n in properties ==> properties[n].name == Some(n)
    }

    constructor ()
      ensures properties == map[] && Valid()
    {
      properties := map[];
    }

    /** findAll(inactive): the active properties, or every stored one when `inactive` is set. */
    function FindAll(inactive: bool): (r: set<Property>)
      reads this
      ensures forall p :: p in r <==> p in properties.Values && (inactive || p.state == Some(Active))
    {
      set n | n in properties && (inactive || properties[n].state == Some(Active)) :: properties[n]
    }

    /** findByTitle: the stored property of that name, active or not; 404 when there is none. */
    method FindByTitle(name: string) returns (r: Result<Property>)
      ensures name in properties ==> r == Ok(properties[name])
      ensures name !in properties ==> r == Err(NotFound)
    {
      if name in properties {
        return Ok(properties[name]);
      }
      return Err(NotFound);
    }

    /**
     * createProperty: after validation, a property stored under the path name
     * is soft-deleted; the body, its owner replaced by the principal, is saved
     * under its own name.
     */
    method CreateProperty(name: string, property: Property, principal: string) returns (r: Result<Property>)
      requires Valid()
      modifies this
      ensures Valid()
      ensures r.Err? <==> !IsValidProperty(property)
      ensures r.Err? ==> r.error == PropertyError(property) && properties == old(properties)
      ensures r.Ok? ==> r.value == property.(owner := Some(principal))
      ensures r.Ok? ==> properties == Retire(old(properties), name, RetireProperty)[property.name.value := r.value]
    {
      var checked := ValidatePropertyRequest(property);
      if checked.Err? {
        return Err(checked.error);
      }
      if name in properties {
        properties := properties[name := properties[name].Retired()];
      }
      var saved := property.(owner := Some(principal));
      properties := properties[property.name.value := saved];
      return Ok(saved);
    }

    /**
     * updateProperty: every property is validated before any write; then each
     * stored namesake is soft-deleted and the batch is saved as sent (the
     * owner is not replaced here).
     */
    method UpdateProperty(batch: seq<Property>) returns (r: Result<seq<Property>>)
      requires Valid()
      modifies this
      ensures Valid()
      ensures r.Ok? <==> forall i :: 0 <= i < |batch| ==> IsValidProperty(batch[i])
      ensures r.Err? ==> properties == old(properties)
      ensures r.Err? ==> exists i :: 0 <= i < |batch| && !IsValidProperty(batch[i]) && r.error == PropertyError(batch[i])
      ensures r.Ok? ==> r.value == batch && properties == old(properties) + Written(Keyed(batch))
    {
      var checked := ValidatePropertiesRequest(batch);
      if checked.Err? {
        return Err(checked.error);
      }
      WriteProperties(batch);
      return Ok(batch);
    }

    /** The writes of updateProperty: soft deletes, then saveAll. The soft deletes are all overwritten. */
    method WriteProperties(batch: seq<Property>)
      requires Valid()
      requires forall i :: 0 <= i < |batch| ==> IsFilled(batch[i].name)
      modifies this
      ensures Valid()
      ensures properties == old(properties) + Written(Keyed(batch))
    {
      ghost var before := properties;
      RetireEach(Names(Keyed(batch)));
      properties := SaveAll(properties, Keyed(batch));
      RetiredThenSaved(before, Keyed(batch), RetireProperty);
      KeyedWrittenValid(batch);
    }

    /** The soft-delete loop of updateProperty: each stored namesake in turn is marked Inactive. */
    method RetireEach(names: seq<string>)
      modifies this
      ensures properties == RetireAll(old(properties), names, RetireProperty)
    {
      ghost var before := properties;
      for i := 0 to |names|
        invariant properties == RetireAll(before, names[..i], RetireProperty)
      {
        assert names[..i + 1][..i] == names[..i];
        if names[i] in properties {
          properties := properties[names[i] := properties[names[i]].Retired()];
        }
      }
      assert names[..|names|] == names;
    }

    /** deleteProperty: a stored property is soft-deleted; 404 when there is none. */
    method DeleteProperty(name: string) returns (r: Result<()>)
      requires Valid()
      modifies this
      ensures Valid()
      ensures name !in old(properties) ==> r == Err(NotFound) && properties == old(properties)
      ensures name in old(properties) ==> r == Ok(()) && properties == Retire(old(properties), name, RetireProperty)
    {
      if name !in properties {
        return Err(NotFound);
      }
      properties := properties[name := properties[name].Retired()];
      return Ok(());
    }
  }

  /** A batch of named properties, keyed by name, stores each under its own name. */
  lemma {:induction false} KeyedWrittenValid(batch: seq<Property>)
    requires forall i :: 0 <= i < |batch| ==> IsFilled(batch[i].name)
    ensures forall n :: n in Written(Keyed(batch)) ==> Written(Keyed(batch))[n].name == Some(n)
  {
    if batch != [] {
      var init := batch[..|batch| - 1];
      KeyedWrittenValid(init);
      assert Keyed(batch)[..|batch| - 1] == Keyed(init);
    }
  }

  /**
   * A deleted property is still stored, now Inactive: it is listed with the
   * inactive ones and its name drops out of the active ones.
   */
  lemma DeletedStillListedAsInactive(properties: map<string, Property>, name: string)
    requires name in properties
    ensures Retire(properties, name, RetireProperty)[name].state == Some(Inactive)
    ensures ActiveNames(Retire(properties, name, RetireProperty), IsActiveProperty)
         == ActiveNames(properties, IsActiveProperty) - {name}
  {
    RetireHides(properties, name, RetireProperty, IsActiveProperty);
  }

  /** A property with an attribute lacking a name or a state is refused, whatever else it holds. */
  lemma InvalidAttributeRefused(p: Property, a: Attribute)
    requires p.attributes.Some? && a in p.attributes.value && !IsValidAttribute(a)
    ensures !IsValidProperty(p) && PropertyError(p) == BadRequest
  {
  }
}
