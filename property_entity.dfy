/** The behaviour of Property.java: attribute lookup and union, equality, hashing, logging. */
module PropertyEntity {
  import opened Wrappers
  import opened JavaText
  import opened Entities

  /** `Property(name, attributes)`: no owner, and the field default state Active. */
  function NewProperty(name: Option<string>, attributes: Option<set<Attribute>>): (p: Property)
    ensures p.name == name && p.attributes == attributes
    ensures p.owner.None? && p.state == Some(Active)
  {
    Property(name, None, Some(Active), attributes)
  }

  /** The attributes of `attrs` whose name is `name`. */
  function NamedIn(attrs: set<Attribute>, name: string): set<Attribute> {
    set a | a in attrs && a.name == Some(name)
  }

  /**
   * getAttribute: the attributes named `name`. Streaming a null attribute set
   * throws; an attribute with a null name never matches.
   */
  function GetAttribute(p: Property, name: string): (r: Result<set<Attribute>>)
    ensures r.Err? <==> p.attributes.None?
    ensures r.Err? ==> r.error == NullPointer
    ensures r.Ok? ==> forall a :: a in r.value <==> a in p.attributes.value && a.name == Some(name)
  {
    if p.attributes.None? then Err(NullPointer) else Ok(NamedIn(p.attributes.value, name))
  }

  /**
   * addAttributes(Set): adds every given attribute to the property's set
   * (addAll on a null set throws). Nothing but the attribute set changes.
   */
  function AddAttributes(p: Property, more: set<Attribute>): (r: Result<Property>)
    ensures r.Err? <==> p.attributes.None?
    ensures r.Ok? ==> r.value.attributes.Some?
    ensures r.Ok? ==> forall a :: a in r.value.attributes.value <==> a in p.attributes.value || a in more
    ensures r.Ok? ==> r.value.name == p.name && r.value.owner == p.owner && r.value.state == p.state
  {
    if p.attributes.None? then Err(NullPointer)
    else Ok(p.(attributes := Some(p.attributes.value + more)))
  }

  /** addAttributes(Attribute): the single-attribute form. */
  function AddAttribute(p: Property, attribute: Attribute): (r: Result<Property>)
    ensures r == AddAttributes(p, {attribute})
  {
    if p.attributes.None? then Err(NullPointer)
    else Ok(p.(attributes := Some(p.attributes.value + {attribute})))
  }

  /** Looking up a name after a union finds the old matches and the added ones. */
  lemma GetAttributeAfterAdd(p: Property, more: set<Attribute>, name: string)
    requires p.attributes.Some?
    ensures AddAttributes(p, more).Ok?
    ensures GetAttribute(AddAttributes(p, more).value, name)
         == Ok(GetAttribute(p, name).value + NamedIn(more, name))
  {
    var q := AddAttributes(p, more).value;
    assert NamedIn(q.attributes.value, name) == NamedIn(p.attributes.value, name) + NamedIn(more, name);
  }

  /** Adding the same attributes twice is adding them once. */
  lemma AddAttributesIdempotent(p: Property, more: set<Attribute>)
    requires p.attributes.Some?
    ensures AddAttributes(AddAttributes(p, more).value, more) == AddAttributes(p, more)
  {
    var once := p.attributes.value + more;
    assert once + more == once;
  }

  /** Property.equals: name and attribute set, both compared null-safely. */
  predicate PropertyEquals(a: Property, b: Property) {
    a.attributes == b.attributes && a.name == b.name
  }

  /**
   * Property.hashCode: 31 * (31 + hash(attributes)) + hash(name) in int
   * arithmetic, 0 standing for a null field. The hash of the attribute set
   * (AbstractSet.hashCode over Attribute.hashCode, which mixes in the identity
   * hash of the State constant) is the parameter `setHash`.
   */
  function PropertyHash(p: Property, setHash: set<Attribute> -> int): int {
    var attributesHash := if p.attributes.Some? then setHash(p.attributes.value) else 0;
    var nameHash := if p.name.Some? then StringHash(p.name.value) else 0;
    Wrap32(31 * Wrap32(31 + attributesHash) + nameHash)
  }

  /** equals holds exactly when the two properties differ at most in owner and state. */
  lemma PropertyEqualsIgnoresOwnerAndState(a: Property, b: Property)
    ensures PropertyEquals(a, b) <==> a.(owner := b.owner, state := b.state) == b
  {
  }

  /** Equal properties hash alike, whatever the attribute-set hash is. */
  lemma PropertyHashAgreesWithEquals(a: Property, b: Property, setHash: set<Attribute> -> int)
    requires PropertyEquals(a, b)
    ensures PropertyHash(a, setHash) == PropertyHash(b, setHash)
  {
  }

  /**
   * toLogger: the name alone (possibly null) when the attribute set is null,
   * otherwise name + "(" + the set's text + ")", where string concatenation
   * writes a null name as "null". The set's text is the parameter.
   */
  function ToLogger(p: Property, attributesText: string): (r: Option<string>)
    ensures p.attributes.None? ==> r == p.name
    ensures p.attributes.Some? ==> r.Some? && EndsWith(r.value, "(" + attributesText + ")")
    ensures p.attributes.Some? && p.name.Some? ==> StartsWith(r.value, p.name.value)
  {
    if p.attributes.None? then p.name
    else
      var text := p.name.GetOr("null") + "(" + attributesText + ")";
      assert text[|text| - |"(" + attributesText + ")"|..] == "(" + attributesText + ")";
      Some(text)
  }
}
