/**
 * LogEntryGroupHelper.java: the property that ties replies and grouped log
 * entries together, named "Log Entry Group" with one "id" attribute.
 */
module LogEntryGroupHelper {
  import opened Wrappers
  import opened Entities
  import opened PropertyEntity

  const LOG_ENTRY_GROUP: string := "Log Entry Group"
  const ATTRIBUTE_ID: string := "id"

  predicate IsGroupProperty(p: Property) {
    p.name == Some(LOG_ENTRY_GROUP)
  }

  /**
   * getLogEntryGroupProperty: the first property of the entry, in the set's
   * iteration order, named LOG_ENTRY_GROUP, or None. `getName().equals(...)`
   * throws on a property with a null name that is visited before a match.
   */
  method FindGroupProperty(properties: set<Property>) returns (r: Result<Option<Property>>)
    ensures r.Ok? && r.value.Some? ==> r.value.value in properties && IsGroupProperty(r.value.value)
    ensures r == Ok(None) ==> forall p :: p in properties ==> !IsGroupProperty(p)
    ensures r.Err? ==> r.error == NullPointer && exists p :: p in properties && p.name.None?
    ensures (forall p :: p in properties ==> p.name.Some?) ==> r.Ok?
  {
    var rest := properties;
    while rest != {}
      invariant rest <= properties
      invariant forall p :: p in properties && p !in rest ==> p.name.Some? && !IsGroupProperty(p)
      decreases rest
    {
      var p :| p in rest;
      if p.name.None? {
        return Err(NullPointer);
      }
      if IsGroupProperty(p) {
        return Ok(Some(p));
      }
      rest := rest - {p};
    }
    return Ok(None);
  }

  /** createNewLogEntryProperty, with the random UUID text as the parameter `uuid`. */
  function NewGroupProperty(uuid: string): (p: Property)
    ensures IsGroupProperty(p)
    ensures p.attributes.Some? && |p.attributes.value| == 1
    ensures GetAttribute(p, ATTRIBUTE_ID) == Ok(p.attributes.value)
  {
    var p := NewProperty(Some(LOG_ENTRY_GROUP), Some({Attribute(Some(ATTRIBUTE_ID), Some(uuid), Some(Active))}));
    assert NamedIn(p.attributes.value, ATTRIBUTE_ID) == p.attributes.value;
    p
  }

  /** The id values a group property carries. */
  function GroupIds(p: Property): set<Option<string>>
    requires p.attributes.Some?
  {
    set a | a in p.attributes.value && a.name == Some(ATTRIBUTE_ID) :: a.value
  }

  /** A new group property carries exactly the given id. */
  lemma NewGroupPropertyId(uuid: string)
    ensures GroupIds(NewGroupProperty(uuid)) == {Some(uuid)}
  {
    var p := NewGroupProperty(uuid);
    var a := Attribute(Some(ATTRIBUTE_ID), Some(uuid), Some(Active));
    assert a in p.attributes.value;
  }

  /**
   * Group properties made from different ids are different groups: their "id"
   * attributes differ, which is what grouping compares.
   */
  lemma NewGroupPropertiesDiffer(u1: string, u2: string)
    requires u1 != u2
    ensures GetAttribute(NewGroupProperty(u1), ATTRIBUTE_ID) != GetAttribute(NewGroupProperty(u2), ATTRIBUTE_ID)
  {
    NewGroupPropertyId(u1);
    NewGroupPropertyId(u2);
  }
}
