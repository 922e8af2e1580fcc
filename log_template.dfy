/** LogTemplate.java: a template for a log entry, equal to another by case-insensitive name. */
module LogTemplateEntity {
  import opened Wrappers
  import opened JavaText
  import opened Entities

  const DEFAULT_LEVEL: string := "Info"

  datatype LogTemplate = LogTemplate(
    name: Option<string>,
    id: Option<string>,
    owner: Option<string>,
    source: Option<string>,
    title: Option<string>,
    level: Option<string>,
    createdDate: Option<Instant>,
    modifyDate: Option<Instant>,
    logbooks: LogbookSet,
    tags: TagSet,
    properties: PropertySet)

  /** `new LogTemplate()`: level "Info", empty sets, every other field null. */
  function NewTemplate(): (t: LogTemplate)
    ensures t.level == Some(DEFAULT_LEVEL)
    ensures t.name.None? && t.id.None? && t.owner.None? && t.title.None?
    ensures t.logbooks == {} && t.tags == {} && t.properties == {}
  {
    LogTemplate(None, None, None, None, None, Some(DEFAULT_LEVEL), None, None, {}, {}, {})
  }

  /** The argument of equals: null, a LogTemplate, or an object of another class. */
  datatype Other = Null | Template(template: LogTemplate) | OtherObject

  /**
   * LogTemplate.equals: false unless the argument is a LogTemplate; then the
   * argument's name (dereferenced, so a null name throws) equalsIgnoreCase
   * this template's name (false when that is null).
   */
  function TemplateEquals(t: LogTemplate, other: Other): (r: Result<bool>)
    ensures !other.Template? ==> r == Ok(false)
    ensures r.Err? <==> other.Template? && other.template.name.None?
    ensures r == Ok(true) ==> t.name.Some? && other.Template? && other.template.name.Some?
  {
    match other
    case Template(o) =>
      if o.name.None? then Err(NullPointer)
      else Ok(t.name.Some? && RegionEqualsIgnoreCase(o.name.value, t.name.value))
    case _ => Ok(false)
  }

  /** LogTemplate.hashCode: the String hash of the lower-cased name; a null name throws. */
  function TemplateHash(t: LogTemplate): (r: Result<int>)
    ensures r.Err? <==> t.name.None?
    ensures r.Ok? ==> INT_MIN <= r.value <= INT_MAX
  {
    if t.name.None? then Err(NullPointer) else Ok(StringHash(Lower(t.name.value)))
  }

  /** Between named templates, equals is comparison of the lower-cased names. */
  lemma TemplateEqualsIsLowerCaseName(a: LogTemplate, b: LogTemplate)
    requires a.name.Some? && b.name.Some?
    ensures TemplateEquals(a, Template(b)) == Ok(Lower(a.name.value) == Lower(b.name.value))
  {
    EqualsIgnoreCaseIsLower(b.name.value, a.name.value);
  }

  /** Templates that are equal have equal hash codes. */
  lemma TemplateHashAgreesWithEquals(a: LogTemplate, b: LogTemplate)
    requires TemplateEquals(a, Template(b)) == Ok(true)
    ensures TemplateHash(a).Ok? && TemplateHash(a) == TemplateHash(b)
  {
    EqualsIgnoreCaseIsLower(b.name.value, a.name.value);
  }

  /** equals is symmetric between named templates. */
  lemma TemplateEqualsSymmetric(a: LogTemplate, b: LogTemplate)
    requires a.name.Some? && b.name.Some?
    ensures TemplateEquals(a, Template(b)) == TemplateEquals(b, Template(a))
  {
    TemplateEqualsIsLowerCaseName(a, b);
    TemplateEqualsIsLowerCaseName(b, a);
  }
}
