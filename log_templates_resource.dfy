/**
 * LogTemplateResource.java over the template repository, seen as a map from a
 * template's id to the template. The repository's save gives a template the
 * next id of the sequence generator and the current time as its creation
 * date; both are parameters here. The names of the persisted logbooks and
 * tags come from their repositories and are parameters too.
 */
module LogTemplates {
  import opened Wrappers
  import opened JavaText
  import opened Entities
  import opened LogTemplateEntity

  /**
   * The duplicate-name test as written: the stored name equals the new name
   * trimmed and lower-cased, the stored name itself is not lower-cased.
   */
  predicate NameClashAsWritten(stored: LogTemplate, name: string) {
    stored.name == Some(Lower(Trim(name)))
  }

  /**
   * The duplicate-name test the comment asks for ("same case-insensitive
   * name"): the stored name equals the trimmed new name, ignoring case.
   */
  predicate NameClash(stored: LogTemplate, name: string) {
    stored.name.Some? && EqualsIgnoreCase(stored.name.value, Trim(name))
  }

  lemma LowerIdempotent(s: string)
    ensures Lower(Lower(s)) == Lower(s)
  {
  }

  /** Every clash the code as written finds is a case-insensitive clash. */
  lemma AsWrittenClashIsClash(stored: LogTemplate, name: string)
    requires NameClashAsWritten(stored, name)
    ensures NameClash(stored, name)
  {
    LowerIdempotent(Trim(name));
  }

  /**
   * A template named "Shift" is stored under that name; posting "Shift" again
   * passes the test as written, because "shift" is compared with "Shift".
   */
  lemma SameNameTwiceAccepted()
    ensures !NameClashAsWritten(NewTemplate().(name := Some("Shift")), "Shift")
    ensures NameClash(NewTemplate().(name := Some("Shift")), "Shift")
  {
    assert Trim("Shift") == "Shift";
    assert Lower("Shift")[0] == 's';
  }

  /** A stored template "name" and a new template "Name" clash under both tests. */
  lemma LowerCaseStoredNameClashes()
    ensures NameClashAsWritten(NewTemplate().(name := Some("name")), "Name")
    ensures NameClash(NewTemplate().(name := Some("name")), "Name")
  {
    assert Trim("Name") == "Name";
    assert Lower("Name") == "name";
    AsWrittenClashIsClash(NewTemplate().(name := Some("name")), "Name");
  }

  /**
   * The duplicate scan as written: the loop asks the list for a fresh
   * iterator on every round and so only ever inspects the first stored
   * template; when that one does not clash, the loop never ends. A null name,
   * stored or new, throws.
   */
  function DuplicateScanAsWritten(name: Option<string>, stored: seq<LogTemplate>): (v: Verdict)
    ensures v == Accept <==> stored == []
  {
    if stored == [] then Accept
    else if stored[0].name.None? || name.None? then Reject(NullPointer)
    else if NameClashAsWritten(stored[0], name.value) then Reject(BadRequest)
    else Diverge
  }

  /**
   * `v` is a way the scan as written can end over the stored templates
   * `stored`: it only inspects the template the repository lists first,
   * whichever template that is.
   */
  ghost predicate ScanEndsAsWritten(name: Option<string>, stored: set<LogTemplate>, v: Verdict) {
    if stored == {} then v == DuplicateScanAsWritten(name, [])
    else exists t :: t in stored && v == DuplicateScanAsWritten(name, [t])
  }

  /** With one template stored, creating any template of another name hangs. */
  lemma SecondTemplateHangs()
    ensures DuplicateScanAsWritten(Some("Beam"), [NewTemplate().(name := Some("shift"))]) == Diverge
    ensures !NameClash(NewTemplate().(name := Some("shift")), "Beam")
  {
    assert Trim("Beam") == "Beam";
    assert Lower("Beam")[0] == 'b';
  }

  /** The names of a template's tags. */
  function TemplateTagNames(t: LogTemplate): set<Option<string>> {
    TagNames(t.tags)
  }

  /**
   * The checks of createLogTemplate after the duplicate scan: every logbook
   * name is persisted, and so is every tag name when there are tags.
   */
  predicate ReferencesPersisted(t: LogTemplate, logbookNames: set<Option<string>>, tagNames: set<Option<string>>) {
    LogbookNames(t.logbooks) <= logbookNames && (t.tags == {} || TemplateTagNames(t) <= tagNames)
  }

  class LogTemplateResource {
    /** The template index, by id. */
    var templates: map<string, LogTemplate>

    /** Each template is stored under its own id. */
    ghost predicate Valid()
      reads this
    {
      forall id :: id in templates ==> templates[id].id == Some(id)
    }

    constructor ()
      ensures templates == map[] && Valid()
    {
      templates := map[];
    }

    /** getAllTemplates: every stored template. */
    function AllTemplates(): (r: set<LogTemplate>)
      reads this
      ensures forall id :: id in templates ==> templates[id] in r
      ensures forall t :: t in r ==> exists id :: id in templates && templates[id] == t
    {
      templates.Values
    }

    /**
     * The duplicate scan of createLogTemplate as intended, visiting every
     * stored template once: 400 on a clash ignoring case. Trimming a null new
     * name throws once there is a stored template to compare with. This is the
     * corrected half of the findings on the scan; createLogTemplate runs the
     * scan as written.
     */
    method ScanForDuplicateIntended(name: Option<string>) returns (r: Result<()>)
      ensures templates == map[] ==> r == Ok(())
      ensures templates != map[] && name.None? ==> r == Err(NullPointer)
      ensures name.Some? ==> (r.Ok? <==> forall id :: id in templates ==> !NameClash(templates[id], name.value))
      ensures name.Some? && r.Err? ==> r.error == BadRequest
    {
      var rest := templates.Values;
      if rest != {} && name.None? {
        return Err(NullPointer);
      }
      while rest != {}
        invariant rest <= templates.Values
        invariant name.Some? ==> forall t :: t in templates.Values && t !in rest ==> !NameClash(t, name.value)
        decreases rest
      {
        var t :| t in rest;
        if NameClash(t, name.value) {
          assert exists id :: id in templates && templates[id] == t;
          return Err(BadRequest);
        }
        rest := rest - {t};
      }
      if name.Some? {
        assert forall id :: id in templates ==> templates[id] in templates.Values;
      }
      return Ok(());
    }

    /**
     * The duplicate scan of createLogTemplate as written: the loop takes a
     * fresh iterator on every round, so it only ever inspects the template the
     * repository lists first. It passes only when no template is stored; a
     * null name, stored or new, throws; a case-sensitive match with the
     * lower-cased new name is a 400; anything else never returns (`Hangs`).
     * Every 400 it gives is a clash ignoring case.
     */
    method ScanForDuplicate(name: Option<string>) returns (r: Result<()>)
      ensures ScanEndsAsWritten(name, AllTemplates(), Outcome(r))
      ensures r.Ok? <==> templates == map[]
      ensures r == Err(BadRequest) ==> name.Some? && exists id :: id in templates && NameClash(templates[id], name.value)
      ensures r == Err(NullPointer) ==> name.None? || exists id :: id in templates && templates[id].name.None?
    {
      var stored := templates.Values;
      if stored == {} {
        return Ok(());
      }
      var first :| first in stored;
      if first.name.None? || name.None? {
        return Err(NullPointer);
      }
      if NameClashAsWritten(first, name.value) {
        AsWrittenClashIsClash(first, name.value);
        return Err(BadRequest);
      }
      return Err(Hangs);
    }

    /**
     * createLogTemplate: the duplicate scan as written, the owner set to the
     * principal, the logbook and tag checks, then the save under a fresh id
     * `id` at time `now`. As written the scan lets a template through only
     * when none is stored.
     */
    method CreateLogTemplate(template: LogTemplate, principal: string, logbookNames: set<Option<string>>,
                             tagNames: set<Option<string>>, id: string, now: Instant)
      returns (r: Result<LogTemplate>)
      requires Valid()
      modifies this
      ensures Valid()
      ensures r.Err? ==> templates == old(templates)
      ensures old(templates) != map[] ==> ScanEndsAsWritten(template.name, old(AllTemplates()), Outcome(r))
      ensures old(templates) == map[] && !ReferencesPersisted(template, logbookNames, tagNames) ==> r == Err(BadRequest)
      ensures r.Ok? <==> old(templates) == map[] && ReferencesPersisted(template, logbookNames, tagNames)
      ensures r == Err(BadRequest) && old(templates) != map[] ==>
        template.name.Some? && exists k :: k in old(templates) && NameClash(old(templates)[k], template.name.value)
      ensures r.Ok? ==> r.value == template.(owner := Some(principal), id := Some(id), createdDate := Some(now))
      ensures r.Ok? ==> templates == old(templates)[id := r.value]
    {
      var scan := ScanForDuplicate(template.name);
      if scan.Err? {
        return Err(scan.error);
      }
      var owned := template.(owner := Some(principal));
      if !(LogbookNames(owned.logbooks) <= logbookNames) {
        return Err(BadRequest);
      }
      if owned.tags != {} && !(TemplateTagNames(owned) <= tagNames) {
        return Err(BadRequest);
      }
      var saved := owned.(id := Some(id), createdDate := Some(now));
      templates := templates[id := saved];
      return Ok(saved);
    }
  }
}
