/**
 * LogResource.java over the log repository, seen as a map from the text of an
 * entry's id to the entry, with the archive index as the list of archived
 * versions and the attachment repository as a map from attachment id to
 * attachment metadata. The sequence generator's next id, the current time,
 * the authenticated principal, random UUIDs and the names of the persisted
 * logbooks and tags are parameters.
 */
module Logs {
  import opened Wrappers
  import opened JavaText
  import opened Entities
  import opened LogEntity
  import opened PropertyEntity
  import opened LogEntryGroupHelper

  /** The default of the `inReplyTo` request parameter: not a reply. */
  const NO_REPLY: string := "-1"

  /** A log as LogBuilder.build leaves it: source, description and title are set. */
  predicate IsBuilt(log: Log) {
    log.source.Some? && log.description.Some? && log.title.Some?
  }

  /** `createLog(log).build()`: the copy the repository indexes; a null source becomes "". */
  function Normalised(log: Log): (r: Log)
    requires log.description.Some? && log.title.Some?
    ensures IsBuilt(r)
    ensures r.(source := log.source) == log
    ensures IsBuilt(log) ==> r == log
  {
    log.(source := Some(log.source.GetOr("")))
  }

  /**
   * What LogRepository.save indexes: the builder copy with the generated id
   * and the creation time. An entry sent as JSON carries attachment metadata
   * without content, and save keeps only attachments with content, so the
   * saved entry has none.
   */
  function Persisted(log: Log, id: int, now: Instant): (r: Log)
    requires log.description.Some? && log.title.Some?
    ensures IsBuilt(r) && r.id == Some(id) && r.createdDate == Some(now) && r.attachments == {}
    ensures r.owner == log.owner && r.logbooks == log.logbooks && r.tags == log.tags
    ensures r.properties == log.properties && r.level == log.level && r.title == log.title
  {
    Normalised(log).(id := Some(id), createdDate := Some(now), attachments := {})
  }

  /** The group properties among `ps`. */
  function GroupsOf(ps: set<Property>): (r: set<Property>)
    ensures forall p :: p in r <==> p in ps && IsGroupProperty(p)
  {
    set p | p in ps && IsGroupProperty(p)
  }

  /** The properties among `ps` that are not group properties. */
  function NonGroup(ps: set<Property>): (r: set<Property>)
    ensures forall p :: p in r <==> p in ps && !IsGroupProperty(p)
  {
    set p | p in ps && !IsGroupProperty(p)
  }

  /** Every property has a name, so the group lookup cannot throw. */
  predicate NamesKnown(ps: set<Property>) {
    forall p :: p in ps ==> p.name.Some?
  }

  /** The logbook and tag checks of createLog, against the persisted names. */
  predicate ReferencesPersisted(log: Log, logbookNames: set<Option<string>>, tagNames: set<Option<string>>) {
    LogbookNames(log.logbooks) <= logbookNames && (log.tags == {} || TagNames(log.tags) <= tagNames)
  }

  /**
   * The first checks of createLog, in order: no logbook is a 400; the title
   * is dereferenced, so a null title throws; an empty title is a 400.
   */
  function EntryError(log: Log): (e: Option<Error>)
    ensures e.None? <==> log.logbooks != {} && log.title.Some? && log.title.value != ""
    ensures e == Some(NullPointer) <==> log.logbooks != {} && log.title.None?
  {
    if log.logbooks == {} then Some(BadRequest)
    else if log.title.None? then Some(NullPointer)
    else if log.title.value == "" then Some(BadRequest)
    else None
  }

  /** Two group properties stand for the same group: their "id" attributes agree. */
  predicate SameGroup(p: Property, q: Property) {
    GetAttribute(p, ATTRIBUTE_ID) == GetAttribute(q, ATTRIBUTE_ID)
  }

  /** The entries `a` and `b` are already in different groups. */
  predicate InDifferentGroups(a: Log, b: Log) {
    exists g, h :: g in GroupsOf(a.properties) && h in GroupsOf(b.properties) && !SameGroup(g, h)
  }

  /**
   * A file of a multipart request: its form-field name, the client's file
   * name, its declared content type, and the type content detection reports
   * for it.
   */
  datatype UploadedFile = UploadedFile(name: string, originalFilename: Option<string>,
                                       contentType: Option<string>, detectedType: string)

  /** `t` occurs in `s` at index `i`. */
  predicate OccursAt(s: string, t: string, i: int) {
    0 <= i && i + |t| <= |s| && s[i..i + |t|] == t
  }

  /** String.contains. */
  predicate ContainsText(s: string, t: string) {
    exists i :: 0 <= i <= |s| && OccursAt(s, t, i)
  }

  /** The detected type, lower-cased, names HEIC or HEIF content. */
  predicate IsHeic(f: UploadedFile) {
    ContainsText(Lower(f.detectedType), "heic") || ContainsText(Lower(f.detectedType), "heif")
  }

  /**
   * What checkSupportedAttachmentTypes returns: null for a missing or empty
   * file array, IllegalArgumentException when some file is HEIC or HEIF, the
   * files otherwise.
   */
  function SupportedFiles(files: Option<seq<UploadedFile>>): (r: Result<Option<seq<UploadedFile>>>)
    ensures r.Err? ==> r.error == IllegalArgument
    ensures r.Ok? && r.value.Some? ==> r.value == files && forall i :: 0 <= i < |files.value| ==> !IsHeic(files.value[i])
  {
    if files.None? || files.value == [] then Ok(None)
    else if exists i :: 0 <= i < |files.value| && IsHeic(files.value[i]) then Err(IllegalArgument)
    else Ok(files)
  }

  /**
   * The file loop of the multipart createLog as written: it runs when the
   * request has a file array and iterates the list checkSupportedAttachmentTypes
   * returned, which is null for an empty array.
   */
  function AttachLoopAsWritten(files: Option<seq<UploadedFile>>, checked: Option<seq<UploadedFile>>): (r: Result<seq<UploadedFile>>)
    ensures r.Err? <==> files.Some? && checked.None?
  {
    if files.None? then Ok([])
    else if checked.None? then Err(NullPointer)
    else Ok(checked.value)
  }

  /** The files the loop is meant to visit: none when there are none. */
  function FilesToAttach(checked: Option<seq<UploadedFile>>): (r: seq<UploadedFile>)
    ensures checked.Some? ==> r == checked.value
    ensures checked.None? ==> r == []
  {
    checked.GetOr([])
  }

  /**
   * An entry with no attachment metadata, sent with an empty file array,
   * passes the count check and the type check, is saved, and then the file
   * loop dereferences null; the intended loop has nothing to do.
   */
  lemma EmptyFileArrayFailsAfterSave()
    ensures var files: Option<seq<UploadedFile>> := Some([]); var none: set<Attachment> := {};
      |files.value| == |none|
      && SupportedFiles(files) == Ok(None)
      && AttachLoopAsWritten(files, SupportedFiles(files).value) == Err(NullPointer)
      && FilesToAttach(SupportedFiles(files).value) == []
  {
  }

  /** Where the loop as written does not throw, it visits the intended files. */
  lemma AttachLoopAgreesWhenItRuns(files: Option<seq<UploadedFile>>)
    requires SupportedFiles(files).Ok?
    requires AttachLoopAsWritten(files, SupportedFiles(files).value).Ok?
    ensures AttachLoopAsWritten(files, SupportedFiles(files).value).value == FilesToAttach(SupportedFiles(files).value)
  {
  }

  /** saveAttachment's file name: the given one, or the form-field name when it is null or empty. */
  function StoredFilename(file: UploadedFile, filename: Option<string>): (r: Option<string>)
    ensures r.Some?
    ensures filename.Some? && filename.value != "" ==> r == filename
  {
    if filename.None? || filename.value == "" then Some(file.name) else filename
  }

  /** saveAttachment's description: the given one, or the file's content type when it is null or empty. */
  function StoredDescription(file: UploadedFile, description: Option<string>): (r: Option<string>)
    ensures description.Some? && description.value != "" ==> r == description
    ensures description.None? || description.value == "" ==> r == file.contentType
  {
    if description.None? || description.value == "" then file.contentType else description
  }

  /** AttachmentRepository.save's key: the client's id when it is set, the generated object id otherwise. */
  function AttachmentKey(id: Option<string>, objectId: string): (k: string)
    ensures id.Some? && id.value != "" ==> k == id.value
  {
    if id.Some? && id.value != "" then id.value else objectId
  }

  /** The client attachment a file is saved under: the first whose file name is the file's. */
  predicate MatchesFile(a: Attachment, file: UploadedFile) {
    a.filename.Some? && a.filename == file.originalFilename
  }

  /** The attachment saveAttachment stores for `file` described by the client attachment `a`. */
  function SavedAttachment(a: Attachment, file: UploadedFile, objectId: string): (s: Attachment)
    ensures s.filename == StoredFilename(file, file.originalFilename)
    ensures s.fileMetadataDescription == StoredDescription(file, a.fileMetadataDescription)
    ensures s.id == Some(AttachmentKey(a.id, objectId))
  {
    Attachment(Some(AttachmentKey(a.id, objectId)), StoredFilename(file, file.originalFilename),
               StoredDescription(file, a.fileMetadataDescription))
  }

  /**
   * `s` is what the file loop of the multipart createLog stores for `file`:
   * the attachment saved from a client attachment of the same file name, or
   * nothing when none matches. The client attachments are a set and the loop
   * takes the stream's findFirst, so any matching one may be used.
   */
  ghost predicate SavedFor(client: set<Attachment>, file: UploadedFile, objectId: string, s: Option<Attachment>) {
    if exists c :: c in client && MatchesFile(c, file)
    then exists c :: c in client && MatchesFile(c, file) && s == Some(SavedAttachment(c, file, objectId))
    else s.None?
  }

  /** `stored` is what the file loop stores for each of `files` in turn, file `i` under the object id `objectIdOf(i)`. */
  ghost predicate SavedForFiles(client: set<Attachment>, files: seq<UploadedFile>, objectIdOf: nat -> string,
                                stored: seq<Option<Attachment>>) {
    |stored| == |files| && forall i :: 0 <= i < |files| ==> SavedFor(client, files[i], objectIdOf(i), stored[i])
  }

  /** The attachments among `stored`. */
  function SavedSet(stored: seq<Option<Attachment>>): set<Attachment> {
    set i | 0 <= i < |stored| && stored[i].Some? :: stored[i].value
  }

  /**
   * The attachment repository after saving the attachments of `stored` in
   * order, each under its id: a later attachment with the same id replaces an
   * earlier one.
   */
  function StoreSaved(m: map<string, Attachment>, stored: seq<Option<Attachment>>): map<string, Attachment>
    decreases |stored|
  {
    if stored == [] then m
    else
      var init := StoreSaved(m, stored[..|stored| - 1]);
      match stored[|stored| - 1]
      case Some(a) => if a.id.Some? then init[a.id.value := a] else init
      case None => init
  }

  /** One more file of the loop adds its attachment, if any, to the entry and to the repository. */
  lemma SavedAppend(m: map<string, Attachment>, stored: seq<Option<Attachment>>, s: Option<Attachment>)
    ensures SavedSet(stored + [s]) == SavedSet(stored) + SavedSet([s])
    ensures StoreSaved(m, stored + [s]) == StoreSaved(StoreSaved(m, stored), [s])
  {
    assert (stored + [s])[..|stored|] == stored;
    assert [s][..0] == [];
    forall a | a in SavedSet(stored + [s])
      ensures a in SavedSet(stored) + SavedSet([s])
    {
      var i :| 0 <= i < |stored| + 1 && (stored + [s])[i].Some? && (stored + [s])[i].value == a;
      if i == |stored| {
        assert [s][0].Some? && [s][0].value == a;
      } else {
        assert stored[i].Some? && stored[i].value == a;
      }
    }
    forall a | a in SavedSet(stored) + SavedSet([s])
      ensures a in SavedSet(stored + [s])
    {
      if a in SavedSet(stored) {
        var i :| 0 <= i < |stored| && stored[i].Some? && stored[i].value == a;
        assert (stored + [s])[i] == stored[i];
      } else {
        assert (stored + [s])[|stored|] == s;
      }
    }
  }

  /** What the loop stored for the first `i` files, then for file `i`, is what it stored for the first `i + 1` files. */
  lemma SavedForNext(client: set<Attachment>, files: seq<UploadedFile>, objectIdOf: nat -> string,
                     stored: seq<Option<Attachment>>, i: nat, s: Option<Attachment>)
    requires i < |files| && SavedForFiles(client, files[..i], objectIdOf, stored)
    requires SavedFor(client, files[i], objectIdOf(i), s)
    ensures SavedForFiles(client, files[..i + 1], objectIdOf, stored + [s])
  {
    forall j | 0 <= j < i + 1
      ensures SavedFor(client, files[..i + 1][j], objectIdOf(j), (stored + [s])[j])
    {
      if j < i {
        assert files[..i + 1][j] == files[..i][j];
      }
    }
  }

  /**
   * An attachment the file loop saved under its id is found there afterwards
   * unless a later file's attachment took the same id.
   */
  lemma {:induction false} StoreSavedFinds(m: map<string, Attachment>, stored: seq<Option<Attachment>>, i: nat)
    requires i < |stored| && stored[i].Some? && stored[i].value.id.Some?
    requires forall j :: i < j < |stored| && stored[j].Some? ==> stored[j].value.id != stored[i].value.id
    ensures stored[i].value.id.value in StoreSaved(m, stored)
    ensures StoreSaved(m, stored)[stored[i].value.id.value] == stored[i].value
    decreases |stored|
  {
    var init := stored[..|stored| - 1];
    if i < |stored| - 1 {
      assert init[i] == stored[i];
      StoreSavedFinds(m, init, i);
    }
  }

  /** checkSupportedAttachmentTypes: the detection loop, which stops at the first HEIC or HEIF file. */
  method CheckSupportedAttachmentTypes(files: Option<seq<UploadedFile>>) returns (r: Result<Option<seq<UploadedFile>>>)
    ensures r == SupportedFiles(files)
  {
    if files.None? || files.value == [] {
      return Ok(None);
    }
    var accepted: seq<UploadedFile> := [];
    for i := 0 to |files.value|
      invariant accepted == files.value[..i]
      invariant forall j :: 0 <= j < i ==> !IsHeic(files.value[j])
    {
      if IsHeic(files.value[i]) {
        return Err(IllegalArgument);
      }
      accepted := accepted + [files.value[i]];
    }
    assert accepted == files.value;
    return Ok(Some(accepted));
  }

  /** The attachments whose file name is `name`. */
  function NamedAttachments(atts: set<Attachment>, name: string): (r: set<Attachment>)
    ensures forall a :: a in r <==> a in atts && a.filename == Some(name)
  {
    set a | a in atts && a.filename == Some(name)
  }

  /** At most one group property among `ps`. */
  predicate AtMostOneGroup(ps: set<Property>) {
    forall g, h :: g in GroupsOf(ps) && h in GroupsOf(ps) ==> g == h
  }

  /** The group lookup and the comparison of group ids cannot throw on this entry. */
  predicate GroupReady(log: Log) {
    NamesKnown(log.properties) && forall g :: g in GroupsOf(log.properties) ==> g.attributes.Some?
  }

  /**
   * The entry with the group property `group` added by Set.add: a property of
   * the same name and attributes already there stays instead.
   */
  function Joined(log: Log, group: Property): (r: Log)
    ensures PropertyKey(group) !in Keys(log.properties, PropertyKey) ==> r.properties == log.properties + {group}
    ensures PropertyKey(group) in Keys(log.properties, PropertyKey) ==> r == log
    ensures r.(properties := log.properties) == log
  {
    log.(properties := Add(log.properties, group, PropertyKey))
  }

  /** `k` is the text of one of the ids. */
  predicate ListedIn(ids: seq<int>, k: string) {
    exists j :: 0 <= j < |ids| && IntToString(ids[j]) == k
  }

  /**
   * updateLog's merge: the persisted entry takes the owner from the principal,
   * the modification time `now`, and level, properties, description, source,
   * tags, logbooks and title from the body; id, state, creation time, events
   * and attachments stay as persisted.
   */
  function Merged(persisted: Log, body: Log, principal: string, now: Instant): (r: Log)
    ensures r.id == persisted.id && r.state == persisted.state && r.createdDate == persisted.createdDate
    ensures r.events == persisted.events && r.attachments == persisted.attachments
    ensures r.owner == Some(principal) && r.modifyDate == Some(now)
    ensures r.level == body.level && r.properties == body.properties && r.description == body.description
    ensures r.source == body.source && r.tags == body.tags && r.logbooks == body.logbooks && r.title == body.title
  {
    persisted.(owner := Some(principal), level := body.level, properties := body.properties,
               modifyDate := Some(now), description := body.description, source := body.source,
               tags := body.tags, logbooks := body.logbooks, title := body.title)
  }

  /**
   * updateLog's treatment of the group property: the one the body carries (the
   * first found) is removed and the persisted entry's one, if any, is added by
   * Set.add, which keeps an equal property already there.
   */
  method KeepGroupProperty(sent: PropertySet, persisted: PropertySet) returns (r: Result<PropertySet>)
    ensures NamesKnown(sent) && NamesKnown(persisted) ==> r.Ok?
    ensures r.Err? ==> r.error == NullPointer
    ensures r.Ok? ==> NonGroup(r.value) == NonGroup(sent)
    ensures r.Ok? ==> GroupsOf(r.value) <= GroupsOf(sent) + GroupsOf(persisted)
    ensures r.Ok? && AtMostOneGroup(sent) ==> GroupsOf(r.value) <= GroupsOf(persisted)
    ensures r.Ok? && GroupsOf(persisted) != {} ==>
      exists g :: g in GroupsOf(persisted) && PropertyKey(g) in Keys(r.value, PropertyKey)
  {
    var mine := FindGroupProperty(sent);
    if mine.Err? {
      return Err(NullPointer);
    }
    var kept: PropertySet := sent;
    if mine.value.Some? {
      kept := sent - {mine.value.value};
    }
    var theirs := FindGroupProperty(persisted);
    if theirs.Err? {
      return Err(NullPointer);
    }
    if theirs.value.Some? {
      kept := Add(kept, theirs.value.value, PropertyKey);
    } else {
      assert GroupsOf(persisted) == {};
    }
    return Ok(kept);
  }

  /** The entries named by groupLogEntries, the group property of each, and the last one seen. */
  datatype Collected = Collected(entries: seq<Log>, groups: seq<Option<Property>>, existing: Option<Property>)

  /** Listing one more id lists its text in addition. */
  lemma ListedInStep(ids: seq<int>, i: nat, k: string)
    requires i < |ids|
    ensures ListedIn(ids[..i + 1], k) <==> ListedIn(ids[..i], k) || k == IntToString(ids[i])
  {
    if ListedIn(ids[..i + 1], k) && k != IntToString(ids[i]) {
      var j :| 0 <= j < i + 1 && IntToString(ids[..i + 1][j]) == k;
      assert ids[..i][j] == ids[..i + 1][j];
    }
    if ListedIn(ids[..i], k) {
      var j :| 0 <= j < i && IntToString(ids[..i][j]) == k;
      assert ids[..i + 1][j] == ids[..i][j];
    }
    if k == IntToString(ids[i]) {
      assert ids[..i + 1][i] == ids[i];
    }
  }

  /**
   * One round of the first loop of groupLogEntries on `entry`: its group
   * property, checked against the last one seen, `existing`.
   */
  method CheckGroup(entry: Log, existing: Option<Property>) returns (r: Result<Option<Property>>)
    ensures r.Err? ==> r.error == BadRequest || r.error == NullPointer
    ensures r.Err? && r.error == NullPointer ==>
      !GroupReady(entry) || (existing.Some? && existing.value.attributes.None?)
    ensures r.Err? && r.error == BadRequest ==>
      existing.Some? && exists g :: g in GroupsOf(entry.properties) && !SameGroup(g, existing.value)
    ensures GroupReady(entry) && (existing.Some? ==> existing.value.attributes.Some?) && r.Err? ==> r.error == BadRequest
    ensures r.Ok? ==> (r.value.None? <==> GroupsOf(entry.properties) == {})
    ensures r.Ok? && r.value.Some? ==> r.value.value in GroupsOf(entry.properties)
    ensures r.Ok? && r.value.Some? && existing.Some? ==> SameGroup(r.value.value, existing.value)
  {
    var found := FindGroupProperty(entry.properties);
    if found.Err? {
      return Err(NullPointer);
    }
    var group := found.value;
    if group.Some? && existing.Some? {
      var mine := GetAttribute(group.value, ATTRIBUTE_ID);
      if mine.Err? {
        return Err(NullPointer);
      }
      var theirs := GetAttribute(existing.value, ATTRIBUTE_ID);
      if theirs.Err? {
        return Err(NullPointer);
      }
      if mine != theirs {
        assert group.value in GroupsOf(entry.properties);
        return Err(BadRequest);
      }
    }
    if group.None? {
      assert GroupsOf(entry.properties) == {};
    }
    return Ok(group);
  }

  /** Every id names a stored entry. */
  predicate AllListed(logs: map<string, Log>, ids: seq<int>) {
    forall i :: 0 <= i < |ids| ==> IntToString(ids[i]) in logs
  }

  /** Two of the named entries are already in different groups. */
  predicate SomeConflict(logs: map<string, Log>, ids: seq<int>) {
    exists i, j :: 0 <= i < |ids| && 0 <= j < |ids| && IntToString(ids[i]) in logs && IntToString(ids[j]) in logs
      && InDifferentGroups(logs[IntToString(ids[i])], logs[IntToString(ids[j])])
  }

  /** One of the named entries makes the group lookup or the id comparison throw. */
  predicate SomeNotReady(logs: map<string, Log>, ids: seq<int>) {
    exists i :: 0 <= i < |ids| && IntToString(ids[i]) in logs && !GroupReady(logs[IntToString(ids[i])])
  }

  /**
   * `c` holds the named entries in order, the group property found on each,
   * and as `existing` the last one found; every group found is the same group
   * as that last one.
   */
  predicate CollectedFrom(c: Collected, logs: map<string, Log>, ids: seq<int>) {
    |c.entries| == |ids| && |c.groups| == |ids|
    && (forall i :: 0 <= i < |ids| ==> IntToString(ids[i]) in logs && c.entries[i] == logs[IntToString(ids[i])])
    && (forall i :: 0 <= i < |ids| ==> (c.groups[i].None? <==> GroupsOf(c.entries[i].properties) == {}))
    && (forall i :: 0 <= i < |ids| && c.groups[i].Some? ==> c.groups[i].value in GroupsOf(c.entries[i].properties))
    && (c.existing.None? <==> forall i :: 0 <= i < |ids| ==> c.groups[i].None?)
    && (c.existing.Some? ==> exists i :: 0 <= i < |ids| && c.groups[i] == c.existing)
    && (forall i :: 0 <= i < |ids| && c.groups[i].Some? ==> c.existing.Some? && SameGroup(c.groups[i].value, c.existing.value))
  }

  /** One round of the first loop of groupLogEntries keeps CollectedFrom. */
  lemma CollectedStep(c: Collected, logs: map<string, Log>, ids: seq<int>, i: nat, entry: Log,
                      group: Option<Property>, existing: Option<Property>)
    requires i < |ids| && CollectedFrom(c, logs, ids[..i])
    requires IntToString(ids[i]) in logs && entry == logs[IntToString(ids[i])]
    requires group.None? <==> GroupsOf(entry.properties) == {}
    requires group.Some? ==> group.value in GroupsOf(entry.properties)
    requires group.Some? && c.existing.Some? ==> SameGroup(group.value, c.existing.value)
    requires existing == if group.Some? then group else c.existing
    ensures CollectedFrom(Collected(c.entries + [entry], c.groups + [group], existing), logs, ids[..i + 1])
  {
    var d := Collected(c.entries + [entry], c.groups + [group], existing);
    var prefix := ids[..i + 1];
    forall j | 0 <= j < i + 1
      ensures IntToString(prefix[j]) in logs && d.entries[j] == logs[IntToString(prefix[j])]
    {
      if j < i {
        assert prefix[j] == ids[..i][j];
      }
    }
    forall j | 0 <= j < i + 1 && d.groups[j].Some?
      ensures d.existing.Some? && SameGroup(d.groups[j].value, d.existing.value)
    {
      if j < i && group.Some? {
        assert SameGroup(c.groups[j].value, c.existing.value);
      }
    }
    if existing.Some? {
      if group.Some? {
        assert d.groups[i] == existing;
      } else {
        var j :| 0 <= j < i && c.groups[j] == c.existing;
        assert d.groups[j] == existing;
      }
    }
  }

  /** Every id names a stored entry on which grouping cannot throw and which has at most one group property. */
  predicate AllReady(logs: map<string, Log>, ids: seq<int>) {
    forall i :: 0 <= i < |ids| ==>
      IntToString(ids[i]) in logs && GroupReady(logs[IntToString(ids[i])])
      && AtMostOneGroup(logs[IntToString(ids[i])].properties)
  }

  /**
   * When every group found is the same group as the last one, and no entry
   * has two group properties, no two entries are in different groups.
   */
  lemma NoConflictWhenAllSame(c: Collected, logs: map<string, Log>, ids: seq<int>)
    requires CollectedFrom(c, logs, ids) && AllReady(logs, ids)
    ensures !SomeConflict(logs, ids)
  {
    forall i, j | 0 <= i < |ids| && 0 <= j < |ids|
      ensures !InDifferentGroups(logs[IntToString(ids[i])], logs[IntToString(ids[j])])
    {
      forall g, h | g in GroupsOf(c.entries[i].properties) && h in GroupsOf(c.entries[j].properties)
        ensures SameGroup(g, h)
      {
        FoundGroupIsExisting(c, logs, ids, i, g);
        FoundGroupIsExisting(c, logs, ids, j, h);
      }
    }
  }

  /** A group property of a collected entry is the same group as the last one seen. */
  lemma FoundGroupIsExisting(c: Collected, logs: map<string, Log>, ids: seq<int>, i: int, g: Property)
    requires CollectedFrom(c, logs, ids) && AllReady(logs, ids)
    requires 0 <= i < |ids| && g in GroupsOf(c.entries[i].properties)
    ensures c.existing.Some? && SameGroup(g, c.existing.value)
  {
    assert AtMostOneGroup(c.entries[i].properties);
    assert c.groups[i].Some? && c.groups[i].value in GroupsOf(c.entries[i].properties);
  }

  /** A request whose entries are all ready is refused only for a conflict, never for a throw. */
  lemma ReadyMeansNoThrow(logs: map<string, Log>, ids: seq<int>)
    requires AllReady(logs, ids)
    ensures AllListed(logs, ids) && !SomeNotReady(logs, ids)
  {
  }

  /** The facts the last loop of groupLogEntries leaves behind. */
  predicate JoinedFrom(ids: seq<int>, c: Collected, before: map<string, Log>, after: map<string, Log>, group: Property) {
    CollectedFrom(c, before, ids)
    && (c.existing.Some? ==> group == c.existing.value)
    && IsGroupProperty(group)
    && after.Keys == before.Keys
    && forall k :: k in before ==>
         after[k] == if ListedIn(ids, k) && GroupsOf(before[k].properties) == {} then Joined(before[k], group) else before[k]
  }

  /** After the last loop of groupLogEntries the i-th named entry is in the chosen group. */
  lemma JoinedOneInGroup(ids: seq<int>, c: Collected, before: map<string, Log>, after: map<string, Log>, group: Property, i: int)
    requires JoinedFrom(ids, c, before, after, group)
    requires 0 <= i < |ids|
    ensures IntToString(ids[i]) in after
    ensures exists g :: g in GroupsOf(after[IntToString(ids[i])].properties) && SameGroup(g, group)
  {
    var k := IntToString(ids[i]);
    assert ListedIn(ids, k);
    assert k in before && c.entries[i] == before[k];
    if c.groups[i].Some? {
      var g := c.groups[i].value;
      assert g in GroupsOf(before[k].properties);
      assert after[k] == before[k];
      assert g in GroupsOf(after[k].properties) && SameGroup(g, group);
    } else {
      assert GroupsOf(before[k].properties) == {};
      assert after[k] == Joined(before[k], group);
      assert group in GroupsOf(after[k].properties) && SameGroup(group, group);
    }
  }

  /** One round of the last loop of groupLogEntries: the i-th named entry joins the group unless it is in one. */
  lemma JoinStep(ids: seq<int>, i: nat, before: map<string, Log>, current: map<string, Log>, next: map<string, Log>,
                 key: string, group: Property)
    requires i < |ids| && key == IntToString(ids[i]) && key in before
    requires current.Keys == before.Keys
    requires forall k :: k in before ==>
      current[k] == if ListedIn(ids[..i], k) && GroupsOf(before[k].properties) == {} then Joined(before[k], group) else before[k]
    requires next == if GroupsOf(before[key].properties) == {} then current[key := Joined(before[key], group)] else current
    ensures next.Keys == before.Keys
    ensures forall k :: k in before ==>
      next[k] == if ListedIn(ids[..i + 1], k) && GroupsOf(before[k].properties) == {} then Joined(before[k], group) else before[k]
  {
    forall k | k in before
      ensures next[k] == if ListedIn(ids[..i + 1], k) && GroupsOf(before[k].properties) == {} then Joined(before[k], group) else before[k]
    {
      ListedInStep(ids, i, k);
    }
  }

  /** Every named entry is stored and has a group property of the same group as `group`. */
  predicate AllInGroup(logs: map<string, Log>, ids: seq<int>, group: Property) {
    forall i :: 0 <= i < |ids| ==>
      IntToString(ids[i]) in logs && exists g :: g in GroupsOf(logs[IntToString(ids[i])].properties) && SameGroup(g, group)
  }

  /** After the last loop of groupLogEntries every named entry is in the chosen group. */
  lemma JoinedAllInGroup(ids: seq<int>, c: Collected, before: map<string, Log>, after: map<string, Log>, group: Property)
    requires JoinedFrom(ids, c, before, after, group)
    ensures AllInGroup(after, ids, group)
  {
    forall i | 0 <= i < |ids|
      ensures IntToString(ids[i]) in after && exists g :: g in GroupsOf(after[IntToString(ids[i])].properties) && SameGroup(g, group)
    {
      JoinedOneInGroup(ids, c, before, after, group, i);
    }
  }

  class LogResource {
    /** The log index: each entry under the text of its id. */
    var logs: map<string, Log>
    /** The archive index: earlier versions of updated entries, oldest first. */
    var archived: seq<Log>
    /** The attachment repository: attachment metadata by attachment id. */
    var attachments: map<string, Attachment>

    /** Each entry is stored under its own id, as the builder left it. */
    ghost predicate Valid()
      reads this
    {
      forall k :: k in logs ==> logs[k].id.Some? && k == IntToString(logs[k].id.value) && IsBuilt(logs[k])
    }

    constructor ()
      ensures logs == map[] && archived == [] && attachments == map[] && Valid()
    {
      logs := map[];
      archived := [];
      attachments := map[];
    }

    /** LogRepository.findById: the entry, or 404. */
    method FindById(logId: string) returns (r: Result<Log>)
      ensures logId in logs ==> r == Ok(logs[logId])
      ensures logId !in logs ==> r == Err(NotFound)
    {
      if logId in logs {
        return Ok(logs[logId]);
      }
      return Err(NotFound);
    }

    /**
     * LogRepository.update: the builder copy is indexed under the entry's id.
     * Copying a null description or title throws, which update reports as 500.
     */
    method Update(log: Log) returns (r: Result<Log>)
      requires Valid() && log.id.Some?
      modifies this
      ensures Valid()
      ensures archived == old(archived) && attachments == old(attachments)
      ensures !(log.description.Some? && log.title.Some?) ==> r == Err(InternalError) && logs == old(logs)
      ensures log.description.Some? && log.title.Some? ==>
        r == Ok(Normalised(log)) && logs == old(logs)[IntToString(log.id.value) := Normalised(log)]
    {
      var built := LogBuilder.FromLog(log);
      if built.Err? {
        return Err(InternalError);
      }
      var document := built.value.Build();
      logs := logs[IntToString(log.id.value) := document];
      return Ok(document);
    }

    /**
     * handleReply: the entry replied to must exist (400 otherwise). Unless it
     * is already in a group, a new group property is made from `uuid`, added to
     * it and the entry updated; the group property is then added to the reply.
     */
    method HandleReply(inReplyTo: string, reply: Log, uuid: string) returns (r: Result<Log>)
      requires Valid()
      modifies this
      ensures Valid()
      ensures archived == old(archived) && attachments == old(attachments)
      ensures inReplyTo !in old(logs) ==> r == Err(BadRequest)
      ensures r.Err? ==> logs == old(logs)
      ensures r.Err? && r.error != BadRequest ==>
        r.error == NullPointer && inReplyTo in old(logs) && !NamesKnown(old(logs)[inReplyTo].properties)
      ensures inReplyTo in old(logs) && NamesKnown(old(logs)[inReplyTo].properties) ==> r.Ok?
      ensures r.Ok? ==> inReplyTo in old(logs) && inReplyTo in logs
      ensures r.Ok? ==> exists g :: g in GroupsOf(logs[inReplyTo].properties) && r.value == Joined(reply, g)
      ensures r.Ok? && GroupsOf(old(logs)[inReplyTo].properties) != {} ==> logs == old(logs)
      ensures r.Ok? && GroupsOf(old(logs)[inReplyTo].properties) == {} ==>
        (var original := old(logs)[inReplyTo];
         logs == old(logs)[inReplyTo := Joined(original, NewGroupProperty(uuid))]
         && r.value == Joined(reply, NewGroupProperty(uuid)))
    {
      if inReplyTo !in logs {
        return Err(BadRequest);
      }
      var original := logs[inReplyTo];
      var found := FindGroupProperty(original.properties);
      if found.Err? {
        return Err(NullPointer);
      }
      var group: Property;
      if found.value.None? {
        group := NewGroupProperty(uuid);
        var updated := Update(Joined(original, group));
      } else {
        group := found.value.value;
      }
      assert group in GroupsOf(logs[inReplyTo].properties);
      return Ok(Joined(reply, group));
    }

    /**
     * createLog: the entry checks, the reply handling when `inReplyTo` names
     * an entry, the owner set to the principal, the logbook and tag checks,
     * then the save under the generated id `id` at time `now`. Copying an
     * entry without a description fails the save with 500.
     */
    method CreateLog(log: Log, inReplyTo: string, principal: string, logbookNames: set<Option<string>>,
                     tagNames: set<Option<string>>, id: int, now: Instant, uuid: string)
      returns (r: Result<Log>)
      requires Valid()
      modifies this
      ensures Valid()
      ensures archived == old(archived) && attachments == old(attachments)
      ensures EntryError(log).Some? ==> r == Err(EntryError(log).value) && logs == old(logs)
      ensures EntryError(log).None? && inReplyTo != NO_REPLY && inReplyTo !in old(logs) ==>
        r == Err(BadRequest) && logs == old(logs)
      ensures inReplyTo == NO_REPLY ==>
        (r.Ok? <==> EntryError(log).None? && ReferencesPersisted(log, logbookNames, tagNames) && log.description.Some?)
      ensures inReplyTo == NO_REPLY && r.Err? ==> logs == old(logs)
      ensures inReplyTo == NO_REPLY && r.Ok? ==>
        (r.value == Persisted(log.(owner := Some(principal)), id, now)
         && logs == old(logs)[IntToString(id) := r.value])
      ensures r.Ok? ==> inReplyTo == NO_REPLY || inReplyTo in old(logs)
      ensures r.Ok? ==> EntryError(log).None? && ReferencesPersisted(log, logbookNames, tagNames)
      ensures r.Ok? ==> r.value.owner == Some(principal) && r.value.id == Some(id) && r.value.createdDate == Some(now)
      ensures r.Ok? ==> log.description.Some? && r.value.attachments == {}
      ensures r.Ok? ==> IntToString(id) in logs && logs[IntToString(id)] == r.value
      ensures r.Ok? ==> NonGroup(r.value.properties) == NonGroup(log.properties)
    {
      var rejected := EntryError(log);
      if rejected.Some? {
        return Err(rejected.value);
      }
      var entry := log;
      if inReplyTo != NO_REPLY {
        var replied := HandleReply(inReplyTo, log, uuid);
        if replied.Err? {
          return replied;
        }
        entry := replied.value;
      }
      entry := entry.(owner := Some(principal));
      if !ReferencesPersisted(entry, logbookNames, tagNames) {
        return Err(BadRequest);
      }
      r := Save(entry, id, now);
    }

    /**
     * saveAttachment: 404 when the entry is missing; otherwise the attachment,
     * with the fallbacks for its file name and description, is stored in the
     * attachment repository and added to the entry, which is updated.
     */
    method SaveAttachment(logId: string, file: UploadedFile, client: Attachment, objectId: string) returns (r: Result<Log>)
      requires Valid()
      modifies this
      ensures Valid()
      ensures archived == old(archived)
      ensures logId !in old(logs) ==> r == Err(NotFound) && logs == old(logs) && attachments == old(attachments)
      ensures logId in old(logs) ==>
        (var saved := SavedAttachment(client, file, objectId);
         var entry := old(logs)[logId].(attachments := old(logs)[logId].attachments + {saved});
         r == Ok(entry) && logs == old(logs)[logId := entry]
         && attachments == old(attachments)[saved.id.value := saved])
    {
      if logId !in logs {
        return Err(NotFound);
      }
      var found := logs[logId];
      var saved := SavedAttachment(client, file, objectId);
      attachments := attachments[saved.id.value := saved];
      r := Update(found.(attachments := found.attachments + {saved}));
    }

    /**
     * The file loop of the multipart createLog, over the files the type check
     * returned: each file is saved under a client attachment of the same file
     * name, file `i` under the object id `objectIdOf(i)`; a file that matches
     * none is skipped. `stored` is what was saved for each file.
     */
    method AttachFiles(key: string, client: set<Attachment>, files: seq<UploadedFile>, objectIdOf: nat -> string)
      returns (ghost stored: seq<Option<Attachment>>)
      requires Valid() && key in logs
      modifies this
      ensures Valid() && key in logs
      ensures archived == old(archived)
      ensures SavedForFiles(client, files, objectIdOf, stored)
      ensures logs == old(logs)[key := old(logs)[key].(attachments := old(logs)[key].attachments + SavedSet(stored))]
      ensures attachments == StoreSaved(old(attachments), stored)
    {
      stored := [];
      assert SavedSet(stored) == {};
      assert old(logs)[key].attachments + SavedSet(stored) == old(logs)[key].attachments;
      assert old(logs)[key].(attachments := old(logs)[key].attachments) == old(logs)[key];
      assert logs == old(logs)[key := old(logs)[key]];
      for i := 0 to |files|
        invariant Valid() && key in logs
        invariant archived == old(archived)
        invariant SavedForFiles(client, files[..i], objectIdOf, stored)
        invariant logs == old(logs)[key := old(logs)[key].(attachments := old(logs)[key].attachments + SavedSet(stored))]
        invariant attachments == StoreSaved(old(attachments), stored)
      {
        ghost var before := logs;
        ghost var entry := old(logs)[key];
        ghost var one := AttachOne(key, client, files[i], objectIdOf(i));
        SavedAppend(old(attachments), stored, one);
        SavedForNext(client, files, objectIdOf, stored, i, one);
        ghost var added := entry.attachments + SavedSet(stored + [one]);
        assert before[key].attachments + SavedSet([one]) == added;
        assert before[key].(attachments := added) == entry.(attachments := added);
        assert logs == before[key := entry.(attachments := added)];
        stored := stored + [one];
      }
      assert files[..|files|] == files;
    }

    /** One round of the file loop of the multipart createLog: the file is saved when a client attachment matches it. */
    method AttachOne(key: string, client: set<Attachment>, file: UploadedFile, objectId: string)
      returns (ghost stored: Option<Attachment>)
      requires Valid() && key in logs
      modifies this
      ensures Valid() && key in logs
      ensures archived == old(archived)
      ensures SavedFor(client, file, objectId, stored)
      ensures logs == old(logs)[key := old(logs)[key].(attachments := old(logs)[key].attachments + SavedSet([stored]))]
      ensures attachments == StoreSaved(old(attachments), [stored])
    {
      stored := None;
      if exists c :: c in client && MatchesFile(c, file) {
        var c :| c in client && MatchesFile(c, file);
        var saved := SaveAttachment(key, file, c, objectId);
        stored := Some(SavedAttachment(c, file, objectId));
        assert [stored][0] == stored;
        assert SavedSet([stored]) == {stored.value};
      } else {
        assert SavedSet([stored]) == {};
        assert old(logs)[key].attachments + SavedSet([stored]) == old(logs)[key].attachments;
        assert old(logs)[key].(attachments := old(logs)[key].attachments) == old(logs)[key];
        assert logs == old(logs)[key := old(logs)[key]];
      }
    }

    /**
     * The multipart createLog: 400 when the request has a file array whose
     * length differs from the number of attachment descriptions, 400 for HEIC
     * or HEIF content, then createLog, then each file saved as an attachment
     * of the new entry. The entry is returned as createLog made it. The file
     * loop visits the files the type check returned; for an empty file array
     * that is null, so the request fails with NullPointerException after the
     * entry has been saved.
     */
    method CreateLogMultipart(log: Log, inReplyTo: string, principal: string, logbookNames: set<Option<string>>,
                              tagNames: set<Option<string>>, id: int, now: Instant, uuid: string,
                              files: Option<seq<UploadedFile>>, objectIdOf: nat -> string)
      returns (r: Result<Log>)
      requires Valid()
      modifies this
      ensures Valid()
      ensures archived == old(archived)
      ensures files.Some? && |files.value| != |log.attachments| ==>
        r == Err(BadRequest) && logs == old(logs) && attachments == old(attachments)
      ensures SupportedFiles(files).Err? ==> r == Err(BadRequest) && logs == old(logs) && attachments == old(attachments)
      ensures r.Ok? ==> EntryError(log).None? && ReferencesPersisted(log, logbookNames, tagNames)
      ensures r.Ok? ==> r.value.owner == Some(principal) && r.value.id == Some(id) && r.value.attachments == {}
      ensures r.Ok? ==> IntToString(id) in logs && logs[IntToString(id)].(attachments := {}) == r.value
      ensures r.Ok? && inReplyTo == NO_REPLY ==>
        (log.description.Some? && r.value == Persisted(log.(owner := Some(principal)), id, now)
         && logs == old(logs)[IntToString(id) := r.value.(attachments := logs[IntToString(id)].attachments)])
      ensures r.Ok? ==>
        (exists stored :: SavedForFiles(log.attachments, files.GetOr([]), objectIdOf, stored)
                          && logs[IntToString(id)].attachments == SavedSet(stored)
                          && attachments == StoreSaved(old(attachments), stored))
      ensures files == Some([]) ==> r.Err?
      ensures files == Some([]) && log.attachments == {} && inReplyTo == NO_REPLY && EntryError(log).None?
              && ReferencesPersisted(log, logbookNames, tagNames) && log.description.Some? ==>
        r == Err(NullPointer) && logs == old(logs)[IntToString(id) := Persisted(log.(owner := Some(principal)), id, now)]
    {
      if files.Some? && |files.value| != |log.attachments| {
        return Err(BadRequest);
      }
      var checked := CheckSupportedAttachmentTypes(files);
      if checked.Err? {
        return Err(BadRequest);
      }
      var created := CreateLog(log, inReplyTo, principal, logbookNames, tagNames, id, now, uuid);
      if created.Err? {
        return created;
      }
      var loop := AttachLoopAsWritten(files, checked.value);
      if loop.Err? {
        return Err(loop.error);
      }
      ghost var stored := AttachCreated(IntToString(id), log.attachments, files, objectIdOf);
      assert FilesToAttach(checked.value) == files.GetOr([]);
      return created;
    }

    /**
     * The file loop of the multipart createLog on the entry it just made,
     * which has no attachment yet: only that entry changes, and its
     * attachments are exactly those saved for the files the type check
     * returned, which are also stored in the attachment repository.
     */
    method AttachCreated(key: string, client: set<Attachment>, files: Option<seq<UploadedFile>>, objectIdOf: nat -> string)
      returns (ghost stored: seq<Option<Attachment>>)
      requires Valid() && key in logs && logs[key].attachments == {}
      requires SupportedFiles(files).Ok?
      modifies this
      ensures Valid() && key in logs
      ensures archived == old(archived)
      ensures SavedForFiles(client, FilesToAttach(SupportedFiles(files).value), objectIdOf, stored)
      ensures logs == old(logs)[key := old(logs)[key].(attachments := SavedSet(stored))]
      ensures attachments == StoreSaved(old(attachments), stored)
    {
      var toAttach := FilesToAttach(SupportedFiles(files).value);
      stored := AttachFiles(key, client, toAttach, objectIdOf);
      assert old(logs)[key].attachments + SavedSet(stored) == SavedSet(stored);
    }

    /**
     * updateLog: the body's id must be present (it is unboxed) and equal the
     * path id (400 otherwise); the entry must exist (404). The persisted
     * version is archived, then merged with the body, keeping its own group
     * property, and updated.
     */
    method UpdateLog(logId: string, body: Log, principal: string, now: Instant) returns (r: Result<Log>)
      requires Valid()
      modifies this
      ensures Valid()
      ensures attachments == old(attachments)
      ensures r.Err? ==> logs == old(logs)
      ensures body.id.None? ==> r == Err(NullPointer) && archived == old(archived)
      ensures body.id.Some? && logId != IntToString(body.id.value) ==> r == Err(BadRequest) && archived == old(archived)
      ensures body.id.Some? && logId == IntToString(body.id.value) && logId !in old(logs) ==>
        r == Err(NotFound) && archived == old(archived)
      ensures body.id.Some? && logId == IntToString(body.id.value) && logId in old(logs) ==>
        archived == old(archived) + [old(logs)[logId]]
      ensures (body.id.Some? && logId == IntToString(body.id.value) && logId in old(logs)
               && body.description.Some? && body.title.Some?
               && NamesKnown(body.properties) && NamesKnown(old(logs)[logId].properties)) ==> r.Ok?
      ensures r.Ok? ==> logId in old(logs) && body.description.Some? && body.title.Some?
      ensures r.Ok? ==> logs == old(logs)[logId := r.value]
      ensures r.Ok? ==> r.value.(properties := body.properties) == Normalised(Merged(old(logs)[logId], body, principal, now))
      ensures r.Ok? ==>
        (r.value.attachments == old(logs)[logId].attachments && r.value.createdDate == old(logs)[logId].createdDate
         && r.value.events == old(logs)[logId].events && r.value.id == old(logs)[logId].id)
      ensures r.Ok? ==> NonGroup(r.value.properties) == NonGroup(body.properties)
      ensures r.Ok? && AtMostOneGroup(body.properties) ==> GroupsOf(r.value.properties) <= GroupsOf(old(logs)[logId].properties)
      ensures r.Ok? && GroupsOf(old(logs)[logId].properties) != {} ==>
        exists g :: g in GroupsOf(old(logs)[logId].properties) && PropertyKey(g) in Keys(r.value.properties, PropertyKey)
    {
      if body.id.None? {
        return Err(NullPointer);
      }
      if logId != IntToString(body.id.value) {
        return Err(BadRequest);
      }
      if logId !in logs {
        return Err(NotFound);
      }
      var persisted := logs[logId];
      archived := archived + [persisted];
      var properties := KeepGroupProperty(body.properties, persisted.properties);
      if properties.Err? {
        return Err(NullPointer);
      }
      var merged := Merged(persisted, body, principal, now).(properties := properties.value);
      r := Update(merged);
    }

    /**
     * getAttachment: the entry must exist; every attachment's file name is
     * compared, so a null one throws; exactly one attachment of that name must
     * be found, and its id must be in the attachment repository (404
     * otherwise).
     */
    method GetAttachment(logId: string, name: string) returns (r: Result<Attachment>)
      ensures logId !in logs ==> r == Err(NotFound)
      ensures logId in logs && (exists a :: a in logs[logId].attachments && a.filename.None?) ==> r == Err(NullPointer)
      ensures (logId in logs && (forall a :: a in logs[logId].attachments ==> a.filename.Some?)
               && |NamedAttachments(logs[logId].attachments, name)| != 1) ==> r == Err(NotFound)
      ensures r.Ok? ==>
        (logId in logs
         && exists a :: NamedAttachments(logs[logId].attachments, name) == {a}
              && a.id.Some? && a.id.value in attachments && r.value == attachments[a.id.value])
      ensures (logId in logs && (forall a :: a in logs[logId].attachments ==> a.filename.Some?)
               && exists a :: NamedAttachments(logs[logId].attachments, name) == {a}
                    && a.id.Some? && a.id.value in attachments) ==> r.Ok?
    {
      if logId !in logs {
        return Err(NotFound);
      }
      var entry := logs[logId];
      if exists a :: a in entry.attachments && a.filename.None? {
        return Err(NullPointer);
      }
      var named := NamedAttachments(entry.attachments, name);
      if |named| != 1 {
        return Err(NotFound);
      }
      var a :| a in named;
      assert named == {a} by {
        assert named == (named - {a}) + {a};
        assert |named - {a}| == 0;
      }
      if a.id.None? || a.id.value !in attachments {
        return Err(NotFound);
      }
      return Ok(attachments[a.id.value]);
    }

    /**
     * The first loop of groupLogEntries: each id must name an entry (400
     * otherwise); an entry's group property must be the same group as the
     * last group property seen (400 otherwise), and then becomes the last one
     * seen.
     */
    method CollectGroupEntries(ids: seq<int>) returns (r: Result<Collected>)
      requires Valid()
      ensures r.Err? ==> r.error == BadRequest || r.error == NullPointer
      ensures !AllListed(logs, ids) ==> r.Err?
      ensures r.Err? && r.error == BadRequest ==> !AllListed(logs, ids) || SomeConflict(logs, ids)
      ensures r.Err? && r.error == NullPointer ==> SomeNotReady(logs, ids)
      ensures r.Ok? ==> AllListed(logs, ids) && CollectedFrom(r.value, logs, ids)
    {
      var c := Collected([], [], None);
      for i := 0 to |ids|
        invariant CollectedFrom(c, logs, ids[..i])
      {
        var next := CollectOne(ids, i, c);
        if next.Err? {
          return next;
        }
        c := next.value;
      }
      assert ids[..|ids|] == ids;
      return Ok(c);
    }

    /** One round of the first loop of groupLogEntries, on the i-th id. */
    method CollectOne(ids: seq<int>, i: nat, c: Collected) returns (r: Result<Collected>)
      requires i < |ids| && CollectedFrom(c, logs, ids[..i])
      ensures r.Err? ==> r.error == BadRequest || r.error == NullPointer
      ensures IntToString(ids[i]) !in logs ==> r.Err?
      ensures r.Err? && r.error == BadRequest ==> !AllListed(logs, ids) || SomeConflict(logs, ids)
      ensures r.Err? && r.error == NullPointer ==> SomeNotReady(logs, ids)
      ensures r.Ok? ==> CollectedFrom(r.value, logs, ids[..i + 1])
    {
      var key := IntToString(ids[i]);
      if key !in logs {
        assert !AllListed(logs, ids);
        return Err(BadRequest);
      }
      var entry := logs[key];
      var checked := CheckGroup(entry, c.existing);
      if checked.Err? {
        if c.existing.Some? {
          ghost var j :| 0 <= j < i && c.groups[j] == c.existing;
          assert ids[..i][j] == ids[j];
          assert c.entries[j] == logs[IntToString(ids[j])];
          assert checked.error == BadRequest ==> InDifferentGroups(logs[IntToString(ids[i])], logs[IntToString(ids[j])]);
          assert checked.error == NullPointer ==> !GroupReady(entry) || !GroupReady(logs[IntToString(ids[j])]);
        }
        return Err(checked.error);
      }
      var group := checked.value;
      var existing := if group.Some? then group else c.existing;
      CollectedStep(c, logs, ids, i, entry, group, existing);
      return Ok(Collected(c.entries + [entry], c.groups + [group], existing));
    }

    /**
     * The last loop of groupLogEntries: every collected entry without a group
     * property gets `group` added and is updated.
     */
    method JoinGroup(ids: seq<int>, c: Collected, group: Property)
      requires Valid()
      requires |c.entries| == |ids| && |c.groups| == |ids|
      requires forall i :: 0 <= i < |ids| ==> IntToString(ids[i]) in logs && c.entries[i] == logs[IntToString(ids[i])]
      requires forall i :: 0 <= i < |ids| ==> (c.groups[i].None? <==> GroupsOf(c.entries[i].properties) == {})
      modifies this
      ensures Valid()
      ensures archived == old(archived) && attachments == old(attachments)
      ensures logs.Keys == old(logs).Keys
      ensures forall k :: k in old(logs) ==>
        logs[k] == if ListedIn(ids, k) && GroupsOf(old(logs)[k].properties) == {} then Joined(old(logs)[k], group) else old(logs)[k]
    {
      for i := 0 to |ids|
        invariant Valid()
        invariant archived == old(archived) && attachments == old(attachments)
        invariant logs.Keys == old(logs).Keys
        invariant forall k :: k in old(logs) ==>
          logs[k] == if ListedIn(ids[..i], k) && GroupsOf(old(logs)[k].properties) == {} then Joined(old(logs)[k], group) else old(logs)[k]
      {
        JoinOne(ids, i, c.entries[i], c.groups[i].None?, group, old(logs));
      }
      assert ids[..|ids|] == ids;
    }

    /** One round of the last loop of groupLogEntries: the i-th entry joins `group` when it has no group property. */
    method JoinOne(ids: seq<int>, i: nat, entry: Log, ungrouped: bool, group: Property, ghost before: map<string, Log>)
      requires Valid()
      requires i < |ids| && IntToString(ids[i]) in before && entry == before[IntToString(ids[i])]
      requires entry.id.Some? && IntToString(ids[i]) == IntToString(entry.id.value) && IsBuilt(entry)
      requires ungrouped <==> GroupsOf(entry.properties) == {}
      requires logs.Keys == before.Keys
      requires forall k :: k in before ==>
        logs[k] == if ListedIn(ids[..i], k) && GroupsOf(before[k].properties) == {} then Joined(before[k], group) else before[k]
      modifies this
      ensures Valid()
      ensures archived == old(archived) && attachments == old(attachments)
      ensures logs.Keys == before.Keys
      ensures forall k :: k in before ==>
        logs[k] == if ListedIn(ids[..i + 1], k) && GroupsOf(before[k].properties) == {} then Joined(before[k], group) else before[k]
    {
      if ungrouped {
        var joined := Joined(entry, group);
        assert joined.id == entry.id && IsBuilt(joined);
        var updated := Update(joined);
      }
      JoinStep(ids, i, before, old(logs), logs, IntToString(ids[i]), group);
    }

    /**
     * groupLogEntries: the entries are collected and checked first, with no
     * write; then the group is the last group property seen, or a new one made
     * from `uuid`, and every entry without a group property joins it. `group`
     * names the group the entries end in.
     */
    method GroupLogEntries(ids: seq<int>, uuid: string) returns (r: Result<()>, ghost group: Property)
      requires Valid()
      modifies this
      ensures Valid()
      ensures archived == old(archived) && attachments == old(attachments)
      ensures r.Err? ==> logs == old(logs) && (r.error == BadRequest || r.error == NullPointer)
      ensures !AllListed(old(logs), ids) ==> r.Err?
      ensures r.Err? && r.error == BadRequest ==> !AllListed(old(logs), ids) || SomeConflict(old(logs), ids)
      ensures AllReady(old(logs), ids) ==> (r.Err? <==> SomeConflict(old(logs), ids))
      ensures r.Ok? ==> IsGroupProperty(group) && logs.Keys == old(logs).Keys
      ensures r.Ok? ==> forall k :: k in old(logs) ==>
        logs[k] == if ListedIn(ids, k) && GroupsOf(old(logs)[k].properties) == {} then Joined(old(logs)[k], group) else old(logs)[k]
      ensures r.Ok? && (forall i :: 0 <= i < |ids| ==> GroupsOf(old(logs)[IntToString(ids[i])].properties) == {}) ==>
        group == NewGroupProperty(uuid)
      ensures r.Ok? ==> AllInGroup(logs, ids, group)
    {
      group := NewGroupProperty(uuid);
      var collected := CollectGroupEntries(ids);
      if collected.Err? {
        if AllReady(logs, ids) {
          ReadyMeansNoThrow(logs, ids);
        }
        return Err(collected.error), group;
      }
      var c := collected.value;
      var chosen := NewGroupProperty(uuid);
      if c.existing.Some? {
        chosen := c.existing.value;
        ghost var i :| 0 <= i < |ids| && c.groups[i] == c.existing;
        assert GroupsOf(old(logs)[IntToString(ids[i])].properties) != {};
      }
      group := chosen;
      if AllReady(logs, ids) {
        NoConflictWhenAllSame(c, logs, ids);
      }
      JoinGroup(ids, c, chosen);
      assert JoinedFrom(ids, c, old(logs), logs, chosen);
      JoinedAllInGroup(ids, c, old(logs), logs, chosen);
      return Ok(()), group;
    }

    /** LogRepository.save: the builder copy, given the id `id` and the time `now`; 500 when it cannot be copied. */
    method Save(log: Log, id: int, now: Instant) returns (r: Result<Log>)
      requires Valid()
      modifies this
      ensures Valid()
      ensures archived == old(archived) && attachments == old(attachments)
      ensures !(log.description.Some? && log.title.Some?) ==> r == Err(InternalError) && logs == old(logs)
      ensures log.description.Some? && log.title.Some? ==>
        r == Ok(Persisted(log, id, now)) && logs == old(logs)[IntToString(id) := Persisted(log, id, now)]
    {
      var built := LogBuilder.FromLog(log);
      if built.Err? {
        return Err(InternalError);
      }
      var builder := built.value;
      builder.SetId(Some(id));
      builder.SetCreateDate(Some(now));
      var document := builder.Build();
      document := document.(attachments := {});
      logs := logs[IntToString(id) := document];
      return Ok(document);
    }
  }
}
