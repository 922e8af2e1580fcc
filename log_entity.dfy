/**
 * The log entry (Log.java): its fields, its equality, and the LogBuilder that
 * the service and the repositories use to assemble entries.
 */
module LogEntity {
  import opened Wrappers
  import opened Entities

  const DEFAULT_LEVEL: string := "Info"

  /** A log entry. Nullable fields are `Option`s; the sets are never null. */
  datatype Log = Log(
    id: Option<int>,
    owner: Option<string>,
    source: Option<string>,
    description: Option<string>,
    title: Option<string>,
    level: Option<string>,
    state: State,
    createdDate: Option<Instant>,
    modifyDate: Option<Instant>,
    events: Option<seq<Event>>,
    logbooks: LogbookSet,
    tags: TagSet,
    properties: PropertySet,
    attachments: set<Attachment>)

  /**
   * Log.equals. The fields are compared in the order the source compares them;
   * the level is dereferenced without a null check, so a null level on the
   * receiver raises NullPointerException once the earlier fields agree.
   * Logbooks, properties and tags are compared by AbstractSet.equals, which
   * uses each member's own equals. Title, source and attachments are never
   * compared.
   */
  function LogEquals(a: Log, b: Log): (r: Result<bool>)
    ensures r.Err? ==> r.error == NullPointer && a.level.None?
    ensures a.level.Some? ==> r.Ok?
  {
    if a.createdDate != b.createdDate || a.description != b.description
      || a.events != b.events || a.id != b.id
    then Ok(false)
    else if a.level.None? then Err(NullPointer)
    else Ok(a.level == b.level && SetEquals(a.logbooks, b.logbooks, LogbookKey) && a.modifyDate == b.modifyDate
            && a.owner == b.owner && SetEquals(a.properties, b.properties, PropertyKey) && a.state == b.state
            && SetEquals(a.tags, b.tags, TagKey))
  }

  /** The two entries hold logbooks, tags and properties that are pairwise equal in the sense of their equals. */
  predicate SameMembers(a: Log, b: Log) {
    Keys(a.logbooks, LogbookKey) == Keys(b.logbooks, LogbookKey)
    && Keys(a.tags, TagKey) == Keys(b.tags, TagKey)
    && Keys(a.properties, PropertyKey) == Keys(b.properties, PropertyKey)
  }

  /**
   * The entry `a` with what equals ignores taken from `b`: title, source,
   * attachments, and the sets themselves, whose members equals compares only
   * through their own equals.
   */
  function WithPresentationOf(a: Log, b: Log): Log {
    a.(title := b.title, source := b.source, attachments := b.attachments,
       logbooks := b.logbooks, tags := b.tags, properties := b.properties)
  }

  /**
   * For a receiver with a level, equals holds exactly when the two entries
   * differ at most in title, source and attachments, and in members of their
   * sets that equal each other.
   */
  lemma LogEqualsIgnoresPresentation(a: Log, b: Log)
    requires a.level.Some?
    ensures LogEquals(a, b) == Ok(true) <==> WithPresentationOf(a, b) == b && SameMembers(a, b)
  {
    SetEqualsByKeys(a.logbooks, b.logbooks, LogbookKey);
    SetEqualsByKeys(a.tags, b.tags, TagKey);
    SetEqualsByKeys(a.properties, b.properties, PropertyKey);
    if LogEquals(a, b) == Ok(true) {
      var w := WithPresentationOf(a, b);
      assert w.id == b.id && w.owner == b.owner && w.level == b.level;
    }
  }

  /**
   * Tag.equals reads only the name: retiring every tag of an entry leaves it
   * equal to the entry it was.
   */
  lemma RetiredTagsKeepEquality(a: Log)
    requires a.level.Some?
    ensures var retired := set t | t in a.tags :: t.Retired();
      Distinct(retired, TagKey) && LogEquals(a, a.(tags := retired)) == Ok(true)
  {
    var retired := set t | t in a.tags :: t.Retired();
    assert Keys(retired, TagKey) == Keys(a.tags, TagKey) by {
      forall t | t in a.tags
        ensures t.Retired() in retired
      {
      }
    }
    assert Distinct(retired, TagKey) by {
      forall x, y | x in retired && y in retired && x.name == y.name
        ensures x == y
      {
        var tx :| tx in a.tags && tx.Retired() == x;
        var ty :| ty in a.tags && ty.Retired() == y;
      }
    }
    LogEqualsIgnoresPresentation(a, a.(tags := retired));
  }

  /** equals is symmetric when both entries carry a level. */
  lemma LogEqualsSymmetric(a: Log, b: Log)
    requires a.level.Some? && b.level.Some?
    ensures LogEquals(a, b) == LogEquals(b, a)
  {
    SetEqualsByKeys(a.logbooks, b.logbooks, LogbookKey);
    SetEqualsByKeys(a.tags, b.tags, TagKey);
    SetEqualsByKeys(a.properties, b.properties, PropertyKey);
    SetEqualsByKeys(b.logbooks, a.logbooks, LogbookKey);
    SetEqualsByKeys(b.tags, a.tags, TagKey);
    SetEqualsByKeys(b.properties, a.properties, PropertyKey);
  }

  /**
   * StringBuilder.append after an optional line break, as appendDescription and
   * appendSource do: a "\n" is inserted only when the text so far is non-empty.
   */
  function AppendLine(text: string, addition: string): (r: string)
    ensures text == [] ==> r == addition
    ensures text != [] ==>
              |r| == |text| + 1 + |addition| && r[..|text|] == text
              && r[|text|] == '\n' && r[|text| + 1..] == addition
  {
    if |text| > 0 then text + "\n" + addition else addition
  }

  /** The lines joined with "\n" between consecutive ones. */
  function JoinLines(lines: seq<string>): string {
    if lines == [] then ""
    else if |lines| == 1 then lines[0]
    else JoinLines(lines[..|lines| - 1]) + "\n" + lines[|lines| - 1]
  }

  /** Appending the lines one by one, starting from `text`. */
  function AppendLines(text: string, lines: seq<string>): string
    decreases |lines|
  {
    if lines == [] then text else AppendLine(AppendLines(text, lines[..|lines| - 1]), lines[|lines| - 1])
  }

  /**
   * Appending non-empty lines to an empty builder yields exactly the lines
   * joined with "\n": no leading break and one break between lines.
   */
  lemma {:induction false} AppendLinesJoins(lines: seq<string>)
    requires forall i :: 0 <= i < |lines| ==> lines[i] != []
    ensures AppendLines("", lines) == JoinLines(lines)
    ensures lines != [] ==> AppendLines("", lines) != []
  {
    if |lines| > 1 {
      AppendLinesJoins(lines[..|lines| - 1]);
    }
  }

  /**
   * Log.LogBuilder. Its strings are StringBuilders (never null); owner, level,
   * dates and events may be null. `Pending()` is the entry `Build` produces.
   */
  class LogBuilder {
    var id: Option<int>
    var createDate: Option<Instant>
    var modifyDate: Option<Instant>
    var events: Option<seq<Event>>
    var owner: Option<string>
    var source: string
    var description: string
    var title: string
    var level: Option<string>
    var state: State
    var properties: PropertySet
    var logbooks: LogbookSet
    var tags: TagSet
    var attachments: set<Attachment>

    /** The entry this builder currently describes. */
    function Pending(): Log
      reads this
    {
      Log(id, owner, Some(source), Some(description), Some(title), level, state,
          createDate, modifyDate, events, logbooks, tags, properties, attachments)
    }

    /** LogBuilder(): level "Info", state Active, empty texts, sets and event list. */
    constructor ()
      ensures id.None? && owner.None? && createDate.None? && modifyDate.None?
      ensures events == Some([])
      ensures source == "" && description == "" && title == ""
      ensures level == Some(DEFAULT_LEVEL) && state == Active
      ensures logbooks == {} && tags == {} && properties == {} && attachments == {}
    {
      id := None;
      createDate := None;
      modifyDate := None;
      events := Some([]);
      owner := None;
      source := "";
      description := "";
      title := "";
      level := Some(DEFAULT_LEVEL);
      state := Active;
      properties := {};
      logbooks := {};
      tags := {};
      attachments := {};
    }

    /**
     * LogBuilder(String source): a fresh builder whose source is `text`;
     * `new StringBuilder(null)` throws for a null source.
     */
    static method FromSource(text: Option<string>) returns (r: Result<LogBuilder>)
      ensures r.Err? <==> text.None?
      ensures r.Err? ==> r.error == NullPointer
      ensures r.Ok? ==> fresh(r.value)
      ensures r.Ok? ==> r.value.Pending() == Log(None, None, text, Some(""), Some(""), Some(DEFAULT_LEVEL), Active,
                                                 None, None, Some([]), {}, {}, {}, {})
    {
      if text.None? {
        return Err(NullPointer);
      }
      var b := new LogBuilder();
      b.source := text.value;
      r := Ok(b);
    }

    /**
     * LogBuilder(Log): copies every field; a null source becomes "". A null
     * description or title makes `new StringBuilder(null)` throw.
     */
    static method FromLog(log: Log) returns (r: Result<LogBuilder>)
      ensures r.Ok? <==> log.description.Some? && log.title.Some?
      ensures r.Err? ==> r.error == NullPointer
      ensures r.Ok? ==> fresh(r.value)
      ensures r.Ok? ==> r.value.Pending() == log.(source := Some(log.source.GetOr("")))
    {
      if log.description.None? || log.title.None? {
        return Err(NullPointer);
      }
      var b := new LogBuilder();
      b.id := log.id;
      b.createDate := log.createdDate;
      b.modifyDate := log.modifyDate;
      b.owner := log.owner;
      b.source := log.source.GetOr("");
      b.description := log.description.value;
      b.title := log.title.value;
      b.level := log.level;
      b.state := log.state;
      b.events := log.events;
      b.properties := log.properties;
      b.logbooks := log.logbooks;
      b.tags := log.tags;
      b.attachments := log.attachments;
      r := Ok(b);
    }

    /** owner(String): a null owner is stored as "". */
    method SetOwner(newOwner: Option<string>)
      modifies this
      ensures Pending() == old(Pending()).(owner := Some(newOwner.GetOr("")))
    {
      owner := Some(newOwner.GetOr(""));
    }

    method SetId(newId: Option<int>)
      modifies this
      ensures Pending() == old(Pending()).(id := newId)
    {
      id := newId;
    }

    method SetCreateDate(date: Option<Instant>)
      modifies this
      ensures Pending() == old(Pending()).(createdDate := date)
    {
      createDate := date;
    }

    method SetModifyDate(date: Option<Instant>)
      modifies this
      ensures Pending() == old(Pending()).(modifyDate := date)
    {
      modifyDate := date;
    }

    method WithEvents(newEvents: Option<seq<Event>>)
      modifies this
      ensures Pending() == old(Pending()).(events := newEvents)
    {
      events := newEvents;
    }

    /** description(String): null leaves the description unchanged. */
    method SetDescription(text: Option<string>)
      modifies this
      ensures Pending() == old(Pending()).(description := Some(text.GetOr(old(description))))
    {
      if text.Some? {
        description := text.value;
      }
    }

    /** title(String): null leaves the title unchanged. */
    method SetTitle(text: Option<string>)
      modifies this
      ensures Pending() == old(Pending()).(title := Some(text.GetOr(old(title))))
    {
      if text.Some? {
        title := text.value;
      }
    }

    /** source(String): null leaves the source unchanged. */
    method SetSource(text: Option<string>)
      modifies this
      ensures Pending() == old(Pending()).(source := Some(text.GetOr(old(source))))
    {
      if text.Some? {
        source := text.value;
      }
    }

    /**
     * appendDescription(String): a line break first when the description is
     * non-empty; StringBuilder.append(null) appends the text "null".
     */
    method AppendDescription(text: Option<string>)
      modifies this
      ensures Pending() == old(Pending()).(description := Some(AppendLine(old(description), text.GetOr("null"))))
    {
      ghost var before := description;
      if |description| > 0 {
        description := description + "\n";
      }
      description := description + text.GetOr("null");
      assert description == AppendLine(before, text.GetOr("null"));
    }

    /** appendSource(String), with the same line-break rule as appendDescription. */
    method AppendSource(text: Option<string>)
      modifies this
      ensures Pending() == old(Pending()).(source := Some(AppendLine(old(source), text.GetOr("null"))))
    {
      ghost var before := source;
      if |source| > 0 {
        source := source + "\n";
      }
      source := source + text.GetOr("null");
      assert source == AppendLine(before, text.GetOr("null"));
    }

    method SetLevel(newLevel: Option<string>)
      modifies this
      ensures Pending() == old(Pending()).(level := newLevel)
    {
      level := newLevel;
    }

    /** withLogbook: Set.add, which keeps a stored logbook of the same name and owner. */
    method WithLogbook(book: Logbook)
      modifies this
      ensures Pending() == old(Pending()).(logbooks := Add(old(logbooks), book, LogbookKey))
    {
      logbooks := Add(logbooks, book, LogbookKey);
    }

    /** withLogbooks: Set.addAll of the given logbooks. */
    method WithLogbooks(books: LogbookSet)
      modifies this
      ensures Pending() == old(Pending()).(logbooks := AddAll(old(logbooks), books, LogbookKey))
    {
      logbooks := AddAll(logbooks, books, LogbookKey);
    }

    /** setLogbooks replaces the set. */
    method SetLogbooks(books: LogbookSet)
      modifies this
      ensures Pending() == old(Pending()).(logbooks := books)
    {
      logbooks := books;
    }

    /** withTag: Set.add, which keeps a stored tag of the same name. */
    method WithTag(tag: Tag)
      modifies this
      ensures Pending() == old(Pending()).(tags := Add(old(tags), tag, TagKey))
    {
      tags := Add(tags, tag, TagKey);
    }

    /** withTags: Set.addAll of the given tags. */
    method WithTags(more: TagSet)
      modifies this
      ensures Pending() == old(Pending()).(tags := AddAll(old(tags), more, TagKey))
    {
      tags := AddAll(tags, more, TagKey);
    }

    method SetTags(newTags: TagSet)
      modifies this
      ensures Pending() == old(Pending()).(tags := newTags)
    {
      tags := newTags;
    }

    /** withProperty: Set.add, which keeps a stored property of the same name and attributes. */
    method WithProperty(property: Property)
      modifies this
      ensures Pending() == old(Pending()).(properties := Add(old(properties), property, PropertyKey))
    {
      properties := Add(properties, property, PropertyKey);
    }

    /** withProperties: Set.addAll of the given properties. */
    method WithProperties(more: PropertySet)
      modifies this
      ensures Pending() == old(Pending()).(properties := AddAll(old(properties), more, PropertyKey))
    {
      properties := AddAll(properties, more, PropertyKey);
    }

    method SetProperties(newProperties: PropertySet)
      modifies this
      ensures Pending() == old(Pending()).(properties := newProperties)
    {
      properties := newProperties;
    }

    method WithAttachment(attachment: Attachment)
      modifies this
      ensures Pending() == old(Pending()).(attachments := old(attachments) + {attachment})
    {
      attachments := attachments + {attachment};
    }

    method SetAttachments(newAttachments: set<Attachment>)
      modifies this
      ensures Pending() == old(Pending()).(attachments := newAttachments)
    {
      attachments := newAttachments;
    }

    /**
     * build(): a new entry with every field of the builder; description,
     * title and source are never null in the result.
     */
    method Build() returns (log: Log)
      ensures log == Pending()
      ensures log.description.Some? && log.title.Some? && log.source.Some?
    {
      log := Log(None, None, None, None, None, Some(DEFAULT_LEVEL), Active, None, None, None, {}, {}, {}, {});
      log := log.(id := id, owner := owner);
      if createDate.Some? {
        log := log.(createdDate := createDate);
      }
      if modifyDate.Some? {
        log := log.(modifyDate := modifyDate);
      }
      log := log.(events := events, description := Some(description), title := Some(title),
                  source := Some(source), level := level, state := state, logbooks := logbooks,
                  tags := tags, properties := properties, attachments := attachments);
    }
  }

  /**
   * Rebuilding an entry through a copied builder (`createLog(log).build()`)
   * gives back the entry with a null source turned into "", so equals holds.
   */
  lemma CopyRebuildIsEqual(log: Log)
    requires log.level.Some?
    ensures LogEquals(log, log.(source := Some(log.source.GetOr("")))) == Ok(true)
  {
  }
}
