/**
 * The two log entry validators: the Spring Validator (LogEntryValidator.java in
 * the service package), which records one rejection per defect, and the bean
 * validation constraint (entity/LogEntryValidator.java), which answers yes or no.
 * Both read the names of the active logbooks and tags from the repositories;
 * here those names are parameters.
 */
module LogEntryValidator {
  import opened Wrappers
  import opened Entities
  import opened LogEntity

  /** A call `errors.rejectValue(field, code)`. */
  datatype Rejection = Rejection(field: string, code: string)

  const NO_TITLE: Rejection := Rejection("logbooks", "no.title")
  const NO_LOGBOOKS: Rejection := Rejection("logbooks", "no.logbooks")
  const INVALID_LOGBOOK: Rejection := Rejection("logbooks", "invalid.logbooks")
  const INVALID_TAG: Rejection := Rejection("tags", "invalid.tags")

  predicate HasTitle(log: Log) {
    log.title.Some? && log.title.value != ""
  }

  /** The logbooks of the entry whose name is not among the known names. */
  function UnknownLogbooks(books: set<Logbook>, known: set<Option<string>>): set<Logbook> {
    set b | b in books && b.name !in known
  }

  function UnknownTags(tags: set<Tag>, known: set<Option<string>>): set<Tag> {
    set t | t in tags && t.name !in known
  }

  function Repeat(r: Rejection, n: nat): (s: seq<Rejection>)
    ensures |s| == n && forall i :: 0 <= i < n ==> s[i] == r
  {
    if n == 0 then [] else Repeat(r, n - 1) + [r]
  }

  /**
   * The rejections `validate` records, in order: a missing or empty title,
   * an empty logbook set, one per unknown logbook, one per unknown tag.
   */
  function Rejections(log: Log, knownLogbooks: set<Option<string>>, knownTags: set<Option<string>>): seq<Rejection> {
    (if HasTitle(log) then [] else [NO_TITLE])
    + (if log.logbooks == {} then [NO_LOGBOOKS] else [])
    + Repeat(INVALID_LOGBOOK, |UnknownLogbooks(log.logbooks, knownLogbooks)|)
    + Repeat(INVALID_TAG, |UnknownTags(log.tags, knownTags)|)
  }

  /** Visiting one more logbook adds it to the unknown ones exactly when its name is unknown. */
  lemma UnknownLogbooksStep(done: set<Logbook>, b: Logbook, known: set<Option<string>>)
    requires b !in done
    ensures |UnknownLogbooks(done + {b}, known)| == |UnknownLogbooks(done, known)| + if b.name in known then 0 else 1
  {
    if b.name in known {
      assert UnknownLogbooks(done + {b}, known) == UnknownLogbooks(done, known);
    } else {
      assert UnknownLogbooks(done + {b}, known) == UnknownLogbooks(done, known) + {b};
    }
  }

  lemma UnknownTagsStep(done: set<Tag>, t: Tag, known: set<Option<string>>)
    requires t !in done
    ensures |UnknownTags(done + {t}, known)| == |UnknownTags(done, known)| + if t.name in known then 0 else 1
  {
    if t.name in known {
      assert UnknownTags(done + {t}, known) == UnknownTags(done, known);
    } else {
      assert UnknownTags(done + {t}, known) == UnknownTags(done, known) + {t};
    }
  }

  /** The loop of `validate` over the entry's logbooks: one rejection per unknown name. */
  method RejectUnknownLogbooks(books: LogbookSet, known: set<Option<string>>) returns (errors: seq<Rejection>)
    ensures errors == Repeat(INVALID_LOGBOOK, |UnknownLogbooks(books, known)|)
  {
    errors := [];
    ghost var done: set<Logbook> := {};
    var rest := books;
    while rest != {}
      invariant done + rest == books && done !! rest
      invariant errors == Repeat(INVALID_LOGBOOK, |UnknownLogbooks(done, known)|)
      decreases rest
    {
      var b :| b in rest;
      UnknownLogbooksStep(done, b, known);
      if b.name !in known {
        errors := errors + [INVALID_LOGBOOK];
      }
      rest := rest - {b};
      done := done + {b};
    }
  }

  /** The loop of `validate` over the entry's tags: one rejection per unknown name. */
  method RejectUnknownTags(tags: TagSet, known: set<Option<string>>) returns (errors: seq<Rejection>)
    ensures errors == Repeat(INVALID_TAG, |UnknownTags(tags, known)|)
  {
    errors := [];
    ghost var done: set<Tag> := {};
    var rest := tags;
    while rest != {}
      invariant done + rest == tags && done !! rest
      invariant errors == Repeat(INVALID_TAG, |UnknownTags(done, known)|)
      decreases rest
    {
      var t :| t in rest;
      UnknownTagsStep(done, t, known);
      if t.name !in known {
        errors := errors + [INVALID_TAG];
      }
      rest := rest - {t};
      done := done + {t};
    }
  }

  /** Validator.validate, visiting the entry's logbooks and tags in the sets' iteration order. */
  method Validate(log: Log, knownLogbooks: set<Option<string>>, knownTags: set<Option<string>>)
    returns (errors: seq<Rejection>)
    ensures errors == Rejections(log, knownLogbooks, knownTags)
  {
    errors := [];
    if !HasTitle(log) {
      errors := errors + [NO_TITLE];
    }
    if log.logbooks == {} {
      errors := errors + [NO_LOGBOOKS];
    }
    var bookErrors := RejectUnknownLogbooks(log.logbooks, knownLogbooks);
    var tagErrors := RejectUnknownTags(log.tags, knownTags);
    errors := errors + bookErrors + tagErrors;
  }

  /** Every logbook and tag of the entry is known. */
  predicate AllKnown(log: Log, knownLogbooks: set<Option<string>>, knownTags: set<Option<string>>) {
    (forall b :: b in log.logbooks ==> b.name in knownLogbooks)
    && (forall t :: t in log.tags ==> t.name in knownTags)
  }

  /**
   * One INVALID_TAG per unknown tag name: the entry's Set<Tag> holds one tag
   * of each name, Tag.equals comparing names only.
   */
  lemma UnknownTagsByName(tags: TagSet, known: set<Option<string>>)
    ensures |UnknownTags(tags, known)| == |TagNames(tags) - known|
  {
    var unknown := UnknownTags(tags, known);
    assert Keys(unknown, TagKey) == TagNames(tags) - known;
    DistinctKeysCount(unknown, TagKey);
  }

  /** The name and owner pairs of the logbooks whose name is unknown. */
  function UnknownLogbookKeys(books: set<Logbook>, known: set<Option<string>>): set<(Option<string>, Option<string>)> {
    set k | k in Keys(books, LogbookKey) && k.0 !in known
  }

  /**
   * One INVALID_LOGBOOK per unknown logbook, counted as Logbook.equals counts:
   * one per name and owner.
   */
  lemma UnknownLogbooksByEquals(books: LogbookSet, known: set<Option<string>>)
    ensures |UnknownLogbooks(books, known)| == |UnknownLogbookKeys(books, known)|
  {
    var unknown := UnknownLogbooks(books, known);
    assert Keys(unknown, LogbookKey) == UnknownLogbookKeys(books, known);
    DistinctKeysCount(unknown, LogbookKey);
  }

  /**
   * How many rejections an entry draws: one per defect, an unknown tag name or
   * an unknown logbook counted once however many equal members it has.
   */
  lemma RejectionCount(log: Log, knownLogbooks: set<Option<string>>, knownTags: set<Option<string>>)
    ensures |Rejections(log, knownLogbooks, knownTags)|
         == (if HasTitle(log) then 0 else 1) + (if log.logbooks == {} then 1 else 0)
          + |UnknownLogbookKeys(log.logbooks, knownLogbooks)| + |TagNames(log.tags) - knownTags|
  {
    UnknownLogbooksByEquals(log.logbooks, knownLogbooks);
    UnknownTagsByName(log.tags, knownTags);
  }

  /** An entry draws no rejection exactly when it has a title, a logbook, and only known names. */
  lemma NoRejectionsIffValid(log: Log, knownLogbooks: set<Option<string>>, knownTags: set<Option<string>>)
    ensures Rejections(log, knownLogbooks, knownTags) == []
        <==> HasTitle(log) && log.logbooks != {} && AllKnown(log, knownLogbooks, knownTags)
  {
    RejectionCount(log, knownLogbooks, knownTags);
    if !AllKnown(log, knownLogbooks, knownTags) {
      if b :| b in log.logbooks && b.name !in knownLogbooks {
        assert b in UnknownLogbooks(log.logbooks, knownLogbooks);
      } else {
        var t :| t in log.tags && t.name !in knownTags;
        assert t in UnknownTags(log.tags, knownTags);
      }
    } else {
      assert UnknownLogbooks(log.logbooks, knownLogbooks) == {};
      assert UnknownTags(log.tags, knownTags) == {};
    }
  }

  /** A valid entry with one unknown logbook added draws exactly that one rejection. */
  lemma OneUnknownLogbookOneRejection(log: Log, knownLogbooks: set<Option<string>>, knownTags: set<Option<string>>, extra: Logbook)
    requires HasTitle(log) && log.logbooks != {} && AllKnown(log, knownLogbooks, knownTags)
    requires extra.name !in knownLogbooks
    ensures Rejections(log.(logbooks := Add(log.logbooks, extra, LogbookKey)), knownLogbooks, knownTags) == [INVALID_LOGBOOK]
  {
    var bad := log.(logbooks := Add(log.logbooks, extra, LogbookKey));
    assert UnknownLogbooks(bad.logbooks, knownLogbooks) == {extra};
    assert UnknownTags(bad.tags, knownTags) == {};
  }

  /** A valid entry with one unknown tag added draws exactly that one rejection. */
  lemma OneUnknownTagOneRejection(log: Log, knownLogbooks: set<Option<string>>, knownTags: set<Option<string>>, extra: Tag)
    requires HasTitle(log) && log.logbooks != {} && AllKnown(log, knownLogbooks, knownTags)
    requires extra.name !in knownTags
    ensures Rejections(log.(tags := Add(log.tags, extra, TagKey)), knownLogbooks, knownTags) == [INVALID_TAG]
  {
    var bad := log.(tags := Add(log.tags, extra, TagKey));
    assert UnknownLogbooks(bad.logbooks, knownLogbooks) == {};
    assert UnknownTags(bad.tags, knownTags) == {extra};
  }

  /** A valid entry with its title removed draws exactly the title rejection. */
  lemma MissingTitleOneRejection(log: Log, knownLogbooks: set<Option<string>>, knownTags: set<Option<string>>)
    requires HasTitle(log) && log.logbooks != {} && AllKnown(log, knownLogbooks, knownTags)
    ensures Rejections(log.(title := None), knownLogbooks, knownTags) == [NO_TITLE]
    ensures Rejections(log.(title := Some("")), knownLogbooks, knownTags) == [NO_TITLE]
  {
    assert UnknownLogbooks(log.logbooks, knownLogbooks) == {};
    assert UnknownTags(log.tags, knownTags) == {};
  }

  /**
   * ConstraintValidator.isValid: false at the first logbook, then the first
   * tag, whose name is unknown; true otherwise. Title and logbook emptiness
   * are not checked.
   */
  method IsValid(log: Log, knownLogbooks: set<Option<string>>, knownTags: set<Option<string>>)
    returns (valid: bool)
    ensures valid <==> AllKnown(log, knownLogbooks, knownTags)
  {
    var books := log.logbooks;
    while books != {}
      invariant books <= log.logbooks
      invariant forall b :: b in log.logbooks && b !in books ==> b.name in knownLogbooks
      decreases books
    {
      var b :| b in books;
      if b.name !in knownLogbooks {
        return false;
      }
      books := books - {b};
    }
    var tags := log.tags;
    while tags != {}
      invariant tags <= log.tags
      invariant forall t :: t in log.tags && t !in tags ==> t.name in knownTags
      decreases tags
    {
      var t :| t in tags;
      if t.name !in knownTags {
        return false;
      }
      tags := tags - {t};
    }
    return true;
  }

  /**
   * `isValid` asks nothing of the title or of the logbook set being non-empty:
   * an entry with no title and no logbook passes when its tags are known,
   * while `validate` rejects it twice.
   */
  lemma IsValidIgnoresTitleAndLogbooks(log: Log, knownLogbooks: set<Option<string>>, knownTags: set<Option<string>>)
    requires forall t :: t in log.tags ==> t.name in knownTags
    ensures AllKnown(log.(title := None, logbooks := {}), knownLogbooks, knownTags)
    ensures Rejections(log.(title := None, logbooks := {}), knownLogbooks, knownTags) == [NO_TITLE, NO_LOGBOOKS]
  {
    var bare := log.(title := None, logbooks := {});
    assert UnknownLogbooks(bare.logbooks, knownLogbooks) == {};
    assert UnknownTags(bare.tags, knownTags) == {};
  }
}
