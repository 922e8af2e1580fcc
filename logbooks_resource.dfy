/**
 * LogbooksResource.java over the logbook repository, seen as a map from a
 * logbook's name to the logbook. The repository saves a logbook under its own
 * name and deletes softly, by marking the logbook Inactive; findAll lists the
 * active logbooks only.
 */
module Logbooks {
  import opened Wrappers
  import opened Entities
  import opened Stores

  /** validateLogbookRequest: the name is present and non-empty; owner and state are not checked. */
  predicate IsValidLogbook(b: Logbook) {
    b.name.Some? && b.name.value != ""
  }

  function RetireLogbook(b: Logbook): Logbook { b.Retired() }

  function IsActiveLogbook(b: Logbook): bool { b.state == Active }

  /** A batch keyed by the logbooks' names, as saveAll indexes it. */
  function Keyed(books: seq<Logbook>): (batch: seq<(string, Logbook)>)
    ensures |batch| == |books|
    ensures forall i :: 0 <= i < |books| ==> batch[i] == (books[i].name.GetOr(""), books[i])
  {
    if books == [] then [] else Keyed(books[..|books| - 1]) + [(books[|books| - 1].name.GetOr(""), books[|books| - 1])]
  }

  /** validateLogbookRequest(Iterable): the first invalid logbook stops the request with 400. */
  method ValidateLogbooks(books: seq<Logbook>) returns (r: Result<()>)
    ensures r.Ok? <==> forall i :: 0 <= i < |books| ==> IsValidLogbook(books[i])
    ensures r.Err? ==> r.error == BadRequest
  {
    for i := 0 to |books|
      invariant forall j :: 0 <= j < i ==> IsValidLogbook(books[j])
    {
      if !IsValidLogbook(books[i]) {
        return Err(BadRequest);
      }
    }
    return Ok(());
  }

  class LogbooksResource {
    /** The logbook index: every logbook ever saved, under its name. */
    var logbooks: map<string, Logbook>

    /** Each logbook is stored under its own name. */
    ghost predicate Valid()
      reads this
    {
      forall n :: n in logbooks ==> logbooks[n].name == Some(n)
    }

    constructor ()
      ensures logbooks == map[] && Valid()
    {
      logbooks := map[];
    }

    /** findAll: the active logbooks. */
    function FindAll(): (r: set<Logbook>)
      reads this
      ensures forall b :: b in r <==> b in logbooks.Values && b.state == Active
    {
      set n | n in logbooks && logbooks[n].state == Active :: logbooks[n]
    }

    /** findByTitle: the stored logbook of that name, active or not; 404 when there is none. */
    method FindByTitle(name: string) returns (r: Result<Logbook>)
      ensures name in logbooks ==> r == Ok(logbooks[name])
      ensures name !in logbooks ==> r == Err(NotFound)
    {
      if name in logbooks {
        return Ok(logbooks[name]);
      }
      return Err(NotFound);
    }

    /**
     * createLogbook: after validation, a logbook stored under the path name is
     * soft-deleted, then the body is saved under its own name.
     */
    method CreateLogbook(name: string, logbook: Logbook) returns (r: Result<Logbook>)
      requires Valid()
      modifies this
      ensures Valid()
      ensures !IsValidLogbook(logbook) ==> r == Err(BadRequest) && logbooks == old(logbooks)
      ensures IsValidLogbook(logbook) ==> r == Ok(logbook)
      ensures IsValidLogbook(logbook) ==>
        logbooks == Retire(old(logbooks), name, RetireLogbook)[logbook.name.value := logbook]
    {
      if !IsValidLogbook(logbook) {
        return Err(BadRequest);
      }
      if name in logbooks {
        logbooks := logbooks[name := logbooks[name].Retired()];
      }
      logbooks := logbooks[logbook.name.value := logbook];
      return Ok(logbook);
    }

    /**
     * updateLogbooks: every logbook is validated before any write; then each
     * stored namesake is soft-deleted and the batch is saved. The soft deletes
     * are all overwritten, so the store ends as the old one with the batch on top.
     */
    method UpdateLogbooks(books: seq<Logbook>) returns (r: Result<seq<Logbook>>)
      requires Valid()
      modifies this
      ensures Valid()
      ensures r.Err? <==> exists i :: 0 <= i < |books| && !IsValidLogbook(books[i])
      ensures r.Err? ==> r.error == BadRequest && logbooks == old(logbooks)
      ensures r.Ok? ==> r.value == books && logbooks == old(logbooks) + Written(Keyed(books))
    {
      var checked := ValidateLogbooks(books);
      if checked.Err? {
        return Err(BadRequest);
      }
      ghost var before := logbooks;
      var names := Names(Keyed(books));
      for i := 0 to |books|
        invariant logbooks == RetireAll(before, names[..i], RetireLogbook)
      {
        assert names[..i + 1][..i] == names[..i];
        if names[i] in logbooks {
          logbooks := logbooks[names[i] := logbooks[names[i]].Retired()];
        }
      }
      assert names[..|books|] == names;
      logbooks := SaveAll(logbooks, Keyed(books));
      RetiredThenSaved(before, Keyed(books), RetireLogbook);
      KeyedWrittenValid(books);
      return Ok(books);
    }

    /** deleteLogbook: a stored logbook is soft-deleted; 404 when there is none. */
    method DeleteLogbook(name: string) returns (r: Result<()>)
      requires Valid()
      modifies this
      ensures Valid()
      ensures name !in old(logbooks) ==> r == Err(NotFound) && logbooks == old(logbooks)
      ensures name in old(logbooks) ==> r == Ok(()) && logbooks == Retire(old(logbooks), name, RetireLogbook)
    {
      if name !in logbooks {
        return Err(NotFound);
      }
      logbooks := logbooks[name := logbooks[name].Retired()];
      return Ok(());
    }
  }

  /** A valid batch, keyed by name, stores each logbook under its own name. */
  lemma {:induction false} KeyedWrittenValid(books: seq<Logbook>)
    requires forall i :: 0 <= i < |books| ==> IsValidLogbook(books[i])
    ensures forall n :: n in Written(Keyed(books)) ==> Written(Keyed(books))[n].name == Some(n)
  {
    if books != [] {
      var init := books[..|books| - 1];
      KeyedWrittenValid(init);
      assert Keyed(books) == Keyed(init) + [(books[|books| - 1].name.value, books[|books| - 1])];
      assert Keyed(books)[..|books| - 1] == Keyed(init);
    }
  }

  /**
   * A deleted logbook is still found by name, now Inactive, and its name drops
   * out of the active ones that findAll lists.
   */
  lemma DeletedStillFoundInactive(logbooks: map<string, Logbook>, name: string)
    requires name in logbooks
    ensures Retire(logbooks, name, RetireLogbook)[name].state == Inactive
    ensures Retire(logbooks, name, RetireLogbook)[name].name == logbooks[name].name
    ensures ActiveNames(Retire(logbooks, name, RetireLogbook), IsActiveLogbook)
         == ActiveNames(logbooks, IsActiveLogbook) - {name}
  {
    RetireHides(logbooks, name, RetireLogbook, IsActiveLogbook);
  }
}
