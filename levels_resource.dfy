/**
 * LevelsResource.java over the level repository, seen as a map from a level's
 * name to the level. Unlike logbooks and tags, levels are deleted for good,
 * and findAll lists every stored level. At most one level may be the default.
 */
module Levels {
  import opened Wrappers
  import opened Entities
  import opened Stores

  /** The name check of validateLevelRequest: present and non-empty. */
  predicate HasLevelName(level: Level) {
    level.name.Some? && level.name.value != ""
  }

  /** Some level among `existing` is the default. */
  predicate HasDefault(existing: set<Level>) {
    exists l :: l in existing && l.defaultLevel
  }

  /**
   * What validateLevelRequest is documented to accept: a named level that is
   * not a second default.
   */
  predicate LevelAccepted(level: Level, existing: set<Level>) {
    HasLevelName(level) && !(level.defaultLevel && HasDefault(existing))
  }

  /** The levels stored under more than one name are not the default twice. */
  predicate AtMostOneDefault(levels: map<string, Level>) {
    forall m, n :: m in levels && n in levels && levels[m].defaultLevel && levels[n].defaultLevel ==> m == n
  }

  /** A batch keyed by the levels' names, as saveAll indexes it. */
  function Keyed(batch: seq<Level>): (keyed: seq<(string, Level)>)
    ensures |keyed| == |batch|
    ensures forall i :: 0 <= i < |batch| ==> keyed[i] == (batch[i].name.GetOr(""), batch[i])
  {
    if batch == [] then [] else Keyed(batch[..|batch| - 1]) + [(batch[|batch| - 1].name.GetOr(""), batch[|batch| - 1])]
  }

  class LevelsResource {
    /** The level index, by name. */
    var levels: map<string, Level>

    /** Each level is stored under its own name. */
    ghost predicate Valid()
      reads this
    {
      forall n :: n in levels ==> levels[n].name == Some(n)
    }

    constructor ()
      ensures levels == map[] && Valid()
    {
      levels := map[];
    }

    /** findAll: every stored level. */
    function FindAll(): (r: set<Level>)
      reads this
      ensures forall n :: n in levels ==> levels[n] in r
      ensures forall l :: l in r ==> exists n :: n in levels && levels[n] == l
    {
      levels.Values
    }

    /** findByTitle: the level of that name; 404 when there is none. */
    method FindByTitle(name: string) returns (r: Result<Level>)
      ensures name in levels ==> r == Ok(levels[name])
      ensures name !in levels ==> r == Err(NotFound)
    {
      if name in levels {
        return Ok(levels[name]);
      }
      return Err(NotFound);
    }

    /**
     * validateLevelRequest as documented: 400 for a missing or empty name, and
     * 400 for a default level when a stored level is already the default. The
     * scan visits every stored level once. This is the corrected half of the
     * finding on the loop; the resource methods run the loop as written.
     */
    method ValidateLevelIntended(level: Level) returns (r: Result<()>)
      ensures r.Ok? <==> LevelAccepted(level, FindAll())
      ensures r.Err? ==> r.error == BadRequest
    {
      if !HasLevelName(level) {
        return Err(BadRequest);
      }
      var existing := levels.Values;
      var rest := existing;
      while rest != {}
        invariant rest <= existing
        invariant forall l :: l in existing && l !in rest ==> !(l.defaultLevel && level.defaultLevel)
        decreases rest
      {
        var l :| l in rest;
        if l.defaultLevel && level.defaultLevel {
          return Err(BadRequest);
        }
        rest := rest - {l};
      }
      return Ok(());
    }

    /**
     * validateLevelRequest as written: 400 for a missing or empty name; then
     * the loop takes a fresh iterator on every round, so it only ever looks at
     * the level the repository lists first. It passes only when no level is
     * stored, refuses a second default only when that first level is the
     * default, and otherwise never returns (`Hangs`). Wherever it does return,
     * it answers as the documented rule does.
     */
    method ValidateLevelRequest(level: Level) returns (r: Result<()>)
      ensures EndsAsWritten(level, FindAll(), Outcome(r))
      ensures r.Ok? <==> HasLevelName(level) && levels == map[]
      ensures r == Err(Hangs) ==> HasLevelName(level) && levels != map[]
      ensures r != Err(Hangs) ==> (r.Ok? <==> LevelAccepted(level, FindAll()))
    {
      if !HasLevelName(level) {
        return Err(BadRequest);
      }
      var existing := levels.Values;
      if existing == {} {
        return Ok(());
      }
      var first :| first in existing;
      if first.defaultLevel && level.defaultLevel {
        return Err(BadRequest);
      }
      return Err(Hangs);
    }

    /**
     * validateLevelsRequest: each level in turn, against the levels stored
     * before the request; the first check that does not pass decides. With a
     * level stored, that is the check of the first level of the batch.
     */
    method ValidateLevelsRequest(batch: seq<Level>) returns (r: Result<()>)
      ensures r.Ok? <==> (batch == [] || levels == map[]) && forall i :: 0 <= i < |batch| ==> HasLevelName(batch[i])
      ensures batch != [] && levels != map[] ==> EndsAsWritten(batch[0], FindAll(), Outcome(r))
      ensures r == Err(Hangs) ==> levels != map[]
      ensures r != Err(Hangs) ==> (r.Ok? <==> forall i :: 0 <= i < |batch| ==> LevelAccepted(batch[i], FindAll()))
    {
      for i := 0 to |batch|
        invariant forall j :: 0 <= j < i ==> HasLevelName(batch[j])
        invariant i > 0 ==> levels == map[]
      {
        var checked := ValidateLevelRequest(batch[i]);
        if checked.Err? {
          return checked;
        }
      }
      return Ok(());
    }

    /**
     * createLevel: after validation, the level stored under the path name is
     * removed and the body is saved under its own name. As written the
     * validation passes only on an empty store, so a second default is never
     * stored.
     */
    method CreateLevel(name: string, level: Level) returns (r: Result<Level>)
      requires Valid()
      modifies this
      ensures Valid()
      ensures EndsAsWritten(level, old(FindAll()), Outcome(r))
      ensures r.Ok? <==> HasLevelName(level) && old(levels) == map[]
      ensures r != Err(Hangs) ==> (r.Ok? <==> LevelAccepted(level, old(FindAll())))
      ensures r.Err? ==> levels == old(levels)
      ensures r.Ok? ==> r == Ok(level) && levels == (old(levels) - {name})[level.name.value := level]
      ensures AtMostOneDefault(old(levels)) ==> AtMostOneDefault(levels)
    {
      var checked := ValidateLevelRequest(level);
      if checked.Err? {
        return Err(checked.error);
      }
      levels := levels - {name};
      levels := levels[level.name.value := level];
      return Ok(level);
    }

    /**
     * The batch form of createLevel: every level is validated against the
     * stored levels first, then the batch is written.
     */
    method UpdateLevels(batch: seq<Level>) returns (r: Result<seq<Level>>)
      requires Valid()
      modifies this
      ensures Valid()
      ensures r.Ok? <==> (batch == [] || old(levels) == map[]) && forall i :: 0 <= i < |batch| ==> HasLevelName(batch[i])
      ensures batch != [] && old(levels) != map[] ==> EndsAsWritten(batch[0], old(FindAll()), Outcome(r))
      ensures r != Err(Hangs) ==> (r.Ok? <==> forall i :: 0 <= i < |batch| ==> LevelAccepted(batch[i], old(FindAll())))
      ensures r.Err? ==> levels == old(levels)
      ensures r.Ok? ==> r.value == batch && levels == old(levels) + Written(Keyed(batch))
    {
      var checked := ValidateLevelsRequest(batch);
      if checked.Err? {
        return Err(checked.error);
      }
      WriteLevels(batch);
      return Ok(batch);
    }

    /**
     * The writes of the batch form: each stored namesake is removed, then the
     * batch is saved. The removals are all overwritten.
     */
    method WriteLevels(batch: seq<Level>)
      requires Valid()
      requires forall i :: 0 <= i < |batch| ==> HasLevelName(batch[i])
      modifies this
      ensures Valid()
      ensures levels == old(levels) + Written(Keyed(batch))
    {
      ghost var before := levels;
      var names := Names(Keyed(batch));
      for i := 0 to |batch|
        invariant levels == RemoveAll(before, names[..i])
      {
        assert names[..i + 1][..i] == names[..i];
        if names[i] in levels {
          levels := levels - {names[i]};
        }
      }
      assert names[..|batch|] == names;
      levels := SaveAll(levels, Keyed(batch));
      RemovedThenSaved(before, Keyed(batch));
      KeyedWrittenValid(batch);
    }

    /** deleteTag (of levels): the level of that name is removed; 404 when there is none. */
    method DeleteLevel(name: string) returns (r: Result<()>)
      modifies this
      ensures name !in old(levels) ==> r == Err(NotFound) && levels == old(levels)
      ensures name in old(levels) ==> r == Ok(()) && levels == old(levels) - {name}
    {
      if name !in levels {
        return Err(NotFound);
      }
      levels := levels - {name};
      return Ok(());
    }
  }

  /** A batch of named levels, keyed by name, stores each level under its own name. */
  lemma {:induction false} KeyedWrittenValid(batch: seq<Level>)
    requires forall i :: 0 <= i < |batch| ==> HasLevelName(batch[i])
    ensures forall n :: n in Written(Keyed(batch)) ==> Written(Keyed(batch))[n].name == Some(n)
  {
    if batch != [] {
      var init := batch[..|batch| - 1];
      KeyedWrittenValid(init);
      assert Keyed(batch)[..|batch| - 1] == Keyed(init);
    }
  }

  /**
   * A second default level is never accepted, whatever its name. The
   * documented rule refuses it; the loop as written refuses it when the
   * repository lists the stored default first, and otherwise never returns.
   */
  lemma SecondDefaultRefused(existing: seq<Level>, level: Level)
    requires existing != [] && HasDefault(set l | l in existing) && level.defaultLevel
    ensures !LevelAccepted(level, set l | l in existing)
    ensures ValidateLevelAsWritten(level, existing) != Accept
    ensures HasLevelName(level) && existing[0].defaultLevel ==> ValidateLevelAsWritten(level, existing) == Reject(BadRequest)
    ensures HasLevelName(level) && !existing[0].defaultLevel ==> ValidateLevelAsWritten(level, existing) == Diverge
  {
  }

  /**
   * Each level of a batch is checked against the stored levels alone, so a
   * batch can bring in two defaults at once when none is stored.
   */
  lemma BatchCanAddTwoDefaults()
    ensures var batch := [Level(Some("Urgent"), true), Level(Some("Problem"), true)];
      (forall i :: 0 <= i < |batch| ==> LevelAccepted(batch[i], {}) && ValidateLevelAsWritten(batch[i], []) == Accept)
      && !AtMostOneDefault(map[] + Written(Keyed(batch)))
  {
    var batch := [Level(Some("Urgent"), true), Level(Some("Problem"), true)];
    var keyed := Keyed(batch);
    assert keyed[0].0 == "Urgent" && keyed[1].0 == "Problem";
    SaveAllUnique(map[], keyed, 0);
    SaveAllUnique(map[], keyed, 1);
    var written := map[] + Written(keyed);
    assert written["Urgent"].defaultLevel && written["Problem"].defaultLevel;
  }

  /**
   * validateLevelRequest as written: the loop asks the list for a fresh
   * iterator on every round, so it only ever looks at the first stored level.
   * If that level does not trigger the rejection, the loop never ends.
   */
  function ValidateLevelAsWritten(level: Level, existing: seq<Level>): (v: Verdict)
    ensures v == Accept ==> existing == [] && HasLevelName(level)
    ensures v == Diverge ==> HasLevelName(level) && existing != []
  {
    if !HasLevelName(level) then Reject(BadRequest)
    else if existing == [] then Accept
    else if existing[0].defaultLevel && level.defaultLevel then Reject(BadRequest)
    else Diverge
  }

  /**
   * `v` is a way the loop as written can end over the stored levels
   * `existing`: it only looks at the level the repository lists first,
   * whichever level that is.
   */
  ghost predicate EndsAsWritten(level: Level, existing: set<Level>, v: Verdict) {
    if existing == {} then v == ValidateLevelAsWritten(level, [])
    else exists l :: l in existing && v == ValidateLevelAsWritten(level, [l])
  }

  /**
   * With one non-default level stored, creating any second level hangs, while
   * the documented rule accepts it.
   */
  lemma SecondLevelHangs()
    ensures ValidateLevelAsWritten(Level(Some("Problem"), false), [Level(Some("Info"), false)]) == Diverge
    ensures LevelAccepted(Level(Some("Problem"), false), {Level(Some("Info"), false)})
  {
  }

  /** Where the code as written ends at all, it ends as the documented rule does. */
  lemma AsWrittenAgreesWhenItEnds(level: Level, existing: seq<Level>)
    requires ValidateLevelAsWritten(level, existing) != Diverge
    ensures ValidateLevelAsWritten(level, existing) == Accept
        <==> LevelAccepted(level, set l | l in existing)
  {
    if existing != [] && HasLevelName(level) {
      assert existing[0] in set l | l in existing;
    }
  }
}
