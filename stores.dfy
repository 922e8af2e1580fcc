/**
 * The repositories behind the resources, seen as maps from a record's name to
 * the record. `save` indexes a record under its name, `saveAll` does so for a
 * batch in order (a later record of the same name wins), and `deleteById`
 * either marks a present record inactive (logbooks, tags, properties) or
 * removes it (levels).
 */
module Stores {

  /** The names of a batch of (name, record) pairs, in order. */
  function Names<T>(batch: seq<(string, T)>): (ns: seq<string>)
    ensures |ns| == |batch|
    ensures forall i :: 0 <= i < |batch| ==> ns[i] == batch[i].0
  {
    if batch == [] then [] else Names(batch[..|batch| - 1]) + [batch[|batch| - 1].0]
  }

  /** saveAll: each record indexed under its name, in batch order. */
  function SaveAll<T>(s: map<string, T>, batch: seq<(string, T)>): map<string, T> {
    if batch == [] then s
    else SaveAll(s, batch[..|batch| - 1])[batch[|batch| - 1].0 := batch[|batch| - 1].1]
  }

  /** The batch on its own: what saveAll writes into an empty store. */
  function Written<T>(batch: seq<(string, T)>): map<string, T> {
    SaveAll(map[], batch)
  }

  /** Everything saveAll writes lands on top of the old store: it is a map union. */
  lemma {:induction false} SaveAllIsUnion<T>(s: map<string, T>, batch: seq<(string, T)>)
    ensures SaveAll(s, batch) == s + Written(batch)
  {
    if batch != [] {
      var init := batch[..|batch| - 1];
      SaveAllIsUnion(s, init);
      SaveAllIsUnion(map[], init);
    }
  }

  /** saveAll writes exactly the batch's names. */
  lemma {:induction false} WrittenKeys<T>(batch: seq<(string, T)>)
    ensures forall n :: n in Written(batch) <==> n in Names(batch)
  {
    if batch != [] {
      var init := batch[..|batch| - 1];
      WrittenKeys(init);
      assert Names(batch) == Names(init) + [batch[|batch| - 1].0];
    }
  }

  /** A record whose name occurs once in the batch is what the store then holds under that name. */
  lemma {:induction false} SaveAllUnique<T>(s: map<string, T>, batch: seq<(string, T)>, i: nat)
    requires i < |batch|
    requires forall j :: 0 <= j < |batch| && j != i ==> batch[j].0 != batch[i].0
    ensures batch[i].0 in SaveAll(s, batch) && SaveAll(s, batch)[batch[i].0] == batch[i].1
  {
    if i < |batch| - 1 {
      var init := batch[..|batch| - 1];
      SaveAllUnique(s, init, i);
    }
  }

  /** deleteById on a soft-deleting repository: a present record is replaced by its retired form. */
  function Retire<T>(s: map<string, T>, name: string, retire: T -> T): (r: map<string, T>)
    ensures r.Keys == s.Keys
    ensures forall n :: n in s && n != name ==> r[n] == s[n]
    ensures name in s ==> r[name] == retire(s[name])
  {
    if name in s then s[name := retire(s[name])] else s
  }

  /** deleteById for each name in turn. */
  function RetireAll<T>(s: map<string, T>, names: seq<string>, retire: T -> T): (r: map<string, T>)
    ensures r.Keys == s.Keys
    ensures forall n :: n in s && n !in names ==> r[n] == s[n]
  {
    if names == [] then s
    else Retire(RetireAll(s, names[..|names| - 1], retire), names[|names| - 1], retire)
  }

  /**
   * Retiring the names of a batch and then saving the batch leaves no trace
   * of the retirement: every retired record is overwritten.
   */
  lemma RetiredThenSaved<T>(s: map<string, T>, batch: seq<(string, T)>, retire: T -> T)
    ensures SaveAll(RetireAll(s, Names(batch), retire), batch) == s + Written(batch)
  {
    var retired := RetireAll(s, Names(batch), retire);
    SaveAllIsUnion(retired, batch);
    SaveAllIsUnion(s, batch);
    WrittenKeys(batch);
    assert retired + Written(batch) == s + Written(batch);
  }

  /** deleteById on a removing repository, for each name in turn. */
  function RemoveAll<T>(s: map<string, T>, names: seq<string>): (r: map<string, T>)
    ensures forall n :: n in r <==> n in s && n !in names
    ensures forall n :: n in r ==> r[n] == s[n]
  {
    if names == [] then s
    else RemoveAll(s, names[..|names| - 1]) - {names[|names| - 1]}
  }

  /** Removing the names of a batch and then saving the batch is saving it. */
  lemma RemovedThenSaved<T>(s: map<string, T>, batch: seq<(string, T)>)
    ensures SaveAll(RemoveAll(s, Names(batch)), batch) == s + Written(batch)
  {
    var removed := RemoveAll(s, Names(batch));
    SaveAllIsUnion(removed, batch);
    WrittenKeys(batch);
    assert removed + Written(batch) == s + Written(batch);
  }

  /** The names under which an active record is stored, given a record's activity. */
  function ActiveNames<T>(s: map<string, T>, active: T -> bool): (ns: set<string>)
    ensures forall n :: n in ns <==> n in s && active(s[n])
  {
    set n | n in s && active(s[n])
  }

  /** A soft delete takes exactly that name out of the active ones. */
  lemma RetireHides<T>(s: map<string, T>, name: string, retire: T -> T, active: T -> bool)
    requires name in s
    requires forall t :: !active(retire(t))
    ensures ActiveNames(Retire(s, name, retire), active) == ActiveNames(s, active) - {name}
  {
  }
}
