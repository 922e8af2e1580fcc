/**
 * The plain records of the service (State, Logbook, Tag, Attribute, Property,
 * Level, Attachment, Event) and java.time.Instant. A Java reference that may be
 * null is an `Option`; everything else is a plain value.
 */
module Entities {
  import opened Wrappers

  datatype State = Active | Inactive

  /** Nanoseconds within a second, as java.time.Instant keeps them. */
  type Nano = n: int | 0 <= n < 1_000_000_000

  /** java.time.Instant: seconds from the epoch and a nanosecond adjustment. */
  datatype Instant = Instant(seconds: int, nanos: Nano)

  datatype Logbook = Logbook(name: Option<string>, owner: Option<string>, state: State)
  {
    function Retired(): Logbook { this.(state := Inactive) }
  }

  datatype Tag = Tag(name: Option<string>, state: State)
  {
    function Retired(): Tag { this.(state := Inactive) }
  }

  datatype Attribute = Attribute(name: Option<string>, value: Option<string>, state: Option<State>)

  /** A property; `Property(name)` and `Property(name, attributes)` leave the state Active. */
  datatype Property = Property(
    name: Option<string>,
    owner: Option<string>,
    state: Option<State>,
    attributes: Option<set<Attribute>>)
  {
    function Retired(): Property { this.(state := Some(Inactive)) }
  }

  /** The record `Level(name, defaultLevel)`. */
  datatype Level = Level(name: Option<string>, defaultLevel: bool)

  /** Attachment metadata; the content stream is not modelled. */
  datatype Attachment = Attachment(id: Option<string>, filename: Option<string>, fileMetadataDescription: Option<string>)

  datatype Event = Event(name: Option<string>, instant: Option<Instant>)

  /**
   * The members of a java.util.Set are pairwise unequal in the sense of their
   * class's `equals`; `key` gives the fields that `equals` compares.
   */
  predicate Distinct<T, K(==)>(s: set<T>, key: T -> K) {
    forall x, y :: x in s && y in s && key(x) == key(y) ==> x == y
  }

  /** The `equals` fields of the members of `s`. */
  function Keys<T, K(==)>(s: set<T>, key: T -> K): (r: set<K>)
    ensures forall x :: x in s ==> key(x) in r
    ensures forall k :: k in r ==> exists x :: x in s && key(x) == k
  {
    set x | x in s :: key(x)
  }

  /**
   * Set.add: when the set already holds a member equal to `x`, that member
   * stays and `x` is dropped; otherwise `x` joins the set.
   */
  function Add<T, K(==)>(s: set<T>, x: T, key: T -> K): (r: set<T>)
    ensures key(x) in Keys(s, key) ==> r == s
    ensures key(x) !in Keys(s, key) ==> r == s + {x}
    ensures Keys(r, key) == Keys(s, key) + {key(x)}
    ensures Distinct(s, key) ==> Distinct(r, key)
  {
    if key(x) in Keys(s, key) then s else s + {x}
  }

  /**
   * Set.addAll of a set: the members of `more` with no equal member in `s`
   * join it, and the members of `s` stay.
   */
  function AddAll<T, K(==)>(s: set<T>, more: set<T>, key: T -> K): (r: set<T>)
    ensures s <= r <= s + more
    ensures Keys(r, key) == Keys(s, key) + Keys(more, key)
    ensures Distinct(s, key) && Distinct(more, key) ==> Distinct(r, key)
  {
    s + set x | x in more && key(x) !in Keys(s, key)
  }

  /** Adding the members of `order` one at a time, first to last. */
  function AddEach<T, K(==)>(s: set<T>, order: seq<T>, key: T -> K): set<T>
    decreases |order|
  {
    if order == [] then s else AddEach(Add(s, order[0], key), order[1..], key)
  }

  /** No two members of `order` are equal in the sense of `equals`. */
  predicate DistinctKeys<T, K(==)>(order: seq<T>, key: T -> K) {
    forall i, j :: 0 <= i < j < |order| ==> key(order[i]) != key(order[j])
  }

  /**
   * addAll visits the members of the argument in its iteration order and adds
   * each; whatever that order, the outcome is AddAll.
   */
  lemma {:induction false} AddEachIsAddAll<T, K>(s: set<T>, order: seq<T>, key: T -> K)
    requires DistinctKeys(order, key)
    ensures AddEach(s, order, key) == AddAll(s, (set x | x in order), key)
    decreases |order|
  {
    if order != [] {
      var x, rest := order[0], order[1..];
      AddEachIsAddAll(Add(s, x, key), rest, key);
      var restSet := set y | y in rest;
      assert (set y | y in order) == {x} + restSet;
      forall y | y in restSet
        ensures key(y) != key(x)
      {
        var j :| 0 <= j < |rest| && rest[j] == y;
        assert order[j + 1] == y;
      }
      AddThenAddAll(s, x, restSet, key);
    }
  }

  /** Adding `x` and then a set with no member equal to it is adding both at once. */
  lemma AddThenAddAll<T, K>(s: set<T>, x: T, more: set<T>, key: T -> K)
    requires forall y :: y in more ==> key(y) != key(x)
    ensures AddAll(Add(s, x, key), more, key) == AddAll(s, {x} + more, key)
  {
    var lhs, rhs := AddAll(Add(s, x, key), more, key), AddAll(s, {x} + more, key);
    forall z
      ensures z in lhs <==> z in rhs
    {
      if z in more {
        assert key(z) in Keys(Add(s, x, key), key) <==> key(z) in Keys(s, key);
      }
    }
  }

  /** A set of pairwise unequal members has as many `equals` fields as members. */
  lemma {:induction false} DistinctKeysCount<T, K>(s: set<T>, key: T -> K)
    requires Distinct(s, key)
    ensures |Keys(s, key)| == |s|
    decreases |s|
  {
    if s != {} {
      var x :| x in s;
      DistinctKeysCount(s - {x}, key);
      assert Keys(s, key) == Keys(s - {x}, key) + {key(x)};
      assert key(x) !in Keys(s - {x}, key);
    }
  }

  /**
   * AbstractSet.equals: the other set is as large, and each of its members
   * has an equal member here (containsAll).
   */
  predicate SetEquals<T, K(==)>(a: set<T>, b: set<T>, key: T -> K) {
    |a| == |b| && Keys(b, key) <= Keys(a, key)
  }

  /** Between two java.util.Sets, equals holds exactly when they hold the same `equals` fields. */
  lemma SetEqualsByKeys<T, K>(a: set<T>, b: set<T>, key: T -> K)
    requires Distinct(a, key) && Distinct(b, key)
    ensures SetEquals(a, b, key) <==> Keys(a, key) == Keys(b, key)
  {
    DistinctKeysCount(a, key);
    DistinctKeysCount(b, key);
    if Keys(b, key) <= Keys(a, key) && |Keys(a, key)| == |Keys(b, key)| {
      SubsetOfSameSize(Keys(b, key), Keys(a, key));
    }
  }

  /** A subset as large as its superset is the superset. */
  lemma SubsetOfSameSize<K>(small: set<K>, large: set<K>)
    requires small <= large && |small| == |large|
    ensures small == large
  {
    var extra := large - small;
    assert large == small + extra && small * extra == {};
    assert |extra| == 0;
  }

  /** Tag.equals and Tag.hashCode read the name only. */
  function TagKey(t: Tag): Option<string> { t.name }

  /** Logbook.equals reads the name and the owner. */
  function LogbookKey(b: Logbook): (Option<string>, Option<string>) { (b.name, b.owner) }

  /** Property.equals reads the name and the attributes, not the owner or the state. */
  function PropertyKey(p: Property): (Option<string>, Option<set<Attribute>>) { (p.name, p.attributes) }

  /** A Set<Tag>: at most one tag of each name. */
  type TagSet = s: set<Tag> | Distinct(s, TagKey)

  /** A Set<Logbook>: at most one logbook of each name and owner. */
  type LogbookSet = s: set<Logbook> | Distinct(s, LogbookKey)

  /** A Set<Property>: at most one property of each name and attribute set. */
  type PropertySet = s: set<Property> | Distinct(s, PropertyKey)

  /** The names of a set of logbooks, as `stream().map(Logbook::getName)` collects them. */
  function LogbookNames(books: set<Logbook>): (r: set<Option<string>>)
    ensures forall b :: b in books ==> b.name in r
    ensures forall n :: n in r ==> exists b :: b in books && b.name == n
  {
    set b | b in books :: b.name
  }

  /** The names of a set of tags, which are what Tag.equals compares. */
  function TagNames(tags: set<Tag>): (r: set<Option<string>>)
    ensures r == Keys(tags, TagKey)
  {
    set t | t in tags :: t.name
  }
}
