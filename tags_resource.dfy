/**
 * TagsResource.java over the tag repository, seen as a map from a
 * tag's name to the tag. The repository saves a tag under its own
 * name and deletes softly, by marking the tag Inactive; findAll lists the
 * active tags only.
 */
module Tags {
  import opened Wrappers
  import opened Entities
  import opened Stores

  /** validateTagRequest: the name is present and non-empty; the state is not checked. */
  predicate IsValidTag(b: Tag) {
    b.name.Some? && b.name.value != ""
  }

  function RetireTag(b: Tag): Tag { b.Retired() }

  function IsActiveTag(b: Tag): bool { b.state == Active }

  /** A batch keyed by the tags' names, as saveAll indexes it. */
  function Keyed(tagList: seq<Tag>): (batch: seq<(string, Tag)>)
    ensures |batch| == |tagList|
    ensures forall i :: 0 <= i < |tagList| ==> batch[i] == (tagList[i].name.GetOr(""), tagList[i])
  {
    if tagList == [] then [] else Keyed(tagList[..|tagList| - 1]) + [(tagList[|tagList| - 1].name.GetOr(""), tagList[|tagList| - 1])]
  }

  /** validateTagRequest(Iterable): the first invalid tag stops the request with 400. */
  method ValidateTags(tagList: seq<Tag>) returns (r: Result<()>)
    ensures r.Ok? <==> forall i :: 0 <= i < |tagList| ==> IsValidTag(tagList[i])
    ensures r.Err? ==> r.error == BadRequest
  {
    for i := 0 to |tagList|
      invariant forall j :: 0 <= j < i ==> IsValidTag(tagList[j])
    {
      if !IsValidTag(tagList[i]) {
        return Err(BadRequest);
      }
    }
    return Ok(());
  }

  class TagsResource {
    /** The tag index: every tag ever saved, under its name. */
    var tags: map<string, Tag>

    /** Each tag is stored under its own name. */
    ghost predicate Valid()
      reads this
    {
      forall n :: n in tags ==> tags[n].name == Some(n)
    }

    constructor ()
      ensures tags == map[] && Valid()
    {
      tags := map[];
    }

    /** findAll: the active tags. */
    function FindAll(): (r: set<Tag>)
      reads this
      ensures forall b :: b in r <==> b in tags.Values && b.state == Active
    {
      set n | n in tags && tags[n].state == Active :: tags[n]
    }

    /** findByTitle: the stored tag of that name, active or not; 404 when there is none. */
    method FindByTitle(name: string) returns (r: Result<Tag>)
      ensures name in tags ==> r == Ok(tags[name])
      ensures name !in tags ==> r == Err(NotFound)
    {
      if name in tags {
        return Ok(tags[name]);
      }
      return Err(NotFound);
    }

    /**
     * createTag: after validation, a tag stored under the path name is
     * soft-deleted, then the body is saved under its own name.
     */
    method CreateTag(name: string, tag: Tag) returns (r: Result<Tag>)
      requires Valid()
      modifies this
      ensures Valid()
      ensures !IsValidTag(tag) ==> r == Err(BadRequest) && tags == old(tags)
      ensures IsValidTag(tag) ==> r == Ok(tag)
      ensures IsValidTag(tag) ==>
        tags == Retire(old(tags), name, RetireTag)[tag.name.value := tag]
    {
      if !IsValidTag(tag) {
        return Err(BadRequest);
      }
      if name in tags {
        tags := tags[name := tags[name].Retired()];
      }
      tags := tags[tag.name.value := tag];
      return Ok(tag);
    }

    /**
     * updateTag: every tag is validated before any write; then each
     * stored namesake is soft-deleted and the batch is saved. The soft deletes
     * are all overwritten, so the store ends as the old one with the batch on top.
     */
    method UpdateTag(tagList: seq<Tag>) returns (r: Result<seq<Tag>>)
      requires Valid()
      modifies this
      ensures Valid()
      ensures r.Err? <==> exists i :: 0 <= i < |tagList| && !IsValidTag(tagList[i])
      ensures r.Err? ==> r.error == BadRequest && tags == old(tags)
      ensures r.Ok? ==> r.value == tagList && tags == old(tags) + Written(Keyed(tagList))
    {
      var checked := ValidateTags(tagList);
      if checked.Err? {
        return Err(BadRequest);
      }
      ghost var before := tags;
      var names := Names(Keyed(tagList));
      for i := 0 to |tagList|
        invariant tags == RetireAll(before, names[..i], RetireTag)
      {
        assert names[..i + 1][..i] == names[..i];
        if names[i] in tags {
          tags := tags[names[i] := tags[names[i]].Retired()];
        }
      }
      assert names[..|tagList|] == names;
      tags := SaveAll(tags, Keyed(tagList));
      RetiredThenSaved(before, Keyed(tagList), RetireTag);
      KeyedWrittenValid(tagList);
      return Ok(tagList);
    }

    /** deleteTag: a stored tag is soft-deleted; 404 when there is none. */
    method DeleteTag(name: string) returns (r: Result<()>)
      requires Valid()
      modifies this
      ensures Valid()
      ensures name !in old(tags) ==> r == Err(NotFound) && tags == old(tags)
      ensures name in old(tags) ==> r == Ok(()) && tags == Retire(old(tags), name, RetireTag)
    {
      if name !in tags {
        return Err(NotFound);
      }
      tags := tags[name := tags[name].Retired()];
      return Ok(());
    }
  }

  /** A valid batch, keyed by name, stores each tag under its own name. */
  lemma {:induction false} KeyedWrittenValid(tagList: seq<Tag>)
    requires forall i :: 0 <= i < |tagList| ==> IsValidTag(tagList[i])
    ensures forall n :: n in Written(Keyed(tagList)) ==> Written(Keyed(tagList))[n].name == Some(n)
  {
    if tagList != [] {
      var init := tagList[..|tagList| - 1];
      KeyedWrittenValid(init);
      assert Keyed(tagList) == Keyed(init) + [(tagList[|tagList| - 1].name.value, tagList[|tagList| - 1])];
      assert Keyed(tagList)[..|tagList| - 1] == Keyed(init);
    }
  }

  /**
   * A deleted tag is still found by name, now Inactive, and its name drops
   * out of the active ones that findAll lists.
   */
  lemma DeletedStillFoundInactive(tags: map<string, Tag>, name: string)
    requires name in tags
    ensures Retire(tags, name, RetireTag)[name].state == Inactive
    ensures Retire(tags, name, RetireTag)[name].name == tags[name].name
    ensures ActiveNames(Retire(tags, name, RetireTag), IsActiveTag)
         == ActiveNames(tags, IsActiveTag) - {name}
  {
    RetireHides(tags, name, RetireTag, IsActiveTag);
  }
}
