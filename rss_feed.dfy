/**
 * RssFeedUtil.java: the RSS 2.0 channel of the log-updates feed, one item
 * per log entry. The feed library's Item, Description and Channel are
 * records here. A log's tags are a hash set whose iteration order Java does
 * not fix, so the order in which fromLog meets them is a parameter.
 */
module RssFeed {
  import opened Wrappers
  import opened JavaText
  import opened Entities
  import opened LogEntity

  /** OlogResourceDescriptors.LOG_RESOURCE_URI. */
  const LOG_RESOURCE_URI := "Olog/logs"

  /** The part of a log's link before its id. */
  function LogUrlPrefix(baseUrl: string): string {
    baseUrl + LOG_RESOURCE_URI + "/"
  }

  /** logUrl: the base URL, the log resource and the id, a null id printed as "null". */
  function LogUrl(baseUrl: string, logId: Option<int>): (url: string)
    ensures StartsWith(url, LogUrlPrefix(baseUrl))
  {
    LogUrlPrefix(baseUrl) + (if logId.Some? then IntToString(logId.value) else "null")
  }

  /** The id of a log comes back from its link, so different logs of a feed link to different places. */
  lemma LogUrlNamesId(baseUrl: string, id: int)
    requires LONG_MIN <= id <= LONG_MAX
    ensures var url := LogUrl(baseUrl, Some(id));
      ParseLong(url[|LogUrlPrefix(baseUrl)|..]) == Ok(id)
  {
    var url := LogUrl(baseUrl, Some(id));
    assert url[|LogUrlPrefix(baseUrl)|..] == IntToString(id);
    ParseSignedOfIntToString(id, LONG_MIN, LONG_MAX);
  }

  /** Two logs with different ids never share a link. */
  lemma LogUrlInjective(baseUrl: string, a: int, b: int)
    requires LONG_MIN <= a <= LONG_MAX && LONG_MIN <= b <= LONG_MAX
    requires LogUrl(baseUrl, Some(a)) == LogUrl(baseUrl, Some(b))
    ensures a == b
  {
    LogUrlNamesId(baseUrl, a);
    LogUrlNamesId(baseUrl, b);
  }

  /** A feed item's description: its MIME type and its text, unset when there is none. */
  datatype Description = Description(mimeType: string, value: Option<string>)

  /** A feed item: title, link, categories, author, description and publication time in epoch milliseconds. */
  datatype Item = Item(title: Option<string>, link: string, categories: seq<Option<string>>,
                       author: Option<string>, description: Description, pubDate: Option<int>)

  /** The feed: its type, title, description, link and items. */
  datatype Channel = Channel(feedType: string, title: string, description: string, link: string, items: seq<Item>)

  /** StringUtils.isEmpty: null or "". */
  predicate IsEmpty(s: Option<string>) {
    s.None? || s.value == []
  }

  /**
   * The item's description: plain text, holding the log's source when that
   * is not empty, else its description when that is not empty, else nothing.
   */
  function ItemDescription(log: Log): (d: Description)
    ensures d.mimeType == "text/plain"
    ensures d.value.Some? <==> !IsEmpty(log.source) || !IsEmpty(log.description)
    ensures d.value.Some? ==> d.value.value != [] && (d.value == log.source || d.value == log.description)
    ensures !IsEmpty(log.source) ==> d.value == log.source
  {
    if !IsEmpty(log.source) then Description("text/plain", log.source)
    else if !IsEmpty(log.description) then Description("text/plain", log.description)
    else Description("text/plain", None)
  }

  /** Date.from(instant).getTime(): the instant in whole milliseconds, rounded down. */
  function EpochMillis(t: Instant): (ms: int)
    ensures ms * 1_000_000 <= t.seconds * 1_000_000_000 + t.nanos < (ms + 1) * 1_000_000
  {
    t.seconds * 1000 + t.nanos / 1_000_000
  }

  /** `order` lists the tags of a set, each once: an iteration order of the set. */
  predicate Enumerates(order: seq<Tag>, tags: set<Tag>) {
    tags == (set t | t in order)
    && (forall i, j :: 0 <= i < j < |order| ==> order[i] != order[j])
  }

  /** The names of tags, in the given order. */
  function TagNames(order: seq<Tag>): (names: seq<Option<string>>)
    ensures |names| == |order| && forall i :: 0 <= i < |order| ==> names[i] == order[i].name
  {
    seq(|order|, i requires 0 <= i < |order| => order[i].name)
  }

  /**
   * fromLog: the item of one log entry, its tags met in the order `order`;
   * the publication date is set exactly when the entry has a creation date.
   */
  function FromLog(log: Log, baseUrl: string, order: seq<Tag>): Item
    requires Enumerates(order, log.tags)
  {
    Item(log.title, LogUrl(baseUrl, log.id), TagNames(order), log.owner, ItemDescription(log),
         if log.createdDate.Some? then Some(EpochMillis(log.createdDate.value)) else None)
  }

  /**
   * An item links to its log, names each of its tags once as a category and
   * nothing else, is written by the log's owner, and is dated exactly when
   * the log is. The log's Set<Tag> holds one tag per name, so no category
   * repeats.
   */
  lemma FromLogDescribesLog(log: Log, baseUrl: string, order: seq<Tag>)
    requires Enumerates(order, log.tags)
    ensures var item := FromLog(log, baseUrl, order);
      && item.title == log.title && item.author == log.owner
      && item.link == LogUrl(baseUrl, log.id)
      && |item.categories| == |log.tags|
      && (forall t :: t in log.tags ==> t.name in item.categories)
      && (forall c :: c in item.categories ==> exists t :: t in log.tags && t.name == c)
      && (forall i, j :: 0 <= i < j < |item.categories| ==> item.categories[i] != item.categories[j])
      && (item.pubDate.Some? <==> log.createdDate.Some?)
      && item.description == ItemDescription(log)
  {
    var names := TagNames(order);
    NamesOfDistinctTags(order, log.tags);
    assert |log.tags| == |order| by {
      TagsCount(order, log.tags);
    }
    forall t | t in log.tags
      ensures t.name in names
    {
      var i :| 0 <= i < |order| && order[i] == t;
      assert names[i] == t.name;
    }
    forall c | c in names
      ensures exists t :: t in log.tags && t.name == c
    {
      var i :| 0 <= i < |names| && names[i] == c;
      assert order[i] in log.tags;
    }
  }

  /** Enumerating a Set<Tag>, which holds one tag per name, meets each name once. */
  lemma NamesOfDistinctTags(order: seq<Tag>, tags: TagSet)
    requires Enumerates(order, tags)
    ensures forall i, j :: 0 <= i < j < |order| ==> TagNames(order)[i] != TagNames(order)[j]
  {
    forall i, j | 0 <= i < j < |order|
      ensures order[i].name != order[j].name
    {
      assert order[i] in tags && order[j] in tags && order[i] != order[j];
    }
  }

  /** An enumeration of a set is as long as the set is large. */
  lemma {:induction false} TagsCount(order: seq<Tag>, tags: set<Tag>)
    requires Enumerates(order, tags)
    ensures |tags| == |order|
    decreases |order|
  {
    if order != [] {
      var last := order[|order| - 1];
      var rest := order[..|order| - 1];
      assert forall i :: 0 <= i < |rest| ==> rest[i] == order[i] != last;
      assert Enumerates(rest, tags - {last}) by {
        forall t
          ensures t in tags - {last} <==> t in rest
        {
          if t in rest {
            var i :| 0 <= i < |rest| && rest[i] == t;
            assert t == order[i];
          }
          if t in order && t != last {
            var i :| 0 <= i < |order| && order[i] == t;
            assert i < |order| - 1;
            assert t == rest[i];
          }
        }
      }
      TagsCount(rest, tags - {last});
    }
  }

  /**
   * fromLogEntries: a channel of type rss_2.0 titled for the log updates,
   * linking to the base URL, with one item per log in the order given;
   * `order` gives the iteration order of each tag set.
   */
  function FromLogEntries(logs: seq<Log>, baseUrl: string, order: set<Tag> -> seq<Tag>): (c: Channel)
    requires forall i :: 0 <= i < |logs| ==> Enumerates(order(logs[i].tags), logs[i].tags)
    ensures c.feedType == "rss_2.0" && c.link == baseUrl
  {
    Channel("rss_2.0", "Olog Service - Log Updates", "Latest logs created or updated in the Olog Service", baseUrl,
            seq(|logs|, i requires 0 <= i < |logs| => FromLog(logs[i], baseUrl, order(logs[i].tags))))
  }

  /** The feed of two runs of logs lists the items of the first run, then those of the second. */
  lemma FeedOfConcat(a: seq<Log>, b: seq<Log>, baseUrl: string, order: set<Tag> -> seq<Tag>)
    requires forall i :: 0 <= i < |a| ==> Enumerates(order(a[i].tags), a[i].tags)
    requires forall i :: 0 <= i < |b| ==> Enumerates(order(b[i].tags), b[i].tags)
    ensures forall i :: 0 <= i < |a + b| ==> Enumerates(order((a + b)[i].tags), (a + b)[i].tags)
    ensures FromLogEntries(a + b, baseUrl, order).items
         == FromLogEntries(a, baseUrl, order).items + FromLogEntries(b, baseUrl, order).items
  {
    assert forall i :: 0 <= i < |a + b| ==> (a + b)[i] == if i < |a| then a[i] else b[i - |a|];
  }

  /** Item `i` of the feed is the item of log `i`: no log is dropped, added or moved. */
  lemma FeedItemsFollowLogs(logs: seq<Log>, baseUrl: string, order: set<Tag> -> seq<Tag>, i: nat)
    requires forall k :: 0 <= k < |logs| ==> Enumerates(order(logs[k].tags), logs[k].tags)
    requires i < |logs|
    ensures |FromLogEntries(logs, baseUrl, order).items| == |logs|
    ensures FromLogEntries(logs, baseUrl, order).items[i].link == LogUrl(baseUrl, logs[i].id)
    ensures FromLogEntries(logs, baseUrl, order).items[i].description == ItemDescription(logs[i])
  {
  }
}
