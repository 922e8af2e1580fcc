/**
 * olog_client.py: the Python client of the service. A client holds the base
 * URL and a `requests` session (its headers and credentials); each call
 * shapes one or two HTTP requests and hands them to the session. Nothing is
 * sent over a network here: the requests the session would put on the wire
 * are appended to `sent`, and what the server answers, whether a path
 * exists and what MIME type a path suggests are parameters.
 */
module OlogClient {
  import opened Wrappers
  import opened JavaText
  import SearchUtil

  /** A JSON document as the client builds it and as `response.json()` gives it back. */
  datatype Json =
    | JNull
    | JBool(b: bool)
    | JInt(i: int)
    | JStr(s: string)
    | JList(items: seq<Json>)
    | JObject(fields: map<string, Json>)

  datatype HttpMethod = GET | PUT | POST | DELETE

  /** What one part of a multipart body carries: a file's contents, a serialised JSON document, or text. */
  datatype PartBody = FileAt(path: string) | JsonDoc(doc: Json) | Text(text: string)

  /** One part of a multipart body: its form field, file name and MIME type (unset for plain fields). */
  datatype Part = Part(field: string, filename: Option<string>, body: PartBody, mimeType: Option<string>)

  /** A request as the session sends it: the headers are those on the wire, after merging. */
  datatype Request = Request(verb: HttpMethod, url: string, params: map<string, string>,
                             headers: map<string, string>, json: Option<Json>,
                             data: map<string, string>, files: seq<Part>)

  /**
   * The server's answer: its status, its body as JSON (unset when the body is
   * empty) and its body as text.
   */
  datatype Response = Response(status: int, body: Option<Json>, text: string)

  const CONTENT_TYPE := "Content-Type"
  const JSON_MIME := "application/json"
  const OCTET_STREAM := "application/octet-stream"

  // ---- URLs ----

  /** str.rstrip(c): `s` without the run of `c` at its end. */
  function RStrip(s: string, c: char): (r: string)
    ensures |r| <= |s| && r == s[..|r|]
    ensures r == [] || r[|r| - 1] != c
    ensures forall i :: |r| <= i < |s| ==> s[i] == c
  {
    if s != [] && s[|s| - 1] == c then RStrip(s[..|s| - 1], c) else s
  }

  /** Stripping twice strips nothing more, so a base URL given with or without its slashes yields one client. */
  lemma RStripIdempotent(s: string, c: char)
    ensures RStrip(RStrip(s, c), c) == RStrip(s, c)
  {
  }

  /** Any number of trailing slashes on the base URL lead to the same request URLs. */
  lemma {:induction false} RStripTrailingRun(s: string, c: char, n: nat)
    ensures RStrip(s + seq(n, _ => c), c) == RStrip(s, c)
    decreases n
  {
    if n > 0 {
      var t := s + seq(n, _ => c);
      assert t[..|t| - 1] == s + seq(n - 1, _ => c);
      RStripTrailingRun(s, c, n - 1);
    } else {
      assert s + seq(n, _ => c) == s;
    }
  }

  /** Where the last '/' of a path is, or -1 when it has none. */
  function LastSlash(p: string): (i: int)
    ensures -1 <= i < |p|
  {
    if p == [] then -1
    else if p[|p| - 1] == '/' then |p| - 1
    else LastSlash(p[..|p| - 1])
  }

  /** os.path.basename: the part of a path after its last '/'. */
  function Basename(p: string): string {
    p[LastSlash(p) + 1..]
  }

  /** LastSlash finds a '/', and none follows it. */
  lemma {:induction false} LastSlashIsLast(p: string)
    ensures LastSlash(p) >= 0 ==> p[LastSlash(p)] == '/'
    ensures forall j :: LastSlash(p) < j < |p| ==> p[j] != '/'
    decreases |p|
  {
    if p != [] && p[|p| - 1] != '/' {
      var init := p[..|p| - 1];
      LastSlashIsLast(init);
      assert forall j :: 0 <= j < |init| ==> init[j] == p[j];
    }
  }

  /** The base name is the longest end of the path without a '/': it holds none, and a '/' or nothing precedes it. */
  lemma BasenameIsLastComponent(p: string)
    ensures var r := Basename(p);
      && '/' !in r && |r| <= |p| && r == p[|p| - |r|..]
      && (|r| < |p| ==> p[|p| - |r| - 1] == '/')
  {
    LastSlashIsLast(p);
    var i := LastSlash(p);
    var r := Basename(p);
    assert |r| == |p| - i - 1;
    forall k | 0 <= k < |r|
      ensures r[k] != '/'
    {
      assert r[k] == p[i + 1 + k];
    }
  }

  // ---- headers ----

  /**
   * How `requests` merges the headers of a call into the session's: a header
   * of the call wins, one given as None is removed, and every other session
   * header is sent as it is.
   */
  function SentHeaders(session: map<string, string>, request: map<string, Option<string>>): map<string, string> {
    map k | k in session.Keys + request.Keys && (k in request ==> request[k].Some?)
      :: if k in request then request[k].value else session[k]
  }

  /** A call without headers of its own sends the session's headers. */
  lemma NoRequestHeadersSendsSession(session: map<string, string>)
    ensures SentHeaders(session, map[]) == session
  {
  }

  /**
   * The headers a multipart call passes as written: a copy of the session's
   * headers with Content-Type deleted.
   */
  function CopyWithoutContentType(session: map<string, string>): map<string, Option<string>> {
    map k | k in session && k != CONTENT_TYPE :: Some(session[k])
  }

  /**
   * Deleting Content-Type from a copy removes nothing: the merge puts the
   * session's JSON Content-Type back, so the multipart body goes out labelled
   * application/json and `requests` does not add its multipart boundary.
   */
  lemma ContentTypeSurvivesDeletion(session: map<string, string>)
    ensures SentHeaders(session, CopyWithoutContentType(session)) == session
  {
  }

  /** The headers a multipart call passes, corrected: Content-Type set to None, which the merge removes. */
  function MultipartHeaders(): map<string, Option<string>> {
    map[CONTENT_TYPE := None]
  }

  /** With the corrected headers, a multipart request carries every session header except Content-Type. */
  lemma MultipartDropsContentType(session: map<string, string>)
    ensures CONTENT_TYPE !in SentHeaders(session, MultipartHeaders())
    ensures SentHeaders(session, MultipartHeaders()) == session - {CONTENT_TYPE}
  {
  }

  // ---- query parameters ----

  /**
   * `p[newKey] = p.pop(oldKey)` when `oldKey` is a key: the value moves to `newKey`,
   * replacing what `newKey` held; otherwise nothing changes.
   */
  function Rename(p: map<string, string>, oldKey: string, newKey: string): (r: map<string, string>)
    requires oldKey != newKey
    ensures oldKey !in r
    ensures newKey in r <==> oldKey in p || newKey in p
    ensures newKey in r ==> r[newKey] == if oldKey in p then p[oldKey] else p[newKey]
    ensures forall k :: k != oldKey && k != newKey ==> (k in r <==> k in p)
    ensures forall k :: k in p && k != oldKey && k != newKey ==> r[k] == p[k]
  {
    if oldKey in p then (p - {oldKey})[newKey := p[oldKey]] else p
  }

  /** search_logs as written: from_date is sent as "from", to_date as "to". */
  function SearchParamsAsWritten(p: map<string, string>): map<string, string> {
    Rename(Rename(p, "from_date", "from"), "to_date", "to")
  }

  /** The aliases as written keep every other key and its value. */
  lemma SearchAliasesAsWritten(p: map<string, string>)
    ensures var r := SearchParamsAsWritten(p);
      && "from_date" !in r && "to_date" !in r
      && ("from_date" in p ==> r["from"] == p["from_date"])
      && ("to_date" in p ==> r["to"] == p["to_date"])
      && forall k :: k in p && k !in {"from_date", "to_date", "from", "to"} ==> k in r && r[k] == p[k]
  {
  }

  /**
   * The aliases corrected: from_date and to_date bound the creation time,
   * which the service reads from "start" and "end".
   */
  function SearchParams(p: map<string, string>): map<string, string> {
    Rename(Rename(p, "from_date", "start"), "to_date", "end")
  }

  /** The corrected aliases send the dates as start and end and keep every other key and its value. */
  lemma SearchAliases(p: map<string, string>)
    ensures var r := SearchParams(p);
      && "from_date" !in r && "to_date" !in r
      && ("from_date" in p ==> r["start"] == p["from_date"])
      && ("to_date" in p ==> r["end"] == p["to_date"])
      && forall k :: k in p && k !in {"from_date", "to_date", "start", "end"} ==> k in r && r[k] == p[k]
  {
  }

  /** A lone date sent as written arrives under "from". */
  lemma FromDateSentAsFrom(d: string)
    ensures SearchParamsAsWritten(map["from_date" := d]) == map["from" := d]
  {
  }

  /** A lone date sent with the corrected aliases arrives under "start". */
  lemma FromDateSentAsStart(d: string)
    ensures SearchParams(map["from_date" := d]) == map["start" := d]
  {
  }

  /**
   * On the server, "from" is the paging offset: a date there does not parse
   * as an integer, is ignored, and the search has no time range at all.
   */
  lemma FromDateIsPagingOffset(key: string, d: string, endClock: int, startClock: int, parseTime: string -> Option<int>)
    requires key == "from" && ParseInt(d).Err?
    ensures var r := SearchUtil.SearchSpec([(key, [d])], endClock, startClock, parseTime);
      r.Ok? && r.value.range.None? && r.value.from == 0
  {
    assert Strip(key) == key;
    assert Lower(key) == key;
    var acc := SearchUtil.InitialAccumulators(endClock);
    assert SearchUtil.LargestValue([d], 0) == Ok(0);
    var step := SearchUtil.ApplyParameter(acc, key, [d], startClock, parseTime);
    assert step == Ok(acc);
    var params := [(key, [d])];
    assert params[1..] == [] && params[0..] == params;
    SearchUtil.ApplyAllStep(acc, params, 0, startClock, parseTime, step, Ok(acc));
  }

  /** The server's "start" rule on one date that parses: the search becomes temporal, starting at the earlier of the date and the clock read `now`. */
  lemma StartStep(acc: SearchUtil.Accumulators, key: string, d: string, t: int, now: int, parseTime: string -> Option<int>)
    requires key == "start" && parseTime(d) == Some(t)
    ensures SearchUtil.ApplyParameter(acc, key, [d], now, parseTime)
         == Ok(acc.(temporal := true, start := SearchUtil.Earliest(now, [t])))
  {
    assert [d][1..] == [] && [t] + [] == [t];
    assert SearchUtil.ParseTimes([d], parseTime) == Ok([t]);
    assert Strip(key) == key;
    assert Lower(key) == key;
  }

  /**
   * On the server, "start" bounds the creation time. With no "end", the end
   * is the clock read `endClock` taken before the scan, and the start is the
   * earlier of the date and the later read `startClock`. The search is
   * refused with 400 exactly when that start falls after `endClock`, which
   * happens for a date in the future once the clock has moved between the
   * two reads.
   */
  lemma StartDateBoundsSearch(key: string, d: string, t: int, endClock: int, startClock: int,
                              parseTime: string -> Option<int>)
    requires key == "start" && parseTime(d) == Some(t)
    ensures var r := SearchUtil.SearchSpec([(key, [d])], endClock, startClock, parseTime);
      var start := if t < startClock then t else startClock;
      (r.Ok? <==> start <= endClock)
      && (r.Err? ==> r.error == BadRequest)
      && (r.Ok? ==> r.value.range.Some? && r.value.from == 0
                    && r.value.range.value.fromMillis == SearchUtil.WholeSeconds(start)
                    && r.value.range.value.toMillis == SearchUtil.WholeSeconds(endClock))
  {
    var acc := SearchUtil.InitialAccumulators(endClock);
    StartStep(acc, key, d, t, startClock, parseTime);
    var start := SearchUtil.Earliest(startClock, [t]);
    assert start == if t < startClock then t else startClock;
    var next := acc.(temporal := true, start := start);
    var params := [(key, [d])];
    assert params[1..] == [] && params[0..] == params;
    SearchUtil.ApplyAllStep(acc, params, 0, startClock, parseTime, Ok(next), Ok(next));
    assert SearchUtil.SearchSpec(params, endClock, startClock, parseTime) == SearchUtil.Finish(next);
  }

  /** A date in the future with no end is refused once the clock has moved between the server's two reads. */
  lemma FutureStartRefused(key: string, d: string, t: int, endClock: int, startClock: int,
                           parseTime: string -> Option<int>)
    requires key == "start" && parseTime(d) == Some(t)
    requires endClock < startClock && endClock < t
    ensures SearchUtil.SearchSpec([(key, [d])], endClock, startClock, parseTime) == Err(BadRequest)
  {
    StartDateBoundsSearch(key, d, t, endClock, startClock, parseTime);
  }

  /** create_log's query parameters: markup when it is a non-empty string, inReplyTo when it is not "-1". */
  function CreateLogParams(markup: Option<string>, inReplyTo: string): (p: map<string, string>)
    ensures p.Keys <= {"markup", "inReplyTo"}
    ensures "markup" in p <==> markup.Some? && markup.value != []
    ensures "markup" in p ==> p["markup"] == markup.value
    ensures "inReplyTo" in p <==> inReplyTo != "-1"
    ensures "inReplyTo" in p ==> p["inReplyTo"] == inReplyTo
  {
    var withMarkup := if markup.Some? && markup.value != [] then map["markup" := markup.value] else map[];
    if inReplyTo != "-1" then withMarkup["inReplyTo" := inReplyTo] else withMarkup
  }

  /** get_help's query parameters: the language only when it is not English. */
  function HelpParams(language: string): (p: map<string, string>)
    ensures p.Keys <= {"lang"}
    ensures "lang" in p <==> language != "en"
    ensures "lang" in p ==> p["lang"] == language
  {
    if language != "en" then map["lang" := language] else map[]
  }

  // ---- request bodies ----

  function OptionalText(s: Option<string>): Json {
    if s.Some? then JStr(s.value) else JNull
  }

  /** `[{"name": n} for n in names]`. */
  function NameObjects(names: seq<string>): (r: Json)
    ensures r.JList? && |r.items| == |names|
    ensures forall i :: 0 <= i < |names| ==> r.items[i] == JObject(map["name" := JStr(names[i])])
  {
    JList(seq(|names|, i requires 0 <= i < |names| => JObject(map["name" := JStr(names[i])])))
  }

  /** The log entry create_log sends; missing tags and properties are sent as empty lists. */
  function LogData(title: string, logbooks: seq<string>, description: string, level: Option<string>,
                   tags: Option<seq<string>>, properties: Option<seq<Json>>): (r: Json)
    ensures r.JObject? && r.fields.Keys == {"title", "description", "logbooks", "level", "tags", "properties"}
    ensures r.fields["logbooks"] == NameObjects(logbooks)
    ensures r.fields["tags"] == NameObjects(if tags.Some? then tags.value else [])
    ensures r.fields["level"].JNull? <==> level.None?
  {
    JObject(map["title" := JStr(title), "description" := JStr(description),
                "logbooks" := NameObjects(logbooks), "level" := OptionalText(level),
                "tags" := NameObjects(if tags.Some? then tags.value else []),
                "properties" := JList(if properties.Some? then properties.value else [])])
  }

  /** Some field is given to update_log. */
  predicate AnyGiven(title: Option<string>, description: Option<string>, level: Option<string>,
                     tags: Option<seq<string>>, properties: Option<seq<Json>>) {
    title.Some? || description.Some? || level.Some? || tags.Some? || properties.Some?
  }

  /** `m`, with `k` set to the value of `v` when there is one. */
  function SetIf(m: map<string, Json>, k: string, v: Option<Json>): map<string, Json> {
    if v.Some? then m[k := v.value] else m
  }

  function JsonText(s: Option<string>): Option<Json> {
    if s.Some? then Some(JStr(s.value)) else None
  }

  /** The fields update_log overwrites, in the order it sets them. */
  function Overrides(title: Option<string>, description: Option<string>, level: Option<string>,
                     tags: Option<seq<string>>, properties: Option<seq<Json>>): map<string, Json>
  {
    var a := SetIf(map[], "title", JsonText(title));
    var b := SetIf(a, "description", JsonText(description));
    var c := SetIf(b, "level", JsonText(level));
    var d := SetIf(c, "tags", if tags.Some? then Some(NameObjects(tags.value)) else None);
    SetIf(d, "properties", if properties.Some? then Some(JList(properties.value)) else None)
  }

  /** Exactly the fields given are overwritten, each with its argument; tags become name objects. */
  lemma OverridesSetGivenFields(title: Option<string>, description: Option<string>, level: Option<string>,
                                tags: Option<seq<string>>, properties: Option<seq<Json>>)
    ensures var o := Overrides(title, description, level, tags, properties);
      && o.Keys <= {"title", "description", "level", "tags", "properties"}
      && ("title" in o <==> title.Some?) && ("description" in o <==> description.Some?)
      && ("level" in o <==> level.Some?) && ("tags" in o <==> tags.Some?)
      && ("properties" in o <==> properties.Some?)
      && (title.Some? ==> o["title"] == JStr(title.value))
      && (description.Some? ==> o["description"] == JStr(description.value))
      && (level.Some? ==> o["level"] == JStr(level.value))
      && (tags.Some? ==> o["tags"] == NameObjects(tags.value))
      && (properties.Some? ==> o["properties"] == JList(properties.value))
  {
  }

  /** update_log's merge: the entry as read, each field given overwritten. */
  function UpdatedFields(current: map<string, Json>, title: Option<string>, description: Option<string>,
                         level: Option<string>, tags: Option<seq<string>>, properties: Option<seq<Json>>)
    : map<string, Json>
  {
    current + Overrides(title, description, level, tags, properties)
  }

  /**
   * The merged entry has the fields read and the fields given; a field not
   * given keeps the value read, and a field given takes the new value.
   */
  lemma UpdateKeepsUnsetFields(current: map<string, Json>, title: Option<string>, description: Option<string>,
                               level: Option<string>, tags: Option<seq<string>>, properties: Option<seq<Json>>)
    ensures var r := UpdatedFields(current, title, description, level, tags, properties);
      var given := Overrides(title, description, level, tags, properties);
      && r.Keys == current.Keys + given.Keys
      && (forall k :: k in current && k !in given ==> r[k] == current[k])
      && (forall k :: k in given ==> r[k] == given[k])
  {
  }

  /** Setting a field after a merge is merging the field in with the rest. */
  lemma UnionThenSet(m: map<string, Json>, given: map<string, Json>, k: string, v: Json)
    ensures (m + given)[k := v] == m + given[k := v]
  {
  }

  /** update_log's assignments to the entry read: each field given is set in turn. */
  method MergeFields(current: map<string, Json>, title: Option<string>, description: Option<string>,
                     level: Option<string>, tags: Option<seq<string>>, properties: Option<seq<Json>>)
    returns (fields: map<string, Json>)
    ensures fields == UpdatedFields(current, title, description, level, tags, properties)
  {
    fields := current;
    ghost var given: map<string, Json> := map[];
    assert fields == current + given;
    if title.Some? {
      UnionThenSet(current, given, "title", JStr(title.value));
      fields := fields["title" := JStr(title.value)];
    }
    given := SetIf(given, "title", JsonText(title));
    if description.Some? {
      UnionThenSet(current, given, "description", JStr(description.value));
      fields := fields["description" := JStr(description.value)];
    }
    given := SetIf(given, "description", JsonText(description));
    if level.Some? {
      UnionThenSet(current, given, "level", JStr(level.value));
      fields := fields["level" := JStr(level.value)];
    }
    given := SetIf(given, "level", JsonText(level));
    if tags.Some? {
      UnionThenSet(current, given, "tags", NameObjects(tags.value));
      fields := fields["tags" := NameObjects(tags.value)];
    }
    given := SetIf(given, "tags", if tags.Some? then Some(NameObjects(tags.value)) else None);
    if properties.Some? {
      UnionThenSet(current, given, "properties", JList(properties.value));
      fields := fields["properties" := JList(properties.value)];
    }
    given := SetIf(given, "properties", if properties.Some? then Some(JList(properties.value)) else None);
    assert given == Overrides(title, description, level, tags, properties);
  }

  /** An update with no field given posts the entry exactly as it was read. */
  lemma UpdateWithNothingKeepsEntry(current: map<string, Json>)
    ensures UpdatedFields(current, None, None, None, None, None) == current
  {
  }

  /** Repeating an update changes nothing more. */
  lemma UpdateIdempotent(current: map<string, Json>, title: Option<string>, description: Option<string>,
                         level: Option<string>, tags: Option<seq<string>>, properties: Option<seq<Json>>)
    ensures var once := UpdatedFields(current, title, description, level, tags, properties);
      UpdatedFields(once, title, description, level, tags, properties) == once
  {
  }

  // ---- files ----

  /** `mimetypes.guess_type(path)[0] or 'application/octet-stream'`. */
  function MimeType(path: string, guess: string -> Option<string>): (m: string)
    ensures m != []
    ensures guess(path).None? ==> m == OCTET_STREAM
    ensures guess(path).Some? && guess(path).value != [] ==> m == guess(path).value
  {
    if guess(path).Some? && guess(path).value != [] then guess(path).value else OCTET_STREAM
  }

  /** The part of one file: the form field, the file's base name, its contents and its MIME type. */
  function FilePart(field: string, path: string, guess: string -> Option<string>): Part {
    Part(field, Some(Basename(path)), FileAt(path), Some(MimeType(path, guess)))
  }

  /** The file loop of the multipart calls: a part per path that exists, in order; the others are skipped. */
  function CollectFiles(paths: seq<string>, field: string, pathExists: string -> bool, guess: string -> Option<string>)
    : (parts: seq<Part>)
    ensures |parts| <= |paths|
    ensures forall k :: 0 <= k < |parts| ==>
      parts[k].body.FileAt? && parts[k].body.path in paths && pathExists(parts[k].body.path)
      && parts[k] == FilePart(field, parts[k].body.path, guess)
    decreases |paths|
  {
    if paths == [] then []
    else
      var init := paths[..|paths| - 1];
      var last := paths[|paths| - 1];
      var rest := CollectFiles(init, field, pathExists, guess);
      assert forall x :: x in init ==> x in paths;
      rest + if pathExists(last) then [FilePart(field, last, guess)] else []
  }

  /** The parts of two runs of paths are the parts of the first run, then those of the second. */
  lemma {:induction false} CollectFilesConcat(a: seq<string>, b: seq<string>, field: string,
                                              pathExists: string -> bool, guess: string -> Option<string>)
    ensures CollectFiles(a + b, field, pathExists, guess) == CollectFiles(a, field, pathExists, guess) + CollectFiles(b, field, pathExists, guess)
    decreases |b|
  {
    if b == [] {
      assert a + b == a;
    } else {
      var b' := b[..|b| - 1];
      assert (a + b)[..|a + b| - 1] == a + b';
      assert (a + b)[|a + b| - 1] == b[|b| - 1];
      CollectFilesConcat(a, b', field, pathExists, guess);
    }
  }

  /** Every path that exists is uploaded. */
  lemma {:induction false} CollectFilesKeepsExisting(paths: seq<string>, field: string,
                                                     pathExists: string -> bool, guess: string -> Option<string>, j: nat)
    requires j < |paths| && pathExists(paths[j])
    ensures FilePart(field, paths[j], guess) in CollectFiles(paths, field, pathExists, guess)
    decreases |paths|
  {
    if j < |paths| - 1 {
      assert paths[..|paths| - 1][j] == paths[j];
      CollectFilesKeepsExisting(paths[..|paths| - 1], field, pathExists, guess, j);
    }
  }

  /** When every path exists, one part per path, in the order given. */
  lemma {:induction false} CollectFilesAllExist(paths: seq<string>, field: string,
                                                pathExists: string -> bool, guess: string -> Option<string>)
    requires forall j :: 0 <= j < |paths| ==> pathExists(paths[j])
    ensures var parts := CollectFiles(paths, field, pathExists, guess);
      |parts| == |paths| && forall k :: 0 <= k < |paths| ==> parts[k] == FilePart(field, paths[k], guess)
    decreases |paths|
  {
    if paths != [] {
      var init := paths[..|paths| - 1];
      var last := paths[|paths| - 1];
      assert forall j :: 0 <= j < |init| ==> pathExists(init[j]);
      CollectFilesAllExist(init, field, pathExists, guess);
      var rest := CollectFiles(init, field, pathExists, guess);
      var parts := CollectFiles(paths, field, pathExists, guess);
      assert parts == rest + [FilePart(field, last, guess)];
      forall k | 0 <= k < |paths|
        ensures parts[k] == FilePart(field, paths[k], guess)
      {
        if k < |init| {
          assert parts[k] == rest[k] && init[k] == paths[k];
        }
      }
    }
  }

  /** When no path exists, nothing is uploaded. */
  lemma {:induction false} CollectFilesNoneExist(paths: seq<string>, field: string,
                                                 pathExists: string -> bool, guess: string -> Option<string>)
    requires forall j :: 0 <= j < |paths| ==> !pathExists(paths[j])
    ensures CollectFiles(paths, field, pathExists, guess) == []
    decreases |paths|
  {
    if paths != [] {
      var init := paths[..|paths| - 1];
      assert forall j :: 0 <= j < |init| ==> init[j] == paths[j];
      CollectFilesNoneExist(init, field, pathExists, guess);
    }
  }

  /** The loop that collects the files of a multipart call. */
  method GatherFiles(paths: seq<string>, field: string, pathExists: string -> bool, guess: string -> Option<string>)
    returns (files: seq<Part>)
    ensures files == CollectFiles(paths, field, pathExists, guess)
  {
    files := [];
    var i := 0;
    while i < |paths|
      invariant 0 <= i <= |paths|
      invariant files == CollectFiles(paths[..i], field, pathExists, guess)
    {
      var path := paths[i];
      assert paths[..i + 1][..i] == paths[..i];
      if pathExists(path) {
        files := files + [FilePart(field, path, guess)];
      }
      i := i + 1;
    }
    assert paths[..i] == paths;
  }

  // ---- multipart bodies as Python dicts ----

  /** Where a dict of parts holds `field`, or -1. */
  function FieldIndex(d: seq<Part>, field: string): (i: int)
    ensures -1 <= i < |d|
    ensures i == -1 <==> forall k :: 0 <= k < |d| ==> d[k].field != field
    ensures i >= 0 ==> d[i].field == field
  {
    if d == [] then -1
    else if d[|d| - 1].field == field then |d| - 1
    else FieldIndex(d[..|d| - 1], field)
  }

  /** `d[p.field] = p` on a dict kept in insertion order: a known key keeps its place and takes the new value. */
  function Assign(d: seq<Part>, p: Part): (r: seq<Part>)
    ensures FieldIndex(d, p.field) == -1 ==> r == d + [p]
    ensures FieldIndex(d, p.field) >= 0 ==> r == d[FieldIndex(d, p.field) := p]
  {
    var i := FieldIndex(d, p.field);
    if i == -1 then d + [p] else d[i := p]
  }

  /** `d.update(parts)`, and `dict(parts)` when `d` is empty: each part assigned in turn. */
  function DictUpdate(d: seq<Part>, parts: seq<Part>): seq<Part>
    decreases |parts|
  {
    if parts == [] then d else DictUpdate(Assign(d, parts[0]), parts[1..])
  }

  /** Assigning parts of one field to a dict holding only that field keeps just the last of them. */
  lemma {:induction false} SameFieldKeepsLast(d: Part, parts: seq<Part>)
    requires forall k :: 0 <= k < |parts| ==> parts[k].field == d.field
    ensures DictUpdate([d], parts) == [if parts == [] then d else parts[|parts| - 1]]
    decreases |parts|
  {
    if parts != [] {
      assert Assign([d], parts[0]) == [parts[0]];
      SameFieldKeepsLast(parts[0], parts[1..]);
    }
  }

  /** create_log_with_files' body as written: the entry, updated with `dict(files)`. */
  function MultipartAsWritten(entry: Part, files: seq<Part>): seq<Part> {
    DictUpdate([entry], DictUpdate([], files))
  }

  /**
   * All the files share the field "files", so `dict(files)` keeps only the
   * last: the body holds the entry and the last existing file, whatever the
   * number of files.
   */
  lemma OnlyLastFileSent(entry: Part, files: seq<Part>)
    requires entry.field == "logEntry" && files != []
    requires forall k :: 0 <= k < |files| ==> files[k].field == "files"
    ensures MultipartAsWritten(entry, files) == [entry, files[|files| - 1]]
  {
    var last := files[|files| - 1];
    assert Assign([], files[0]) == [files[0]];
    assert DictUpdate([], files) == DictUpdate([files[0]], files[1..]);
    SameFieldKeepsLast(files[0], files[1..]);
    assert DictUpdate([], files) == [last];
    assert entry.field != last.field;
    assert Assign([entry], last) == [entry, last];
    assert [last][0] == last && [last][1..] == [];
    assert DictUpdate([entry], [last]) == DictUpdate([entry, last], []);
  }

  /** Two different existing files: the first is never sent. */
  lemma FirstOfTwoFilesDropped(entry: Part, paths: seq<string>, pathExists: string -> bool, guess: string -> Option<string>)
    requires entry.field == "logEntry" && |paths| == 2 && paths[0] != paths[1]
    requires pathExists(paths[0]) && pathExists(paths[1])
    ensures var files := CollectFiles(paths, "files", pathExists, guess);
      FilePart("files", paths[0], guess) in files
      && FilePart("files", paths[0], guess) !in MultipartAsWritten(entry, files)
  {
    var files := CollectFiles(paths, "files", pathExists, guess);
    CollectFilesAllExist(paths, "files", pathExists, guess);
    var first := FilePart("files", paths[0], guess);
    var second := FilePart("files", paths[1], guess);
    assert files == [first, second];
    OnlyLastFileSent(entry, files);
    assert MultipartAsWritten(entry, files) == [entry, second];
    assert first.field != entry.field && first.body != second.body;
  }

  /** create_log_with_files' body, corrected: the entry, then every file as its own part. */
  function MultipartBody(entry: Part, files: seq<Part>): (r: seq<Part>)
    ensures |r| == |files| + 1 && r[0] == entry && r[1..] == files
  {
    [entry] + files
  }

  /** With the corrected body, every existing path is uploaded with the entry. */
  lemma EveryExistingFileSent(entry: Part, paths: seq<string>, pathExists: string -> bool, guess: string -> Option<string>, j: nat)
    requires j < |paths| && pathExists(paths[j])
    ensures FilePart("files", paths[j], guess) in MultipartBody(entry, CollectFiles(paths, "files", pathExists, guess))
  {
    CollectFilesKeepsExisting(paths, "files", pathExists, guess, j);
  }

  /** The log entry part: no file name, the JSON document, application/json. */
  function EntryPart(doc: Json): Part {
    Part("logEntry", None, JsonDoc(doc), Some(JSON_MIME))
  }

  // ---- responses ----

  /** `raise_for_status` and the wrapping of request errors: no answer or a 4xx/5xx status fails. */
  function Checked(reply: Option<Response>): (r: Result<Response>)
    ensures r.Ok? <==> reply.Some? && !(400 <= reply.value.status < 600)
    ensures r.Ok? ==> r.value == reply.value
    ensures r.Err? ==> r.error == RequestFailed
  {
    if reply.None? || 400 <= reply.value.status < 600 then Err(RequestFailed) else Ok(reply.value)
  }

  /** `response.json() if response.content else None`, after the check. */
  function JsonOf(reply: Option<Response>): (r: Result<Option<Json>>)
    ensures r.Err? <==> Checked(reply).Err?
    ensures r.Ok? ==> r.value == reply.value.body
  {
    match Checked(reply)
    case Err(e) => Err(e)
    case Ok(response) => Ok(response.body)
  }

  /** _delete: true exactly for status 200; any other success status, such as 204, is false. */
  function DeleteResult(reply: Option<Response>): (r: Result<bool>)
    ensures r.Err? <==> Checked(reply).Err?
    ensures r == Ok(true) <==> reply.Some? && reply.value.status == 200
  {
    match Checked(reply)
    case Err(e) => Err(e)
    case Ok(response) => Ok(response.status == 200)
  }

  /** upload_attachment's file part: the base name, sent as application/octet-stream whatever the file. */
  function AttachmentPart(path: string): Part {
    Part("file", Some(Basename(path)), FileAt(path), Some(OCTET_STREAM))
  }

  /** upload_attachment's form data on the first attempt: the file name and the description. */
  function AttachmentData(path: string, description: string): map<string, string> {
    map["filename" := Basename(path), "fileMetadataDescription" := description]
  }

  /** upload_attachment's parts on the second attempt: the file, then its name and description as plain parts. */
  function AttachmentParts(path: string, description: string): seq<Part> {
    [AttachmentPart(path), Part("filename", None, Text(Basename(path)), None),
     Part("fileMetadataDescription", None, Text(description), None)]
  }

  /**
   * The entry update_log posts: the entry read when no field is given;
   * otherwise the merge, which raises TypeError unless the entry read is a
   * JSON object.
   */
  function UpdatedEntry(current: Option<Json>, title: Option<string>, description: Option<string>,
                        level: Option<string>, tags: Option<seq<string>>, properties: Option<seq<Json>>)
    : Result<Option<Json>>
  {
    if !AnyGiven(title, description, level, tags, properties) then Ok(current)
    else if current.Some? && current.value.JObject? then
      Ok(Some(JObject(UpdatedFields(current.value.fields, title, description, level, tags, properties))))
    else Err(TypeError)
  }

  class Client {
    /** The service's URL, without trailing slashes. */
    var baseUrl: string
    /** The session's headers. */
    var headers: map<string, string>
    /** The session's Basic credentials. */
    var auth: Option<(string, string)>
    /** The requests sent through the session, oldest first. */
    var sent: seq<Request>

    /** The client's settings; requests change only `sent`. */
    function Settings(): (string, map<string, string>, Option<(string, string)>)
      reads this
    {
      (baseUrl, headers, auth)
    }

    /** A request with the session's headers, to the endpoint under the base URL. */
    function Plain(verb: HttpMethod, endpoint: string, params: map<string, string>, json: Option<Json>): Request
      reads this
    {
      Request(verb, baseUrl + endpoint, params, headers, json, map[], [])
    }

    /**
     * A multipart request as sent: the copy without Content-Type merges back
     * into the session's headers, so they all go out, the JSON Content-Type
     * among them.
     */
    function Multipart(verb: HttpMethod, endpoint: string, params: map<string, string>,
                       data: map<string, string>, files: seq<Part>): (r: Request)
      reads this
      ensures CONTENT_TYPE in headers ==> CONTENT_TYPE in r.headers && r.headers[CONTENT_TYPE] == headers[CONTENT_TYPE]
    {
      ContentTypeSurvivesDeletion(headers);
      Request(verb, baseUrl + endpoint, params, SentHeaders(headers, CopyWithoutContentType(headers)), None, data, files)
    }

    /**
     * A client of the service at `url`; the session starts with `defaults`
     * and gains the JSON Content-Type and the client-info header.
     */
    constructor (url: string, clientInfo: string, defaults: map<string, string>)
      ensures baseUrl == RStrip(url, '/')
      ensures headers == defaults[CONTENT_TYPE := JSON_MIME]["X-Olog-Client-Info" := clientInfo]
      ensures auth == None && sent == []
    {
      baseUrl := RStrip(url, '/');
      headers := defaults[CONTENT_TYPE := JSON_MIME]["X-Olog-Client-Info" := clientInfo];
      auth := None;
      sent := [];
    }

    /** set_auth. */
    method SetAuth(username: string, password: string)
      modifies this
      ensures auth == Some((username, password))
      ensures baseUrl == old(baseUrl) && headers == old(headers) && sent == old(sent)
    {
      auth := Some((username, password));
    }

    /**
     * _make_request: the URL is the base URL followed by the endpoint, the
     * request's headers are merged into the session's, and the answer is checked.
     */
    method MakeRequest(verb: HttpMethod, endpoint: string, params: map<string, string>,
                       requestHeaders: map<string, Option<string>>, json: Option<Json>,
                       data: map<string, string>, files: seq<Part>, reply: Option<Response>)
      returns (r: Result<Response>)
      modifies this
      ensures Settings() == old(Settings())
      ensures sent == old(sent) + [Request(verb, baseUrl + endpoint, params,
                                           SentHeaders(headers, requestHeaders), json, data, files)]
      ensures r == Checked(reply)
    {
      var url := baseUrl + endpoint;
      sent := sent + [Request(verb, url, params, SentHeaders(headers, requestHeaders), json, data, files)];
      if reply.None? {
        return Err(RequestFailed);
      }
      var response := reply.value;
      if 400 <= response.status < 600 {
        return Err(RequestFailed);
      }
      r := Ok(response);
    }

    /** A request without headers, data or files of its own. */
    method PlainRequest(verb: HttpMethod, endpoint: string, params: map<string, string>, json: Option<Json>,
                        reply: Option<Response>)
      returns (r: Result<Response>)
      modifies this
      ensures Settings() == old(Settings())
      ensures sent == old(sent) + [Plain(verb, endpoint, params, json)]
      ensures r == Checked(reply)
    {
      NoRequestHeadersSendsSession(headers);
      r := MakeRequest(verb, endpoint, params, map[], json, map[], [], reply);
    }

    /** A multipart request, its headers passed as written: the session's, copied without Content-Type. */
    method MultipartRequest(verb: HttpMethod, endpoint: string, params: map<string, string>,
                            data: map<string, string>, files: seq<Part>, reply: Option<Response>)
      returns (r: Result<Response>)
      modifies this
      ensures Settings() == old(Settings())
      ensures sent == old(sent) + [Multipart(verb, endpoint, params, data, files)]
      ensures r == Checked(reply)
    {
      r := MakeRequest(verb, endpoint, params, CopyWithoutContentType(headers), None, data, files, reply);
    }

    /** _delete. */
    method Delete(endpoint: string, reply: Option<Response>) returns (r: Result<bool>)
      modifies this
      ensures Settings() == old(Settings())
      ensures sent == old(sent) + [Plain(DELETE, endpoint, map[], None)]
      ensures r == DeleteResult(reply)
    {
      var response := PlainRequest(DELETE, endpoint, map[], None, reply);
      if response.Err? {
        return Err(response.error);
      }
      r := Ok(response.value.status == 200);
    }

    /** search_logs: a GET of the search, from_date and to_date renamed to "from" and "to". */
    method SearchLogs(searchParams: map<string, string>, reply: Option<Response>) returns (r: Result<Option<Json>>)
      modifies this
      ensures Settings() == old(Settings())
      ensures sent == old(sent) + [Plain(GET, "/Olog/logs/search", SearchParamsAsWritten(searchParams), None)]
      ensures r == JsonOf(reply)
    {
      var params := searchParams;
      if "from_date" in params {
        var date := params["from_date"];
        params := params - {"from_date"};
        params := params["from" := date];
      }
      if "to_date" in params {
        var date := params["to_date"];
        params := params - {"to_date"};
        params := params["to" := date];
      }
      var response := PlainRequest(GET, "/Olog/logs/search", params, None, reply);
      r := if response.Err? then Err(response.error) else Ok(response.value.body);
    }

    /** create_log: a PUT of the entry, with markup and inReplyTo as query parameters when set. */
    method CreateLog(title: string, logbooks: seq<string>, description: string, level: Option<string>,
                     tags: Option<seq<string>>, properties: Option<seq<Json>>, markup: Option<string>,
                     inReplyTo: string, reply: Option<Response>)
      returns (r: Result<Option<Json>>)
      modifies this
      ensures Settings() == old(Settings())
      ensures sent == old(sent) + [Plain(PUT, "/Olog/logs", CreateLogParams(markup, inReplyTo),
                                         Some(LogData(title, logbooks, description, level, tags, properties)))]
      ensures r == JsonOf(reply)
    {
      var logData := LogData(title, logbooks, description, level, tags, properties);
      var params: map<string, string> := map[];
      if markup.Some? && markup.value != [] {
        params := params["markup" := markup.value];
      }
      if inReplyTo != "-1" {
        params := params["inReplyTo" := inReplyTo];
      }
      var response := PlainRequest(PUT, "/Olog/logs", params, Some(logData), reply);
      r := if response.Err? then Err(response.error) else Ok(response.value.body);
    }

    /**
     * create_log_with_files: a multipart PUT of the entry updated with
     * `dict(files)`, so at most the last existing file goes out, and the
     * session's JSON Content-Type with it.
     */
    method CreateLogWithFiles(title: string, logbooks: seq<string>, filePaths: seq<string>, description: string,
                              level: Option<string>, tags: Option<seq<string>>, properties: Option<seq<Json>>,
                              markup: Option<string>, inReplyTo: string,
                              pathExists: string -> bool, guess: string -> Option<string>, reply: Option<Response>)
      returns (r: Result<Option<Json>>)
      modifies this
      ensures Settings() == old(Settings())
      ensures sent == old(sent) + [Multipart(PUT, "/Olog/logs/multipart", CreateLogParams(markup, inReplyTo), map[],
                                             MultipartAsWritten(EntryPart(LogData(title, logbooks, description, level, tags, properties)),
                                                                CollectFiles(filePaths, "files", pathExists, guess)))]
      ensures r == JsonOf(reply)
    {
      var logData := LogData(title, logbooks, description, level, tags, properties);
      var files := GatherFiles(filePaths, "files", pathExists, guess);
      var params := CreateLogParams(markup, inReplyTo);
      var response := MultipartRequest(PUT, "/Olog/logs/multipart", params, map[],
                                       MultipartAsWritten(EntryPart(logData), files), reply);
      r := if response.Err? then Err(response.error) else Ok(response.value.body);
    }

    /**
     * update_log: reads the entry, overwrites the fields given, and posts the
     * whole entry back, markup as a query parameter when set. Setting a field
     * of an answer that is not a JSON object (none at all, a list, ...)
     * raises TypeError after the read.
     */
    method UpdateLog(logId: string, title: Option<string>, description: Option<string>, level: Option<string>,
                     tags: Option<seq<string>>, properties: Option<seq<Json>>, markup: Option<string>,
                     readReply: Option<Response>, postReply: Option<Response>)
      returns (r: Result<Option<Json>>)
      modifies this
      ensures Settings() == old(Settings())
      ensures Checked(readReply).Err? ==>
        r == Err(RequestFailed) && sent == old(sent) + [Plain(GET, "/Olog/logs/" + logId, map[], None)]
      ensures Checked(readReply).Ok? && UpdatedEntry(readReply.value.body, title, description, level, tags, properties).Err? ==>
        r == Err(TypeError) && sent == old(sent) + [Plain(GET, "/Olog/logs/" + logId, map[], None)]
      ensures Checked(readReply).Ok? && UpdatedEntry(readReply.value.body, title, description, level, tags, properties).Ok? ==>
        && r == JsonOf(postReply)
        && sent == old(sent) + [Plain(GET, "/Olog/logs/" + logId, map[], None),
                                Plain(POST, "/Olog/logs/" + logId, CreateLogParams(markup, "-1"),
                                      UpdatedEntry(readReply.value.body, title, description, level, tags, properties).value)]
    {
      var endpoint := "/Olog/logs/" + logId;
      var read := PlainRequest(GET, endpoint, map[], None, readReply);
      if read.Err? {
        return Err(read.error);
      }
      var current := read.value.body;
      var anyGiven := AnyGiven(title, description, level, tags, properties);
      if anyGiven && !(current.Some? && current.value.JObject?) {
        return Err(TypeError);
      }
      var entry := current;
      if anyGiven {
        var fields := MergeFields(current.value.fields, title, description, level, tags, properties);
        entry := Some(JObject(fields));
      }
      var params: map<string, string> := map[];
      if markup.Some? && markup.value != [] {
        params := params["markup" := markup.value];
      }
      var posted := PlainRequest(POST, endpoint, params, entry, postReply);
      r := if posted.Err? then Err(posted.error) else Ok(posted.value.body);
    }

    /**
     * upload_attachment: a missing file raises FileNotFoundError before any
     * request. Otherwise one multipart POST with the file and its name and
     * description as form data; if it fails, a second POST sending all
     * three as parts.
     */
    method UploadAttachment(logId: string, path: string, description: string, pathExists: string -> bool,
                            first: Option<Response>, second: Option<Response>)
      returns (r: Result<Option<Json>>)
      modifies this
      ensures Settings() == old(Settings())
      ensures !pathExists(path) ==> r == Err(FileNotFound) && sent == old(sent)
      ensures pathExists(path) && Checked(first).Ok? ==>
        && r == JsonOf(first)
        && sent == old(sent) + [Multipart(POST, "/Olog/logs/attachments/" + logId, map[],
                                          AttachmentData(path, description), [AttachmentPart(path)])]
      ensures pathExists(path) && Checked(first).Err? ==>
        && r == JsonOf(second)
        && sent == old(sent) + [Multipart(POST, "/Olog/logs/attachments/" + logId, map[],
                                          AttachmentData(path, description), [AttachmentPart(path)]),
                                Multipart(POST, "/Olog/logs/attachments/" + logId, map[], map[],
                                          AttachmentParts(path, description))]
    {
      if !pathExists(path) {
        return Err(FileNotFound);
      }
      var endpoint := "/Olog/logs/attachments/" + logId;
      var response := MultipartRequest(POST, endpoint, map[], AttachmentData(path, description),
                                       [AttachmentPart(path)], first);
      if response.Ok? {
        return Ok(response.value.body);
      }
      response := MultipartRequest(POST, endpoint, map[], map[], AttachmentParts(path, description), second);
      r := if response.Err? then Err(response.error) else Ok(response.value.body);
    }

    /** upload_multiple_attachments: one multipart POST with a "file" part per existing path. */
    method UploadMultipleAttachments(logId: string, filePaths: seq<string>, pathExists: string -> bool,
                                     guess: string -> Option<string>, reply: Option<Response>)
      returns (r: Result<Option<Json>>)
      modifies this
      ensures Settings() == old(Settings())
      ensures sent == old(sent) + [Multipart(POST, "/Olog/logs/attachments-multi/" + logId, map[], map[],
                                             CollectFiles(filePaths, "file", pathExists, guess))]
      ensures r == JsonOf(reply)
    {
      var files := GatherFiles(filePaths, "file", pathExists, guess);
      var response := MultipartRequest(POST, "/Olog/logs/attachments-multi/" + logId, map[], map[], files, reply);
      r := if response.Err? then Err(response.error) else Ok(response.value.body);
    }

    /** get_help: a GET of the topic, in the language asked for unless it is English; the answer as text. */
    method GetHelp(topic: string, language: string, reply: Option<Response>) returns (r: Result<string>)
      modifies this
      ensures Settings() == old(Settings())
      ensures sent == old(sent) + [Plain(GET, "/Olog/help/" + topic, HelpParams(language), None)]
      ensures r.Err? <==> Checked(reply).Err?
      ensures r.Ok? ==> r.value == reply.value.text
    {
      var params: map<string, string> := if language != "en" then map["lang" := language] else map[];
      var response := PlainRequest(GET, "/Olog/help/" + topic, params, None, reply);
      r := if response.Err? then Err(response.error) else Ok(response.value.text);
    }
  }
}
