/**
 * The eleduck crawler (internal/fetcher/fetcher.go): category pages are read in order,
 * posts older than the age window end their category, and only remote posts are kept,
 * each id at most once.
 *
 * The network, the HTML script extraction, JSON decoding, RFC 3339 time parsing and
 * fmt's rendering of non-string ids are the fields of an `Env`.
 */
module Fetcher {
  import opened Wrappers
  import opened Strs
  import opened Model

  /** A post of the `__NEXT_DATA__` payload; a tag is reduced to its name. */
  datatype Post = Post(
    id: Json,
    title: string,
    fullTitle: string,
    summary: string,
    excerpt: string,
    publishedAt: string,
    publishedAtAlt: string,
    tags: seq<string>,
    url: string)

  datatype PageProps = PageProps(postList: Option<seq<Post>>)
  datatype InitialProps = InitialProps(pageProps: Option<PageProps>)

  /** The decoded `__NEXT_DATA__` document: `props.pageProps` and `props.initialProps`. */
  datatype NextData = NextData(pageProps: Option<PageProps>, initialProps: Option<InitialProps>)

  /** An HTTP response: its status code and its body, `None` when reading the body fails. */
  datatype Response = Response(status: int, body: Option<string>)

  /** The stage at which loading a page failed. */
  datatype FetchError = BuildUrl | Transport | BadStatus(code: int) | ReadBody | ExtractScript | ParsePayload

  /** The collaborators of a crawl. Each is a function of its input; `None` is a failure. */
  datatype Env = Env(
    resolve: (string, string) -> Option<string>,
    get: string -> Option<Response>,
    extract: string -> Option<string>,
    unmarshal: string -> Option<NextData>,
    parseTime: string -> Option<Time>,
    renderId: Json -> string)

  datatype Config = Config(maxAgeDays: int, maxPages: int, categoryPaths: seq<string>)

  /** A configured fetcher, with its defaults applied. */
  datatype Fetcher = Fetcher(baseUrl: string, categoryPaths: seq<string>, maxPages: int, maxAgeDays: int)

  /** A page request: which category, which page. */
  datatype PageRef = PageRef(category: string, page: int)

  const Remote: string := "\U{8FDC}\U{7A0B}"
  const EleduckSource: string := "eleduck"
  const DefaultCategoryPaths: seq<string> := ["/categories/5?sort=new", "/categories/22?sort=new"]

  // ---------------------------------------------------------------- configuration

  /** The trimmed, non-blank category paths, in order. */
  function CleanPaths(paths: seq<string>): seq<string>
  {
    if |paths| == 0 then []
    else
      var p := TrimSpace(paths[|paths| - 1]);
      CleanPaths(paths[..|paths| - 1]) + (if p == "" then [] else [p])
  }

  /** What `normalizeCategoryPaths` returns: the clean paths, or the two defaults when none is left. */
  function CategoryPathsOf(paths: seq<string>): seq<string>
  {
    if CleanPaths(paths) == [] then DefaultCategoryPaths else CleanPaths(paths)
  }

  /** `normalizeCategoryPaths`: trim every path, drop the blank ones, fall back to the defaults. */
  method NormalizeCategoryPaths(paths: seq<string>) returns (r: seq<string>)
    ensures r == CategoryPathsOf(paths)
  {
    var clean: seq<string> := [];
    var i := 0;
    while i < |paths|
      invariant 0 <= i <= |paths|
      invariant clean == CleanPaths(paths[..i])
    {
      var p := TrimSpace(paths[i]);
      assert paths[..i + 1][..i] == paths[..i];
      if p != "" {
        clean := clean + [p];
      }
      i := i + 1;
    }
    assert paths[..|paths|] == paths;
    if |clean| == 0 {
      return DefaultCategoryPaths;
    }
    return clean;
  }

  /** A clean path is a non-blank input path, trimmed; so it is non-blank and has no surrounding white space. */
  lemma {:induction false} CleanPathsSound(paths: seq<string>, x: string)
    requires x in CleanPaths(paths)
    ensures exists i :: 0 <= i < |paths| && x == TrimSpace(paths[i])
    ensures x != "" && TrimSpace(x) == x
  {
    var init := paths[..|paths| - 1];
    if x in CleanPaths(init) {
      CleanPathsSound(init, x);
      var i :| 0 <= i < |init| && x == TrimSpace(init[i]);
      assert paths[i] == init[i];
    } else {
      assert x == TrimSpace(paths[|paths| - 1]);
      TrimSpaceIdempotent(paths[|paths| - 1]);
    }
  }

  /** Every non-blank input path appears, trimmed, among the clean paths. */
  lemma {:induction false} CleanPathsComplete(paths: seq<string>, i: int)
    requires 0 <= i < |paths| && TrimSpace(paths[i]) != ""
    ensures TrimSpace(paths[i]) in CleanPaths(paths)
  {
    var init := paths[..|paths| - 1];
    if i < |paths| - 1 {
      assert paths[i] == init[i];
      CleanPathsComplete(init, i);
    }
  }

  /** The category list of a fetcher is never empty and never holds a blank or untrimmed path. */
  lemma CategoryPathsClean(paths: seq<string>)
    ensures |CategoryPathsOf(paths)| > 0
    ensures forall x :: x in CategoryPathsOf(paths) ==> x != "" && TrimSpace(x) == x
  {
    var r := CategoryPathsOf(paths);
    forall x | x in r ensures x != "" && TrimSpace(x) == x {
      if CleanPaths(paths) == [] {
        DefaultPathsClean(x);
      } else {
        CleanPathsSound(paths, x);
      }
    }
  }

  lemma DefaultPathsClean(x: string)
    requires x in DefaultCategoryPaths
    ensures x != "" && TrimSpace(x) == x
  {
    var a: string := "/categories/5?sort=new";
    var b: string := "/categories/22?sort=new";
    assert a[0] == '/' && a[|a| - 1] == 'w';
    assert b[0] == '/' && b[|b| - 1] == 'w';
    if x == a {
      TrimSpaceNoEdge(a);
    } else {
      assert x == b;
      TrimSpaceNoEdge(b);
    }
  }

  /** `NewEleduckFetcher`: at least one page, a 30-day window by default, no trailing slash on the base. */
  method NewFetcher(baseUrl: string, cfg: Config) returns (f: Fetcher)
    ensures f.maxPages == (if cfg.maxPages <= 0 then 1 else cfg.maxPages)
    ensures f.maxAgeDays == (if cfg.maxAgeDays <= 0 then 30 else cfg.maxAgeDays)
    ensures f.maxPages >= 1 && f.maxAgeDays >= 1
    ensures f.baseUrl == TrimSuffix(baseUrl, "/")
    ensures f.categoryPaths == CategoryPathsOf(cfg.categoryPaths) && |f.categoryPaths| > 0
  {
    var maxPages := cfg.maxPages;
    if maxPages <= 0 {
      maxPages := 1;
    }
    var maxAgeDays := cfg.maxAgeDays;
    if maxAgeDays <= 0 {
      maxAgeDays := 30;
    }
    var paths := NormalizeCategoryPaths(cfg.categoryPaths);
    CategoryPathsClean(cfg.categoryPaths);
    f := Fetcher(TrimSuffix(baseUrl, "/"), paths, maxPages, maxAgeDays);
  }

  /** The oldest publication time kept: `maxAgeDays` days before `now`. */
  function Cutoff(f: Fetcher, now: Time): (c: Time)
    ensures f.maxAgeDays >= 1 ==> c < now
  {
    now - f.maxAgeDays * SecondsPerDay
  }

  // ---------------------------------------------------------------- URLs

  /** The path of page `page` of a category: page 1 is the path itself, later pages add a `page` query parameter. */
  function PagePath(path: string, page: int): string
  {
    if page > 1 then
      path + (if Contains(path, "?") then "&page=" else "?page=") + Itoa(page)
    else path
  }

  /** A later page keeps the category path, joins the parameter with the right separator, and always has a query. */
  lemma PagePathShape(path: string, page: int)
    ensures page <= 1 ==> PagePath(path, page) == path
    ensures page > 1 ==>
      var u := PagePath(path, page);
      |u| > |path| && u[..|path|] == path
      && u[|path|] == (if Contains(path, "?") then '&' else '?')
      && u[|path| + 1..] == "page=" + Itoa(page)
      && Contains(u, "?")
  {
    if page > 1 {
      var u := PagePath(path, page);
      var sep := if Contains(path, "?") then "&page=" else "?page=";
      assert u == path + sep + Itoa(page);
      assert u[|path| + 1..] == "page=" + Itoa(page);
      if Contains(path, "?") {
        ContainsTail([], path, "?");
        ContainsAppend(path, sep + Itoa(page), "?");
        assert u == path + (sep + Itoa(page));
      } else {
        ContainsInside(path, "?", "page=" + Itoa(page));
        assert u == path + "?" + ("page=" + Itoa(page));
      }
    }
  }

  /** An occurrence in the head is an occurrence in the whole. */
  lemma ContainsAppend(a: string, b: string, sub: string)
    requires Contains(a, sub)
    ensures Contains(a + b, sub)
  {
    ContainsAt(a, sub);
    var i :| OccursAt(a, sub, i);
    assert (a + b)[i..i + |sub|] == a[i..i + |sub|];
    assert OccursAt(a + b, sub, i);
    ContainsAt(a + b, sub);
  }

  /** The page number can be read back from the page path. */
  lemma PagePathNumber(path: string, page: int)
    requires 1 < page <= MaxInt64
    ensures Atoi(PagePath(path, page)[|path| + 6..]) == Some(page)
  {
    PagePathShape(path, page);
    var u := PagePath(path, page);
    assert u[|path| + 6..] == Itoa(page);
    AtoiItoa(page);
  }

  /** `buildPageURL`: the base URL resolved against the page path; a failed parse is an error. */
  function BuildPageUrl(env: Env, f: Fetcher, category: string, page: int): Option<string>
  {
    env.resolve(f.baseUrl, PagePath(category, page))
  }

  predicate IsAbsolute(u: string) {
    HasPrefix(u, "http://") || HasPrefix(u, "https://")
  }

  /** `fullURL`: "" is the site root, absolute http(s) URLs are kept, anything else is appended to the base. */
  function FullUrl(base: string, raw: string): (r: string)
    ensures raw == "" ==> r == base
    ensures raw != "" && IsAbsolute(raw) ==> r == raw
    ensures raw != "" && !IsAbsolute(raw) ==> r == TrimSuffix(base, "/") + raw
  {
    if raw == "" then base
    else if IsAbsolute(raw) then raw
    else TrimSuffix(base, "/") + raw
  }

  /** A non-empty link always ends the full URL. */
  lemma FullUrlEndsWithLink(base: string, raw: string)
    requires raw != ""
    ensures |FullUrl(base, raw)| >= |raw|
    ensures FullUrl(base, raw)[|FullUrl(base, raw)| - |raw|..] == raw
  {
  }

  /** With an absolute base the full URL is absolute, so completing it a second time changes nothing. */
  lemma FullUrlIdempotent(base: string, raw: string)
    requires IsAbsolute(TrimSuffix(base, "/"))
    ensures IsAbsolute(FullUrl(base, raw))
    ensures FullUrl(base, FullUrl(base, raw)) == FullUrl(base, raw)
  {
    var t := TrimSuffix(base, "/");
    assert base[..|t|] == t;
    var r := FullUrl(base, raw);
    if raw == "" {
      assert r == base;
      assert IsAbsolute(base) by {
        if HasPrefix(t, "http://") {
          assert base[..7] == t[..7];
        } else {
          assert base[..8] == t[..8];
        }
      }
    } else if !IsAbsolute(raw) {
      assert r == t + raw;
      if HasPrefix(t, "http://") {
        assert r[..7] == t[..7];
      } else {
        assert r[..8] == t[..8];
      }
    }
  }

  // ---------------------------------------------------------------- post fields

  /** The first non-empty string of a list, or "" when all are empty. */
  function FirstNonEmpty(xs: seq<string>): (r: string)
    ensures r == "" <==> forall i :: 0 <= i < |xs| ==> xs[i] == ""
    ensures r != "" ==> exists i :: 0 <= i < |xs| && xs[i] == r && forall j :: 0 <= j < i ==> xs[j] == ""
  {
    if |xs| == 0 then ""
    else if xs[0] != "" then xs[0]
    else
      var r := FirstNonEmpty(xs[1..]);
      assert r != "" ==> exists i :: 0 <= i < |xs[1..]| && xs[1..][i] == r && forall j :: 0 <= j < i ==> xs[1..][j] == "";
      if r != "" then
        var i :| 0 <= i < |xs[1..]| && xs[1..][i] == r && forall j :: 0 <= j < i ==> xs[1..][j] == "";
        assert xs[i + 1] == r;
        assert forall j :: 0 <= j < i + 1 ==> xs[j] == "" by {
          forall j | 0 <= j < i + 1 ensures xs[j] == "" {
            if j > 0 {
              assert xs[j] == xs[1..][j - 1];
            }
          }
        }
        r
      else r
  }

  lemma FirstNonEmptyCons(x: string, xs: seq<string>)
    ensures FirstNonEmpty([x] + xs) == if x != "" then x else FirstNonEmpty(xs)
  {
    assert ([x] + xs)[1..] == xs;
  }

  /** `pickPublishedAt`: `publishedAt`, else `published_at`. */
  function PickPublishedAt(p: Post): string
  {
    if p.publishedAt != "" then p.publishedAt else p.publishedAtAlt
  }

  /** `pickSummary`: summary, else excerpt, else full title, else title. */
  function PickSummary(p: Post): string
  {
    if p.summary != "" then p.summary
    else if p.excerpt != "" then p.excerpt
    else if p.fullTitle != "" then p.fullTitle
    else p.title
  }

  /** The title of a job: `title`, else `full_title`. */
  function PickTitle(p: Post): string
  {
    if p.title == "" then p.fullTitle else p.title
  }

  /** Each picker is the first non-empty field in its fallback order. */
  lemma PickersFallBack(p: Post)
    ensures PickPublishedAt(p) == FirstNonEmpty([p.publishedAt, p.publishedAtAlt])
    ensures PickSummary(p) == FirstNonEmpty([p.summary, p.excerpt, p.fullTitle, p.title])
    ensures PickTitle(p) == FirstNonEmpty([p.title, p.fullTitle])
  {
    FirstNonEmptyCons(p.publishedAt, [p.publishedAtAlt]);
    FirstNonEmptyCons(p.publishedAtAlt, []);
    FirstNonEmptyCons(p.title, [p.fullTitle]);
    FirstNonEmptyCons(p.fullTitle, []);
    FirstNonEmptyCons(p.summary, [p.excerpt, p.fullTitle, p.title]);
    FirstNonEmptyCons(p.excerpt, [p.fullTitle, p.title]);
    FirstNonEmptyCons(p.fullTitle, [p.title]);
    FirstNonEmptyCons(p.title, []);
  }

  /** `hasRemoteTag`: some tag name contains "远程". */
  function HasRemoteTag(tags: seq<string>): (r: bool)
    ensures r <==> exists i :: 0 <= i < |tags| && Contains(tags[i], Remote)
  {
    if |tags| == 0 then false
    else if Contains(tags[0], Remote) then true
    else
      var r := HasRemoteTag(tags[1..]);
      assert r ==> exists i :: 0 <= i < |tags| && Contains(tags[i], Remote) by {
        if r {
          var i :| 0 <= i < |tags[1..]| && Contains(tags[1..][i], Remote);
          assert tags[i + 1] == tags[1..][i];
        }
      }
      assert (exists i :: 0 <= i < |tags| && Contains(tags[i], Remote)) ==> r by {
        if exists i :: 0 <= i < |tags| && Contains(tags[i], Remote) {
          var i :| 0 <= i < |tags| && Contains(tags[i], Remote);
          assert i > 0;
          assert tags[1..][i - 1] == tags[i];
        }
      }
      r
  }

  /** A tag map names a remote tag. */
  predicate RemoteTagged(m: JsonMap) {
    exists k :: k in m && Contains(k, Remote)
  }

  /** The tag map of a post, built one tag at a time: every named tag maps to true. */
  function TagMapOf(names: seq<string>): JsonMap
  {
    if |names| == 0 then map[]
    else TagMapOf(names[..|names| - 1])[names[|names| - 1] := JBool(true)]
  }

  /** `toTagMap`. */
  method ToTagMap(names: seq<string>) returns (m: JsonMap)
    ensures m == TagMapOf(names)
  {
    m := map[];
    var i := 0;
    while i < |names|
      invariant 0 <= i <= |names|
      invariant m == TagMapOf(names[..i])
    {
      assert names[..i + 1][..i] == names[..i];
      m := m[names[i] := JBool(true)];
      i := i + 1;
    }
    assert names[..|names|] == names;
  }

  /** The tag map holds exactly the tag names, each mapped to true. */
  lemma {:induction false} TagMapOfSpec(names: seq<string>)
    ensures forall k :: k in TagMapOf(names) <==> k in names
    ensures forall k :: k in TagMapOf(names) ==> TagMapOf(names)[k] == JBool(true)
  {
    if |names| > 0 {
      TagMapOfSpec(names[..|names| - 1]);
      assert names == names[..|names| - 1] + [names[|names| - 1]];
    }
  }

  /** A post with a remote tag yields a remote-tagged map. */
  lemma RemoteTagMap(names: seq<string>)
    requires HasRemoteTag(names)
    ensures RemoteTagged(TagMapOf(names))
  {
    var i :| 0 <= i < |names| && Contains(names[i], Remote);
    TagMapOfSpec(names);
    assert names[i] in TagMapOf(names);
  }

  /** `toRawAttributes`: a snapshot of the post as a JSON object. */
  function RawAttributes(p: Post): JsonMap
  {
    map[
      "id" := p.id,
      "title" := JStr(p.title),
      "full_title" := JStr(p.fullTitle),
      "summary" := JStr(p.summary),
      "excerpt" := JStr(p.excerpt),
      "publishedAt" := JStr(p.publishedAt),
      "published_at" := JStr(p.publishedAtAlt),
      "tags" := JArr(seq(|p.tags|, i requires 0 <= i < |p.tags| => JObj(map["name" := JStr(p.tags[i])]))),
      "url" := JStr(p.url),
      "normalized_title" := JStr(PickSummary(p))]
  }

  function StrField(m: JsonMap, key: string): Option<string>
  {
    if key in m && m[key].JStr? then Some(m[key].s) else None
  }

  function TagName(t: Json): Option<string>
  {
    if t.JObj? && "name" in t.fields && t.fields["name"].JStr? then Some(t.fields["name"].s) else None
  }

  /** Reads a post back from its raw attributes, when they have the expected shape. */
  function PostOfAttributes(m: JsonMap): Option<Post>
  {
    if "id" in m && StrField(m, "title").Some? && StrField(m, "full_title").Some? && StrField(m, "summary").Some?
       && StrField(m, "excerpt").Some? && StrField(m, "publishedAt").Some? && StrField(m, "published_at").Some?
       && "tags" in m && m["tags"].JArr? && (forall i :: 0 <= i < |m["tags"].items| ==> TagName(m["tags"].items[i]).Some?)
       && StrField(m, "url").Some?
    then
      var items := m["tags"].items;
      Some(Post(m["id"], StrField(m, "title").value, StrField(m, "full_title").value, StrField(m, "summary").value,
                StrField(m, "excerpt").value, StrField(m, "publishedAt").value, StrField(m, "published_at").value,
                seq(|items|, i requires 0 <= i < |items| && TagName(items[i]).Some? => TagName(items[i]).value),
                StrField(m, "url").value))
    else None
  }

  /** The raw attributes keep every field of the post: it can be read back unchanged. */
  lemma RawAttributesRoundTrip(p: Post)
    ensures PostOfAttributes(RawAttributes(p)) == Some(p)
    ensures RawAttributes(p)["normalized_title"] == JStr(PickSummary(p))
  {
    var m := RawAttributes(p);
    var items := m["tags"].items;
    assert forall i :: 0 <= i < |items| ==> TagName(items[i]) == Some(p.tags[i]);
    var q := PostOfAttributes(m).value;
    assert q.tags == p.tags;
  }

  /** `normalizeID`: a string id is itself; nil prints as "<nil>", booleans as Go prints them, other values through fmt. */
  function NormalizeId(env: Env, id: Json): (r: string)
    ensures id.JStr? ==> r == id.s
    ensures id.JNull? ==> r == "<nil>"
    ensures id.JBool? ==> r == (if id.b then "true" else "false")
  {
    match id
    case JStr(s) => s
    case JNull => "<nil>"
    case JBool(b) => if b then "true" else "false"
    case _ => env.renderId(id)
  }

  // ---------------------------------------------------------------- one page

  /** `parseEleduckPosts`: `props.pageProps.postList`, else `props.initialProps.pageProps.postList`, else an error. */
  function PostsOf(nd: NextData): (r: Result<seq<Post>, FetchError>)
    ensures r.Ok? <==> (nd.pageProps.Some? && nd.pageProps.value.postList.Some?)
                       || (nd.initialProps.Some? && nd.initialProps.value.pageProps.Some?
                           && nd.initialProps.value.pageProps.value.postList.Some?)
    ensures nd.pageProps.Some? && nd.pageProps.value.postList.Some? ==> r == Ok(nd.pageProps.value.postList.value)
    ensures (!(nd.pageProps.Some? && nd.pageProps.value.postList.Some?)
             && nd.initialProps.Some? && nd.initialProps.value.pageProps.Some?
             && nd.initialProps.value.pageProps.value.postList.Some?)
            ==> r == Ok(nd.initialProps.value.pageProps.value.postList.value)
    ensures r.Err? ==> r.error == ParsePayload
  {
    if nd.pageProps.Some? && nd.pageProps.value.postList.Some? then
      Ok(nd.pageProps.value.postList.value)
    else if nd.initialProps.Some? && nd.initialProps.value.pageProps.Some?
            && nd.initialProps.value.pageProps.value.postList.Some? then
      Ok(nd.initialProps.value.pageProps.value.postList.value)
    else Err(ParsePayload)
  }

  /**
   * Loading one page: build its URL, issue the GET, demand status 200, read the body,
   * extract the `__NEXT_DATA__` script and decode the posts. The first failing stage is the error.
   */
  function LoadPage(env: Env, f: Fetcher, category: string, page: int): Result<seq<Post>, FetchError>
  {
    match BuildPageUrl(env, f, category, page)
    case None => Err(BuildUrl)
    case Some(u) =>
      match env.get(u)
      case None => Err(Transport)
      case Some(resp) =>
        if resp.status != 200 then Err(BadStatus(resp.status))
        else
          match resp.body
          case None => Err(ReadBody)
          case Some(body) =>
            match env.extract(body)
            case None => Err(ExtractScript)
            case Some(script) =>
              match env.unmarshal(script)
              case None => Err(ParsePayload)
              case Some(nd) => PostsOf(nd)
  }

  /** The publication time of a post, unless it is missing, unparsable or Go's zero time. */
  function Dated(env: Env, p: Post): (r: Option<Time>)
    ensures PickPublishedAt(p) == "" ==> r.None?
    ensures r.Some? ==> r.value != ZeroTime && env.parseTime(PickPublishedAt(p)) == r
    ensures (PickPublishedAt(p) != "" && env.parseTime(PickPublishedAt(p)).Some?
             && env.parseTime(PickPublishedAt(p)).value != ZeroTime)
            ==> r == env.parseTime(PickPublishedAt(p))
  {
    var text := PickPublishedAt(p);
    if text == "" then None
    else
      match env.parseTime(text)
      case None => None
      case Some(t) => if t == ZeroTime then None else Some(t)
  }

  /** The job a kept post becomes. A post without a URL links to "/posts/<id>" when it has an id. */
  function JobOf(f: Fetcher, p: Post, id: string, t: Time): Job
  {
    var link := if p.url == "" && id != "" then "/posts/" + id else p.url;
    CrawledJob(id, PickTitle(p), PickSummary(p), t, EleduckSource, FullUrl(f.baseUrl, link),
               TagMapOf(p.tags), RawAttributes(p))
  }

  datatype StepResult = Skipped | Stopped | Took(job: Job)

  /** What happens to one post, given the ids already seen. The cutoff test comes before the tag and duplicate tests. */
  function Step(env: Env, f: Fetcher, cutoff: Time, p: Post, seen: set<string>): (r: StepResult)
    ensures Dated(env, p).None? ==> r.Skipped?
    ensures Dated(env, p).Some? && Dated(env, p).value < cutoff ==> r.Stopped?
    ensures r.Took? ==>
      && Dated(env, p).Some? && r.job.publishedAt == Dated(env, p).value >= cutoff
      && HasRemoteTag(p.tags)
      && r.job.id == NormalizeId(env, p.id) && (r.job.id == "" || r.job.id !in seen)
      && r.job.source == EleduckSource
    ensures (Dated(env, p).Some? && Dated(env, p).value >= cutoff && HasRemoteTag(p.tags)
             && (NormalizeId(env, p.id) == "" || NormalizeId(env, p.id) !in seen)) ==> r.Took?
  {
    match Dated(env, p)
    case None => Skipped
    case Some(t) =>
      if t < cutoff then Stopped
      else if !HasRemoteTag(p.tags) then Skipped
      else
        var id := NormalizeId(env, p.id);
        if id != "" && id in seen then Skipped
        else Took(JobOf(f, p, id, t))
  }

  /** The jobs collected so far and the non-empty ids seen. */
  datatype Acc = Acc(jobs: seq<Job>, seen: set<string>)

  datatype ScanResult = ScanResult(acc: Acc, stopped: bool)

  function Record(acc: Acc, job: Job): Acc
  {
    Acc(acc.jobs + [job], if job.id != "" then acc.seen + {job.id} else acc.seen)
  }

  /** The post loop of one page: posts in order, until one is older than the cutoff. */
  function Scan(env: Env, f: Fetcher, cutoff: Time, posts: seq<Post>, acc: Acc): ScanResult
    decreases |posts|
  {
    if |posts| == 0 then ScanResult(acc, false)
    else
      match Step(env, f, cutoff, posts[0], acc.seen)
      case Stopped => ScanResult(acc, true)
      case Skipped => Scan(env, f, cutoff, posts[1..], acc)
      case Took(job) => Scan(env, f, cutoff, posts[1..], Record(acc, job))
  }

  /** The state of a crawl: collected jobs, the ghost log of requested pages, and the error that ended it. */
  datatype Outcome = Outcome(acc: Acc, log: seq<PageRef>, err: Option<FetchError>)

  /** The page loop of one category, from page `page` on. */
  function Pages(env: Env, f: Fetcher, cutoff: Time, category: string, page: int, o: Outcome): Outcome
    requires o.err.None?
    decreases f.maxPages + 1 - page
  {
    if page > f.maxPages then o
    else
      var log := o.log + [PageRef(category, page)];
      match LoadPage(env, f, category, page)
      case Err(e) => Outcome(o.acc, log, Some(e))
      case Ok(posts) =>
        var s := Scan(env, f, cutoff, posts, o.acc);
        if s.stopped then Outcome(s.acc, log, None)
        else Pages(env, f, cutoff, category, page + 1, Outcome(s.acc, log, None))
  }

  /** The category loop, until the categories run out or a page fails. */
  function Crawl(env: Env, f: Fetcher, cutoff: Time, categories: seq<string>, o: Outcome): Outcome
    decreases |categories|
  {
    if |categories| == 0 || o.err.Some? then o
    else Crawl(env, f, cutoff, categories[1..], Pages(env, f, cutoff, categories[0], 1, o))
  }

  const Start: Outcome := Outcome(Acc([], {}), [], None)

  /** The whole crawl at time `now`. */
  function FetchSpec(env: Env, f: Fetcher, now: Time): Outcome
  {
    Crawl(env, f, Cutoff(f, now), f.categoryPaths, Start)
  }

  function ResultOf(o: Outcome): Result<seq<Job>, FetchError>
  {
    if o.err.Some? then Err(o.err.value) else Ok(o.acc.jobs)
  }

  /** The post loop of one page, proved equal to Scan. */
  method ScanPosts(env: Env, f: Fetcher, cutoff: Time, posts: seq<Post>, acc: Acc)
    returns (jobs: seq<Job>, seen: set<string>, stopped: bool)
    ensures ScanResult(Acc(jobs, seen), stopped) == Scan(env, f, cutoff, posts, acc)
  {
    jobs, seen, stopped := acc.jobs, acc.seen, false;
    var k := 0;
    while k < |posts|
      invariant 0 <= k <= |posts|
      invariant Scan(env, f, cutoff, posts[k..], Acc(jobs, seen)) == Scan(env, f, cutoff, posts, acc)
    {
      var p := posts[k];
      assert posts[k..][1..] == posts[k + 1..];
      var text := PickPublishedAt(p);
      if text == "" {
        k := k + 1;
        continue;
      }
      var parsed := env.parseTime(text);
      if parsed.None? || parsed.value == ZeroTime {
        k := k + 1;
        continue;
      }
      var publishedAt := parsed.value;
      if publishedAt < cutoff {
        stopped := true;
        return;
      }
      if !HasRemoteTag(p.tags) {
        k := k + 1;
        continue;
      }
      var jobId := NormalizeId(env, p.id);
      if jobId != "" {
        if jobId in seen {
          k := k + 1;
          continue;
        }
        seen := seen + {jobId};
      }
      jobs := jobs + [JobOf(f, p, jobId, publishedAt)];
      k := k + 1;
    }
  }

  /** `Fetch`: the crawl itself, with the pages it requested as a ghost result. */
  method Fetch(env: Env, f: Fetcher, now: Time) returns (r: Result<seq<Job>, FetchError>, ghost requested: seq<PageRef>)
    ensures r == ResultOf(FetchSpec(env, f, now))
    ensures requested == FetchSpec(env, f, now).log
  {
    var cutoff := Cutoff(f, now);
    var jobs: seq<Job> := [];
    var seen: set<string> := {};
    requested := [];
    var ci := 0;
    while ci < |f.categoryPaths|
      invariant 0 <= ci <= |f.categoryPaths|
      invariant Crawl(env, f, cutoff, f.categoryPaths[ci..], Outcome(Acc(jobs, seen), requested, None))
                == FetchSpec(env, f, now)
    {
      var category := f.categoryPaths[ci];
      ghost var atCategory := Outcome(Acc(jobs, seen), requested, None);
      var stopCategory: bool;
      var page := 1;
      while page <= f.maxPages
        invariant 1 <= page
        invariant Pages(env, f, cutoff, category, page, Outcome(Acc(jobs, seen), requested, None))
                  == Pages(env, f, cutoff, category, 1, atCategory)
        decreases f.maxPages + 1 - page
      {
        ghost var before := Outcome(Acc(jobs, seen), requested, None);
        var loaded := LoadPage(env, f, category, page);
        requested := requested + [PageRef(category, page)];
        if loaded.Err? {
          r := Err(loaded.error);
          assert f.categoryPaths[ci..][1..] == f.categoryPaths[ci + 1..];
          return;
        }
        var posts := loaded.value;
        jobs, seen, stopCategory := ScanPosts(env, f, cutoff, posts, Acc(jobs, seen));
        if stopCategory {
          assert Pages(env, f, cutoff, category, 1, atCategory) == Outcome(Acc(jobs, seen), requested, None);
          break;
        }
        page := page + 1;
      }
      assert f.categoryPaths[ci..][1..] == f.categoryPaths[ci + 1..];
      ci := ci + 1;
    }
    r := Ok(jobs);
  }

  // ---------------------------------------------------------------- properties of the crawl

  /** The non-empty ids of a job list. */
  function NonEmptyIds(jobs: seq<Job>): set<string>
  {
    set i | 0 <= i < |jobs| && jobs[i].id != "" :: jobs[i].id
  }

  /** Non-empty ids occur at most once. */
  predicate UniqueIds(jobs: seq<Job>)
  {
    forall i, j :: 0 <= i < j < |jobs| && jobs[i].id != "" ==> jobs[i].id != jobs[j].id
  }

  /** Every job lies inside the window, has a remote tag and comes from eleduck. */
  predicate JobsInWindow(jobs: seq<Job>, cutoff: Time)
  {
    forall i :: 0 <= i < |jobs| ==>
      jobs[i].publishedAt >= cutoff && RemoteTagged(jobs[i].tags) && jobs[i].source == EleduckSource
  }

  /** The invariant of the crawl state; `seen` is exactly the set of non-empty ids collected. */
  predicate AccOk(acc: Acc, cutoff: Time)
  {
    JobsInWindow(acc.jobs, cutoff) && UniqueIds(acc.jobs) && acc.seen == NonEmptyIds(acc.jobs)
  }

  lemma RecordOk(acc: Acc, job: Job, cutoff: Time)
    requires AccOk(acc, cutoff)
    requires job.publishedAt >= cutoff && RemoteTagged(job.tags) && job.source == EleduckSource
    requires job.id == "" || job.id !in acc.seen
    ensures AccOk(Record(acc, job), cutoff)
  {
    var jobs := acc.jobs + [job];
    var n := |acc.jobs|;
    forall x ensures x in NonEmptyIds(jobs) <==> x in Record(acc, job).seen {
      if x in NonEmptyIds(jobs) {
        var i :| 0 <= i < |jobs| && jobs[i].id != "" && jobs[i].id == x;
        if i < n {
          assert acc.jobs[i] == jobs[i];
        }
      }
      if x in acc.seen {
        var i :| 0 <= i < n && acc.jobs[i].id != "" && acc.jobs[i].id == x;
        assert jobs[i] == acc.jobs[i];
      }
      if job.id != "" && x == job.id {
        assert jobs[n] == job;
      }
    }
    forall i, j | 0 <= i < j < |jobs| && jobs[i].id != "" ensures jobs[i].id != jobs[j].id {
      assert jobs[i] == acc.jobs[i];
      if j == n {
        assert acc.jobs[i].id in NonEmptyIds(acc.jobs);
      } else {
        assert jobs[j] == acc.jobs[j];
      }
    }
  }

  /** Scanning a page keeps the invariant. */
  lemma {:induction false} ScanOk(env: Env, f: Fetcher, cutoff: Time, posts: seq<Post>, acc: Acc)
    requires AccOk(acc, cutoff)
    ensures AccOk(Scan(env, f, cutoff, posts, acc).acc, cutoff)
    decreases |posts|
  {
    if |posts| > 0 {
      var p := posts[0];
      match Step(env, f, cutoff, p, acc.seen)
      case Stopped =>
      case Skipped =>
        ScanOk(env, f, cutoff, posts[1..], acc);
      case Took(job) =>
        RemoteTagMap(p.tags);
        RecordOk(acc, job, cutoff);
        ScanOk(env, f, cutoff, posts[1..], Record(acc, job));
    }
  }

  lemma {:induction false} PagesOk(env: Env, f: Fetcher, cutoff: Time, category: string, page: int, o: Outcome)
    requires o.err.None? && AccOk(o.acc, cutoff)
    ensures AccOk(Pages(env, f, cutoff, category, page, o).acc, cutoff)
    decreases f.maxPages + 1 - page
  {
    if page <= f.maxPages {
      var log := o.log + [PageRef(category, page)];
      match LoadPage(env, f, category, page)
      case Err(e) =>
      case Ok(posts) =>
        ScanOk(env, f, cutoff, posts, o.acc);
        var s := Scan(env, f, cutoff, posts, o.acc);
        if !s.stopped {
          PagesOk(env, f, cutoff, category, page + 1, Outcome(s.acc, log, None));
        }
    }
  }

  lemma {:induction false} CrawlOk(env: Env, f: Fetcher, cutoff: Time, categories: seq<string>, o: Outcome)
    requires AccOk(o.acc, cutoff)
    ensures AccOk(Crawl(env, f, cutoff, categories, o).acc, cutoff)
    decreases |categories|
  {
    if |categories| > 0 && o.err.None? {
      PagesOk(env, f, cutoff, categories[0], 1, o);
      CrawlOk(env, f, cutoff, categories[1..], Pages(env, f, cutoff, categories[0], 1, o));
    }
  }

  /**
   * Every job the crawl returns was published at or after the cutoff, has a tag containing "远程"
   * and comes from eleduck, and no non-empty id is returned twice.
   */
  lemma FetchJobsOk(env: Env, f: Fetcher, now: Time)
    ensures ResultOf(FetchSpec(env, f, now)).Ok? ==>
      var jobs := ResultOf(FetchSpec(env, f, now)).value;
      && (forall i :: 0 <= i < |jobs| ==> jobs[i].publishedAt >= Cutoff(f, now) && RemoteTagged(jobs[i].tags))
      && UniqueIds(jobs)
  {
    CrawlOk(env, f, Cutoff(f, now), f.categoryPaths, Start);
  }

  lemma StepSkipMonotone(env: Env, f: Fetcher, cutoff: Time, p: Post, seen: set<string>, more: set<string>)
    requires Step(env, f, cutoff, p, seen).Skipped? && seen <= more
    ensures Step(env, f, cutoff, p, more).Skipped?
  {
  }

  /**
   * A post that is skipped (no usable time, no remote tag, or an id already seen) can be removed
   * from a page without changing the outcome: skipping never ends the page.
   */
  lemma {:induction false} ScanIgnores(env: Env, f: Fetcher, cutoff: Time, a: seq<Post>, p: Post, b: seq<Post>, acc: Acc)
    requires Step(env, f, cutoff, p, acc.seen).Skipped?
    ensures Scan(env, f, cutoff, a + [p] + b, acc) == Scan(env, f, cutoff, a + b, acc)
    decreases |a|
  {
    if |a| == 0 {
      assert a + [p] + b == [p] + b && ([p] + b)[1..] == b;
      assert a + b == b;
    } else {
      assert (a + [p] + b)[0] == a[0] && (a + [p] + b)[1..] == a[1..] + [p] + b;
      assert (a + b)[0] == a[0] && (a + b)[1..] == a[1..] + b;
      match Step(env, f, cutoff, a[0], acc.seen)
      case Stopped =>
      case Skipped =>
        ScanIgnores(env, f, cutoff, a[1..], p, b, acc);
      case Took(job) =>
        StepSkipMonotone(env, f, cutoff, p, acc.seen, Record(acc, job).seen);
        ScanIgnores(env, f, cutoff, a[1..], p, b, Record(acc, job));
    }
  }

  /** A post without a usable publication time is skipped, wherever it sits on the page. */
  lemma UndatedIgnored(env: Env, f: Fetcher, cutoff: Time, a: seq<Post>, p: Post, b: seq<Post>, acc: Acc)
    requires Dated(env, p).None?
    ensures Scan(env, f, cutoff, a + [p] + b, acc) == Scan(env, f, cutoff, a + b, acc)
  {
    ScanIgnores(env, f, cutoff, a, p, b, acc);
  }

  /** A post older than the cutoff ends the page: nothing after it is examined, and the scan reports the stop. */
  lemma {:induction false} ScanStopsAt(env: Env, f: Fetcher, cutoff: Time, a: seq<Post>, p: Post, b: seq<Post>, acc: Acc)
    requires Dated(env, p).Some? && Dated(env, p).value < cutoff
    ensures Scan(env, f, cutoff, a + [p] + b, acc) == Scan(env, f, cutoff, a + [p], acc)
    ensures Scan(env, f, cutoff, a + [p], acc).stopped
    decreases |a|
  {
    if |a| == 0 {
      assert a + [p] + b == [p] + b;
      assert a + [p] == [p];
    } else {
      assert (a + [p] + b)[0] == a[0] && (a + [p] + b)[1..] == a[1..] + [p] + b;
      assert (a + [p])[0] == a[0] && (a + [p])[1..] == a[1..] + [p];
      match Step(env, f, cutoff, a[0], acc.seen)
      case Stopped =>
      case Skipped =>
        ScanStopsAt(env, f, cutoff, a[1..], p, b, acc);
      case Took(job) =>
        ScanStopsAt(env, f, cutoff, a[1..], p, b, Record(acc, job));
    }
  }

  /** Some post of the page is older than the cutoff. */
  predicate HasOldPost(env: Env, cutoff: Time, posts: seq<Post>)
  {
    exists i :: 0 <= i < |posts| && Dated(env, posts[i]).Some? && Dated(env, posts[i]).value < cutoff
  }

  /** A page scan stops exactly when the page holds a post older than the cutoff, whatever was collected before. */
  lemma {:induction false} ScanStopsIff(env: Env, f: Fetcher, cutoff: Time, posts: seq<Post>, acc: Acc)
    ensures Scan(env, f, cutoff, posts, acc).stopped <==> HasOldPost(env, cutoff, posts)
    decreases |posts|
  {
    if |posts| > 0 {
      var p := posts[0];
      if !(Dated(env, p).Some? && Dated(env, p).value < cutoff) {
        assert HasOldPost(env, cutoff, posts) <==> HasOldPost(env, cutoff, posts[1..]) by {
          if HasOldPost(env, cutoff, posts) {
            var i :| 0 <= i < |posts| && Dated(env, posts[i]).Some? && Dated(env, posts[i]).value < cutoff;
            assert posts[1..][i - 1] == posts[i];
          }
          if HasOldPost(env, cutoff, posts[1..]) {
            var i :| 0 <= i < |posts[1..]| && Dated(env, posts[1..][i]).Some? && Dated(env, posts[1..][i]).value < cutoff;
            assert posts[i + 1] == posts[1..][i];
          }
        }
        match Step(env, f, cutoff, p, acc.seen)
        case Stopped =>
        case Skipped =>
          ScanStopsIff(env, f, cutoff, posts[1..], acc);
        case Took(job) =>
          ScanStopsIff(env, f, cutoff, posts[1..], Record(acc, job));
      } else {
        assert HasOldPost(env, cutoff, posts) by {
          assert posts[0] == p;
        }
      }
    }
  }

  /** Loading the page a log entry names. */
  function Loaded(env: Env, f: Fetcher, r: PageRef): Result<seq<Post>, FetchError>
  {
    LoadPage(env, f, r.category, r.page)
  }

  /** The pages one category requests are consecutive, start at `page`, and stay within `maxPages`. */
  lemma {:induction false} PagesLogShape(env: Env, f: Fetcher, cutoff: Time, c: string, page: int, o: Outcome)
    requires o.err.None?
    ensures var q := Pages(env, f, cutoff, c, page, o);
      && |o.log| <= |q.log| && q.log[..|o.log|] == o.log
      && (forall i :: |o.log| <= i < |q.log| ==> q.log[i] == PageRef(c, page + i - |o.log|) && q.log[i].page <= f.maxPages)
    decreases f.maxPages + 1 - page
  {
    if page <= f.maxPages {
      var log := o.log + [PageRef(c, page)];
      match LoadPage(env, f, c, page)
      case Err(e) =>
      case Ok(posts) =>
        var s := Scan(env, f, cutoff, posts, o.acc);
        if !s.stopped {
          var o' := Outcome(s.acc, log, None);
          PagesLogShape(env, f, cutoff, c, page + 1, o');
          var q := Pages(env, f, cutoff, c, page + 1, o');
          assert q.log[..|o.log|] == o.log by {
            assert q.log[..|o.log|] == q.log[..|log|][..|o.log|];
          }
          assert q.log[|o.log|] == log[|o.log|];
        }
    }
  }

  /**
   * Every page a category requests before its last one loaded and held no post older than the cutoff.
   * So a page with an old post, or a page that failed, is the last page requested for its category.
   */
  lemma {:induction false} PagesStopAtOldPost(env: Env, f: Fetcher, cutoff: Time, c: string, page: int, o: Outcome)
    requires o.err.None?
    ensures var q := Pages(env, f, cutoff, c, page, o);
      forall i :: |o.log| <= i < |q.log| - 1 ==>
        Loaded(env, f, q.log[i]).Ok? && !HasOldPost(env, cutoff, Loaded(env, f, q.log[i]).value)
    decreases f.maxPages + 1 - page
  {
    if page <= f.maxPages {
      var log := o.log + [PageRef(c, page)];
      match LoadPage(env, f, c, page)
      case Err(e) =>
      case Ok(posts) =>
        var s := Scan(env, f, cutoff, posts, o.acc);
        if !s.stopped {
          ScanStopsIff(env, f, cutoff, posts, o.acc);
          var o' := Outcome(s.acc, log, None);
          PagesStopAtOldPost(env, f, cutoff, c, page + 1, o');
          PagesLogShape(env, f, cutoff, c, page + 1, o');
          var q := Pages(env, f, cutoff, c, page + 1, o');
          assert q.log[|o.log|] == log[|o.log|] by {
            assert q.log[..|log|] == log;
          }
        }
    }
  }

  /** A category that ends in an error ends with the page that failed, and the error is that page's. */
  lemma {:induction false} PagesErrorLast(env: Env, f: Fetcher, cutoff: Time, c: string, page: int, o: Outcome)
    requires o.err.None?
    ensures var q := Pages(env, f, cutoff, c, page, o);
      q.err.Some? ==> |q.log| > |o.log| && Loaded(env, f, q.log[|q.log| - 1]) == Err(q.err.value)
    decreases f.maxPages + 1 - page
  {
    if page <= f.maxPages {
      var log := o.log + [PageRef(c, page)];
      match LoadPage(env, f, c, page)
      case Err(e) =>
        assert Pages(env, f, cutoff, c, page, o) == Outcome(o.acc, log, Some(e));
        assert log[|log| - 1] == PageRef(c, page);
      case Ok(posts) =>
        var s := Scan(env, f, cutoff, posts, o.acc);
        if !s.stopped {
          var o' := Outcome(s.acc, log, None);
          assert Pages(env, f, cutoff, c, page, o) == Pages(env, f, cutoff, c, page + 1, o');
          PagesErrorLast(env, f, cutoff, c, page + 1, o');
        }
    }
  }

  /** A category that ends without an error loaded every page it requested. */
  lemma {:induction false} PagesLoaded(env: Env, f: Fetcher, cutoff: Time, c: string, page: int, o: Outcome)
    requires o.err.None?
    ensures var q := Pages(env, f, cutoff, c, page, o);
      q.err.None? ==> forall i :: |o.log| <= i < |q.log| ==> Loaded(env, f, q.log[i]).Ok?
    decreases f.maxPages + 1 - page
  {
    if page <= f.maxPages {
      var log := o.log + [PageRef(c, page)];
      match LoadPage(env, f, c, page)
      case Err(e) =>
      case Ok(posts) =>
        var s := Scan(env, f, cutoff, posts, o.acc);
        if !s.stopped {
          var o' := Outcome(s.acc, log, None);
          PagesLoaded(env, f, cutoff, c, page + 1, o');
          PagesLogShape(env, f, cutoff, c, page + 1, o');
          var q := Pages(env, f, cutoff, c, page + 1, o');
          assert q.log[|o.log|] == log[|o.log|] by {
            assert q.log[..|log|] == log;
          }
        }
    }
  }

  /** The crawl's log extends the log it started from. */
  lemma {:induction false} CrawlLogGrows(env: Env, f: Fetcher, cutoff: Time, categories: seq<string>, o: Outcome)
    ensures var q := Crawl(env, f, cutoff, categories, o);
      |o.log| <= |q.log| && q.log[..|o.log|] == o.log
    decreases |categories|
  {
    if |categories| > 0 && o.err.None? {
      var o1 := Pages(env, f, cutoff, categories[0], 1, o);
      PagesLogShape(env, f, cutoff, categories[0], 1, o);
      CrawlLogGrows(env, f, cutoff, categories[1..], o1);
      var q := Crawl(env, f, cutoff, categories[1..], o1);
      assert q.log[..|o.log|] == q.log[..|o1.log|][..|o.log|];
    }
  }

  /**
   * The crawl fails exactly when a requested page fails, and then that page is the last one requested:
   * nothing is returned but the error of that page.
   */
  lemma {:induction false} CrawlErrors(env: Env, f: Fetcher, cutoff: Time, categories: seq<string>, o: Outcome)
    requires o.err.None?
    ensures var q := Crawl(env, f, cutoff, categories, o);
      && (q.err.Some? ==> |q.log| > |o.log| && Loaded(env, f, q.log[|q.log| - 1]) == Err(q.err.value))
      && (q.err.None? ==> forall i :: |o.log| <= i < |q.log| ==> Loaded(env, f, q.log[i]).Ok?)
    decreases |categories|
  {
    if |categories| > 0 {
      var c := categories[0];
      var o1 := Pages(env, f, cutoff, c, 1, o);
      PagesErrorLast(env, f, cutoff, c, 1, o);
      PagesLoaded(env, f, cutoff, c, 1, o);
      PagesLogShape(env, f, cutoff, c, 1, o);
      if o1.err.None? {
        CrawlErrors(env, f, cutoff, categories[1..], o1);
        CrawlLogGrows(env, f, cutoff, categories[1..], o1);
        var q := Crawl(env, f, cutoff, categories[1..], o1);
        forall i | |o.log| <= i < |q.log| && q.err.None?
          ensures Loaded(env, f, q.log[i]).Ok?
        {
          if i < |o1.log| {
            assert q.log[i] == q.log[..|o1.log|][i] == o1.log[i];
          }
        }
      }
    }
  }

  /** `Fetch` returns an error exactly when one of the pages it requested failed; the error is that of the last page requested. */
  lemma FetchErrors(env: Env, f: Fetcher, now: Time)
    ensures var q := FetchSpec(env, f, now);
      && (ResultOf(q).Err? <==> exists i :: 0 <= i < |q.log| && Loaded(env, f, q.log[i]).Err?)
      && (ResultOf(q).Err? ==> Loaded(env, f, q.log[|q.log| - 1]) == Err(ResultOf(q).error))
  {
    CrawlErrors(env, f, Cutoff(f, now), f.categoryPaths, Start);
    var q := FetchSpec(env, f, now);
    if q.err.Some? {
      assert Loaded(env, f, q.log[|q.log| - 1]).Err?;
    }
  }
}
