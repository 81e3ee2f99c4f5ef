/**
 * The crawler: a depth-first walk from a seed URL over the links of HTML pages, bounded by a
 * maximum depth, visiting each URL at most once and following only links on the seed's domain.
 * The source spawns one future per child but awaits them one after another, so the walk is
 * modelled sequentially. The network, the HTML parser and the URL library are abstract.
 */
module Crawler {
  import opened Wrappers
  import opened Text
  import opened Types
  import opened Client
  import opened Url

  /**
   * The HTML parser: the attribute values of `a[href]`, `form[action]`, `script[src]` and
   * `link[href]` elements of a page, in that selector order and document order within each.
   */
  type HtmlParser = string -> seq<string>

  /** The collaborators of a crawl. */
  datatype Web = Web(net: Network, lib: UrlLibrary, parser: HtmlParser)

  /** A URL with its fragment (section 3.5 of RFC 3986) removed: everything before the first '#'. */
  function StripFragment(s: string): (t: string)
    ensures '#' !in t
    ensures t <= s
    ensures |t| < |s| ==> s[|t|] == '#'
  {
    s[..IndexOf(s, '#')]
  }

  /** A string without '#' is its own fragment-free form, and anything after a '#' is dropped. */
  lemma StripFragmentOf(a: string, b: string)
    requires '#' !in a
    ensures StripFragment(a) == a
    ensures StripFragment(a + "#" + b) == a
  {
    IndexOfAfter(a, [], '#');
    assert a + [] == a;
    IndexOfAfter(a, "#" + b, '#');
    assert a + "#" + b == a + ("#" + b);
    assert (a + ("#" + b))[..|a|] == a;
  }

  lemma StripFragmentIdempotent(s: string)
    ensures StripFragment(StripFragment(s)) == StripFragment(s)
  {
    StripFragmentOf(StripFragment(s), "");
  }

  /** The link a reference yields, if any: resolved against the page, fragment removed, non-empty. */
  function LinkOf(lib: UrlLibrary, page: ParsedUrl, reference: string): Option<string> {
    match lib.join(page, reference)
    case None => None
    case Some(u) =>
      var clean := StripFragment(u.serialized);
      if clean == [] then None else Some(clean)
  }

  /** The links of a list of references, in order; references that do not resolve are skipped. */
  function ResolveLinks(lib: UrlLibrary, page: ParsedUrl, refs: seq<string>): (links: seq<string>)
    ensures |links| <= |refs|
    ensures forall i | 0 <= i < |links| :: links[i] != [] && '#' !in links[i]
  {
    if refs == [] then []
    else
      var last := LinkOf(lib, page, refs[|refs| - 1]);
      ResolveLinks(lib, page, refs[..|refs| - 1]) + (if last.Some? then [last.value] else [])
  }

  /** A string is among the links exactly when some reference yields it. */
  lemma {:induction false} ResolveLinksMember(lib: UrlLibrary, page: ParsedUrl, refs: seq<string>, l: string)
    ensures l in ResolveLinks(lib, page, refs) <==>
      exists i | 0 <= i < |refs| :: LinkOf(lib, page, refs[i]) == Some(l)
  {
    if refs != [] {
      var init := refs[..|refs| - 1];
      ResolveLinksMember(lib, page, init, l);
      if l in ResolveLinks(lib, page, init) {
        var i :| 0 <= i < |init| && LinkOf(lib, page, init[i]) == Some(l);
        assert refs[i] == init[i];
      }
      if exists i | 0 <= i < |refs| :: LinkOf(lib, page, refs[i]) == Some(l) {
        var i :| 0 <= i < |refs| && LinkOf(lib, page, refs[i]) == Some(l);
        if i < |init| {
          assert init[i] == refs[i];
        }
      }
    }
  }

  /** `extract_links`: fails with InvalidUrl when the page's own URL does not parse. */
  function ExtractLinks(web: Web, body: string, pageUrl: string): (r: Result<seq<string>, ScanError>)
    ensures web.lib.parse(pageUrl).Failure? ==> r == Failure(InvalidUrl(web.lib.parse(pageUrl).error))
    ensures web.lib.parse(pageUrl).Success? ==>
      r == Success(ResolveLinks(web.lib, web.lib.parse(pageUrl).value, web.parser(body)))
  {
    match web.lib.parse(pageUrl)
    case Failure(e) => Failure(InvalidUrl(e))
    case Success(page) => Success(ResolveLinks(web.lib, page, web.parser(body)))
  }

  /**
   * `is_same_domain`: the link parses and its domain equals the seed's, compared as optional
   * values, so two URLs without a domain (IP literal, no host) count as the same domain.
   */
  predicate SameDomain(lib: UrlLibrary, base: ParsedUrl, url: string) {
    match lib.parse(url)
    case Success(p) => p.domain == base.domain
    case Failure(_) => false
  }

  /** An unparseable link is never same-domain; with no domain on either side it is. */
  lemma SameDomainCases(lib: UrlLibrary, base: ParsedUrl, url: string)
    ensures lib.parse(url).Failure? ==> !SameDomain(lib, base, url)
    ensures lib.parse(url).Success? && lib.parse(url).value.domain.None? && base.domain.None? ==>
      SameDomain(lib, base, url)
  {
  }

  /** The links of the page at `p`, when it fetches as HTML and its own URL parses. */
  ghost function PageLinks(web: Web, p: string): Option<seq<string>> {
    match Get(web.net, p)
    case None => None
    case Some(resp) =>
      if !IsHtml(resp) then None
      else match ExtractLinks(web, resp.body, p)
        case Success(links) => Some(links)
        case Failure(_) => None
  }

  /** `u` is a link on the HTML page fetched from `p`. */
  ghost predicate Linked(web: Web, p: string, u: string) {
    PageLinks(web, p).Some? && u in PageLinks(web, p).value
  }

  /** The links a parent queues: those not yet visited and on the seed's domain, in link order. */
  function Followed(lib: UrlLibrary, base: ParsedUrl, links: seq<string>, visited: set<string>): (tasks: seq<string>)
    ensures forall t | t in tasks :: t in links && t !in visited && SameDomain(lib, base, t)
  {
    if links == [] then []
    else
      var last := links[|links| - 1];
      Followed(lib, base, links[..|links| - 1], visited)
        + (if last !in visited && SameDomain(lib, base, last) then [last] else [])
  }

  /** A link is queued exactly when it is unvisited and same-domain. */
  lemma {:induction false} FollowedMember(lib: UrlLibrary, base: ParsedUrl, links: seq<string>, visited: set<string>, t: string)
    ensures t in Followed(lib, base, links, visited) <==> t in links && t !in visited && SameDomain(lib, base, t)
  {
    if links != [] {
      FollowedMember(lib, base, links[..|links| - 1], visited, t);
      assert links == links[..|links| - 1] + [links[|links| - 1]];
    }
  }

  /** No element occurs twice. */
  ghost predicate Distinct(s: seq<string>) {
    forall i, j | 0 <= i < j < |s| :: s[i] != s[j]
  }

  /** Every entry of `a` is in `b` with the same value. */
  lemma ExtendsTrans<K, V>(a: map<K, V>, b: map<K, V>, c: map<K, V>)
    requires Extends(a, b) && Extends(b, c)
    ensures Extends(a, c)
  {
  }

  ghost predicate Extends<K, V>(a: map<K, V>, b: map<K, V>) {
    forall k | k in a :: k in b && b[k] == a[k]
  }

  /** The recorded links of each expanded page are that page's links. */
  ghost predicate Faithful(web: Web, pages: map<string, seq<string>>) {
    forall p {:trigger PageLinks(web, p)} | p in pages :: PageLinks(web, p) == Some(pages[p])
  }

  /**
   * Every visited URL has a recorded depth of at most the maximum; every URL other than the seed
   * is same-domain and is a recorded link of a visited parent one level up.
   */
  ghost predicate Sound(lib: UrlLibrary, base: ParsedUrl, maxDepth: nat, visited: set<string>,
    depthOf: map<string, nat>, parentOf: map<string, string>, pages: map<string, seq<string>>)
  {
    depthOf.Keys == visited
    && (forall u | u in depthOf :: depthOf[u] <= maxDepth)
    && (forall u | u in visited && u != base.serialized :: Reached(lib, base, u, depthOf, parentOf, pages))
  }

  ghost predicate Reached(lib: UrlLibrary, base: ParsedUrl, u: string, depthOf: map<string, nat>,
    parentOf: map<string, string>, pages: map<string, seq<string>>)
  {
    u in depthOf && u in parentOf && parentOf[u] in depthOf
    && depthOf[u] == depthOf[parentOf[u]] + 1
    && parentOf[u] in pages && u in pages[parentOf[u]]
    && SameDomain(lib, base, u)
  }

  /** Fetches happen once per URL, and only for visited URLs. */
  ghost predicate FetchedOnce(fetched: seq<string>, visited: set<string>) {
    Distinct(fetched) && forall i | 0 <= i < |fetched| :: fetched[i] in visited
  }

  /** Entering a new URL at depth 0 as the seed, or one level below a visited parent that links to it, keeps the walk sound. */
  lemma SoundInsert(lib: UrlLibrary, base: ParsedUrl, maxDepth: nat, visited: set<string>,
    depthOf: map<string, nat>, parentOf: map<string, string>, pages: map<string, seq<string>>,
    url: string, depth: nat, parent: string)
    requires Sound(lib, base, maxDepth, visited, depthOf, parentOf, pages)
    requires url !in visited && depth <= maxDepth
    requires depth == 0 ==> url == base.serialized
    requires depth > 0 ==> (parent in depthOf && depthOf[parent] == depth - 1
      && parent in pages && url in pages[parent] && SameDomain(lib, base, url))
    ensures Sound(lib, base, maxDepth, visited + {url}, depthOf[url := depth],
      if depth > 0 then parentOf[url := parent] else parentOf, pages)
  {
    var d := depthOf[url := depth];
    var p := if depth > 0 then parentOf[url := parent] else parentOf;
    assert d.Keys == visited + {url};
    forall u | u in visited + {url} && u != base.serialized
      ensures Reached(lib, base, u, d, p, pages)
    {
      if u != url {
        assert Reached(lib, base, u, depthOf, parentOf, pages);
      }
    }
  }

  /** Recording more pages keeps every URL reached. */
  lemma SoundMorePages(lib: UrlLibrary, base: ParsedUrl, maxDepth: nat, visited: set<string>,
    depthOf: map<string, nat>, parentOf: map<string, string>, pages: map<string, seq<string>>,
    more: map<string, seq<string>>)
    requires Sound(lib, base, maxDepth, visited, depthOf, parentOf, pages)
    requires Extends(pages, more)
    ensures Sound(lib, base, maxDepth, visited, depthOf, parentOf, more)
  {
    forall u | u in visited && u != base.serialized
      ensures Reached(lib, base, u, depthOf, parentOf, more)
    {
      assert Reached(lib, base, u, depthOf, parentOf, pages);
    }
  }

  /** How a call ends: normally, with an error, or blocked forever on a semaphore with no permits. */
  datatype Outcome = Done | Aborted(error: ScanError) | Stalled

  /** What `crawl` yields, when it returns at all. */
  datatype CrawlResult = Returned(result: Result<seq<string>, ScanError>) | NeverReturns

  class Crawler {
    const web: Web
    const base: ParsedUrl
    const maxDepth: nat
    const maxConcurrent: nat
    var visited: set<string>
    var discovered: set<string>
    /** The GET requests sent, in order. */
    ghost var fetched: seq<string>
    /** The depth each visited URL was entered at, and the page it was linked from. */
    ghost var depthOf: map<string, nat>
    ghost var parentOf: map<string, string>
    /** The links of each page expanded so far. */
    ghost var pages: map<string, seq<string>>

    /** The seed: the serialisation of the parsed base URL (`base_url.as_str()`). */
    function Seed(): string
      reads this
    {
      base.serialized
    }

    ghost predicate Valid()
      reads this
    {
      visited == discovered
      && Sound(web.lib, base, maxDepth, visited, depthOf, parentOf, pages)
      && Faithful(web, pages)
      && FetchedOnce(fetched, visited)
    }

    constructor (web: Web, base: ParsedUrl, maxDepth: nat, maxConcurrent: nat)
      ensures Valid()
      ensures this.web == web && this.base == base
      ensures this.maxDepth == maxDepth && this.maxConcurrent == maxConcurrent
      ensures visited == {} && fetched == []
    {
      this.web := web;
      this.base := base;
      this.maxDepth := maxDepth;
      this.maxConcurrent := maxConcurrent;
      visited := {};
      discovered := {};
      fetched := [];
      depthOf := map[];
      parentOf := map[];
      pages := map[];
    }

    /**
     * `crawl_recursive`. A call beyond the maximum depth or for a visited URL changes nothing.
     * Otherwise the URL is marked visited and discovered, fetched once, and, when the response
     * is HTML, the unvisited same-domain links (checked before any child runs) are crawled one
     * level deeper, in order, their outcomes ignored. A fetch error or a non-HTML page ends the
     * branch normally. `parent` is the page that linked here.
     */
    method CrawlRecursive(url: string, depth: nat, ghost parent: string) returns (o: Outcome)
      requires Valid()
      requires depth == 0 ==> url == Seed()
      requires depth > 0 ==> (parent in depthOf && depthOf[parent] == depth - 1
        && parent in pages && url in pages[parent] && SameDomain(web.lib, base, url))
      modifies this
      decreases maxDepth + 1 - depth, 3
      ensures Valid()
      ensures old(visited) <= visited && old(fetched) <= fetched
      ensures Extends(old(depthOf), depthOf) && Extends(old(pages), pages)
      ensures (depth > maxDepth || url in old(visited)) ==>
        (o == Done && visited == old(visited) && fetched == old(fetched))
      ensures (depth <= maxDepth && url !in old(visited)) ==> (url in visited && depthOf[url] == depth)
      ensures (depth <= maxDepth && url !in old(visited) && maxConcurrent > 0) ==>
        (|fetched| > |old(fetched)| && fetched[|old(fetched)|] == url)
      ensures o.Stalled? <==> (depth <= maxDepth && url !in old(visited) && maxConcurrent == 0)
      ensures o.Stalled? ==> (visited == old(visited) + {url} && fetched == old(fetched))
      ensures (depth <= maxDepth && url !in old(visited) && maxConcurrent > 0
        && (Get(web.net, url).None? || !IsHtml(Get(web.net, url).value))) ==>
        (o == Done && visited == old(visited) + {url} && fetched == old(fetched) + [url])
      ensures o.Aborted? ==> (o.error.InvalidUrl? && web.lib.parse(url).Failure?
        && visited == old(visited) + {url})
      ensures (depth <= maxDepth && url !in old(visited) && maxConcurrent > 0 && Get(web.net, url).Some?
        && IsHtml(Get(web.net, url).value) && web.lib.parse(url).Success?) ==>
        (o == Done && url in pages
        && pages[url] == ResolveLinks(web.lib, web.lib.parse(url).value, web.parser(Get(web.net, url).value.body))
        && (depth + 1 <= maxDepth ==> forall k | 0 <= k < |pages[url]| && SameDomain(web.lib, base, pages[url][k]) ::
          pages[url][k] in visited))
    {
      if depth > maxDepth {
        return Done;
      }
      if url in visited {
        return Done;
      }
      Enter(url, depth, parent);
      if maxConcurrent == 0 {
        return Stalled;
      }
      ghost var entered := depthOf;
      o := Visit(url, depth);
      ExtendsTrans(old(depthOf), entered, depthOf);
      assert old(fetched) + [url] <= fetched;
    }

    /** The insertion of a new URL into `visited` and `discovered`, at its depth. */
    method Enter(url: string, depth: nat, ghost parent: string)
      requires Valid() && url !in visited && depth <= maxDepth
      requires depth == 0 ==> url == Seed()
      requires depth > 0 ==> (parent in depthOf && depthOf[parent] == depth - 1
        && parent in pages && url in pages[parent] && SameDomain(web.lib, base, url))
      modifies this
      ensures Valid()
      ensures visited == old(visited) + {url} && fetched == old(fetched) && pages == old(pages)
      ensures Extends(old(depthOf), depthOf) && url in depthOf && depthOf[url] == depth
    {
      SoundInsert(web.lib, base, maxDepth, visited, depthOf, parentOf, pages, url, depth, parent);
      visited := visited + {url};
      discovered := discovered + {url};
      depthOf := depthOf[url := depth];
      if depth > 0 {
        parentOf := parentOf[url := parent];
      }
    }

    /**
     * The part of `crawl_recursive` after the permit is taken: one fetch; a failed fetch or a
     * non-HTML response ends the branch; otherwise the page's links are extracted (an
     * unparseable page URL is an InvalidUrl error) and the queued ones crawled.
     */
    method Visit(url: string, depth: nat) returns (o: Outcome)
      requires Valid() && maxConcurrent > 0
      requires depth <= maxDepth && url in depthOf && depthOf[url] == depth && url !in fetched
      modifies this
      decreases maxDepth + 1 - depth, 2
      ensures Valid()
      ensures old(visited) <= visited && old(fetched) + [url] <= fetched
      ensures Extends(old(depthOf), depthOf) && Extends(old(pages), pages)
      ensures !o.Stalled?
      ensures (Get(web.net, url).None? || !IsHtml(Get(web.net, url).value)) ==>
        (o == Done && visited == old(visited) && fetched == old(fetched) + [url])
      ensures o.Aborted? ==> (o.error.InvalidUrl? && web.lib.parse(url).Failure?
        && visited == old(visited))
      ensures (Get(web.net, url).Some? && IsHtml(Get(web.net, url).value) && web.lib.parse(url).Success?) ==>
        (o == Done && url in pages
        && pages[url] == ResolveLinks(web.lib, web.lib.parse(url).value, web.parser(Get(web.net, url).value.body))
        && (depth + 1 <= maxDepth ==> forall k | 0 <= k < |pages[url]| && SameDomain(web.lib, base, pages[url][k]) ::
          pages[url][k] in visited))
    {
      fetched := fetched + [url];
      var response := Get(web.net, url);
      if response.None? || !IsHtml(response.value) {
        return Done;
      }
      var extracted := ExtractLinks(web, response.value.body, url);
      if extracted.Failure? {
        return Aborted(extracted.error);
      }
      var links := extracted.value;
      assert PageLinks(web, url) == Some(links);
      ghost var more := pages[url := links];
      assert Extends(pages, more) by {
        if url in pages {
          assert PageLinks(web, url) == Some(pages[url]);
        }
      }
      SoundMorePages(web.lib, base, maxDepth, visited, depthOf, parentOf, pages, more);
      pages := more;
      var tasks := QueueLinks(links);
      ghost var queuedAt := visited;
      CrawlChildren(url, depth, tasks);
      forall k | 0 <= k < |links| && SameDomain(web.lib, base, links[k])
        ensures depth + 1 <= maxDepth ==> links[k] in visited
      {
        FollowedMember(web.lib, base, links, queuedAt, links[k]);
      }
      return Done;
    }

    /** The first loop of `crawl_recursive`: the links to follow, checked before any child runs. */
    method QueueLinks(links: seq<string>) returns (tasks: seq<string>)
      ensures tasks == Followed(web.lib, base, links, visited)
    {
      tasks := [];
      var i := 0;
      while i < |links|
        invariant 0 <= i <= |links|
        invariant tasks == Followed(web.lib, base, links[..i], visited)
      {
        if links[i] !in visited && SameDomain(web.lib, base, links[i]) {
          tasks := tasks + [links[i]];
        }
        assert links[..i + 1] == links[..i] + [links[i]];
        i := i + 1;
      }
      assert links[..i] == links;
    }

    /**
     * The second loop of `crawl_recursive`: each queued link crawled one level deeper, in order,
     * its outcome discarded.
     */
    method CrawlChildren(url: string, depth: nat, tasks: seq<string>)
      requires Valid() && maxConcurrent > 0
      requires depth <= maxDepth && url in depthOf && depthOf[url] == depth && url in pages
      requires forall t | t in tasks :: t in pages[url] && SameDomain(web.lib, base, t)
      modifies this
      decreases maxDepth + 1 - depth, 1
      ensures Valid()
      ensures old(visited) <= visited && old(fetched) <= fetched
      ensures Extends(old(depthOf), depthOf) && Extends(old(pages), pages)
      ensures depth + 1 <= maxDepth ==> forall k | 0 <= k < |tasks| :: tasks[k] in visited
      ensures (depth + 1 <= maxDepth && |tasks| > 0 && tasks[0] !in old(visited)) ==>
        tasks[0] in depthOf && depthOf[tasks[0]] == depth + 1
    {
      ghost var firstNew := depth + 1 <= maxDepth && |tasks| > 0 && tasks[0] !in visited;
      var j := 0;
      while j < |tasks|
        invariant 0 <= j <= |tasks|
        invariant Valid()
        invariant url in depthOf && depthOf[url] == depth && url in pages && pages[url] == old(pages)[url]
        invariant old(visited) <= visited && old(fetched) <= fetched
        invariant Extends(old(depthOf), depthOf) && Extends(old(pages), pages)
        invariant depth + 1 <= maxDepth ==> forall k | 0 <= k < j :: tasks[k] in visited
        invariant j == 0 && firstNew ==> tasks[0] !in visited
        invariant j > 0 && firstNew ==> tasks[0] in depthOf && depthOf[tasks[0]] == depth + 1
      {
        AwaitTask(url, depth, tasks[j]);
        j := j + 1;
      }
    }

    /**
     * Awaiting one queued child: the crawl of `t` one level below `url`, its outcome discarded.
     * Afterwards `t` is visited unless it lies beyond the maximum depth, and a `t` that was new
     * is entered one level below `url`.
     */
    method AwaitTask(url: string, depth: nat, t: string)
      requires Valid() && maxConcurrent > 0
      requires depth <= maxDepth && url in depthOf && depthOf[url] == depth && url in pages
      requires t in pages[url] && SameDomain(web.lib, base, t)
      modifies this
      decreases maxDepth + 1 - depth, 0
      ensures Valid()
      ensures old(visited) <= visited && old(fetched) <= fetched
      ensures Extends(old(depthOf), depthOf) && Extends(old(pages), pages)
      ensures depth + 1 <= maxDepth ==> t in visited
      ensures (depth + 1 <= maxDepth && t !in old(visited)) ==> t in depthOf && depthOf[t] == depth + 1
    {
      var _ := CrawlRecursive(t, depth + 1, url);
    }

    /** `get_discovered_urls`: the discovered set as a list, in no particular order. */
    method DiscoveredUrls() returns (urls: seq<string>)
      ensures Distinct(urls)
      ensures forall u :: u in urls <==> u in discovered
    {
      urls := [];
      var rest := discovered;
      while rest != {}
        invariant rest <= discovered
        invariant Distinct(urls)
        invariant forall u :: u in urls <==> u in discovered && u !in rest
        decreases |rest|
      {
        var u :| u in rest;
        urls := urls + [u];
        rest := rest - {u};
      }
    }

    /**
     * `crawl`: the walk from the seed at depth 0, then the discovered URLs. With no permits the
     * first fetch waits forever.
     */
    method Crawl() returns (r: CrawlResult)
      requires Valid()
      modifies this
      ensures Valid()
      ensures Seed() in visited
      ensures Seed() !in old(visited) ==> depthOf[Seed()] == 0
      ensures r.NeverReturns? <==> maxConcurrent == 0 && Seed() !in old(visited)
      ensures r.Returned? && r.result.Success? ==>
        Distinct(r.result.value) && forall u :: u in r.result.value <==> u in discovered
      ensures r.Returned? && r.result.Failure? ==> r.result.error.InvalidUrl?
    {
      var o := CrawlRecursive(Seed(), 0, Seed());
      match o
      case Stalled =>
        return NeverReturns;
      case Aborted(e) =>
        return Returned(Failure(e));
      case Done =>
        var urls := DiscoveredUrls();
        return Returned(Success(urls));
    }
  }

  /**
   * `Crawler::new`: fails with InvalidUrl when the seed does not parse; otherwise a crawler with
   * nothing visited yet.
   */
  method NewCrawler(web: Web, baseUrl: string, maxDepth: nat, maxConcurrent: nat)
    returns (r: Result<Crawler, ScanError>)
    ensures web.lib.parse(baseUrl).Failure? ==> r == Failure(InvalidUrl(web.lib.parse(baseUrl).error))
    ensures web.lib.parse(baseUrl).Success? ==> (r.Success? && fresh(r.value) && r.value.Valid()
      && r.value.base == web.lib.parse(baseUrl).value && r.value.web == web
      && r.value.maxDepth == maxDepth && r.value.maxConcurrent == maxConcurrent
      && r.value.visited == {} && r.value.fetched == [])
  {
    match web.lib.parse(baseUrl)
    case Failure(e) =>
      return Failure(InvalidUrl(e));
    case Success(base) =>
      var c := new Crawler(web, base, maxDepth, maxConcurrent);
      return Success(c);
  }

  /**
   * Soundness: in a consistent state every visited URL is the end of a chain of links from the
   * seed whose length is its depth, at most the maximum depth.
   */
  lemma {:induction false} LinkPath(web: Web, base: ParsedUrl, maxDepth: nat, visited: set<string>,
    depthOf: map<string, nat>, parentOf: map<string, string>, pages: map<string, seq<string>>, u: string)
    returns (path: seq<string>)
    requires Sound(web.lib, base, maxDepth, visited, depthOf, parentOf, pages) && Faithful(web, pages)
    requires base.serialized in depthOf && depthOf[base.serialized] == 0
    requires u in visited
    ensures |path| == depthOf[u] + 1 <= maxDepth + 1
    ensures path[0] == base.serialized && path[|path| - 1] == u
    ensures forall i | 0 <= i < |path| :: path[i] in visited
    ensures forall i | 0 < i < |path| :: Linked(web, path[i - 1], path[i]) && SameDomain(web.lib, base, path[i])
    decreases depthOf[u]
  {
    if u == base.serialized {
      path := [u];
    } else {
      assert Reached(web.lib, base, u, depthOf, parentOf, pages);
      var p := parentOf[u];
      assert PageLinks(web, p) == Some(pages[p]);
      assert p in visited && Linked(web, p, u);
      var prefix := LinkPath(web, base, maxDepth, visited, depthOf, parentOf, pages, p);
      path := prefix + [u];
      assert path[|path| - 1] == u && path[|path| - 2] == p;
      forall i | 0 <= i < |path|
        ensures path[i] in visited
      {
        if i < |prefix| {
          assert path[i] == prefix[i];
        }
      }
      forall i | 0 < i < |path|
        ensures Linked(web, path[i - 1], path[i]) && SameDomain(web.lib, base, path[i])
      {
        if i < |prefix| {
          assert path[i] == prefix[i] && path[i - 1] == prefix[i - 1];
        }
      }
    }
  }
}
