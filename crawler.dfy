/**
 * `ManuelScraperPipeline`: the budget-bounded breadth-first crawl of the site
 * and the hand-over of the collected records to the vector store.
 */
module Crawler {
  import opened Seqs
  import opened Text
  import opened Web
  import opened HtmlScraper
  import opened PdfScraper
  import VectorStore

  /** `url.lower().endswith('.pdf')`: the whole URL, query and fragment included. */
  predicate IsPdf(url: string) {
    EndsWith(Lower(url), ".pdf")
  }

  /** The routing test looks only at the last four characters, in either case. */
  lemma IsPdfLastFour(url: string)
    ensures IsPdf(url) <==>
      var n := |url|;
      && n >= 4
      && url[n - 4] == '.'
      && (url[n - 3] == 'p' || url[n - 3] == 'P')
      && (url[n - 2] == 'd' || url[n - 2] == 'D')
      && (url[n - 1] == 'f' || url[n - 1] == 'F')
  {
    var n := |url|;
    if n >= 4 {
      var tail := Lower(url)[n - 4..];
      assert tail == [LowerChar(url[n - 4]), LowerChar(url[n - 3]), LowerChar(url[n - 2]), LowerChar(url[n - 1])];
    }
  }

  /** The record a visited URL contributes, if any: PDF URLs go to the PDF extractor, the others to the HTML one. */
  function Extract(site: Site, url: string): Option<Record>
  {
    if IsPdf(url) then PdfRecord(site, url) else PageRecord(site, url)
  }

  /** The records collected from `urls` visited in that order. */
  function Collect(site: Site, urls: seq<string>): seq<Record>
  {
    if urls == [] then [] else Collect(site, urls[..|urls| - 1]) + AsSeq(Extract(site, urls[|urls| - 1]))
  }

  /** At most one record per visited URL. */
  lemma {:induction false} CollectBound(site: Site, urls: seq<string>)
    ensures |Collect(site, urls)| <= |urls|
  {
    if urls != [] {
      CollectBound(site, urls[..|urls| - 1]);
    }
  }

  /**
   * The inner loop of `scrape_all`: append each link that is neither visited
   * nor already waiting, in the order the links come.
   */
  function Enqueue(frontier: seq<string>, visited: set<string>, links: seq<string>): seq<string>
    decreases |links|
  {
    if links == [] then frontier
    else
      var link := links[0];
      var next := if link !in visited && link !in frontier then frontier + [link] else frontier;
      Enqueue(next, visited, links[1..])
  }

  /** The inner loop only appends to the frontier, and only links that are not visited. */
  lemma {:induction false} EnqueueAppends(frontier: seq<string>, visited: set<string>, links: seq<string>)
    ensures var r := Enqueue(frontier, visited, links);
      && |frontier| <= |r|
      && r == frontier + r[|frontier|..]
      && (forall x :: x in r[|frontier|..] ==> x in links && x !in visited)
    decreases |links|
  {
    if links != [] {
      var link := links[0];
      var next := if link !in visited && link !in frontier then frontier + [link] else frontier;
      EnqueueAppends(next, visited, links[1..]);
      var r := Enqueue(next, visited, links[1..]);
      var appended := next[|frontier|..];
      assert next == frontier + appended;
      assert r[|frontier|..] == appended + r[|next|..];
      assert forall x :: x in appended ==> x == link && x !in visited;
    }
  }

  /** The inner loop keeps the frontier free of duplicates. */
  lemma {:induction false} EnqueueNoDup(frontier: seq<string>, visited: set<string>, links: seq<string>)
    requires NoDup(frontier)
    ensures NoDup(Enqueue(frontier, visited, links))
    decreases |links|
  {
    if links != [] {
      var link := links[0];
      if link !in visited && link !in frontier {
        NoDupAppend(frontier, [link]);
        EnqueueNoDup(frontier + [link], visited, links[1..]);
      } else {
        EnqueueNoDup(frontier, visited, links[1..]);
      }
    }
  }

  /** After the inner loop, every waiting URL still waits and every link is visited or waiting. */
  lemma {:induction false} EnqueueCovers(frontier: seq<string>, visited: set<string>, links: seq<string>)
    ensures forall u :: u in frontier ==> u in Enqueue(frontier, visited, links)
    ensures forall u :: u in links ==> u in visited || u in Enqueue(frontier, visited, links)
    decreases |links|
  {
    if links != [] {
      var link := links[0];
      var next := if link !in visited && link !in frontier then frontier + [link] else frontier;
      EnqueueCovers(next, visited, links[1..]);
      assert link in visited || link in next;
      assert forall u :: u in links ==> u == link || u in links[1..];
    }
  }

  /**
   * The crawl state: the list `urls_to_visit`, the set `visited`, and two
   * logs that `scrape_all` does not keep: the URLs in the order they were visited,
   * and the records appended to `scraped_data` during this crawl.
   */
  datatype State = State(frontier: seq<string>, visited: set<string>, order: seq<string>, records: seq<Record>)

  /** The state before the loop: only the start URL waits. */
  function Init(start: string): State
  {
    State([start], {}, [], [])
  }

  /** The body of the loop for a URL `url` just taken off the front of the frontier and not yet visited. */
  function Visit(site: Site, base: string, s: State, url: string): State
  {
    var visited := s.visited + {url};
    var order := s.order + [url];
    if IsPdf(url) then
      State(s.frontier, visited, order, s.records + AsSeq(PdfRecord(site, url)))
    else
      State(Enqueue(s.frontier, visited, SiteLinks(site, base, url)), visited, order,
            s.records + AsSeq(PageRecord(site, url)))
  }

  /** The `while` loop of `scrape_all`, run from state `s` until it stops. */
  function Crawl(site: Site, base: string, maxPages: int, s: State): State
    decreases maxPages - |s.visited|, |s.frontier|
  {
    if s.frontier == [] || |s.visited| >= maxPages then s
    else
      var url := s.frontier[0];
      var popped := s.(frontier := s.frontier[1..]);
      if url in s.visited then Crawl(site, base, maxPages, popped)
      else
        assert |s.visited + {url}| == |s.visited| + 1;
        Crawl(site, base, maxPages, Visit(site, base, popped, url))
  }

  /** The links a visit harvests: those of an HTML page; a PDF page has none. */
  function PageLinks(site: Site, base: string, url: string): seq<string>
  {
    if IsPdf(url) then [] else SiteLinks(site, base, url)
  }

  /** The links harvested from the pages among `order`. */
  function Harvested(site: Site, base: string, order: seq<string>): set<string>
  {
    if order == [] then {}
    else Harvested(site, base, order[..|order| - 1]) + Elems(PageLinks(site, base, order[|order| - 1]))
  }

  /** Every harvested link contains the base URL. */
  lemma {:induction false} HarvestedSameSite(site: Site, base: string, order: seq<string>)
    ensures forall u :: u in Harvested(site, base, order) ==> IsSubstring(base, u)
  {
    if order != [] {
      HarvestedSameSite(site, base, order[..|order| - 1]);
      SiteLinksSpec(site, base, order[|order| - 1]);
    }
  }

  /** The links of every HTML page among `order` are harvested. */
  lemma {:induction false} HarvestedCovers(site: Site, base: string, order: seq<string>)
    ensures forall p, u :: p in order && !IsPdf(p) && u in SiteLinks(site, base, p) ==>
      u in Harvested(site, base, order)
  {
    if order != [] {
      var init := order[..|order| - 1];
      HarvestedCovers(site, base, init);
      assert order == init + [order[|order| - 1]];
    }
  }

  /** The discovery log: every URL ever put in the frontier, in the order it was put there. */
  function Log(s: State): seq<string>
  {
    s.order + s.frontier
  }

  /** One turn of the loop that visits the URL at the front of the frontier. */
  function Step(site: Site, base: string, s: State): State
    requires s.frontier != []
  {
    Visit(site, base, s.(frontier := s.frontier[1..]), s.frontier[0])
  }

  /**
   * The discovery log has no duplicates (so neither has the frontier, and it
   * shares nothing with `visited`) and starts with the seed; `visited` holds
   * exactly the URLs of `order`.
   */
  ghost predicate LogInv(seed: string, s: State) {
    && NoDup(Log(s))
    && |Log(s)| >= 1 && Log(s)[0] == seed
    && (forall u :: u in s.visited <==> u in s.order)
    && |s.visited| == |s.order|
  }

  /** The records are those of the visited URLs, in visiting order. */
  ghost predicate RecordsInv(site: Site, s: State) {
    s.records == Collect(site, s.order)
  }

  /**
   * Every logged URL but the seed was harvested from a visited page, and
   * every link harvested so far is logged.
   */
  ghost predicate HarvestInv(site: Site, base: string, s: State) {
    && (forall i :: 1 <= i < |Log(s)| ==> Log(s)[i] in Harvested(site, base, s.order))
    && (forall u :: u in Harvested(site, base, s.order) ==> u in Log(s))
  }

  /** What holds of the crawl state at every turn of the loop. */
  ghost predicate Inv(site: Site, base: string, seed: string, s: State) {
    LogInv(seed, s) && RecordsInv(site, s) && HarvestInv(site, base, s)
  }

  /** Before the first turn the invariant holds: the seed alone is logged and nothing is visited. */
  lemma InitInv(site: Site, base: string, seed: string)
    ensures Inv(site, base, seed, Init(seed))
  {
    assert Log(Init(seed)) == [seed];
  }

  /** What the invariant says of the visited URLs and the frontier separately. */
  lemma LogInvParts(seed: string, s: State)
    requires LogInv(seed, s)
    ensures NoDup(s.order) && NoDup(s.frontier)
    ensures forall u :: u in s.frontier ==> u !in s.visited
  {
    NoDupSplit(s.order, s.frontier);
  }

  /**
   * `t` is the state after visiting the front URL of `s`, unvisited so far:
   * the URL joins the visited ones and the visiting order, its record (if
   * any) the records, and the frontier becomes the rest of it followed by
   * the links of the page that are neither visited nor already waiting.
   */
  ghost predicate IsStep(site: Site, base: string, s: State, t: State) {
    && s.frontier != []
    && s.frontier[0] !in s.visited
    && |s.frontier| - 1 <= |t.frontier|
    && t.order == s.order + [s.frontier[0]]
    && t.visited == s.visited + {s.frontier[0]}
    && t.records == s.records + AsSeq(Extract(site, s.frontier[0]))
    && t.frontier == s.frontier[1..] + t.frontier[|s.frontier| - 1..]
    && NoDup(t.frontier)
    && (forall x :: x in t.frontier[|s.frontier| - 1..] ==>
          x in PageLinks(site, base, s.frontier[0]) && x !in t.visited)
    && (forall u :: u in PageLinks(site, base, s.frontier[0]) ==> u in t.visited || u in t.frontier)
  }

  /** A visit of an unvisited URL at the front of a duplicate-free frontier is such a step. */
  lemma StepShape(site: Site, base: string, s: State)
    requires s.frontier != [] && s.frontier[0] !in s.visited && NoDup(s.frontier)
    ensures IsStep(site, base, s, Step(site, base, s))
  {
    var url := s.frontier[0];
    var rest := s.frontier[1..];
    var visited := s.visited + {url};
    NoDupSlice(s.frontier, 1, |s.frontier|);
    var t := Step(site, base, s);
    if IsPdf(url) {
      assert t == State(rest, visited, s.order + [url], s.records + AsSeq(PdfRecord(site, url)));
      assert t.frontier[|rest|..] == [];
    } else {
      var links := SiteLinks(site, base, url);
      assert t == State(Enqueue(rest, visited, links), visited, s.order + [url], s.records + AsSeq(PageRecord(site, url)));
      EnqueueAppends(rest, visited, links);
      EnqueueNoDup(rest, visited, links);
      EnqueueCovers(rest, visited, links);
    }
  }

  /** A step keeps `LogInv` and only appends to the log, and what it appends are links of the visited page. */
  lemma StepLogInv(site: Site, base: string, seed: string, s: State, t: State)
    requires LogInv(seed, s) && IsStep(site, base, s, t)
    ensures LogInv(seed, t)
    ensures Log(s) <= Log(t)
    ensures forall x :: x in Log(t)[|Log(s)|..] ==> x in PageLinks(site, base, s.frontier[0])
  {
    var url := s.frontier[0];
    var rest := s.frontier[1..];
    var added := t.frontier[|rest|..];
    NoDupSplit(rest, added);
    assert Log(s) == s.order + [url] + rest;
    assert Log(t) == Log(s) + added;
    NoDupAppend(Log(s), added);
    assert Log(t)[|Log(s)|..] == added;
  }

  /** A step keeps `RecordsInv`. */
  lemma StepRecordsInv(site: Site, base: string, s: State, t: State)
    requires RecordsInv(site, s) && IsStep(site, base, s, t)
    ensures RecordsInv(site, t)
  {
    assert t.order[..|t.order| - 1] == s.order;
  }

  /** A step keeps `HarvestInv`. */
  lemma StepHarvestInv(site: Site, base: string, seed: string, s: State, t: State)
    requires LogInv(seed, s) && HarvestInv(site, base, s) && IsStep(site, base, s, t)
    ensures HarvestInv(site, base, t)
  {
    var url := s.frontier[0];
    StepLogInv(site, base, seed, s, t);
    assert t.order[..|t.order| - 1] == s.order;
    assert Harvested(site, base, t.order) == Harvested(site, base, s.order) + Elems(PageLinks(site, base, url));
    forall i | 1 <= i < |Log(t)|
      ensures Log(t)[i] in Harvested(site, base, t.order)
    {
      if i < |Log(s)| {
        assert Log(t)[i] == Log(s)[i];
      } else {
        assert Log(t)[i] in Log(t)[|Log(s)|..];
      }
    }
    forall u | u in Harvested(site, base, t.order)
      ensures u in Log(t)
    {
      if u in Harvested(site, base, s.order) {
        assert u in Log(s);
      } else {
        assert u in t.visited || u in t.frontier;
      }
    }
  }

  /** A visit keeps the invariant. */
  lemma StepInv(site: Site, base: string, seed: string, s: State)
    requires Inv(site, base, seed, s) && s.frontier != []
    ensures s.frontier[0] !in s.visited
    ensures Inv(site, base, seed, Step(site, base, s))
    ensures Log(s) <= Log(Step(site, base, s))
    ensures Step(site, base, s).order == s.order + [s.frontier[0]]
  {
    LogInvParts(seed, s);
    StepShape(site, base, s);
    var t := Step(site, base, s);
    StepLogInv(site, base, seed, s, t);
    StepRecordsInv(site, base, s, t);
    StepHarvestInv(site, base, seed, s, t);
  }

  /** A turn of the loop that drops an already visited front URL leaves the outcome unchanged. */
  lemma CrawlSkip(site: Site, base: string, maxPages: int, s: State)
    requires s.frontier != [] && |s.visited| < maxPages && s.frontier[0] in s.visited
    ensures Crawl(site, base, maxPages, s) == Crawl(site, base, maxPages, s.(frontier := s.frontier[1..]))
  {
  }

  /** A turn of the loop that visits a PDF URL leaves the outcome unchanged. */
  lemma CrawlPdfTurn(site: Site, base: string, maxPages: int, s: State, data: Option<Record>)
    requires s.frontier != [] && |s.visited| < maxPages && s.frontier[0] !in s.visited
    requires IsPdf(s.frontier[0]) && data == PdfRecord(site, s.frontier[0])
    ensures var url := s.frontier[0];
      Crawl(site, base, maxPages, s)
        == Crawl(site, base, maxPages,
                 State(s.frontier[1..], s.visited + {url}, s.order + [url], s.records + AsSeq(data)))
  {
  }

  /** A turn of the loop that visits an HTML URL leaves the outcome unchanged. */
  lemma CrawlHtmlTurn(site: Site, base: string, maxPages: int, s: State, data: Option<Record>,
                      links: seq<string>, frontier: seq<string>)
    requires s.frontier != [] && |s.visited| < maxPages && s.frontier[0] !in s.visited
    requires !IsPdf(s.frontier[0]) && data == PageRecord(site, s.frontier[0])
    requires links == SiteLinks(site, base, s.frontier[0])
    requires frontier == Enqueue(s.frontier[1..], s.visited + {s.frontier[0]}, links)
    ensures var url := s.frontier[0];
      Crawl(site, base, maxPages, s)
        == Crawl(site, base, maxPages, State(frontier, s.visited + {url}, s.order + [url], s.records + AsSeq(data)))
  {
  }

  /**
   * The budget: the loop stops only with an empty frontier or a spent
   * budget, never goes past a budget that was not already spent, and does
   * nothing from a state whose budget is spent.
   */
  lemma {:induction false} CrawlBudget(site: Site, base: string, maxPages: int, s: State)
    ensures var r := Crawl(site, base, maxPages, s);
      && (r.frontier == [] || |r.visited| >= maxPages)
      && (|s.visited| <= maxPages ==> |r.visited| <= maxPages)
      && (|s.visited| >= maxPages ==> r == s)
    decreases maxPages - |s.visited|, |s.frontier|
  {
    if s.frontier != [] && |s.visited| < maxPages {
      var url := s.frontier[0];
      var popped := s.(frontier := s.frontier[1..]);
      if url in s.visited {
        CrawlBudget(site, base, maxPages, popped);
      } else {
        var t := Visit(site, base, popped, url);
        assert |t.visited| == |s.visited| + 1;
        CrawlBudget(site, base, maxPages, t);
      }
    }
  }

  /**
   * The loop, run from any state satisfying the invariant, keeps it, and
   * only appends to the visiting order and to the discovery log.
   */
  lemma {:induction false} CrawlKeepsInv(site: Site, base: string, maxPages: int, seed: string, s: State)
    requires Inv(site, base, seed, s)
    ensures var r := Crawl(site, base, maxPages, s);
      && Inv(site, base, seed, r)
      && s.order <= r.order
      && Log(s) <= Log(r)
    decreases maxPages - |s.visited|, |s.frontier|
  {
    if s.frontier != [] && |s.visited| < maxPages {
      StepInv(site, base, seed, s);
      var t := Step(site, base, s);
      assert |t.visited| == |s.visited| + 1;
      assert Crawl(site, base, maxPages, s) == Crawl(site, base, maxPages, t);
      CrawlKeepsInv(site, base, maxPages, seed, t);
    }
  }

  /**
   * First in, first out: the crawl only ever appends to the discovery log,
   * so the URLs are visited in the order they were discovered: the URLs a
   * crawl visits are the front of the frontier it started from, then URLs
   * discovered later.
   */
  lemma CrawlIsFifo(site: Site, base: string, maxPages: int, seed: string, s: State)
    requires Inv(site, base, seed, s)
    ensures var r := Crawl(site, base, maxPages, s);
      var k := |r.order| - |s.order|;
      && s.order <= r.order
      && Log(s) <= Log(r)
      && (k <= |s.frontier| ==> r.order == s.order + s.frontier[..k])
      && (k > |s.frontier| ==> s.order + s.frontier <= r.order)
  {
    CrawlKeepsInv(site, base, maxPages, seed, s);
    LogPrefixOrder(s, Crawl(site, base, maxPages, s));
  }

  /** When one visiting order and log extend another's, the new visits are the old frontier's front, then later URLs. */
  lemma LogPrefixOrder(s: State, r: State)
    requires s.order <= r.order && Log(s) <= Log(r)
    ensures var k := |r.order| - |s.order|;
      && (k <= |s.frontier| ==> r.order == s.order + s.frontier[..k])
      && (k > |s.frontier| ==> s.order + s.frontier <= r.order)
  {
    var k := |r.order| - |s.order|;
    if k <= |s.frontier| {
      assert Log(r)[..|r.order|] == r.order;
      assert Log(s)[..|r.order|] == s.order + s.frontier[..k];
    } else {
      assert Log(r)[..|Log(s)|] == Log(s);
      assert r.order[..|Log(s)|] == Log(s);
    }
  }

  /**
   * `scrape_all(seed, maxPages)` from the start:
   * - no URL is visited twice, the final frontier has no duplicates and
   *   nothing visited;
   * - a budget of 0 or less visits nothing, any other budget is respected;
   * - the loop stops only with an empty frontier or a spent budget;
   * - the records are those of the visited URLs, at most one each;
   * - the seed comes first, and every other URL ever discovered contains
   *   the base URL;
   * - every same-site link of every visited HTML page is visited or waiting.
   */
  lemma CrawlFromSeed(site: Site, base: string, maxPages: int, seed: string)
    ensures var r := Crawl(site, base, maxPages, Init(seed));
      && NoDup(r.order) && NoDup(r.frontier)
      && (forall u :: u in r.frontier ==> u !in r.visited)
      && (forall u :: u in r.visited <==> u in r.order)
      && (maxPages <= 0 ==> r.order == [] && r.records == [])
      && (maxPages > 0 ==> |r.visited| <= maxPages)
      && (r.frontier == [] || |r.visited| >= maxPages)
      && r.records == Collect(site, r.order)
      && |r.records| <= |r.visited|
      && |Log(r)| >= 1 && Log(r)[0] == seed
      && (forall i :: 1 <= i < |Log(r)| ==> IsSubstring(base, Log(r)[i]))
      && (forall p, u :: p in r.order && !IsPdf(p) && u in SiteLinks(site, base, p) ==>
            u in r.visited || u in r.frontier)
  {
    var s := Init(seed);
    InitInv(site, base, seed);
    CrawlKeepsInv(site, base, maxPages, seed, s);
    CrawlBudget(site, base, maxPages, s);
    var r := Crawl(site, base, maxPages, s);
    LogInvParts(seed, r);
    CollectBound(site, r.order);
    HarvestedSameSite(site, base, r.order);
    HarvestedCovers(site, base, r.order);
    forall p, u | p in r.order && !IsPdf(p) && u in SiteLinks(site, base, p)
      ensures u in r.visited || u in r.frontier
    {
      assert u in Log(r);
    }
  }

  /** The inner `for` loop of `scrape_all`: append each new link to `urls_to_visit`. */
  method AppendNewLinks(urlsToVisit: seq<string>, visited: set<string>, newLinks: seq<string>)
    returns (r: seq<string>)
    ensures r == Enqueue(urlsToVisit, visited, newLinks)
  {
    r := urlsToVisit;
    for i := 0 to |newLinks|
      invariant Enqueue(r, visited, newLinks[i..]) == Enqueue(urlsToVisit, visited, newLinks)
    {
      var link := newLinks[i];
      assert newLinks[i..][1..] == newLinks[i + 1..];
      if link !in visited && link !in r {
        r := r + [link];
      }
    }
    assert newLinks[|newLinks|..] == [];
  }

  /** `scraped_data`, as the Store receives it. */
  function AsOptions(records: seq<Record>): (r: seq<Option<Record>>)
    ensures |r| == |records|
    ensures forall i :: 0 <= i < |r| ==> r[i] == Some(records[i])
  {
    seq(|records|, i requires 0 <= i < |records| => Some(records[i]))
  }

  /**
   * One turn of the crawl loop of `scrape_all`: take the front URL off
   * `urls_to_visit`; skip it when already visited; otherwise mark it visited,
   * scrape it as a PDF or as a page and, for a page, queue its new site links.
   * The outcome of the whole crawl is unchanged, and `data` is what the turn adds
   * to the collected records.
   */
  method VisitNext(site: Site, base: string, maxPages: int, urlsToVisit: seq<string>, visited: set<string>,
                   ghost order: seq<string>, ghost records: seq<Record>)
    returns (urls': seq<string>, visited': set<string>, ghost order': seq<string>, ghost records': seq<Record>,
             data: Option<Record>)
    requires urlsToVisit != [] && |visited| < maxPages
    ensures Crawl(site, base, maxPages, State(urls', visited', order', records'))
         == Crawl(site, base, maxPages, State(urlsToVisit, visited, order, records))
    ensures records' == records + AsSeq(data)
    ensures (visited' == visited && |urls'| < |urlsToVisit|) || (visited <= visited' && |visited'| == |visited| + 1)
  {
    ghost var s := State(urlsToVisit, visited, order, records);
    var currentUrl := urlsToVisit[0];
    urls' := urlsToVisit[1..];
    if currentUrl in visited {
      CrawlSkip(site, base, maxPages, s);
      visited', order', records', data := visited, order, records, None;
      return;
    }
    visited' := visited + {currentUrl};
    order' := order + [currentUrl];
    if IsPdf(currentUrl) {
      data := PdfRecord(site, currentUrl);
      records' := records + AsSeq(data);
      CrawlPdfTurn(site, base, maxPages, s, data);
    } else {
      data := PageRecord(site, currentUrl);
      records' := records + AsSeq(data);
      var newLinks := FindLinks(site, base, currentUrl);
      urls' := AppendNewLinks(urls', visited', newLinks);
      CrawlHtmlTurn(site, base, maxPages, s, data, newLinks, urls');
    }
  }

  class Pipeline {
    const site: Site
    /** `html_scraper.base_url`. */
    const baseUrl: string
    const vectorStore: VectorStore.Store
    /** `self.scraped_data`. */
    var scrapedData: seq<Record>

    constructor (site: Site, split: string -> seq<string>)
      ensures this.site == site && baseUrl == BASE_URL && scrapedData == []
      ensures fresh(vectorStore) && vectorStore.split == split
      ensures vectorStore.persistDirectory == PERSIST_DIRECTORY && vectorStore.vectorstore == None
    {
      this.site := site;
      baseUrl := BASE_URL;
      vectorStore := new VectorStore.Store(PERSIST_DIRECTORY, split);
      scrapedData := [];
    }

    /**
     * `scrape_all(start_url, max_pages)`: the crawl loop; it appends to
     * `scraped_data` the records `Crawl` collects.
     */
    method ScrapeAll(startUrl: string, maxPages: int)
      modifies this`scrapedData
      ensures scrapedData == old(scrapedData) + Crawl(site, baseUrl, maxPages, Init(startUrl)).records
    {
      var urlsToVisit := [startUrl];
      var visited: set<string> := {};
      ghost var order: seq<string> := [];
      ghost var collected: seq<Record> := [];
      ghost var outcome := Crawl(site, baseUrl, maxPages, Init(startUrl));
      while urlsToVisit != [] && |visited| < maxPages
        invariant Crawl(site, baseUrl, maxPages, State(urlsToVisit, visited, order, collected)) == outcome
        invariant scrapedData == old(scrapedData) + collected
        decreases maxPages - |visited|, |urlsToVisit|
      {
        var data;
        urlsToVisit, visited, order, collected, data := VisitNext(site, baseUrl, maxPages, urlsToVisit, visited, order, collected);
        if data.Some? {
          scrapedData := scrapedData + [data.value];
        }
      }
    }

    /** `store_data()`: hand the scraped records to the vector store. */
    method StoreData()
      modifies vectorStore
      ensures vectorStore.vectorstore
           == Some(VectorStore.Stored(old(vectorStore.vectorstore))
                   + VectorStore.Documents(vectorStore.split, AsOptions(scrapedData)))
    {
      vectorStore.AddDocuments(AsOptions(scrapedData));
    }

    /** `run()`: crawl from the base URL with the default budget, then store. */
    method Run()
      modifies this, vectorStore
      ensures scrapedData == old(scrapedData) + Crawl(site, baseUrl, MAX_PAGES, Init(BASE_URL)).records
      ensures vectorStore.vectorstore
           == Some(VectorStore.Stored(old(vectorStore.vectorstore))
                   + VectorStore.Documents(vectorStore.split, AsOptions(scrapedData)))
    {
      ScrapeAll(BASE_URL, MAX_PAGES);
      StoreData();
    }
  }
}
