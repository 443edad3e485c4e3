/** `HTMLScraper`: the record of an HTML page and its same-site links. */
module HtmlScraper {
  import opened Seqs
  import opened Text
  import opened Web

  /** The title used when a page has no `<title>` element. */
  const UNTITLED: string := "Sans titre"

  /** The record title: the stripped text of `<title>`, or `UNTITLED` without one. */
  function TitleText(title: Option<string>): string
  {
    match title
    case None => UNTITLED
    case Some(t) => Strip(t)
  }

  /** The record content: the header text and the content text, in that order, joined by a space. */
  function BodyText(header: Option<string>, content: Option<string>): string
  {
    Join(" ", AsSeq(header) + AsSeq(content))
  }

  /**
   * `get_page_content(url)`: `None` when the request or the parser fails or
   * the status is an HTTP error; otherwise an `'html'` record for `url`.
   */
  function PageRecord(site: Site, url: string): Option<Record>
  {
    match site.page(url)
    case Failed => None
    case Http(status, doc) =>
      if IsHttpError(status) then None
      else Some(Record(TitleText(doc.title), BodyText(doc.header, doc.content), url, Html))
  }

  /**
   * A page gives a record exactly when it was fetched and parsed and its
   * status is not an HTTP error. The record is an `'html'` record for `url`;
   * its title is the stripped `<title>` text, or `UNTITLED` without one; its
   * content is the header text and the content text, each when present,
   * with one space between them when both are.
   */
  lemma PageRecordSpec(site: Site, url: string)
    ensures var r := PageRecord(site, url);
      r.Some? <==> site.page(url).Http? && !IsHttpError(site.page(url).status)
    ensures var r := PageRecord(site, url);
      r.Some? ==>
        var doc := site.page(url).body;
        && r.value.url == url
        && r.value.kind == Html
        && (doc.title.None? ==> r.value.title == UNTITLED)
        && (doc.title.Some? ==> r.value.title == Strip(doc.title.value))
        && (doc.header.None? && doc.content.None? ==> r.value.content == "")
        && (doc.header.Some? && doc.content.None? ==> r.value.content == doc.header.value)
        && (doc.header.None? && doc.content.Some? ==> r.value.content == doc.content.value)
        && (doc.header.Some? && doc.content.Some? ==>
              r.value.content == doc.header.value + " " + doc.content.value)
  {
    if site.page(url).Http? {
      var doc := site.page(url).body;
      if doc.header.Some? && doc.content.Some? {
        assert AsSeq(doc.header) + AsSeq(doc.content) == [doc.header.value, doc.content.value];
        assert [doc.header.value, doc.content.value][1..] == [doc.content.value];
        assert Join(" ", [doc.content.value]) == doc.content.value;
      }
    }
  }

  /** Every `href` of the page, resolved against `url`; `None` for one `urljoin` rejects. */
  function Resolved(site: Site, url: string, hrefs: seq<string>): (r: seq<Option<string>>)
    ensures |r| == |hrefs|
    ensures forall i :: 0 <= i < |hrefs| ==> r[i] == site.resolve(url, hrefs[i])
  {
    if hrefs == [] then []
    else Resolved(site, url, hrefs[..|hrefs| - 1]) + [site.resolve(url, hrefs[|hrefs| - 1])]
  }

  /**
   * The loop of `find_links` before de-duplication: each `href`, resolved
   * against `url`, kept when it contains `base` as a substring. `None` when
   * `urljoin` raises on some `href`, which ends the loop.
   */
  function SameSite(site: Site, base: string, url: string, hrefs: seq<string>): Option<seq<string>>
  {
    if hrefs == [] then Some([])
    else
      match SameSite(site, base, url, hrefs[..|hrefs| - 1])
      case None => None
      case Some(init) =>
        match site.resolve(url, hrefs[|hrefs| - 1])
        case None => None
        case Some(u) => Some(if IsSubstring(base, u) then init + [u] else init)
  }

  /**
   * The loop gets through exactly when every `href` resolves. The kept links
   * are then exactly the resolved `href`s that contain `base`: each kept
   * link contains it and is a resolved `href`, and each resolved `href`
   * containing it is kept.
   */
  lemma {:induction false} SameSiteSpec(site: Site, base: string, url: string, hrefs: seq<string>)
    ensures SameSite(site, base, url, hrefs).Some? <==> forall h :: h in hrefs ==> site.resolve(url, h).Some?
    ensures SameSite(site, base, url, hrefs).Some? ==>
      var found := SameSite(site, base, url, hrefs).value;
      && (forall u :: u in found ==> IsSubstring(base, u))
      && (forall h :: h in hrefs && IsSubstring(base, site.resolve(url, h).value) ==>
            site.resolve(url, h).value in found)
      && (forall u :: u in found ==> Some(u) in Resolved(site, url, hrefs))
  {
    if hrefs != [] {
      var init := hrefs[..|hrefs| - 1];
      var h := hrefs[|hrefs| - 1];
      SameSiteSpec(site, base, url, init);
      assert hrefs == init + [h];
      assert Resolved(site, url, hrefs) == Resolved(site, url, init) + [site.resolve(url, h)];
    }
  }

  /**
   * What `find_links(url)` returns: `[]` when the request or the parser fails
   * or `urljoin` raises on some `href`; otherwise the same-site links of the
   * page, each once, in the order of their first occurrence. The HTTP status
   * is not looked at.
   */
  function SiteLinks(site: Site, base: string, url: string): seq<string>
  {
    match site.page(url)
    case Failed => []
    case Http(_, doc) =>
      match SameSite(site, base, url, doc.hrefs)
      case None => []
      case Some(found) => Dedup(found)
  }

  /**
   * The links of a page hold no duplicates and all contain `base`; a page
   * that cannot be fetched, or one with an `href` that `urljoin` rejects,
   * has none; otherwise they are exactly the resolved `href`s that contain
   * `base`.
   */
  lemma SiteLinksSpec(site: Site, base: string, url: string)
    ensures var r := SiteLinks(site, base, url);
      && NoDup(r)
      && (forall u :: u in r ==> IsSubstring(base, u))
      && (site.page(url).Failed? ==> r == [])
      && (site.page(url).Http? ==>
            var hrefs := site.page(url).body.hrefs;
            && (forall h :: h in hrefs && site.resolve(url, h).None? ==> r == [])
            && ((forall h :: h in hrefs ==> site.resolve(url, h).Some?) ==>
                  forall h :: h in hrefs && IsSubstring(base, site.resolve(url, h).value) ==>
                    site.resolve(url, h).value in r)
            && (forall u :: u in r ==> Some(u) in Resolved(site, url, hrefs)))
  {
    if site.page(url).Http? {
      var hrefs := site.page(url).body.hrefs;
      SameSiteSpec(site, base, url, hrefs);
      if SameSite(site, base, url, hrefs).Some? {
        DedupSpec(SameSite(site, base, url, hrefs).value);
      }
    }
  }

  /** `HTMLScraper.find_links`: the loop over the page's anchors, then the de-duplication. */
  method FindLinks(site: Site, base: string, url: string) returns (links: seq<string>)
    ensures links == SiteLinks(site, base, url)
  {
    match site.page(url)
    case Failed =>
      links := [];
    case Http(_, doc) =>
      var found: seq<string> := [];
      for i := 0 to |doc.hrefs|
        invariant SameSite(site, base, url, doc.hrefs[..i]) == Some(found)
      {
        var absolute := site.resolve(url, doc.hrefs[i]);
        assert doc.hrefs[..i + 1][..i] == doc.hrefs[..i];
        if absolute.None? {
          SameSiteSpec(site, base, url, doc.hrefs);
          return [];
        }
        if IsSubstring(base, absolute.value) {
          found := found + [absolute.value];
        }
      }
      assert doc.hrefs[..|doc.hrefs|] == doc.hrefs;
      links := Dedup(found);
  }
}
