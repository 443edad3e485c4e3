/**
 * The data the scraper works on, and the outside world it talks to.
 *
 * The network, BeautifulSoup, pypdf, `urljoin` and `urlparse` are not modelled;
 * what the scraper sees of them is a `Site`: a value of function fields, one per
 * question the scraper asks.
 */
module Web {

  datatype Option<+T> = None | Some(value: T)

  /** The value of an `Option` as a sequence of zero or one element. */
  function AsSeq<T>(o: Option<T>): (r: seq<T>)
    ensures |r| <= 1
    ensures o.Some? ==> r == [o.value]
    ensures o.None? ==> r == []
  {
    if o.Some? then [o.value] else []
  }

  /**
   * The outcome of one GET request and of parsing its body. `Failed` stands for
   * any exception raised on the way (connection error, timeout, parser error);
   * otherwise the server answered with `status` and a body.
   */
  datatype Response<+D> = Failed | Http(status: int, body: D)

  /** The statuses for which `requests`' `raise_for_status` raises. */
  predicate IsHttpError(status: int) {
    400 <= status < 600
  }

  /**
   * What the scraper reads from an HTML page: the text of the `<title>`
   * element, the text of the first `div.entry-header` and of the first
   * `div.entry-content` (each as `get_text(strip=True, separator=' ')` gives
   * it), and the `href` of every `<a href=...>`, in document order.
   */
  datatype HtmlDoc = HtmlDoc(
    title: Option<string>,
    header: Option<string>,
    content: Option<string>,
    hrefs: seq<string>)

  /** What pypdf gives of a PDF: the text of each page, or a failure. */
  datatype PdfDoc = Unreadable | Pages(texts: seq<string>)

  /** The `type` entry of a scraped record: `'html'` or `'pdf'`. */
  datatype DocKind = Html | Pdf

  /** A scraped record: the dictionary with keys `title`, `content`, `url`, `type`. */
  datatype Record = Record(title: string, content: string, url: string, kind: DocKind)

  /**
   * The outside world as the scraper sees it:
   * - `page(url)`: GET `url` and parse it as HTML;
   * - `pdf(url)`: GET `url` and read it with pypdf;
   * - `resolve(base, href)`: `urljoin(base, href)`, or `None` when it raises
   *   (a malformed `href` such as an unclosed IPv6 bracket);
   * - `urlPath(url)`: `urlparse(url).path`, or `None` when it raises.
   */
  datatype Site = Site(
    page: string -> Response<HtmlDoc>,
    pdf: string -> Response<PdfDoc>,
    resolve: (string, string) -> Option<string>,
    urlPath: string -> Option<string>)

  /** The scraper's configuration constants. */
  const BASE_URL: string := "https://www.uqac.ca/mgestion/"
  const MAX_PAGES: int := 250
  const CHUNK_SIZE: nat := 1000
  const CHUNK_OVERLAP: nat := 200
  const PERSIST_DIRECTORY: string := "./chroma_db"
}
