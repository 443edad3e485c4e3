/** `PDFScraper`: the record of a PDF document. */
module PdfScraper {
  import opened Text
  import opened Web

  /**
   * `extract_pdf_content(url)`: `None` when the download fails, the status is
   * an HTTP error, pypdf cannot read the file or `urlparse` raises; otherwise
   * a `'pdf'` record for `url`.
   */
  function PdfRecord(site: Site, url: string): Option<Record>
  {
    match site.pdf(url)
    case Failed => None
    case Http(status, doc) =>
      if IsHttpError(status) then None
      else match doc
        case Unreadable => None
        case Pages(texts) =>
          match site.urlPath(url)
          case None => None
          case Some(path) => Some(Record(Basename(path), Join("\n", texts), url, Pdf))
  }

  /**
   * A PDF gives a record exactly when it was downloaded with a status that is
   * not an HTTP error, pypdf could read it and its URL could be parsed. The record is a `'pdf'` record
   * for `url`. Its title holds no `/`, ends the URL's path, and starts right
   * after its last `/` (so it is empty when the path ends in `/`). Its content
   * is the page texts in page order, one newline between two pages, so it is
   * as long as the pages plus one character between each two.
   */
  lemma PdfRecordSpec(site: Site, url: string)
    ensures var r := PdfRecord(site, url);
      r.Some? <==>
        && site.pdf(url).Http? && !IsHttpError(site.pdf(url).status) && site.pdf(url).body.Pages?
        && site.urlPath(url).Some?
    ensures var r := PdfRecord(site, url);
      r.Some? ==>
        var path := site.urlPath(url).value;
        var texts := site.pdf(url).body.texts;
        && r.value.url == url
        && r.value.kind == Pdf
        && '/' !in r.value.title
        && EndsWith(path, r.value.title)
        && (|r.value.title| == |path| || path[|path| - |r.value.title| - 1] == '/')
        && (path != [] && path[|path| - 1] == '/' ==> r.value.title == [])
        && r.value.content == Join("\n", texts)
        && (texts != [] ==> |r.value.content| == TotalLength(texts) + |texts| - 1)
  {
    if PdfRecord(site, url).Some? {
      var texts := site.pdf(url).body.texts;
      var path := site.urlPath(url).value;
      var title := Basename(path);
      assert path[|path| - |title|..] == title;
      if texts != [] {
        JoinLength("\n", texts);
      }
    }
  }
}
