# UQAC management-manual chatbot: crawler and conversation memory

This project models two parts of the UQAC "Manuel de gestion" retrieval-augmented chatbot:

- **The ingestion pipeline** (`scrapping/scrapper.py`). `ManuelScraperPipeline.scrape_all` crawls breadth-first from the base URL. It visits at most `max_pages` distinct URLs. A URL ending in `.pdf` goes to the PDF extractor. Any other URL goes to the HTML extractor, which also harvests the page's same-site links into the frontier. `store_data` hands every collected record to the vector store. The vector store cuts each record with non-empty content into chunks and stores one document per chunk; a missing record or one with empty content adds nothing.
- **The question-answering session** (`rag_chatbot.py`). The context string numbers the retrieved sources. The history block shows the last three remembered exchanges. The prompt template depends on whether there is a history. The session's `messages` and `conversation_context` are appended to, capped at five exchanges, and cleared.

## Modules

- `web.dfy` (`Web`) holds the scraper's records and configuration constants. It also defines `Site`, a value of function fields that stands for the network, BeautifulSoup, pypdf, `urljoin` and `urlparse`.
- `seqs.dfy` (`Seqs`) holds duplicate-freedom and the order-keeping de-duplication.
- `text.dfy` (`Text`) holds the Python string operations the code uses: `join`, `strip`, `lower`, `endswith`, `in`, `os.path.basename`, `str(n)`, slicing and `replace`.
- `html_scraper.dfy` (`HtmlScraper`) models `get_page_content` and `find_links`.
- `pdf_scraper.dfy` (`PdfScraper`) models `extract_pdf_content`.
- `vector_store.dfy` (`VectorStore`) models `VectorStore.add_documents`, with the `Store` class.
- `crawler.dfy` (`Crawler`) defines the crawl as a function, `Crawl`, and proves its invariants. The `Pipeline` class has the imperative `scrape_all`, proved against `Crawl`, `store_data`, proved against the store's `Documents`, and `run`, proved against both.
- `chatbot.dfy` (`Chatbot`) models the context string, the history block, the template choice, `get_rag_response`, the source preview, and the `Session` class with its two lists.

## Behaviour worth noting

- **Links from error pages.** `find_links` issues its own GET and never checks the status, so links are harvested from a 4xx/5xx page even though `get_page_content` returned no record for it.
- **One bad link empties a page.** When `urljoin` raises on one `href`, `find_links` returns no link at all for that page.
- **Chunking.** `add_documents` splits the whole content of every record with non-empty content; nothing filters sections or chunks by length. The splitter is a parameter of the model.
- **PDF routing.** The `.pdf` test applies to the whole lower-cased URL, query and fragment included.
- **Link order.** `find_links` returns a list with duplicates removed.
- **Page budget.** The default page budget is 250.
- **The `continue` never fires.** From the start URL, the frontier never holds a visited URL, so the already-visited branch of `scrape_all` is never taken.

## Model

| member | source | states |
|---|---|---|
| Text.StripSpec | scrapping/scrapper.py:67 | the stripped title is the slice of the title text between its leading and its trailing whitespace; it neither starts nor ends with whitespace |
| Text.StripIdempotent | scrapping/scrapper.py:67 | stripping a stripped title changes nothing |
| Text.Lower | scrapping/scrapper.py:287 | lower-casing keeps the length and lowers each character in place |
| Crawler.IsPdfLastFour | scrapping/scrapper.py:287 | a URL goes to the PDF extractor exactly when its last four characters are `.pdf` in any mix of cases |
| Text.IsSubstringIff | scrapping/scrapper.py:115 | the `base_url in absolute_url` test holds exactly when the base URL occurs at some offset of the link |
| Text.Basename | scrapping/scrapper.py:173 | the PDF title is the longest suffix of the URL path without a `/`: it has no `/`, and either it is the whole path or a `/` precedes it |
| Text.JoinLength | scrapping/scrapper.py:170 | the joined PDF text is as long as the page texts plus one newline between each two pages |
| HtmlScraper.PageRecordSpec | scrapping/scrapper.py:58-94 | a record exists exactly when the GET and the parse succeed with a non-error status; it carries the URL and the `html` type; its title is the stripped `<title>` text or `Sans titre`; its content is the header text and the content text joined by a space, either one absent, or empty |
| HtmlScraper.Resolved | scrapping/scrapper.py:111-112 | every `href` is made absolute against the page URL, one for one and in order, or is rejected by `urljoin` |
| HtmlScraper.SameSiteSpec | scrapping/scrapper.py:110-116 | the loop gets through exactly when `urljoin` accepts every `href`; the kept links are then exactly the resolved links that contain the base URL |
| Seqs.DedupSpec | scrapping/scrapper.py:118 | de-duplication leaves no duplicate, keeps exactly the same elements and never lengthens the list |
| HtmlScraper.SiteLinksSpec | scrapping/scrapper.py:106-122 | the links of a page are duplicate-free and same-site; a failed request, or an `href` that `urljoin` rejects, gives none; otherwise every same-site link of the page is among them and each of them is a resolved link of the page |
| HtmlScraper.FindLinks | scrapping/scrapper.py:96-122 | the loop over the anchors returns the page's de-duplicated same-site links, and nothing when `urljoin` raises on an `href` |
| PdfScraper.PdfRecordSpec | scrapping/scrapper.py:148-181 | a record exists exactly when the GET succeeds with a non-error status, pypdf reads the file and `urlparse` accepts the URL; it carries the URL and the `pdf` type; its title is the last segment of the URL path (empty when the path ends in `/`); its content is the page texts joined by newlines |
| VectorStore.RecordDocumentsShape | scrapping/scrapper.py:220-233 | a record gives one document per chunk, in chunk order, with the record's URL, title and type and the chunk's ordinal |
| VectorStore.DocumentsAppend | scrapping/scrapper.py:217-233 | the documents of two batches of records are the documents of the first followed by those of the second |
| VectorStore.DroppedRecordAddsNothing | scrapping/scrapper.py:218 | a missing record, or one with empty content, adds no document |
| VectorStore.DocumentsNumbered | scrapping/scrapper.py:223-230 | the chunk ordinals of the created documents count 0, 1, 2, … within each record's run of documents |
| VectorStore.Store.constructor | scrapping/scrapper.py:191-206 | a new store keeps its directory and its splitter, records the configured chunk size 1000 and overlap 200, and has no database yet |
| VectorStore.Store.AddDocuments | scrapping/scrapper.py:208-245 | the database becomes what it held (nothing when there was none) followed by the documents of the records |
| Crawler.CollectBound | scrapping/scrapper.py:287-296 | each visited URL contributes at most one record |
| Crawler.EnqueueAppends | scrapping/scrapper.py:300-302 | queueing the new links only appends to the frontier, and only links of the page that are not visited |
| Crawler.EnqueueNoDup | scrapping/scrapper.py:300-302 | queueing the new links keeps a duplicate-free frontier duplicate-free |
| Crawler.EnqueueCovers | scrapping/scrapper.py:300-302 | after queueing, every URL that was waiting still waits, and every link of the page is visited or waiting |
| Crawler.AppendNewLinks | scrapping/scrapper.py:299-302 | the inner loop appends to `urls_to_visit` the links neither visited nor already waiting, in link order |
| Crawler.HarvestedSameSite | scrapping/scrapper.py:115 | every link harvested from the visited pages contains the base URL |
| Crawler.HarvestedCovers | scrapping/scrapper.py:299-302 | every same-site link of every visited HTML page is among the harvested links |
| Crawler.InitInv | scrapping/scrapper.py:271-272 | the loop invariant holds before the first turn |
| Crawler.StepInv | scrapping/scrapper.py:278-302 | under the invariant, the URL at the front is never already visited (so the `continue` branch never fires), and a turn keeps the invariant, appends that URL to the visiting order and only appends to the discovery log |
| Crawler.CrawlSkip | scrapping/scrapper.py:281-282 | skipping an already visited URL only drops it from the frontier |
| Crawler.CrawlPdfTurn | scrapping/scrapper.py:284-291 | a PDF turn marks the URL visited and adds its record, if any, without queueing links |
| Crawler.CrawlHtmlTurn | scrapping/scrapper.py:292-302 | an HTML turn marks the URL visited, adds its record, if any, and queues the page's new links |
| Crawler.CrawlBudget | scrapping/scrapper.py:278 | the loop stops only with an empty frontier or a spent budget, never exceeds a budget not already spent, and does nothing once the budget is spent |
| Crawler.CrawlKeepsInv | scrapping/scrapper.py:278-302 | the whole loop keeps the invariant and only appends to the visiting order and to the discovery log |
| Crawler.CrawlIsFifo | scrapping/scrapper.py:279 | URLs are visited first in, first out: the new visits are the front of the starting frontier, then URLs discovered later |
| Crawler.CrawlFromSeed | scrapping/scrapper.py:271-302 | from the start URL, no URL is visited twice; the final frontier is duplicate-free and unvisited; a budget of 0 or less visits nothing and any other budget is respected; the loop ends only when the frontier is empty or the budget is spent; the records are those of the visited URLs in visiting order, at most one each; the start URL is visited first and every other URL ever queued contains the base URL; every same-site link of a visited HTML page is visited or waiting |
| Crawler.VisitNext | scrapping/scrapper.py:279-302 | one turn of the loop leaves the outcome of the whole crawl unchanged, adds to the records what it returns, and either pops a visited URL or visits one more URL |
| Crawler.Pipeline.constructor | scrapping/scrapper.py:257-261 | a new pipeline uses the base URL and the persistence directory and has no scraped data |
| Crawler.Pipeline.ScrapeAll | scrapping/scrapper.py:263-312 | `scrape_all` appends to `scraped_data` exactly the records the crawl collects |
| Crawler.Pipeline.StoreData | scrapping/scrapper.py:314-318 | `store_data` adds the documents of all scraped records to the store |
| Crawler.Pipeline.Run | scrapping/scrapper.py:320-323 | `run` crawls from the base URL with a budget of 250 pages, then stores what it collected |
| Chatbot.SourceBlocks | rag_chatbot.py:72-75 | the `i`-th retrieved document becomes block `[Source i+1]` followed by its content, in retrieval order |
| Text.NatToStringRoundTrip | rag_chatbot.py:73 | reading back the decimal source number gives the number |
| Chatbot.ContextAppend | rag_chatbot.py:72-75 | one more retrieved document adds a blank line and its numbered block to the context |
| Chatbot.ContextEmptyIff | rag_chatbot.py:72-75 | the context is empty exactly when nothing was retrieved, and otherwise opens with the block of source 1 |
| Chatbot.LastSpec | rag_chatbot.py:80 | `[-n:]` is the suffix of length `min(len, n)`, in order |
| Chatbot.AppendedExtends | rag_chatbot.py:82-85 | adding exchanges only extends the history text, by at least the 9 fixed characters of each exchange |
| Chatbot.AppendedSnoc | rag_chatbot.py:83-85 | each exchange adds `Q: question`, newline, `R: answer` and a blank line at the end of the history |
| Chatbot.AppendedThree | rag_chatbot.py:83-85 | three exchanges are rendered oldest first |
| Chatbot.HistoryEmptyIff | rag_chatbot.py:78-85 | the history is empty exactly when no exchange is remembered |
| Chatbot.HistoryShowsLastThree | rag_chatbot.py:78-85 | with three or more exchanges remembered, the history is the header followed by the last three, oldest first |
| Chatbot.LastOfExtended | rag_chatbot.py:80 | the last `n` entries do not depend on what comes before them |
| Chatbot.HistoryIgnoresOlder | rag_chatbot.py:80 | exchanges older than the last three never reach the prompt |
| Chatbot.BuildHistory | rag_chatbot.py:77-85 | the `+=` loop builds the history text of the remembered exchanges |
| Chatbot.ChainInputSpec | rag_chatbot.py:88-124 | the history template and the `conversation_history` key come exactly with a non-empty history; the input supplies exactly the chosen template's placeholders, with the context and question given |
| Chatbot.TemplateFollowsMemory | rag_chatbot.py:88-124 | the history template is used exactly when some exchange is remembered |
| Chatbot.GetRagResponse | rag_chatbot.py:55-133 | a reply comes back exactly when neither the retriever nor the model raises; its sources are the `k` retrieved documents, and its answer is the model's answer to the chosen template filled with their context, the question and the history |
| Chatbot.RememberSpec | rag_chatbot.py:204-211 | after a turn the memory ends with the new exchange, holds `min(n+1, 5)` entries, and before it keeps the most recent older exchanges in their order |
| Chatbot.RememberBounded | rag_chatbot.py:204-211 | the memory never holds more than five exchanges, and the last one is the new exchange |
| Chatbot.PreviewSpec | rag_chatbot.py:192 | the preview is the first 200 characters of the content with each newline replaced by a space, so it holds no newline |
| Chatbot.Session.constructor | rag_chatbot.py:138-142 | a new session has no messages and no remembered exchanges |
| Chatbot.Session.Clear | rag_chatbot.py:30-33 | the clear button empties both the messages and the remembered exchanges |
| Chatbot.Session.Submit | rag_chatbot.py:167-211 | when the services answer, a question appends exactly two messages: the user's question, then the answer with its sources; the answer is computed from the memory as it was before the turn, and the memory becomes that memory with the new exchange, capped at five. When the retriever or the model raises, only the question is appended and the memory is unchanged |

## Left out

- The network, HTML parsing, PDF reading, `urljoin` and `urlparse` are not modelled; they are the function fields of `Web.Site`. Whether `urljoin` or `urlparse` raises is part of what those fields give, and the model follows the resulting exception path. `get_page_content` and `find_links` each issue their own GET, and the model assumes both see the same response.
- The text splitter (LangChain's recursive character splitter with size 1000 and overlap 200) is a parameter of the store, and its chunking is not modelled. The embeddings and Chroma's persistence are not modelled either; the database is the list of documents it holds.
- VectorStore.Store.AddDocuments: the contract describes only calls where the splitter, the embeddings and Chroma return. `add_documents` catches nothing, so if any of them raises the exception escapes through `store_data` and `run`. A failure while splitting leaves the database as it was; what a failing Chroma call leaves behind depends on Chroma and is not modelled.
- The request timeouts (10 s for pages, 30 s for PDFs) and the PDF temporary file with its deletion are not modelled as such. A timeout, or a failed write or deletion of the temporary file, raises inside the extractor; the model covers it by the oracle answering `Failed` or `Unreadable`, so that URL gives no record and, for a page, no links.
- The half-second pause after each URL, the progress and status prints, and the request headers are not modelled. None of them changes what is collected.
- HtmlScraper.SiteLinksSpec: `list(set(links))` returns the links in an order that depends on string hashing. The model keeps the first occurrence of each link, so the order of newly queued links is one valid choice of the source's order, not the only one.
- Text.Lower: only ASCII letters are lower-cased; Python's `str.lower` also lowers other letters, and the model keeps them unchanged. The `.pdf` test can differ only if some non-ASCII character lower-cases to `.`, `p`, `d` or `f`.
- Text.Basename: only `/` separates path segments, as in POSIX `os.path.basename`; on Windows, `ntpath.basename` also splits on `\` and `:`, which the model does not do.
- Text.IsSpace covers the characters Python's `str.strip` removes. It does not cover BeautifulSoup's own whitespace handling inside `get_text(strip=True)`: that text is part of the `Site` oracle.
- `HTMLScraper.visited_urls` is never read or written after construction and is not modelled.
- The Streamlit page and sidebar layout, the message display loop, the `k` slider widget, the source list's `url`/`N/A` display, the footer metrics and `init_components` are not modelled. `k` is an input of `Submit`.
- The retriever and the language model are the fields of `Chatbot.Services`; each answers `None` where the service raises, and `Chatbot.Session.Submit` follows the exception path of `rag_chatbot.py`. The Streamlit display calls in the same turn (`st.markdown`, the source expander) are assumed not to raise. The template wording, and the formatting of the chosen template with its input, belong to the model's answer function: a prompt is represented by its template and its input.
- The branch where `conversation_context` is absent from the session state is not modelled. The session is created before any question is answered, so that branch is never taken.
- `scrapping/texte.py`, the test scripts and the configuration modules are not part of this model. The only constants used are the scraper's own.
