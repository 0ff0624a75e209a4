# Lead collector: a Dafny model of the decision logic

The lead-generation tool searches a map-based business directory for a keyword,
scrolls its result list, opens each result, reads the company's detail fields, and
visits the company's website. On the website it looks for social-media links, a
contact form and web catalogs. Each company becomes one display-ready lead record.
A Streamlit page composes the search keyword, shows a ten-cell progress bar while
the collection runs, orders the table's columns, and shows the rows twenty at a time.

This project models that decision logic in Dafny and proves what it promises. The
browser is not modelled. What the browser would have returned is an input:

- `Analyzer.Visit` is what loading a website yields: its links and HTML, or the point where loading failed.
- `Collector.Directory` says whether any results appear for a search, and which entries are rendered after `k` scrolls.
- `Collector.Candidate` says what happens when one entry is opened: its name, its detail fields and its website, or the failure it raised.

Modules, one per concern:

- `Text` (`text.dfy`): the Python string built-ins the source relies on: substring test, ASCII `lower`, `strip`, `replace(x, "")`, `join`, slicing, repetition.
- `Analyzer` (`analyzer.dfy`): `analyze_website`. It is a method with the source's loops, including the early `break` of the form scan and the exception a link without text raises in either link scan. It is proved equal to the specification function `AnalysisOf`. Lemmas characterise the SNS set, the three form tiers and the catalog types.
- `Records` (`records.dfy`): assembly of one lead record from the detail fields and the analysis. Covers the sentinels "不明", "なし" and "なし/不明", label removal, the sorted catalog cell and the SNS cell.
- `Collector` (`collector.dfy`): `collect_leads`. The bounded scroll loop and the per-entry loop are methods proved against `Collect`, which gives the records and the progress events of a run. Lemmas cover bounds, order, per-entry isolation and the final event.
- `App` (`app.dfy`): the keyword, the progress bar, the column order, and a class `ResultsView` for the session state `leads_df` / `visible_count` with its "show 20 more" window.

## Model

| member | source | states |
|---|---|---|
| `Analyzer.AnalyzeWebsite` | system/03_scripts/lead_collector.py:13-99 | The step-by-step analysis returns exactly `AnalysisOf(url, visit)`: the default for a skipped URL; the platforms found before a failure plus one error remark; for a loaded page the platforms, the form flag and the catalog types, where a link without text that the form or catalog scan reaches raises and leaves the fields set so far plus one error remark. |
| `Analyzer.SkippedIsDefault` | system/03_scripts/lead_collector.py:17-25 | An empty URL or "なし" gives the default analysis (no SNS, no form, no catalog, no remarks), whatever the site would have shown. |
| `Analyzer.DetectSns` | system/03_scripts/lead_collector.py:49-55 | The nested link/domain loop yields exactly `SnsOf(links)`. |
| `Analyzer.SnsOfExactly` | system/03_scripts/lead_collector.py:39-55 | A platform name is reported if and only if some link's href contains one of that platform's domain keys. |
| `Analyzer.SnsOrderIndependent` | system/03_scripts/lead_collector.py:49-55 | Two link lists with the same links, in any order and repetition, give the same platform set. |
| `Analyzer.SnsOfNamesKnown` | system/03_scripts/lead_collector.py:39-47 | Only names from the platform table are ever reported. |
| `Analyzer.InstagramLinkPlatforms` | system/03_scripts/lead_collector.py:39-54 | The href `https://www.instagram.com/x` matches Instagram and no other table entry. |
| `Analyzer.TwitterLinkPlatforms` | system/03_scripts/lead_collector.py:39-54 | The href `https://twitter.com/y` matches Twitter and no other table entry (not even "x.com"). |
| `Analyzer.InstagramAndTwitter` | system/03_scripts/lead_collector.py:39-55 | Instagram and Twitter links give exactly {Instagram, Twitter}, also reordered and with a duplicate. |
| `Analyzer.LinkFormCheck` | system/03_scripts/lead_collector.py:68 | Checking one link raises exactly when its text is `None` and its lowercased href lacks "contact", the first keyword tried. |
| `Analyzer.FormScanFirst` | system/03_scripts/lead_collector.py:67-70 | The link scan is decided by the first link that is not a miss: it either finds a form (and breaks) or raises. |
| `Analyzer.FormScanAllMiss` | system/03_scripts/lead_collector.py:67-70 | The link scan finds nothing and does not raise iff every link is a miss. |
| `Analyzer.FormScanWithText` | system/03_scripts/lead_collector.py:67-70 | When every link has text the scan never raises, and finds a form iff some link's href or text has a keyword. |
| `Analyzer.DetectForm` | system/03_scripts/lead_collector.py:57-70 | The cascade with its early `break` returns exactly `FormDetected(url, content, links)`, and raises exactly when `FormRaises` holds. |
| `Analyzer.FormFromUrl` | system/03_scripts/lead_collector.py:59-62 | A form keyword in the lowercased URL makes `has_form` true whatever the page holds. |
| `Analyzer.ContactUsUrl` | system/03_scripts/lead_collector.py:61-62 | A `.../contact-us` URL has a form even with no form on the page and no links. |
| `Analyzer.FormTagIgnoresLinks` | system/03_scripts/lead_collector.py:63-65 | With `<form` in the lowercased content, the answer does not depend on the links. Without a URL keyword it is true iff the content has "submit" or "送信". |
| `Analyzer.FormFromLinks` | system/03_scripts/lead_collector.py:66-70 | Only without a URL keyword and without `<form` does the answer come from the links: when every link has text, true iff some link's href or text has a keyword, and nothing raises. |
| `Analyzer.ScannedLinks` | system/03_scripts/lead_collector.py:74-76 | The catalog loop gets through the links before the first one without text, and no further. |
| `Analyzer.DetectCatalog` | system/03_scripts/lead_collector.py:72-94 | The catalog loop raises iff some link has no text, and yields exactly `CatalogOf` of the links it got through before that. |
| `Analyzer.CatalogOfExactly` | system/03_scripts/lead_collector.py:73-94 | "PDF" is reported iff some catalog link's href has ".pdf". "book" is reported iff some catalog link without ".pdf" has a viewer marker in its href, 電子/デジタル in its text, or a catalog keyword in its text. Nothing else is reported. |
| `Analyzer.CatalogOfKinds` | system/03_scripts/lead_collector.py:78-94 | The catalog types are always a subset of {"PDF", "book"}. |
| `Analyzer.HrefOnlyKeywordAddsNothing` | system/03_scripts/lead_collector.py:78-94 | A link whose catalog keyword is only in its href, with no ".pdf" and no viewer marker, adds nothing. |
| `Analyzer.ElectronicCatalogTextIsBook` | system/03_scripts/lead_collector.py:82-84 | A link with text "電子カタログ" and a non-PDF href gives exactly {"book"}. |
| `Analyzer.PdfCatalogLinkIsPdf` | system/03_scripts/lead_collector.py:78-81 | A catalog link whose href has ".pdf" gives exactly {"PDF"}, whatever its text. |
| `Analyzer.ErrorRemark` | system/03_scripts/lead_collector.py:96-97 | The remark starts with "Webサイト解析エラー: ", is at most 50 characters longer than that prefix, and holds a message of 50 characters or fewer whole, or else the message's first 50 characters. |
| `Analyzer.FailureLeavesOneRemark` | system/03_scripts/lead_collector.py:27-99 | A site that could not be opened or read has exactly one remark, the truncated message. It keeps the platforms if the links had been read and has no form and no catalog. |
| `Analyzer.LoadedRemarkIffTextMissing` | system/03_scripts/lead_collector.py:57-99 | A loaded page gets a remark iff some link has no text, and then only the one error remark. |
| `Analyzer.ScanFailureKeepsEarlierFields` | system/03_scripts/lead_collector.py:57-99 | When a link without text makes a scan raise, the platforms and the form flag are kept, the catalog types are those of the links scanned before it (none if the form scan raised), and the remark is the error. |
| `Analyzer.ContactPageWithUntextedLink` | system/03_scripts/lead_collector.py:61-99 | A contact-us page whose only link has no text has a form, found from the URL, and still gets the error remark from the catalog scan. |
| `Analyzer.LoadedAnalysisClean` | system/03_scripts/lead_collector.py:72-99 | A loaded page whose links all have text has no remarks, and its catalog types are those of all its links, within {"PDF", "book"}. |
| `Analyzer.AnalysisWellFormed` | system/03_scripts/lead_collector.py:17-99 | Every analysis has catalog types within {"PDF", "book"} and at most one remark. |
| `Records.CleanField` | system/03_scripts/lead_collector.py:169-176 | A cleaned address or phone neither begins nor ends with whitespace and is no longer than the raw value or sentinel. |
| `Records.CleanFieldMissing` | system/03_scripts/lead_collector.py:168-176 | A missing address or phone reads "不明". The label removal cannot alter the sentinel. |
| `Records.CleanFieldLabelled` | system/03_scripts/lead_collector.py:170-171 | A value of the form label + v, where v is trimmed and has no further label, comes out as v. |
| `Records.FilterExactly` | system/03_scripts/lead_collector.py:191 | Filtering a list keeps exactly the kept elements and introduces no repetition. |
| `Records.FilterSubsequence` | system/03_scripts/app.py:220 | Filtering keeps the order of the kept elements. |
| `Records.SortedCatalogIsSorted` | system/03_scripts/lead_collector.py:191 | The listed catalog types are exactly the set's elements, each once, in strictly ascending string order ("PDF" < "book"). |
| `Records.CatalogDisplay` | system/03_scripts/lead_collector.py:189-191 | The catalog cell is "なし/不明" for no catalog, and names "PDF" and "book" when they were found. |
| `Records.CatalogDisplayCases` | system/03_scripts/lead_collector.py:189-191 | The catalog cell is "なし/不明" iff the set is empty, and "PDF", "book" or "PDF, book" for the other three sets. |
| `Records.SnsDisplay` | system/03_scripts/lead_collector.py:200 | The SNS cell is "なし" when no platform was found, and otherwise the found platform names, listed in platform-table order, joined by ", ". |
| `Records.SnsDisplayNamesAll` | system/03_scripts/lead_collector.py:200 | Every platform found is named in the SNS cell. The cell is the join of a list whose names are exactly the found ones, without repetition. |
| `Records.FormDisplay` | system/03_scripts/lead_collector.py:199 | The form cell is "あり" iff a form was detected, otherwise "なし/不明". |
| `Records.AssembleLead` | system/03_scripts/lead_collector.py:193-204 | Field by field: the name; the industry or "不明"; the cleaned address and phone; the website or "なし"; "あり" iff a form was found, otherwise "なし/不明"; the SNS and catalog cells; the remarks joined by spaces; the collection date. |
| `Records.MissingFieldsShowSentinels` | system/03_scripts/lead_collector.py:164-204 | With every field missing and no website: industry, address and phone are "不明"; website and SNS are "なし"; form and catalog are "なし/不明"; remarks are empty. |
| `Records.FailedAnalysisRemark` | system/03_scripts/lead_collector.py:202 | The remarks cell of a failed analysis is its single error remark. |
| `Collector.ScrollResults` | system/03_scripts/lead_collector.py:137-145 | The scroll loop runs at most 15 times. Every count before the last was below `max_results`. It stops before 15 only when enough entries are rendered. |
| `Collector.ScrollsFromIsFirst` | system/03_scripts/lead_collector.py:137-145 | Those three facts determine the scroll count uniquely. |
| `Collector.ScrollsFromBounds` | system/03_scripts/lead_collector.py:137-145 | The specified scroll count is at most 15 and is the first count with enough entries, or 15. |
| `Collector.ProcessEntry` | system/03_scripts/lead_collector.py:155-208 | One entry gives its progress events and its record, or no record when it fails. The website is analyzed only when it is not "なし". |
| `Collector.ProcessEntries` | system/03_scripts/lead_collector.py:154-208 | The entry loop produces exactly `Harvest(items)` and `ItemsEvents(items, total)`. |
| `Collector.CollectLeads` | system/03_scripts/lead_collector.py:101-215 | The whole run returns exactly the records and events of `Collect`, and never more than `max_results` records. |
| `Collector.HarvestStep` | system/03_scripts/lead_collector.py:154-204 | Processing one more entry appends its record, if it has one, after the records so far. |
| `Collector.HarvestBound` | system/03_scripts/lead_collector.py:154-204 | No entry contributes more than one record. |
| `Collector.HarvestAppend` | system/03_scripts/lead_collector.py:154-204 | The records of consecutive runs of entries follow one another, so output order is entry order. |
| `Collector.FailedEntryOnlySkipsItself` | system/03_scripts/lead_collector.py:206-208 | A failing entry i drops only itself: the records are those before i followed by those after i. |
| `Collector.HarvestAllOpened` | system/03_scripts/lead_collector.py:154-204 | When every entry opens, entry i becomes record i. |
| `Collector.FailureReported` | system/03_scripts/lead_collector.py:206-207 | A failing entry i emits the event (i+1, total, its message cut to 20 characters), as the last of its events. |
| `Collector.CollectBounds` | system/03_scripts/lead_collector.py:137-154 | A run returns at most `max_results` records, and at most as many as the rendered entries. |
| `Collector.CollectFinalEvent` | system/03_scripts/lead_collector.py:129-215 | A completed run ends with (n, n, completed). A search without results returns [] and never reports completion. |
| `Collector.ItemsEventsWithinTotal` | system/03_scripts/lead_collector.py:154-185 | Per-entry events count from 1 and never pass the total. |
| `Collector.EventsWithinTotal` | system/03_scripts/lead_collector.py:112-213 | Every progress event of a run has current <= total. |
| `Collector.TwoEntriesScenario` | system/03_scripts/lead_collector.py:101-215 | Two entries, with 3 asked for: both become records and the run ends with (2, 2, completed). |
| `App.ComposeKeyword` | system/03_scripts/app.py:203 | The keyword never begins or ends with whitespace. |
| `App.KeywordOfTrimmedTerms` | system/03_scripts/app.py:203 | For trimmed terms the keyword is the terms joined by single spaces. An empty extra term leaves no trailing space. |
| `App.FilledCells` | system/03_scripts/app.py:208 | No cell is filled while the total is unknown, at most 10 are for current <= total, and all 10 when current equals a positive total. |
| `App.ProgressBar` | system/03_scripts/app.py:209 | The bar is the filled cells "▓" followed by "░" up to 10 cells, or only the filled cells when more than 10 are filled. |
| `App.FilledIsFloor` | system/03_scripts/app.py:208 | For 0 <= current <= total, total > 0, the filled count is floor(10*current/total) and at most 10. |
| `App.BarShape` | system/03_scripts/app.py:208-209 | For current <= total the bar has 10 cells: the filled count of "▓", then "░". With total 0 it is 10 empty cells. |
| `App.FilledMonotone` | system/03_scripts/app.py:208 | More progress never decreases the filled count. |
| `App.TotalLabel` | system/03_scripts/app.py:210 | The total is shown as "?" iff it is 0. |
| `Text.NatToString` | system/03_scripts/app.py:210 | A number is printed as decimal digits with no leading zero, and the digits denote the number. |
| `App.DrawBars` | system/03_scripts/app.py:207-212 | The callback draws one bar per event, in order: bar i is the bar of event i. |
| `App.RunBarsWhole` | system/03_scripts/app.py:207-212 | Every bar drawn for the events of a run has exactly 10 cells. |
| `App.ReorderColumns` | system/03_scripts/app.py:218-222 | The columns start with those of the preferred list the table has, in the preferred order; the rest are not in the preferred list and keep the table's order. |
| `App.WithoutSubsequence` | system/03_scripts/app.py:221 | Leaving out the placed columns keeps the order of the others. |
| `App.WithoutExactly` | system/03_scripts/app.py:221 | The remaining columns are exactly the columns not already placed, and they stay free of repetition. |
| `App.ReorderIsPermutation` | system/03_scripts/app.py:218-222 | For repetition-free lists the reordered columns are a permutation of the table's columns, with no repetition. |
| `App.ReorderAllPreferred` | system/03_scripts/app.py:218-222 | When the table has exactly the preferred columns, in any order, the result is the preferred order. |
| `App.RecordColumnsReordered` | system/03_scripts/app.py:218-222 | A table of lead records, whose columns come in record-key order, is shown in the preferred column order. |
| `App.ResultsView.constructor` | system/03_scripts/app.py:145-148 | A new session has no table and a window of 20 rows. |
| `App.ResultsView.CurrentVisible` | system/03_scripts/app.py:248 | The visible count is min(visible_count, total_count), and the window always shows at least the first 20 rows or all of them. |
| `App.ResultsView.DisplayedRows` | system/03_scripts/app.py:249 | The displayed rows are the table's prefix of length `CurrentVisible()`. |
| `App.ResultsView.Remaining` | system/03_scripts/app.py:278-283 | The button's number is the count of hidden rows. It is positive iff "show more" is offered. |
| `App.ResultsView.LoadMore` | system/03_scripts/app.py:283-285 | Pressing "show more" widens the window by exactly 20 and leaves the table alone. |
| `App.ResultsView.ShowResults` | system/03_scripts/app.py:215-225 | A non-empty result replaces the table, with its columns reordered, and resets the window to 20. An empty result changes nothing. |
| `App.ResultsView.Start` | system/03_scripts/app.py:198-234 | Without region or industry only a warning is given, no bar is drawn and nothing changes. Otherwise it draws one bar per progress event of `Collect` for the composed keyword, bar i from event i, each of 10 cells. The records are shown, columns in the preferred order, iff there are any. |
| `Text.Strip` | system/03_scripts/lead_collector.py:171 | The stripped text has no whitespace at either end and sits in the input between whitespace-only margins. |
| `Text.StripPadded` | system/03_scripts/app.py:203 | Stripping removes exactly the surrounding whitespace and nothing else. |
| `Text.RemoveAllLabel` | system/03_scripts/lead_collector.py:176 | Removing a leading label from label + rest gives rest when rest holds no further label. |
| `Text.JoinContainsParts` | system/03_scripts/lead_collector.py:200 | Every part of a joined list is found in the joined text. |

## Left out

- Playwright I/O is not modelled: browser launch, navigation, selector waits, clicks, scrolling and link enumeration. The directory and the websites are inputs (`Directory`, `Candidate`, `Visit`). The CSS selectors, the user-agent string and the identical headless branches have no behaviour to state.
- Sleeps, timeouts and `asyncio` scheduling are not modelled. They are timing, not logic.
- The collection date (`datetime.now()`) is a `date` parameter.
- Exception text (`str(e)`) is an arbitrary string that is only truncated.
- A failure outside the per-entry loop is not modelled, for example a browser that cannot start. `collect_leads` does not catch it, and app.py:235-240 only displays it.
- Streamlit rendering, CSS, widgets, Excel/CSV export, the automatic save to disk and the browser-install subprocess are not modelled. They are UI, file I/O and foreign calls.
- The text of progress messages (emoji, wording, the "【収集進行中】" line) is not modelled. Each event's phase is a `Status` value.
- `str.lower()` is modelled as ASCII lowercasing. Python also lowercases non-ASCII letters, and some of them become ASCII: U+212A KELVIN SIGN becomes "k", so an href with "eboo" followed by that sign contains "ebook" after Python's `lower()` but not in the model. Such hrefs and link texts are classified differently.
- `Analyzer.AnalyzeWebsite`: the `sns` field is a set. The source turns its set into a list in Python's unspecified set order. The SNS cell lists the names in the platform table's order, one allowed outcome of that order.
- `Records.CatalogDisplayCases`: `sorted` is modelled as listing "PDF" then "book". This equals Python's sort for every set the analyzer can produce (`Analyzer.AnalysisWellFormed`), not for arbitrary sets of strings.
- `App.FilledIsFloor`: the float expression `int((current / total) * 10)` is modelled as the integer `(current * 10) / total`. The two agree for 0 <= current <= total <= 300 (the widget's bound), because the exact value is either an integer that the float computation reproduces or at least 1/300 away from one.
- A link's href is always a string in the model. In the browser the `href` of an SVG `<a>` is an `SVGAnimatedString` object, not a string. What the page returns for it, and how the string tests would treat that, is not modelled. Only the missing text of such an element is modelled.
- Python's `None` from `get_attribute` is not modelled: the name and website are taken to be strings. An address or phone attribute that is `None` makes the entry fail (`PanelFailed`), as it does in the source.
- `App.ReorderIsPermutation`: requires both column lists to be free of repetition. The preferred list is, and the columns of a table built from records are the records' distinct keys; with a repeated preferred name the source itself would repeat a column.
- A negative `max_results` is not modelled (`maxResults: nat`); the UI only passes 1 to 300.
