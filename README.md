# DJVUReader page cache and preloading, in Dafny

DJVUReader is a macOS viewer for DjVu and PDF documents. Its document object
(`DJVUDocument`) opens a file, works out how many pages it has, and decodes pages
into images: one page at a time for the single-page view, and every page, requested in
batches of three and decoded one after another on a serial queue, for the continuous view. Decoded pages go into a shared page cache.
Every store for display or preloading calls `limitCacheSize`, which, once the
cache holds more than 20 pages, evicts the lowest-numbered pages until 15 remain.
Stores for the continuous view do not trim, so the cache can hold more than 20
pages until the next trimming store. Two in-flight sets prevent duplicate decodes:

- the preload queue, for the silent background preloader;
- the continuous loading queue, for the continuous view.

While a page is decoding for display, a flag blocks all navigation.

This project models that bookkeeping and proves what it guarantees:

- how a page request is answered: from the cache, or by starting a single decode;
- that a decode which completes after the user has moved on is cached but never shown;
- that navigation is ignored while a page is in flight and works again once the decode ends;
- that a preload pass schedules every uncached, unqueued page exactly once, nearest pages first;
- that the continuous view is filled from the cache and requests exactly the missing pages, in order, in batches of at most three;
- that a trimming store leaves at most 20 pages and evicts exactly the lowest ones, while a continuous-view store can exceed 20;
- how the `djvused` output and the `ddjvu` probe become a page count;
- what opening a document leads to, for every guard and loader outcome;
- the recent-documents list and the small string and URL helpers.

## Structure

| file | module | what it holds |
|---|---|---|
| `options.dfy` | `Options` | the option type |
| `sequences.dfy` | `Sequences` | page lists: their sets, distinctness, order |
| `swift_text.dfy` | `SwiftText` | Swift's `Int(String)`, string interpolation of an `Int`, `trimmingCharacters(in: .whitespacesAndNewlines)` and `lowercased()` |
| `page_count.dfy` | `PageCount` | parsing the `djvused -e n` output, and the `ddjvu` page probe |
| `page_cache.dfy` | `PageCache` | the contract behind `limitCacheSize()` |
| `preload.dfy` | `Preload` | the scheduling loops of `startBackgroundPreloading` and `schedulePreloadAdjacentPages` |
| `continuous_fill.dfy` | `ContinuousFill` | `populateContinuousFromCache`, `pagesToLoad`, the batches of three |
| `document_format.dfy` | `DocumentFormat` | choosing a loader from the extension, the non-ASCII check |
| `utilities.dfy` | `Utilities` | `DocumentStateManager` (recent documents), `isValidPageNumber`, the URL predicates |
| `document.dfy` | `Document` | the document object: the `DjvuDocument` class and one pure step function per operation |
| `document_properties.dfy` | `DocumentProperties` | what the operations guarantee, proved on the step functions |

Each operation of the document object appears twice:

- a pure step function on a `Session` value, which holds every modelled field;
- a method of the class `DjvuDocument` that updates the fields in place as the Swift code does.

Each method's postcondition says that the new fields, as a `Session`, are exactly what
the step function returns. The properties are then lemmas about the step functions.

Loops keep their loop form:

- the eviction loop of `limitCacheSize` (`RemoveKeys`);
- the scheduling loops (`ScheduleLoop`);
- the copy loop of `populateContinuousFromCache` (`CopyCached`);
- the batching loop (`LoadAllPagesForContinuousView`);
- the page probe (`ProbePageCount`);
- the recent-documents update.

Each loop is proved to compute the function that specifies it.

**Dispatch queues.** The Swift code hands most of its work to dispatch queues. The
model runs each block the Swift code enqueues (main queue, cache queue, preload
queue) at the point where it is enqueued. A page decode runs on another thread
and comes back later, so it is a separate operation whose outcome is a parameter:

- `FinishDisplayLoad`: an image, or one of the three failures;
- `FinishPreload`: an image or nothing;
- `FinishContinuousLoad`: an image or nothing.

Opening a document depends on the sandbox, the file system, PDFKit and the
djvulibre tools. Their answers are collected in an `OpenEnvironment` value:

- whether access is granted and the file exists;
- PDFKit's page count;
- whether `djvused` and `ddjvu` are installed;
- `djvused`'s output;
- which probe pages render.

**Integers.** Swift's `Int` is 64 bits wide. `Int(String)` returns `nil` outside
[-2^63, 2^63-1], and the model's `ParseInt` does the same.

## Model

| member | source | states |
|---|---|---|
| SwiftText.ParseInt | DJVUReader/DJVUDocument.swift:479 | a parsed value is within the 64-bit range and comes from a non-empty string |
| SwiftText.ParseDecimalRoundTrip | DJVUReader/DJVUDocument.swift:479 | printing a non-negative in-range integer in decimal and parsing it back gives the integer |
| SwiftText.ParseIntRejectsNonDigit | DJVUReader/DJVUDocument.swift:479 | a string with a character that is neither a digit nor a leading sign does not parse |
| SwiftText.Interpolated | DJVUReader/DJVUDocument.swift:711 | the decimal text of an `Int`, starting with `-` exactly when the number is negative |
| SwiftText.InterpolatedRoundTrip | DJVUReader/DJVUDocument.swift:711 | the interpolated text of every 64-bit integer parses back to it |
| SwiftText.TrimStart | DJVUReader/DJVUDocument.swift:477 | the result is the suffix after the leading whitespace and starts with a non-blank |
| SwiftText.TrimEnd | DJVUReader/DJVUDocument.swift:477 | the result is the prefix before the trailing whitespace and ends with a non-blank |
| SwiftText.Trim | DJVUReader/DJVUDocument.swift:477 | a non-empty trimmed string starts and ends with a non-blank |
| SwiftText.TrimSurrounded | DJVUReader/DJVUDocument.swift:477 | trimming removes exactly the surrounding whitespace and keeps the middle |
| SwiftText.Lowercased | DJVUReader/DJVUDocument.swift:109 | same length, and each character is lowercased on its own |
| SwiftText.LowerChar | DJVUReader/DJVUDocument.swift:109 | upper-case ASCII letters map to their lower-case letter; every other character is kept |
| PageCount.DigitComponents | DJVUReader/DJVUDocument.swift:489 | splitting at non-digits gives at least one piece, and every piece is all digits |
| PageCount.ParsePageCount | DJVUReader/DJVUDocument.swift:476-497 | a count that is zero or negative can only come from the whole trimmed output parsing as an integer |
| PageCount.WholeParseWins | DJVUReader/DJVUDocument.swift:476-487 | whenever the whole trimmed output parses as an integer, that integer is the count, with no positivity check |
| PageCount.NegativeCountAccepted | DJVUReader/DJVUDocument.swift:476-487 | the output `-3` followed by a newline gives the count -3 |
| PageCount.DjvusedCountRoundTrip | DJVUReader/DJVUDocument.swift:476-487 | the decimal count surrounded by whitespace is read back as that count |
| PageCount.FirstRunIsFirstNumber | DJVUReader/DJVUDocument.swift:489-490 | the first number found is the value of the first run of digits |
| PageCount.NoDigitsNoNumber | DJVUReader/DJVUDocument.swift:489-490 | output without digits gives no number |
| PageCount.FallbackUsesFirstRun | DJVUReader/DJVUDocument.swift:489-497 | when the whole output is not a number, the count is its first run of digits if that is positive, otherwise there is none |
| PageCount.NoDigitsNoCount | DJVUReader/DJVUDocument.swift:476-502 | output with no digit at all gives no count |
| PageCount.ProbeFromSpec | DJVUReader/DJVUDocument.swift:559-566 | from probe page k on: the result is at least k-1 and at most 50, every page from k to it renders, and the next does not unless 50 was reached |
| PageCount.ProbeCountSpec | DJVUReader/DJVUDocument.swift:559-566 | the probed count is between 1 and 50, pages 2..count all render, and page count+1 does not unless the cap was reached |
| PageCount.ProbePageCount | DJVUReader/DJVUDocument.swift:559-566 | the probe loop computes the probed count and its three properties |
| PageCache.MinKey | DJVUReader/DJVUDocument.swift:1065 | the least page number of a non-empty set |
| PageCache.SortedKeys | DJVUReader/DJVUDocument.swift:1065 | `Array(keys).sorted()`: the same pages, strictly ascending |
| PageCache.TrimmedSmallCacheUnchanged | DJVUReader/DJVUDocument.swift:1063-1064 | a cache of at most 20 pages is left as it is |
| PageCache.TrimmedLargeCacheSize | DJVUReader/DJVUDocument.swift:1064-1068 | a cache of more than 20 pages is cut to 15, keeping only its own pages and their images |
| PageCache.TrimmedEvictsSmallest | DJVUReader/DJVUDocument.swift:1065-1068 | every evicted page is lower than every page kept |
| PageCache.LowestPageAlwaysEvicted | DJVUReader/DJVUDocument.swift:1065-1068 | when a trim happens the lowest page goes, whichever page is on screen |
| PageCache.TrimmedWithinLimit | DJVUReader/DJVUDocument.swift:1063-1070 | after a trim the cache never holds more than 20 pages |
| Preload.Range | DJVUReader/DJVUDocument.swift:914 | `0..<n` as a list: its length and its i-th element |
| Preload.AdmitSpec | DJVUReader/DJVUDocument.swift:897-931 | a scheduling loop admits exactly the in-document, unskipped, unqueued candidates, each once, in candidate order |
| Preload.InDocumentSpec | DJVUReader/DJVUDocument.swift:891-895 | the filter keeps exactly the candidates that are pages of the document other than the start page, in order |
| Preload.NearbyPages | DJVUReader/DJVUDocument.swift:891-895 | the pages within distance 3 of the start page, nearest first, +1 before -1 |
| Preload.NearbyScheduledSpec | DJVUReader/DJVUDocument.swift:897-912 | the first loop schedules the uncached, unqueued pages within distance 3, nearest first |
| Preload.SweepScheduledSpec | DJVUReader/DJVUDocument.swift:914-931 | the sweep schedules the uncached, unqueued pages farther than 3 away, in ascending order |
| Preload.PreloadPassSpec | DJVUReader/DJVUDocument.swift:879-935 | one pass schedules every page except the start page that is neither cached nor queued, each exactly once |
| Preload.AdjacentScheduledSpec | DJVUReader/DJVUDocument.swift:949-966 | only the in-range, uncached, unqueued neighbours c-1 and c+1 are scheduled, the lower one first |
| ContinuousFill.CachedInRange | DJVUReader/DJVUDocument.swift:153-160 | exactly the cached pages of the document, with their cached images |
| ContinuousFill.PagesToLoadSpec | DJVUReader/DJVUDocument.swift:176-178 | the pages to load are exactly the document's pages missing from the view, strictly ascending |
| ContinuousFill.BatchesSpec | DJVUReader/DJVUDocument.swift:195-200 | ceil(n/3) batches of one to three pages that, read in order, give back the list |
| DocumentFormat.LoaderKind | DJVUReader/DJVUDocument.swift:109-117 | PDF exactly for a lowercased extension `pdf`, DjVu exactly for `djvu` or `djv`, otherwise unsupported with the lowercased extension |
| DocumentFormat.LoaderKindIgnoresCase | DJVUReader/DJVUDocument.swift:109 | extensions differing only in ASCII case choose the same loader |
| DocumentFormat.HasNonAsciiCharacters | DJVUReader/DJVUDocument.swift:64-66 | true exactly when some character of the file name is outside ASCII |
| DocumentFormat.UnsupportedFormatMessage | DJVUReader/DJVUDocument.swift:116 | the unsupported-format message is never empty |
| Utilities.WithoutSpec | DJVUReader/Extensions+Utilities.swift:47 | removing a URL drops every copy of it and keeps all other entries in their order |
| Utilities.WithRecentPutsUrlFirst | DJVUReader/Extensions+Utilities.swift:46-53 | the opened URL heads the list and appears nowhere else |
| Utilities.WithRecentKeepsOthers | DJVUReader/Extensions+Utilities.swift:46-53 | the rest is the old list without the URL, in order; at most 10 entries are kept, and a new URL on a full list pushes out the last entry |
| Utilities.WithoutCount | DJVUReader/Extensions+Utilities.swift:47 | removing a URL that is present shortens the list |
| Utilities.DocumentStateManager.AddRecentDocument | DJVUReader/Extensions+Utilities.swift:46-56 | the list becomes the updated recent list and the URL becomes the last opened document |
| Utilities.DocumentStateManager.ClearRecentDocuments | DJVUReader/Extensions+Utilities.swift:58-61 | the list is emptied and the last opened document is kept |
| Utilities.ValidPageNumberRoundTrip | DJVUReader/Extensions+Utilities.swift:201-204 | a decimal page number is valid exactly when it is between 1 and the page count |
| Utilities.PaddedPageNumberInvalid | DJVUReader/Extensions+Utilities.swift:201-204 | text with a trailing space is never a valid page number |
| Utilities.DocumentPredicatesExclusive | DJVUReader/Extensions+Utilities.swift:210-217 | no URL is both a DjVu and a PDF document |
| Utilities.DocumentTypeMatchesLoader | DJVUReader/Extensions+Utilities.swift:210-223 | the type label agrees with the loader chosen for the extension |
| Document.DisplayErrorText | DJVUReader/DJVUDocument.swift:707-714 | every page-decode failure message is non-empty |
| Document.RemoveKeys | DJVUReader/DJVUDocument.swift:1066-1068 | the removal loop leaves the cache without exactly the given keys |
| Document.ScheduleLoop | DJVUReader/DJVUDocument.swift:953-964 | one scheduling loop schedules what `Admit` specifies and adds exactly those pages to the queue |
| Document.CopyCached | DJVUReader/DJVUDocument.swift:153-162 | the copy loop adds the cached pages of the document to the view and counts them |
| Document.DjvuDocument.constructor | DJVUReader/DJVUDocument.swift:20-42 | a new document object starts empty, unloaded and in continuous mode |
| Document.DjvuDocument.LimitCacheSize | DJVUReader/DJVUDocument.swift:1063-1070 | the cache becomes its trimmed version and nothing else changes |
| Document.DjvuDocument.StoreDecoded | DJVUReader/DJVUDocument.swift:732-735 | the image is stored and the cache trimmed |
| Document.DjvuDocument.SchedulePreloadAdjacentPages | DJVUReader/DJVUDocument.swift:949-966 | the neighbours are scheduled and queued as the adjacent step says |
| Document.DjvuDocument.StartBackgroundPreloading | DJVUReader/DJVUDocument.swift:879-935 | the nearby loop and then the sweep schedule and queue the pages of one preload pass |
| Document.DjvuDocument.PopulateContinuousFromCache | DJVUReader/DJVUDocument.swift:153-169 | the cached pages of the document are copied into the view, and the count returned is their number |
| Document.DjvuDocument.LoadAllPagesForContinuousView | DJVUReader/DJVUDocument.swift:172-201 | the batching loop yields the batches of the pages missing from the view |
| Document.DjvuDocument.SetViewMode | DJVUReader/DJVUDocument.swift:121-151 | switching to continuous mode clears the view, refills it from the cache and requests the rest |
| Document.DjvuDocument.LoadPage | DJVUReader/DJVUDocument.swift:665-704 | the state and the work started are those of the page-request step |
| Document.DjvuDocument.LoadFirstPageOnly | DJVUReader/DJVUDocument.swift:627-663 | like a page request without the in-flight guard, marking the decode as the first page |
| Document.DjvuDocument.PublishDecoded | DJVUReader/DJVUDocument.swift:737-752 | the image is shown only when its page is still current, then continuous mode after the first page |
| Document.DjvuDocument.FinishDisplayLoad | DJVUReader/DJVUDocument.swift:706-876 | a decode outcome updates the state as the display-completion step says |
| Document.DjvuDocument.PreloadAfterDisplaying | DJVUReader/DJVUDocument.swift:754-758 | after a display decode: the whole document after the first page, the two neighbours otherwise |
| Document.DjvuDocument.NextPage | DJVUReader/DJVUDocument.swift:1179-1191 | implements the next-page step |
| Document.DjvuDocument.PreviousPage | DJVUReader/DJVUDocument.swift:1193-1205 | implements the previous-page step |
| Document.DjvuDocument.GoToPage | DJVUReader/DJVUDocument.swift:1207-1221 | implements the go-to-page step |
| Document.DjvuDocument.FinishPreload | DJVUReader/DJVUDocument.swift:968-1061 | a finished preload caches its image, if any, and leaves the preload queue |
| Document.DjvuDocument.LoadPageForContinuous | DJVUReader/DJVUDocument.swift:234-256 | for a cached page, copy it into the view; for a page in flight, do nothing; otherwise mark it in flight and start a decode |
| Document.DjvuDocument.FinishContinuousLoad | DJVUReader/DJVUDocument.swift:289-296 | the image goes to the cache untrimmed and to the view; the page leaves the in-flight set |
| Document.DjvuDocument.ClearCache | DJVUReader/DJVUDocument.swift:1224-1233 | the cache and the continuous view are emptied |
| Document.DjvuDocument.ResolveOpening | DJVUReader/DJVUDocument.swift:95-117 | the guards and the loader dispatch give the outcome of opening the document |
| Document.DjvuDocument.ResolveDjvuOpening | DJVUReader/DJVUDocument.swift:376-587 | the DjVu loader tries djvused, then the ddjvu probe, in the source's order of failures |
| Document.DjvuDocument.ApplyOpening | DJVUReader/DJVUDocument.swift:361-372 | a failure sets its message; a success sets the count, marks the document loaded and starts page 0 |
| Document.DjvuDocument.ResetPublishedState | DJVUReader/DJVUDocument.swift:76-85 | the loaded flag, the current image and the continuous view are reset |
| Document.DjvuDocument.ResetCaches | DJVUReader/DJVUDocument.swift:88-93 | the cache and both in-flight sets are emptied |
| Document.DjvuDocument.LoadDocument | DJVUReader/DJVUDocument.swift:68-118 | the reset followed by the loader's outcome, as the corrected open step says |
| DocumentProperties.LoadPageIgnored | DJVUReader/DJVUDocument.swift:665-672 | a page outside the document, or any request while a page is in flight, changes nothing |
| DocumentProperties.LoadPageFromCache | DJVUReader/DJVUDocument.swift:678-688 | a cached page is shown at once, with no decode started and its free neighbours queued |
| DocumentProperties.LoadPageStartsDecode | DJVUReader/DJVUDocument.swift:690-703 | an uncached page becomes current and in flight, and exactly one display decode starts |
| DocumentProperties.NavigationIgnoredWhileLoading | DJVUReader/DJVUDocument.swift:1179-1221 | with a page in flight, next, previous, go-to and page requests all change nothing |
| DocumentProperties.DecodeInFlightBlocksRequests | DJVUReader/DJVUDocument.swift:690 | once a decode has started, no further request gets through until it ends |
| DocumentProperties.GoToPageActsIff | DJVUReader/DJVUDocument.swift:1207-1221 | go-to acts exactly when nothing is in flight and the target is another page of the document, and then moves there |
| DocumentProperties.NextPageActsIff | DJVUReader/DJVUDocument.swift:1179-1191 | next acts exactly when nothing is in flight and this is not the last page, and then moves forward one page |
| DocumentProperties.PreviousPageActsIff | DJVUReader/DJVUDocument.swift:1193-1205 | previous acts only when nothing is in flight and this is not the first page, and then moves back one page; on a current page inside the document, it acts exactly then (opening a document with fewer pages does not reset the current page, and beyond the document previous may do nothing) |
| DocumentProperties.DisplayDoneReleasesNavigation | DJVUReader/DJVUDocument.swift:751 | every decode outcome clears the in-flight flag |
| DocumentProperties.PreloadKeepsDisplayState | DJVUReader/DJVUDocument.swift:754-758 | the preloading started after a display decode changes only the preload queue |
| DocumentProperties.DisplayDonePublishes | DJVUReader/DJVUDocument.swift:737-750 | a page still current when its decode succeeds is shown with no error, and the first page switches to continuous mode |
| DocumentProperties.StaleDisplayNotShown | DJVUReader/DJVUDocument.swift:732-751 | a decode for a page the user has left is only cached: page, image, spinner, message, view mode and view are kept |
| DocumentProperties.DisplayDoneFailure | DJVUReader/DJVUDocument.swift:871-875 | a failed decode clears both loading flags and sets a non-empty message, and nothing is cached or queued |
| DocumentProperties.DisplayDoneCache | DJVUReader/DJVUDocument.swift:732-735 | a display decode changes the cache only by storing and trimming |
| DocumentProperties.StoredCacheBounded | DJVUReader/DJVUDocument.swift:732-735 | after a store the cache holds at most 20 pages with no new pages but this one; below the limit the page is simply added |
| DocumentProperties.DisplayDoneCacheBounded | DJVUReader/DJVUDocument.swift:732-735 | a display decode leaves at most 20 pages in the cache |
| DocumentProperties.RequestThenDecodeShowsPage | DJVUReader/DJVUDocument.swift:665-750 | requesting an uncached page and completing its decode shows exactly that page |
| DocumentProperties.DisplayDoneKeepsLoadedFlag | DJVUReader/DJVUDocument.swift:706-876 | no decode outcome changes the loaded flag or the page count |
| DocumentProperties.BackgroundPreloadCoversDocument | DJVUReader/DJVUDocument.swift:879-935 | the pass schedules exactly the uncached, unqueued pages other than the start page, each once, and queues them |
| DocumentProperties.PreloadNeverDuplicates | DJVUReader/DJVUDocument.swift:897-931 | no page that is cached or already queued is scheduled, and none twice |
| DocumentProperties.PreloadDoneLeavesQueue | DJVUReader/DJVUDocument.swift:971-975 | a finished preload leaves the queue whatever happened; a stored image stays within the limit |
| DocumentProperties.ContinuousBeginIff | DJVUReader/DJVUDocument.swift:234-256 | a decode starts exactly for a page neither cached nor in flight, which then joins the in-flight set; otherwise the in-flight set is unchanged, a cached page is copied into the view, and a page already in flight leaves the whole state unchanged |
| DocumentProperties.ContinuousRequestsCoalesce | DJVUReader/DJVUDocument.swift:247-252 | two requests for one page with no completion in between start at most one decode |
| DocumentProperties.ContinuousDoneSpec | DJVUReader/DJVUDocument.swift:289-296 | the page leaves the in-flight set, and a decoded image reaches both the cache and the view |
| DocumentProperties.ContinuousDoneCanExceedLimit | DJVUReader/DJVUDocument.swift:290-291 | with no trim on this path, a full cache of 20 pages grows to 21 |
| DocumentProperties.ContinuousViewFill | DJVUReader/DJVUDocument.swift:121-201 | the view holds exactly the cached pages of the document, and the batches cover the other pages in ascending order, at most three at a time |
| DocumentProperties.OpenedNeedsSupportedFile | DJVUReader/DJVUDocument.swift:95-117 | a document opens only with access, an existing file and a supported extension, through the loader that extension names |
| DocumentProperties.OpenFailureHasMessage | DJVUReader/DJVUDocument.swift:95-117 | every failed open leaves a non-empty message |
| DocumentProperties.DjvusedCountOpensDocument | DJVUReader/DJVUDocument.swift:428-487 | a djvused answer of n, padded with whitespace, opens the document with n pages |
| DocumentProperties.ProbeOpensDocument | DJVUReader/DJVUDocument.swift:510-576 | without a djvused count, the ddjvu probe opens the document with 1 to 50 pages, every probed page rendering |
| DocumentProperties.LoadDocumentClearsCaches | DJVUReader/DJVUDocument.swift:76-93 | opening clears the cache, both in-flight sets and the view, and records the URL |
| DocumentProperties.LoadDocumentFailure | DJVUReader/DJVUDocument.swift:95-117 | a failed open leaves the document unloaded with the loader's message and no image |
| DocumentProperties.OpenedDocumentIsLoaded | DJVUReader/DJVUDocument.swift:361-372 | a non-empty document that opens is marked loaded with its page count, and page 0 is decoding as the first page |
| DocumentProperties.PdfOpenAsWrittenLeavesUnloaded | DJVUReader/DJVUDocument.swift:76-85 | as written, a PDF that opens is left marked unloaded, even after its first page is decoded; the corrected order marks it loaded |
| DocumentProperties.FirstPageFlow | DJVUReader/DJVUDocument.swift:627-935 | once page 0 of a fresh n-page document is decoded, it is shown in continuous mode, the batches ask for pages 1..n-1 in order, and each of those pages is queued for preloading once |
| DocumentProperties.PreviousFirstPageShownAsNew | DJVUReader/DJVUDocument.swift:732-750 | a first-page decode of the previous document that completes after a new document opens becomes the current image and page 0 of the cache and the view, in continuous mode |
| DocumentProperties.PreviousPageServedFromCache | DJVUReader/DJVUDocument.swift:732-751 | a page-p decode of the previous document clears the in-flight flag while the new first page is still decoding, lands in the cache under p, and a later request for p shows it |
| DocumentProperties.PagesToLoadAfterFirst | DJVUReader/DJVUDocument.swift:176-178 | with only page 0 in the view, the pages to load are 1..n-1 in order |

## Left out

- File access, `Process` runs of `djvused` and `ddjvu`, and PDFKit rendering are not modelled. Their answers are the `OpenEnvironment` parameter and the decode outcomes passed to the completion methods.
- Rendering scales, the `ddjvu` conversion settings, file-size checks and temporary files are left out. Only whether a decode produced an image is modelled.
- Dispatch queues, threads and `Thread.sleep` are left out. Each enqueued block runs at the point where it is enqueued, so other interleavings are not explored. One exception is the PDF finding below.
- `DispatchGroup` waiting between batches is left out. The model yields the batches; their decodes are separate `LoadPageForContinuous`/`FinishContinuousLoad` calls.
- Reading the cache and the in-flight sets from other threads is not modelled. The Swift code does this unsynchronised, and it is a data race.
- Progress values are not modelled: `backgroundLoadingProgress`, `continuousLoadingProgress`, `completedPreloads`, `isBackgroundLoading`, `isContinuousLoading` and `updateBackgroundProgress`. They are Doubles and counters that only feed progress views.
- Thumbnails are left out: `thumbnailCache`, `getThumbnail` and `loadThumbnail`. They are PDFKit and image work outside the page cache.
- `pdfDocument` is not modelled. Choosing the PDF or the DjVu backend for a decode is folded into the decode outcome. Note that `pdfDocument` is never reset when another document is opened.
- `findSystemExecutable`, `copyToTempWithASCIIName` and `testDJVUPageExists` are left out. Their results are fields of `OpenEnvironment`.
- `print` logging is left out.
- The objects `Logger`, `PerformanceMonitor`, `FileUtilities` and `SystemIntegration` are not part of this model. Nor are the `NSImage`/`String`/`View`/`Color` extensions apart from `isValidPageNumber`, or the UI files.
- `DocumentStateManager` persistence in `UserDefaults` is left out. The constructor takes the loaded list as a parameter.
- `URL` parsing is not modelled. A `Url` carries its path, last path component and extension.
- SwiftText.Lowercased, SwiftText.LowerChar: only ASCII letters are lowercased, where Swift lowercases all of Unicode. A few non-ASCII characters do lowercase to ASCII text (U+212A KELVIN SIGN to `k`, U+0130 to `i` plus a combining dot), but none lowercases to `p`, `d`, `f`, `j`, `v` or `u`. So loader selection is unaffected. Only the extension shown in the unsupported-format message could differ.
- SwiftText.IsDigit: `CharacterSet.decimalDigits` also contains non-ASCII decimal digits, and the model treats only `0`-`9` as digits.
- Characters are Unicode scalars, not grapheme clusters.
- Swift's trapping `Int` overflow is not modelled outside `Int(String)`: the model's integers are unbounded. A djvused count of `-9223372036854775808` is accepted, and the Swift `totalPages - 1` in `nextPage` (DJVUDocument.swift line 1185) would then trap, while `NextPageStep` computes it without trapping.
- Document.DjvuDocument.SetViewMode, PopulateContinuousFromCache, StartBackgroundPreloading, LoadAllPagesForContinuousView, PublishDecoded, FinishDisplayLoad, PreloadAfterDisplaying: these require `totalPages >= 0` (the last three only for a first-page decode). A negative count would make the Swift range `0..<totalPages` trap, and a negative count can come from `djvused` printing a negative number; a first-page decode of the previous document that completes after such an open also reaches the trap.

### Behaviour of the code that differs from its documentation

- Eviction keeps no page on purpose: the code evicts the lowest-numbered pages, whichever page is on screen or was inserted last (`LowestPageAlwaysEvicted`). It does not evict in insertion order.
- Decodes for the continuous view store into the cache without calling `limitCacheSize`. So the cache can exceed 20 pages (`ContinuousDoneCanExceedLimit`), and the next store trims it back to 15.
- A page count parsed from the whole `djvused` output is used even when it is zero or negative (`ParsePageCount`). The first-number fallback requires it to be positive.
- Decodes that were started for a previous document are not told apart from the new document's own. When one completes after a new document has opened:
  - its image is stored in the new document's cache under its page number, and it clears the in-flight flag although the new first page is still decoding;
  - a later request for that page shows the old document's image (`PreviousPageServedFromCache`);
  - a page-0 decode of the old document is shown at once as the new current image, because the new document's current page is 0; it also switches to the continuous view and starts a preload pass (`PreviousFirstPageShownAsNew`).

## Findings

| source | as written | input that shows it | evidently intended | confidence | as-written member | corrected member |
|---|---|---|---|---|---|---|
| DJVUReader/DJVUDocument.swift:76-85, 361-372 | `loadDocument` queues the reset (`isLoaded = false`, `currentImage = nil`, continuous view cleared) on the main queue. It then calls `loadPDFDocument` synchronously on the main thread, which sets `isLoaded = true` and starts page 0. The queued reset runs afterwards and clears `isLoaded` again. | any PDF that PDFKit opens with at least one page | the reset happens before the document is loaded, so a successfully opened PDF ends up loaded (the DjVu path gets this order because its success blocks are queued after the reset) | not executed | Document.PdfOpenAsWritten, DocumentProperties.PdfOpenAsWrittenLeavesUnloaded | Document.LoadDocumentStep, DocumentProperties.OpenedDocumentIsLoaded |
