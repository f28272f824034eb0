/**
 * What the document object promises, proved about the step functions that its
 * methods are shown to implement: how a page request is answered, that a stale
 * decode never replaces the page on screen, that navigation is ignored while a
 * page is in flight, that the preload and continuous-view in-flight sets keep a
 * page from being decoded twice at once, and what opening a document leads to.
 */
module DocumentProperties {
  import opened Options
  import opened Sequences
  import opened SwiftText
  import opened PageCache
  import opened Preload
  import opened ContinuousFill
  import opened PageCount
  import opened DocumentFormat
  import opened Document

  // ---------------------------------------------------------------------------
  // Asking for a page

  /** An index outside the document, or a request while another page is in flight, changes nothing. */
  lemma LoadPageIgnored(s: Session, pageIndex: int)
    requires !(0 <= pageIndex < s.totalPages) || s.isLoadingPage
    ensures LoadPageStep(s, pageIndex) == (s, Idle)
  {
  }

  /**
   * A cached page is shown at once: it becomes the current page and image, the
   * loading indicator is cleared, no decode is started, and its uncached, unqueued
   * neighbours are queued for preloading.
   */
  lemma LoadPageFromCache(s: Session, pageIndex: int)
    requires 0 <= pageIndex < s.totalPages && !s.isLoadingPage && pageIndex in s.imageCache
    ensures var (r, work) := LoadPageStep(s, pageIndex);
      && r.currentPage == pageIndex
      && r.currentImage == Some(s.imageCache[pageIndex])
      && !r.isLoading && !r.isLoadingPage
      && r.imageCache == s.imageCache
      && work.display.None?
      && (forall p :: p in work.preloads <==>
            (p == pageIndex - 1 || p == pageIndex + 1) && 0 <= p < s.totalPages
            && p !in s.imageCache && p !in s.preloadQueue)
      && r.preloadQueue == s.preloadQueue + Elems(work.preloads)
  {
    AdjacentScheduledSpec(pageIndex, s.totalPages, s.imageCache.Keys, s.preloadQueue);
  }

  /** An uncached page becomes current at once and a single decode for display is started. */
  lemma LoadPageStartsDecode(s: Session, pageIndex: int)
    requires 0 <= pageIndex < s.totalPages && !s.isLoadingPage && pageIndex !in s.imageCache
    ensures var (r, work) := LoadPageStep(s, pageIndex);
      && r == s.(isLoadingPage := true, isLoading := true, currentPage := pageIndex)
      && work == Work(Some(DisplayRequest(pageIndex, false)), [], [])
  {
  }

  /** While a page is in flight, every navigation request and every page request is ignored. */
  lemma NavigationIgnoredWhileLoading(s: Session, page: int)
    requires s.isLoadingPage
    ensures NextPageStep(s) == (s, Idle)
    ensures PreviousPageStep(s) == (s, Idle)
    ensures GoToPageStep(s, page) == (s, Idle)
    ensures LoadPageStep(s, page) == (s, Idle)
  {
  }

  /** Starting a decode closes the door: until it completes, no further request gets through. */
  lemma DecodeInFlightBlocksRequests(s: Session, pageIndex: int, other: int)
    requires 0 <= pageIndex < s.totalPages && !s.isLoadingPage && pageIndex !in s.imageCache
    ensures var r := LoadPageStep(s, pageIndex).0;
      && NextPageStep(r) == (r, Idle)
      && PreviousPageStep(r) == (r, Idle)
      && GoToPageStep(r, other) == (r, Idle)
      && LoadPageStep(r, other) == (r, Idle)
  {
    NavigationIgnoredWhileLoading(LoadPageStep(s, pageIndex).0, other);
  }

  /** `goToPage` changes the state exactly when no page is in flight and the target is another page of the document. */
  lemma GoToPageActsIff(s: Session, page: int)
    ensures GoToPageStep(s, page).0 != s <==>
      !s.isLoadingPage && 0 <= page < s.totalPages && page != s.currentPage
    ensures GoToPageStep(s, page).0 != s ==> GoToPageStep(s, page).0.currentPage == page
  {
    if !s.isLoadingPage && 0 <= page < s.totalPages && page != s.currentPage {
      assert GoToPageStep(s, page).0.currentPage == page;
    }
  }

  /** On a valid current page, `nextPage` acts exactly when it is not the last page and nothing is in flight; it moves forward by one. */
  lemma NextPageActsIff(s: Session)
    requires 0 <= s.currentPage
    ensures NextPageStep(s).0 != s <==> !s.isLoadingPage && s.currentPage < s.totalPages - 1
    ensures NextPageStep(s).0 != s ==> NextPageStep(s).0.currentPage == s.currentPage + 1
  {
    if !s.isLoadingPage && s.currentPage < s.totalPages - 1 {
      assert NextPageStep(s).0.currentPage == s.currentPage + 1;
    }
  }

  /**
   * `previousPage` acts only when nothing is in flight and this is not the first
   * page, and then moves back by one. On a current page inside the document, it
   * acts exactly then; on a page beyond the document, which opening a document
   * with fewer pages leaves behind, it may do nothing.
   */
  lemma PreviousPageActsIff(s: Session)
    ensures PreviousPageStep(s).0 != s ==> !s.isLoadingPage && s.currentPage > 0
    ensures s.currentPage < s.totalPages && !s.isLoadingPage && s.currentPage > 0 ==> PreviousPageStep(s).0 != s
    ensures PreviousPageStep(s).0 != s ==> PreviousPageStep(s).0.currentPage == s.currentPage - 1
  {
    if !s.isLoadingPage && 0 < s.currentPage <= s.totalPages {
      assert PreviousPageStep(s).0.currentPage == s.currentPage - 1;
    }
  }

  // ---------------------------------------------------------------------------
  // A decode for display completes

  /** A decode always clears the in-flight flag, so navigation is possible again afterwards. */
  lemma DisplayDoneReleasesNavigation(s: Session, pageIndex: int, isFirstPage: bool, result: DisplayResult)
    ensures !DisplayDoneStep(s, pageIndex, isFirstPage, result).0.isLoadingPage
  {
    match result
    case Failed(_) =>
    case Decoded(image) =>
      var cached := Stored(s, pageIndex, image);
      var (published, batches) := Published(cached, pageIndex, image, isFirstPage);
      PreloadKeepsDisplayState(published.(isLoadingPage := false), pageIndex, isFirstPage);
  }

  /** The preloading started after a display decode touches only the preload queue. */
  lemma PreloadKeepsDisplayState(s: Session, pageIndex: int, isFirstPage: bool)
    ensures PreloadAfterDisplay(s, pageIndex, isFirstPage).0 == s.(preloadQueue := PreloadAfterDisplay(s, pageIndex, isFirstPage).0.preloadQueue)
  {
  }

  /**
   * The page that is still current when its decode succeeds is shown: its image
   * becomes the current image, the loading indicator and the error message are
   * cleared, and after the first page the view switches to continuous scrolling.
   */
  lemma DisplayDonePublishes(s: Session, pageIndex: int, isFirstPage: bool, image: Image)
    requires s.currentPage == pageIndex
    ensures var r := DisplayDoneStep(s, pageIndex, isFirstPage, Decoded(image)).0;
      && r.currentImage == Some(image)
      && r.currentPage == pageIndex
      && !r.isLoading && !r.isLoadingPage
      && r.errorMessage == ""
      && (isFirstPage ==> r.viewMode == Continuous)
      && (!isFirstPage ==> r.viewMode == s.viewMode)
  {
    var cached := Stored(s, pageIndex, image);
    var (published, batches) := Published(cached, pageIndex, image, isFirstPage);
    assert published.currentImage == Some(image) && !published.isLoading && published.errorMessage == "";
    PreloadKeepsDisplayState(published.(isLoadingPage := false), pageIndex, isFirstPage);
  }

  /**
   * A decode that completes after the user has moved to another page is only
   * cached: the current page, its image, the loading indicator, the error message
   * and the view mode are left as they were.
   */
  lemma StaleDisplayNotShown(s: Session, pageIndex: int, isFirstPage: bool, image: Image)
    requires s.currentPage != pageIndex
    ensures var r := DisplayDoneStep(s, pageIndex, isFirstPage, Decoded(image)).0;
      && r.currentPage == s.currentPage
      && r.currentImage == s.currentImage
      && r.isLoading == s.isLoading
      && r.errorMessage == s.errorMessage
      && r.viewMode == s.viewMode
      && r.continuousImages == s.continuousImages
      && r.imageCache == Trimmed(s.imageCache[pageIndex := image])
      && !r.isLoadingPage
  {
    PreloadKeepsDisplayState(Stored(s, pageIndex, image).(isLoadingPage := false), pageIndex, isFirstPage);
  }

  /**
   * A failed decode clears both loading flags and reports the page (numbered from
   * 1) in a non-empty message; nothing is cached or queued.
   */
  lemma DisplayDoneFailure(s: Session, pageIndex: int, isFirstPage: bool, reason: DisplayFailure)
    ensures var (r, work) := DisplayDoneStep(s, pageIndex, isFirstPage, Failed(reason));
      && r == s.(isLoading := false, isLoadingPage := false, errorMessage := DisplayErrorText(reason, pageIndex))
      && r.errorMessage != []
      && work == Idle
  {
  }

  /** The decode completion caches the image through `Stored` and touches the cache no further. */
  lemma DisplayDoneCache(s: Session, pageIndex: int, isFirstPage: bool, image: Image)
    ensures DisplayDoneStep(s, pageIndex, isFirstPage, Decoded(image)).0.imageCache == Stored(s, pageIndex, image).imageCache
  {
    var cached := Stored(s, pageIndex, image);
    var (published, batches) := Published(cached, pageIndex, image, isFirstPage);
    assert published.imageCache == cached.imageCache;
    PreloadKeepsDisplayState(published.(isLoadingPage := false), pageIndex, isFirstPage);
  }

  /**
   * Storing a decoded page leaves at most 20 pages in the cache; below the limit
   * the page is simply added, and every page that stays keeps its image.
   */
  lemma StoredCacheBounded(s: Session, pageIndex: int, image: Image)
    ensures var c := Stored(s, pageIndex, image).imageCache;
      && |c| <= CacheLimit
      && c.Keys <= s.imageCache.Keys + {pageIndex}
      && (pageIndex in c ==> c[pageIndex] == image)
      && (|s.imageCache[pageIndex := image]| <= CacheLimit ==> c == s.imageCache[pageIndex := image])
  {
    var grown := s.imageCache[pageIndex := image];
    TrimmedWithinLimit(grown);
    if |grown| <= CacheLimit {
      TrimmedSmallCacheUnchanged(grown);
    } else {
      TrimmedLargeCacheSize(grown);
    }
  }

  /** A successful decode for display leaves at most 20 pages in the cache. */
  lemma DisplayDoneCacheBounded(s: Session, pageIndex: int, isFirstPage: bool, image: Image)
    ensures |DisplayDoneStep(s, pageIndex, isFirstPage, Decoded(image)).0.imageCache| <= CacheLimit
  {
    DisplayDoneCache(s, pageIndex, isFirstPage, image);
    StoredCacheBounded(s, pageIndex, image);
  }

  /** Asking for an uncached page and then completing its decode shows exactly that page. */
  lemma RequestThenDecodeShowsPage(s: Session, pageIndex: int, image: Image)
    requires 0 <= pageIndex < s.totalPages && !s.isLoadingPage && pageIndex !in s.imageCache
    ensures var (requested, work) := LoadPageStep(s, pageIndex);
      && work.display == Some(DisplayRequest(pageIndex, false))
      && var done := DisplayDoneStep(requested, pageIndex, false, Decoded(image)).0;
      && done.currentPage == pageIndex
      && done.currentImage == Some(image)
      && !done.isLoading && !done.isLoadingPage
      && done.errorMessage == ""
  {
    var requested := LoadPageStep(s, pageIndex).0;
    DisplayDonePublishes(requested, pageIndex, false, image);
  }

  /** A decode never changes whether a document counts as loaded. */
  lemma DisplayDoneKeepsLoadedFlag(s: Session, pageIndex: int, isFirstPage: bool, result: DisplayResult)
    ensures DisplayDoneStep(s, pageIndex, isFirstPage, result).0.isLoaded == s.isLoaded
    ensures DisplayDoneStep(s, pageIndex, isFirstPage, result).0.totalPages == s.totalPages
  {
    match result
    case Failed(_) =>
    case Decoded(image) =>
      var cached := Stored(s, pageIndex, image);
      var (published, batches) := Published(cached, pageIndex, image, isFirstPage);
      PreloadKeepsDisplayState(published.(isLoadingPage := false), pageIndex, isFirstPage);
  }

  // ---------------------------------------------------------------------------
  // Silent preloading

  /**
   * After the first page is shown the whole document is preloaded: every page
   * other than the current one that is neither cached nor queued is scheduled
   * once, and all of them end up in the queue.
   */
  lemma BackgroundPreloadCoversDocument(s: Session, startPage: int)
    ensures var (r, scheduled) := BackgroundStep(s, startPage);
      && (forall p :: p in scheduled <==>
            0 <= p < s.totalPages && p != startPage && p !in s.imageCache && p !in s.preloadQueue)
      && Distinct(scheduled)
      && r == s.(preloadQueue := s.preloadQueue + Elems(scheduled))
  {
    PreloadPassSpec(startPage, s.totalPages, s.imageCache.Keys, s.preloadQueue);
  }

  /** Scheduling never hands out a page that is cached or already queued: no page is preloaded twice at once. */
  lemma PreloadNeverDuplicates(s: Session, center: int, isFirstPage: bool)
    ensures var (r, scheduled) := PreloadAfterDisplay(s, center, isFirstPage);
      && Distinct(scheduled)
      && (forall p :: p in scheduled ==> p !in s.imageCache && p !in s.preloadQueue && 0 <= p < s.totalPages)
  {
    if isFirstPage {
      PreloadPassSpec(center, s.totalPages, s.imageCache.Keys, s.preloadQueue);
    } else {
      AdmitSpec([center - 1, center + 1], s.totalPages, s.imageCache.Keys, s.preloadQueue, p => p);
    }
  }

  /** A finished preload always leaves the queue; the image, if there is one, is cached (subject to trimming). */
  lemma PreloadDoneLeavesQueue(s: Session, pageIndex: int, result: Option<Image>)
    ensures var r := PreloadDoneStep(s, pageIndex, result);
      && r.preloadQueue == s.preloadQueue - {pageIndex}
      && (result.Some? ==> |r.imageCache| <= CacheLimit)
      && (result.None? ==> r.imageCache == s.imageCache)
      && (result.Some? && |s.imageCache[pageIndex := result.value]| <= CacheLimit ==>
            pageIndex in r.imageCache && r.imageCache[pageIndex] == result.value)
  {
    if result.Some? {
      var grown := s.imageCache[pageIndex := result.value];
      TrimmedWithinLimit(grown);
      if |grown| <= CacheLimit {
        TrimmedSmallCacheUnchanged(grown);
      }
    }
  }

  // ---------------------------------------------------------------------------
  // The continuous view

  /** A continuous-view decode is started exactly for a page that is neither cached nor already in flight. */
  lemma ContinuousBeginIff(s: Session, pageIndex: int)
    ensures var (r, started) := ContinuousBeginStep(s, pageIndex);
      && (started <==> pageIndex !in s.imageCache && pageIndex !in s.continuousLoadingQueue)
      && (started ==> r.continuousLoadingQueue == s.continuousLoadingQueue + {pageIndex})
      && (!started ==> r.continuousLoadingQueue == s.continuousLoadingQueue)
      && (pageIndex !in s.imageCache && pageIndex in s.continuousLoadingQueue ==> r == s)
      && (pageIndex in s.imageCache ==> r.continuousImages == s.continuousImages[pageIndex := s.imageCache[pageIndex]])
      && r.imageCache == s.imageCache
  {
  }

  /** Two requests for the same page with no completion in between start at most one decode. */
  lemma ContinuousRequestsCoalesce(s: Session, pageIndex: int)
    ensures var (s1, first) := ContinuousBeginStep(s, pageIndex);
      !ContinuousBeginStep(s1, pageIndex).1
  {
    var (s1, first) := ContinuousBeginStep(s, pageIndex);
    if first {
      assert pageIndex !in s1.imageCache && pageIndex in s1.continuousLoadingQueue;
    } else if pageIndex in s.imageCache {
      assert pageIndex in s1.imageCache;
    } else {
      assert s1 == s;
    }
  }

  /** A finished continuous decode always leaves the in-flight set; a decoded image reaches both the cache and the view. */
  lemma ContinuousDoneSpec(s: Session, pageIndex: int, result: Option<Image>)
    ensures var r := ContinuousDoneStep(s, pageIndex, result);
      && pageIndex !in r.continuousLoadingQueue
      && r.continuousLoadingQueue == s.continuousLoadingQueue - {pageIndex}
      && (result.Some? ==> r.imageCache[pageIndex] == result.value && r.continuousImages[pageIndex] == result.value)
      && (result.None? ==> r.imageCache == s.imageCache && r.continuousImages == s.continuousImages)
  {
  }

  /**
   * The continuous path stores without trimming, so it can push the cache past
   * 20 pages: a cache holding pages 0..19 grows to 21 pages.
   */
  lemma ContinuousDoneCanExceedLimit(s: Session, image: Image)
    requires forall p :: p in s.imageCache <==> 0 <= p < 20
    ensures |s.imageCache| == CacheLimit
    ensures |ContinuousDoneStep(s, 20, Some(image)).imageCache| == CacheLimit + 1
  {
    SameKeysRangeSize(s.imageCache, 20);
    SameKeysRangeSize(ContinuousDoneStep(s, 20, Some(image)).imageCache, 21);
  }

  /** A map whose keys are exactly 0..n-1 holds n entries. */
  lemma SameKeysRangeSize(m: map<int, Image>, n: nat)
    requires forall p :: p in m <==> 0 <= p < n
    ensures |m| == n
  {
    var keys := Range(0, n);
    assert Distinct(keys);
    forall p
      ensures p in keys <==> 0 <= p < n
    {
      if 0 <= p < n {
        assert keys[p] == p;
      }
    }
    DistinctCardinality(keys);
    assert m.Keys == Elems(keys);
  }

  /**
   * Switching to the continuous view fills it with exactly the cached pages of the
   * document, and the batches it requests cover exactly the other pages, in
   * ascending order, at most three at a time.
   */
  lemma ContinuousViewFill(s: Session)
    ensures var (r, batches) := ViewModeStep(s, Continuous);
      && r.viewMode == Continuous
      && (forall p :: p in r.continuousImages <==> p in s.imageCache && 0 <= p < s.totalPages)
      && (forall p :: p in r.continuousImages ==> r.continuousImages[p] == s.imageCache[p])
      && (forall p :: p in Flatten(batches) <==> 0 <= p < s.totalPages && p !in s.imageCache)
      && StrictlyIncreasing(Flatten(batches))
      && (forall b :: 0 <= b < |batches| ==> 1 <= |batches[b]| <= BatchSize)
      && r.imageCache == s.imageCache
  {
    var (r, batches) := ViewModeStep(s, Continuous);
    var pages := PagesToLoad(s.totalPages, r.continuousImages);
    assert r.continuousImages == CachedInRange(s.imageCache, s.totalPages);
    PagesToLoadSpec(s.totalPages, r.continuousImages);
    BatchesSpec(pages);
  }

  // ---------------------------------------------------------------------------
  // Opening a document

  /** A document opens only with access granted, an existing file and a supported extension, through the loader it names. */
  lemma OpenedNeedsSupportedFile(url: Url, env: OpenEnvironment)
    requires OpenDocument(url, env).Opened?
    ensures env.accessGranted && env.fileExists
    ensures OpenDocument(url, env).kind == LoaderKind(url) && !LoaderKind(url).Unsupported?
  {
  }

  /** Every way of failing to open a document leaves a message. */
  lemma OpenFailureHasMessage(url: Url, env: OpenEnvironment)
    requires OpenDocument(url, env).OpenFailed?
    ensures OpenDocument(url, env).message != []
  {
  }

  /** A djvused answer of n, with any surrounding blanks, becomes the page count. */
  lemma DjvusedCountOpensDocument(url: Url, env: OpenEnvironment, n: nat, pre: string, post: string)
    requires env.accessGranted && env.fileExists && LoaderKind(url) == Djvu
    requires env.djvusedFound && (HasNonAsciiCharacters(url) ==> env.asciiCopyMade)
    requires n <= IntMax && AllWhitespace(pre) && AllWhitespace(post)
    requires env.djvusedOutput == Some(pre + DecimalString(n) + post)
    ensures OpenDocument(url, env) == Opened(Djvu, n)
  {
    DjvusedCountRoundTrip(n, pre, post);
  }

  /**
   * Without a usable djvused answer the count comes from rendering pages with
   * ddjvu: between 1 and 50, every page up to it renders, and the next does not
   * unless the cap was reached.
   */
  lemma ProbeOpensDocument(url: Url, env: OpenEnvironment)
    requires env.accessGranted && env.fileExists && LoaderKind(url) == Djvu
    requires env.djvusedFound && (HasNonAsciiCharacters(url) ==> env.asciiCopyMade)
    requires DjvusedCount(env).None?
    requires env.ddjvuFound && env.probeLaunchError.None? && env.firstPageRendered
    ensures OpenDocument(url, env).Opened?
    ensures var n := OpenDocument(url, env).pages;
      && 1 <= n <= ProbeLimit
      && (forall p :: 2 <= p <= n ==> env.pageExists(p))
      && (n < ProbeLimit ==> !env.pageExists(n + 1))
  {
    ProbeCountSpec(env.pageExists);
  }

  /** Opening always clears the previous document's caches and in-flight sets. */
  lemma LoadDocumentClearsCaches(s: Session, url: Url, env: OpenEnvironment)
    ensures var r := LoadDocumentStep(s, url, env).0;
      && r.imageCache == map[] && r.preloadQueue == {} && r.continuousLoadingQueue == {}
      && r.continuousImages == map[]
      && r.documentUrl == Some(url)
  {
  }

  /** A failed open leaves the document unloaded with the loader's message. */
  lemma LoadDocumentFailure(s: Session, url: Url, env: OpenEnvironment)
    requires OpenDocument(url, env).OpenFailed?
    ensures var (r, work) := LoadDocumentStep(s, url, env);
      && !r.isLoaded
      && r.errorMessage == OpenDocument(url, env).message
      && r.currentImage == None
      && work == Idle
  {
  }

  /**
   * A successful open of a non-empty document marks it loaded with its page
   * count and starts the decode of page 0 as the first page.
   */
  lemma OpenedDocumentIsLoaded(s: Session, url: Url, env: OpenEnvironment)
    requires OpenDocument(url, env).Opened? && OpenDocument(url, env).pages > 0
    ensures var (r, work) := LoadDocumentStep(s, url, env);
      && r.isLoaded
      && r.totalPages == OpenDocument(url, env).pages
      && r.currentPage == 0 && r.isLoading && r.isLoadingPage
      && r.errorMessage == ""
      && work == Work(Some(DisplayRequest(0, true)), [], [])
  {
  }

  /**
   * As the main queue really runs `loadDocument` for a PDF, the reset block runs
   * after `loadPDFDocument` and leaves the document marked as not loaded, and no
   * later decode sets the flag again.
   */
  lemma PdfOpenAsWrittenLeavesUnloaded(s: Session, url: Url, env: OpenEnvironment, image: Image)
    requires OpenDocument(url, env).Opened? && OpenDocument(url, env).kind == Pdf
    requires OpenDocument(url, env).pages > 0
    ensures var (r, work) := PdfOpenAsWritten(s, url, OpenDocument(url, env).pages);
      && !r.isLoaded
      && work.display == Some(DisplayRequest(0, true))
      && !DisplayDoneStep(r, 0, true, Decoded(image)).0.isLoaded
    ensures LoadDocumentStep(s, url, env).0.isLoaded
  {
    var (r, work) := PdfOpenAsWritten(s, url, OpenDocument(url, env).pages);
    DisplayDoneKeepsLoadedFlag(r, 0, true, Decoded(image));
    OpenedDocumentIsLoaded(s, url, env);
  }

  /** A freshly opened document of n > 0 pages: everything reset, page 0 current and in flight as the first page. */
  lemma OpenedState(s: Session, url: Url, env: OpenEnvironment)
    requires OpenDocument(url, env).Opened? && OpenDocument(url, env).pages > 0
    ensures var r := LoadDocumentStep(s, url, env).0;
      && r.imageCache == map[] && r.preloadQueue == {} && r.currentPage == 0
      && r.totalPages == OpenDocument(url, env).pages
  {
  }

  /** Page 0 decoded into an empty cache: the cache then holds just that page. */
  lemma StoredFirst(s: Session, image: Image)
    requires s.imageCache == map[]
    ensures Stored(s, 0, image) == s.(imageCache := map[0 := image])
  {
    TrimmedSmallCacheUnchanged(map[0 := image]);
  }

  /** Publishing page 0 as the first page, with only it cached: the continuous view holds it and requests pages 1..n-1. */
  lemma PublishedFirst(s: Session, image: Image)
    requires s.imageCache == map[0 := image] && s.currentPage == 0 && s.totalPages > 0
    ensures var (r, batches) := Published(s, 0, image, true);
      && r.currentImage == Some(image)
      && r.viewMode == Continuous
      && r.continuousImages == map[0 := image]
      && Flatten(batches) == Range(1, s.totalPages)
      && r.imageCache == s.imageCache && r.preloadQueue == s.preloadQueue && r.totalPages == s.totalPages
  {
    var single := map[0 := image];
    assert CachedInRange(single, s.totalPages) == single;
    PagesToLoadAfterFirst(s.totalPages, image);
    BatchesSpec(Range(1, s.totalPages));
  }

  /** The preload after the first page, with only page 0 cached and nothing queued, schedules every other page once. */
  lemma PreloadFirst(s: Session)
    requires s.imageCache.Keys == {0} && s.preloadQueue == {}
    ensures var (r, scheduled) := PreloadAfterDisplay(s, 0, true);
      && (forall p :: p in scheduled <==> 1 <= p < s.totalPages)
      && Distinct(scheduled)
      && r == s.(preloadQueue := Elems(scheduled))
  {
    BackgroundPreloadCoversDocument(s, 0);
  }

  /**
   * The whole first-page flow of a freshly opened document of n pages: once page 0
   * is decoded it is shown, it fills the continuous view, the batches request
   * pages 1..n-1 in order, and every one of those pages is queued for preloading.
   */
  lemma FirstPageFlow(s: Session, url: Url, env: OpenEnvironment, image: Image)
    requires OpenDocument(url, env).Opened? && OpenDocument(url, env).pages > 0
    ensures var n := OpenDocument(url, env).pages;
      var loaded := LoadDocumentStep(s, url, env).0;
      var (r, work) := DisplayDoneStep(loaded, 0, true, Decoded(image));
      && r.currentImage == Some(image)
      && r.viewMode == Continuous
      && r.continuousImages == map[0 := image]
      && r.imageCache == map[0 := image]
      && Flatten(work.batches) == Range(1, n)
      && (forall p :: p in work.preloads <==> 1 <= p < n)
      && Distinct(work.preloads)
  {
    var loaded := LoadDocumentStep(s, url, env).0;
    OpenedState(s, url, env);
    StoredFirst(loaded, image);
    var cached := Stored(loaded, 0, image);
    PublishedFirst(cached, image);
    var (published, batches) := Published(cached, 0, image, true);
    var settled := published.(isLoadingPage := false);
    PreloadFirst(settled);
    var (r, scheduled) := PreloadAfterDisplay(settled, 0, true);
    assert DisplayDoneStep(loaded, 0, true, Decoded(image)) == (r, Work(None, scheduled, batches));
  }

  /**
   * A first-page decode left over from the previous document is indistinguishable
   * from the new document's own: completing after the new document opens, its
   * image becomes the current image and page 0 of the cache and the view.
   */
  lemma PreviousFirstPageShownAsNew(s: Session, url: Url, env: OpenEnvironment, stale: Image)
    requires OpenDocument(url, env).Opened? && OpenDocument(url, env).pages > 0
    ensures var r := DisplayDoneStep(LoadDocumentStep(s, url, env).0, 0, true, Decoded(stale)).0;
      && r.currentImage == Some(stale)
      && r.imageCache == map[0 := stale]
      && r.continuousImages == map[0 := stale]
      && r.viewMode == Continuous
  {
    FirstPageFlow(s, url, env, stale);
  }

  /**
   * A decode of page p left over from the previous document lands in the new
   * document's cache under p and clears the in-flight flag although the new
   * document's first page is still decoding; asking for page p then shows the
   * old document's image.
   */
  lemma PreviousPageServedFromCache(s: Session, url: Url, env: OpenEnvironment, p: int, stale: Image)
    requires OpenDocument(url, env).Opened? && 1 <= p < OpenDocument(url, env).pages
    ensures var loaded := LoadDocumentStep(s, url, env).0;
      var r := DisplayDoneStep(loaded, p, false, Decoded(stale)).0;
      && loaded.isLoadingPage && !r.isLoadingPage
      && r.imageCache == map[p := stale]
      && LoadPageStep(r, p).0.currentImage == Some(stale)
  {
    var loaded := LoadDocumentStep(s, url, env).0;
    OpenedState(s, url, env);
    OpenedDocumentIsLoaded(s, url, env);
    StaleDisplayNotShown(loaded, p, false, stale);
    assert loaded.imageCache[p := stale] == map[p := stale];
    TrimmedSmallCacheUnchanged(map[p := stale]);
    var r := DisplayDoneStep(loaded, p, false, Decoded(stale)).0;
    DisplayDoneKeepsLoadedFlag(loaded, p, false, Decoded(stale));
    LoadPageFromCache(r, p);
  }

  /** With only page 0 shown, the pages still to load are 1..n-1 in order. */
  lemma {:induction false} PagesToLoadAfterFirst(n: int, image: Image)
    requires n > 0
    ensures PagesToLoad(n, map[0 := image]) == Range(1, n)
    decreases n
  {
    if n > 1 {
      PagesToLoadAfterFirst(n - 1, image);
    }
  }
}
