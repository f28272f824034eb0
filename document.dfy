/**
 * The document object of the viewer: the state it publishes to the views, the
 * page cache, the two in-flight sets, and every operation that changes them.
 *
 * Each operation is given twice: a pure step function on a `Session` (a value
 * holding every modelled field), which is what the properties are proved about,
 * and a method of `DjvuDocument` that updates the fields in place the way the
 * Swift code does and is proved to produce exactly the step's new state.
 *
 * The work blocks the Swift code hands to its dispatch queues are applied at the
 * point where they are enqueued. What happens on another thread and comes back
 * later (a page decode finishing) is a separate operation whose outcome is a
 * parameter: `FinishDisplayLoad`, `FinishPreload`, `FinishContinuousLoad`.
 */
module Document {
  import opened Options
  import opened Sequences
  import opened SwiftText
  import opened PageCache
  import opened Preload
  import opened ContinuousFill
  import opened PageCount
  import opened DocumentFormat

  datatype ViewMode = Single | Continuous

  /** Every modelled field of the document object, as one value. */
  datatype Session = Session(
    currentPage: int,
    totalPages: int,
    currentImage: Option<Image>,
    isLoaded: bool,
    errorMessage: string,
    isLoading: bool,
    viewMode: ViewMode,
    continuousImages: map<int, Image>,
    imageCache: map<int, Image>,
    isLoadingPage: bool,
    preloadQueue: set<int>,
    continuousLoadingQueue: set<int>,
    documentUrl: Option<Url>)

  /** The state of a freshly created document object. */
  const Initial: Session :=
    Session(0, 0, None, false, "", false, Continuous, map[], map[], false, {}, {}, None)

  /** A decode for display handed to the background queue. */
  datatype DisplayRequest = DisplayRequest(page: int, isFirstPage: bool)

  /**
   * The background work an operation starts: at most one decode for display, the
   * pages given to the silent preloader (in order), and the batches of pages the
   * continuous view then requests through `LoadPageForContinuous`.
   */
  datatype Work = Work(display: Option<DisplayRequest>, preloads: seq<int>, batches: seq<seq<int>>)

  const Idle: Work := Work(None, [], [])

  /** Why a decode for display produced no image. */
  datatype DisplayFailure =
    | PdfPageMissing     // the PDF has no page at that index
    | DdjvuMissing       // the ddjvu tool is not installed
    | ConversionsFailed  // every ddjvu conversion setting failed

  datatype DisplayResult = Decoded(image: Image) | Failed(reason: DisplayFailure)

  /** The message shown when a page could not be decoded for display; pages are numbered from 1. */
  function DisplayErrorText(reason: DisplayFailure, pageIndex: int): (m: string)
    ensures m != []
  {
    match reason
    case PdfPageMissing => "Не удалось загрузить PDF страницу " + Interpolated(pageIndex + 1)
    case DdjvuMissing => "ddjvu не найден"
    case ConversionsFailed =>
      "Не удалось загрузить страницу " + Interpolated(pageIndex + 1) + ". Возможно, она имеет сложную структуру."
  }

  // ---------------------------------------------------------------------------
  // Opening a document

  /**
   * What the outside world answers while a document is opened: the sandbox and
   * the file system, PDFKit, and the djvulibre command-line tools.
   */
  datatype OpenEnvironment = OpenEnvironment(
    accessGranted: bool,              // startAccessingSecurityScopedResource()
    fileExists: bool,
    pdfPageCount: Option<nat>,        // PDFDocument(url:) opened, and its pageCount
    djvusedFound: bool,
    asciiCopyMade: bool,              // the temporary copy under an ASCII name was made
    djvusedOutput: Option<string>,    // the UTF-8 output of `djvused -e n` when it exits with status 0
    ddjvuFound: bool,
    probeLaunchError: Option<string>, // the description of the error thrown when ddjvu cannot be launched
    firstPageRendered: bool,          // ddjvu rendered page 1
    pageExists: int -> bool)          // testDJVUPageExists for pages 2...50

  datatype Opening = Opened(kind: Kind, pages: int) | OpenFailed(message: string)

  const NoAccessMessage: string := "Нет доступа к выбранному файлу"
  const PdfOpenFailedMessage: string := "Не удалось загрузить PDF документ"
  const DjvuToolsMissingMessage: string :=
    "DJVU утилиты не установлены. Установите djvulibre через Homebrew: brew install djvulibre"
  const AsciiCopyFailedMessage: string := "Не удалось обработать файл с русским именем"
  const DdjvuNotFoundMessage: string := "ddjvu не найден для загрузки страниц"
  const DjvuLaunchFailedPrefix: string := "Ошибка при загрузке DJVU: "
  const DjvuDamagedMessage: string := "Не удалось загрузить DJVU файл. Проверьте его целостность."

  /** The page count djvused reports, when it ran and its output holds one. */
  function DjvusedCount(env: OpenEnvironment): Option<int>
  {
    if env.djvusedOutput.Some? then ParsePageCount(env.djvusedOutput.value) else None
  }

  /** `loadDJVUDocument`, `getDJVUPageCount` and the direct-load fallback, reduced to their outcome. */
  function DjvuOpening(url: Url, env: OpenEnvironment): Opening
  {
    if !env.djvusedFound then OpenFailed(DjvuToolsMissingMessage)
    else if HasNonAsciiCharacters(url) && !env.asciiCopyMade then OpenFailed(AsciiCopyFailedMessage)
    else if DjvusedCount(env).Some? then Opened(Djvu, DjvusedCount(env).value)
    else if !env.ddjvuFound then OpenFailed(DdjvuNotFoundMessage)
    else if env.probeLaunchError.Some? then OpenFailed(DjvuLaunchFailedPrefix + env.probeLaunchError.value)
    else if !env.firstPageRendered then OpenFailed(DjvuDamagedMessage)
    else Opened(Djvu, ProbeCount(env.pageExists))
  }

  /** The outcome of `loadDocument(from:)` after its guards and its dispatch on the extension. */
  function OpenDocument(url: Url, env: OpenEnvironment): Opening
  {
    if !env.accessGranted then OpenFailed(NoAccessMessage)
    else if !env.fileExists then OpenFailed("Файл не найден: " + url.lastPathComponent)
    else
      match LoaderKind(url)
      case Pdf => if env.pdfPageCount.Some? then Opened(Pdf, env.pdfPageCount.value) else OpenFailed(PdfOpenFailedMessage)
      case Djvu => DjvuOpening(url, env)
      case Unsupported(ext) => OpenFailed(UnsupportedFormatMessage(ext))
  }

  // ---------------------------------------------------------------------------
  // Step functions

  /** The cache block run after every decode for display or preload: store, then `limitCacheSize`. */
  function Stored(s: Session, pageIndex: int, image: Image): Session
  {
    s.(imageCache := Trimmed(s.imageCache[pageIndex := image]))
  }

  /** `schedulePreloadAdjacentPages(around:)`: the new state and the pages handed to the preloader. */
  function AdjacentStep(s: Session, center: int): (Session, seq<int>)
  {
    var scheduled := AdjacentScheduled(center, s.totalPages, s.imageCache.Keys, s.preloadQueue);
    (s.(preloadQueue := s.preloadQueue + Elems(scheduled)), scheduled)
  }

  /** `startBackgroundPreloading(from:)`: the new state and the pages handed to the preloader. */
  function BackgroundStep(s: Session, startPage: int): (Session, seq<int>)
  {
    var scheduled := PreloadPass(startPage, s.totalPages, s.imageCache.Keys, s.preloadQueue);
    (s.(preloadQueue := s.preloadQueue + Elems(scheduled)), scheduled)
  }

  /** `populateContinuousFromCache`: every cached page of the document is copied into the view. */
  function Populated(s: Session): Session
  {
    s.(continuousImages := s.continuousImages + CachedInRange(s.imageCache, s.totalPages))
  }

  /** `setViewMode(_:)`: the new state and the batches requested for the continuous view. */
  function ViewModeStep(s: Session, mode: ViewMode): (Session, seq<seq<int>>)
  {
    if mode == Continuous then
      var filled := Populated(s.(viewMode := mode, continuousImages := map[]));
      (filled, Batches(PagesToLoad(filled.totalPages, filled.continuousImages)))
    else
      (s.(viewMode := mode), [])
  }

  /** A cached page becomes the current page. */
  function Shown(s: Session, pageIndex: int, image: Image): Session
  {
    s.(currentImage := Some(image), currentPage := pageIndex, isLoading := false)
  }

  /** A display decode of `pageIndex` is started. */
  function Requested(s: Session, pageIndex: int): Session
  {
    s.(isLoadingPage := true, isLoading := true, currentPage := pageIndex)
  }

  /** `loadPage(_:)`. */
  function LoadPageStep(s: Session, pageIndex: int): (Session, Work)
  {
    if !(0 <= pageIndex < s.totalPages) || s.isLoadingPage then (s, Idle)
    else if pageIndex in s.imageCache then
      var (s1, scheduled) := AdjacentStep(Shown(s, pageIndex, s.imageCache[pageIndex]), pageIndex);
      (s1, Work(None, scheduled, []))
    else
      (Requested(s, pageIndex), Work(Some(DisplayRequest(pageIndex, false)), [], []))
  }

  /** `loadFirstPageOnly(_:)`: like `loadPage` but without the in-flight guard, and it starts the whole-document preload. */
  function FirstPageStep(s: Session, pageIndex: int): (Session, Work)
  {
    if !(0 <= pageIndex < s.totalPages) then (s, Idle)
    else if pageIndex in s.imageCache then
      var (s1, batches) := ViewModeStep(Shown(s, pageIndex, s.imageCache[pageIndex]), Continuous);
      var (s2, scheduled) := BackgroundStep(s1, pageIndex);
      (s2, Work(None, scheduled, batches))
    else
      (Requested(s, pageIndex), Work(Some(DisplayRequest(pageIndex, true)), [], []))
  }

  /**
   * The main-queue block after a successful decode for display: the image is shown
   * only if `pageIndex` is still the current page, and after the first page the
   * view switches to continuous scrolling.
   */
  function Published(s: Session, pageIndex: int, image: Image, isFirstPage: bool): (Session, seq<seq<int>>)
  {
    if s.currentPage == pageIndex then
      var shown := s.(currentImage := Some(image), isLoading := false, errorMessage := "");
      if isFirstPage then ViewModeStep(shown, Continuous) else (shown, [])
    else (s, [])
  }

  /** After a display decode: the whole document is preloaded after the first page, the two neighbours otherwise. */
  function PreloadAfterDisplay(s: Session, pageIndex: int, isFirstPage: bool): (Session, seq<int>)
  {
    if isFirstPage then BackgroundStep(s, pageIndex) else AdjacentStep(s, pageIndex)
  }

  /**
   * The end of a decode for display. On success the image is cached, then published,
   * the in-flight flag is cleared and preloading starts; on failure both loading
   * flags are cleared and an error message is set.
   */
  function DisplayDoneStep(s: Session, pageIndex: int, isFirstPage: bool, result: DisplayResult): (Session, Work)
  {
    match result
    case Failed(reason) =>
      (s.(isLoading := false, isLoadingPage := false, errorMessage := DisplayErrorText(reason, pageIndex)), Idle)
    case Decoded(image) =>
      var (published, batches) := Published(Stored(s, pageIndex, image), pageIndex, image, isFirstPage);
      var (s1, scheduled) := PreloadAfterDisplay(published.(isLoadingPage := false), pageIndex, isFirstPage);
      (s1, Work(None, scheduled, batches))
  }

  function NextPageStep(s: Session): (Session, Work)
  {
    if s.isLoadingPage then (s, Idle)
    else if s.currentPage < s.totalPages - 1 then LoadPageStep(s, s.currentPage + 1)
    else (s, Idle)
  }

  function PreviousPageStep(s: Session): (Session, Work)
  {
    if s.isLoadingPage then (s, Idle)
    else if s.currentPage > 0 then LoadPageStep(s, s.currentPage - 1)
    else (s, Idle)
  }

  function GoToPageStep(s: Session, page: int): (Session, Work)
  {
    if s.isLoadingPage then (s, Idle)
    else if 0 <= page < s.totalPages && page != s.currentPage then LoadPageStep(s, page)
    else (s, Idle)
  }

  /** The end of a silent preload: cache the image if one was produced; the page always leaves the queue. */
  function PreloadDoneStep(s: Session, pageIndex: int, result: Option<Image>): Session
  {
    var s1 := if result.Some? then Stored(s, pageIndex, result.value) else s;
    s1.(preloadQueue := s1.preloadQueue - {pageIndex})
  }

  /**
   * The start of `loadPageForContinuous`: a cached page is copied into the view, a
   * page already being decoded is left alone, any other page is marked in flight
   * and a decode is started (the Boolean).
   */
  function ContinuousBeginStep(s: Session, pageIndex: int): (Session, bool)
  {
    if pageIndex in s.imageCache then
      (s.(continuousImages := s.continuousImages[pageIndex := s.imageCache[pageIndex]]), false)
    else if pageIndex in s.continuousLoadingQueue then (s, false)
    else (s.(continuousLoadingQueue := s.continuousLoadingQueue + {pageIndex}), true)
  }

  /** The end of a continuous-view decode: the image goes to the cache (not trimmed) and the view; the page leaves the in-flight set. */
  function ContinuousDoneStep(s: Session, pageIndex: int, result: Option<Image>): Session
  {
    var s1 :=
      if result.Some? then
        s.(imageCache := s.imageCache[pageIndex := result.value],
           continuousImages := s.continuousImages[pageIndex := result.value])
      else s;
    s1.(continuousLoadingQueue := s1.continuousLoadingQueue - {pageIndex})
  }

  /** `clearCache()`. */
  function ClearCacheStep(s: Session): Session
  {
    s.(imageCache := map[], continuousImages := map[])
  }

  /** The main-queue block queued at the start of `loadDocument(from:)`. */
  function PublishedReset(s: Session): Session
  {
    s.(isLoaded := false, currentImage := None, continuousImages := map[])
  }

  /** The cache-queue block queued at the start of `loadDocument(from:)`. */
  function CachesReset(s: Session): Session
  {
    s.(imageCache := map[], preloadQueue := {}, continuousLoadingQueue := {})
  }

  /** The state reset at the start of `loadDocument(from:)`. */
  function Reset(s: Session, url: Url): Session
  {
    CachesReset(PublishedReset(s.(documentUrl := Some(url), errorMessage := "")))
  }

  /** What the loaders do with their outcome: set the error message, or set the page count and show page 0. */
  function OpenedStep(s: Session, outcome: Opening): (Session, Work)
  {
    match outcome
    case OpenFailed(message) => (s.(errorMessage := message), Idle)
    case Opened(_, pages) => FirstPageStep(s.(totalPages := pages, isLoaded := true), 0)
  }

  /** `loadDocument(from:)`, with the reset applied first. */
  function LoadDocumentStep(s: Session, url: Url, env: OpenEnvironment): (Session, Work)
  {
    OpenedStep(Reset(s, url), OpenDocument(url, env))
  }

  /**
   * `loadDocument(from:)` for a PDF in the order the main queue really runs it:
   * `loadPDFDocument` sets the page count and `isLoaded` and starts the first page
   * synchronously, and only afterwards does the reset block queued at the start
   * of `loadDocument` run, clearing `isLoaded` again. (The cache-clearing block is
   * taken to have run before the first page is looked up.)
   */
  function PdfOpenAsWritten(s: Session, url: Url, pages: int): (Session, Work)
  {
    var synchronous :=
      CachesReset(s.(documentUrl := Some(url), errorMessage := "")).(totalPages := pages, isLoaded := true);
    if 0 < pages then
      var started := synchronous.(isLoadingPage := true);
      (PublishedReset(started).(isLoading := true, currentPage := 0), Work(Some(DisplayRequest(0, true)), [], []))
    else
      (PublishedReset(synchronous), Idle)
  }

  // ---------------------------------------------------------------------------
  // The document object

  /** The loop of `limitCacheSize`: `removeValue(forKey:)` for each key in turn. */
  method RemoveKeys(cache: map<int, Image>, keys: seq<int>) returns (r: map<int, Image>)
    ensures r == cache - Elems(keys)
  {
    r := cache;
    for i := 0 to |keys|
      invariant r == cache - Elems(keys[..i])
    {
      assert keys[..i + 1] == keys[..i] + [keys[i]];
      assert Elems(keys[..i + 1]) == Elems(keys[..i]) + {keys[i]};
      r := r - {keys[i]};
    }
    assert keys[..|keys|] == keys;
  }

  /**
   * One scheduling loop of the preloader: each candidate that is a page of the
   * document, not in `skip` and not yet in the queue is inserted into the queue
   * and handed to the background decoder.
   */
  method ScheduleLoop(candidates: seq<int>, totalPages: int, skip: set<int>, queue: set<int>)
    returns (scheduled: seq<int>, newQueue: set<int>)
    ensures scheduled == Admit(candidates, totalPages, skip, queue)
    ensures newQueue == queue + Elems(scheduled)
  {
    scheduled := [];
    newQueue := queue;
    for i := 0 to |candidates|
      invariant scheduled == Admit(candidates[..i], totalPages, skip, queue)
      invariant newQueue == queue + Elems(scheduled)
    {
      var pageIndex := candidates[i];
      assert candidates[..i + 1][..i] == candidates[..i];
      if 0 <= pageIndex < totalPages && pageIndex !in skip && pageIndex !in newQueue {
        assert Elems(scheduled + [pageIndex]) == Elems(scheduled) + {pageIndex};
        newQueue := newQueue + {pageIndex};
        scheduled := scheduled + [pageIndex];
      }
    }
    assert candidates[..|candidates|] == candidates;
  }

  lemma UnionUpdate(a: map<int, Image>, b: map<int, Image>, k: int, v: Image)
    ensures (a + b)[k := v] == a + b[k := v]
  {
  }

  /** The loop of `populateContinuousFromCache`: copy each cached page 0..<totalPages into the view and count them. */
  method CopyCached(images: map<int, Image>, cache: map<int, Image>, totalPages: int)
    returns (r: map<int, Image>, addedCount: nat)
    requires totalPages >= 0
    ensures r == images + CachedInRange(cache, totalPages)
    ensures addedCount == |CachedInRange(cache, totalPages)|
  {
    r := images;
    addedCount := 0;
    for pageIndex := 0 to totalPages
      invariant r == images + CachedInRange(cache, pageIndex)
      invariant addedCount == |CachedInRange(cache, pageIndex)|
    {
      CachedInRangeExtend(cache, pageIndex);
      if pageIndex in cache {
        var image := cache[pageIndex];
        UnionUpdate(images, CachedInRange(cache, pageIndex), pageIndex, image);
        r := r[pageIndex := image];
        addedCount := addedCount + 1;
      }
    }
  }

  class DjvuDocument {
    var currentPage: int
    var totalPages: int
    var currentImage: Option<Image>
    var isLoaded: bool
    var errorMessage: string
    var isLoading: bool
    var viewMode: ViewMode
    var continuousImages: map<int, Image>
    var imageCache: map<int, Image>
    var isLoadingPage: bool
    var preloadQueue: set<int>
    var continuousLoadingQueue: set<int>
    var documentUrl: Option<Url>

    ghost function Snapshot(): Session
      reads this
    {
      Session(currentPage, totalPages, currentImage, isLoaded, errorMessage, isLoading, viewMode,
              continuousImages, imageCache, isLoadingPage, preloadQueue, continuousLoadingQueue, documentUrl)
    }

    constructor ()
      ensures Snapshot() == Initial
    {
      currentPage := 0;
      totalPages := 0;
      currentImage := None;
      isLoaded := false;
      errorMessage := "";
      isLoading := false;
      viewMode := Continuous;
      continuousImages := map[];
      imageCache := map[];
      isLoadingPage := false;
      preloadQueue := {};
      continuousLoadingQueue := {};
      documentUrl := None;
    }

    /** `limitCacheSize()`: above 20 pages, remove the lowest-numbered ones one by one until 15 remain. */
    method LimitCacheSize()
      modifies this
      ensures Snapshot() == old(Snapshot()).(imageCache := Trimmed(old(imageCache)))
    {
      if |imageCache| > CacheLimit {
        var oldestKeys := SortedKeys(imageCache.Keys)[..|imageCache| - CacheTarget];
        imageCache := RemoveKeys(imageCache, oldestKeys);
      } else {
        assert imageCache - {} == imageCache;
      }
    }

    /** The cache block after a successful decode: store the image, then trim. */
    method StoreDecoded(pageIndex: int, image: Image)
      modifies this
      ensures Snapshot() == Stored(old(Snapshot()), pageIndex, image)
    {
      imageCache := imageCache[pageIndex := image];
      LimitCacheSize();
    }

    method SchedulePreloadAdjacentPages(center: int) returns (scheduled: seq<int>)
      modifies this
      ensures (Snapshot(), scheduled) == AdjacentStep(old(Snapshot()), center)
    {
      var pagesToPreload := [center - 1, center + 1];
      scheduled, preloadQueue := ScheduleLoop(pagesToPreload, totalPages, imageCache.Keys, preloadQueue);
    }

    /** The two scheduling loops of `startBackgroundPreloading(from:)`; `0..<totalPages` needs a count of at least 0. */
    method StartBackgroundPreloading(startPage: int) returns (scheduled: seq<int>)
      requires totalPages >= 0
      modifies this
      ensures (Snapshot(), scheduled) == BackgroundStep(old(Snapshot()), startPage)
    {
      ghost var queued := preloadQueue;
      var nearbyPages := NearbyPages(startPage, totalPages);
      var first, second;
      first, preloadQueue := ScheduleLoop(nearbyPages, totalPages, imageCache.Keys, preloadQueue);
      assert first == NearbyScheduled(startPage, totalPages, imageCache.Keys, queued);
      second, preloadQueue :=
        ScheduleLoop(Range(0, totalPages), totalPages, imageCache.Keys + {startPage} + Elems(nearbyPages), preloadQueue);
      assert second == SweepScheduled(startPage, totalPages, imageCache.Keys, queued);
      scheduled := first + second;
      assert Elems(scheduled) == Elems(first) + Elems(second);
      assert preloadQueue == queued + Elems(scheduled);
    }

    /** `populateContinuousFromCache()`; the result is its `addedCount`. */
    method PopulateContinuousFromCache() returns (addedCount: nat)
      requires totalPages >= 0
      modifies this
      ensures Snapshot() == Populated(old(Snapshot()))
      ensures addedCount == |CachedInRange(old(imageCache), old(totalPages))|
    {
      continuousImages, addedCount := CopyCached(continuousImages, imageCache, totalPages);
    }

    /** `loadAllPagesForContinuousView()`: the missing pages, cut into the batches that are decoded together. */
    method LoadAllPagesForContinuousView() returns (batches: seq<seq<int>>)
      requires totalPages >= 0
      ensures batches == Batches(PagesToLoad(totalPages, continuousImages))
    {
      var pagesToLoad := PagesToLoad(totalPages, continuousImages);
      var totalBatches := (|pagesToLoad| + BatchSize - 1) / BatchSize;
      batches := [];
      for batchIndex := 0 to totalBatches
        invariant batches == Batches(pagesToLoad)[..batchIndex]
      {
        var startIndex := batchIndex * BatchSize;
        var endIndex := if startIndex + BatchSize < |pagesToLoad| then startIndex + BatchSize else |pagesToLoad|;
        batches := batches + [pagesToLoad[startIndex..endIndex]];
      }
    }

    /** `setViewMode(_:)`; switching to the continuous view needs a page count of at least 0. */
    method SetViewMode(mode: ViewMode) returns (batches: seq<seq<int>>)
      requires mode == Continuous ==> totalPages >= 0
      modifies this
      ensures (Snapshot(), batches) == ViewModeStep(old(Snapshot()), mode)
    {
      viewMode := mode;
      batches := [];
      if mode == Continuous {
        continuousImages := map[];
        var _ := PopulateContinuousFromCache();
        batches := LoadAllPagesForContinuousView();
      }
    }

    method LoadPage(pageIndex: int) returns (work: Work)
      modifies this
      ensures (Snapshot(), work) == LoadPageStep(old(Snapshot()), pageIndex)
    {
      if !(0 <= pageIndex < totalPages) || isLoadingPage {
        return Idle;
      }
      if pageIndex in imageCache {
        var cachedImage := imageCache[pageIndex];
        currentImage := Some(cachedImage);
        currentPage := pageIndex;
        isLoading := false;
        var scheduled := SchedulePreloadAdjacentPages(pageIndex);
        return Work(None, scheduled, []);
      }
      isLoadingPage := true;
      isLoading := true;
      currentPage := pageIndex;
      work := Work(Some(DisplayRequest(pageIndex, false)), [], []);
    }

    method LoadFirstPageOnly(pageIndex: int) returns (work: Work)
      modifies this
      ensures (Snapshot(), work) == FirstPageStep(old(Snapshot()), pageIndex)
    {
      if !(0 <= pageIndex < totalPages) {
        return Idle;
      }
      if pageIndex in imageCache {
        var cachedImage := imageCache[pageIndex];
        currentImage := Some(cachedImage);
        currentPage := pageIndex;
        isLoading := false;
        var batches := SetViewMode(Continuous);
        var scheduled := StartBackgroundPreloading(pageIndex);
        return Work(None, scheduled, batches);
      }
      isLoadingPage := true;
      isLoading := true;
      currentPage := pageIndex;
      work := Work(Some(DisplayRequest(pageIndex, true)), [], []);
    }

    /** The main-queue block that publishes a decoded page. */
    method PublishDecoded(pageIndex: int, image: Image, isFirstPage: bool) returns (batches: seq<seq<int>>)
      requires isFirstPage ==> totalPages >= 0
      modifies this
      ensures (Snapshot(), batches) == Published(old(Snapshot()), pageIndex, image, isFirstPage)
    {
      batches := [];
      if currentPage == pageIndex {
        currentImage := Some(image);
        isLoading := false;
        errorMessage := "";
        if isFirstPage {
          batches := SetViewMode(Continuous);
        }
      }
    }

    /** The end of `loadPDFPageForDisplay` / `loadDJVUPageForDisplay`. */
    method FinishDisplayLoad(pageIndex: int, isFirstPage: bool, result: DisplayResult) returns (work: Work)
      requires isFirstPage ==> totalPages >= 0
      modifies this
      ensures (Snapshot(), work) == DisplayDoneStep(old(Snapshot()), pageIndex, isFirstPage, result)
    {
      match result {
        case Failed(reason) =>
          isLoading := false;
          isLoadingPage := false;
          errorMessage := DisplayErrorText(reason, pageIndex);
          work := Idle;
        case Decoded(image) =>
          StoreDecoded(pageIndex, image);
          var batches := PublishDecoded(pageIndex, image, isFirstPage);
          isLoadingPage := false;
          var scheduled := PreloadAfterDisplaying(pageIndex, isFirstPage);
          work := Work(None, scheduled, batches);
      }
    }

    method PreloadAfterDisplaying(pageIndex: int, isFirstPage: bool) returns (scheduled: seq<int>)
      requires isFirstPage ==> totalPages >= 0
      modifies this
      ensures (Snapshot(), scheduled) == PreloadAfterDisplay(old(Snapshot()), pageIndex, isFirstPage)
    {
      if !isFirstPage {
        scheduled := SchedulePreloadAdjacentPages(pageIndex);
      } else {
        scheduled := StartBackgroundPreloading(pageIndex);
      }
    }

    method NextPage() returns (work: Work)
      modifies this
      ensures (Snapshot(), work) == NextPageStep(old(Snapshot()))
    {
      work := Idle;
      if isLoadingPage {
        return;
      }
      if currentPage < totalPages - 1 {
        work := LoadPage(currentPage + 1);
      }
    }

    method PreviousPage() returns (work: Work)
      modifies this
      ensures (Snapshot(), work) == PreviousPageStep(old(Snapshot()))
    {
      work := Idle;
      if isLoadingPage {
        return;
      }
      if currentPage > 0 {
        work := LoadPage(currentPage - 1);
      }
    }

    method GoToPage(page: int) returns (work: Work)
      modifies this
      ensures (Snapshot(), work) == GoToPageStep(old(Snapshot()), page)
    {
      work := Idle;
      if isLoadingPage {
        return;
      }
      if 0 <= page < totalPages && page != currentPage {
        work := LoadPage(page);
      }
    }

    /** The end of `preloadPageSilently`: its cache block, then the deferred removal from the queue. */
    method FinishPreload(pageIndex: int, result: Option<Image>)
      modifies this
      ensures Snapshot() == PreloadDoneStep(old(Snapshot()), pageIndex, result)
    {
      if result.Some? {
        StoreDecoded(pageIndex, result.value);
      }
      preloadQueue := preloadQueue - {pageIndex};
    }

    /** The part of `loadPageForContinuous` that runs before the decode; `started` says whether one was started. */
    method LoadPageForContinuous(pageIndex: int) returns (started: bool)
      modifies this
      ensures (Snapshot(), started) == ContinuousBeginStep(old(Snapshot()), pageIndex)
    {
      if pageIndex in imageCache {
        continuousImages := continuousImages[pageIndex := imageCache[pageIndex]];
        return false;
      }
      if pageIndex in continuousLoadingQueue {
        return false;
      }
      continuousLoadingQueue := continuousLoadingQueue + {pageIndex};
      started := true;
    }

    /** The part of `loadPageForContinuous` that runs once the decode has ended. */
    method FinishContinuousLoad(pageIndex: int, result: Option<Image>)
      modifies this
      ensures Snapshot() == ContinuousDoneStep(old(Snapshot()), pageIndex, result)
    {
      if result.Some? {
        imageCache := imageCache[pageIndex := result.value];
        continuousImages := continuousImages[pageIndex := result.value];
      }
      continuousLoadingQueue := continuousLoadingQueue - {pageIndex};
    }

    method ClearCache()
      modifies this
      ensures Snapshot() == ClearCacheStep(old(Snapshot()))
    {
      imageCache := map[];
      continuousImages := map[];
    }

    /**
     * The guards of `loadDocument(from:)` and the loader it dispatches to, down to
     * the page count or the error message; nothing is changed.
     */
    method ResolveOpening(url: Url, env: OpenEnvironment) returns (outcome: Opening)
      ensures outcome == OpenDocument(url, env)
    {
      if !env.accessGranted {
        return OpenFailed(NoAccessMessage);
      }
      if !env.fileExists {
        return OpenFailed("Файл не найден: " + url.lastPathComponent);
      }
      match LoaderKind(url) {
        case Unsupported(ext) =>
          outcome := OpenFailed(UnsupportedFormatMessage(ext));
        case Pdf =>
          if env.pdfPageCount.None? {
            outcome := OpenFailed(PdfOpenFailedMessage);
          } else {
            outcome := Opened(Pdf, env.pdfPageCount.value);
          }
        case Djvu =>
          outcome := ResolveDjvuOpening(url, env);
      }
    }

    /** `loadDJVUDocument`, `getDJVUPageCount` and `tryDirectDJVUPageLoad`, down to their outcome. */
    method ResolveDjvuOpening(url: Url, env: OpenEnvironment) returns (outcome: Opening)
      ensures outcome == DjvuOpening(url, env)
    {
      if !env.djvusedFound {
        return OpenFailed(DjvuToolsMissingMessage);
      }
      if HasNonAsciiCharacters(url) && !env.asciiCopyMade {
        return OpenFailed(AsciiCopyFailedMessage);
      }
      var counted := DjvusedCount(env);
      if counted.Some? {
        return Opened(Djvu, counted.value);
      }
      if !env.ddjvuFound {
        return OpenFailed(DdjvuNotFoundMessage);
      }
      if env.probeLaunchError.Some? {
        return OpenFailed(DjvuLaunchFailedPrefix + env.probeLaunchError.value);
      }
      if !env.firstPageRendered {
        return OpenFailed(DjvuDamagedMessage);
      }
      var foundPages := ProbePageCount(env.pageExists);
      outcome := Opened(Djvu, foundPages);
    }

    /** The end of each loader: report the error, or take the page count and show the first page. */
    method ApplyOpening(outcome: Opening) returns (work: Work)
      modifies this
      ensures (Snapshot(), work) == OpenedStep(old(Snapshot()), outcome)
    {
      match outcome {
        case OpenFailed(message) =>
          errorMessage := message;
          work := Idle;
        case Opened(_, pages) =>
          totalPages := pages;
          isLoaded := true;
          work := LoadFirstPageOnly(0);
      }
    }

    /** The main-queue block queued at the start of `loadDocument(from:)`. */
    method ResetPublishedState()
      modifies this
      ensures Snapshot() == PublishedReset(old(Snapshot()))
    {
      isLoaded := false;
      currentImage := None;
      continuousImages := map[];
    }

    /** The cache-queue block queued at the start of `loadDocument(from:)`. */
    method ResetCaches()
      modifies this
      ensures Snapshot() == CachesReset(old(Snapshot()))
    {
      imageCache := map[];
      preloadQueue := {};
      continuousLoadingQueue := {};
    }

    /** `loadDocument(from:)`: reset, then open, then show the first page. */
    method LoadDocument(url: Url, env: OpenEnvironment) returns (work: Work)
      modifies this
      ensures (Snapshot(), work) == LoadDocumentStep(old(Snapshot()), url, env)
    {
      documentUrl := Some(url);
      errorMessage := "";
      ResetPublishedState();
      ResetCaches();
      var outcome := ResolveOpening(url, env);
      work := ApplyOpening(outcome);
    }
  }
}
