# rhs-scraper, modelled in Dafny

The scraper reads the Royal Holloway Students' Union events calendar. Its core is a
fetch–extract–cache pipeline (`src/main.go`). The pipeline:

- clamps the requested event count to [2, 25];
- walks the listing's event containers in document order and, for each one,
  extracts a trimmed title, date, location and description and a category cleaned
  of "free" labels;
- stops at the cap;
- saves the events with a timestamp in a JSON cache file;
- uses a twelve-hour rule to decide whether the next run must fetch again or may
  reuse the cache.

The repository also holds two earlier drafts of the same program. `src/scraper.go`
and `src/app.go` build events in a map keyed by title as the page's elements are
matched, with different category rules, caps and file formats. There is also a
small terminal menu, `src/tui/app.go`: a state machine over six states.

The model has one module per source file, plus two shared modules:

- `Text` (`text.dfy`): Go's `strings.TrimSpace`, `strings.ToLower` and
  `strings.Join` as used here, with their properties.
- `Events` (`events.dfy`): `src/main.go`. The page is a sequence of `Container`
  values. Each container holds the child texts and the texts of its category links.
  The cache file is a value `Absent | Corrupt | Stored(CachedData)`. The clock is
  `now`, in seconds. The whole pipeline is also written as the function `Scrape`,
  and the method `ScrapeEvents`, with its loop over containers (`CollectEvents`),
  is proved equal to it.
- `MapBuilder` (`map_builder.dfy`): the title-keyed builder shared by both drafts.
  The class `Collector` holds the map, the output slice and the counter that the
  callbacks update in place. The functions `AddTitle`, `Patch`, `Apply` and
  `Build` say what the callbacks do to the map. `DeliveryOrder` gives the order
  in which colly calls the callbacks: each registered callback runs over all of
  its matches before the next one starts.
- `DraftScraper` (`draft_scraper.dfy`): `src/scraper.go`, covering flag clamping,
  force/prompt dispatch, the category rule, the capped flush and the staleness
  test.
- `FirstDraft` (`first_draft.dfy`): `src/app.go`, where the category is the first
  link, the cap is 10 and the file holds a bare list.
- `Tui` (`tui.dfy`): `src/tui/app.go`. `Update` is the transition function.
  `View` picks a `Screen` and renders it. The scrape and load commands turn their
  results into messages.

Two points where the code behaves differently from what a reader might expect:

- `os.Create` at `src/main.go:158` truncates the cache file before `Encode` at
  line 167 writes it. An encoding failure therefore leaves an unreadable file
  (`Corrupt`), not the previous cache.
- In `src/scraper.go:158` the comment says the first valid category is kept. The
  loop at lines 150-163 overwrites the category for every valid link, so the last
  one wins. `DraftScraper.LastValidLink` models the loop as written.

## Model

| member | source | states |
|---|---|---|
| Text.TrimSpaceSpec | src/main.go:60-75 | The trimmed text is the infix of the input between a white-space prefix and a white-space suffix. It neither starts nor ends with white space, and it is empty exactly when the input is all white space. |
| Text.TrimSpaceEmpty | src/main.go:60-64 | A title trims to "" exactly when it is all white space. |
| Text.TrimSpaceIdempotent | src/main.go:60-75 | Trimming a trimmed text changes nothing, so the one `TrimSpace` applied to colly's already-trimmed child texts leaves them as they are. |
| Events.ClampCount | src/main.go:35-39 | The count ends up in [2, 25]. It is unchanged exactly when it was already in range; below 2 gives 2 and above 25 gives 25. |
| Events.KeptLabels | src/main.go:84-90 | At most one label per link, and every label kept is non-empty and is not "free" in any letter case. |
| Events.KeptLabelsMembers | src/main.go:84-90 | A text is kept exactly when some link trims to it and it is neither empty nor "free" case-insensitively. |
| Events.KeptLabelsAppend | src/main.go:84-90 | Filtering keeps document order: the labels of a concatenation are the labels of its parts, in order. |
| Events.CollectCategories | src/main.go:82-90 | The per-link loop gathers exactly the kept labels, in order. |
| Events.JoinedIsNotSpam | src/main.go:91-93 | Joining one or more kept labels with ", " never gives "" and never lower-cases to "free". |
| Events.CategoryOf | src/main.go:80-93 | The category is never empty, never lower-cases to "free", and is "uncategorized" when no label is kept. |
| Events.CategoryListsKeptLabels | src/main.go:91-93 | When some link survives the filter, the category is the kept labels joined with ", ". |
| Events.AllSpamGivesDefault | src/main.go:80-93 | When every link trims to "" or to "free" in some letter case, the category is "uncategorized". |
| Events.CategoryExampleFreeMusic | src/main.go:84-93 | The links "Free" and "Music" give the category "Music". |
| Events.CategoryExampleFreeOnly | src/main.go:80-93 | The single link "free" gives "uncategorized". |
| Events.ExtractEvent | src/main.go:59-102 | A container yields no event exactly when its trimmed title is "". Otherwise the event has that trimmed title, the trimmed date, location and description texts, and the category `CategoryOf` gives for the container's links; it is well formed: non-empty title, non-empty category that is not "free". |
| Events.ExtractContainer | src/main.go:59-102 | The container callback's statements compute exactly `ExtractEvent`. |
| Events.Extracted | src/main.go:52-107 | A page yields at most one event per container. |
| Events.ExtractedWellFormed | src/main.go:60-104 | Every event extracted from a page is well formed. |
| Events.ExtractedAppend | src/main.go:52-107 | Extraction works container by container: the events of a concatenation are the events of its parts, in order. |
| Events.BlankTitleIsSkipped | src/main.go:60-64 | A container whose title is all white space, inserted anywhere, changes nothing. |
| Events.CollectedStep | src/main.go:52-107 | One more container appends its event to the collected ones unless the cap was already reached. |
| Events.Collected | src/main.go:52-107 | The container-by-container collection never keeps more events than the cap, nor more than one per container. |
| Events.CollectedIsTake | src/main.go:52-107 | What the run collects is exactly the first `limit` of the events the page yields. |
| Events.CollectEvents | src/main.go:52-107 | The loop over containers, with `eventCount` kept equal to the number of events, collects exactly the first `limit` extracted events. |
| Events.SaveToCache | src/main.go:148-173 | A successful write stores exactly the events stamped with `now`, and loading the file then gives them back. A failed create reports the create error and leaves the file as it was. A failed encode reports the encode error and leaves an unreadable file, since the create already truncated it. Only a successful write reports no error. |
| Events.LoadCachedEvents | src/main.go:211-229 | Loading succeeds exactly on a stored file. A missing file gives the open error and an unreadable one gives the decode error. |
| Events.ShouldScrape | src/main.go:177-207 | A missing or unreadable cache is stale. A stored cache is stale exactly when `now >= lastScraped + 12h`. |
| Events.Scrape | src/main.go:33-143 | The reference for one scrape: a failed visit returns the visit error and leaves the file. The scrape succeeds exactly when the page loads and the write succeeds, and then returns at most the clamped count of events, which the file then holds stamped with `now`. |
| Events.ScrapeEvents | src/main.go:33-143 | The method's result and the new file are those `Scrape` gives. It never returns more events than the clamped count. |
| Events.ScrapeReturnsFirstEvents | src/main.go:52-142 | A successful scrape returns a prefix of the extracted events, of at most the clamped count and all of them when fewer were found, every one well formed. |
| Events.FailedScrapeReportsError | src/main.go:130-139 | A failed visit returns an error and leaves the cache untouched. On a loaded page, a failed create returns the create error and leaves the old file, and a failed encode returns the encode error and leaves an unreadable file. |
| Events.ScrapeThenLoad | src/main.go:148-229 | After a successful scrape, loading returns exactly the scraped events. The cache is fresh until twelve hours have passed and stale from then on. |
| Events.StalenessBoundary | src/main.go:196-206 | A cache written one hour ago, or one second under twelve hours ago, is fresh. One written exactly twelve hours ago is stale. |
| Events.CachePath | src/main.go:234-257 | The cache path starts with the platform cache root and ends with `rhs-scraper/events.json`. Exactly one '/' separates the root from `rhs-scraper`: one is added when the root does not end in '/', none when it does, and an empty root gives the relative path `rhs-scraper/events.json`. |
| Events.RunOnce | src/main.go:270-287 | The program scrapes 10 events when the cache is stale. Otherwise it loads the cache, which then succeeds, and leaves the file as it was. A failed scrape or load ends the run fatally with that error; otherwise the run completes. |
| MapBuilder.AddTitle | src/scraper.go:93-99 | A title element adds its title to the keys and sets that entry's title. An existing entry keeps its other fields, a new one starts blank, and every other entry is unchanged. |
| MapBuilder.Patch | src/scraper.go:104-137 | A time, description or location element keeps the keys. It sets the named field of its owner's entry when there is one, changes nothing otherwise, and leaves every other entry unchanged. |
| MapBuilder.Apply | src/scraper.go:88-173 | One element adds exactly its title to the keys if it is a title element and no key otherwise. An element whose owner has no entry changes nothing, and only the element's own entry can change. A title element does `AddTitle` and a time, description or location element does `Patch`. A types element whose owner has an entry sets that entry's category to what the draft's rule gives, and changes nothing when the rule gives none. |
| MapBuilder.Build | src/scraper.go:88-173 | Running the callbacks over elements never removes an entry. |
| MapBuilder.TitleCreatesOnce | src/scraper.go:93-99 | A title element adds its title to the keys and creates a blank entry only when the title is new. A repeated title changes nothing. |
| MapBuilder.OrphanPatchIsInert | src/scraper.go:104-137 | A time, description, location or types element whose card title has no entry leaves the map unchanged. |
| MapBuilder.PatchTouchesOwnerOnly | src/scraper.go:104-137 | A field element changes only its owner's entry, keeps the keys, and changes neither the owner's title nor its category. |
| MapBuilder.BuildKeys | src/scraper.go:88-173 | After a run of elements, the keys are the old keys plus the page's title texts, and every entry is stored under its own title. |
| MapBuilder.DeliveryOrderBuildsEveryTitle | src/scraper.go:88-173 | In callback delivery order all title elements come first, so the final map has one entry per distinct title on the page, each keyed by its title. |
| MapBuilder.Collector.constructor | src/scraper.go:78-82 | The collector starts with an empty map, no events and a zero counter. |
| MapBuilder.Collector.OnTitle | src/scraper.go:88-101 | Below the cap, the title callback applies `AddTitle`; at the cap it changes nothing. Events and counter are untouched. |
| MapBuilder.Collector.OnField | src/scraper.go:104-137 | Below the cap, the time, description and location callbacks apply `Patch`; at the cap they change nothing. |
| MapBuilder.Collector.SetCategory | src/scraper.go:159 | Only the owner's category changes. |
| MapBuilder.Collector.Flush | src/scraper.go:181-188 | The flush keeps the old events as a prefix and appends `min(cap - count, entries)` of the map's entries, none when the counter is already at the cap. The appended entries are distinct and each is the entry stored under its title. The counter stays equal to the number of events. |
| DraftScraper.LastValidLink | src/scraper.go:150-163 | The chosen link is one of the links and is neither "Free" nor "free". |
| DraftScraper.LastValidLinkWins | src/scraper.go:150-163 | There is no valid link exactly when every link is "Free" or "free". Otherwise the chosen link is followed only by skipped links, so the last valid link wins. |
| DraftScraper.CategoryUpdate | src/scraper.go:147-169 | An entry that has a types element always gets a category, and it is never "Free" or "free". It is the last link that is not skipped, and "Uncategorized" when every link is skipped. |
| DraftScraper.CategoryExamples | src/scraper.go:150-169 | "Music", "Sports" gives "Sports"; "FREE" is kept; "free", "Free" gives "Uncategorized". |
| DraftScraper.SkipIsNarrowerThanCanonical | src/scraper.go:154 | Whatever this draft skips the main program drops too, but "FREE" and "" are kept here and dropped there. |
| DraftScraper.OnTypes | src/scraper.go:140-173 | The per-link loop, with its found flag, leaves the entries as `Apply` with `CategoryUpdate` gives them, and changes nothing at the cap. |
| DraftScraper.Traverse | src/scraper.go:88-173 | Running the callbacks over the elements leaves the map that `Build` gives. |
| DraftScraper.ScrapeEvents | src/scraper.go:76-221 | A failed visit completes silently and writes nothing. Otherwise the saved events are stamped with `now`, are at most the count, and are distinct map entries. A failed create or encode is fatal, leaving the old file or an unreadable one. |
| DraftScraper.ScrapeSavesDistinctEntries | src/scraper.go:181-188 | The saved events number at most the count and at most the distinct titles, and every title comes from the page. When the page has no more titles than the count, every title is saved. |
| DraftScraper.ShouldScrape | src/scraper.go:224-254 | A missing or unreadable cache is stale. A stored one is stale exactly when twelve hours have passed. |
| DraftScraper.ShouldScrapeAgrees | src/scraper.go:243-253 | This draft and the main program decide staleness alike. |
| DraftScraper.Decide | src/scraper.go:45-72 | A scrape happens exactly when forced, when the cache is stale, or when the answer lower-cases to "y". The count used is always the clamped flag. |
| DraftScraper.PromptExamples | src/scraper.go:60-71 | "Y" asks for a scrape, "yes" does not, and a forced run with `-n 1000` scrapes 25. |
| DraftScraper.RunMain | src/scraper.go:39-73 | Scraping gives the scrape's outcome. Using the cache happens only on a fresh, hence stored, cache: it keeps the file and completes without error. |
| FirstDraft.FirstLink | src/app.go:105-111 | A category is set exactly when there is a link, and it is the text of link 0. |
| FirstDraft.FirstLinkExamples | src/app.go:102-111 | The first link's text is taken unfiltered, "Free" and "" included. With no link the category stays "". |
| FirstDraft.TitleIsUntrimmed | src/app.go:39-47 | A title is stored, and keyed, with its white space. |
| FirstDraft.OnTypes | src/app.go:97-113 | The link loop sets the category from index 0 only, as `Apply` with `FirstLink` says. |
| FirstDraft.Traverse | src/app.go:34-113 | Running the callbacks leaves the map that `Build` with `FirstLink` gives. |
| FirstDraft.Run | src/app.go:21-151 | The file holds `min(10, distinct titles)` distinct map entries as a bare list with no timestamp. A failed visit writes nothing, and a failed create or encode is fatal. |
| Tui.InitialModel | src/tui/app.go:38-40 | The menu state, with no events and no error. |
| Tui.Update | src/tui/app.go:48-109 | No message moves a model into the force-scrape state. Quitting leaves the model unchanged. Only a success message changes the events, and only the two result messages change the error. A scrape command is issued only when a scrape is due; it asks for 10 events and shows the scraping state. |
| Tui.TransitionTable | src/tui/app.go:48-109 | Success replaces the events, clears the error and shows them; an error is recorded and the menu shown, events kept. "1" scrapes 10 when a scrape is due and loads otherwise; "2" loads, "3" opens the options, "q" returns to the menu. "ctrl+c", "ctrl+d" and "4" quit with the model unchanged. "done_scraping" and "done_viewing" show the events. Anything else changes nothing and issues no command. |
| Tui.ForceScrapeNeverEntered | src/tui/app.go:48-109 | No sequence of messages moves a model into the force-scrape state. |
| Tui.ViewEvents | src/tui/app.go:159-177 | An empty list shows "No events found...\n". Otherwise the output starts with the first event's block, numbered 1. |
| Tui.BlocksPrefix | src/tui/app.go:163-174 | The blocks of a prefix of the events are a prefix of the output. |
| Tui.ViewEventsNumbersEachEvent | src/tui/app.go:159-177 | Event k is shown in order as block number k + 1, after the blocks of the events before it. |
| Tui.RenderEvents | src/tui/app.go:159-177 | The loop that appends one block per event renders exactly `ViewEvents`: "No events found...\n" for an empty list. |
| Tui.ScreenOf | src/tui/app.go:112-130 | The default branch, the error or the blank screen, is chosen exactly in the force-scrape state, and the error screen shows the recorded error. The event list is chosen exactly in the viewing state and shows the model's events. |
| Tui.RenderIsBlankOnlyForBlank | src/tui/app.go:112-130 | Only the default branch without an error renders "". |
| Tui.View | src/tui/app.go:112-130 | The view is "" exactly in the force-scrape state with no recorded error. |
| Tui.ReachableViewIsAScreen | src/tui/app.go:19-130 | Every model reachable from the initial one avoids the force-scrape state, never shows the error fallback and never renders "". |
| Tui.ResultMsg | src/tui/app.go:180-201 | A result becomes a success message exactly when it is a success, carrying the same events. An error becomes an error message carrying that error's text. |
| Tui.ScrapeEventsCmd | src/tui/app.go:180-189 | The scrape command runs `Events.ScrapeEvents`, standing in for the imported `scraper.ScrapeEvents`, and turns its result into the message, with at most the clamped count of events. |
| Tui.LoadCachedEventsCmd | src/tui/app.go:192-201 | The load command, through `Events.LoadCachedEvents`, succeeds exactly on a stored file, carrying its events. A missing file gives an error message with the open error's text, and an unreadable one the decode error's text. |
| Tui.FreshCacheViewedFromMenu | src/tui/app.go:75-89 | With a fresh cache, "1" loads it, and the load's message shows exactly the cached events. |

## Left out

- The HTTP request, colly's CSS selector matching and the DOM parent lookups
  (`e.DOM.Parent()...Find(...)`) are foreign code. The page is given as containers
  or as matched elements that already carry the owning card's title. This also
  hides the difference between the parent lookups of `src/app.go:102` and
  `src/scraper.go:144-145`.
- colly's `Request.Abort()` inside a callback is modelled as what it does there:
  the callback returns, and later containers are skipped because the cap is
  reached.
- Byte-level JSON encoding and decoding are not modelled. A file is `Absent`,
  `Corrupt` (not decodable) or holds the decoded value.
- Operating-system I/O is not modelled: `os.UserCacheDir`, `os.Stat`, `os.Mkdir`,
  `os.Create`, `os.Open` and closing files. Their outcomes are inputs
  (`WriteOutcome`, `CacheFile`).
- `log.Fatal` inside `getCacheDir` is not modelled; the root directory is assumed
  to exist. Every other fatal exit appears as `Exit.Fatal` with its error.
- `time.Now` and `time.Since` are left out. The clock is the parameter `now`, in
  whole seconds. Sub-second timestamps are not modelled.
- Printing (`fmt`, `log`, `printer`, `humanize.Time`), reading the prompt answer
  from standard input and the flag package's parsing are left out. Only the
  values that result (the answer, the flags) are inputs.
- The bubbletea runtime, `Init`, `StartApp` in `src/tui/menu.go` and command
  closures are not modelled. Commands are tags, and `scraper.ShouldScrape()` is
  the input `scrapeDue`.
- Go's map iteration order is not modelled. `MapBuilder.Collector.Flush` picks
  entries in an unspecified order, and its contract holds for every order.
- Pointer aliasing of `*Event` map values is not modelled. An update through the
  pointer is an update of the map entry, which is what the source observes.
- Events.ErrorText: drops the wrapped cause (`%w`) of each error and keeps only
  the program's own prefix.
- Text.ToLower: lower-cases ASCII letters only. Every comparison in the program is
  with an ASCII word ("free", "y"). No non-ASCII character lower-cases to one of
  those letters, so these comparisons come out the same.
- Events.JoinPath: models `filepath.Join` only for a root that is already clean,
  and with the Unix separator only ('/', not Windows' '\\'); the rest of the path
  cleaning is left out.
- `src/tui/app.go:8` imports a package `scraper` whose source is not part of this
  model. Its `ScrapeEvents`, `LoadCachedEvents` and `ShouldScrape` are taken to be
  the functions of the same names in `src/main.go` (`Events.ScrapeEvents`,
  `Events.LoadCachedEvents`, `Events.ShouldScrape`).
- The menu's model stores the scrape error as its message text, not as a Go error
  value.
