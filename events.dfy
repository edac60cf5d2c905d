/** The fetch–extract–cache pipeline of the scraper's main program: clamp the
    requested count, extract one event per listing container (in document
    order, up to the count), store the result with a timestamp in the cache
    file, and decide from that timestamp whether a new fetch is needed.

    The listing page is given as the sequence of its event containers, the
    cache file as the value it currently holds, and the clock as `now`, a
    number of seconds. */
module Events {
  import opened Text

  datatype Option<T> = None | Some(value: T)

  /** One event card. */
  datatype Event = Event(title: string, date: string, location: string, category: string, description: string)

  /** What the cache file holds: the time of the last scrape and its events. */
  datatype CachedData = CachedData(lastScraped: int, events: seq<Event>)

  /** The cache file as the decoder sees it. */
  datatype CacheFile = Absent | Corrupt | Stored(data: CachedData)

  datatype Error = VisitFailed | CreateFailed | EncodeFailed | OpenFailed | DecodeFailed

  datatype Result<T> = Ok(value: T) | Err(error: Error)

  /** The message of an error, without the text of the underlying cause. */
  function ErrorText(e: Error): string
  {
    match e
    case VisitFailed => "failed to visit events page"
    case CreateFailed => "failed to save events to cache: failed to create cache file"
    case EncodeFailed => "failed to save events to cache: failed to encode events to JSON"
    case OpenFailed => "!error opening cache file"
    case DecodeFailed => "!error decoding cache file"
  }

  /** How a run that logs fatally on errors ends. */
  datatype Exit = Completed | Fatal(error: Error)

  /** One `.event_item` container of the listing, as the texts of its
      children: the event name, time, location and description elements, and
      the links under the event-types element, in document order. */
  datatype Container = Container(
    titleText: string,
    dateText: string,
    locationText: string,
    descriptionText: string,
    categoryLinks: seq<string>)

  /** The outcome of requesting the listing page. */
  datatype Page = Unreachable | Loaded(containers: seq<Container>)

  /** The outcome of writing the cache file: creating it can fail (the old
      file is then left as it was), and encoding into the created, already
      truncated file can fail (the file is then left unreadable). */
  datatype WriteOutcome = Written | CreateFails | EncodeFails

  const MinEvents: int := 2
  const MaxEvents: int := 25
  const DefaultCategory: string := "uncategorized"
  const SpamLabel: string := "free"
  const CategorySeparator: string := ", "
  const StaleAfterSeconds: int := 12 * 60 * 60
  const AppCacheDir: string := "rhs-scraper"
  const CacheFileName: string := "events.json"
  /** The count the program asks for when it scrapes. */
  const DefaultScrapeCount: int := 10

  /** The requested number of events, forced into [MinEvents, MaxEvents]. */
  function ClampCount(n: int): (r: int)
    ensures MinEvents <= r <= MaxEvents
    ensures r == n <==> MinEvents <= n <= MaxEvents
    ensures n < MinEvents ==> r == MinEvents
    ensures n > MaxEvents ==> r == MaxEvents
  {
    if n < MinEvents then MinEvents else if n > MaxEvents then MaxEvents else n
  }

  /** A trimmed category-link text worth keeping: not empty and not the spam
      label in any letter case. */
  predicate IsKeptLabel(t: string)
  {
    t != "" && ToLower(t) != SpamLabel
  }

  /** The trimmed texts of the category links that are kept, in document order. */
  function KeptLabels(links: seq<string>): (kept: seq<string>)
    ensures |kept| <= |links|
    ensures forall k :: 0 <= k < |kept| ==> IsKeptLabel(kept[k])
  {
    if links == [] then []
    else
      var t := TrimSpace(links[|links| - 1]);
      KeptLabels(links[..|links| - 1]) + (if IsKeptLabel(t) then [t] else [])
  }

  ghost predicate SomeLinkTrimsTo(links: seq<string>, t: string)
  {
    exists k :: 0 <= k < |links| && TrimSpace(links[k]) == t
  }

  lemma SomeLinkTrimsToSnoc(init: seq<string>, x: string, t: string)
    ensures SomeLinkTrimsTo(init + [x], t) <==> SomeLinkTrimsTo(init, t) || TrimSpace(x) == t
  {
    var links := init + [x];
    if SomeLinkTrimsTo(init, t) {
      var k :| 0 <= k < |init| && TrimSpace(init[k]) == t;
      assert links[k] == init[k];
    }
    if TrimSpace(x) == t {
      assert links[|init|] == x;
    }
    if SomeLinkTrimsTo(links, t) {
      var k :| 0 <= k < |links| && TrimSpace(links[k]) == t;
      if k < |init| { assert init[k] == links[k]; }
    }
  }

  /** A label is kept exactly when some link trims to it and it is neither
      empty nor the spam label. */
  lemma {:induction false} KeptLabelsMembers(links: seq<string>, t: string)
    ensures t in KeptLabels(links) <==> IsKeptLabel(t) && SomeLinkTrimsTo(links, t)
  {
    if links != [] {
      var init, x := links[..|links| - 1], links[|links| - 1];
      assert links == init + [x];
      KeptLabelsMembers(init, t);
      SomeLinkTrimsToSnoc(init, x, t);
    }
  }

  /** Filtering keeps document order: the kept labels of a concatenation are
      the kept labels of its parts, one after the other. */
  lemma {:induction false} KeptLabelsAppend(a: seq<string>, b: seq<string>)
    ensures KeptLabels(a + b) == KeptLabels(a) + KeptLabels(b)
  {
    if b == [] {
      assert a + b == a;
    } else {
      var b' := b[..|b| - 1];
      assert (a + b)[..|a + b| - 1] == a + b';
      KeptLabelsAppend(a, b');
    }
  }

  /** A string joined from two or more parts has the separator's comma
      right after the first part, so it is never the spam label. */
  lemma JoinedIsNotSpam(kept: seq<string>)
    requires |kept| > 0
    requires forall k :: 0 <= k < |kept| ==> IsKeptLabel(kept[k])
    ensures Join(kept, CategorySeparator) != ""
    ensures ToLower(Join(kept, CategorySeparator)) != SpamLabel
  {
    JoinStartsWithFirst(kept, CategorySeparator);
    var j := Join(kept, CategorySeparator);
    assert IsKeptLabel(kept[0]);
    if |kept| > 1 {
      var rest := Join(kept[1..], CategorySeparator);
      assert j == kept[0] + CategorySeparator + rest;
      assert j[|kept[0]|] == ',';
      if |j| == |SpamLabel| {
        ToLowerAt(j, |kept[0]|);
        assert ToLower(j)[|kept[0]|] == ',';
      }
    }
  }

  /** The category of a container: its kept labels joined with ", ", or the
      default when none is kept. It is never empty and never the spam label. */
  function CategoryOf(links: seq<string>): (category: string)
    ensures category != ""
    ensures ToLower(category) != SpamLabel
    ensures KeptLabels(links) == [] ==> category == DefaultCategory
  {
    var kept := KeptLabels(links);
    if |kept| > 0 then
      JoinedIsNotSpam(kept);
      Join(kept, CategorySeparator)
    else DefaultCategory
  }

  /** When a label survives the filter, the category lists every kept label,
      in order, and nothing else. */
  lemma CategoryListsKeptLabels(links: seq<string>)
    requires exists k :: 0 <= k < |links| && IsKeptLabel(TrimSpace(links[k]))
    ensures KeptLabels(links) != []
    ensures CategoryOf(links) == Join(KeptLabels(links), CategorySeparator)
  {
    var k :| 0 <= k < |links| && IsKeptLabel(TrimSpace(links[k]));
    KeptLabelsMembers(links, TrimSpace(links[k]));
  }

  /** Links that all trim to empty or to the spam label give the default. */
  lemma {:induction false} AllSpamGivesDefault(links: seq<string>)
    requires forall k :: 0 <= k < |links| ==> !IsKeptLabel(TrimSpace(links[k]))
    ensures CategoryOf(links) == DefaultCategory
  {
    if KeptLabels(links) != [] {
      var t := KeptLabels(links)[0];
      KeptLabelsMembers(links, t);
    }
  }

  /** Example ["Free", "Music"]: the spam label is dropped
      and the category is "Music". */
  lemma CategoryExampleFreeMusic()
    ensures CategoryOf(["Free", "Music"]) == "Music"
  {
    var links := ["Free", "Music"];
    assert TrimSpace("Free") == "Free" && ToLower("Free") == "free";
    assert TrimSpace("Music") == "Music" && ToLower("Music") == "music";
    assert links[..1] == ["Free"] && links[..1][..0] == [];
    assert KeptLabels(links[..1]) == [];
    assert KeptLabels(links) == ["Music"];
  }

  /** Example ["free"]: nothing is kept, so the category is
      the default. */
  lemma CategoryExampleFreeOnly()
    ensures CategoryOf(["free"]) == DefaultCategory
  {
    assert TrimSpace("free") == "free" && ToLower("free") == "free";
    assert ["free"][..0] == [];
    assert KeptLabels(["free"]) == [];
  }

  /** An event as the program emits it: a non-empty title and a non-empty
      category that is not the spam label. */
  predicate WellFormed(e: Event)
  {
    e.title != "" && e.category != "" && ToLower(e.category) != SpamLabel
  }

  /** The event one container yields, or None when its trimmed title is empty. */
  function ExtractEvent(c: Container): (r: Option<Event>)
    ensures r.None? <==> TrimSpace(c.titleText) == ""
    ensures r.Some? ==> WellFormed(r.value) && r.value.title == TrimSpace(c.titleText)
    ensures r.Some? ==> && r.value.date == TrimSpace(c.dateText)
                        && r.value.location == TrimSpace(c.locationText)
                        && r.value.description == TrimSpace(c.descriptionText)
                        && r.value.category == CategoryOf(c.categoryLinks)
  {
    var title := TrimSpace(c.titleText);
    if title == "" then None
    else Some(Event(
      title,
      TrimSpace(c.dateText),
      TrimSpace(c.locationText),
      CategoryOf(c.categoryLinks),
      TrimSpace(c.descriptionText)))
  }

  function Emitted(c: Container): seq<Event>
  {
    match ExtractEvent(c)
    case None => []
    case Some(e) => [e]
  }

  /** Every event the containers yield, in document order, before any cap. */
  function Extracted(cs: seq<Container>): (events: seq<Event>)
    ensures |events| <= |cs|
  {
    if cs == [] then [] else Extracted(cs[..|cs| - 1]) + Emitted(cs[|cs| - 1])
  }

  /** Every extracted event is well formed. */
  lemma {:induction false} ExtractedWellFormed(cs: seq<Container>)
    ensures forall k :: 0 <= k < |Extracted(cs)| ==> WellFormed(Extracted(cs)[k])
  {
    if cs != [] {
      ExtractedWellFormed(cs[..|cs| - 1]);
    }
  }

  lemma {:induction false} ExtractedAppend(a: seq<Container>, b: seq<Container>)
    ensures Extracted(a + b) == Extracted(a) + Extracted(b)
  {
    if b == [] {
      assert a + b == a;
    } else {
      var b' := b[..|b| - 1];
      assert (a + b)[..|a + b| - 1] == a + b';
      ExtractedAppend(a, b');
    }
  }

  /** A container with a blank title yields nothing, so inserting one
      anywhere leaves the extracted events as they were. */
  lemma BlankTitleIsSkipped(a: seq<Container>, c: Container, b: seq<Container>)
    requires AllSpace(c.titleText)
    ensures Extracted(a + [c] + b) == Extracted(a + b)
  {
    TrimSpaceEmpty(c.titleText);
    assert Emitted(c) == [];
    assert [c][..0] == [];
    assert Extracted([c]) == Extracted([]) + Emitted(c) == [];
    ExtractedAppend(a, [c]);
    assert Extracted(a + [c]) == Extracted(a);
    ExtractedAppend(a + [c], b);
    ExtractedAppend(a, b);
  }

  /** The first `n` elements of `s`, or all of them when there are fewer. */
  function Take<T>(s: seq<T>, n: nat): (r: seq<T>)
    ensures |r| <= n && |r| <= |s|
    ensures r == s[..|r|]
    ensures |r| < n ==> r == s
  {
    if |s| <= n then s else s[..n]
  }

  /** What the collected events become when one more container's result
      arrives: unchanged once the cap is reached, otherwise extended by it. */
  function Step(prev: seq<Event>, event: Option<Event>, limit: nat): seq<Event>
  {
    if |prev| >= limit || event.None? then prev else prev + [event.value]
  }

  /** The events a run keeps, container by container: each container's
      event is appended until the cap is reached. */
  function Collected(cs: seq<Container>, limit: nat): (events: seq<Event>)
    ensures |events| <= limit && |events| <= |cs|
  {
    if cs == [] then []
    else Step(Collected(cs[..|cs| - 1], limit), ExtractEvent(cs[|cs| - 1]), limit)
  }

  /** The events a run keeps are the first `limit` of the events the page
      yields. */
  lemma {:induction false} CollectedIsTake(cs: seq<Container>, limit: nat)
    ensures Collected(cs, limit) == Take(Extracted(cs), limit)
  {
    if cs != [] {
      var init, last := cs[..|cs| - 1], cs[|cs| - 1];
      CollectedIsTake(init, limit);
      var before := Extracted(init);
      assert Extracted(cs) == before + Emitted(last);
      if |before| >= limit {
        assert (before + Emitted(last))[..limit] == before[..limit];
      }
    }
  }

  /** Writing the cache: on success the file holds exactly `events` stamped
      with `now`, replacing whatever was there. */
  function SaveToCache(events: seq<Event>, now: int, write: WriteOutcome, file: CacheFile): (p: (Option<Error>, CacheFile))
    ensures p.0 == None <==> write == Written
    ensures write == Written ==> p.1.Stored? && p.1.data.lastScraped == now
    ensures write == Written ==> LoadCachedEvents(p.1) == Ok(events)
    ensures write == CreateFails ==> p == (Some(CreateFailed), file)
    ensures write == EncodeFails ==> p == (Some(EncodeFailed), Corrupt)
  {
    match write
    case Written => (None, Stored(CachedData(now, events)))
    case CreateFails => (Some(CreateFailed), file)
    case EncodeFails => (Some(EncodeFailed), Corrupt)
  }

  /** Reading the cache: the stored events, or the error of opening a missing
      file or decoding an unreadable one. */
  function LoadCachedEvents(file: CacheFile): (r: Result<seq<Event>>)
    ensures r.Ok? <==> file.Stored?
    ensures file.Absent? ==> r == Err(OpenFailed)
    ensures file.Corrupt? ==> r == Err(DecodeFailed)
  {
    match file
    case Absent => Err(OpenFailed)
    case Corrupt => Err(DecodeFailed)
    case Stored(data) => Ok(data.events)
  }

  /** A new scrape is needed when the cache is missing or unreadable or was
      written twelve hours ago or earlier. */
  function ShouldScrape(file: CacheFile, now: int): (stale: bool)
    ensures !file.Stored? ==> stale
    ensures file.Stored? ==> (stale <==> now >= file.data.lastScraped + StaleAfterSeconds)
  {
    match file
    case Absent => true
    case Corrupt => true
    case Stored(data) => !(now - data.lastScraped < StaleAfterSeconds)
  }

  /** What one scrape returns and leaves in the cache file. */
  function Scrape(numEvents: int, page: Page, write: WriteOutcome, now: int, file: CacheFile): (r: (Result<seq<Event>>, CacheFile))
    ensures page.Unreachable? ==> r == (Err(VisitFailed), file)
    ensures r.0.Ok? <==> page.Loaded? && write == Written
    ensures r.0.Ok? ==> |r.0.value| <= ClampCount(numEvents) && r.1 == Stored(CachedData(now, r.0.value))
  {
    match page
    case Unreachable => (Err(VisitFailed), file)
    case Loaded(cs) =>
      var events := Collected(cs, ClampCount(numEvents));
      var (err, file') := SaveToCache(events, now, write, file);
      if err.Some? then (Err(err.value), file') else (Ok(events), file')
  }

  /** The trimmed texts of the kept category links, gathered link by link. */
  method CollectCategories(links: seq<string>) returns (categories: seq<string>)
    ensures categories == KeptLabels(links)
  {
    categories := [];
    var i := 0;
    while i < |links|
      invariant 0 <= i <= |links|
      invariant categories == KeptLabels(links[..i])
    {
      assert links[..i + 1][..i] == links[..i];
      var categoryText := TrimSpace(links[i]);
      if ToLower(categoryText) != SpamLabel && categoryText != "" {
        categories := categories + [categoryText];
      }
      i := i + 1;
    }
    assert links[..i] == links;
  }

  /** The container callback's extraction: the trimmed title (a blank one
      skips the container), the trimmed child texts and the category. */
  method ExtractContainer(c: Container) returns (event: Option<Event>)
    ensures event == ExtractEvent(c)
  {
    var title := TrimSpace(c.titleText);
    if title == "" {
      return None;
    }
    var date := TrimSpace(c.dateText);
    var location := TrimSpace(c.locationText);
    var description := TrimSpace(c.descriptionText);
    var category := DefaultCategory;
    var categories := CollectCategories(c.categoryLinks);
    if |categories| > 0 {
      category := Join(categories, CategorySeparator);
    }
    return Some(Event(title, date, location, category, description));
  }

  /** One more container extends the collected events by what it yields,
      unless the cap was already reached. */
  lemma CollectedStep(cs: seq<Container>, i: nat, limit: nat)
    requires i < |cs|
    ensures Collected(cs[..i + 1], limit) == Step(Collected(cs[..i], limit), ExtractEvent(cs[i]), limit)
  {
    assert cs[..i + 1][..i] == cs[..i];
  }

  /** The container callback run over the page's containers in document
      order, each one returning at once when the cap is reached. */
  method CollectEvents(cs: seq<Container>, limit: nat) returns (events: seq<Event>)
    ensures events == Collected(cs, limit)
  {
    events := [];
    var eventCount := 0;
    var i := 0;
    while i < |cs|
      invariant 0 <= i <= |cs|
      invariant eventCount == |events|
      invariant events == Collected(cs[..i], limit)
    {
      CollectedStep(cs, i, limit);
      if eventCount < limit {
        var event := ExtractContainer(cs[i]);
        if event.Some? {
          events := events + [event.value];
          eventCount := eventCount + 1;
        }
      }
      i := i + 1;
    }
    assert cs[..i] == cs;
  }

  /** One scrape: request the page, extract events container by container
      until `numEvents` (clamped) are collected, then save them to the cache. */
  method ScrapeEvents(numEvents: int, page: Page, write: WriteOutcome, now: int, file: CacheFile)
    returns (result: Result<seq<Event>>, file': CacheFile)
    ensures (result, file') == Scrape(numEvents, page, write, now, file)
    ensures result.Ok? ==> |result.value| <= ClampCount(numEvents)
  {
    var limit := ClampCount(numEvents);
    if page.Unreachable? {
      return Err(VisitFailed), file;
    }
    var events := CollectEvents(page.containers, limit);
    var (err, saved) := SaveToCache(events, now, write, file);
    if err.Some? {
      return Err(err.value), saved;
    }
    return Ok(events), saved;
  }

  /** A successful scrape returns the first `numEvents` (clamped) extracted
      events in document order, all well formed, and no more. */
  lemma ScrapeReturnsFirstEvents(numEvents: int, cs: seq<Container>, write: WriteOutcome, now: int, file: CacheFile)
    requires Scrape(numEvents, Loaded(cs), write, now, file).0.Ok?
    ensures var events := Scrape(numEvents, Loaded(cs), write, now, file).0.value;
            && |events| <= ClampCount(numEvents)
            && |events| <= |Extracted(cs)| && events == Extracted(cs)[..|events|]
            && (|events| < ClampCount(numEvents) ==> events == Extracted(cs))
            && forall k :: 0 <= k < |events| ==> WellFormed(events[k])
  {
    ExtractedWellFormed(cs);
    CollectedIsTake(cs, ClampCount(numEvents));
  }

  /** A failed request returns an error and leaves the cache file as it was;
      a failed write returns an error too. */
  lemma FailedScrapeReportsError(numEvents: int, page: Page, write: WriteOutcome, now: int, file: CacheFile)
    ensures page.Unreachable? ==> Scrape(numEvents, page, write, now, file) == (Err(VisitFailed), file)
    ensures page.Loaded? && write != Written ==> Scrape(numEvents, page, write, now, file).0.Err?
    ensures page.Loaded? && write == CreateFails ==> Scrape(numEvents, page, write, now, file) == (Err(CreateFailed), file)
    ensures page.Loaded? && write == EncodeFails ==> Scrape(numEvents, page, write, now, file) == (Err(EncodeFailed), Corrupt)
  {
  }

  /** After a successful scrape, loading the cache gives back exactly the
      returned events, and the cache counts as fresh for the next twelve
      hours and as stale from then on. */
  lemma ScrapeThenLoad(numEvents: int, cs: seq<Container>, now: int, file: CacheFile, later: int)
    ensures var (result, file') := Scrape(numEvents, Loaded(cs), Written, now, file);
            && result.Ok?
            && LoadCachedEvents(file') == result
            && (ShouldScrape(file', later) <==> later >= now + StaleAfterSeconds)
  {
  }

  /** The twelve-hour boundary: written one hour ago is fresh, written
      exactly twelve hours ago is stale. */
  lemma StalenessBoundary(data: CachedData)
    ensures !ShouldScrape(Stored(data), data.lastScraped + 60 * 60)
    ensures !ShouldScrape(Stored(data), data.lastScraped + StaleAfterSeconds - 1)
    ensures ShouldScrape(Stored(data), data.lastScraped + StaleAfterSeconds)
  {
  }

  /** `filepath.Join` of a directory and a name, for a directory that is
      already clean. */
  function JoinPath(dir: string, name: string): string
  {
    if dir == "" then name
    else if dir[|dir| - 1] == '/' then dir + name
    else dir + "/" + name
  }

  /** The cache file's path under the platform cache root. */
  function CachePath(root: string): (path: string)
    ensures |path| >= |root| && path[..|root|] == root
    ensures var tail := AppCacheDir + "/" + CacheFileName;
            |path| >= |tail| && path[|path| - |tail|..] == tail
    ensures root == "" ==> path == AppCacheDir + "/" + CacheFileName
    ensures root != "" && root[|root| - 1] == '/' ==> path == root + AppCacheDir + "/" + CacheFileName
    ensures root != "" && root[|root| - 1] != '/' ==> path == root + "/" + AppCacheDir + "/" + CacheFileName
  {
    var dir := JoinPath(root, AppCacheDir);
    assert dir[|dir| - 1] == 'r';
    JoinPath(dir, CacheFileName)
  }

  /** The program's entry point: scrape the default count when the cache is
      stale, otherwise load the cached events; the page is only used when
      scraping. A failed scrape or load ends the program fatally. */
  method RunOnce(page: Page, write: WriteOutcome, now: int, file: CacheFile)
    returns (exit: Exit, result: Result<seq<Event>>, file': CacheFile)
    ensures ShouldScrape(file, now) ==> (result, file') == Scrape(DefaultScrapeCount, page, write, now, file)
    ensures !ShouldScrape(file, now) ==> result == LoadCachedEvents(file) && file' == file
    ensures !ShouldScrape(file, now) ==> result.Ok?
    ensures exit == if result.Err? then Fatal(result.error) else Completed
  {
    if ShouldScrape(file, now) {
      result, file' := ScrapeEvents(DefaultScrapeCount, page, write, now, file);
    } else {
      result, file' := LoadCachedEvents(file), file;
    }
    match result {
      case Err(e) => exit := Fatal(e);
      case Ok(_) => exit := Completed;
    }
  }
}
