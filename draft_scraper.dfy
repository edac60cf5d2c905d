/** The draft command-line scraper: it clamps its count flag, decides from
    the force flag, the cache's age and the user's answer whether to scrape,
    builds events in a title-keyed map while the page's elements are
    delivered, and on completion copies up to the count of them out and
    saves them with a timestamp. Every error it meets is fatal. */
module DraftScraper {
  import opened Text
  import Events
  import opened MapBuilder

  type Event = Events.Event

  /** The default category when no link survives. */
  const Uncategorized: string := "Uncategorized"

  /** The answer to the prompt that asks for a scrape anyway. */
  const YesAnswer: string := "y"

  /** What the program goes on to do. */
  datatype Action = ScrapeCount(count: int) | UseCache

  /** The link texts this draft skips: exactly "Free" and "free". */
  predicate IsSkippedLabel(t: string)
  {
    t == "Free" || t == "free"
  }

  /** The last link text that is not skipped, if any. */
  function LastValidLink(links: seq<string>): (r: Events.Option<string>)
    ensures r.Some? ==> !IsSkippedLabel(r.value) && r.value in links
  {
    if links == [] then Events.None
    else if IsSkippedLabel(links[|links| - 1]) then LastValidLink(links[..|links| - 1])
    else Events.Some(links[|links| - 1])
  }

  /** The category an event-types element gives its entry: the last link
      that is not skipped, or "Uncategorized". It always sets one. */
  function CategoryUpdate(links: seq<string>): (r: Events.Option<string>)
    ensures r.Some? && !IsSkippedLabel(r.value)
    ensures LastValidLink(links).Some? ==> r == LastValidLink(links)
    ensures (forall k :: 0 <= k < |links| ==> IsSkippedLabel(links[k])) ==> r == Events.Some(Uncategorized)
  {
    LastValidLinkWins(links);
    match LastValidLink(links)
    case Some(l) => Events.Some(l)
    case None => Events.Some(Uncategorized)
  }

  /** Every link overwrites the category unless it is skipped, so the link
      that wins is the last one not skipped; when every link is skipped there
      is none. */
  lemma {:induction false} LastValidLinkWins(links: seq<string>)
    ensures LastValidLink(links).None? <==> forall k :: 0 <= k < |links| ==> IsSkippedLabel(links[k])
    ensures LastValidLink(links).Some? ==>
              exists k :: 0 <= k < |links| && links[k] == LastValidLink(links).value &&
                          forall j :: k < j < |links| ==> IsSkippedLabel(links[j])
  {
    if links != [] {
      var init := links[..|links| - 1];
      LastValidLinkWins(init);
      var n := |links| - 1;
      if IsSkippedLabel(links[n]) {
        if LastValidLink(init).Some? {
          var k :| 0 <= k < |init| && init[k] == LastValidLink(init).value &&
                   forall j :: k < j < |init| ==> IsSkippedLabel(init[j]);
          assert links[k] == init[k];
          assert forall j :: k < j < |links| ==> IsSkippedLabel(links[j]) by {
            forall j | k < j < |links| ensures IsSkippedLabel(links[j]) {
              if j < n { assert links[j] == init[j]; }
            }
          }
        } else {
          forall k | 0 <= k < |links| ensures IsSkippedLabel(links[k]) {
            if k < n { assert links[k] == init[k]; }
          }
        }
      }
    }
  }

  /** Worked cases: the last valid link wins although the code's comment
      speaks of the first; only the two exact spellings are skipped; a list
      of skipped links gives "Uncategorized". */
  lemma CategoryExamples()
    ensures CategoryUpdate(["Music", "Sports"]) == Events.Some("Sports")
    ensures CategoryUpdate(["Free", "Music"]) == Events.Some("Music")
    ensures CategoryUpdate(["Music", "free"]) == Events.Some("Music")
    ensures CategoryUpdate(["FREE"]) == Events.Some("FREE")
    ensures CategoryUpdate(["free", "Free"]) == Events.Some(Uncategorized)
  {
    assert ["Music", "free"][..1] == ["Music"];
    assert ["free", "Free"][..1] == ["free"];
  }

  /** This draft's skip test is narrower than the canonical scraper's filter:
      whatever it skips, the canonical one drops too, but "FREE" and the
      empty text are kept here and dropped there. */
  lemma SkipIsNarrowerThanCanonical(t: string)
    ensures IsSkippedLabel(t) ==> !Events.IsKeptLabel(TrimSpace(t))
    ensures !IsSkippedLabel("FREE") && !Events.IsKeptLabel(TrimSpace("FREE"))
    ensures !IsSkippedLabel("") && !Events.IsKeptLabel(TrimSpace(""))
  {
    assert TrimSpace("Free") == "Free";
    assert TrimSpace("free") == "free";
    assert TrimSpace("FREE") == "FREE";
    assert ToLower("Free") == "free";
    assert ToLower("FREE") == "free";
  }

  /** The event-types callback: when the cap is not reached and the card's
      title has an entry, each link that is not skipped overwrites the
      entry's category in turn; if none did, the category becomes
      "Uncategorized". */
  method OnTypes(c: Collector, owner: string, links: seq<string>)
    requires c.Valid()
    modifies c
    ensures c.Valid() && c.events == old(c.events) && c.eventCount == old(c.eventCount)
    ensures c.entries == if old(c.eventCount) >= c.limit then old(c.entries)
                         else Apply(old(c.entries), TypesEl(owner, links), CategoryUpdate)
  {
    if c.eventCount >= c.limit {
      return;
    }
    if owner in c.entries {
      var validCategoryFound := false;
      var i := 0;
      while i < |links|
        invariant 0 <= i <= |links|
        invariant c.Valid() && c.events == old(c.events) && c.eventCount == old(c.eventCount)
        invariant owner in c.entries
        invariant validCategoryFound <==> LastValidLink(links[..i]).Some?
        invariant c.entries == old(c.entries)[owner := old(c.entries)[owner].(category :=
                    if validCategoryFound then LastValidLink(links[..i]).value else old(c.entries)[owner].category)]
      {
        assert links[..i + 1][..i] == links[..i];
        var categoryText := links[i];
        if !(categoryText == "Free" || categoryText == "free") {
          c.SetCategory(owner, categoryText);
          validCategoryFound := true;
        }
        i := i + 1;
      }
      assert links[..i] == links;
      if !validCategoryFound {
        c.SetCategory(owner, Uncategorized);
      }
    }
  }

  /** Runs the element callbacks over `els`, in order. */
  method Traverse(c: Collector, els: seq<Element>)
    requires c.Valid()
    modifies c
    ensures c.Valid() && c.events == old(c.events) && c.eventCount == old(c.eventCount)
    ensures c.entries == if old(c.eventCount) >= c.limit then old(c.entries)
                         else Build(old(c.entries), els, CategoryUpdate)
  {
    var i := 0;
    while i < |els|
      invariant 0 <= i <= |els|
      invariant c.Valid() && c.events == old(c.events) && c.eventCount == old(c.eventCount)
      invariant c.entries == if old(c.eventCount) >= c.limit then old(c.entries)
                             else Build(old(c.entries), els[..i], CategoryUpdate)
    {
      assert els[..i + 1][..i] == els[..i];
      match els[i] {
        case TitleEl(t) => c.OnTitle(t);
        case FieldEl(f, owner, text) => c.OnField(f, owner, text);
        case TypesEl(owner, links) => OnTypes(c, owner, links);
      }
      i := i + 1;
    }
    assert els[..i] == els;
  }

  /** The entries a scrape with counter cap `numEvents` ends up with: none
      when the cap is not positive (every callback returns at once), the
      whole page built in delivery order otherwise. */
  function Entries(numEvents: int, els: seq<Element>): map<string, Event>
  {
    if numEvents <= 0 then map[] else Build(map[], DeliveryOrder(els), CategoryUpdate)
  }

  /** The saved events: as many entries as the cap allows, each once. */
  ghost predicate IsFlushOf(evs: seq<Event>, numEvents: int, els: seq<Element>)
  {
    var m := Entries(numEvents, els);
    && |evs| == (if numEvents <= 0 then 0 else Min(numEvents, |m|))
    && DrawnFrom(evs, m)
  }

  /** What a scrape of a delivered page leaves: the saved events with the
      current time on success; otherwise a fatal exit, with the old file when
      it could not be created and an unreadable one when encoding failed. */
  ghost predicate ScrapeOutcome(numEvents: int, els: seq<Element>, write: Events.WriteOutcome, now: int,
                                file: Events.CacheFile, exit: Events.Exit, file': Events.CacheFile)
  {
    match write
    case Written =>
      exit == Events.Completed && file'.Stored? && file'.data.lastScraped == now &&
      IsFlushOf(file'.data.events, numEvents, els)
    case CreateFails => exit == Events.Fatal(Events.CreateFailed) && file' == file
    case EncodeFails => exit == Events.Fatal(Events.EncodeFailed) && file' == Events.Corrupt
  }

  /** One scrape: the callbacks run as the page is delivered, then the
      end-of-page callback copies the entries out and saves them. A failed
      request is not reported and leaves the cache as it was. */
  method ScrapeEvents(numEvents: int, visit: Visit, write: Events.WriteOutcome, now: int, file: Events.CacheFile)
    returns (exit: Events.Exit, file': Events.CacheFile)
    ensures visit.VisitFails? ==> exit == Events.Completed && file' == file
    ensures visit.Visited? ==> ScrapeOutcome(numEvents, visit.elements, write, now, file, exit, file')
  {
    if visit.VisitFails? {
      return Events.Completed, file;
    }
    var c := new Collector(numEvents);
    Traverse(c, DeliveryOrder(visit.elements));
    DeliveryOrderBuildsEveryTitle(visit.elements, CategoryUpdate);
    c.Flush();
    assert c.events[..0] == [] && c.events[0..] == c.events;
    match write
    case Written =>
      exit, file' := Events.Completed, Events.Stored(Events.CachedData(now, c.events));
    case CreateFails =>
      exit, file' := Events.Fatal(Events.CreateFailed), file;
    case EncodeFails =>
      exit, file' := Events.Fatal(Events.EncodeFailed), Events.Corrupt;
  }

  /** A successful scrape saves at most `numEvents` events, all distinct,
      each the entry built for its title, and one per title on the page when
      the page has no more titles than that. */
  lemma ScrapeSavesDistinctEntries(numEvents: int, els: seq<Element>, evs: seq<Event>)
    requires numEvents > 0 && IsFlushOf(evs, numEvents, els)
    ensures |evs| <= numEvents && |evs| <= |Titles(els)|
    ensures forall i :: 0 <= i < |evs| ==> evs[i].title in Titles(els)
    ensures |Titles(els)| <= numEvents ==> |evs| == |Titles(els)|
  {
    DeliveryOrderBuildsEveryTitle(els, CategoryUpdate);
  }

  /** The draft's own staleness test, the same twelve-hour rule. */
  function ShouldScrape(file: Events.CacheFile, now: int): (stale: bool)
    ensures !file.Stored? ==> stale
    ensures file.Stored? ==> (stale <==> now >= file.data.lastScraped + Events.StaleAfterSeconds)
  {
    match file
    case Absent => true
    case Corrupt => true
    case Stored(data) => !(now - data.lastScraped < 12 * 60 * 60)
  }

  /** The draft and the canonical program decide staleness alike. */
  lemma ShouldScrapeAgrees(file: Events.CacheFile, now: int)
    ensures ShouldScrape(file, now) == Events.ShouldScrape(file, now)
  {
  }

  /** The decision made from the flags, the cache's staleness and, only when
      neither forces a scrape, the user's answer to the prompt. */
  function Decide(countFlag: int, force: bool, stale: bool, answer: string): (a: Action)
    ensures a.ScrapeCount? <==> force || stale || ToLower(answer) == YesAnswer
    ensures a.ScrapeCount? ==> a.count == Events.ClampCount(countFlag)
  {
    var n := Events.ClampCount(countFlag);
    if force || stale then ScrapeCount(n)
    else if ToLower(answer) == YesAnswer then ScrapeCount(n)
    else UseCache
  }

  /** An answer of "Y" or "y" to the prompt asks for a scrape; anything
      else, with no flag and a fresh cache, uses the cache. */
  lemma PromptExamples(countFlag: int)
    ensures Decide(countFlag, false, false, "Y") == ScrapeCount(Events.ClampCount(countFlag))
    ensures Decide(countFlag, false, false, "yes") == UseCache
    ensures Decide(1000, true, false, "n") == ScrapeCount(25)
  {
    assert ToLower("Y") == "y";
    assert ToLower("yes") != "y";
  }

  /** The program: decide, then scrape or load the cached events. The
      cache is only used when it is fresh, so it is always stored then and
      its open and decode errors cannot arise on that path. */
  method RunMain(countFlag: int, force: bool, answer: string, visit: Visit, write: Events.WriteOutcome,
                 now: int, file: Events.CacheFile)
    returns (exit: Events.Exit, file': Events.CacheFile)
    ensures var a := Decide(countFlag, force, ShouldScrape(file, now), answer);
            && (a.ScrapeCount? && visit.VisitFails? ==> exit == Events.Completed && file' == file)
            && (a.ScrapeCount? && visit.Visited? ==>
                  ScrapeOutcome(a.count, visit.elements, write, now, file, exit, file'))
            && (a.UseCache? ==> file' == file)
            && (a.UseCache? ==> file.Stored? && exit == Events.Completed)
  {
    var action := Decide(countFlag, force, ShouldScrape(file, now), answer);
    match action
    case ScrapeCount(n) =>
      exit, file' := ScrapeEvents(n, visit, write, now, file);
    case UseCache =>
      file' := file;
      match Events.LoadCachedEvents(file)
      case Ok(_) => exit := Events.Completed;
      case Err(e) => exit := Events.Fatal(e);
  }
}
