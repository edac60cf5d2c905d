/** The earliest draft scraper: the same title-keyed map, a fixed cap of
    ten, the first category link taken as it is, and the events written as a
    bare list, without a timestamp, to a file in the working directory. */
module FirstDraft {
  import Events
  import opened MapBuilder

  type Event = Events.Event

  /** The fixed event cap. */
  const MaxEvents: int := 10

  /** The output file `events.json` in the working directory: missing,
      unreadable, or holding a bare list of events. */
  datatype LocalFile = NoFile | Unreadable | Saved(events: seq<Event>)

  /** The category rule: the text of the link at index 0, unfiltered and
      untrimmed; with no link the category is left as it is. */
  function FirstLink(links: seq<string>): (r: Events.Option<string>)
    ensures r.Some? <==> links != []
    ensures r.Some? ==> r.value == links[0]
  {
    if |links| > 0 then Events.Some(links[0]) else Events.None
  }

  /** Worked cases: "Free" is taken like any other label, an empty first
      link wins over a later real one, and a card without links keeps the
      empty category its title element gave it. */
  lemma FirstLinkExamples(t: string)
    ensures Apply(AddTitle(map[], t), TypesEl(t, ["Free", "Music"]), FirstLink)[t].category == "Free"
    ensures Apply(AddTitle(map[], t), TypesEl(t, ["", "Music"]), FirstLink)[t].category == ""
    ensures Apply(AddTitle(map[], t), TypesEl(t, []), FirstLink)[t].category == ""
  {
  }

  /** A title element stores its text as it is, white space included, and
      that text is also the entry's key. */
  lemma TitleIsUntrimmed()
    ensures AddTitle(map[], " Quiz ").Keys == {" Quiz "}
    ensures AddTitle(map[], " Quiz ")[" Quiz "].title == " Quiz "
  {
  }

  /** The event-types callback: when the cap is not reached and the card's
      title has an entry, the link callback runs for every link, and only
      the one at index 0 sets the category. */
  method OnTypes(c: Collector, owner: string, links: seq<string>)
    requires c.Valid()
    modifies c
    ensures c.Valid() && c.events == old(c.events) && c.eventCount == old(c.eventCount)
    ensures c.entries == if old(c.eventCount) >= c.limit then old(c.entries)
                         else Apply(old(c.entries), TypesEl(owner, links), FirstLink)
  {
    if c.eventCount >= c.limit {
      return;
    }
    if owner in c.entries {
      var i := 0;
      while i < |links|
        invariant 0 <= i <= |links|
        invariant c.Valid() && c.events == old(c.events) && c.eventCount == old(c.eventCount)
        invariant owner in c.entries
        invariant c.entries == if i == 0 then old(c.entries)
                               else old(c.entries)[owner := old(c.entries)[owner].(category := links[0])]
      {
        if i == 0 {
          var firstCat := links[i];
          c.SetCategory(owner, firstCat);
        }
        i := i + 1;
      }
    }
  }

  /** Runs the element callbacks over `els`, in order. */
  method Traverse(c: Collector, els: seq<Element>)
    requires c.Valid()
    modifies c
    ensures c.Valid() && c.events == old(c.events) && c.eventCount == old(c.eventCount)
    ensures c.entries == if old(c.eventCount) >= c.limit then old(c.entries)
                         else Build(old(c.entries), els, FirstLink)
  {
    var i := 0;
    while i < |els|
      invariant 0 <= i <= |els|
      invariant c.Valid() && c.events == old(c.events) && c.eventCount == old(c.eventCount)
      invariant c.entries == if old(c.eventCount) >= c.limit then old(c.entries)
                             else Build(old(c.entries), els[..i], FirstLink)
    {
      assert els[..i + 1][..i] == els[..i];
      match els[i] {
        case TitleEl(t) => c.OnTitle(t);
        case FieldEl(f, owner, text) => c.OnField(f, owner, text);
        case TypesEl(owner, links) => OnTypes(c, owner, links);
      }
      i := i + 1;
    }
    assert els[..i] == els;
  }

  /** The whole program: visit the page, let the callbacks build the map,
      copy out at most ten entries and write them as a bare list. A failed
      request is not reported and writes nothing; a failed write is fatal. */
  method Run(visit: Visit, write: Events.WriteOutcome, file: LocalFile)
    returns (exit: Events.Exit, file': LocalFile)
    ensures visit.VisitFails? ==> exit == Events.Completed && file' == file
    ensures visit.Visited? && write == Events.Written ==>
              var m := Build(map[], DeliveryOrder(visit.elements), FirstLink);
              && exit == Events.Completed && file'.Saved?
              && |file'.events| == Min(MaxEvents, |Titles(visit.elements)|)
              && DrawnFrom(file'.events, m)
    ensures visit.Visited? && write == Events.CreateFails ==>
              exit == Events.Fatal(Events.CreateFailed) && file' == file
    ensures visit.Visited? && write == Events.EncodeFails ==>
              exit == Events.Fatal(Events.EncodeFailed) && file' == Unreadable
  {
    if visit.VisitFails? {
      return Events.Completed, file;
    }
    var c := new Collector(MaxEvents);
    Traverse(c, DeliveryOrder(visit.elements));
    DeliveryOrderBuildsEveryTitle(visit.elements, FirstLink);
    c.Flush();
    assert c.events[0..] == c.events;
    match write
    case Written =>
      exit, file' := Events.Completed, Saved(c.events);
    case CreateFails =>
      exit, file' := Events.Fatal(Events.CreateFailed), file;
    case EncodeFails =>
      exit, file' := Events.Fatal(Events.EncodeFailed), Unreadable;
  }
}
