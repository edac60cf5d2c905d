/** The terminal menu: a model that moves between a closed set of states as
    messages arrive (key presses, the results of the scrape and load
    commands, plain string messages) and a view that renders each state.
    Commands are tags; the cache check that key "1" consults is an input. */
module Tui {
  import Events

  type Event = Events.Event

  datatype State = Menu | Scraping | Viewing | Options | ForceScrape | LoadingCache

  datatype Model = Model(state: State, events: seq<Event>, scrapeError: Events.Option<string>)

  datatype Msg =
    | ScrapeSuccessMsg(events: seq<Event>)
    | ScrapeErrorMsg(err: string)
    | KeyMsg(key: string)
    | TextMsg(text: string)
    | OtherMsg

  datatype Cmd = NoCmd | Quit | ScrapeCmd(count: int) | LoadCmd

  /** A message together with the cache check's answer at the time it is handled. */
  datatype Input = Input(msg: Msg, scrapeDue: bool)

  /** The count the menu asks the scraper for. */
  const MenuScrapeCount: int := 10

  const MainMenuScreen: string :=
    "\n" + "RHUL Events Tracker\n" + "\n" + "1. Run Scraper\n" + "2. View Current Data\n"
    + "3. Options\n" + "4. Exit\n" + "\n" + "Choose an option: "
  const OptionsScreen: string :=
    "\n" + "Options Menu:\n" + "\n" + "1. Set Number of Events to Scrape\n"
    + "2. Set Cache Expiry Time (Min 1 hour)\n" + "3. [Future Option]\n"
    + "4. Back to Main Menu (q)\n" + "\n" + "Choose an option: "
  const ScrapingScreen: string := "Scraping data... Please wait.\n" + "Press 'q' to cancel.\n"
  const LoadingScreen: string := "Loading cached events... Please wait.\n" + "Press 'q' to cancel.\n"
  const NoEventsScreen: string := "No events found...\n"

  function InitialModel(): (m: Model)
    ensures m.state == Menu && m.events == [] && m.scrapeError == Events.None
  {
    Model(Menu, [], Events.None)
  }

  /** One message handled: the new model and the command to run next. */
  function Update(m: Model, msg: Msg, scrapeDue: bool): (r: (Model, Cmd))
    ensures r.0.state == ForceScrape ==> m.state == ForceScrape
    ensures r.1 == Quit ==> r.0 == m
    ensures r.0.events != m.events ==> msg.ScrapeSuccessMsg?
    ensures r.0.scrapeError != m.scrapeError ==> msg.ScrapeSuccessMsg? || msg.ScrapeErrorMsg?
    ensures r.1.ScrapeCmd? ==> scrapeDue && r.1.count == MenuScrapeCount && r.0.state == Scraping
  {
    match msg
    case ScrapeSuccessMsg(evs) => (m.(events := evs, scrapeError := Events.None, state := Viewing), NoCmd)
    case ScrapeErrorMsg(err) => (m.(scrapeError := Events.Some(err), state := Menu), NoCmd)
    case KeyMsg(key) =>
      if key == "ctrl+c" || key == "ctrl+d" then (m, Quit)
      else if key == "q" then (m.(state := Menu), NoCmd)
      else if key == "1" then
        if scrapeDue then (m.(state := Scraping), ScrapeCmd(MenuScrapeCount))
        else (m.(state := LoadingCache), LoadCmd)
      else if key == "2" then (m.(state := LoadingCache), LoadCmd)
      else if key == "3" then (m.(state := Options), NoCmd)
      else if key == "4" then (m, Quit)
      else (m, NoCmd)
    case TextMsg(text) =>
      if text == "done_scraping" || text == "done_viewing" then (m.(state := Viewing), NoCmd)
      else (m, NoCmd)
    case OtherMsg => (m, NoCmd)
  }

  /** The transition table: the result messages, the menu keys, quitting,
      the string messages, and everything that is ignored. Success replaces
      the events, clears the error and shows them; an error is recorded and
      the menu shown, events kept. */
  lemma TransitionTable(m: Model, evs: seq<Event>, err: string, key: string, text: string, due: bool)
    ensures Update(m, ScrapeSuccessMsg(evs), due) == (Model(Viewing, evs, Events.None), NoCmd)
    ensures Update(m, ScrapeErrorMsg(err), due) == (Model(Menu, m.events, Events.Some(err)), NoCmd)
    ensures Update(m, KeyMsg("1"), due) ==
              if due then (m.(state := Scraping), ScrapeCmd(MenuScrapeCount)) else (m.(state := LoadingCache), LoadCmd)
    ensures Update(m, KeyMsg("2"), due) == (m.(state := LoadingCache), LoadCmd)
    ensures Update(m, KeyMsg("3"), due) == (m.(state := Options), NoCmd)
    ensures Update(m, KeyMsg("q"), due) == (m.(state := Menu), NoCmd)
    ensures Update(m, KeyMsg("ctrl+c"), due) == (m, Quit)
    ensures Update(m, KeyMsg("ctrl+d"), due) == (m, Quit)
    ensures Update(m, KeyMsg("4"), due) == (m, Quit)
    ensures key !in {"ctrl+c", "ctrl+d", "q", "1", "2", "3", "4"} ==> Update(m, KeyMsg(key), due) == (m, NoCmd)
    ensures Update(m, TextMsg("done_scraping"), due) == (m.(state := Viewing), NoCmd)
    ensures Update(m, TextMsg("done_viewing"), due) == (m.(state := Viewing), NoCmd)
    ensures text !in {"done_scraping", "done_viewing"} ==> Update(m, TextMsg(text), due) == (m, NoCmd)
    ensures Update(m, OtherMsg, due) == (m, NoCmd)
  {
  }

  /** The model after a sequence of inputs. */
  function Run(m: Model, inputs: seq<Input>): Model
  {
    if inputs == [] then m
    else
      var last := inputs[|inputs| - 1];
      Update(Run(m, inputs[..|inputs| - 1]), last.msg, last.scrapeDue).0
  }

  /** No message ever moves the model into the force-scrape state, so no
      model reachable from the initial one is in it. */
  lemma {:induction false} ForceScrapeNeverEntered(m: Model, inputs: seq<Input>)
    requires m.state != ForceScrape
    ensures Run(m, inputs).state != ForceScrape
  {
    if inputs != [] {
      ForceScrapeNeverEntered(m, inputs[..|inputs| - 1]);
    }
  }

  /** Decimal digits of a natural number. */
  function NatToString(n: nat): (s: string)
    ensures |s| > 0
    ensures forall k :: 0 <= k < |s| ==> '0' <= s[k] <= '9'
  {
    var digit := ['0' + (n % 10) as char];
    if n < 10 then digit else NatToString(n / 10) + digit
  }

  /** The block for the event numbered `n`. */
  function Block(e: Event, n: nat): string
  {
    "Event " + NatToString(n) + "\n"
    + "Title: " + e.title + "\nDate: " + e.date + "\nLocation: " + e.location
    + "\nCategory: " + e.category + "\nDescription: " + e.description + "\n\n"
  }

  /** The blocks of `evs`, the event at index `i` numbered `i + 1`. */
  function Blocks(evs: seq<Event>): string
  {
    if evs == [] then "" else Blocks(evs[..|evs| - 1]) + Block(evs[|evs| - 1], |evs|)
  }

  /** The event list screen. */
  function ViewEvents(evs: seq<Event>): (r: string)
    ensures evs == [] ==> r == NoEventsScreen
    ensures evs != [] ==> Block(evs[0], 1) <= r
  {
    if |evs| == 0 then NoEventsScreen
    else
      BlocksPrefix(evs, 1);
      assert evs[..1][..0] == [];
      Blocks(evs)
  }

  /** The blocks of a prefix of the events are a prefix of the blocks. */
  lemma {:induction false} BlocksPrefix(evs: seq<Event>, k: nat)
    requires k <= |evs|
    ensures Blocks(evs[..k]) <= Blocks(evs)
  {
    if k < |evs| {
      var init := evs[..|evs| - 1];
      assert init[..k] == evs[..k];
      BlocksPrefix(init, k);
    } else {
      assert evs[..k] == evs;
    }
  }

  /** The event list shows every event in order, each in a block numbered by
      its position counted from 1: the blocks of the events before it, then
      its own block, are a prefix of the screen. */
  lemma ViewEventsNumbersEachEvent(evs: seq<Event>, k: nat)
    requires k < |evs|
    ensures Blocks(evs[..k]) + Block(evs[k], k + 1) <= ViewEvents(evs)
  {
    BlocksPrefix(evs, k + 1);
    assert evs[..k + 1][..k] == evs[..k];
  }

  /** The event list rendered as the program builds it, one block appended
      per event. */
  method RenderEvents(evs: seq<Event>) returns (output: string)
    ensures output == ViewEvents(evs)
  {
    if |evs| == 0 {
      return NoEventsScreen;
    }
    output := "";
    var i := 0;
    while i < |evs|
      invariant 0 <= i <= |evs|
      invariant output == Blocks(evs[..i])
    {
      assert evs[..i + 1][..i] == evs[..i];
      output := output + Block(evs[i], i + 1);
      i := i + 1;
    }
    assert evs[..i] == evs;
  }

  /** What the view shows, before it is rendered as text. */
  datatype Screen =
    | MainMenu
    | ScrapingWait
    | LoadingWait
    | EventList(events: seq<Event>)
    | OptionsMenu
    | ErrorScreen(err: string)
    | BlankScreen

  /** The view's choice of screen for each state; the force-scrape state
      falls to the default branch, which shows the recorded error or nothing. */
  function ScreenOf(m: Model): (r: Screen)
    ensures r.ErrorScreen? || r.BlankScreen? <==> m.state == ForceScrape
    ensures r.EventList? <==> m.state == Viewing
    ensures r.EventList? ==> r.events == m.events
    ensures r.ErrorScreen? ==> m.scrapeError == Events.Some(r.err)
  {
    match m.state
    case Menu => MainMenu
    case Scraping => ScrapingWait
    case LoadingCache => LoadingWait
    case Viewing => EventList(m.events)
    case Options => OptionsMenu
    case ForceScrape =>
      match m.scrapeError
      case Some(err) => ErrorScreen(err)
      case None => BlankScreen
  }

  function Render(s: Screen): string
  {
    match s
    case MainMenu => MainMenuScreen
    case ScrapingWait => ScrapingScreen
    case LoadingWait => LoadingScreen
    case EventList(evs) => ViewEvents(evs)
    case OptionsMenu => OptionsScreen
    case ErrorScreen(err) => "Error: " + err + "\nPress 'q' to return to the menu."
    case BlankScreen => ""
  }

  function View(m: Model): (r: string)
    ensures r == "" <==> m.state == ForceScrape && m.scrapeError.None?
  {
    RenderIsBlankOnlyForBlank(ScreenOf(m));
    Render(ScreenOf(m))
  }

  /** Only the blank screen renders as the empty string. */
  lemma RenderIsBlankOnlyForBlank(s: Screen)
    ensures Render(s) == "" <==> s == BlankScreen
  {
    if s.EventList? && s.events != [] {
      BlocksPrefix(s.events, 1);
      assert s.events[..1][..0] == [];
    }
  }

  /** Every model reachable from the initial one renders one of the five
      screens, never the default branch: a recorded scrape error is never
      shown, and nothing blank is ever shown. */
  lemma ReachableViewIsAScreen(inputs: seq<Input>)
    ensures var m := Run(InitialModel(), inputs);
            && m.state != ForceScrape
            && !ScreenOf(m).ErrorScreen?
            && View(m) != ""
  {
    var m := Run(InitialModel(), inputs);
    ForceScrapeNeverEntered(InitialModel(), inputs);
  }

  /** The message a command's result becomes. */
  function ResultMsg(r: Events.Result<seq<Event>>): (msg: Msg)
    ensures msg.ScrapeSuccessMsg? <==> r.Ok?
    ensures r.Ok? ==> msg == ScrapeSuccessMsg(r.value)
    ensures r.Err? ==> msg == ScrapeErrorMsg(Events.ErrorText(r.error))
  {
    match r
    case Ok(evs) => ScrapeSuccessMsg(evs)
    case Err(e) => ScrapeErrorMsg(Events.ErrorText(e))
  }

  /** The scrape command: one canonical scrape, its result as a message. */
  method ScrapeEventsCmd(count: int, page: Events.Page, write: Events.WriteOutcome, now: int, file: Events.CacheFile)
    returns (msg: Msg, file': Events.CacheFile)
    ensures var (r, f) := Events.Scrape(count, page, write, now, file); msg == ResultMsg(r) && file' == f
    ensures msg.ScrapeSuccessMsg? ==> |msg.events| <= Events.ClampCount(count)
  {
    var r;
    r, file' := Events.ScrapeEvents(count, page, write, now, file);
    msg := ResultMsg(r);
  }

  /** The load command: the cached events as a success message, or the
      error of a missing or unreadable cache. */
  function LoadCachedEventsCmd(file: Events.CacheFile): (msg: Msg)
    ensures msg.ScrapeSuccessMsg? <==> file.Stored?
    ensures file.Stored? ==> msg.events == file.data.events
    ensures file.Absent? ==> msg == ScrapeErrorMsg(Events.ErrorText(Events.OpenFailed))
    ensures file.Corrupt? ==> msg == ScrapeErrorMsg(Events.ErrorText(Events.DecodeFailed))
  {
    ResultMsg(Events.LoadCachedEvents(file))
  }

  /** Pressing "1" on a fresh cache loads it, and the load's message puts
      the model in the viewing state showing exactly the cached events. */
  lemma FreshCacheViewedFromMenu(m: Model, data: Events.CachedData, now: int)
    requires !Events.ShouldScrape(Events.Stored(data), now)
    ensures var (m1, cmd) := Update(m, KeyMsg("1"), Events.ShouldScrape(Events.Stored(data), now));
            && cmd == LoadCmd && m1.state == LoadingCache
            && var m2 := Update(m1, LoadCachedEventsCmd(Events.Stored(data)), false).0;
               m2.state == Viewing && m2.events == data.events && View(m2) == ViewEvents(data.events)
  {
  }
}
