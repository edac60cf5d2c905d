/** The title-keyed event builder of the two draft scrapers. Element
    callbacks fire one at a time in document order: a title element creates
    the entry for its title when there is none, and the time, description,
    location and event-types elements patch the entry whose title their
    enclosing card carries, if there is one. When the page is done, up to
    the event cap of the map's entries are copied out, in the map's own
    (unspecified) order. */
module MapBuilder {
  import Events

  type Event = Events.Event

  /** The fields a child element other than the title can set. */
  datatype Field = Date | Description | Location

  /** One matched element: a title element with its text; a time, description
      or location element with the title text found on its card (`owner`) and
      its own text; an event-types element with the owner and its links' texts. */
  datatype Element =
    | TitleEl(text: string)
    | FieldEl(field: Field, owner: string, text: string)
    | TypesEl(owner: string, links: seq<string>)

  /** The outcome of requesting the listing page, with the page's matched
      elements in document order. */
  datatype Visit = VisitFails | Visited(elements: seq<Element>)

  /** How a draft turns an event-types element's links into a category:
      Some(c) sets the category to c, None leaves it as it is. */
  type CategoryRule = seq<string> -> Events.Option<string>

  const Blank: Event := Events.Event("", "", "", "", "")

  /** Every entry is stored under its own title. */
  ghost predicate KeyedByTitle(m: map<string, Event>)
  {
    forall t :: t in m ==> m[t].title == t
  }

  function WithField(e: Event, field: Field, text: string): Event
  {
    match field
    case Date => e.(date := text)
    case Description => e.(description := text)
    case Location => e.(location := text)
  }

  /** A title element: the entry for `t` is created if absent, and its title set. */
  function AddTitle(m: map<string, Event>, t: string): (r: map<string, Event>)
    ensures r.Keys == m.Keys + {t} && r[t].title == t
    ensures t in m ==> r[t] == m[t].(title := t)
    ensures t !in m ==> r[t] == Blank.(title := t)
    ensures forall k :: k in m && k != t ==> r[k] == m[k]
  {
    m[t := (if t in m then m[t] else Blank).(title := t)]
  }

  /** A time, description or location element: the owner's entry, if any, gets the text. */
  function Patch(m: map<string, Event>, field: Field, owner: string, text: string): (r: map<string, Event>)
    ensures r.Keys == m.Keys
    ensures owner !in m ==> r == m
    ensures owner in m ==> r[owner] == WithField(m[owner], field, text)
    ensures forall k :: k in m && k != owner ==> r[k] == m[k]
  {
    if owner in m then m[owner := WithField(m[owner], field, text)] else m
  }

  /** One element applied to the map. */
  function Apply(m: map<string, Event>, el: Element, rule: CategoryRule): (r: map<string, Event>)
    ensures r.Keys == m.Keys + (if el.TitleEl? then {el.text} else {})
    ensures !el.TitleEl? && el.owner !in m ==> r == m
    ensures forall k :: k in m && k != (if el.TitleEl? then el.text else el.owner) ==> r[k] == m[k]
    ensures el.TitleEl? ==> r == AddTitle(m, el.text)
    ensures el.FieldEl? ==> r == Patch(m, el.field, el.owner, el.text)
    ensures el.TypesEl? && el.owner in m && rule(el.links).Some? ==>
              r[el.owner] == m[el.owner].(category := rule(el.links).value)
    ensures el.TypesEl? && rule(el.links).None? ==> r == m
  {
    match el
    case TitleEl(t) => AddTitle(m, t)
    case FieldEl(f, owner, text) => Patch(m, f, owner, text)
    case TypesEl(owner, links) =>
      if owner in m then
        match rule(links)
        case None => m
        case Some(c) => m[owner := m[owner].(category := c)]
      else m
  }

  /** The map after a sequence of elements, applied in order. */
  function Build(m: map<string, Event>, els: seq<Element>, rule: CategoryRule): (r: map<string, Event>)
    ensures m.Keys <= r.Keys
  {
    if els == [] then m else Apply(Build(m, els[..|els| - 1], rule), els[|els| - 1], rule)
  }

  /** The texts of the title elements among `els`. */
  function Titles(els: seq<Element>): set<string>
  {
    set k | 0 <= k < |els| && els[k].TitleEl? :: els[k].text
  }

  /** A title element creates an entry only when its title is new, and a
      second title element with the same text changes nothing. */
  lemma TitleCreatesOnce(m: map<string, Event>, t: string, rule: CategoryRule)
    requires KeyedByTitle(m)
    ensures var m' := Apply(m, TitleEl(t), rule);
            && m'.Keys == m.Keys + {t}
            && (t in m ==> m' == m)
            && (t !in m ==> m'[t] == Blank.(title := t))
            && Apply(m', TitleEl(t), rule) == m'
  {
  }

  /** An element that patches a card whose title has no entry changes nothing. */
  lemma OrphanPatchIsInert(m: map<string, Event>, el: Element, rule: CategoryRule)
    requires !el.TitleEl? && el.owner !in m
    ensures Apply(m, el, rule) == m
  {
  }

  /** A patch touches only the entry of its owner, and only the field it names. */
  lemma PatchTouchesOwnerOnly(m: map<string, Event>, field: Field, owner: string, text: string, rule: CategoryRule, t: string)
    requires t in m && t != owner
    ensures var m' := Apply(m, FieldEl(field, owner, text), rule);
            && m'.Keys == m.Keys && m'[t] == m[t]
            && (owner in m ==> m'[owner].title == m[owner].title && m'[owner].category == m[owner].category)
  {
  }

  lemma TitlesSnoc(init: seq<Element>, last: Element)
    ensures Titles(init + [last]) == Titles(init) + (if last.TitleEl? then {last.text} else {})
  {
    var els := init + [last];
    forall t | t in Titles(els) ensures t in Titles(init) || (last.TitleEl? && t == last.text) {
      var k :| 0 <= k < |els| && els[k].TitleEl? && els[k].text == t;
      if k < |init| { assert init[k] == els[k]; }
    }
    forall t | t in Titles(init) ensures t in Titles(els) {
      var k :| 0 <= k < |init| && init[k].TitleEl? && init[k].text == t;
      assert els[k] == init[k];
    }
    if last.TitleEl? { assert els[|init|] == last; }
  }

  lemma ApplyKeys(m: map<string, Event>, el: Element, rule: CategoryRule)
    requires KeyedByTitle(m)
    ensures Apply(m, el, rule).Keys == m.Keys + (if el.TitleEl? then {el.text} else {})
    ensures KeyedByTitle(Apply(m, el, rule))
  {
  }

  /** The entries after a page are the entries before plus one per distinct
      title element, and every entry stays under its own title. */
  lemma {:induction false} BuildKeys(m: map<string, Event>, els: seq<Element>, rule: CategoryRule)
    requires KeyedByTitle(m)
    ensures Build(m, els, rule).Keys == m.Keys + Titles(els)
    ensures KeyedByTitle(Build(m, els, rule))
  {
    if els == [] {
      assert Titles(els) == {};
    } else {
      var init := els[..|els| - 1];
      var last := els[|els| - 1];
      assert els == init + [last];
      BuildKeys(m, init, rule);
      TitlesSnoc(init, last);
      ApplyKeys(Build(m, init, rule), last, rule);
    }
  }

  lemma {:induction false} TitlesAppend(a: seq<Element>, b: seq<Element>)
    ensures Titles(a + b) == Titles(a) + Titles(b)
  {
    if b == [] {
      assert a + b == a;
      assert Titles(b) == {};
    } else {
      var init, last := b[..|b| - 1], b[|b| - 1];
      assert b == init + [last];
      assert a + b == (a + init) + [last];
      TitlesAppend(a, init);
      TitlesSnoc(a + init, last);
      TitlesSnoc(init, last);
    }
  }

  /** Which element callback an element goes to, in the order the callbacks
      are registered: title, time, description, location, event types. */
  function CallbackIndex(el: Element): nat
  {
    match el
    case TitleEl(_) => 0
    case FieldEl(f, _, _) => (match f case Date => 1 case Description => 2 case Location => 3)
    case TypesEl(_, _) => 4
  }

  /** The elements of `els` that callback `k` receives, in document order. */
  function ForCallback(els: seq<Element>, k: nat): (r: seq<Element>)
    ensures forall i :: 0 <= i < |r| ==> CallbackIndex(r[i]) == k
  {
    if els == [] then []
    else ForCallback(els[..|els| - 1], k) + (if CallbackIndex(els[|els| - 1]) == k then [els[|els| - 1]] else [])
  }

  /** The order the collector delivers a page's elements in: each
      registered callback runs over all its matches, in document order,
      before the next callback runs. */
  function DeliveryOrder(els: seq<Element>): seq<Element>
  {
    ForCallback(els, 0) + ForCallback(els, 1) + ForCallback(els, 2) + ForCallback(els, 3) + ForCallback(els, 4)
  }

  lemma {:induction false} ForCallbackTitles(els: seq<Element>, k: nat)
    ensures Titles(ForCallback(els, k)) == if k == 0 then Titles(els) else {}
  {
    if els == [] {
      assert Titles(els) == {};
    } else {
      var init, last := els[..|els| - 1], els[|els| - 1];
      assert els == init + [last];
      ForCallbackTitles(init, k);
      TitlesSnoc(init, last);
      var tail := if CallbackIndex(last) == k then [last] else [];
      TitlesAppend(ForCallback(init, k), tail);
      if CallbackIndex(last) == k {
        TitlesSnoc([], last);
        assert [] + [last] == tail;
      } else {
        assert Titles(tail) == {};
      }
    }
  }

  /** Delivered in callback order, the title elements all come before the
      others, and the entries at the end are one per distinct title on the
      page: every patch whose owner is a title on the page finds its entry. */
  lemma DeliveryOrderBuildsEveryTitle(els: seq<Element>, rule: CategoryRule)
    ensures var order := DeliveryOrder(els);
            && (forall i :: 0 <= i < |ForCallback(els, 0)| ==> order[i].TitleEl?)
            && (forall i :: |ForCallback(els, 0)| <= i < |order| ==> !order[i].TitleEl?)
            && Build(map[], order, rule).Keys == Titles(els)
            && KeyedByTitle(Build(map[], order, rule))
  {
    var f0, f1, f2, f3, f4 := ForCallback(els, 0), ForCallback(els, 1), ForCallback(els, 2), ForCallback(els, 3), ForCallback(els, 4);
    var order := DeliveryOrder(els);
    forall i | |f0| <= i < |order| ensures !order[i].TitleEl? {
      var j := i - |f0|;
      if j < |f1| { assert order[i] == f1[j]; }
      else if j < |f1| + |f2| { assert order[i] == f2[j - |f1|]; }
      else if j < |f1| + |f2| + |f3| { assert order[i] == f3[j - |f1| - |f2|]; }
      else { assert order[i] == f4[j - |f1| - |f2| - |f3|]; }
    }
    forall i | 0 <= i < |f0| ensures order[i].TitleEl? {
      assert order[i] == f0[i];
    }
    ForCallbackTitles(els, 0);
    ForCallbackTitles(els, 1);
    ForCallbackTitles(els, 2);
    ForCallbackTitles(els, 3);
    ForCallbackTitles(els, 4);
    TitlesAppend(f0, f1);
    TitlesAppend(f0 + f1, f2);
    TitlesAppend(f0 + f1 + f2, f3);
    TitlesAppend(f0 + f1 + f2 + f3, f4);
    BuildKeys(map[], order, rule);
  }

  /** `evs` are entries of `m`, each under its own title, no title twice. */
  ghost predicate DrawnFrom(evs: seq<Event>, m: map<string, Event>)
  {
    && (forall i :: 0 <= i < |evs| ==> evs[i].title in m && m[evs[i].title] == evs[i])
    && (forall i, j :: 0 <= i < j < |evs| ==> evs[i].title != evs[j].title)
  }

  function Min(a: int, b: int): int
  {
    if a < b then a else b
  }

  /** A draft scraper's collection state: the entries by title, the events
      copied out so far, and the counter that the element callbacks check
      against the cap. */
  class Collector {
    var entries: map<string, Event>
    var events: seq<Event>
    var eventCount: int
    const limit: int

    ghost predicate Valid()
      reads this
    {
      eventCount == |events| && KeyedByTitle(entries)
    }

    constructor (limit: int)
      ensures Valid()
      ensures entries == map[] && events == [] && eventCount == 0 && this.limit == limit
    {
      entries := map[];
      events := [];
      eventCount := 0;
      this.limit := limit;
    }

    /** The title-element callback. */
    method OnTitle(text: string)
      requires Valid()
      modifies this
      ensures Valid() && events == old(events) && eventCount == old(eventCount)
      ensures entries == if old(eventCount) >= limit then old(entries)
                         else AddTitle(old(entries), text)
    {
      if eventCount >= limit {
        return;
      }
      var event := if text in entries then entries[text] else Blank;
      event := event.(title := text);
      entries := entries[text := event];
    }

    /** The time, description and location callbacks. */
    method OnField(field: Field, owner: string, text: string)
      requires Valid()
      modifies this
      ensures Valid() && events == old(events) && eventCount == old(eventCount)
      ensures entries == if old(eventCount) >= limit then old(entries)
                         else Patch(old(entries), field, owner, text)
    {
      if eventCount >= limit {
        return;
      }
      if owner in entries {
        entries := entries[owner := WithField(entries[owner], field, text)];
      }
    }

    /** Sets the category of an existing entry, through the entry's pointer. */
    method SetCategory(owner: string, category: string)
      requires Valid() && owner in entries
      modifies this
      ensures Valid() && events == old(events) && eventCount == old(eventCount)
      ensures entries == old(entries)[owner := old(entries)[owner].(category := category)]
    {
      entries := entries[owner := entries[owner].(category := category)];
    }

    /** The end-of-page callback's loop: copy entries out, in some order,
        until the counter reaches the cap or every entry has been copied. */
    method Flush()
      requires Valid()
      modifies this
      ensures Valid() && entries == old(entries)
      ensures |events| >= |old(events)| && events[..|old(events)|] == old(events)
      ensures |events| - |old(events)| ==
              if old(eventCount) >= limit then 0 else Min(limit - old(eventCount), |entries|)
      ensures DrawnFrom(events[|old(events)|..], entries)
    {
      var start := |events|;
      var remaining := entries.Keys;
      while remaining != {}
        invariant Valid() && entries == old(entries)
        invariant remaining <= entries.Keys
        invariant start <= |events| && events[..start] == old(events)
        invariant |events| - start + |remaining| == |entries|
        invariant old(eventCount) < limit ==> eventCount <= limit
        invariant old(eventCount) >= limit ==> events == old(events)
        invariant DrawnFrom(events[start..], entries)
        invariant forall i :: start <= i < |events| ==> events[i].title !in remaining
        decreases remaining
      {
        if eventCount >= limit {
          break;
        }
        var title :| title in remaining;
        events := events + [entries[title]];
        eventCount := eventCount + 1;
        remaining := remaining - {title};
      }
    }
  }
}
