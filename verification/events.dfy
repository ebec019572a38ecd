/**
  Event extraction (`extrair_eventos`) after the icalendar library has parsed
  and walked the feed: the walked components come in as data, and the
  result is one event dictionary per VEVENT, in walk order.
*/
module Events {
  import opened Wrappers
  import opened DateFormat

  /**
    One component yielded by `cal.walk()`. Text properties carry their
    `str()` rendering; date properties keep the raw property object. None
    means the component lacks the property.
  */
  datatype Component = Component(
    name: string,
    summary: Option<string>,
    description: Option<string>,
    dtstart: Option<CalValue>,
    dtend: Option<CalValue>,
    uid: Option<string>)

  /**
    An event dictionary. Each field is None when its key is absent from the
    dictionary, which the mapper's `dict.get` defaults can tell apart from a
    present key holding an empty or `None` value.
  */
  datatype Event = Event(
    summary: Option<string>,
    description: Option<string>,
    dtstart: Option<CalValue>,
    dtend: Option<CalValue>,
    uid: Option<string>)

  const VEventName: string := "VEVENT"
  const UntitledSummary: string := "Sem título"

  /** The dictionary built for one VEVENT; `component.get` on a missing date gives `None`. */
  function ToEvent(c: Component): (e: Event)
    ensures e.summary.Some? && e.description.Some? && e.uid.Some?
    ensures e.dtstart.Some? && e.dtend.Some?
    ensures c.summary.Some? ==> e.summary == c.summary
    ensures c.summary.None? ==> e.summary == Some(UntitledSummary)
    ensures c.description.Some? ==> e.description == c.description
    ensures c.description.None? ==> e.description == Some("")
    ensures c.uid.Some? ==> e.uid == c.uid
    ensures c.uid.None? ==> e.uid == Some("")
    ensures c.dtstart.Some? ==> e.dtstart == c.dtstart
    ensures c.dtstart.None? ==> e.dtstart == Some(Plain(NoneValue))
    ensures c.dtend.Some? ==> e.dtend == c.dtend
    ensures c.dtend.None? ==> e.dtend == Some(Plain(NoneValue))
  {
    Event(
      Some(c.summary.GetOr(UntitledSummary)),
      Some(c.description.GetOr("")),
      Some(c.dtstart.GetOr(Plain(NoneValue))),
      Some(c.dtend.GetOr(Plain(NoneValue))),
      Some(c.uid.GetOr("")))
  }

  /** The walk loop: keep VEVENT components, in order, as event dictionaries. */
  function VEvents(comps: seq<Component>): (r: seq<Event>)
    ensures |r| <= |comps|
    ensures forall i :: 0 <= i < |r| ==> r[i].summary.Some? && r[i].uid.Some?
  {
    if comps == [] then []
    else if comps[0].name == VEventName then [ToEvent(comps[0])] + VEvents(comps[1..])
    else VEvents(comps[1..])
  }

  /** `extrair_eventos`: a parse failure (None) yields no events. */
  function ExtractEvents(parsed: Option<seq<Component>>): (r: seq<Event>)
    ensures parsed.None? ==> r == []
    ensures parsed.Some? ==> |r| == multiset(Names(parsed.value))[VEventName]
    ensures forall i :: 0 <= i < |r| ==> r[i].summary.Some? && r[i].uid.Some?
  {
    match parsed
    case None => []
    case Some(comps) => VEventsCount(comps); VEvents(comps)
  }

  function Names(comps: seq<Component>): (ns: seq<string>)
    ensures |ns| == |comps|
    ensures forall i :: 0 <= i < |comps| ==> ns[i] == comps[i].name
  {
    seq(|comps|, i requires 0 <= i < |comps| => comps[i].name)
  }

  // -------------------------------------------------------------- properties

  /** Exactly one event per VEVENT component, whatever else the walk yields. */
  lemma {:induction false} VEventsCount(comps: seq<Component>)
    ensures |VEvents(comps)| == multiset(Names(comps))[VEventName]
  {
    if comps != [] {
      VEventsCount(comps[1..]);
      assert Names(comps) == [comps[0].name] + Names(comps[1..]);
    }
  }

  /** Extraction distributes over concatenation of walks: feed order is kept. */
  lemma {:induction false} VEventsAppend(a: seq<Component>, b: seq<Component>)
    ensures VEvents(a + b) == VEvents(a) + VEvents(b)
  {
    if a == [] {
      assert a + b == b;
    } else {
      assert (a + b)[1..] == a[1..] + b;
      VEventsAppend(a[1..], b);
    }
  }

  /** Every extracted event is the dictionary of some VEVENT of the walk. */
  lemma {:induction false} VEventsFromVEvents(comps: seq<Component>, i: int)
    requires 0 <= i < |VEvents(comps)|
    ensures exists j :: 0 <= j < |comps| && comps[j].name == VEventName
                       && VEvents(comps)[i] == ToEvent(comps[j])
  {
    if comps[0].name == VEventName {
      if i > 0 {
        VEventsFromVEvents(comps[1..], i - 1);
        var j :| 0 <= j < |comps[1..]| && comps[1..][j].name == VEventName
                 && VEvents(comps[1..])[i - 1] == ToEvent(comps[1..][j]);
        assert comps[j + 1] == comps[1..][j];
      }
    } else {
      VEventsFromVEvents(comps[1..], i);
      var j :| 0 <= j < |comps[1..]| && comps[1..][j].name == VEventName
               && VEvents(comps[1..])[i] == ToEvent(comps[1..][j]);
      assert comps[j + 1] == comps[1..][j];
    }
  }
}
