/**
  One feed's synchronisation (`sincronizar_ical`): download, extract, and
  for each event map it, skip it when its triple is already stored, and
  otherwise append a pending pre-reservation and count it.
*/
module Sync {
  import opened Wrappers
  import opened DateFormat
  import opened Events
  import opened Mapping
  import opened Store

  /** The triple an event would be stored under, if it maps to a draft. */
  function DraftKey(e: Event, apartamentoId: string, origem: string): set<Key> {
    match MapEvent(e)
    case None => {}
    case Some(d) => {Key(apartamentoId, d.codigoReserva, origem)}
  }

  /** All triples the events would be stored under. */
  function DraftKeys(events: seq<Event>, apartamentoId: string, origem: string): set<Key> {
    if events == [] then {}
    else DraftKeys(events[..|events| - 1], apartamentoId, origem)
         + DraftKey(events[|events| - 1], apartamentoId, origem)
  }

  /**
    One loop iteration. The store grows by one record exactly when the event
    maps to a draft whose triple is not stored yet, and that record is the
    draft's pre-reservation; otherwise the store is unchanged.
  */
  function Step(store: seq<Record>, e: Event, apartamentoId: string, origem: string): (r: seq<Record>)
    ensures store <= r
    ensures |r| == |store| || |r| == |store| + 1
    ensures |r| == |store| + 1 <==>
      MapEvent(e).Some? && Key(apartamentoId, MapEvent(e).value.codigoReserva, origem) !in Keys(store)
    ensures |r| == |store| + 1 ==> r[|store|] == NewRecord(MapEvent(e).value, apartamentoId, origem)
    ensures Keys(r) == Keys(store) + DraftKey(e, apartamentoId, origem)
  {
    match MapEvent(e)
    case None => store
    case Some(d) =>
      if ReservationExists(store, apartamentoId, d.codigoReserva, origem) then store
      else CreatePreReservation(store, d, apartamentoId, origem)
  }

  /** The loop over all events, each checked against the store as updated so far. */
  function SyncEvents(store: seq<Record>, events: seq<Event>, apartamentoId: string, origem: string): (r: seq<Record>)
    ensures store <= r
    ensures |r| - |store| <= |events|
    ensures Keys(r) == Keys(store) + DraftKeys(events, apartamentoId, origem)
  {
    if events == [] then store
    else Step(SyncEvents(store, events[..|events| - 1], apartamentoId, origem),
              events[|events| - 1], apartamentoId, origem)
  }

  datatype SyncResult = SyncResult(created: nat, store: seq<Record>)

  /** The triples a feed's events would be stored under; none for a failed or empty download. */
  function FeedKeys(content: Option<string>, parse: string -> Option<seq<Component>>,
                    apartamentoId: string, origem: string): set<Key> {
    if content.None? || content.value == "" then {}
    else DraftKeys(ExtractEvents(parse(content.value)), apartamentoId, origem)
  }

  /**
    `sincronizar_ical` with the download result and the parser as inputs.
    A failed or empty download, or a feed without events, creates nothing.
  */
  function SyncIcal(content: Option<string>, parse: string -> Option<seq<Component>>,
                    apartamentoId: string, origem: string, store: seq<Record>): (res: SyncResult)
    ensures store <= res.store
    ensures res.created == |res.store| - |store|
    ensures content.None? || content == Some("") ==> res == SyncResult(0, store)
    ensures content.Some? && content.value != "" ==>
      res.created <= |ExtractEvents(parse(content.value))|
    ensures Keys(res.store) == Keys(store) + FeedKeys(content, parse, apartamentoId, origem)
  {
    if content.None? || content.value == "" then SyncResult(0, store)
    else
      var events := ExtractEvents(parse(content.value));
      if events == [] then SyncResult(0, store)
      else
        var s := SyncEvents(store, events, apartamentoId, origem);
        SyncResult(|s| - |store|, s)
  }

  /**
    The routine as `sincronizar_ical` writes it. The count equals the growth
    of the store, which only appends pending records for this apartment
    and origin and never introduces a second record for a triple.
  */
  method SincronizarIcal(content: Option<string>, parse: string -> Option<seq<Component>>,
                         apartamentoId: string, origem: string, store: seq<Record>)
    returns (criadas: nat, result: seq<Record>)
    ensures SyncResult(criadas, result) == SyncIcal(content, parse, apartamentoId, origem, store)
    ensures store <= result && criadas == |result| - |store|
    ensures forall j :: |store| <= j < |result| ==>
      && result[j].status == PendingValidation
      && result[j].apartamentoId == apartamentoId
      && result[j].origem == origem
    ensures FreshAppends(store, result)
  {
    if content.None? || content.value == "" {
      return 0, store;
    }
    var eventos := ExtractEvents(parse(content.value));
    if eventos == [] {
      return 0, store;
    }
    criadas, result := ProcessEvents(eventos, apartamentoId, origem, store);
    SyncEventsShape(store, eventos, apartamentoId, origem);
    SyncEventsNoNewDuplicates(store, eventos, apartamentoId, origem);
  }

  /** The event loop of `sincronizar_ical`: a counter incremented on every write. */
  method ProcessEvents(eventos: seq<Event>, apartamentoId: string, origem: string, store: seq<Record>)
    returns (criadas: nat, result: seq<Record>)
    ensures result == SyncEvents(store, eventos, apartamentoId, origem)
    ensures criadas == |result| - |store| <= |eventos|
  {
    result := store;
    criadas := 0;
    var i := 0;
    while i < |eventos|
      invariant 0 <= i <= |eventos|
      invariant result == SyncEvents(store, eventos[..i], apartamentoId, origem)
      invariant criadas == |result| - |store|
    {
      assert eventos[..i + 1][..i] == eventos[..i];
      var criada;
      criada, result := HandleEvent(eventos[i], apartamentoId, origem, result);
      if criada {
        criadas := criadas + 1;
      }
      i := i + 1;
    }
    assert eventos[..i] == eventos;
  }

  /**
    One pass of the loop body: map the event, skip it when it has no draft
    or its triple is stored, otherwise write it and report the write.
  */
  method HandleEvent(evento: Event, apartamentoId: string, origem: string, store: seq<Record>)
    returns (criada: bool, result: seq<Record>)
    ensures result == Step(store, evento, apartamentoId, origem)
    ensures criada <==> |result| == |store| + 1
    ensures !criada ==> result == store
  {
    var dados := MapEvent(evento);
    if dados.None? {
      return false, store;
    }
    if ReservationExists(store, apartamentoId, dados.value.codigoReserva, origem) {
      return false, store;
    }
    result := CreatePreReservation(store, dados.value, apartamentoId, origem);
    criada := true;
  }

  // -------------------------------------------------------------- properties

  /** Whether `rec` is the pre-reservation of one of the events' drafts. */
  ghost predicate AppendedFrom(rec: Record, events: seq<Event>, apartamentoId: string, origem: string) {
    exists i :: 0 <= i < |events| && MapEvent(events[i]).Some?
                && rec == NewRecord(MapEvent(events[i]).value, apartamentoId, origem)
  }

  /** The last event either leaves the store as it was or appends its draft's record. */
  lemma {:induction false} SyncEventsLast(store: seq<Record>, events: seq<Event>, apartamentoId: string, origem: string)
    requires events != []
    ensures var n := |events| - 1;
      var prev := SyncEvents(store, events[..n], apartamentoId, origem);
      var r := SyncEvents(store, events, apartamentoId, origem);
      || r == prev
      || (&& MapEvent(events[n]).Some?
          && r == prev + [NewRecord(MapEvent(events[n]).value, apartamentoId, origem)]
          && KeyOf(r[|prev|]) !in Keys(prev))
  {
    var n := |events| - 1;
    var prev := SyncEvents(store, events[..n], apartamentoId, origem);
    var r := Step(prev, events[n], apartamentoId, origem);
    if |r| != |prev| {
      assert r == r[..|prev|] + [r[|prev|]];
    }
  }

  /** Every appended record is the pending pre-reservation of some event's draft. */
  lemma {:induction false} SyncEventsShape(store: seq<Record>, events: seq<Event>, apartamentoId: string, origem: string)
    ensures var r := SyncEvents(store, events, apartamentoId, origem);
      forall j :: |store| <= j < |r| ==>
        && AppendedFrom(r[j], events, apartamentoId, origem)
        && r[j].status == PendingValidation
        && r[j].apartamentoId == apartamentoId && r[j].origem == origem
  {
    if events != [] {
      var n := |events| - 1;
      var prev := SyncEvents(store, events[..n], apartamentoId, origem);
      var r := SyncEvents(store, events, apartamentoId, origem);
      SyncEventsShape(store, events[..n], apartamentoId, origem);
      SyncEventsLast(store, events, apartamentoId, origem);
      forall j | |store| <= j < |r|
        ensures AppendedFrom(r[j], events, apartamentoId, origem)
      {
        if j < |prev| {
          assert r[j] == prev[j];
          assert AppendedFrom(prev[j], events[..n], apartamentoId, origem);
          var i :| 0 <= i < n && MapEvent(events[..n][i]).Some?
                   && prev[j] == NewRecord(MapEvent(events[..n][i]).value, apartamentoId, origem);
          assert events[..n][i] == events[i];
        } else {
          assert r[j] == NewRecord(MapEvent(events[n]).value, apartamentoId, origem);
        }
      }
    }
  }

  /** Past the prefix `store`, no record of `r` repeats the triple of a record before it. */
  ghost predicate FreshAppends(store: seq<Record>, r: seq<Record>) {
    forall j :: |store| <= j < |r| ==> KeyOf(r[j]) !in Keys(r[..j])
  }

  /** No appended record repeats the triple of any record before it. */
  lemma {:induction false} SyncEventsNoNewDuplicates(store: seq<Record>, events: seq<Event>, apartamentoId: string, origem: string)
    ensures FreshAppends(store, SyncEvents(store, events, apartamentoId, origem))
  {
    if events != [] {
      var n := |events| - 1;
      var prev := SyncEvents(store, events[..n], apartamentoId, origem);
      var r := SyncEvents(store, events, apartamentoId, origem);
      SyncEventsNoNewDuplicates(store, events[..n], apartamentoId, origem);
      SyncEventsLast(store, events, apartamentoId, origem);
      forall j | |store| <= j < |r|
        ensures KeyOf(r[j]) !in Keys(r[..j])
      {
        if j < |prev| {
          assert r[j] == prev[j];
          assert r[..j] == prev[..j];
        } else {
          assert r[..j] == prev;
        }
      }
    }
  }

  /** A store that held each triple at most once still does after a sync. */
  lemma {:induction false} SyncEventsKeepsUnique(store: seq<Record>, events: seq<Event>, apartamentoId: string, origem: string)
    requires UniqueKeys(store)
    ensures UniqueKeys(SyncEvents(store, events, apartamentoId, origem))
  {
    var r := SyncEvents(store, events, apartamentoId, origem);
    SyncEventsNoNewDuplicates(store, events, apartamentoId, origem);
    forall i, j | 0 <= i < j < |r|
      ensures KeyOf(r[i]) != KeyOf(r[j])
    {
      if j < |store| {
        assert r[i] == store[i] && r[j] == store[j];
      } else {
        assert r[i] in r[..j];
      }
    }
  }

  /** With every triple already stored, a sync changes nothing. */
  lemma {:induction false} SyncEventsIdle(store: seq<Record>, events: seq<Event>, apartamentoId: string, origem: string)
    ensures DraftKeys(events, apartamentoId, origem) <= Keys(store) ==>
      SyncEvents(store, events, apartamentoId, origem) == store
  {
    if events != [] {
      SyncEventsIdle(store, events[..|events| - 1], apartamentoId, origem);
    }
  }

  /** Running the same events again appends nothing. */
  lemma {:induction false} SyncEventsIdempotent(store: seq<Record>, events: seq<Event>, apartamentoId: string, origem: string)
    ensures var r := SyncEvents(store, events, apartamentoId, origem);
      SyncEvents(r, events, apartamentoId, origem) == r
  {
    var r := SyncEvents(store, events, apartamentoId, origem);
    SyncEventsIdle(r, events, apartamentoId, origem);
  }

  /** A sequence without repeated triples has as many records as triples. */
  lemma {:induction false} DistinctKeysCount(s: seq<Record>)
    requires forall j :: 0 <= j < |s| ==> KeyOf(s[j]) !in Keys(s[..j])
    ensures |Keys(s)| == |s|
  {
    if s != [] {
      var n := |s| - 1;
      assert s == s[..n] + [s[n]];
      forall j | 0 <= j < n ensures KeyOf(s[..n][j]) !in Keys(s[..n][..j]) {
        assert s[..n][..j] == s[..j];
      }
      DistinctKeysCount(s[..n]);
      KeysSnoc(s[..n], s[n]);
    }
  }

  /** What "no appended record repeats an earlier triple" says about the appended part alone. */
  lemma {:induction false} FreshSuffix(store: seq<Record>, r: seq<Record>)
    requires store <= r
    requires FreshAppends(store, r)
    ensures forall j :: 0 <= j < |r| - |store| ==> KeyOf(r[|store|..][j]) !in Keys(r[|store|..][..j])
    ensures Keys(r[|store|..]) !! Keys(store)
  {
    var added := r[|store|..];
    forall j | 0 <= j < |added| ensures KeyOf(added[j]) !in Keys(added[..j]) {
      assert added[j] == r[|store| + j];
      assert r[..|store| + j] == store + added[..j];
      KeysConcat(store, added[..j]);
    }
    forall k | k in Keys(added) ensures k !in Keys(store) {
      var x :| x in added && KeyOf(x) == k;
      var j :| 0 <= j < |added| && added[j] == x;
      assert x == r[|store| + j];
      assert r[..|store| + j] == store + added[..j];
      KeysConcat(store, added[..j]);
    }
  }

  /**
    The number of records a sync creates is the number of distinct triples
    among the events' drafts that the store did not hold before.
  */
  lemma {:induction false} SyncEventsCount(store: seq<Record>, events: seq<Event>, apartamentoId: string, origem: string)
    ensures |SyncEvents(store, events, apartamentoId, origem)| - |store|
         == |DraftKeys(events, apartamentoId, origem) - Keys(store)|
  {
    var r := SyncEvents(store, events, apartamentoId, origem);
    SyncEventsNoNewDuplicates(store, events, apartamentoId, origem);
    GrowthCount(store, r, DraftKeys(events, apartamentoId, origem));
  }

  lemma {:induction false} GrowthCount(store: seq<Record>, r: seq<Record>, all: set<Key>)
    requires store <= r
    requires Keys(r) == Keys(store) + all
    requires FreshAppends(store, r)
    ensures |r| - |store| == |all - Keys(store)|
  {
    var added := r[|store|..];
    assert r == store + added;
    FreshSuffix(store, r);
    DistinctKeysCount(added);
    KeysConcat(store, added);
    DisjointPart(Keys(added), Keys(store), all);
  }

  lemma {:induction false} DisjointPart(added: set<Key>, old_: set<Key>, all: set<Key>)
    requires old_ + added == old_ + all
    requires added !! old_
    ensures added == all - old_
  {
  }

  lemma {:induction false} KeysConcat(a: seq<Record>, b: seq<Record>)
    ensures Keys(a + b) == Keys(a) + Keys(b)
  {
    var s := a + b;
    forall k | k in Keys(s) ensures k in Keys(a) + Keys(b) {
      var x :| x in s && KeyOf(x) == k;
      if x in a {} else { assert x in b; }
    }
    forall k | k in Keys(a) + Keys(b) ensures k in Keys(s) {
      if k in Keys(a) {
        var x :| x in a && KeyOf(x) == k;
        assert x in s;
      } else {
        var x :| x in b && KeyOf(x) == k;
        assert x in s;
      }
    }
  }

  /** A feed whose triples are all stored already creates nothing. */
  lemma {:induction false} SyncIcalIdle(content: Option<string>, parse: string -> Option<seq<Component>>,
                                        apartamentoId: string, origem: string, store: seq<Record>)
    ensures FeedKeys(content, parse, apartamentoId, origem) <= Keys(store) ==>
      SyncIcal(content, parse, apartamentoId, origem, store) == SyncResult(0, store)
  {
    if content.Some? && content.value != "" {
      SyncEventsIdle(store, ExtractEvents(parse(content.value)), apartamentoId, origem);
    }
  }

  /** A whole-feed re-run with the same download appends nothing and returns 0. */
  lemma {:induction false} SyncIcalIdempotent(content: Option<string>, parse: string -> Option<seq<Component>>,
                                              apartamentoId: string, origem: string, store: seq<Record>)
    ensures var first := SyncIcal(content, parse, apartamentoId, origem, store);
      SyncIcal(content, parse, apartamentoId, origem, first.store) == SyncResult(0, first.store)
  {
    var first := SyncIcal(content, parse, apartamentoId, origem, store);
    SyncIcalIdle(content, parse, apartamentoId, origem, first.store);
  }

  /**
    A feed with one booking (UID abc-123, 1 to 5 March 2024, guest Jane Doe)
    synced for apartment P1 into an empty store creates exactly that
    pending pre-reservation.
  */
  lemma ExampleFeed(content: string)
    requires content != ""
    ensures var comp := Component("VEVENT", Some("Jane Doe"), None,
                                  Some(Property(Day(Date(2024, 3, 1)))),
                                  Some(Property(Day(Date(2024, 3, 5)))), Some("abc-123"));
      SyncIcal(Some(content), _ => Some([comp]), "P1", "booking", [])
      == SyncResult(1, [Record("Jane Doe", "2024-03-01", "2024-03-05", "P1", "booking",
                               "abc-123", PendingValidation, ServerTimestamp)])
  {
    var comp := Component("VEVENT", Some("Jane Doe"), None,
                          Some(Property(Day(Date(2024, 3, 1)))),
                          Some(Property(Day(Date(2024, 3, 5)))), Some("abc-123"));
    var events := ExtractEvents(Some([comp]));
    assert events == [ToEvent(comp)];
    ExampleIsoDates();
    var d := Draft("Jane Doe", "2024-03-01", "2024-03-05", "abc-123");
    assert MapEvent(events[0]) == Some(d);
    assert events[..0] == [];
    assert SyncEvents([], events, "P1", "booking") == Step([], events[0], "P1", "booking");
    assert Step([], events[0], "P1", "booking") == [NewRecord(d, "P1", "booking")];
  }
}
