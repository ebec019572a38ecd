/**
  The run (`carregar_configuracoes` and `executar`): take the first
  configuration document, keep its Booking feeds, sync each feed that has a
  URL and an apartment id, in list order, and total the records created.
*/
module Orchestrator {
  import opened Wrappers
  import opened Events
  import opened Store
  import opened Sync

  /** One entry of `icalUrls`; a None field is a key the dictionary lacks. */
  datatype FeedEntry = FeedEntry(plataforma: Option<string>, url: Option<string>, apartamentoId: Option<string>)

  /** A configuration dictionary: its `icalUrls` list, if that key is present, and its other keys. */
  datatype ConfigDict = ConfigDict(icalUrls: Option<seq<FeedEntry>>, otherKeys: set<string>)

  /** A dictionary has each key once, so `icalUrls` is never among the other keys. */
  type ConfigDoc = c: ConfigDict | "icalUrls" !in c.otherKeys witness ConfigDict(None, {})

  /** The empty dictionary `{}`, which the run treats as "no configuration". */
  const EmptyConfig: ConfigDoc := ConfigDict(None, {})

  const Booking: string := "booking"

  /**
    `carregar_configuracoes`: the first document of the collection; `{}`
    when the collection is empty or the query fails (None).
  */
  function LoadConfig(docs: Option<seq<ConfigDoc>>): (c: ConfigDoc)
    ensures docs.Some? && docs.value != [] ==> c == docs.value[0]
    ensures docs.None? || docs.value == [] ==> c == EmptyConfig
  {
    match docs
    case None => EmptyConfig
    case Some(ds) => if ds == [] then EmptyConfig else ds[0]
  }

  /** Python truthiness of an optional string field: present and non-empty. */
  predicate Truthy(v: Option<string>) {
    v.Some? && v.value != ""
  }

  predicate IsBooking(e: FeedEntry) {
    e.plataforma == Some(Booking)
  }

  /** An entry the loop actually syncs. */
  predicate Eligible(e: FeedEntry) {
    IsBooking(e) && Truthy(e.url) && Truthy(e.apartamentoId)
  }

  /** The `urls_booking` comprehension: Booking entries, in list order. */
  function BookingEntries(entries: seq<FeedEntry>): (r: seq<FeedEntry>)
    ensures |r| <= |entries|
    ensures forall e :: e in r <==> e in entries && IsBooking(e)
  {
    if entries == [] then []
    else
      var rest := BookingEntries(entries[..|entries| - 1]);
      var last := entries[|entries| - 1];
      assert entries == entries[..|entries| - 1] + [last];
      if IsBooking(last) then rest + [last] else rest
  }

  /** The triples the given entries' feeds would be stored under. */
  function RunKeys(entries: seq<FeedEntry>, download: string -> Option<string>,
                   parse: string -> Option<seq<Component>>): set<Key> {
    if entries == [] then {}
    else
      var e := entries[|entries| - 1];
      RunKeys(entries[..|entries| - 1], download, parse)
      + (if Truthy(e.url) && Truthy(e.apartamentoId)
         then FeedKeys(download(e.url.value), parse, e.apartamentoId.value, Booking) else {})
  }

  /**
    The feed loop of `executar`: entries without a URL or an apartment id
    are skipped; each other entry is synced against the store left by the
    entries before it, and the counts are added. The total is the growth
    of the store.
  */
  function RunFeeds(entries: seq<FeedEntry>, download: string -> Option<string>,
                    parse: string -> Option<seq<Component>>, store: seq<Record>): (res: SyncResult)
    ensures store <= res.store
    ensures res.created == |res.store| - |store|
    ensures Keys(res.store) == Keys(store) + RunKeys(entries, download, parse)
  {
    if entries == [] then SyncResult(0, store)
    else
      var prev := RunFeeds(entries[..|entries| - 1], download, parse, store);
      var e := entries[|entries| - 1];
      if !Truthy(e.url) || !Truthy(e.apartamentoId) then prev
      else
        var one := SyncIcal(download(e.url.value), parse, e.apartamentoId.value, Booking, prev.store);
        SyncResult(prev.created + one.created, one.store)
  }

  datatype RunOutcome =
    | NoConfig                                    // no configuration: the run aborts
    | NoBookingFeeds                              // no Booking entry: nothing to do
    | Completed(total: nat, store: seq<Record>)   // the feeds ran

  /**
    Reference reading of the loop over the raw `icalUrls` list: front to
    back, each eligible entry contributes `sincronizar_ical(url,
    apartamentoId, 'booking')` against the store left by the entries
    before it; every other entry contributes nothing.
  */
  function SyncEachEligible(entries: seq<FeedEntry>, download: string -> Option<string>,
                            parse: string -> Option<seq<Component>>, store: seq<Record>): SyncResult
  {
    if entries == [] then SyncResult(0, store)
    else if Eligible(entries[0]) then
      var e := entries[0];
      var one := SyncIcal(download(e.url.value), parse, e.apartamentoId.value, Booking, store);
      var rest := SyncEachEligible(entries[1..], download, parse, one.store);
      SyncResult(one.created + rest.created, rest.store)
    else SyncEachEligible(entries[1..], download, parse, store)
  }

  /**
    `executar` with the configuration query, downloads and parser as inputs.
    It aborts exactly when the configuration is empty and stops exactly when
    no entry is for Booking; otherwise its total and store are those of
    syncing each eligible entry of `icalUrls` in list order, its total is
    the growth of the append-only store, and the stored triples gain exactly
    those of the Booking feeds.
  */
  function Run(docs: Option<seq<ConfigDoc>>, download: string -> Option<string>,
               parse: string -> Option<seq<Component>>, store: seq<Record>): (o: RunOutcome)
    ensures LoadConfig(docs) == EmptyConfig <==> o.NoConfig?
    ensures o.NoBookingFeeds? <==>
      LoadConfig(docs) != EmptyConfig
      && forall e :: e in LoadConfig(docs).icalUrls.GetOr([]) ==> !IsBooking(e)
    ensures o.Completed? ==>
      SyncResult(o.total, o.store) == SyncEachEligible(LoadConfig(docs).icalUrls.GetOr([]), download, parse, store)
    ensures o.Completed? ==> store <= o.store && o.total == |o.store| - |store|
    ensures o.Completed? ==>
      Keys(o.store) == Keys(store) + RunKeys(BookingEntries(LoadConfig(docs).icalUrls.GetOr([])), download, parse)
  {
    var config := LoadConfig(docs);
    if config == EmptyConfig then NoConfig
    else
      var raw := config.icalUrls.GetOr([]);
      var booking := BookingEntries(raw);
      if booking == [] then
        BookingEntriesEmptyIff(raw);
        NoBookingFeeds
      else
        var res := RunFeeds(booking, download, parse, store);
        RunFeedsIsEachEligible(raw, download, parse, store);
        BookingEntriesEmptyIff(raw);
        Completed(res.created, res.store)
  }

  /**
    The loop as `executar` writes it: sync each Booking entry in order and
    add its count to the running total.
  */
  method Executar(docs: Option<seq<ConfigDoc>>, download: string -> Option<string>,
                  parse: string -> Option<seq<Component>>, store: seq<Record>)
    returns (outcome: RunOutcome)
    ensures outcome == Run(docs, download, parse, store)
    ensures outcome.Completed? ==> store <= outcome.store && outcome.total == |outcome.store| - |store|
  {
    var config := LoadConfig(docs);
    if config == EmptyConfig {
      return NoConfig;
    }
    var urlsBooking := BookingEntries(config.icalUrls.GetOr([]));
    if urlsBooking == [] {
      return NoBookingFeeds;
    }
    var total, current := SyncEntries(urlsBooking, download, parse, store);
    return Completed(total, current);
  }

  /** The `for ical_config in urls_booking` loop, with its running total. */
  method SyncEntries(urlsBooking: seq<FeedEntry>, download: string -> Option<string>,
                     parse: string -> Option<seq<Component>>, store: seq<Record>)
    returns (total: nat, current: seq<Record>)
    ensures SyncResult(total, current) == RunFeeds(urlsBooking, download, parse, store)
  {
    total := 0;
    current := store;
    var i := 0;
    assert urlsBooking[..0] == [];
    while i < |urlsBooking|
      invariant 0 <= i <= |urlsBooking|
      invariant RunFeeds(urlsBooking[..i], download, parse, store) == SyncResult(total, current)
    {
      var entry := urlsBooking[i];
      RunFeedsSnoc(urlsBooking[..i], entry, download, parse, store);
      assert urlsBooking[..i + 1] == urlsBooking[..i] + [entry];
      ghost var next := RunFeeds(urlsBooking[..i + 1], download, parse, store);
      if Truthy(entry.url) && Truthy(entry.apartamentoId) {
        var criadas, after := SincronizarIcal(download(entry.url.value), parse,
                                              entry.apartamentoId.value, Booking, current);
        assert next == SyncResult(total + criadas, after);
        total, current := total + criadas, after;
      } else {
        assert next == SyncResult(total, current);
      }
      assert next == SyncResult(total, current);
      i := i + 1;
    }
    assert urlsBooking[..i] == urlsBooking;
  }

  /** One more entry at the end of the list: the unfolding the loop steps through. */
  lemma RunFeedsSnoc(entries: seq<FeedEntry>, e: FeedEntry, download: string -> Option<string>,
                     parse: string -> Option<seq<Component>>, store: seq<Record>)
    ensures var prev := RunFeeds(entries, download, parse, store);
      RunFeeds(entries + [e], download, parse, store) ==
        if Truthy(e.url) && Truthy(e.apartamentoId) then
          var one := SyncIcal(download(e.url.value), parse, e.apartamentoId.value, Booking, prev.store);
          SyncResult(prev.created + one.created, one.store)
        else prev
  {
    assert (entries + [e])[..|entries|] == entries;
  }

  // -------------------------------------------------------------- properties

  /** Totals add up in list order: running two lists back to back is running their concatenation. */
  lemma {:induction false} RunFeedsAppend(a: seq<FeedEntry>, b: seq<FeedEntry>, download: string -> Option<string>,
                                          parse: string -> Option<seq<Component>>, store: seq<Record>)
    ensures var ra := RunFeeds(a, download, parse, store);
      var rb := RunFeeds(b, download, parse, ra.store);
      RunFeeds(a + b, download, parse, store) == SyncResult(ra.created + rb.created, rb.store)
  {
    if b == [] {
      assert a + b == a;
    } else {
      var n := |b| - 1;
      assert (a + b)[..|a + b| - 1] == a + b[..n];
      assert (a + b)[|a + b| - 1] == b[n];
      RunFeedsAppend(a, b[..n], download, parse, store);
    }
  }

  /** One entry contributes exactly its feed's `sincronizar_ical` count, or nothing when skipped. */
  lemma RunFeedsSingle(e: FeedEntry, download: string -> Option<string>,
                       parse: string -> Option<seq<Component>>, store: seq<Record>)
    ensures RunFeeds([e], download, parse, store) ==
      if Truthy(e.url) && Truthy(e.apartamentoId)
      then SyncIcal(download(e.url.value), parse, e.apartamentoId.value, Booking, store)
      else SyncResult(0, store)
  {
    assert [e][..0] == [];
  }

  /** Only the first configuration document matters. */
  lemma OnlyFirstDocument(docs: seq<ConfigDoc>, download: string -> Option<string>,
                          parse: string -> Option<seq<Component>>, store: seq<Record>)
    requires docs != []
    ensures Run(Some(docs), download, parse, store) == Run(Some([docs[0]]), download, parse, store)
  {
  }

  /** No Booking entry survives the comprehension exactly when the list has none. */
  lemma BookingEntriesEmptyIff(entries: seq<FeedEntry>)
    ensures BookingEntries(entries) == [] <==> forall e :: e in entries ==> !IsBooking(e)
  {
    var r := BookingEntries(entries);
    if r != [] {
      assert r[0] in r;
    }
  }

  /** The comprehension keeps one entry exactly when it is for Booking. */
  lemma BookingEntriesSingle(e: FeedEntry)
    ensures BookingEntries([e]) == if IsBooking(e) then [e] else []
  {
    assert [e][..0] == [];
  }

  /** The comprehension distributes over concatenation: list order and repeats are kept. */
  lemma {:induction false} BookingEntriesAppend(a: seq<FeedEntry>, b: seq<FeedEntry>)
    ensures BookingEntries(a + b) == BookingEntries(a) + BookingEntries(b)
  {
    if b == [] {
      assert a + b == a;
    } else {
      var n := |b| - 1;
      assert (a + b)[..|a + b| - 1] == a + b[..n];
      assert (a + b)[|a + b| - 1] == b[n];
      BookingEntriesAppend(a, b[..n]);
    }
  }

  /** An entry for another platform, wherever it stands in the list, never reaches the loop. */
  lemma NonBookingIgnored(a: seq<FeedEntry>, e: FeedEntry, b: seq<FeedEntry>)
    requires !IsBooking(e)
    ensures BookingEntries(a + [e] + b) == BookingEntries(a + b)
  {
    BookingEntriesAppend(a + [e], b);
    BookingEntriesAppend(a, [e]);
    BookingEntriesAppend(a, b);
    BookingEntriesSingle(e);
  }

  /**
    The feed loop over the Booking entries is the front-to-back sync of
    every eligible entry of the raw list.
  */
  lemma {:induction false} RunFeedsIsEachEligible(raw: seq<FeedEntry>, download: string -> Option<string>,
                                                  parse: string -> Option<seq<Component>>, store: seq<Record>)
    ensures RunFeeds(BookingEntries(raw), download, parse, store) == SyncEachEligible(raw, download, parse, store)
  {
    if raw != [] {
      var x := raw[0];
      assert raw == [x] + raw[1..];
      BookingEntriesAppend([x], raw[1..]);
      BookingEntriesSingle(x);
      var head := BookingEntries([x]);
      RunFeedsAppend(head, BookingEntries(raw[1..]), download, parse, store);
      var rh := RunFeeds(head, download, parse, store);
      if IsBooking(x) {
        RunFeedsSingle(x, download, parse, store);
      } else {
        assert rh == SyncResult(0, store);
      }
      RunFeedsIsEachEligible(raw[1..], download, parse, rh.store);
    }
  }

  /** A run that starts from a store without duplicate triples leaves none. */
  lemma {:induction false} RunFeedsKeepsUnique(entries: seq<FeedEntry>, download: string -> Option<string>,
                                               parse: string -> Option<seq<Component>>, store: seq<Record>)
    requires UniqueKeys(store)
    ensures UniqueKeys(RunFeeds(entries, download, parse, store).store)
  {
    if entries != [] {
      var n := |entries| - 1;
      RunFeedsKeepsUnique(entries[..n], download, parse, store);
      var prev := RunFeeds(entries[..n], download, parse, store);
      var e := entries[n];
      if Truthy(e.url) && Truthy(e.apartamentoId) {
        var content := download(e.url.value);
        if content.Some? && content.value != "" {
          var events := ExtractEvents(parse(content.value));
          if events != [] {
            SyncEventsKeepsUnique(prev.store, events, e.apartamentoId.value, Booking);
          }
        }
      }
    }
  }

  /** With every feed's triples already stored, the loop creates nothing. */
  lemma {:induction false} RunFeedsIdle(entries: seq<FeedEntry>, download: string -> Option<string>,
                                        parse: string -> Option<seq<Component>>, store: seq<Record>)
    ensures RunKeys(entries, download, parse) <= Keys(store) ==>
      RunFeeds(entries, download, parse, store) == SyncResult(0, store)
  {
    if entries != [] {
      var n := |entries| - 1;
      RunFeedsIdle(entries[..n], download, parse, store);
      var e := entries[n];
      if Truthy(e.url) && Truthy(e.apartamentoId) {
        SyncIcalIdle(download(e.url.value), parse, e.apartamentoId.value, Booking, store);
      }
    }
  }

  /**
    Re-running with the same configuration, feeds and resulting store
    creates nothing: the scheduler may fire the job any number of times.
  */
  lemma RunIdempotent(docs: Option<seq<ConfigDoc>>, download: string -> Option<string>,
                      parse: string -> Option<seq<Component>>, store: seq<Record>)
    ensures var first := Run(docs, download, parse, store);
      first.Completed? ==> Run(docs, download, parse, first.store) == Completed(0, first.store)
  {
    var booking := BookingEntries(LoadConfig(docs).icalUrls.GetOr([]));
    var s := RunFeeds(booking, download, parse, store).store;
    RunFeedsIdle(booking, download, parse, s);
  }

  /** A run keeps at most one record per triple in a store that had that property. */
  lemma RunKeepsUnique(docs: Option<seq<ConfigDoc>>, download: string -> Option<string>,
                       parse: string -> Option<seq<Component>>, store: seq<Record>)
    requires UniqueKeys(store)
    ensures var o := Run(docs, download, parse, store);
      o.Completed? ==> UniqueKeys(o.store)
  {
    var booking := BookingEntries(LoadConfig(docs).icalUrls.GetOr([]));
    RunFeedsKeepsUnique(booking, download, parse, store);
  }
}
