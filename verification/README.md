# Booking.com iCal pre-reservation sync — a Dafny model

This project models the synchronisation core of `robo_ical_booking.py`, a batch
job that reads Booking.com iCalendar feeds and writes "pre-reservations"
(`pre_reservas` documents with status `pendente_validacao`) into a document
store, skipping bookings it has already stored. The model covers five parts of
the job in six modules:

- `DateFormat` is `formatar_data`. It turns a calendar value into a `YYYY-MM-DD`
  string by one of three routes: the text of a string up to its first `T`; a
  date or datetime rendered from year, month and day; or the first 10
  characters of `str()` for anything else.
- `Events` is the part of `extrair_eventos` that runs after parsing. It keeps
  the `VEVENT` components of the walk, in order, as event dictionaries, filling
  in `'Sem título'` and `''` defaults.
- `Mapping` is `extrair_dados_evento`. It builds the four-field draft (`nome`,
  `dataCheckin`, `dataCheckout`, `codigoReserva`), or nothing when a formatted
  date is empty.
- `Store` is `verificar_reserva_existente` and `criar_pre_reserva`. The
  collection is an append-only `seq<Record>`, and duplicates are judged by the
  triple (`apartamentoId`, `codigoReservaOrigem`, `origem`).
- `Sync` and `Orchestrator` are `sincronizar_ical` and `carregar_configuracoes` +
  `executar`. Each is written twice: as a pure fold, and as a method with the
  counting loop the program uses, with the two proved equal.

`Wrappers` holds the `Option` type. It models both Python's `None` and a
dictionary key that is absent, so `d.get(k, default)` is `GetOr(default)`.

The model takes the outside world as inputs. The download is an
`Option<string>`, or a function from URL to `Option<string>` for a whole run.
The iCalendar parser is a function from text to `Option<seq<Component>>`, where
None means the parse failed. The configuration query is an
`Option<seq<ConfigDoc>>`. The store is a `seq<Record>`.

Behaviour of the code worth noting:

- A VEVENT without DTSTART or DTEND is **not** dropped. `component.get`
  returns `None`, and `formatar_data(None)` is `"None"`, which is not empty.
  See `Mapping.MissingDateIsKept`.
- The placeholder guest name is used only when the `summary` key is absent,
  not when it is empty. The `uid` is used whenever its key is present, even
  when it is empty. Events from the parser always carry both keys, so neither
  fallback ever fires for them.
- One failure anywhere while extracting yields no events at all. There is no
  per-event skipping.
- The write strategy is append-if-new, with a read check before each write.
  No night count and no deterministic document key are computed.

## Model

| member | source | states |
|---|---|---|
| DateFormat.BeforeT | robo_ical_booking.py:147-148 | `split('T')[0]` is the longest prefix free of 'T': it ends at the first 'T' or at the end of the string |
| DateFormat.FormatDate | robo_ical_booking.py:141-156 | after unwrapping `.dt`: a string gives its text before the first 'T'; a date or datetime gives 10 characters that read back as that calendar date; `None` gives "None"; another value gives the first min(10, length) characters of its rendering; a failure gives "" |
| DateFormat.IsoDateRoundTrip | robo_ical_booking.py:150-151 | for every valid date, `strftime('%Y-%m-%d')` is 10 characters long and parses back to the same year, month and day |
| DateFormat.IsoDateInjective | robo_ical_booking.py:150-151 | two dates format to the same text if and only if they are the same date |
| DateFormat.MomentFormatsAsItsDay | robo_ical_booking.py:144-151 | a datetime, wrapped in a property or bare, formats exactly like its date: time of day and zone are discarded |
| DateFormat.TextDropsTimePart | robo_ical_booking.py:147-148 | for any date text without 'T', "date" + "T" + anything and the bare date both normalise to the date text |
| DateFormat.ExampleDateTimeString | robo_ical_booking.py:147-148 | "2024-03-10T14:00:00Z" and "2024-03-10" both normalise to "2024-03-10" |
| DateFormat.ExampleIsoDates | robo_ical_booking.py:150-151 | the dates 2024-03-01 and 2024-03-05 render zero-padded as "2024-03-01" and "2024-03-05" |
| DateFormat.FormatDateEmptyIff | robo_ical_booking.py:144-156 | the result is empty exactly for an empty string, a string starting with 'T', an empty rendering, or a formatting failure; a missing value (`None`) never gives "" |
| Events.ToEvent | robo_ical_booking.py:126-132 | the event dictionary always has all five keys; each property the component has is copied as it is; a missing SUMMARY becomes 'Sem título', a missing DESCRIPTION or UID becomes '', a missing DTSTART or DTEND becomes `None` |
| Events.VEvents | robo_ical_booking.py:124-133 | the walk loop yields at most one event per component, and every event has `summary` and `uid` |
| Events.ExtractEvents | robo_ical_booking.py:118-139 | a failed parse yields no events; otherwise there are exactly as many events as there are components named VEVENT |
| Events.VEventsCount | robo_ical_booking.py:124-133 | the number of extracted events equals the number of VEVENT names among the walked components |
| Events.VEventsAppend | robo_ical_booking.py:124-133 | extraction of a walk split in two is the concatenation of the two extractions, so walk order is preserved |
| Events.VEventsFromVEvents | robo_ical_booking.py:124-133 | every extracted event is the dictionary of some component named VEVENT |
| Mapping.MapEvent | robo_ical_booking.py:158-175 | no draft exactly when the check-in or check-out text is empty; otherwise the draft carries both texts; the name is the summary if that key is present, else 'Hóspede Importado'; the code is the uid if that key is present, even when it is empty, else name + "-" + check-in |
| Mapping.MapEventNoneIff | robo_ical_booking.py:162-168 | an event is dropped exactly when one of its raw date values is an empty or 'T'-leading string, an empty rendering, or unformattable |
| Mapping.DatesReadBack | robo_ical_booking.py:162-175 | an event whose DTSTART and DTEND are dates maps to a draft whose two date texts parse back to those dates |
| Mapping.MissingDateIsKept | robo_ical_booking.py:158-168 | a VEVENT lacking DTSTART, with a usable DTEND, still maps to a draft, and its check-in text is "None" |
| Mapping.ExtractedEventsSkipFallbacks | robo_ical_booking.py:161-164 | for an event from the parser, the name is the SUMMARY or 'Sem título' and the code is the UID or ''; the placeholder name and the synthesized code are never used |
| Store.ReservationExists | robo_ical_booking.py:180-199 | the check is true if and only if some stored record has the same apartment, code and origin |
| Store.CreatePreReservation | robo_ical_booking.py:201-217 | the write appends one record and leaves every earlier record as it was; the new record is pending, carries the call's apartment and origin and the draft's name, dates and code, and adds exactly its triple to the stored triples |
| Store.ExistsMonotone | robo_ical_booking.py:183-191 | once a triple is found it stays found, whatever is appended later |
| Store.CheckedCreateKeepsUnique | robo_ical_booking.py:245-250 | writing only after a negative check keeps at most one record per triple |
| Sync.Step | robo_ical_booking.py:239-250 | one iteration grows the store by one record exactly when the event maps to a draft whose triple is not stored yet, and that record is the draft's pre-reservation; otherwise the store is unchanged |
| Sync.SyncEvents | robo_ical_booking.py:237-251 | the loop only appends, at most one record per event, and afterwards the stored triples are the earlier ones plus the triples of all the events' drafts |
| Sync.SyncIcal | robo_ical_booking.py:222-253 | the returned count is the growth of the append-only store and at most the number of events; a failed or empty download returns 0 and leaves the store unchanged |
| Sync.SincronizarIcal | robo_ical_booking.py:222-253 | the method shaped like `sincronizar_ical` computes the same count and store as the fold; every appended record is pending for this apartment and origin, and none repeats the triple of any record before it |
| Sync.HandleEvent | robo_ical_booking.py:240-250 | one pass of the loop body performs exactly one fold step, and reports a write exactly when the store grew by one record |
| Sync.ProcessEvents | robo_ical_booking.py:238-251 | the counter incremented on each write ends equal to the number of records appended, which is at most the number of events |
| Sync.SyncEventsShape | robo_ical_booking.py:204-212 | every appended record is the pending pre-reservation, for this apartment and origin, of the draft of one of the events |
| Sync.SyncEventsNoNewDuplicates | robo_ical_booking.py:245-250 | because each check sees the store as updated earlier in the same loop, no appended record repeats an earlier triple |
| Sync.SyncEventsKeepsUnique | robo_ical_booking.py:245-250 | a store with at most one record per triple still has at most one after a sync |
| Sync.SyncEventsIdle | robo_ical_booking.py:239-250 | when every draft's triple is already stored, the loop appends nothing |
| Sync.SyncEventsIdempotent | robo_ical_booking.py:239-250 | running the loop again with the same events on its own result appends nothing |
| Sync.SyncEventsCount | robo_ical_booking.py:238-253 | the number of records created is the number of distinct triples among the events' drafts that the store did not hold before |
| Sync.SyncIcalIdle | robo_ical_booking.py:222-253 | a feed whose triples are all stored returns 0 and leaves the store unchanged |
| Sync.SyncIcalIdempotent | robo_ical_booking.py:222-253 | syncing the same download again returns 0 and leaves the store unchanged |
| Sync.ExampleFeed | robo_ical_booking.py:158-215 | a feed with one VEVENT (UID abc-123, 2024-03-01 to 2024-03-05, summary Jane Doe) synced for P1 into an empty store creates exactly one pending pre-reservation with those fields |
| Orchestrator.LoadConfig | robo_ical_booking.py:89-104 | the first configuration document is used; no document, or a failed query, gives the empty configuration |
| Orchestrator.BookingEntries | robo_ical_booking.py:269-273 | an entry is kept if and only if it is in the list and its `plataforma` is 'booking' |
| Orchestrator.BookingEntriesSingle | robo_ical_booking.py:270-273 | a one-entry list keeps its entry exactly when it is for Booking |
| Orchestrator.BookingEntriesAppend | robo_ical_booking.py:270-273 | filtering a concatenation is concatenating the filtered parts, so list order and repeated entries are kept |
| Orchestrator.BookingEntriesEmptyIff | robo_ical_booking.py:270-277 | no Booking entry survives exactly when no entry of the list is for Booking |
| Orchestrator.RunFeeds | robo_ical_booking.py:281-291 | the total is the growth of the append-only store; afterwards the stored triples are the earlier ones plus the triples of every syncable feed |
| Orchestrator.Run | robo_ical_booking.py:255-291 | the run aborts exactly when the configuration is empty, and stops without syncing exactly when no `icalUrls` entry is for Booking; a completed run's total and store are those of syncing, front to back, each entry with `plataforma == 'booking'` and a truthy `url` and `apartamentoId`; its total is the growth of the append-only store, and the stored triples gain exactly those of the Booking feeds |
| Orchestrator.RunFeedsIsEachEligible | robo_ical_booking.py:269-291 | the loop over the filtered Booking entries equals the front-to-back sum of `sincronizar_ical(url, apartamentoId, 'booking')` over the eligible entries of the raw list, each against the store the earlier entries left |
| Orchestrator.Executar | robo_ical_booking.py:261-291 | the method shaped like `executar` gives the same outcome as the fold |
| Orchestrator.SyncEntries | robo_ical_booking.py:281-291 | the loop that adds each feed's count to a running total ends with the fold's total and store |
| Orchestrator.RunFeedsAppend | robo_ical_booking.py:281-291 | running two entry lists back to back is running their concatenation, and the totals add, in list order |
| Orchestrator.RunFeedsSingle | robo_ical_booking.py:282-291 | one entry contributes exactly `sincronizar_ical(url, apartamentoId, 'booking')` when both fields are truthy, and nothing otherwise |
| Orchestrator.OnlyFirstDocument | robo_ical_booking.py:95-98 | documents after the first have no effect on the run |
| Orchestrator.NonBookingIgnored | robo_ical_booking.py:270-273 | inserting an entry for another platform anywhere in the list does not change the list of feeds synced |
| Orchestrator.RunFeedsKeepsUnique | robo_ical_booking.py:281-291 | the feed loop keeps at most one record per triple |
| Orchestrator.RunFeedsIdle | robo_ical_booking.py:281-291 | when every feed's triples are already stored, the loop creates nothing |
| Orchestrator.RunIdempotent | robo_ical_booking.py:255-291 | re-running with the same configuration and feeds on the store a completed run produced creates 0 records and changes nothing |
| Orchestrator.RunKeepsUnique | robo_ical_booking.py:255-291 | a completed run keeps at most one record per triple |

## Left out

- Firebase initialisation, credentials, environment variables and `sys.exit` (lines 54-87, 297-299) are process set-up and control, with no logic to model.
- The HTTP download (`baixar_ical`) is network I/O. It is an input: a failed request is None.
- `icalendar.Calendar.from_ical` and `cal.walk()` belong to a foreign library. The walked components are an input, and a parse failure is None. Text properties arrive as their `str()` rendering.
- Exceptions raised by the duplicate query and the write are not modelled. The program turns them into "not a duplicate" and "not written, not counted"; the model assumes both store operations succeed.
- Exceptions raised inside the walk loop, in `extrair_dados_evento` or in `executar` (for example an `icalUrls` value that is not a list of dictionaries) are not modelled.
- `SERVER_TIMESTAMP` is an opaque constant; the server's timestamp value is not modelled.
- DateFormat.FormatDate zero-pads years below 1000 to four digits. `strftime('%Y')` does this on some platforms and not on others.
- DateFormat.FormatDate does not model `datetime.time` values, which also have `strftime`. A `time` value falls under "any other value", whose `str()` rendering is an input.
- Logging has no behavioural content.
- Concurrent runs and the race between the check and the write are not modelled. The model is sequential, as the job is.
