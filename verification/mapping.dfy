/**
  Record mapping (`extrair_dados_evento`): an event dictionary becomes a
  four-field booking draft, or nothing when a date formats as empty.
*/
module Mapping {
  import opened Wrappers
  import opened DateFormat
  import opened Events

  /** The draft dictionary: `nome`, `dataCheckin`, `dataCheckout`, `codigoReserva`. */
  datatype Draft = Draft(nome: string, dataCheckin: string, dataCheckout: string, codigoReserva: string)

  const ImportedGuest: string := "Hóspede Importado"

  /** `evento.get('dtstart')` etc.: an absent key reads as `None`. */
  function Lookup(field: Option<CalValue>): CalValue {
    field.GetOr(Plain(NoneValue))
  }

  function CheckinOf(e: Event): string { FormatDate(Lookup(e.dtstart)) }
  function CheckoutOf(e: Event): string { FormatDate(Lookup(e.dtend)) }

  /**
    `extrair_dados_evento`. Nothing exactly when a formatted date is empty.
    The name falls back to the imported-guest placeholder only when the
    `summary` key is absent; the code is the `uid` whenever that key is
    present, even when empty, and name-dash-checkin only when it is absent.
  */
  function MapEvent(e: Event): (r: Option<Draft>)
    ensures r.None? <==> CheckinOf(e) == "" || CheckoutOf(e) == ""
    ensures r.Some? ==>
      && r.value.dataCheckin == CheckinOf(e)
      && r.value.dataCheckout == CheckoutOf(e)
      && r.value.dataCheckin != "" && r.value.dataCheckout != ""
      && (e.summary.Some? ==> r.value.nome == e.summary.value)
      && (e.summary.None? ==> r.value.nome == ImportedGuest)
      && (e.uid.Some? ==> r.value.codigoReserva == e.uid.value)
      && (e.uid.None? ==> r.value.codigoReserva == r.value.nome + "-" + r.value.dataCheckin)
  {
    var nome := e.summary.GetOr(ImportedGuest);
    var checkin := CheckinOf(e);
    var checkout := CheckoutOf(e);
    var codigo := e.uid.GetOr(nome + "-" + checkin);
    if checkin == "" || checkout == "" then None
    else Some(Draft(nome, checkin, checkout, codigo))
  }

  // -------------------------------------------------------------- properties

  /** The drop condition, in terms of the raw values the event carries. */
  lemma MapEventNoneIff(e: Event)
    ensures MapEvent(e).None? <==> EmptyRendering(Lookup(e.dtstart)) || EmptyRendering(Lookup(e.dtend))
  {
    FormatDateEmptyIff(Lookup(e.dtstart));
    FormatDateEmptyIff(Lookup(e.dtend));
  }

  /**
    An event whose dates are calendar values maps to a draft whose dates read
    back as those calendar dates.
  */
  lemma DatesReadBack(e: Event, start: ValidDate, end: ValidDate)
    requires e.dtstart.Some? && Unwrap(e.dtstart.value) == Day(start)
    requires e.dtend.Some? && Unwrap(e.dtend.value) == Day(end)
    ensures MapEvent(e).Some?
    ensures ParseIsoDate(MapEvent(e).value.dataCheckin) == Some(start)
    ensures ParseIsoDate(MapEvent(e).value.dataCheckout) == Some(end)
  {
  }

  /**
    A VEVENT without DTSTART or DTEND is not dropped: the missing value
    formats as "None", which is not empty, so the draft carries that text.
  */
  lemma MissingDateIsKept(c: Component)
    requires c.dtstart.None?
    requires c.dtend.Some? && !EmptyRendering(c.dtend.value)
    ensures MapEvent(ToEvent(c)).Some?
    ensures MapEvent(ToEvent(c)).value.dataCheckin == "None"
  {
    FormatDateEmptyIff(c.dtend.value);
  }

  /**
    Events from the parser always carry `summary` and `uid`, so neither
    the imported-guest name nor the synthesized code is ever used for them;
    a VEVENT without UID gets the empty code.
  */
  lemma ExtractedEventsSkipFallbacks(c: Component)
    requires MapEvent(ToEvent(c)).Some?
    ensures MapEvent(ToEvent(c)).value.nome == c.summary.GetOr(UntitledSummary)
    ensures MapEvent(ToEvent(c)).value.codigoReserva == c.uid.GetOr("")
  {
  }
}
