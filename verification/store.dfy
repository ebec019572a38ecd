/**
  The `pre_reservas` collection as an append-only sequence of records, with
  the duplicate check (`verificar_reserva_existente`) and the write
  (`criar_pre_reserva`) as pure operations on it.
*/
module Store {
  import opened Mapping

  /** `firestore.SERVER_TIMESTAMP`: a sentinel the server replaces; opaque here. */
  datatype Timestamp = ServerTimestamp

  datatype Record = Record(
    nome: string,
    dataCheckin: string,
    dataCheckout: string,
    apartamentoId: string,
    origem: string,
    codigoReservaOrigem: string,
    status: string,
    criadoEm: Timestamp)

  const PendingValidation: string := "pendente_validacao"

  /** The triple the duplicate check filters on. */
  datatype Key = Key(apartamentoId: string, codigoReservaOrigem: string, origem: string)

  function KeyOf(r: Record): Key {
    Key(r.apartamentoId, r.codigoReservaOrigem, r.origem)
  }

  function Keys(store: seq<Record>): set<Key> {
    set r | r in store :: KeyOf(r)
  }

  /** At most one record per triple: the invariant the duplicate check protects. */
  ghost predicate UniqueKeys(store: seq<Record>) {
    forall i, j :: 0 <= i < j < |store| ==> KeyOf(store[i]) != KeyOf(store[j])
  }

  /**
    `verificar_reserva_existente`: whether some stored record matches all
    three fields. Scans the store from its newest record back.
  */
  function ReservationExists(store: seq<Record>, apartamentoId: string, codigo: string, origem: string): (b: bool)
    ensures b <==> Key(apartamentoId, codigo, origem) in Keys(store)
  {
    if store == [] then false
    else
      var last := store[|store| - 1];
      assert store == store[..|store| - 1] + [last];
      KeyOf(last) == Key(apartamentoId, codigo, origem)
      || ReservationExists(store[..|store| - 1], apartamentoId, codigo, origem)
  }

  /** The document `criar_pre_reserva` writes for a draft. */
  function NewRecord(d: Draft, apartamentoId: string, origem: string): Record {
    Record(d.nome, d.dataCheckin, d.dataCheckout, apartamentoId, origem,
           d.codigoReserva, PendingValidation, ServerTimestamp)
  }

  /** `criar_pre_reserva`: `add` appends one new document; earlier documents are untouched. */
  function CreatePreReservation(store: seq<Record>, d: Draft, apartamentoId: string, origem: string): (r: seq<Record>)
    ensures |r| == |store| + 1 && r[..|store|] == store
    ensures Keys(r) == Keys(store) + {Key(apartamentoId, d.codigoReserva, origem)}
    ensures r[|store|].status == PendingValidation
    ensures r[|store|].apartamentoId == apartamentoId && r[|store|].origem == origem
    ensures r[|store|].nome == d.nome && r[|store|].codigoReservaOrigem == d.codigoReserva
    ensures r[|store|].dataCheckin == d.dataCheckin && r[|store|].dataCheckout == d.dataCheckout
  {
    var r := store + [NewRecord(d, apartamentoId, origem)];
    assert r[..|store|] == store;
    KeysSnoc(store, NewRecord(d, apartamentoId, origem));
    r
  }

  lemma KeysSnoc(store: seq<Record>, x: Record)
    ensures Keys(store + [x]) == Keys(store) + {KeyOf(x)}
  {
    var s := store + [x];
    forall k | k in Keys(s) ensures k in Keys(store) + {KeyOf(x)} {
      var r :| r in s && KeyOf(r) == k;
      if r != x {
        assert r in store;
      }
    }
    forall k | k in Keys(store) ensures k in Keys(s) {
      var r :| r in store && KeyOf(r) == k;
      assert r in s;
    }
    assert x in s;
  }

  // -------------------------------------------------------------- properties

  /** A record stays found once written: appending never hides a triple. */
  lemma ExistsMonotone(store: seq<Record>, more: seq<Record>, apartamentoId: string, codigo: string, origem: string)
    requires ReservationExists(store, apartamentoId, codigo, origem)
    ensures ReservationExists(store + more, apartamentoId, codigo, origem)
  {
    var k := Key(apartamentoId, codigo, origem);
    var r :| r in store && KeyOf(r) == k;
    assert r in store + more;
  }

  /** Writing only after a negative check keeps at most one record per triple. */
  lemma CheckedCreateKeepsUnique(store: seq<Record>, d: Draft, apartamentoId: string, origem: string)
    requires UniqueKeys(store)
    requires !ReservationExists(store, apartamentoId, d.codigoReserva, origem)
    ensures UniqueKeys(CreatePreReservation(store, d, apartamentoId, origem))
  {
    var r := CreatePreReservation(store, d, apartamentoId, origem);
    forall i, j | 0 <= i < j < |r|
      ensures KeyOf(r[i]) != KeyOf(r[j])
    {
      if j == |store| {
        assert r[i] == store[i];
        assert store[i] in store;
      } else {
        assert r[i] == store[i] && r[j] == store[j];
      }
    }
  }
}
