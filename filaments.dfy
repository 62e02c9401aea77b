/**
 * The filament inventory (`filaments` table): creation with defaults, the COALESCE partial
 * update, deletion and the newest-first listing.
 */
module Filaments {
  import opened Wrappers
  import opened Schema
  import opened Tables
  import Sorting

  /** `x || null` for a numeric column: a missing value or 0 is stored as NULL. */
  function OrNull(x: Option<real>): (r: Option<real>)
    ensures r.None? <==> x.None? || x.value == 0.0
    ensures r.Some? ==> r == x
  {
    if x.Some? && x.value != 0.0 then x else None
  }

  /**
   * The body of `POST /filaments`. `status` is "" when missing or falsy; the optional numeric
   * fields are `None` when missing or null.
   */
  datatype CreateFilamentRequest = CreateFilamentRequest(
    nome: string,
    cor: string,
    pesoTotal: real,
    custoPorGrama: real,
    precoPago: Option<real>,
    pesoCarretel: Option<real>,
    quantidadeCarreteis: Option<int>,
    status: string)

  const DEFAULT_FILAMENT_STATUS: string := "Disponível"

  /** The row `createFilament` inserts: a fresh spool with nothing used yet. */
  function NewFilament(req: CreateFilamentRequest, now: int): (f: Filament)
    ensures f.nome == req.nome && f.cor == req.cor
    ensures f.pesoTotal == req.pesoTotal && f.custoPorGrama == req.custoPorGrama
    ensures f.pesoUsado == 0.0
    ensures f.precoPago == OrNull(req.precoPago) && f.pesoCarretel == OrNull(req.pesoCarretel)
    ensures f.quantidadeCarreteis ==
      if req.quantidadeCarreteis.None? || req.quantidadeCarreteis.value == 0 then 1 else req.quantidadeCarreteis.value
    ensures f.quantidadeCarreteis != 0
    ensures f.status == if req.status == "" then DEFAULT_FILAMENT_STATUS else req.status
    ensures f.status != ""
    ensures f.createdAt == now && f.updatedAt == now
  {
    var spools := if req.quantidadeCarreteis.Some? && req.quantidadeCarreteis.value != 0
                  then req.quantidadeCarreteis.value else 1;
    Filament(
      req.nome, req.cor, req.pesoTotal, 0.0, req.custoPorGrama,
      OrNull(req.precoPago), OrNull(req.pesoCarretel),
      spools,
      if req.status != "" then req.status else DEFAULT_FILAMENT_STATUS,
      now, now)
  }

  /** `createFilament`: inserts one row under a fresh id and answers 201; no other row changes. */
  method CreateFilament(db: Database, req: CreateFilamentRequest, now: int) returns (status: int, id: int)
    modifies db`filaments
    ensures status == CREATED && id !in old(db.filaments)
    ensures db.filaments == old(db.filaments)[id := NewFilament(req, now)]
  {
    id := NextRowId(db.filaments.Keys);
    db.filaments := db.filaments[id := NewFilament(req, now)];
    status := CREATED;
  }

  /** The body of `PUT /filaments/:id`: `None` for a field that is missing or null. */
  datatype UpdateFilamentRequest = UpdateFilamentRequest(
    nome: Option<string>,
    cor: Option<string>,
    pesoTotal: Option<real>,
    pesoUsado: Option<real>,
    custoPorGrama: Option<real>,
    precoPago: Option<real>,
    pesoCarretel: Option<real>,
    quantidadeCarreteis: Option<int>,
    status: Option<string>)

  /** `COALESCE(?, column)`: the supplied value, or the stored one when the parameter is NULL. */
  function Coalesce<T>(x: Option<T>, stored: T): (r: T)
    ensures x.Some? ==> r == x.value
    ensures x.None? ==> r == stored
  {
    if x.Some? then x.value else stored
  }

  /** `COALESCE(?, column)` on a nullable column. */
  function CoalesceNullable<T>(x: Option<T>, stored: Option<T>): (r: Option<T>)
    ensures x.Some? ==> r == x
    ensures x.None? ==> r == stored
  {
    if x.Some? then x else stored
  }

  /** The row after `updateFilament`'s UPDATE: supplied fields overwrite, the rest are kept. */
  function UpdatedFilament(f: Filament, req: UpdateFilamentRequest, now: int): (g: Filament)
    ensures g.nome == Coalesce(req.nome, f.nome) && g.cor == Coalesce(req.cor, f.cor)
    ensures g.pesoTotal == Coalesce(req.pesoTotal, f.pesoTotal)
    ensures g.pesoUsado == Coalesce(req.pesoUsado, f.pesoUsado)
    ensures g.custoPorGrama == Coalesce(req.custoPorGrama, f.custoPorGrama)
    ensures g.precoPago == CoalesceNullable(req.precoPago, f.precoPago)
    ensures g.pesoCarretel == CoalesceNullable(req.pesoCarretel, f.pesoCarretel)
    ensures g.quantidadeCarreteis == Coalesce(req.quantidadeCarreteis, f.quantidadeCarreteis)
    ensures g.status == Coalesce(req.status, f.status)
    ensures g.createdAt == f.createdAt && g.updatedAt == now
  {
    f.(nome := Coalesce(req.nome, f.nome),
       cor := Coalesce(req.cor, f.cor),
       pesoTotal := Coalesce(req.pesoTotal, f.pesoTotal),
       pesoUsado := Coalesce(req.pesoUsado, f.pesoUsado),
       custoPorGrama := Coalesce(req.custoPorGrama, f.custoPorGrama),
       precoPago := CoalesceNullable(req.precoPago, f.precoPago),
       pesoCarretel := CoalesceNullable(req.pesoCarretel, f.pesoCarretel),
       quantidadeCarreteis := Coalesce(req.quantidadeCarreteis, f.quantidadeCarreteis),
       status := Coalesce(req.status, f.status),
       updatedAt := now)
  }

  /** A body with no field set only touches `updatedAt`. */
  lemma EmptyUpdateKeepsRow(f: Filament, now: int)
    ensures UpdatedFilament(f, UpdateFilamentRequest(None, None, None, None, None, None, None, None, None), now)
      == f.(updatedAt := now)
  {
  }

  /** Sending the same body twice leaves the row as sending it once did. */
  lemma UpdateFilamentIdempotent(f: Filament, req: UpdateFilamentRequest, now: int, later: int)
    ensures UpdatedFilament(UpdatedFilament(f, req, now), req, later) == UpdatedFilament(f, req, later)
  {
  }

  /**
   * A supplied `pesoUsado` replaces the ledger value outright, whatever the print queue has
   * charged: the inventory screen can overwrite consumption.
   */
  lemma UpdateOverwritesLedger(f: Filament, req: UpdateFilamentRequest, now: int)
    requires req.pesoUsado.Some?
    ensures UpdatedFilament(f, req, now).pesoUsado == req.pesoUsado.value
    ensures req.pesoUsado.value != f.pesoUsado ==> UpdatedFilament(f, req, now).pesoUsado != f.pesoUsado
  {
  }

  /** `updateFilament`: 404 with no change for an unknown id; otherwise the COALESCE update. */
  method UpdateFilament(db: Database, id: int, req: UpdateFilamentRequest, now: int) returns (status: int)
    modifies db`filaments
    ensures id !in old(db.filaments) ==> status == NOT_FOUND && db.filaments == old(db.filaments)
    ensures id in old(db.filaments) ==>
      status == OK && db.filaments == old(db.filaments)[id := UpdatedFilament(old(db.filaments)[id], req, now)]
  {
    if id in db.filaments {
      db.filaments := db.filaments[id := UpdatedFilament(db.filaments[id], req, now)];
    }
    if id !in db.filaments {
      return NOT_FOUND;
    }
    return OK;
  }

  /** `deleteFilament`: removes the row; 404 exactly when there was none to remove. */
  method DeleteFilament(db: Database, id: int) returns (status: int)
    modifies db`filaments
    ensures db.filaments == old(db.filaments) - {id}
    ensures status == NOT_FOUND <==> id !in old(db.filaments)
    ensures status == OK <==> id in old(db.filaments)
  {
    var changes := if id in db.filaments then 1 else 0;
    db.filaments := db.filaments - {id};
    if changes == 0 {
      return NOT_FOUND;
    }
    return OK;
  }

  /** `ORDER BY id DESC`. */
  predicate IdDescending(a: (int, Filament), b: (int, Filament)) {
    a.0 >= b.0
  }

  lemma IdDescendingIsTotalPreorder()
    ensures Sorting.TotalPreorder(IdDescending)
  {
  }

  /** `getFilaments`: every filament once, newest (highest id) first. */
  method GetFilaments(db: Database) returns (rows: seq<(int, Filament)>)
    ensures Enumerates(rows, db.filaments)
    ensures |rows| == |db.filaments|
    ensures forall i, j :: 0 <= i < j < |rows| ==> rows[i].0 > rows[j].0
  {
    rows := OrderedRows(db.filaments, IdDescending);
    IdDescendingIsTotalPreorder();
    forall i, j | 0 <= i < j < |rows|
      ensures rows[i].0 > rows[j].0
    {
      assert IdDescending(rows[i], rows[j]);
    }
  }
}
