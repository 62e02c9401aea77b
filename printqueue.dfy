/**
 * The production queue of print jobs (`printQueueController.js`): input normalisation,
 * the queue listing, job creation, progress updates that feed the filament ledger,
 * deletion and the bulk reorder.
 */
module PrintQueue {
  import opened Wrappers
  import opened Text
  import opened Js
  import opened Schema
  import opened FilamentLedger
  import Sorting
  import opened Tables

  const PRODUCTION_STATUSES: seq<string> := ["FILA", "IMPRIMINDO", "PAUSADO", "CONCLUIDO", "CANCELADO"]

  const CUSTOMER_STAGES: seq<string> := [
    "NOVO_PEDIDO", "MODELAGEM", "EM_ANALISE", "COTACAO", "VERIFICANDO_QUANTIDADE",
    "AGUARDANDO_APROVACAO", "APROVADO_PARA_IMPRESSAO", "EM_PRODUCAO", "FINALIZADO", "ENTREGUE"]

  /** The status a new row takes from the column default. */
  const DEFAULT_STATUS: string := "FILA"

  // ---------------------------------------------------------------- normalisers

  /** A known customer stage is kept; anything else becomes `NOVO_PEDIDO`. */
  function NormalizeCustomerStage(stage: string): (r: string)
    ensures r in CUSTOMER_STAGES
    ensures stage in CUSTOMER_STAGES ==> r == stage
    ensures stage !in CUSTOMER_STAGES ==> r == "NOVO_PEDIDO"
  {
    if stage in CUSTOMER_STAGES then stage else "NOVO_PEDIDO"
  }

  /** A known production status is kept; anything else becomes `FILA`. */
  function NormalizeProductionStatus(status: string): (r: string)
    ensures r in PRODUCTION_STATUSES
    ensures status in PRODUCTION_STATUSES ==> r == status
    ensures status !in PRODUCTION_STATUSES ==> r == "FILA"
  {
    if status in PRODUCTION_STATUSES then status else "FILA"
  }

  /** `String(x || '').trim() || null`: the trimmed text, or NULL when nothing is left. */
  function OptionalText(s: string): (r: Option<string>)
    ensures r.None? <==> Trim(s) == ""
    ensures r.Some? ==> r.value == Trim(s)
  {
    var t := Trim(s);
    if t == "" then None else Some(t)
  }

  /** `JOB-` and the id left-padded with zeros to six digits. */
  function BuildFallbackIdentifier(id: int): (r: string)
    ensures |r| >= 10 && r[..4] == "JOB-"
  {
    "JOB-" + PadStartZeros(IntToString(id), 6)
  }

  /**
   * For a non-negative id the digits after `JOB-` spell the id back, and below a million
   * the identifier is exactly ten characters long.
   */
  lemma FallbackIdentifierSpellsId(id: int)
    requires id >= 0
    ensures var r := BuildFallbackIdentifier(id);
      && (forall i :: 4 <= i < |r| ==> IsDigit(r[i])) && DecimalValue(r[4..]) == id
      && (id < 1000000 ==> |r| == 10)
  {
    var digits := PadStartZeros(IntToString(id), 6);
    NatToStringRoundTrip(id);
    DecimalValueLeadingZeros(|digits| - |IntToString(id)|, IntToString(id));
    if id < 1000000 {
      assert Pow10(6) == 1000000;
      NatToStringShort(id, 6);
    }
    assert BuildFallbackIdentifier(id)[4..] == digits;
  }

  /** A stored count as `normalizeInteger(column, 0)` reads it: NULL counts as 0. */
  function StoredCount(c: Option<int>): (r: int)
    ensures c.None? ==> r == 0
    ensures c.Some? ==> r == c.value
  {
    NormalizeIntegerOfInt(c.GetOr(0), 0);
    NormalizeInteger(if c.Some? then Column(c.value) else Null, 0)
  }

  /**
   * A count in an update: the supplied value floored, or the stored one when the value is
   * missing or not a finite number, and in both cases at least 0.
   */
  function NextCount(input: JsInput, stored: Option<int>): (r: int)
    ensures r >= 0
    ensures input.Finite? ==> r == if input.n.Floor < 0 then 0 else input.n.Floor
    ensures !input.Finite? ==> r == if StoredCount(stored) < 0 then 0 else StoredCount(stored)
  {
    var n := NormalizeInteger(input, StoredCount(stored));
    if n < 0 then 0 else n
  }

  // ---------------------------------------------------------------- getQueue

  /** The `CASE q.status` class of the queue listing. */
  function StatusRank(status: string): (r: int)
    ensures 1 <= r <= 6
    ensures r == 6 <==> status !in PRODUCTION_STATUSES
    ensures status == "IMPRIMINDO" <==> r == 1
    ensures status == "CONCLUIDO" <==> r == 4
  {
    if status == "IMPRIMINDO" then 1
    else if status == "FILA" then 2
    else if status == "PAUSADO" then 3
    else if status == "CONCLUIDO" then 4
    else if status == "CANCELADO" then 5
    else 6
  }

  /** Row `a` may come before row `b`: by status class, then `posicao`, then `createdAt`. */
  predicate QueueBefore(a: (int, Job), b: (int, Job)) {
    var ra := StatusRank(a.1.status);
    var rb := StatusRank(b.1.status);
    ra < rb || (ra == rb && (a.1.posicao < b.1.posicao || (a.1.posicao == b.1.posicao && a.1.createdAt <= b.1.createdAt)))
  }

  lemma QueueBeforeIsTotalPreorder()
    ensures Sorting.TotalPreorder(QueueBefore)
  {
  }

  /** A material line joined with its filament's name and colour. */
  datatype MaterialView = MaterialView(line: Material, nome: string, cor: string)

  /** A queue entry as the listing returns it. */
  datatype JobView = JobView(
    id: int,
    job: Job,
    materials: seq<MaterialView>,
    identificador: string,
    quantidadeFalha: int,
    produtoNome: Option<string>,
    produtoPeso: Option<real>,
    produtoStlLink: Option<string>,
    filamentoNome: Option<string>,
    filamentoCor: Option<string>,
    filamentoCusto: Option<real>)

  /** The inner join of a job's material lines with `filaments`: lines of vanished filaments drop out. */
  function MaterialViews(lines: seq<Material>, filaments: map<int, Filament>): (r: seq<MaterialView>)
    ensures |r| <= |lines|
    ensures forall i :: 0 <= i < |r| ==>
      r[i].line in lines && r[i].line.filamentoId in filaments
      && r[i].nome == filaments[r[i].line.filamentoId].nome && r[i].cor == filaments[r[i].line.filamentoId].cor
    ensures forall m :: m in lines && m.filamentoId in filaments ==> exists i :: 0 <= i < |r| && r[i].line == m
  {
    if lines == [] then []
    else
      var prefix := lines[..|lines| - 1];
      var m := lines[|lines| - 1];
      var rest := MaterialViews(prefix, filaments);
      assert lines == prefix + [m];
      if m.filamentoId in filaments then
        var f := filaments[m.filamentoId];
        var r := rest + [MaterialView(m, f.nome, f.cor)];
        assert r[|rest|].line == m;
        assert forall i :: 0 <= i < |rest| ==> r[i] == rest[i];
        r
      else rest
  }

  /** A stored identifier is shown when it is non-empty; otherwise the `JOB-` fallback. */
  function ShownIdentifier(id: int, stored: Option<string>): (r: string)
    ensures r != ""
    ensures stored.Some? && stored.value != "" ==> r == stored.value
    ensures (stored.None? || stored.value == "") ==> r == BuildFallbackIdentifier(id)
  {
    if stored.Some? && stored.value != "" then stored.value else BuildFallbackIdentifier(id)
  }

  /** One row of the listing: the job, its left-joined product and filament, and its material lines. */
  function JobViewOf(id: int, job: Job, products: map<int, Product>, filaments: map<int, Filament>,
                     materials: seq<Material>): (v: JobView)
    ensures v.id == id && v.job == job && v.identificador != ""
    ensures v.identificador == ShownIdentifier(id, job.identificador)
    ensures v.quantidadeFalha == StoredCount(job.quantidadeFalha)
    ensures v.produtoNome.Some? <==> job.produtoId in products
    ensures job.produtoId in products ==>
      var p := products[job.produtoId];
      v.produtoNome == Some(p.nome) && v.produtoPeso == Some(p.peso) && v.produtoStlLink == p.stlLink
    ensures job.produtoId !in products ==> v.produtoPeso.None? && v.produtoStlLink.None?
    ensures v.filamentoNome.Some? <==> job.filamentoId.Some? && job.filamentoId.value in filaments
    ensures v.materials == MaterialViews(LinesOf(materials, id), filaments)
  {
    var product := if job.produtoId in products then Some(products[job.produtoId]) else None;
    var filament := if job.filamentoId.Some? && job.filamentoId.value in filaments
                    then Some(filaments[job.filamentoId.value]) else None;
    JobView(
      id, job,
      MaterialViews(LinesOf(materials, id), filaments),
      ShownIdentifier(id, job.identificador),
      NormalizeInteger(if job.quantidadeFalha.Some? then Column(job.quantidadeFalha.value) else Null, 0),
      if product.Some? then Some(product.value.nome) else None,
      if product.Some? then Some(product.value.peso) else None,
      if product.Some? then product.value.stlLink else None,
      if filament.Some? then Some(filament.value.nome) else None,
      if filament.Some? then Some(filament.value.cor) else None,
      if filament.Some? then Some(filament.value.custoPorGrama) else None)
  }

  /**
   * `getQueue`: every job exactly once, in status-class, `posicao`, `createdAt` order, each
   * shown with its fallback identifier, normalised failure count and the left-joined product
   * (name, weight, `stlLink`) and filament. `hasStlLink` says whether `products` has the
   * `stlLink` column the query selects; without it the statement does not prepare and the
   * answer is 500 with an empty listing.
   */
  method GetQueue(db: Database, hasStlLink: bool) returns (status: int, views: seq<JobView>)
    ensures !hasStlLink ==> status == SERVER_ERROR && views == []
    ensures hasStlLink ==> status == OK
    ensures hasStlLink ==> |views| == |db.jobs|
    ensures forall i :: 0 <= i < |views| ==> views[i].id in db.jobs
    ensures hasStlLink ==> forall k :: k in db.jobs ==> exists i :: 0 <= i < |views| && views[i].id == k
    ensures forall i, j :: 0 <= i < j < |views| ==> views[i].id != views[j].id
    ensures forall i, j :: 0 <= i < j < |views| ==> QueueBefore((views[i].id, views[i].job), (views[j].id, views[j].job))
    ensures forall i :: 0 <= i < |views| ==>
      views[i] == JobViewOf(views[i].id, db.jobs[views[i].id], db.products, db.filaments, db.materials)
  {
    if !hasStlLink {
      return SERVER_ERROR, [];
    }
    status := OK;
    var sorted := OrderedRows(db.jobs, QueueBefore);
    assert Sorting.SortedBy(sorted, QueueBefore) by {
      QueueBeforeIsTotalPreorder();
    }
    var products, filaments, materials := db.products, db.filaments, db.materials;
    views := seq(|sorted|, i requires 0 <= i < |sorted| =>
      JobViewOf(sorted[i].0, sorted[i].1, products, filaments, materials));
    ListingOfSortedRows(sorted, views, db.jobs, products, filaments, materials);
  }

  /** Viewing each of the sorted rows in turn gives the listing `GetQueue` promises. */
  lemma ListingOfSortedRows(sorted: seq<(int, Job)>, views: seq<JobView>, jobs: map<int, Job>,
                            products: map<int, Product>, filaments: map<int, Filament>, materials: seq<Material>)
    requires Enumerates(sorted, jobs) && Sorting.SortedBy(sorted, QueueBefore)
    requires |views| == |sorted| == |jobs|
    requires forall i :: 0 <= i < |views| ==>
      views[i] == JobViewOf(sorted[i].0, sorted[i].1, products, filaments, materials)
    ensures |views| == |jobs|
    ensures forall i :: 0 <= i < |views| ==> views[i].id in jobs
    ensures forall k :: k in jobs ==> exists i :: 0 <= i < |views| && views[i].id == k
    ensures forall i, j :: 0 <= i < j < |views| ==> views[i].id != views[j].id
    ensures forall i, j :: 0 <= i < j < |views| ==> QueueBefore((views[i].id, views[i].job), (views[j].id, views[j].job))
    ensures forall i :: 0 <= i < |views| ==>
      views[i] == JobViewOf(views[i].id, jobs[views[i].id], products, filaments, materials)
  {
    forall i | 0 <= i < |views|
      ensures views[i].id == sorted[i].0 && views[i].job == sorted[i].1 && sorted[i].1 == jobs[sorted[i].0]
    {
    }
  }

  // ---------------------------------------------------------------- createJob

  /**
   * One entry of the request's `materials` array: a spool and its grams per copy, or an entry
   * whose insert throws (`null`, whose `.filamentoId` is a TypeError, or a value the driver
   * refuses to bind).
   */
  datatype MaterialInput = MaterialInput(filamentoId: int, pesoGasto: real) | Unbindable

  /** Every entry can be inserted. */
  predicate AllBind(inputs: seq<MaterialInput>) {
    forall i :: 0 <= i < |inputs| ==> inputs[i].MaterialInput?
  }

  /** How many entries the insert loop gets through: those before the first one that throws. */
  function BindablePrefix(inputs: seq<MaterialInput>): (n: nat)
    ensures n <= |inputs| && AllBind(inputs[..n])
    ensures n < |inputs| ==> inputs[n].Unbindable?
  {
    if inputs == [] || inputs[0].Unbindable? then 0
    else
      var n := 1 + BindablePrefix(inputs[1..]);
      assert forall i :: 1 <= i < n ==> inputs[..n][i] == inputs[1..][..n - 1][i - 1];
      n
  }

  /** The loop gets through every entry exactly when all of them bind. */
  lemma BindablePrefixAll(inputs: seq<MaterialInput>)
    ensures BindablePrefix(inputs) == |inputs| <==> AllBind(inputs)
  {
    var n := BindablePrefix(inputs);
    if n == |inputs| {
      assert inputs[..n] == inputs;
    }
  }

  /**
   * The body of `POST /queue`. Text fields hold `String(x || '')` of the value sent (so a
   * missing or falsy value is ""); `materials` is `None` unless an array was sent.
   */
  datatype CreateJobRequest = CreateJobRequest(
    produtoId: JsInput,
    filamentoId: JsInput,
    quantidadeTotal: JsInput,
    prioridade: JsInput,
    tempoEstimadoMinutos: JsInput,
    clienteNome: string,
    clienteContato: string,
    etapaCliente: string,
    observacoes: string,
    identificador: string,
    materials: Option<seq<MaterialInput>>)

  /** The identifier the request asks for, trimmed and upper-cased ("" when none). */
  function RequestedIdentifier(req: CreateJobRequest): string {
    ToUpper(Trim(req.identificador))
  }

  /** The identifier the new job ends up with: the requested one, or the `JOB-` fallback built from its id. */
  function StoredIdentifier(req: CreateJobRequest, id: int): string {
    if RequestedIdentifier(req) != "" then RequestedIdentifier(req) else BuildFallbackIdentifier(id)
  }

  /** Some job's identifier equals `ident` once upper-cased (`UPPER(identificador) = ?`). */
  predicate IdentifierInUse(jobs: map<int, Job>, ident: string) {
    exists k :: k in jobs && jobs[k].identificador.Some? && ToUpper(jobs[k].identificador.value) == ident
  }

  /**
   * `posicao` is the tail of the queue: one more than the largest stored `posicao`, where a
   * largest value of 0 or an empty table counts as 0.
   */
  ghost predicate TailPosition(jobs: map<int, Job>, p: int) {
    && (forall k :: k in jobs ==> jobs[k].posicao < p)
    && (if p == 1 then jobs == map[] || exists k :: k in jobs && jobs[k].posicao == 0
        else exists k :: k in jobs && jobs[k].posicao == p - 1)
  }

  /** The row `createJob` inserts (before the fallback identifier is written). */
  function NewJob(req: CreateJobRequest, posicao: int, identificador: Option<string>, now: int): Job
  {
    var filamentoId := NormalizeInteger(req.filamentoId, 0);
    var tempo := NormalizeInteger(req.tempoEstimadoMinutos, 0);
    var total := NormalizeInteger(req.quantidadeTotal, 1);
    var prioridade := NormalizeInteger(req.prioridade, 1);
    Job(
      NormalizeInteger(req.produtoId, 0),
      if filamentoId == 0 then None else Some(filamentoId),
      if total < 1 then 1 else total,
      Some(0), Some(0),
      if prioridade < 1 then 1 else prioridade,
      if tempo == 0 then None else Some(tempo),
      posicao,
      OptionalText(req.clienteNome),
      OptionalText(req.clienteContato),
      Some(NormalizeCustomerStage(req.etapaCliente)),
      OptionalText(req.observacoes),
      identificador,
      DEFAULT_STATUS,
      None, None,
      now, now)
  }

  /**
   * The row holds the normalised ids, a total and a priority of at least 1, zero counts, a
   * known customer stage and the default status, with no start or end date.
   */
  lemma NewJobFields(req: CreateJobRequest, posicao: int, identificador: Option<string>, now: int)
    ensures var j := NewJob(req, posicao, identificador, now);
      && j.produtoId == NormalizeInteger(req.produtoId, 0)
      && (j.filamentoId.None? <==> NormalizeInteger(req.filamentoId, 0) == 0)
      && (j.filamentoId.Some? ==> j.filamentoId.value == NormalizeInteger(req.filamentoId, 0))
      && j.quantidadeTotal >= 1 && j.prioridade >= 1
      && (NormalizeInteger(req.quantidadeTotal, 1) >= 1 ==> j.quantidadeTotal == NormalizeInteger(req.quantidadeTotal, 1))
      && (NormalizeInteger(req.prioridade, 1) >= 1 ==> j.prioridade == NormalizeInteger(req.prioridade, 1))
      && j.quantidadeImpressa == Some(0) && j.quantidadeFalha == Some(0)
      && j.etapaCliente.Some? && j.etapaCliente.value in CUSTOMER_STAGES
      && j.status == DEFAULT_STATUS && j.dataInicio.None? && j.dataConclusao.None?
      && j.posicao == posicao && j.identificador == identificador
      && j.clienteNome == OptionalText(req.clienteNome) && j.observacoes == OptionalText(req.observacoes)
  {
  }

  /** The material lines of a request; a request without `materials` has none. */
  function RequestMaterials(req: CreateJobRequest): seq<MaterialInput> {
    if req.materials.Some? then req.materials.value else []
  }

  /** The material rows the entries `inputs`, all bindable, insert for job `jobId`, in order. */
  function MaterialRows(jobId: int, inputs: seq<MaterialInput>): (r: seq<Material>)
    requires AllBind(inputs)
    ensures |r| == |inputs|
    ensures forall i :: 0 <= i < |r| ==>
      r[i] == Material(jobId, inputs[i].filamentoId, inputs[i].pesoGasto)
  {
    seq(|inputs|, i requires 0 <= i < |inputs| => Material(jobId, inputs[i].filamentoId, inputs[i].pesoGasto))
  }

  /**
   * The checks `createJob` makes before writing anything: 400 without a product id, 404 for an
   * unknown product or an unknown non-zero filament, 409 for an identifier already in use, and
   * otherwise 201. Each answer holds exactly when its condition does and the earlier ones fail.
   */
  function CreateVerdict(req: CreateJobRequest, products: map<int, Product>, filaments: map<int, Filament>,
                         jobs: map<int, Job>): (r: int)
    ensures r in {CREATED, BAD_REQUEST, NOT_FOUND, CONFLICT}
    ensures var pid := NormalizeInteger(req.produtoId, 0);
      r == BAD_REQUEST <==> pid == 0
    ensures var pid := NormalizeInteger(req.produtoId, 0);
      var fid := NormalizeInteger(req.filamentoId, 0);
      r == NOT_FOUND <==> pid != 0 && (pid !in products || (fid != 0 && fid !in filaments))
    ensures var pid := NormalizeInteger(req.produtoId, 0);
      var fid := NormalizeInteger(req.filamentoId, 0);
      var ident := RequestedIdentifier(req);
      r == CONFLICT <==>
        && pid != 0 && pid in products && (fid == 0 || fid in filaments)
        && ident != "" && IdentifierInUse(jobs, ident)
  {
    var pid := NormalizeInteger(req.produtoId, 0);
    var fid := NormalizeInteger(req.filamentoId, 0);
    var ident := RequestedIdentifier(req);
    if pid == 0 then BAD_REQUEST
    else if pid !in products then NOT_FOUND
    else if fid != 0 && fid !in filaments then NOT_FOUND
    else if ident != "" && IdentifierInUse(jobs, ident) then CONFLICT
    else CREATED
  }

  /**
   * `createJob`. When a check of `CreateVerdict` fails, its answer, with nothing written.
   * Otherwise the job is appended at the tail of the queue with zero counts and an identifier
   * (the `JOB-` fallback when none was given), and its material lines are inserted one by one
   * outside any transaction: 201 when every entry binds; else the catch answers 400 with the
   * job row and the lines before the failing entry left in place. `jobId` is the id of the row
   * written, whichever the answer.
   */
  method CreateJob(db: Database, req: CreateJobRequest, now: int) returns (status: int, jobId: Option<int>)
    modifies db`jobs, db`materials
    ensures var verdict := CreateVerdict(req, old(db.products), old(db.filaments), old(db.jobs));
      verdict != CREATED ==>
        status == verdict && jobId.None? && db.jobs == old(db.jobs) && db.materials == old(db.materials)
    ensures var verdict := CreateVerdict(req, old(db.products), old(db.filaments), old(db.jobs));
      verdict == CREATED ==>
        && (status == CREATED <==> AllBind(RequestMaterials(req)))
        && (status != CREATED ==> status == BAD_REQUEST)
        && jobId.Some? && jobId.value !in old(db.jobs) && jobId.value in db.jobs
        && TailPosition(old(db.jobs), db.jobs[jobId.value].posicao)
        && db.jobs == old(db.jobs)[jobId.value := NewJob(req, db.jobs[jobId.value].posicao,
             Some(StoredIdentifier(req, jobId.value)), now)]
        && db.materials == old(db.materials) +
             MaterialRows(jobId.value, RequestMaterials(req)[..BindablePrefix(RequestMaterials(req))])
  {
    status := CreateVerdict(req, db.products, db.filaments, db.jobs);
    if status != CREATED {
      return status, None;
    }
    var id, posicao, written := InsertCreatedJob(db, req, now);
    NewJobPosition(req, posicao, Some(StoredIdentifier(req, id)), now);
    assert db.jobs[id].posicao == posicao;
    BindablePrefixAll(RequestMaterials(req));
    if written < |RequestMaterials(req)| {
      status := BAD_REQUEST;
    }
    jobId := Some(id);
  }

  /**
   * The writes of a `createJob` whose checks passed: the job row, then its material lines up to
   * the first entry that throws; `written` counts the lines inserted.
   */
  method InsertCreatedJob(db: Database, req: CreateJobRequest, now: int) returns (id: int, posicao: int, written: nat)
    modifies db`jobs, db`materials
    ensures id !in old(db.jobs) && TailPosition(old(db.jobs), posicao)
    ensures db.jobs == old(db.jobs)[id := NewJob(req, posicao, Some(StoredIdentifier(req, id)), now)]
    ensures written == BindablePrefix(RequestMaterials(req))
    ensures db.materials == old(db.materials) + MaterialRows(id, RequestMaterials(req)[..written])
  {
    id := NextRowId(db.jobs.Keys);
    posicao := NextPosition(db.jobs);
    var ident := RequestedIdentifier(req);
    var fallback := BuildFallbackIdentifier(id);
    assert StoredIdentifier(req, id) == if ident != "" then ident else fallback;
    InsertJob(db, req, id, posicao, ident, fallback, now);
    written := InsertMaterialLines(db, id, RequestMaterials(req));
  }

  /**
   * The `INSERT INTO print_jobs` of `createJob` under the new row id `id` at position `posicao`,
   * followed, when no identifier was requested, by the `UPDATE` that writes `fallback`.
   */
  method InsertJob(db: Database, req: CreateJobRequest, id: int, posicao: int, ident: string, fallback: string, now: int)
    modifies db`jobs
    ensures db.jobs == old(db.jobs)[id := NewJob(req, posicao, Some(if ident != "" then ident else fallback), now)]
  {
    if ident != "" {
      db.jobs := db.jobs[id := NewJob(req, posicao, Some(ident), now)];
    } else {
      ghost var before := db.jobs;
      db.jobs := db.jobs[id := NewJob(req, posicao, None, now)];
      db.jobs := db.jobs[id := db.jobs[id].(identificador := Some(fallback))];
      BackfillIdentifier(before, id, req, posicao, fallback, now);
    }
  }

  /** Inserting the row without an identifier and then writing `fallback` into it stores the row with `fallback`. */
  lemma BackfillIdentifier(jobs: map<int, Job>, id: int, req: CreateJobRequest, posicao: int, fallback: string, now: int)
    ensures var inserted := jobs[id := NewJob(req, posicao, None, now)];
      inserted[id := inserted[id].(identificador := Some(fallback))] == jobs[id := NewJob(req, posicao, Some(fallback), now)]
  {
    var blank := NewJob(req, posicao, None, now);
    NewJobIdentifier(req, posicao, Some(fallback), now);
    OverwriteTwice(jobs, id, blank, blank.(identificador := Some(fallback)));
  }

  /** A second write to the same key replaces the first. */
  lemma OverwriteTwice<K, V>(m: map<K, V>, k: K, a: V, b: V)
    ensures m[k := a][k := b] == m[k := b]
  {
  }

  /** The row keeps the position it was inserted at. */
  lemma NewJobPosition(req: CreateJobRequest, posicao: int, identificador: Option<string>, now: int)
    ensures NewJob(req, posicao, identificador, now).posicao == posicao
  {
  }

  /** Writing the identifier afterwards gives the row that would have been inserted with it. */
  lemma NewJobIdentifier(req: CreateJobRequest, posicao: int, identificador: Option<string>, now: int)
    ensures NewJob(req, posicao, None, now).(identificador := identificador) == NewJob(req, posicao, identificador, now)
  {
  }

  /** `(SELECT MAX(posicao) FROM print_jobs) || 0` plus one. */
  method NextPosition(jobs: map<int, Job>) returns (p: int)
    ensures TailPosition(jobs, p)
  {
    var positions := set k | k in jobs :: jobs[k].posicao;
    var maxPos := Max(positions);
    p := (if maxPos.Some? && maxPos.value != 0 then maxPos.value else 0) + 1;
    assert forall k :: k in jobs ==> jobs[k].posicao in positions;
    if maxPos.Some? {
      var w := maxPos.value;
      assert exists k :: k in jobs && jobs[k].posicao == w;
    }
  }

  /** The `INSERT INTO print_job_materials` loop of `createJob`, one row per request entry. */
  method InsertMaterialLines(db: Database, id: int, inputs: seq<MaterialInput>) returns (n: nat)
    modifies db`materials
    ensures n == BindablePrefix(inputs)
    ensures db.materials == old(db.materials) + MaterialRows(id, inputs[..n])
  {
    n := 0;
    while n < |inputs| && inputs[n].MaterialInput?
      invariant n <= |inputs| && AllBind(inputs[..n])
      invariant db.materials == old(db.materials) + MaterialRows(id, inputs[..n])
    {
      assert inputs[..n + 1] == inputs[..n] + [inputs[n]];
      db.materials := db.materials + [Material(id, inputs[n].filamentoId, inputs[n].pesoGasto)];
      assert MaterialRows(id, inputs[..n + 1]) == MaterialRows(id, inputs[..n]) + [Material(id, inputs[n].filamentoId, inputs[n].pesoGasto)];
      n := n + 1;
    }
  }

  // ---------------------------------------------------------------- updateJobStatus

  /**
   * The body of `PUT /queue/:id`. `status` and `etapaCliente` are "" when missing or falsy;
   * the text fields are `Unset` when absent from the body and otherwise `String(x || '')`.
   */
  datatype UpdateJobRequest = UpdateJobRequest(
    status: string,
    etapaCliente: string,
    quantidadeImpressa: JsInput,
    quantidadeFalha: JsInput,
    observacoes: Field<string>,
    clienteNome: Field<string>,
    clienteContato: Field<string>)

  /** `dataInicio` is written once: when the job first enters `IMPRIMINDO`. */
  function NextDataInicio(current: Option<int>, nextStatus: string, now: int): (r: Option<int>)
    ensures current.Some? ==> r == current
    ensures current.None? ==> (r.Some? <==> nextStatus == "IMPRIMINDO")
    ensures r.Some? && current.None? ==> r.value == now
  {
    if nextStatus == "IMPRIMINDO" && current.None? then Some(now) else current
  }

  /** `dataConclusao` is written once: when the job becomes `CONCLUIDO` or reaches its total. */
  function NextDataConclusao(current: Option<int>, nextStatus: string, processed: int, total: int, now: int): (r: Option<int>)
    ensures current.Some? ==> r == current
    ensures current.None? ==> (r.Some? <==> nextStatus == "CONCLUIDO" || processed == total)
    ensures r.Some? && current.None? ==> r.value == now
  {
    if (nextStatus == "CONCLUIDO" || processed == total) && current.None? then Some(now) else current
  }

  /** `x === undefined ? stored : String(x || '').trim() || null`. */
  function TextUpdate(input: Field<string>, stored: Option<string>): (r: Option<string>)
    ensures input.Unset? ==> r == stored
    ensures input.Set? ==> r == OptionalText(input.value)
  {
    if input.Unset? then stored else OptionalText(input.value)
  }

  /** The processed count of a job, as the ledger reads it from the stored row. */
  function Processed(job: Job): int {
    StoredCount(job.quantidadeImpressa) + StoredCount(job.quantidadeFalha)
  }

  /** The row an accepted progress update writes. */
  function UpdatedJob(job: Job, req: UpdateJobRequest, now: int): (j: Job)
    ensures j.status == if req.status != "" then NormalizeProductionStatus(req.status) else job.status
    ensures j.etapaCliente.Some? && j.etapaCliente.value in CUSTOMER_STAGES
    ensures req.etapaCliente in CUSTOMER_STAGES ==> j.etapaCliente == Some(req.etapaCliente)
    ensures j.quantidadeImpressa == Some(NextCount(req.quantidadeImpressa, job.quantidadeImpressa))
    ensures j.quantidadeFalha == Some(NextCount(req.quantidadeFalha, job.quantidadeFalha))
    ensures job.dataInicio.Some? ==> j.dataInicio == job.dataInicio
    ensures job.dataConclusao.Some? ==> j.dataConclusao == job.dataConclusao
    ensures j.dataInicio.Some? ==> job.dataInicio.Some? || j.status == "IMPRIMINDO"
    ensures j.dataConclusao.Some? ==> job.dataConclusao.Some? || j.status == "CONCLUIDO" || Processed(j) == job.quantidadeTotal
    ensures j.clienteNome == TextUpdate(req.clienteNome, job.clienteNome)
    ensures j.clienteContato == TextUpdate(req.clienteContato, job.clienteContato)
    ensures j.observacoes == TextUpdate(req.observacoes, job.observacoes)
    ensures j.updatedAt == now
    ensures j.(status := job.status, etapaCliente := job.etapaCliente, quantidadeImpressa := job.quantidadeImpressa,
               quantidadeFalha := job.quantidadeFalha, clienteNome := job.clienteNome,
               clienteContato := job.clienteContato, observacoes := job.observacoes,
               dataInicio := job.dataInicio, dataConclusao := job.dataConclusao, updatedAt := job.updatedAt) == job
  {
    var nextStatus := if req.status != "" then NormalizeProductionStatus(req.status) else job.status;
    var nextStage := if req.etapaCliente != "" then NormalizeCustomerStage(req.etapaCliente)
                     else NormalizeCustomerStage(job.etapaCliente.GetOr(""));
    var success := NextCount(req.quantidadeImpressa, job.quantidadeImpressa);
    var fail := NextCount(req.quantidadeFalha, job.quantidadeFalha);
    job.(
      status := nextStatus,
      etapaCliente := Some(nextStage),
      quantidadeImpressa := Some(success),
      quantidadeFalha := Some(fail),
      clienteNome := TextUpdate(req.clienteNome, job.clienteNome),
      clienteContato := TextUpdate(req.clienteContato, job.clienteContato),
      observacoes := TextUpdate(req.observacoes, job.observacoes),
      dataInicio := NextDataInicio(job.dataInicio, nextStatus, now),
      dataConclusao := NextDataConclusao(job.dataConclusao, nextStatus, success + fail, job.quantidadeTotal, now),
      updatedAt := now)
  }

  /** Once set, neither timestamp changes again, whatever later updates say. */
  lemma TimestampsWriteOnce(job: Job, req: UpdateJobRequest, now: int)
    requires job.dataInicio.Some? && job.dataConclusao.Some?
    ensures UpdatedJob(job, req, now).dataInicio == job.dataInicio
    ensures UpdatedJob(job, req, now).dataConclusao == job.dataConclusao
  {
  }

  /**
   * `updateJobStatus`: 404 for an unknown job; 400 with nothing written when success + failure
   * would exceed the job's total; otherwise the job row is updated and the change in its
   * processed count is charged to the filament ledger.
   */
  method UpdateJobStatus(db: Database, id: int, req: UpdateJobRequest, now: int) returns (status: int)
    modifies db`jobs, db`filaments
    ensures id !in old(db.jobs) ==>
      status == NOT_FOUND && db.jobs == old(db.jobs) && db.filaments == old(db.filaments)
    ensures id in old(db.jobs) ==>
      var job := old(db.jobs)[id];
      var next := UpdatedJob(job, req, now);
      if Processed(next) > job.quantidadeTotal then
        status == BAD_REQUEST && db.jobs == old(db.jobs) && db.filaments == old(db.filaments)
      else
        && status == OK
        && db.jobs == old(db.jobs)[id := next]
        && db.filaments == LedgerAfter(old(db.filaments),
             ChargedLines(id, job, LinesOf(db.materials, id), db.products), Processed(next) - Processed(job))
  {
    if id !in db.jobs {
      return NOT_FOUND;
    }
    var job := db.jobs[id];
    var next := UpdatedJob(job, req, now);
    var success := NextCount(req.quantidadeImpressa, job.quantidadeImpressa);
    var fail := NextCount(req.quantidadeFalha, job.quantidadeFalha);
    if success + fail > job.quantidadeTotal {
      return BAD_REQUEST;
    }
    db.jobs := db.jobs[id := next];

    var delta := (success + fail) - (StoredCount(job.quantidadeImpressa) + StoredCount(job.quantidadeFalha));
    assert delta == Processed(next) - Processed(job);
    AdjustStock(db, id, job, delta);
    return OK;
  }

  /**
   * The filament movement of `updateJobStatus` for a change of `delta` processed units: the
   * job's material lines when it has any, otherwise its single filament charged by the
   * product's weight.
   */
  method AdjustStock(db: Database, id: int, job: Job, delta: int)
    modifies db`filaments
    ensures db.filaments == LedgerAfter(old(db.filaments),
      ChargedLines(id, job, LinesOf(db.materials, id), db.products), delta)
  {
    var lines := LinesOf(db.materials, id);
    var charged := ChargedLines(id, job, lines, db.products);
    ghost var before := db.filaments;
    if delta > 0 {
      if |lines| > 0 {
        ConsumeStock(db, lines, delta);
      } else if job.filamentoId.Some? && job.filamentoId.value != 0 && job.produtoId in db.products {
        var fid := job.filamentoId.value;
        var amount := Charge(db.products[job.produtoId].peso, delta);
        ConsumeSingle(db, fid, amount);
        assert charged == [Material(id, fid, db.products[job.produtoId].peso)] && charged[..0] == [];
        assert ConsumeLines(before, charged, delta) == Consume(ConsumeLines(before, [], delta), fid, amount);
      }
    } else if delta < 0 {
      var units := -delta;
      if |lines| > 0 {
        RefundStock(db, lines, units);
      } else if job.filamentoId.Some? && job.filamentoId.value != 0 && job.produtoId in db.products {
        var fid := job.filamentoId.value;
        var amount := Charge(db.products[job.produtoId].peso, units);
        RefundSingle(db, fid, amount);
        assert charged == [Material(id, fid, db.products[job.produtoId].peso)] && charged[..0] == [];
        assert RefundLines(before, charged, units) == Refund(RefundLines(before, [], units), fid, amount);
      }
    }
  }

  /** `UPDATE filaments SET pesoUsado = pesoUsado + ?` on one filament, when it exists. */
  method ConsumeSingle(db: Database, fid: int, amount: real)
    modifies db`filaments
    ensures db.filaments == Consume(old(db.filaments), fid, amount)
  {
    if fid in db.filaments {
      db.filaments := db.filaments[fid := db.filaments[fid].(pesoUsado := db.filaments[fid].pesoUsado + amount)];
    }
  }

  /** `UPDATE filaments SET pesoUsado = MAX(0, pesoUsado - ?)` on one filament, when it exists. */
  method RefundSingle(db: Database, fid: int, amount: real)
    modifies db`filaments
    ensures db.filaments == Refund(old(db.filaments), fid, amount)
  {
    if fid in db.filaments {
      db.filaments := db.filaments[fid := db.filaments[fid].(pesoUsado := Max0(db.filaments[fid].pesoUsado - amount))];
    }
  }

  /** The consumption loop of `updateJobStatus`: each line adds `pesoGasto * units` to its filament. */
  method ConsumeStock(db: Database, lines: seq<Material>, units: int)
    modifies db`filaments
    ensures db.filaments == ConsumeLines(old(db.filaments), lines, units)
  {
    for i := 0 to |lines|
      invariant db.filaments == ConsumeLines(old(db.filaments), lines[..i], units)
    {
      var mat := lines[i];
      var amount := Charge(mat.pesoGasto, units);
      assert lines[..i + 1][..i] == lines[..i] && lines[..i + 1][i] == mat;
      assert ConsumeLines(old(db.filaments), lines[..i + 1], units) == Consume(db.filaments, mat.filamentoId, amount);
      if mat.filamentoId in db.filaments {
        db.filaments := db.filaments[mat.filamentoId :=
          db.filaments[mat.filamentoId].(pesoUsado := db.filaments[mat.filamentoId].pesoUsado + amount)];
      }
    }
    assert lines[..|lines|] == lines;
  }

  /** The refund loop of `updateJobStatus`: each line takes `pesoGasto * units` back, never below 0. */
  method RefundStock(db: Database, lines: seq<Material>, units: int)
    modifies db`filaments
    ensures db.filaments == RefundLines(old(db.filaments), lines, units)
  {
    for i := 0 to |lines|
      invariant db.filaments == RefundLines(old(db.filaments), lines[..i], units)
    {
      var mat := lines[i];
      var amount := Charge(mat.pesoGasto, units);
      assert lines[..i + 1][..i] == lines[..i] && lines[..i + 1][i] == mat;
      assert RefundLines(old(db.filaments), lines[..i + 1], units) == Refund(db.filaments, mat.filamentoId, amount);
      if mat.filamentoId in db.filaments {
        db.filaments := db.filaments[mat.filamentoId :=
          db.filaments[mat.filamentoId].(pesoUsado := Max0(db.filaments[mat.filamentoId].pesoUsado - amount))];
      }
    }
    assert lines[..|lines|] == lines;
  }

  // ---------------------------------------------------------------- deleteJob

  /** `DELETE FROM print_job_materials WHERE printJobId = ?`: the other lines, in order. */
  function WithoutJob(materials: seq<Material>, jobId: int): (r: seq<Material>)
    ensures forall m :: m in r <==> m in materials && m.printJobId != jobId
    ensures |r| <= |materials|
  {
    if materials == [] then []
    else
      var rest := WithoutJob(materials[..|materials| - 1], jobId);
      var last := materials[|materials| - 1];
      assert materials == materials[..|materials| - 1] + [last];
      if last.printJobId == jobId then rest else rest + [last]
  }

  /** Deleting a job's lines and listing the job's lines split the table between them. */
  lemma {:induction false} LinesPartition(materials: seq<Material>, jobId: int)
    ensures multiset(LinesOf(materials, jobId)) + multiset(WithoutJob(materials, jobId)) == multiset(materials)
    ensures LinesOf(WithoutJob(materials, jobId), jobId) == []
  {
    if materials != [] {
      var prefix := materials[..|materials| - 1];
      LinesPartition(prefix, jobId);
      assert materials == prefix + [materials[|materials| - 1]];
    }
  }

  /**
   * `deleteJob`: the job's material lines are deleted first, whether or not the job exists;
   * then the job itself, 404 when there was none. The ledger is never refunded.
   */
  method DeleteJob(db: Database, id: int) returns (status: int)
    modifies db`jobs, db`materials
    ensures db.materials == WithoutJob(old(db.materials), id)
    ensures db.jobs == old(db.jobs) - {id}
    ensures status == if id in old(db.jobs) then OK else NOT_FOUND
    ensures db.filaments == old(db.filaments)
  {
    db.materials := WithoutJob(db.materials, id);
    var removed := id in db.jobs;
    db.jobs := db.jobs - {id};
    if !removed {
      return NOT_FOUND;
    }
    return OK;
  }

  // ---------------------------------------------------------------- updateQueueOrder

  /** One element of the reorder array: `null`, or an object with whatever `id`/`posicao` it has. */
  datatype ReorderEntry = NullEntry | Entry(id: JsInput, posicao: JsInput)

  /** The position an entry asks for, when both its id and its position normalise above 0. */
  function EntryTarget(e: ReorderEntry): (r: Option<(int, int)>)
    ensures r.Some? ==> r.value.0 > 0 && r.value.1 > 0
  {
    if e.NullEntry? then None
    else
      var id := NormalizeInteger(e.id, 0);
      var posicao := NormalizeInteger(e.posicao, 0);
      if id > 0 && posicao > 0 then Some((id, posicao)) else None
  }

  /** The effect of running the reorder statements for `entries`, in order. */
  function ApplyReorder(jobs: map<int, Job>, entries: seq<ReorderEntry>, now: int): (r: map<int, Job>)
    ensures r.Keys == jobs.Keys
  {
    if entries == [] then jobs
    else
      var before := ApplyReorder(jobs, entries[..|entries| - 1], now);
      var t := EntryTarget(entries[|entries| - 1]);
      if t.Some? && t.value.0 in before then
        before[t.value.0 := before[t.value.0].(posicao := t.value.1, updatedAt := now)]
      else before
  }

  /** The position the last valid entry for job `k` asks for, if any entry does. */
  function LastPosition(entries: seq<ReorderEntry>, k: int): (r: Option<int>)
    ensures r.Some? ==> r.value > 0
    ensures r.None? <==> forall i :: 0 <= i < |entries| ==> EntryTarget(entries[i]).None? || EntryTarget(entries[i]).value.0 != k
  {
    if entries == [] then None
    else
      var prefix := entries[..|entries| - 1];
      var t := EntryTarget(entries[|entries| - 1]);
      assert forall i :: 0 <= i < |prefix| ==> prefix[i] == entries[i];
      if t.Some? && t.value.0 == k then Some(t.value.1) else LastPosition(prefix, k)
  }

  /**
   * After a reorder each job named by a valid entry has the position of the last such entry;
   * every other job, including those only named by skipped entries, is unchanged.
   */
  lemma {:induction false} ReorderEffect(jobs: map<int, Job>, entries: seq<ReorderEntry>, now: int)
    ensures forall k :: k in jobs ==>
      ApplyReorder(jobs, entries, now)[k] ==
        if LastPosition(entries, k).Some? then jobs[k].(posicao := LastPosition(entries, k).value, updatedAt := now)
        else jobs[k]
  {
    if entries != [] {
      ReorderEffect(jobs, entries[..|entries| - 1], now);
    }
  }

  /**
   * `updateQueueOrder`: a body without a `jobs` array is refused with 400. Otherwise the
   * updates run in one transaction; a `null` entry throws inside it, which rolls every
   * update back and answers 400.
   */
  method UpdateQueueOrder(db: Database, body: Option<seq<ReorderEntry>>, now: int) returns (status: int)
    modifies db`jobs
    ensures body.None? ==> status == BAD_REQUEST && db.jobs == old(db.jobs)
    ensures body.Some? && NullEntry in body.value ==> status == BAD_REQUEST && db.jobs == old(db.jobs)
    ensures body.Some? && NullEntry !in body.value ==> status == OK && db.jobs == ApplyReorder(old(db.jobs), body.value, now)
  {
    if body.None? {
      return BAD_REQUEST;
    }
    var entries := body.value;
    var saved := db.jobs;
    for i := 0 to |entries|
      invariant db.jobs == ApplyReorder(saved, entries[..i], now)
      invariant NullEntry !in entries[..i]
    {
      assert entries[..i + 1][..i] == entries[..i];
      match entries[i]
      case NullEntry =>
        db.jobs := saved;
        return BAD_REQUEST;
      case Entry(rawId, rawPosicao) =>
        var jobId := NormalizeInteger(rawId, 0);
        var posicao := NormalizeInteger(rawPosicao, 0);
        if jobId > 0 && posicao > 0 && jobId in db.jobs {
          db.jobs := db.jobs[jobId := db.jobs[jobId].(posicao := posicao, updatedAt := now)];
        }
    }
    assert entries[..|entries|] == entries;
    return OK;
  }
}
