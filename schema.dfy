/**
 * The SQLite tables the controllers read and write, as in-memory maps keyed by row id.
 * Column shapes follow the controllers' own INSERT/UPDATE statements; nullable columns
 * are `Option`s and timestamps are clock values supplied by the caller.
 */
module Schema {
  import opened Wrappers

  /** A row of `print_jobs`. */
  datatype Job = Job(
    produtoId: int,
    filamentoId: Option<int>,
    quantidadeTotal: int,
    quantidadeImpressa: Option<int>,
    quantidadeFalha: Option<int>,
    prioridade: int,
    tempoEstimadoMinutos: Option<int>,
    posicao: int,
    clienteNome: Option<string>,
    clienteContato: Option<string>,
    etapaCliente: Option<string>,
    observacoes: Option<string>,
    identificador: Option<string>,
    status: string,
    dataInicio: Option<int>,
    dataConclusao: Option<int>,
    createdAt: int,
    updatedAt: int)

  /** A row of `print_job_materials`: grams of one filament used per printed piece of a job. */
  datatype Material = Material(printJobId: int, filamentoId: int, pesoGasto: real)

  /** A row of `filaments`; `pesoUsado` is the ledger the print queue writes. */
  datatype Filament = Filament(
    nome: string,
    cor: string,
    pesoTotal: real,
    pesoUsado: real,
    custoPorGrama: real,
    precoPago: Option<real>,
    pesoCarretel: Option<real>,
    quantidadeCarreteis: int,
    status: string,
    createdAt: int,
    updatedAt: int)

  /**
   * A row of `products`; the JSON list columns hold their stored text. `stlLink` is not in
   * the table's DDL, but the print queue reads it: it stands for that column where a database
   * has it (`None` for NULL).
   */
  datatype Product = Product(
    nome: string,
    slug: string,
    descricaoCurta: Option<string>,
    descricaoCompleta: Option<string>,
    peso: real,
    altura: Option<real>,
    largura: Option<real>,
    profundidade: Option<real>,
    material: Option<string>,
    cor: Option<string>,
    preco: Option<real>,
    categorias: string,
    tags: string,
    status: string,
    destaque: int,
    linkMercadoLivre: Option<string>,
    mensagemWhatsAppTemplate: Option<string>,
    historiaTitulo: Option<string>,
    historiaTexto: Option<string>,
    historiaMidia: string,
    stlLink: Option<string>,
    views: int,
    createdAt: int,
    updatedAt: int)

  /** A row of `categories`. */
  datatype Category = Category(nome: string, slug: string, icone: Option<string>, createdAt: int, updatedAt: int)

  /** A row of `media`: one image or video of a product, `isCapa` 1 for the cover. */
  datatype Media = Media(produtoId: int, url: string, tipo: string, ordem: int, isCapa: int, createdAt: int)

  /** A row of `users`; `password` holds the bcrypt hash. */
  datatype User = User(
    nome: Option<string>,
    email: string,
    password: string,
    isActive: Option<int>,
    createdAt: int,
    updatedAt: Option<int>)

  predicate ProductSlugsUnique(products: map<int, Product>) {
    forall a, b :: a in products && b in products && a != b ==> products[a].slug != products[b].slug
  }

  predicate CategorySlugsUnique(categories: map<int, Category>) {
    forall a, b :: a in categories && b in categories && a != b ==> categories[a].slug != categories[b].slug
  }

  predicate UserEmailsUnique(users: map<int, User>) {
    forall a, b :: a in users && b in users && a != b ==> users[a].email != users[b].email
  }

  /** The database file: one field per table, the `config` table keyed by its unique `chave`. */
  class Database {
    var jobs: map<int, Job>
    var materials: seq<Material>
    var filaments: map<int, Filament>
    var products: map<int, Product>
    var categories: map<int, Category>
    var media: map<int, Media>
    var users: map<int, User>
    var config: map<string, string>

    /** The UNIQUE constraints: SQLite refuses any statement that would break them. */
    ghost predicate Valid()
      reads this
    {
      && ProductSlugsUnique(products)
      && CategorySlugsUnique(categories)
      && UserEmailsUnique(users)
    }

    constructor ()
      ensures Valid()
      ensures jobs == map[] && materials == [] && filaments == map[] && products == map[]
      ensures categories == map[] && media == map[] && users == map[] && config == map[]
    {
      jobs := map[];
      materials := [];
      filaments := map[];
      products := map[];
      categories := map[];
      media := map[];
      users := map[];
      config := map[];
    }
  }

  /** `SELECT MAX(x)`: the largest value, or NULL (`None`) over no rows. */
  method Max(xs: set<int>) returns (m: Option<int>)
    ensures m.None? <==> xs == {}
    ensures m.Some? ==> m.value in xs && forall x :: x in xs ==> x <= m.value
  {
    m := None;
    var rest := xs;
    while |rest| > 0
      invariant rest <= xs
      invariant m.None? <==> rest == xs
      invariant m.Some? ==> m.value in xs && forall x :: x in xs && x !in rest ==> x <= m.value
      decreases |rest|
    {
      HasElement(rest);
      var x :| x in rest;
      if m.None? || m.value < x {
        m := Some(x);
      }
      rest := rest - {x};
    }
  }

  /** A set of ids with a positive size has a member to pick. */
  lemma HasElement(s: set<int>)
    requires |s| > 0
    ensures exists x :: x in s
  {
    if forall x :: x !in s {
      assert false;
    }
  }

  /** The rowid SQLite gives the next inserted row: one more than the largest id, 1 for an empty table. */
  method NextRowId(ids: set<int>) returns (id: int)
    ensures id >= 1 && id !in ids
    ensures forall k :: k in ids ==> k < id
  {
    var m := Max(ids);
    id := if m.Some? && m.value > 0 then m.value + 1 else 1;
  }

  /** The rows of a table, each once, in no particular order. */
  predicate Enumerates<V(==)>(rows: seq<(int, V)>, table: map<int, V>) {
    && (forall i :: 0 <= i < |rows| ==> rows[i].0 in table && table[rows[i].0] == rows[i].1)
    && (forall k :: k in table ==> exists i :: 0 <= i < |rows| && rows[i].0 == k)
    && (forall i, j :: 0 <= i < j < |rows| ==> rows[i].0 != rows[j].0)
  }

  /** `SELECT * FROM table` before any `ORDER BY`. */
  method Rows<V(==)>(table: map<int, V>) returns (rows: seq<(int, V)>)
    ensures Enumerates(rows, table)
    ensures |rows| == |table|
  {
    rows := [];
    var rest := table.Keys;
    while |rest| > 0
      invariant rest <= table.Keys
      invariant |rows| == |table.Keys| - |rest|
      invariant forall i :: 0 <= i < |rows| ==> rows[i].0 in table && rows[i].0 !in rest && table[rows[i].0] == rows[i].1
      invariant forall k :: k in table && k !in rest ==> exists i :: 0 <= i < |rows| && rows[i].0 == k
      invariant forall i, j :: 0 <= i < j < |rows| ==> rows[i].0 != rows[j].0
      decreases |rest|
    {
      HasElement(rest);
      var k :| k in rest;
      ghost var before := rows;
      rows := rows + [(k, table[k])];
      rest := rest - {k};
      forall k' | k' in table && k' !in rest
        ensures exists i :: 0 <= i < |rows| && rows[i].0 == k'
      {
        if k' == k {
          assert rows[|rows| - 1].0 == k';
        } else {
          var i :| 0 <= i < |before| && before[i].0 == k';
          assert rows[i].0 == k';
        }
      }
    }
  }
}
