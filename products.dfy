/**
 * The product catalogue (`products` table): the price rule, the listing's filters, order and
 * pagination, creation and partial update under slug uniqueness, the view counter and
 * deletion with its cascade to `media`.
 */
module Products {
  import opened Wrappers
  import opened Text
  import opened Schema
  import opened Tables
  import opened Helpers
  import Sorting
  import MediaGallery

  // ---------------------------------------------------------------- price

  const PRICE_PER_GRAM_KEY: string := "precoPorGrama"

  /**
   * `getPrecoPorGrama`: the stored `precoPorGrama` read with `parseFloat` (given as
   * `parseNumber`, `None` standing for NaN), or 1.0 when there is no such row.
   */
  function PricePerGram(config: map<string, string>, parseNumber: string -> Option<real>): (r: Option<real>)
    ensures PRICE_PER_GRAM_KEY !in config ==> r == Some(1.0)
    ensures PRICE_PER_GRAM_KEY in config ==> r == parseNumber(config[PRICE_PER_GRAM_KEY])
  {
    if PRICE_PER_GRAM_KEY in config then parseNumber(config[PRICE_PER_GRAM_KEY]) else Some(1.0)
  }

  /**
   * `getProductPrice`: a positive stored `preco` wins; otherwise `peso * precoPorGrama`
   * (`calculatePrice`). `None` stands for NaN.
   */
  function ProductPrice(p: Product, perGram: Option<real>): (r: Option<real>)
    ensures p.preco.Some? && p.preco.value > 0.0 ==> r == p.preco
    ensures (p.preco.None? || p.preco.value <= 0.0) ==>
      r == if perGram.Some? then Some(p.peso * perGram.value) else None
  {
    if p.preco.Some? && p.preco.value > 0.0 then p.preco
    else if perGram.Some? then Some(p.peso * perGram.value)
    else None
  }

  /** A custom price does not depend on the price per gram. */
  lemma CustomPriceIgnoresRate(p: Product, g1: Option<real>, g2: Option<real>)
    requires p.preco.Some? && p.preco.value > 0.0
    ensures ProductPrice(p, g1) == ProductPrice(p, g2) == p.preco
  {
  }

  /** A product without a custom price, of non-negative weight, at a non-negative rate, costs at least 0. */
  lemma PriceNonNegative(p: Product, perGram: real)
    requires p.preco.None? || p.preco.value <= 0.0
    requires p.peso >= 0.0 && perGram >= 0.0
    ensures ProductPrice(p, Some(perGram)).Some? && ProductPrice(p, Some(perGram)).value >= 0.0
  {
  }

  // ---------------------------------------------------------------- listProducts

  /**
   * The query string of `GET /products`, after its defaults (page 1, limit 12, "" filters,
   * `createdAt`, `DESC`) are applied; `page` and `limit` are the `parseInt` results.
   */
  datatype ListQuery = ListQuery(
    page: int,
    limit: int,
    search: string,
    categoria: string,
    status: string,
    destaque: string,
    tags: string,
    orderBy: string,
    orderDir: string)

  /** `column LIKE '%needle%'`: SQLite's LIKE ignores ASCII case; NULL never matches. */
  predicate LikeAnywhere(column: Option<string>, needle: string) {
    column.Some? && Contains(ToLower(column.value), ToLower(needle))
  }

  /** The `WHERE` clause built from the query: each non-empty filter must hold. */
  predicate Matches(p: Product, q: ListQuery) {
    && (q.search == "" || LikeAnywhere(Some(p.nome), q.search)
        || LikeAnywhere(p.descricaoCurta, q.search) || LikeAnywhere(p.descricaoCompleta, q.search))
    && (q.categoria == "" || LikeAnywhere(Some(p.categorias), "\"" + q.categoria + "\""))
    && (q.status == "" || p.status == q.status)
    && (q.destaque != "true" || p.destaque == 1)
    && (q.tags == "" || LikeAnywhere(Some(p.tags), "\"" + q.tags + "\""))
  }

  /** The products the listing and its count both select. */
  function MatchingProducts(products: map<int, Product>, q: ListQuery): (r: map<int, Product>)
    ensures forall k :: k in r <==> k in products && Matches(products[k], q)
    ensures forall k :: k in r ==> r[k] == products[k]
  {
    map k | k in products && Matches(products[k], q) :: products[k]
  }

  const VALID_ORDER_BY: seq<string> := ["createdAt", "nome", "peso", "views"]

  /** An `orderBy` outside the allowed columns becomes `createdAt`. */
  function OrderByField(orderBy: string): (r: string)
    ensures r in VALID_ORDER_BY
    ensures orderBy in VALID_ORDER_BY ==> r == orderBy
    ensures orderBy !in VALID_ORDER_BY ==> r == "createdAt"
  {
    if orderBy in VALID_ORDER_BY then orderBy else "createdAt"
  }

  /** `orderDir.toUpperCase() === 'ASC'`; anything else sorts descending. */
  function IsAscending(orderDir: string): (r: bool) {
    ToUpper(orderDir) == "ASC"
  }

  /** Exactly the three-letter spellings of `asc`, in any ASCII case, sort ascending. */
  lemma AscendingSpellings(orderDir: string)
    ensures IsAscending(orderDir) <==>
      |orderDir| == 3 && orderDir[0] in "aA" && orderDir[1] in "sS" && orderDir[2] in "cC"
  {
    if IsAscending(orderDir) {
      assert ToUpper(orderDir)[0] == 'A' && ToUpper(orderDir)[1] == 'S' && ToUpper(orderDir)[2] == 'C';
    }
    if |orderDir| == 3 && orderDir[0] in "aA" && orderDir[1] in "sS" && orderDir[2] in "cC" {
      assert ToUpper(orderDir) == "ASC";
    }
  }

  /** The column order `ORDER BY field` uses, ascending. */
  predicate FieldLe(field: string, a: Product, b: Product) {
    if field == "nome" then TextLe(a.nome, b.nome)
    else if field == "peso" then a.peso <= b.peso
    else if field == "views" then a.views <= b.views
    else a.createdAt <= b.createdAt
  }

  /** `ORDER BY field ASC|DESC` as an order on rows. */
  function ProductOrder(field: string, ascending: bool): ((int, Product), (int, Product)) -> bool {
    (a: (int, Product), b: (int, Product)) =>
      if ascending then FieldLe(field, a.1, b.1) else FieldLe(field, b.1, a.1)
  }

  lemma {:induction false} FieldLeTotalPreorder(field: string)
    ensures forall a, b :: FieldLe(field, a, b) || FieldLe(field, b, a)
    ensures forall a, b, c :: FieldLe(field, a, b) && FieldLe(field, b, c) ==> FieldLe(field, a, c)
  {
    forall a, b
      ensures FieldLe(field, a, b) || FieldLe(field, b, a)
    {
      TextLeTotal(a.nome, b.nome);
    }
    forall a, b, c | FieldLe(field, a, b) && FieldLe(field, b, c)
      ensures FieldLe(field, a, c)
    {
      if field == "nome" {
        TextLeTransitive(a.nome, b.nome, c.nome);
      }
    }
  }

  /** Every accepted `ORDER BY` is a total preorder, so the listing is sorted by it. */
  lemma ProductOrderIsTotalPreorder(field: string, ascending: bool)
    ensures Sorting.TotalPreorder(ProductOrder(field, ascending))
  {
    FieldLeTotalPreorder(field);
  }

  /** `(parseInt(page) - 1) * parseInt(limit)`. */
  function Offset(page: int, limit: int): int {
    (page - 1) * limit
  }

  /**
   * `Math.ceil(total / limit)`; `None` where JavaScript gives a non-finite value (a zero
   * limit), which the JSON response shows as `null`.
   */
  function TotalPages(total: nat, limit: int): (r: Option<int>)
    ensures r.None? <==> limit == 0
    ensures limit > 0 ==> r.Some? && r.value * limit >= total && (r.value - 1) * limit < total
    ensures limit < 0 ==> r.Some? && r.value * limit <= total && (r.value - 1) * limit > total
  {
    if limit == 0 then None
    else if limit > 0 then
      var q := (total + limit - 1) / limit;
      CeilingAbove(total, limit);
      Some(q)
    else
      var q := total / -limit;
      FloorBelow(total, -limit);
      Some(-q)
  }

  lemma CeilingAbove(total: nat, limit: int)
    requires limit > 0
    ensures ((total + limit - 1) / limit) * limit >= total
    ensures ((total + limit - 1) / limit - 1) * limit < total
  {
    var n := total + limit - 1;
    var q := n / limit;
    var m := n % limit;
    assert n == q * limit + m && 0 <= m < limit;
    assert (q - 1) * limit == q * limit - limit;
  }

  lemma FloorBelow(total: nat, l: int)
    requires l > 0
    ensures (-(total / l)) * -l <= total
    ensures (-(total / l) - 1) * -l > total
  {
    var q := total / l;
    var m := total % l;
    assert total == q * l + m && 0 <= m < l;
    assert (-q) * -l == q * l;
    assert (-q - 1) * -l == q * l + l;
  }

  /** `LIMIT limit OFFSET offset`: a negative offset counts as 0 and a negative limit as no limit. */
  function Window<T>(rows: seq<T>, limit: int, offset: int): (r: seq<T>)
    ensures var start := if offset < 0 then 0 else if offset > |rows| then |rows| else offset;
      && |r| == (if limit < 0 || start + limit > |rows| then |rows| - start else limit)
      && (forall i :: 0 <= i < |r| ==> r[i] == rows[start + i])
  {
    var start := if offset < 0 then 0 else if offset > |rows| then |rows| else offset;
    var end := if limit < 0 || start + limit > |rows| then |rows| else start + limit;
    rows[start..end]
  }

  /**
   * One product of a response: the stored row (whose own `preco` is what `getProductById`
   * also answers as `precoOriginal`), the price the price rule gives, and the product's media
   * rows.
   */
  datatype ProductView = ProductView(id: int, product: Product, price: Option<real>, media: seq<(int, Media)>)

  function ViewOf(id: int, p: Product, perGram: Option<real>, media: seq<(int, Media)>): (v: ProductView)
    ensures v.id == id && v.product == p && v.price == ProductPrice(p, perGram) && v.media == media
  {
    ProductView(id, p, ProductPrice(p, perGram), media)
  }

  /** A product of a response together with its media rows. */
  method ViewWithMedia(db: Database, id: int, p: Product, perGram: Option<real>) returns (v: ProductView)
    ensures v == ViewOf(id, p, perGram, v.media)
    ensures MediaGallery.MediaListing(v.media, db.media, id)
  {
    var rows := MediaGallery.ListMedia(db.media, id);
    v := ViewOf(id, p, perGram, rows);
  }

  /** The body `listProducts` answers with. */
  datatype ProductPage = ProductPage(products: seq<ProductView>, page: int, limit: int, total: int, totalPages: Option<int>)

  /**
   * `listProducts`: the matching products in the requested order, cut to the requested page,
   * each priced and carrying its media; `total` counts every matching product.
   */
  method ListProducts(db: Database, q: ListQuery, parseNumber: string -> Option<real>) returns (result: ProductPage)
    ensures var matching := MatchingProducts(db.products, q);
      && result.total == |matching|
      && result.totalPages == TotalPages(|matching|, q.limit)
      && result.page == q.page && result.limit == q.limit
    ensures var matching := MatchingProducts(db.products, q);
      var offset := Offset(q.page, q.limit);
      var start := if offset < 0 then 0 else if offset > |matching| then |matching| else offset;
      && |result.products| == (if q.limit < 0 || start + q.limit > |matching| then |matching| - start else q.limit)
      && exists sorted :: SortedMatches(sorted, db.products, q) && PageOf(result.products, sorted, start)
    ensures forall i :: 0 <= i < |result.products| ==>
      && result.products[i].id in db.products && Matches(db.products[result.products[i].id], q)
      && result.products[i] == ViewOf(result.products[i].id, db.products[result.products[i].id],
           PricePerGram(db.config, parseNumber), result.products[i].media)
      && MediaGallery.MediaListing(result.products[i].media, db.media, result.products[i].id)
    ensures forall i, j :: 0 <= i < j < |result.products| ==> result.products[i].id != result.products[j].id
    ensures forall i, j :: 0 <= i < j < |result.products| ==>
      ProductOrder(OrderByField(q.orderBy), IsAscending(q.orderDir))(
        (result.products[i].id, result.products[i].product), (result.products[j].id, result.products[j].product))
  {
    var matching := MatchingProducts(db.products, q);
    var le := ProductOrder(OrderByField(q.orderBy), IsAscending(q.orderDir));
    var sorted := OrderedRows(matching, le);
    assert Sorting.SortedBy(sorted, le) by {
      ProductOrderIsTotalPreorder(OrderByField(q.orderBy), IsAscending(q.orderDir));
    }
    var rows := Window(sorted, q.limit, Offset(q.page, q.limit));
    var perGram := PricePerGram(db.config, parseNumber);
    var views := ViewsWithMedia(db, rows, perGram);
    PageOfSortedRows(sorted, rows, views, matching, db.products, q, perGram, Offset(q.page, q.limit));
    var offset := Offset(q.page, q.limit);
    var start := if offset < 0 then 0 else if offset > |matching| then |matching| else offset;
    assert SortedMatches(sorted, db.products, q) && PageOf(views, sorted, start);
    result := ProductPage(views, q.page, q.limit, |matching|, TotalPages(|matching|, q.limit));
  }

  /** The response rows of `products.map(...)`: each row priced and given its media. */
  method ViewsWithMedia(db: Database, rows: seq<(int, Product)>, perGram: Option<real>) returns (views: seq<ProductView>)
    ensures |views| == |rows|
    ensures forall j :: 0 <= j < |rows| ==> views[j] == ViewOf(rows[j].0, rows[j].1, perGram, views[j].media)
    ensures forall j :: 0 <= j < |rows| ==> MediaGallery.MediaListing(views[j].media, db.media, views[j].id)
  {
    views := [];
    for i := 0 to |rows|
      invariant |views| == i
      invariant forall j :: 0 <= j < i ==> views[j] == ViewOf(rows[j].0, rows[j].1, perGram, views[j].media)
      invariant forall j :: 0 <= j < i ==> MediaGallery.MediaListing(views[j].media, db.media, views[j].id)
    {
      var v := ViewWithMedia(db, rows[i].0, rows[i].1, perGram);
      views := views + [v];
    }
  }

  /** `sorted` lists every product matching `q` once, in the requested order. */
  predicate SortedMatches(sorted: seq<(int, Product)>, products: map<int, Product>, q: ListQuery) {
    && Enumerates(sorted, MatchingProducts(products, q))
    && Sorting.SortedBy(sorted, ProductOrder(OrderByField(q.orderBy), IsAscending(q.orderDir)))
  }

  /** The page shows the rows of `sorted` from `start` on, one for one. */
  predicate PageOf(views: seq<ProductView>, sorted: seq<(int, Product)>, start: int) {
    && 0 <= start && start + |views| <= |sorted|
    && forall i :: 0 <= i < |views| ==> (views[i].id, views[i].product) == sorted[start + i]
  }

  /**
   * The page is the window of the sorted matches from the clamped offset on: row `i` is the
   * sorted match at `start + i`, a matching product priced, and the rows are distinct and in
   * the requested order.
   */
  lemma PageOfSortedRows(sorted: seq<(int, Product)>, rows: seq<(int, Product)>, views: seq<ProductView>,
                         matching: map<int, Product>, products: map<int, Product>, q: ListQuery,
                         perGram: Option<real>, offset: int)
    requires Enumerates(sorted, matching)
    requires Sorting.SortedBy(sorted, ProductOrder(OrderByField(q.orderBy), IsAscending(q.orderDir)))
    requires matching == MatchingProducts(products, q)
    requires rows == Window(sorted, q.limit, offset)
    requires |views| == |rows| && forall i :: 0 <= i < |rows| ==> views[i] == ViewOf(rows[i].0, rows[i].1, perGram, views[i].media)
    ensures var start := if offset < 0 then 0 else if offset > |sorted| then |sorted| else offset;
      PageOf(views, sorted, start)
    ensures SortedMatches(sorted, products, q)
    ensures forall i :: 0 <= i < |views| ==>
      && views[i].id in products && Matches(products[views[i].id], q)
      && views[i] == ViewOf(views[i].id, products[views[i].id], perGram, views[i].media)
    ensures forall i, j :: 0 <= i < j < |views| ==> views[i].id != views[j].id
    ensures forall i, j :: 0 <= i < j < |views| ==>
      ProductOrder(OrderByField(q.orderBy), IsAscending(q.orderDir))((views[i].id, views[i].product), (views[j].id, views[j].product))
  {
    var start := if offset < 0 then 0 else if offset > |sorted| then |sorted| else offset;
    assert start + |rows| <= |sorted| && forall i :: 0 <= i < |rows| ==> rows[i] == sorted[start + i];
    ViewsFollowRows(sorted, rows, views, perGram, start);
    WindowRowsMatch(sorted, views, matching, products, q, perGram, start);
    WindowRowsOrdered(sorted, views, ProductOrder(OrderByField(q.orderBy), IsAscending(q.orderDir)), start);
  }

  /** Views made one for one from the rows of `sorted` from `start` on show those rows. */
  lemma ViewsFollowRows(sorted: seq<(int, Product)>, rows: seq<(int, Product)>, views: seq<ProductView>,
                        perGram: Option<real>, start: int)
    requires 0 <= start && start + |rows| <= |sorted| && forall i :: 0 <= i < |rows| ==> rows[i] == sorted[start + i]
    requires |views| == |rows| && forall i :: 0 <= i < |rows| ==> views[i] == ViewOf(rows[i].0, rows[i].1, perGram, views[i].media)
    ensures forall i :: 0 <= i < |views| ==> views[i].id == sorted[start + i].0 && views[i].product == sorted[start + i].1
  {
    forall i | 0 <= i < |views|
      ensures views[i].id == sorted[start + i].0 && views[i].product == sorted[start + i].1
    {
      assert views[i] == ViewOf(rows[i].0, rows[i].1, perGram, views[i].media);
    }
  }

  /** Every row of a window over the matching products is a matching product, priced. */
  lemma WindowRowsMatch(sorted: seq<(int, Product)>, views: seq<ProductView>,
                        matching: map<int, Product>, products: map<int, Product>, q: ListQuery,
                        perGram: Option<real>, start: int)
    requires forall i :: 0 <= i < |sorted| ==> sorted[i].0 in matching && matching[sorted[i].0] == sorted[i].1
    requires matching == MatchingProducts(products, q)
    requires 0 <= start && start + |views| <= |sorted|
    requires forall i :: 0 <= i < |views| ==>
      views[i].id == sorted[start + i].0 && views[i].product == sorted[start + i].1 &&
      views[i] == ViewOf(views[i].id, views[i].product, perGram, views[i].media)
    ensures forall i :: 0 <= i < |views| ==>
      && views[i].id in products && Matches(products[views[i].id], q)
      && views[i] == ViewOf(views[i].id, products[views[i].id], perGram, views[i].media)
  {
    forall i | 0 <= i < |views|
      ensures views[i].id in products && Matches(products[views[i].id], q)
      ensures views[i] == ViewOf(views[i].id, products[views[i].id], perGram, views[i].media)
    {
      var k := sorted[start + i].0;
      assert k in matching && matching[k] == sorted[start + i].1;
    }
  }

  /** A window over distinct rows sorted by `le` is distinct and sorted by `le`. */
  lemma WindowRowsOrdered(sorted: seq<(int, Product)>, views: seq<ProductView>,
                          le: ((int, Product), (int, Product)) -> bool, start: int)
    requires forall i, j :: 0 <= i < j < |sorted| ==> sorted[i].0 != sorted[j].0
    requires Sorting.SortedBy(sorted, le)
    requires 0 <= start && start + |views| <= |sorted|
    requires forall i :: 0 <= i < |views| ==>
      views[i].id == sorted[start + i].0 && views[i].product == sorted[start + i].1
    ensures forall i, j :: 0 <= i < j < |views| ==> views[i].id != views[j].id
    ensures forall i, j :: 0 <= i < j < |views| ==>
      le((views[i].id, views[i].product), (views[j].id, views[j].product))
  {
    forall i, j | 0 <= i < j < |views|
      ensures views[i].id != views[j].id
      ensures le((views[i].id, views[i].product), (views[j].id, views[j].product))
    {
      assert sorted[start + i] == (views[i].id, views[i].product);
      assert sorted[start + j] == (views[j].id, views[j].product);
    }
  }

  // ---------------------------------------------------------------- getProductById / getProductBySlug

  /**
   * `getProductById`: the priced product with its media, or `None` (404) for an unknown id.
   * Its `precoOriginal` is the stored `preco` the view keeps in `product`.
   */
  method GetProductById(db: Database, id: int, parseNumber: string -> Option<real>) returns (r: Option<ProductView>)
    ensures r.None? <==> id !in db.products
    ensures r.Some? ==>
      && r.value == ViewOf(id, db.products[id], PricePerGram(db.config, parseNumber), r.value.media)
      && r.value.product.preco == db.products[id].preco
      && MediaGallery.MediaListing(r.value.media, db.media, id)
  {
    if id !in db.products {
      return None;
    }
    var v := ViewWithMedia(db, id, db.products[id], PricePerGram(db.config, parseNumber));
    r := Some(v);
  }

  /** Some product has this slug. */
  predicate SlugInUse(products: map<int, Product>, slug: string) {
    exists k :: k in products && products[k].slug == slug
  }

  /** A product other than `id` has this slug. */
  predicate SlugTakenByOther(products: map<int, Product>, id: int, slug: string) {
    SlugInUse(products - {id}, slug)
  }

  /**
   * `getProductBySlug`: 404 for an unknown slug; otherwise the product's `views` grows by
   * exactly one. The response shows the row as it was read, before the increment.
   */
  method GetProductBySlug(db: Database, slug: string, parseNumber: string -> Option<real>)
    returns (status: int, view: Option<ProductView>)
    modifies db`products
    ensures !SlugInUse(old(db.products), slug) ==>
      status == NOT_FOUND && view.None? && db.products == old(db.products)
    ensures SlugInUse(old(db.products), slug) ==>
      && status == OK && view.Some?
      && var id := view.value.id;
         && id in old(db.products) && old(db.products)[id].slug == slug
         && view.value == ViewOf(id, old(db.products)[id], PricePerGram(db.config, parseNumber), view.value.media)
         && MediaGallery.MediaListing(view.value.media, db.media, id)
         && db.products == old(db.products)[id := old(db.products)[id].(views := old(db.products)[id].views + 1)]
  {
    var found := Find(db.products, (p: Product) => p.slug == slug);
    if found.None? {
      return NOT_FOUND, None;
    }
    var id := found.value;
    var product := db.products[id];
    db.products := db.products[id := product.(views := product.views + 1)];
    var v := ViewWithMedia(db, id, product, PricePerGram(db.config, parseNumber));
    return OK, Some(v);
  }

  /** The product holding this slug, found by `SELECT id FROM products WHERE slug = ?`. */
  method SlugOwner(products: map<int, Product>, slug: string) returns (k: Option<int>)
    ensures k.None? <==> !SlugInUse(products, slug)
    ensures k.Some? ==> k.value in products && products[k.value].slug == slug
  {
    k := Find(products, (p: Product) => p.slug == slug);
    if k.None? {
      forall i | i in products
        ensures products[i].slug != slug
      {
        assert !(((p: Product) => p.slug == slug)(products[i]));
      }
    }
  }

  /** Writing row `id` with a slug no other product holds keeps slugs unique. */
  lemma {:induction false} SlugWriteKeepsUnique(products: map<int, Product>, id: int, p: Product)
    requires ProductSlugsUnique(products)
    requires !SlugTakenByOther(products, id, p.slug)
    ensures ProductSlugsUnique(products[id := p])
  {
    var next := products[id := p];
    forall a, b | a in next && b in next && a != b
      ensures next[a].slug != next[b].slug
    {
      if a == id {
        assert b in products - {id};
      } else if b == id {
        assert a in products - {id};
      }
    }
  }

  /** Under unique slugs, the product `getProductBySlug` counts is the only one with that slug. */
  lemma SlugNamesOneProduct(products: map<int, Product>, slug: string, a: int, b: int)
    requires ProductSlugsUnique(products)
    requires a in products && b in products && products[a].slug == slug && products[b].slug == slug
    ensures a == b
  {
  }

  // ---------------------------------------------------------------- createProduct

  /** `x || null` on a text column. */
  function OrNullText(s: string): (r: Option<string>)
    ensures r.None? <==> s == ""
    ensures r.Some? ==> r.value == s
  {
    if s == "" then None else Some(s)
  }

  /**
   * The body of `POST /products`. Text fields are "" when missing or falsy; `nome` and `peso`
   * are `None` when missing; the dimension and price fields hold `parseFloat` of a truthy
   * value and `None` otherwise; the list fields hold their `JSON.stringify` text (`[]` by
   * default); `status` is `Unset` when missing.
   */
  datatype CreateProductRequest = CreateProductRequest(
    nome: Option<string>,
    slug: string,
    descricaoCurta: string,
    descricaoCompleta: string,
    peso: Option<real>,
    altura: Option<real>,
    largura: Option<real>,
    profundidade: Option<real>,
    material: string,
    cor: string,
    preco: Option<real>,
    categorias: string,
    tags: string,
    status: Field<string>,
    destaque: bool,
    linkMercadoLivre: string,
    mensagemWhatsAppTemplate: string,
    historiaTitulo: string,
    historiaTexto: string,
    historiaMidia: string)

  const DEFAULT_PRODUCT_STATUS: string := "PRONTA_ENTREGA"

  /** `slug || slugify(nome)`. */
  function CreateSlug(slug: string, nome: string): (r: string)
    ensures slug != "" ==> r == slug
    ensures slug == "" ==> r == Slugify(nome) && IsSlug(r)
  {
    if slug != "" then slug else Slugify(nome)
  }

  /** The row `createProduct` inserts, with no views yet. */
  function NewProduct(req: CreateProductRequest, nome: string, peso: real, slug: string, now: int): (p: Product)
    ensures p.nome == nome && p.slug == slug && p.peso == peso && p.views == 0
    ensures p.status == if req.status.Set? then req.status.value else DEFAULT_PRODUCT_STATUS
    ensures p.destaque == if req.destaque then 1 else 0
    ensures p.preco == req.preco && p.descricaoCurta == OrNullText(req.descricaoCurta)
    ensures p.createdAt == now && p.updatedAt == now && p.stlLink.None?
  {
    Product(
      nome, slug, OrNullText(req.descricaoCurta), OrNullText(req.descricaoCompleta), peso,
      req.altura, req.largura, req.profundidade, OrNullText(req.material), OrNullText(req.cor), req.preco,
      req.categorias, req.tags,
      if req.status.Set? then req.status.value else DEFAULT_PRODUCT_STATUS,
      if req.destaque then 1 else 0,
      OrNullText(req.linkMercadoLivre), OrNullText(req.mensagemWhatsAppTemplate),
      OrNullText(req.historiaTitulo), OrNullText(req.historiaTexto), req.historiaMidia,
      None, 0, now, now)
  }

  /**
   * `createProduct`: 500 when there is no `nome` to slugify or to store, or no `peso`; 400
   * when the slug (given, or derived from `nome`) is already in use; otherwise 201 and one
   * new row. Slugs stay unique.
   */
  method CreateProduct(db: Database, req: CreateProductRequest, now: int) returns (status: int, id: Option<int>)
    modifies db`products
    ensures req.slug == "" && req.nome.None? ==> status == SERVER_ERROR
    ensures !(req.slug == "" && req.nome.None?) ==>
      var slug := CreateSlug(req.slug, req.nome.GetOr(""));
      if SlugInUse(old(db.products), slug) then status == BAD_REQUEST
      else if req.nome.None? || req.peso.None? then status == SERVER_ERROR
      else status == CREATED
    ensures status != CREATED ==> id.None? && db.products == old(db.products)
    ensures status == CREATED ==>
      && req.nome.Some? && req.peso.Some?
      && id.Some? && id.value !in old(db.products)
      && db.products == old(db.products)[id.value :=
           NewProduct(req, req.nome.value, req.peso.value, CreateSlug(req.slug, req.nome.value), now)]
    ensures ProductSlugsUnique(old(db.products)) ==> ProductSlugsUnique(db.products)
  {
    if req.slug == "" && req.nome.None? {
      return SERVER_ERROR, None;
    }
    var slug := CreateSlug(req.slug, req.nome.GetOr(""));
    var existing := SlugOwner(db.products, slug);
    if existing.Some? {
      return BAD_REQUEST, None;
    }
    if req.nome.None? || req.peso.None? {
      return SERVER_ERROR, None;
    }
    var newId := NextRowId(db.products.Keys);
    var row := NewProduct(req, req.nome.value, req.peso.value, slug, now);
    if ProductSlugsUnique(db.products) {
      assert db.products - {newId} == db.products;
      SlugWriteKeepsUnique(db.products, newId, row);
    }
    db.products := db.products[newId := row];
    return CREATED, Some(newId);
  }

  // ---------------------------------------------------------------- updateProduct

  /**
   * The body of `PUT /products/:id`: `Unset` for a field absent from the body. Every column
   * carries the value to bind (`None` for NULL), so `nome` and `peso`, which are NOT NULL, can
   * be sent as `null` too; the dimension fields are already
   * `x ? parseFloat(x) : null` and `preco` already `null` for "", null or NaN; `material`
   * and `cor` are "" when falsy; the list fields hold their `JSON.stringify` text.
   */
  datatype UpdateProductRequest = UpdateProductRequest(
    nome: Field<Option<string>>,
    slug: Field<string>,
    descricaoCurta: Field<Option<string>>,
    descricaoCompleta: Field<Option<string>>,
    peso: Field<Option<real>>,
    altura: Field<Option<real>>,
    largura: Field<Option<real>>,
    profundidade: Field<Option<real>>,
    material: Field<string>,
    cor: Field<string>,
    preco: Field<Option<real>>,
    categorias: Field<string>,
    tags: Field<string>,
    status: Field<string>,
    destaque: Field<bool>,
    linkMercadoLivre: Field<Option<string>>,
    mensagemWhatsAppTemplate: Field<Option<string>>,
    historiaTitulo: Field<Option<string>>,
    historiaTexto: Field<Option<string>>,
    historiaMidia: Field<string>)

  /** A field that is `Set` replaces the stored value. */
  function Overwrite<T>(f: Field<T>, stored: T): (r: T)
    ensures f.Set? ==> r == f.value
    ensures f.Unset? ==> r == stored
  {
    if f.Set? then f.value else stored
  }

  /** A NOT NULL column given a non-null value gets it; otherwise it keeps `stored`. */
  function Written<T>(f: Field<Option<T>>, stored: T): (r: T)
    ensures f.Set? && f.value.Some? ==> r == f.value.value
    ensures f.Unset? ==> r == stored
  {
    if f.Set? && f.value.Some? then f.value.value else stored
  }

  /** The body sends `null` for a NOT NULL column, so the UPDATE fails its constraint. */
  predicate WritesNull(req: UpdateProductRequest) {
    (req.nome.Set? && req.nome.value.None?) || (req.peso.Set? && req.peso.value.None?)
  }

  /** `nome` as a JavaScript truth value picks it: the name when one was sent and is not "". */
  function GivenName(req: UpdateProductRequest): string {
    if req.nome.Set? && req.nome.value.Some? then req.nome.value.value else ""
  }

  /** The body sets at least one column, so the UPDATE runs. */
  predicate AnyField(req: UpdateProductRequest) {
    || req.nome.Set? || req.slug.Set? || req.descricaoCurta.Set? || req.descricaoCompleta.Set?
    || req.peso.Set? || req.altura.Set? || req.largura.Set? || req.profundidade.Set?
    || req.material.Set? || req.cor.Set? || req.preco.Set? || req.categorias.Set? || req.tags.Set?
    || req.status.Set? || req.destaque.Set? || req.linkMercadoLivre.Set?
    || req.mensagemWhatsAppTemplate.Set? || req.historiaTitulo.Set? || req.historiaTexto.Set?
    || req.historiaMidia.Set?
  }

  /** A truthy `slug` in the body: the only case in which conflicts are checked. */
  predicate SlugGiven(req: UpdateProductRequest) {
    req.slug.Set? && req.slug.value != ""
  }

  /** `slug || slugify(nome || product.nome)`. */
  function UpdateSlug(req: UpdateProductRequest, stored: Product): (r: string)
    ensures SlugGiven(req) ==> r == req.slug.value
    ensures !SlugGiven(req) ==> IsSlug(r)
  {
    if SlugGiven(req) then req.slug.value
    else Slugify(if GivenName(req) != "" then GivenName(req) else stored.nome)
  }

  /**
   * The row the UPDATE writes: only supplied columns change; the slug whenever `nome` or
   * `slug` is supplied. (A `null` for `nome` or `peso` never gets written: the UPDATE fails.)
   */
  function UpdatedProduct(p: Product, req: UpdateProductRequest, now: int): (r: Product)
    ensures r.nome == Written(req.nome, p.nome)
    ensures r.slug == if req.slug.Set? || req.nome.Set? then UpdateSlug(req, p) else p.slug
    ensures r.peso == Written(req.peso, p.peso) && r.preco == Overwrite(req.preco, p.preco)
    ensures r.status == Overwrite(req.status, p.status)
    ensures r.destaque == if req.destaque.Set? then (if req.destaque.value then 1 else 0) else p.destaque
    ensures r.material == (if req.material.Set? then OrNullText(req.material.value) else p.material)
    ensures r.views == p.views && r.createdAt == p.createdAt && r.updatedAt == now
  {
    p.(nome := Written(req.nome, p.nome),
       slug := if req.slug.Set? || req.nome.Set? then UpdateSlug(req, p) else p.slug,
       descricaoCurta := Overwrite(req.descricaoCurta, p.descricaoCurta),
       descricaoCompleta := Overwrite(req.descricaoCompleta, p.descricaoCompleta),
       peso := Written(req.peso, p.peso),
       altura := Overwrite(req.altura, p.altura),
       largura := Overwrite(req.largura, p.largura),
       profundidade := Overwrite(req.profundidade, p.profundidade),
       material := if req.material.Set? then OrNullText(req.material.value) else p.material,
       cor := if req.cor.Set? then OrNullText(req.cor.value) else p.cor,
       preco := Overwrite(req.preco, p.preco),
       categorias := Overwrite(req.categorias, p.categorias),
       tags := Overwrite(req.tags, p.tags),
       status := Overwrite(req.status, p.status),
       destaque := if req.destaque.Set? then (if req.destaque.value then 1 else 0) else p.destaque,
       linkMercadoLivre := Overwrite(req.linkMercadoLivre, p.linkMercadoLivre),
       mensagemWhatsAppTemplate := Overwrite(req.mensagemWhatsAppTemplate, p.mensagemWhatsAppTemplate),
       historiaTitulo := Overwrite(req.historiaTitulo, p.historiaTitulo),
       historiaTexto := Overwrite(req.historiaTexto, p.historiaTexto),
       historiaMidia := Overwrite(req.historiaMidia, p.historiaMidia),
       updatedAt := now)
  }

  /** Resubmitting a product's own slug is never a conflict. */
  lemma OwnSlugNoConflict(products: map<int, Product>, id: int)
    requires id in products && ProductSlugsUnique(products)
    ensures !SlugTakenByOther(products, id, products[id].slug)
  {
  }

  /**
   * `updateProduct`: 404 for an unknown id; 400 when a truthy `slug` belongs to another
   * product; nothing written (200) when the body has no field; otherwise the row is
   * updated, except that a `null` for `nome` or `peso` violates its NOT NULL constraint, and
   * a rewritten slug colliding with another product (reachable by renaming without a `slug`)
   * violates the UNIQUE constraint: both answer 500 with nothing written.
   */
  method UpdateProduct(db: Database, id: int, req: UpdateProductRequest, now: int) returns (status: int)
    modifies db`products
    ensures id !in old(db.products) ==> status == NOT_FOUND && db.products == old(db.products)
    ensures id in old(db.products) ==>
      var p := old(db.products)[id];
      var next := UpdatedProduct(p, req, now);
      if SlugGiven(req) && SlugTakenByOther(old(db.products), id, req.slug.value) then
        status == BAD_REQUEST && db.products == old(db.products)
      else if !AnyField(req) then
        status == OK && db.products == old(db.products)
      else if WritesNull(req) || SlugTakenByOther(old(db.products), id, next.slug) then
        status == SERVER_ERROR && db.products == old(db.products)
      else
        status == OK && db.products == old(db.products)[id := next]
    ensures ProductSlugsUnique(old(db.products)) ==> ProductSlugsUnique(db.products)
  {
    if id !in db.products {
      return NOT_FOUND;
    }
    var p := db.products[id];
    var slug := UpdateSlug(req, p);
    if SlugGiven(req) {
      var existing := SlugOwner(db.products - {id}, slug);
      if existing.Some? {
        return BAD_REQUEST;
      }
    }
    if !AnyField(req) {
      return OK;
    }
    var next := UpdatedProduct(p, req, now);
    if WritesNull(req) {
      return SERVER_ERROR;
    }
    var clash := SlugOwner(db.products - {id}, next.slug);
    if clash.Some? {
      return SERVER_ERROR;
    }
    if ProductSlugsUnique(db.products) {
      SlugWriteKeepsUnique(db.products, id, next);
    }
    db.products := db.products[id := next];
    return OK;
  }

  /** Renaming a product to the name of another, without a `slug`, reaches the UNIQUE violation. */
  lemma RenameCollisionFails(products: map<int, Product>, id: int, other: int, req: UpdateProductRequest, now: int)
    requires id in products && other in products && id != other
    requires GivenName(req) != "" && req.slug.Unset?
    requires products[other].slug == Slugify(GivenName(req))
    ensures !SlugGiven(req) && AnyField(req)
    ensures SlugTakenByOther(products, id, UpdatedProduct(products[id], req, now).slug)
  {
    assert other in products - {id};
  }

  // ---------------------------------------------------------------- deleteProduct

  /** The media rows of other products: `ON DELETE CASCADE` removes the product's own. */
  function MediaWithoutProduct(media: map<int, Media>, produtoId: int): (r: map<int, Media>)
    ensures forall k :: k in r <==> k in media && media[k].produtoId != produtoId
    ensures forall k :: k in r ==> r[k] == media[k]
  {
    map k | k in media && media[k].produtoId != produtoId :: media[k]
  }

  /** `deleteProduct`: 404 for an unknown id; otherwise the row and, by cascade, its media go. */
  method DeleteProduct(db: Database, id: int) returns (status: int)
    modifies db`products, db`media
    ensures id !in old(db.products) ==>
      status == NOT_FOUND && db.products == old(db.products) && db.media == old(db.media)
    ensures id in old(db.products) ==>
      status == OK && db.products == old(db.products) - {id} && db.media == MediaWithoutProduct(old(db.media), id)
  {
    if id !in db.products {
      return NOT_FOUND;
    }
    db.products := db.products - {id};
    db.media := MediaWithoutProduct(db.media, id);
    return OK;
  }
}
