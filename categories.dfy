/**
 * The product categories (`categories` table): the listing by name, lookup, and creation,
 * partial update and deletion under slug uniqueness.
 */
module Categories {
  import opened Wrappers
  import opened Text
  import opened Schema
  import opened Tables
  import opened Helpers
  import Sorting

  /** `ORDER BY nome`, compared as SQLite's BINARY collation does. */
  predicate NameOrder(a: (int, Category), b: (int, Category)) {
    TextLe(a.1.nome, b.1.nome)
  }

  lemma NameOrderIsTotalPreorder()
    ensures Sorting.TotalPreorder(NameOrder)
  {
    forall a: (int, Category), b: (int, Category)
      ensures NameOrder(a, b) || NameOrder(b, a)
    {
      TextLeTotal(a.1.nome, b.1.nome);
    }
    forall a: (int, Category), b: (int, Category), c: (int, Category) | NameOrder(a, b) && NameOrder(b, c)
      ensures NameOrder(a, c)
    {
      TextLeTransitive(a.1.nome, b.1.nome, c.1.nome);
    }
  }

  /** `listCategories`: every category once, in name order. */
  method ListCategories(db: Database) returns (rows: seq<(int, Category)>)
    ensures Enumerates(rows, db.categories)
    ensures |rows| == |db.categories|
    ensures forall i, j :: 0 <= i < j < |rows| ==> TextLe(rows[i].1.nome, rows[j].1.nome)
  {
    rows := OrderedRows(db.categories, NameOrder);
    NameOrderIsTotalPreorder();
    forall i, j | 0 <= i < j < |rows|
      ensures TextLe(rows[i].1.nome, rows[j].1.nome)
    {
      assert NameOrder(rows[i], rows[j]);
    }
  }

  /** `getCategory`: the row, or `None` (404) for an unknown id. */
  function GetCategory(categories: map<int, Category>, id: int): (r: Option<Category>)
    ensures r.None? <==> id !in categories
    ensures r.Some? ==> id in categories && r.value == categories[id]
  {
    if id in categories then Some(categories[id]) else None
  }

  /** Some category has this slug. */
  predicate SlugInUse(categories: map<int, Category>, slug: string) {
    exists k :: k in categories && categories[k].slug == slug
  }

  /** A category other than `id` has this slug. */
  predicate SlugTakenByOther(categories: map<int, Category>, id: int, slug: string) {
    SlugInUse(categories - {id}, slug)
  }

  /** `SELECT id FROM categories WHERE slug = ?`. */
  method SlugOwner(categories: map<int, Category>, slug: string) returns (k: Option<int>)
    ensures k.None? <==> !SlugInUse(categories, slug)
    ensures k.Some? ==> k.value in categories && categories[k.value].slug == slug
  {
    k := Find(categories, (c: Category) => c.slug == slug);
    if k.None? {
      forall i | i in categories
        ensures categories[i].slug != slug
      {
        assert !(((c: Category) => c.slug == slug)(categories[i]));
      }
    }
  }

  /** Writing row `id` with a slug no other category holds keeps slugs unique. */
  lemma {:induction false} SlugWriteKeepsUnique(categories: map<int, Category>, id: int, c: Category)
    requires CategorySlugsUnique(categories)
    requires !SlugTakenByOther(categories, id, c.slug)
    ensures CategorySlugsUnique(categories[id := c])
  {
    var next := categories[id := c];
    forall a, b | a in next && b in next && a != b
      ensures next[a].slug != next[b].slug
    {
      if a == id {
        assert b in categories - {id};
      } else if b == id {
        assert a in categories - {id};
      }
    }
  }

  /**
   * The body of `POST /categories`: `nome` is `None` when missing or null; `slug` and
   * `icone` are "" when missing or falsy.
   */
  datatype CreateCategoryRequest = CreateCategoryRequest(nome: Option<string>, slug: string, icone: string)

  /** `slug || slugify(nome)`; `None` where `slugify` throws on a missing `nome`. */
  function CategorySlug(slug: string, nome: Option<string>): (r: Option<string>)
    ensures slug != "" ==> r == Some(slug)
    ensures slug == "" && nome.None? ==> r.None?
    ensures slug == "" && nome.Some? ==> r == Some(Slugify(nome.value)) && IsSlug(r.value)
  {
    if slug != "" then Some(slug)
    else if nome.Some? then Some(Slugify(nome.value))
    else None
  }

  /**
   * `createCategory`: 500 when there is no slug and no name to derive one from; 400 when the
   * slug is in use; 500 when `nome` is missing (NOT NULL); otherwise 201 and one new row.
   */
  method CreateCategory(db: Database, req: CreateCategoryRequest, now: int) returns (status: int, id: Option<int>)
    modifies db`categories
    ensures CategorySlug(req.slug, req.nome).None? ==> status == SERVER_ERROR
    ensures CategorySlug(req.slug, req.nome).Some? ==>
      if SlugInUse(old(db.categories), CategorySlug(req.slug, req.nome).value) then status == BAD_REQUEST
      else if req.nome.None? then status == SERVER_ERROR
      else status == CREATED
    ensures status != CREATED ==> id.None? && db.categories == old(db.categories)
    ensures status == CREATED ==>
      && req.nome.Some? && id.Some? && id.value !in old(db.categories)
      && db.categories == old(db.categories)[id.value :=
           Category(req.nome.value, CategorySlug(req.slug, req.nome).value, if req.icone == "" then None else Some(req.icone), now, now)]
    ensures CategorySlugsUnique(old(db.categories)) ==> CategorySlugsUnique(db.categories)
  {
    var slug := CategorySlug(req.slug, req.nome);
    if slug.None? {
      return SERVER_ERROR, None;
    }
    var existing := SlugOwner(db.categories, slug.value);
    if existing.Some? {
      return BAD_REQUEST, None;
    }
    if req.nome.None? {
      return SERVER_ERROR, None;
    }
    var newId := NextRowId(db.categories.Keys);
    var row := Category(req.nome.value, slug.value, if req.icone == "" then None else Some(req.icone), now, now);
    if CategorySlugsUnique(db.categories) {
      assert db.categories - {newId} == db.categories;
      SlugWriteKeepsUnique(db.categories, newId, row);
    }
    db.categories := db.categories[newId := row];
    return CREATED, Some(newId);
  }

  /**
   * The body of `PUT /categories/:id`: `Unset` for a field absent from the body; `nome` and
   * `icone` carry the value to bind (`None` for `null`).
   */
  datatype UpdateCategoryRequest = UpdateCategoryRequest(nome: Field<Option<string>>, slug: Field<string>, icone: Field<Option<string>>)

  /** `nome` as a JavaScript truth value picks it: the name when one was sent and is not "". */
  function GivenName(req: UpdateCategoryRequest): string {
    if req.nome.Set? && req.nome.value.Some? then req.nome.value.value else ""
  }

  /** The body sends `null` for the NOT NULL `nome`, so the UPDATE fails its constraint. */
  predicate WritesNull(req: UpdateCategoryRequest) {
    req.nome.Set? && req.nome.value.None?
  }

  /** A truthy `slug` or `nome`: the only case in which conflicts are checked. */
  predicate ChecksSlug(req: UpdateCategoryRequest) {
    (req.slug.Set? && req.slug.value != "") || GivenName(req) != ""
  }

  /** `slug || slugify(nome || category.nome)`. */
  function UpdateSlug(req: UpdateCategoryRequest, stored: Category): (r: string)
    ensures req.slug.Set? && req.slug.value != "" ==> r == req.slug.value
    ensures !(req.slug.Set? && req.slug.value != "") ==> IsSlug(r)
  {
    if req.slug.Set? && req.slug.value != "" then req.slug.value
    else Slugify(if GivenName(req) != "" then GivenName(req) else stored.nome)
  }

  /**
   * The row the UPDATE writes: the slug is recomputed whenever `nome` or `slug` is supplied.
   * (A `null` name never gets written: the UPDATE fails.)
   */
  function UpdatedCategory(c: Category, req: UpdateCategoryRequest, now: int): (r: Category)
    ensures req.nome.Set? && req.nome.value.Some? ==> r.nome == req.nome.value.value
    ensures req.nome.Unset? ==> r.nome == c.nome
    ensures r.slug == (if req.nome.Set? || req.slug.Set? then UpdateSlug(req, c) else c.slug)
    ensures r.icone == (if req.icone.Set? then req.icone.value else c.icone)
    ensures r.createdAt == c.createdAt && r.updatedAt == now
  {
    c.(nome := if req.nome.Set? && req.nome.value.Some? then req.nome.value.value else c.nome,
       slug := if req.nome.Set? || req.slug.Set? then UpdateSlug(req, c) else c.slug,
       icone := if req.icone.Set? then req.icone.value else c.icone,
       updatedAt := now)
  }

  /**
   * `updateCategory`: 404 for an unknown id; 400 when a truthy `slug` or `nome` leads to a
   * slug another category holds; no write (200) when no field is supplied; otherwise the
   * update, which fails (500, nothing written) when `nome` is `null` (NOT NULL) or when a
   * falsy `nome`/`slug` still makes the slug collide with another category's (UNIQUE).
   */
  method UpdateCategory(db: Database, id: int, req: UpdateCategoryRequest, now: int) returns (status: int)
    modifies db`categories
    ensures id !in old(db.categories) ==> status == NOT_FOUND && db.categories == old(db.categories)
    ensures id in old(db.categories) ==>
      var c := old(db.categories)[id];
      var next := UpdatedCategory(c, req, now);
      if ChecksSlug(req) && SlugTakenByOther(old(db.categories), id, UpdateSlug(req, c)) then
        status == BAD_REQUEST && db.categories == old(db.categories)
      else if req.nome.Unset? && req.slug.Unset? && req.icone.Unset? then
        status == OK && db.categories == old(db.categories)
      else if WritesNull(req) || SlugTakenByOther(old(db.categories), id, next.slug) then
        status == SERVER_ERROR && db.categories == old(db.categories)
      else
        status == OK && db.categories == old(db.categories)[id := next]
    ensures CategorySlugsUnique(old(db.categories)) ==> CategorySlugsUnique(db.categories)
  {
    if id !in db.categories {
      return NOT_FOUND;
    }
    var c := db.categories[id];
    if ChecksSlug(req) {
      var existing := SlugOwner(db.categories - {id}, UpdateSlug(req, c));
      if existing.Some? {
        return BAD_REQUEST;
      }
    }
    if req.nome.Unset? && req.slug.Unset? && req.icone.Unset? {
      return OK;
    }
    var next := UpdatedCategory(c, req, now);
    if WritesNull(req) {
      return SERVER_ERROR;
    }
    var clash := SlugOwner(db.categories - {id}, next.slug);
    if clash.Some? {
      return SERVER_ERROR;
    }
    if CategorySlugsUnique(db.categories) {
      SlugWriteKeepsUnique(db.categories, id, next);
    }
    db.categories := db.categories[id := next];
    return OK;
  }

  /** Under unique slugs, resubmitting a category's own name or slug is never a conflict. */
  lemma OwnSlugNoConflict(categories: map<int, Category>, id: int)
    requires id in categories && CategorySlugsUnique(categories)
    ensures !SlugTakenByOther(categories, id, categories[id].slug)
  {
  }

  /**
   * Clearing the name (`nome: ""`) skips the conflict check but still rewrites the slug
   * from the stored name, which can collide with another category's slug.
   */
  lemma EmptyNameSkipsCheck(categories: map<int, Category>, id: int, other: int, now: int)
    requires id in categories && other in categories && id != other
    requires categories[other].slug == Slugify(categories[id].nome)
    ensures var req := UpdateCategoryRequest(Set(Some("")), Unset, Unset);
      && !ChecksSlug(req)
      && SlugTakenByOther(categories, id, UpdatedCategory(categories[id], req, now).slug)
  {
    var req := UpdateCategoryRequest(Set(Some("")), Unset, Unset);
    assert GivenName(req) == "";
    assert UpdatedCategory(categories[id], req, now).slug == Slugify(categories[id].nome);
    assert other in categories - {id};
  }

  /** `deleteCategory`: 404 for an unknown id; otherwise exactly that row goes. */
  method DeleteCategory(db: Database, id: int) returns (status: int)
    modifies db`categories
    ensures id !in old(db.categories) ==> status == NOT_FOUND && db.categories == old(db.categories)
    ensures id in old(db.categories) ==> status == OK && db.categories == old(db.categories) - {id}
  {
    if id !in db.categories {
      return NOT_FOUND;
    }
    db.categories := db.categories - {id};
    return OK;
  }
}
