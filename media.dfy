/**
 * The product gallery (`media` table): upload with its order and cover defaults, reordering,
 * choosing the cover and deletion. The uploaded file itself lives outside the model.
 */
module MediaGallery {
  import opened Wrappers
  import opened Schema
  import opened Tables
  import opened Helpers
  import Sorting

  /** The media rows of one product (`WHERE produtoId = ?`). */
  function ProductMedia(media: map<int, Media>, produtoId: int): (r: map<int, Media>)
    ensures forall k :: k in r <==> k in media && media[k].produtoId == produtoId
    ensures forall k :: k in r ==> r[k] == media[k]
  {
    map k | k in media && media[k].produtoId == produtoId :: media[k]
  }

  /** The `ordem` values of one product's media. */
  function Ordens(media: map<int, Media>, produtoId: int): (r: set<int>)
    ensures forall k :: k in media && media[k].produtoId == produtoId ==> media[k].ordem in r
    ensures forall o :: o in r ==> exists k :: k in media && media[k].produtoId == produtoId && media[k].ordem == o
  {
    set k | k in media && media[k].produtoId == produtoId :: media[k].ordem
  }

  /** The file multer stored: its generated name. */
  datatype UploadedFile = UploadedFile(filename: string)

  /** The URL a stored upload is served from. */
  function MediaUrl(baseUrl: string, filename: string): string {
    baseUrl + "/uploads/" + filename
  }

  /**
   * Where a new media row of the product goes: one past the largest `ordem` of its media
   * (0 for the first), and the cover exactly when it is the first.
   */
  predicate PlacedLast(media: map<int, Media>, produtoId: int, ordem: int, isCapa: int) {
    && (ProductMedia(media, produtoId) == map[] ==> ordem == 0)
    && (ProductMedia(media, produtoId) != map[] ==> ordem - 1 in Ordens(media, produtoId))
    && (forall k :: k in media && media[k].produtoId == produtoId ==> media[k].ordem < ordem)
    && (isCapa == 1 <==> ProductMedia(media, produtoId) == map[])
    && (isCapa == 0 <==> ProductMedia(media, produtoId) != map[])
  }

  /** The last `ordem` plus one (0 when there is none) and the first-media cover flag. */
  method Placement(media: map<int, Media>, produtoId: int) returns (ordem: int, isCapa: int)
    ensures PlacedLast(media, produtoId, ordem, isCapa)
  {
    var last := Max(Ordens(media, produtoId));
    ordem := if last.Some? then last.value + 1 else 0;
    var count := |ProductMedia(media, produtoId)|;
    isCapa := if count == 0 then 1 else 0;
    if ProductMedia(media, produtoId) == map[] {
      assert Ordens(media, produtoId) == {};
    } else {
      var k :| k in ProductMedia(media, produtoId);
      assert media[k].ordem in Ordens(media, produtoId);
    }
  }

  /** `after` is `before` with the row `row`, placed last among its product's media, added under `id`. */
  predicate MediaAppended(before: map<int, Media>, after: map<int, Media>, id: int, row: Media) {
    id !in before && PlacedLast(before, row.produtoId, row.ordem, row.isCapa) && after == before[id := row]
  }

  /**
   * `uploadMedia`: 400 without a file, 404 for an unknown product, in both cases with no row
   * written; otherwise 201 and one new row placed after the product's last media.
   * `baseUrl` stands for `BASE_URL` or the request's own origin.
   */
  method UploadMedia(db: Database, produtoId: int, file: Option<UploadedFile>, baseUrl: string, now: int)
    returns (status: int, id: Option<int>)
    modifies db`media
    ensures file.None? ==> status == BAD_REQUEST && id.None? && db.media == old(db.media)
    ensures file.Some? && produtoId !in db.products ==> status == NOT_FOUND && id.None? && db.media == old(db.media)
    ensures file.Some? && produtoId in db.products ==>
      && status == CREATED && id.Some? && id.value in db.media
      && MediaAppended(old(db.media), db.media, id.value, db.media[id.value])
      && db.media[id.value].produtoId == produtoId && db.media[id.value].createdAt == now
      && db.media[id.value].url == MediaUrl(baseUrl, file.value.filename)
      && db.media[id.value].tipo == GetMediaType(file.value.filename)
  {
    if file.None? {
      return BAD_REQUEST, None;
    }
    if produtoId !in db.products {
      return NOT_FOUND, None;
    }
    var newId, row := InsertMedia(db, produtoId, MediaUrl(baseUrl, file.value.filename), GetMediaType(file.value.filename), now);
    return CREATED, Some(newId);
  }

  /** The `INSERT INTO media` of `uploadMedia`, placed by `Placement`. */
  method InsertMedia(db: Database, produtoId: int, url: string, tipo: string, now: int) returns (newId: int, row: Media)
    modifies db`media
    ensures MediaAppended(old(db.media), db.media, newId, row)
    ensures row.produtoId == produtoId && row.url == url && row.tipo == tipo && row.createdAt == now
  {
    var ordem, isCapa := Placement(db.media, produtoId);
    newId := NextRowId(db.media.Keys);
    row := Media(produtoId, url, tipo, ordem, isCapa, now);
    db.media := db.media[newId := row];
  }

  /** The position of the last occurrence of `k` in `ids`. */
  function LastIndexOf(ids: seq<int>, k: int): (i: int)
    requires k in ids
    ensures 0 <= i < |ids| && ids[i] == k
    ensures forall j :: i < j < |ids| ==> ids[j] != k
  {
    if ids[|ids| - 1] == k then |ids| - 1 else LastIndexOf(ids[..|ids| - 1], k)
  }

  /** `UPDATE media SET ordem = ? WHERE id = ? AND produtoId = ?`: at most one row changes. */
  function SetOrdem(media: map<int, Media>, produtoId: int, mediaId: int, ordem: int): (r: map<int, Media>)
    ensures r.Keys == media.Keys
  {
    if mediaId in media && media[mediaId].produtoId == produtoId then media[mediaId := media[mediaId].(ordem := ordem)]
    else media
  }

  /** The table after the `forEach` over `mediaIds`: one `SetOrdem` per entry, in list order. */
  function Reordered(media: map<int, Media>, produtoId: int, ids: seq<int>): (r: map<int, Media>)
    ensures r.Keys == media.Keys
    decreases |ids|
  {
    if ids == [] then media
    else SetOrdem(Reordered(media, produtoId, ids[..|ids| - 1]), produtoId, ids[|ids| - 1], |ids| - 1)
  }

  /**
   * After the reorder, a media row of the product that the list names sits at the (last)
   * position the list gives it; every other row, of this product or another, is untouched.
   */
  lemma {:induction false} ReorderedRows(media: map<int, Media>, produtoId: int, ids: seq<int>, k: int)
    requires k in media
    ensures media[k].produtoId == produtoId && k in ids ==>
      Reordered(media, produtoId, ids)[k] == media[k].(ordem := LastIndexOf(ids, k))
    ensures !(media[k].produtoId == produtoId && k in ids) ==> Reordered(media, produtoId, ids)[k] == media[k]
    decreases |ids|
  {
    if ids != [] {
      var init := ids[..|ids| - 1];
      ReorderedRows(media, produtoId, init, k);
      assert forall x :: x in init ==> x in ids;
      if ids[|ids| - 1] != k && k in ids {
        assert k in init;
        assert LastIndexOf(ids, k) == LastIndexOf(init, k);
      }
    }
  }

  /** With no repeated id, every listed media row of the product gets exactly its index. */
  lemma ReorderPlacesEach(media: map<int, Media>, produtoId: int, ids: seq<int>, i: int)
    requires Sorting.Distinct(ids) && 0 <= i < |ids|
    requires ids[i] in media && media[ids[i]].produtoId == produtoId
    ensures Reordered(media, produtoId, ids)[ids[i]].ordem == i
  {
    ReorderedRows(media, produtoId, ids, ids[i]);
    var j := LastIndexOf(ids, ids[i]);
    assert j == i;
  }

  /** `ORDER BY ordem`. */
  predicate OrdemOrder(a: (int, Media), b: (int, Media)) {
    a.1.ordem <= b.1.ordem
  }

  /** `ORDER BY ordem, id`. */
  predicate OrdemIdOrder(a: (int, Media), b: (int, Media)) {
    a.1.ordem < b.1.ordem || (a.1.ordem == b.1.ordem && a.0 <= b.0)
  }

  lemma OrdemIdOrderIsTotalPreorder()
    ensures Sorting.TotalPreorder(OrdemIdOrder)
  {
  }

  /** The product's media rows as a product response lists them: each once, by `ordem` then `id`. */
  predicate MediaListing(rows: seq<(int, Media)>, media: map<int, Media>, produtoId: int) {
    Enumerates(rows, ProductMedia(media, produtoId)) && Sorting.SortedBy(rows, OrdemIdOrder)
  }

  /** `SELECT * FROM media WHERE produtoId = ? ORDER BY ordem, id`. */
  method ListMedia(media: map<int, Media>, produtoId: int) returns (rows: seq<(int, Media)>)
    ensures MediaListing(rows, media, produtoId)
    ensures forall i, j :: 0 <= i < j < |rows| ==>
      rows[i].1.ordem < rows[j].1.ordem || (rows[i].1.ordem == rows[j].1.ordem && rows[i].0 < rows[j].0)
  {
    OrdemIdOrderIsTotalPreorder();
    rows := OrderedRows(ProductMedia(media, produtoId), OrdemIdOrder);
    forall i, j | 0 <= i < j < |rows|
      ensures rows[i].1.ordem < rows[j].1.ordem || (rows[i].1.ordem == rows[j].1.ordem && rows[i].0 < rows[j].0)
    {
      assert OrdemIdOrder(rows[i], rows[j]) && rows[i].0 != rows[j].0;
    }
  }

  /**
   * `reorderMedia`: 400 when `mediaIds` is not an array (`None`), 404 for an unknown
   * product, both without writes; otherwise each entry updates its row in list order, and
   * the product's media come back sorted by `ordem`.
   */
  method ReorderMedia(db: Database, produtoId: int, mediaIds: Option<seq<int>>)
    returns (status: int, rows: seq<(int, Media)>)
    modifies db`media
    ensures mediaIds.None? ==> status == BAD_REQUEST && rows == [] && db.media == old(db.media)
    ensures mediaIds.Some? && produtoId !in db.products ==>
      status == NOT_FOUND && rows == [] && db.media == old(db.media)
    ensures mediaIds.Some? && produtoId in db.products ==>
      && status == OK
      && db.media == Reordered(old(db.media), produtoId, mediaIds.value)
      && Enumerates(rows, ProductMedia(db.media, produtoId))
      && forall i, j :: 0 <= i < j < |rows| ==> rows[i].1.ordem <= rows[j].1.ordem
  {
    if mediaIds.None? {
      return BAD_REQUEST, [];
    }
    if produtoId !in db.products {
      return NOT_FOUND, [];
    }
    var ids := mediaIds.value;
    for index := 0 to |ids|
      invariant db.media == Reordered(old(db.media), produtoId, ids[..index])
    {
      assert ids[..index + 1][..index] == ids[..index];
      db.media := SetOrdem(db.media, produtoId, ids[index], index);
    }
    assert ids[..|ids|] == ids;
    rows := OrderedRows(ProductMedia(db.media, produtoId), OrdemOrder);
    assert Sorting.SortedBy(rows, OrdemOrder);
    forall i, j | 0 <= i < j < |rows|
      ensures rows[i].1.ordem <= rows[j].1.ordem
    {
      assert OrdemOrder(rows[i], rows[j]);
    }
    status := OK;
  }

  /** The two UPDATEs of `setCapa`: every media of the product loses the cover, then `mediaId` gets it. */
  function WithCover(media: map<int, Media>, produtoId: int, mediaId: int): (r: map<int, Media>)
    ensures r.Keys == media.Keys
  {
    var cleared := map k | k in media :: if media[k].produtoId == produtoId then media[k].(isCapa := 0) else media[k];
    if mediaId in cleared then cleared[mediaId := cleared[mediaId].(isCapa := 1)] else cleared
  }

  /**
   * After choosing a media row of the product as cover, it is the product's only cover; other
   * fields and other products' media are unchanged.
   */
  lemma CoverIsUnique(media: map<int, Media>, produtoId: int, mediaId: int)
    requires mediaId in media && media[mediaId].produtoId == produtoId
    ensures WithCover(media, produtoId, mediaId)[mediaId].isCapa == 1
    ensures forall k :: k in media && k != mediaId && media[k].produtoId == produtoId ==>
      WithCover(media, produtoId, mediaId)[k].isCapa == 0
    ensures forall k :: k in media && media[k].produtoId != produtoId ==> WithCover(media, produtoId, mediaId)[k] == media[k]
    ensures forall k :: k in media ==> WithCover(media, produtoId, mediaId)[k] == media[k].(isCapa := WithCover(media, produtoId, mediaId)[k].isCapa)
  {
  }

  /**
   * `setCapa`: 404 for an unknown product, or for a media row that is not the product's;
   * otherwise the chosen row becomes the only cover of its product.
   */
  method SetCapa(db: Database, produtoId: int, mediaId: int) returns (status: int)
    modifies db`media
    ensures produtoId !in db.products ==> status == NOT_FOUND && db.media == old(db.media)
    ensures produtoId in db.products && !(mediaId in old(db.media) && old(db.media)[mediaId].produtoId == produtoId) ==>
      status == NOT_FOUND && db.media == old(db.media)
    ensures produtoId in db.products && mediaId in old(db.media) && old(db.media)[mediaId].produtoId == produtoId ==>
      && status == OK
      && db.media == WithCover(old(db.media), produtoId, mediaId)
      && (forall k :: k in db.media && db.media[k].produtoId == produtoId ==> (db.media[k].isCapa == 1 <==> k == mediaId))
  {
    if produtoId !in db.products {
      return NOT_FOUND;
    }
    if !(mediaId in db.media && db.media[mediaId].produtoId == produtoId) {
      return NOT_FOUND;
    }
    CoverIsUnique(db.media, produtoId, mediaId);
    var media := db.media;
    db.media := map k | k in media :: if media[k].produtoId == produtoId then media[k].(isCapa := 0) else media[k];
    db.media := db.media[mediaId := db.media[mediaId].(isCapa := 1)];
    return OK;
  }

  /** `deleteMedia`: 404 unless the row belongs to the product; otherwise exactly that row goes. */
  method DeleteMedia(db: Database, produtoId: int, mediaId: int) returns (status: int)
    modifies db`media
    ensures !(mediaId in old(db.media) && old(db.media)[mediaId].produtoId == produtoId) ==>
      status == NOT_FOUND && db.media == old(db.media)
    ensures mediaId in old(db.media) && old(db.media)[mediaId].produtoId == produtoId ==>
      status == OK && db.media == old(db.media) - {mediaId}
  {
    if !(mediaId in db.media && db.media[mediaId].produtoId == produtoId) {
      return NOT_FOUND;
    }
    db.media := db.media - {mediaId};
    return OK;
  }
}
