# Catálogo 3D — a verified model of the catalogue, the print queue and the admin screens

The system is the web shop of a small 3D-printing business. It has two halves:

- The Express/SQLite back end serves a public product catalogue. It also serves an admin API for
  products, categories, product media, users, site configuration, filament spools and a
  production queue of print jobs. The queue charges filament weight to the spools as copies
  are printed.
- The React front end shows the catalogue and a gallery for each product, and builds the
  "buy on WhatsApp" link. Its admin side holds the production-queue screen, the media editor
  of a product and the login session.

This project models those parts in Dafny:

- **Database.** The back end's tables are the fields of one `Schema.Database` object: a map
  from row id to row per table, the job materials as a sequence, and the configuration as a
  map from key to stored text. Each request handler is a method that changes only the tables
  it writes (`modifies db`table`).
- **Handlers.** Each handler states its status code and the new contents of what it writes.
  It also keeps the UNIQUE constraints of the schema: product slugs, category slugs and user
  e-mails.
- **Filament ledger.** The ledger that `updateJobStatus` keeps is specified by functions on the
  spool table. Lemmas prove that charging and then refunding the same number of copies
  restores every spool, that refunds never drive a spool below zero, and that spools the job
  does not use are untouched.
- **Screens.** Components that keep state become classes (the product gallery). Event
  handlers that compute a new list become methods proved against functions of the old one
  (moving a queue job or a media item, marking a cover). Each screen is also connected to
  the server operation it calls: the order a move sends, once applied by the server, puts
  every job or media item at the position the screen shows.

Values that come from outside are parameters of the model:

- JavaScript's loose inputs: `undefined`, `null`, `''`, numbers and `NaN` are the `Js.JsInput`
  datatype; `normalizeInteger` is `Js.NormalizeInteger`.
- The clock.
- `JSON.parse`, `JSON.stringify`, `atob`, `encodeURIComponent` and `parseFloat`.
- bcrypt's password check and the JWT library.

## Model

| member | source | states |
|---|---|---|
| Schema.Database.constructor | backend/src/config/database.js:16-92 | a fresh database has every table empty and satisfies the UNIQUE constraints |
| Schema.NextRowId | backend/src/config/database.js:17-18 | a new rowid is positive, not in use, and above every id in use |
| Js.NormalizeInteger | backend/src/controllers/printQueueController.js:17-21 | `normalizeInteger`: the floor of a finite number, else the fallback |
| Js.NormalizeIntegerBounds | backend/src/controllers/printQueueController.js:17-21 | a finite number gives its floor; undefined, null, `''` and non-finite values give the fallback |
| Js.NormalizeIntegerOfInt | backend/src/controllers/printQueueController.js:17-21 | normalising a stored integer gives it back |
| Text.DigitsOfTrim | frontend/src/utils/whatsapp.js:9-25 | trimming before keeping the digits keeps the same digits |
| Helpers.Slugify | backend/src/utils/helpers.js:1-13 | the result is a slug: lower-case letters, digits, `_` and `-`, with no doubled, leading or trailing dash |
| Helpers.SlugifyIdempotent | backend/src/utils/helpers.js:1-13 | slugifying a slug changes nothing, so `slugify(slugify(x)) == slugify(x)` |
| Helpers.SlugifyOfSlug | backend/src/utils/helpers.js:1-13 | every step of the pipeline leaves a slug unchanged |
| Helpers.StripMarks | backend/src/utils/helpers.js:7 | only characters of the input remain |
| Helpers.DashSpaces | backend/src/utils/helpers.js:8 | no white space remains, and every other character comes from the input |
| Helpers.KeepWordChars | backend/src/utils/helpers.js:9 | only word characters and dashes remain |
| Helpers.CollapseDashes | backend/src/utils/helpers.js:10 | no two dashes are adjacent, and the first character is kept |
| Helpers.StripLeadingDashes | backend/src/utils/helpers.js:11 | the result is a suffix of the input that does not start with a dash |
| Helpers.StripTrailingDashes | backend/src/utils/helpers.js:12 | the result is a prefix of the input that does not end with a dash |
| Helpers.DashSpacesRun | backend/src/utils/helpers.js:8 | a run of white space becomes exactly one dash |
| Helpers.LastSegment | backend/src/utils/helpers.js:27 | `split('.').pop()`: the suffix after the last dot, or the whole name without one |
| Helpers.LastSegmentAfterDot | backend/src/utils/helpers.js:27 | the extension of `a.b`, where `b` has no dot, is `b` |
| Helpers.GetMediaType | backend/src/utils/helpers.js:26-32 | the `tipo` of a file name: the type of its lower-cased last dot segment |
| Helpers.MediaTypeCases | backend/src/utils/helpers.js:26-32 | the type is image, gif or video; gif exactly for `.gif` and video exactly for `.mp4`/`.webm`, in any case |
| Helpers.MediaTypeByExtension | backend/src/utils/helpers.js:26-32 | two names with the same lower-cased extension get the same type |
| FilamentLedger.Consume | backend/src/controllers/printQueueController.js:286 | charging a spool keeps the set of spools |
| FilamentLedger.Refund | backend/src/controllers/printQueueController.js:302 | refunding a spool keeps the set of spools |
| FilamentLedger.ConsumeLines | backend/src/controllers/printQueueController.js:283-287 | each line charges `pesoGasto × copies` to its spool, in order; the set of spools is kept |
| FilamentLedger.RefundLines | backend/src/controllers/printQueueController.js:299-303 | each line refunds `pesoGasto × copies` from its spool, clamped at 0, in order; the set of spools is kept |
| FilamentLedger.LedgerAfter | backend/src/controllers/printQueueController.js:274-310 | a rise in processed copies charges, a fall refunds, no change leaves the spools |
| FilamentLedger.LinesOf | backend/src/controllers/printQueueController.js:281 | exactly the material lines of the job, all of them |
| FilamentLedger.ChargedLines | backend/src/controllers/printQueueController.js:281-295 | the job's own lines when it has any, else at most the single legacy line of its filament and product weight |
| FilamentLedger.Mentions | backend/src/controllers/printQueueController.js:284-286 | true exactly when some charged line names the spool |
| FilamentLedger.TotalNonNegative | backend/src/controllers/printQueueController.js:285 | the weight charged to a spool for a non-negative count is non-negative |
| FilamentLedger.ConsumeLinesExact | backend/src/controllers/printQueueController.js:279-295 | after charging, each spool's `pesoUsado` grew by exactly the weight of its lines times the copies |
| FilamentLedger.RefundLinesExact | backend/src/controllers/printQueueController.js:296-310 | after refunding, each spool's `pesoUsado` is `MAX(0, used - weight × copies)` |
| FilamentLedger.UnchargedFilamentUnchanged | backend/src/controllers/printQueueController.js:279-310 | a spool no charged line names is untouched by either branch |
| FilamentLedger.RefundKeepsStockNonNegative | backend/src/controllers/printQueueController.js:302 | refunds never drive a spool's used weight below zero |
| FilamentLedger.LedgerRoundTrip | backend/src/controllers/printQueueController.js:274-310 | raising the processed count by `d` and lowering it by `d` again restores every spool |
| PrintQueue.NormalizeCustomerStage | backend/src/controllers/printQueueController.js:4-24 | a known stage is kept and anything else becomes `NOVO_PEDIDO` |
| PrintQueue.NormalizeProductionStatus | backend/src/controllers/printQueueController.js:3-27 | a known status is kept and anything else becomes `FILA` |
| PrintQueue.OptionalText | backend/src/controllers/printQueueController.js:155-158 | `String(x \|\| '').trim() \|\| null`: null exactly when blank, else the trimmed text |
| PrintQueue.BuildFallbackIdentifier | backend/src/controllers/printQueueController.js:29 | `JOB-` followed by the id padded to at least six digits |
| PrintQueue.FallbackIdentifierSpellsId | backend/src/controllers/printQueueController.js:29 | the digits after `JOB-` read back as the id; below a million the identifier has ten characters |
| PrintQueue.StoredCount | backend/src/controllers/printQueueController.js:211-275 | a NULL count reads as 0 |
| PrintQueue.NextCount | backend/src/controllers/printQueueController.js:207-221 | the new count is never negative: the floored input when finite, else the stored count |
| PrintQueue.StatusRank | backend/src/controllers/printQueueController.js:47-55 | ranks 1 to 6, IMPRIMINDO first, CONCLUIDO 4, unknown statuses 6 |
| PrintQueue.QueueBeforeIsTotalPreorder | backend/src/controllers/printQueueController.js:47-57 | the ORDER BY (status rank, posicao, createdAt) is a total preorder |
| PrintQueue.MaterialViews | backend/src/controllers/printQueueController.js:62 | the inner join keeps exactly the lines whose spool exists, with that spool's name and colour |
| PrintQueue.ShownIdentifier | backend/src/controllers/printQueueController.js:66 | the stored identifier when non-empty, else the fallback; never empty |
| PrintQueue.JobViewOf | backend/src/controllers/printQueueController.js:37-68 | a listed job carries the left-joined product (name, weight, `stlLink`) and filament names, its material lines and normalised counts |
| PrintQueue.GetQueue | backend/src/controllers/printQueueController.js:31-76 | 500 with nothing listed when `products` lacks the `stlLink` column; otherwise every job is listed once, in queue order, each as its view |
| PrintQueue.ListingOfSortedRows | backend/src/controllers/printQueueController.js:31-69 | mapping the sorted rows gives one view per job, distinct and ordered |
| PrintQueue.NewJobFields | backend/src/controllers/printQueueController.js:94-160 | the inserted row: normalised ids, totals and priority at least 1, zero counts, a known stage, status FILA, no timestamps |
| PrintQueue.NewJobIdentifier | backend/src/controllers/printQueueController.js:159-166 | backfilling the identifier after the insert gives the row inserted with it |
| PrintQueue.MaterialRows | backend/src/controllers/printQueueController.js:169-174 | one material line per bindable input, in order, attached to the new job |
| PrintQueue.BindablePrefix | backend/src/controllers/printQueueController.js:169-174 | the loop inserts the entries before the first one that throws, and stops at that one |
| PrintQueue.BindablePrefixAll | backend/src/controllers/printQueueController.js:169-174 | the loop gets through every entry exactly when all of them bind |
| PrintQueue.CreateVerdict | backend/src/controllers/printQueueController.js:94-124 | the checks before any write: 400 exactly without a product id, 404 exactly for an unknown product or filament, 409 exactly for an identifier in use, otherwise go ahead |
| PrintQueue.CreateJob | backend/src/controllers/printQueueController.js:78-182 | a failed check answers with nothing written; otherwise the job is appended after the last position with its identifier, then its lines up to the first entry that throws, and the answer is 201 exactly when every entry binds, else 400 with those writes kept |
| PrintQueue.InsertCreatedJob | backend/src/controllers/printQueueController.js:126-174 | the new job gets a fresh id, the position after the largest one and its stored identifier, and its lines follow up to the first entry that throws |
| PrintQueue.BackfillIdentifier | backend/src/controllers/printQueueController.js:159-166 | inserting the job without an identifier and then writing the fallback into it leaves the same table as inserting it with the fallback |
| PrintQueue.InsertJob | backend/src/controllers/printQueueController.js:126-166 | the row is inserted with the requested identifier, or with none and then the fallback written over it |
| PrintQueue.AdjustStock | backend/src/controllers/printQueueController.js:277-311 | the spools move by the ledger for the change in processed copies: the job's lines when it has any, else its single filament by the product weight |
| PrintQueue.ConsumeSingle | backend/src/controllers/printQueueController.js:289-294 | one spool is charged when it exists |
| PrintQueue.RefundSingle | backend/src/controllers/printQueueController.js:304-309 | one spool is refunded, never below zero, when it exists |
| PrintQueue.NextPosition | backend/src/controllers/printQueueController.js:126-127 | the new position is `MAX(posicao) + 1`, or 1 for an empty queue |
| PrintQueue.InsertMaterialLines | backend/src/controllers/printQueueController.js:169-174 | the job's lines are appended to the material table in order, stopping at the first entry that throws |
| PrintQueue.NextDataInicio | backend/src/controllers/printQueueController.js:228-233 | a start time, once set, is kept; it is set to now exactly on entering IMPRIMINDO |
| PrintQueue.NextDataConclusao | backend/src/controllers/printQueueController.js:229-237 | a finish time, once set, is kept; it is set to now exactly on CONCLUIDO or on reaching the total |
| PrintQueue.TextUpdate | backend/src/controllers/printQueueController.js:239-244 | an omitted text field keeps the stored value; a given one is trimmed, and blank becomes null |
| PrintQueue.UpdatedJob | backend/src/controllers/printQueueController.js:202-272 | the row after an update: normalised status and stage, clamped counts, write-once timestamps, nothing else changed |
| PrintQueue.TimestampsWriteOnce | backend/src/controllers/printQueueController.js:228-237 | a job that has both timestamps keeps them through any update |
| PrintQueue.UpdateJobStatus | backend/src/controllers/printQueueController.js:184-319 | 404 for an unknown job; 400 with nothing written when success + failure exceed the total; otherwise the row is updated and the spools are charged or refunded for the change in processed copies |
| PrintQueue.ConsumeStock | backend/src/controllers/printQueueController.js:283-295 | the spool table becomes the ledger's charge of the lines |
| PrintQueue.RefundStock | backend/src/controllers/printQueueController.js:299-310 | the spool table becomes the ledger's refund of the lines |
| PrintQueue.WithoutJob | backend/src/controllers/printQueueController.js:325 | exactly the material lines of other jobs remain |
| PrintQueue.LinesPartition | backend/src/controllers/printQueueController.js:281-325 | a job's lines and the others partition the material table |
| PrintQueue.DeleteJob | backend/src/controllers/printQueueController.js:321-337 | the job's lines are removed even when the job is missing; the job goes; 404 exactly when it did not exist; spools untouched |
| PrintQueue.EntryTarget | backend/src/controllers/printQueueController.js:351-353 | an entry is applied only with a positive id and a positive position |
| PrintQueue.ApplyReorder | backend/src/controllers/printQueueController.js:349-357 | a reorder keeps the set of jobs |
| PrintQueue.LastPosition | backend/src/controllers/printQueueController.js:350-355 | absent exactly when no valid entry names the job, else a positive position |
| PrintQueue.ReorderEffect | backend/src/controllers/printQueueController.js:349-357 | each job named by a valid entry ends at the last position given for it; every other job is unchanged |
| PrintQueue.UpdateQueueOrder | backend/src/controllers/printQueueController.js:339-365 | 400 with nothing written without an array or with a null entry; otherwise 200 and the reorder applied |
| Filaments.OrNull | backend/src/controllers/filamentController.js:21 | `x \|\| null` for an optional number: null exactly when missing or zero |
| Filaments.NewFilament | backend/src/controllers/filamentController.js:16-21 | the inserted spool: given fields, nothing used, at least one reel, status `Disponível` when none is given |
| Filaments.CreateFilament | backend/src/controllers/filamentController.js:12-28 | 201 and the new spool stored under a fresh id |
| Filaments.Coalesce | backend/src/controllers/filamentController.js:37-45 | `COALESCE(?, column)`: the given value, else the stored one |
| Filaments.CoalesceNullable | backend/src/controllers/filamentController.js:42-43 | the same for a nullable column |
| Filaments.UpdatedFilament | backend/src/controllers/filamentController.js:35-50 | each column is coalesced, `createdAt` is kept, `updatedAt` is now |
| Filaments.EmptyUpdateKeepsRow | backend/src/controllers/filamentController.js:35-50 | an empty body changes only `updatedAt` |
| Filaments.UpdateFilamentIdempotent | backend/src/controllers/filamentController.js:35-50 | repeating the same update changes only `updatedAt` |
| Filaments.UpdateOverwritesLedger | backend/src/controllers/filamentController.js:40 | a given `pesoUsado` replaces the weight the queue has charged |
| Filaments.UpdateFilament | backend/src/controllers/filamentController.js:30-62 | 404 and nothing written for an unknown id; otherwise the coalesced row |
| Filaments.DeleteFilament | backend/src/controllers/filamentController.js:64-78 | the row goes; 404 exactly when it did not exist |
| Filaments.IdDescendingIsTotalPreorder | backend/src/controllers/filamentController.js:5 | `ORDER BY id DESC` is a total preorder |
| Filaments.GetFilaments | backend/src/controllers/filamentController.js:3-10 | every spool once, with ids strictly decreasing |
| Products.PricePerGram | backend/src/controllers/productController.js:4-11 | the configured rate parsed, or 1.0 when none is stored |
| Products.ProductPrice | backend/src/controllers/productController.js:13-22 | a positive custom price wins; otherwise weight × rate |
| Products.CustomPriceIgnoresRate | backend/src/controllers/productController.js:13-22 | with a positive custom price the rate does not matter |
| Products.PriceNonNegative | backend/src/controllers/productController.js:13-22 | non-negative weights, prices and rates give a non-negative price |
| Products.MatchingProducts | backend/src/controllers/productController.js:38-66 | exactly the products that satisfy every filter of the query |
| Products.OrderByField | backend/src/controllers/productController.js:68-69 | a whitelisted column is kept, anything else becomes `createdAt` |
| Products.AscendingSpellings | backend/src/controllers/productController.js:70 | ascending exactly when the direction upper-cases to `ASC` |
| Products.ProductOrderIsTotalPreorder | backend/src/controllers/productController.js:72-76 | each of the listing's orders is a total preorder |
| Products.TotalPages | backend/src/controllers/productController.js:128 | `Math.ceil(total / limit)`: enough pages for every match and no page to spare; undefined for a zero limit |
| Products.Window | backend/src/controllers/productController.js:78-81 | `LIMIT ? OFFSET ?`: the rows from the clamped offset, at most `limit` of them |
| Products.Matches | backend/src/controllers/productController.js:38-66 | the WHERE clause: each non-empty filter holds, the search and the JSON-array filters as case-insensitive substring tests |
| Products.ViewOf | backend/src/controllers/productController.js:83-94 | a response product is the stored row (its `preco` is the `precoOriginal` of line 161), its computed price and its media |
| Products.ViewWithMedia | backend/src/controllers/productController.js:151-162 | the product priced, with its media rows listed once each by `ordem` then `id` |
| Products.ViewsWithMedia | backend/src/controllers/productController.js:84-94 | `products.map(...)`: one priced view per row, in row order, each with its ordered media |
| Products.ListProducts | backend/src/controllers/productController.js:24-135 | the page is the window of the sorted matches from the clamped offset, `limit` rows at most: row `i` is sorted match `start + i`, priced, with its ordered media; the count of all matches and the page total |
| Products.PageOfSortedRows | backend/src/controllers/productController.js:78-94 | the priced rows of `LIMIT ? OFFSET ?` are the sorted matches from the clamped offset on, one for one, distinct and in the requested order |
| Products.GetProductById | backend/src/controllers/productController.js:137-173 | absent exactly for an unknown id; otherwise the stored row (so `precoOriginal` is its stored `preco`), its computed price and its media ordered by `ordem`, `id` |
| Products.GetProductBySlug | backend/src/controllers/productController.js:175-209 | 404 for an unknown slug; otherwise that product, priced, with its ordered media, and its view count grows by one |
| Products.SlugOwner | backend/src/controllers/productController.js:239-242 | finds a product with the slug exactly when one exists |
| Products.SlugWriteKeepsUnique | backend/src/config/database.js:36 | writing a slug that no other product has keeps slugs unique |
| Products.SlugNamesOneProduct | backend/src/config/database.js:36 | with unique slugs a slug names at most one product |
| Products.OrNullText | backend/src/controllers/productController.js:247-270 | `x \|\| null` for optional text |
| Products.CreateSlug | backend/src/controllers/productController.js:236 | the given slug, else the slug of the name |
| Products.NewProduct | backend/src/controllers/productController.js:244-270 | the inserted row: defaults for status and featured flag, zero views, timestamps now |
| Products.CreateProduct | backend/src/controllers/productController.js:211-286 | 500 without slug or name; 400 for a slug in use; 500 when the NOT NULL name or weight is missing; otherwise 201 and the new row; slugs stay unique |
| Products.Overwrite | backend/src/controllers/productController.js:323-416 | a field given in the body replaces the stored one |
| Products.UpdateSlug | backend/src/controllers/productController.js:319 | the given slug, else the slug of the new or stored name |
| Products.Written | backend/src/controllers/productController.js:332-351 | a NOT NULL column takes a given non-null value and otherwise keeps the stored one |
| Products.UpdatedProduct | backend/src/controllers/productController.js:321-418 | given fields replaced, the slug rewritten when name or slug is given, views and `createdAt` kept |
| Products.OwnSlugNoConflict | backend/src/controllers/productController.js:321-323 | a product's own slug never conflicts with it |
| Products.UpdateProduct | backend/src/controllers/productController.js:288-439 | 404, 400 for a given slug of another product, no write for an empty body, 500 with nothing written when `nome` or `peso` is `null` (NOT NULL) or a rename collides, otherwise the updated row; slugs stay unique |
| Products.RenameCollisionFails | backend/src/controllers/productController.js:319-331 | renaming onto another product's slug without giving a slug passes the check and reaches the collision |
| Products.MediaWithoutProduct | backend/src/config/database.js:60-69 | deleting a product cascades to exactly its media |
| Products.DeleteProduct | backend/src/controllers/productController.js:441-457 | 404 for an unknown id; otherwise the product and its media go |
| Categories.NameOrderIsTotalPreorder | backend/src/controllers/categoryController.js:6 | `ORDER BY nome` is a total preorder |
| Categories.ListCategories | backend/src/controllers/categoryController.js:4-12 | every category once, ordered by name |
| Categories.GetCategory | backend/src/controllers/categoryController.js:14-28 | absent exactly for an unknown id |
| Categories.SlugOwner | backend/src/controllers/categoryController.js:36-66 | finds a category with the slug exactly when one exists |
| Categories.SlugWriteKeepsUnique | backend/src/config/database.js:27 | writing a slug that no other category has keeps slugs unique |
| Categories.CategorySlug | backend/src/controllers/categoryController.js:33 | the given slug, else the slug of the name, and none (a throw) without either |
| Categories.CreateCategory | backend/src/controllers/categoryController.js:30-50 | 500 without slug or name; 400 for a slug in use; otherwise 201 and the new row; slugs stay unique |
| Categories.UpdateSlug | backend/src/controllers/categoryController.js:62 | the given non-empty slug, else the slug of the new or stored name |
| Categories.UpdatedCategory | backend/src/controllers/categoryController.js:73-93 | a given non-null name and the other given fields replaced, the slug rewritten when name or slug is given |
| Categories.UpdateCategory | backend/src/controllers/categoryController.js:52-101 | 404, 400 for a truthy slug or name whose slug is another category's, no write for an empty body, 500 with nothing written for a `null` name (NOT NULL) or a collision the check skipped, otherwise the updated row |
| Categories.OwnSlugNoConflict | backend/src/controllers/categoryController.js:66 | a category's own slug never conflicts with it |
| Categories.EmptyNameSkipsCheck | backend/src/controllers/categoryController.js:62-81 | an empty name skips the conflict check but rewrites the slug, which can collide |
| Categories.DeleteCategory | backend/src/controllers/categoryController.js:103-118 | 404 for an unknown id; otherwise exactly that row goes |
| MediaGallery.ProductMedia | backend/src/controllers/mediaController.js:38-43 | exactly the media rows of the product |
| MediaGallery.Ordens | backend/src/controllers/mediaController.js:38 | the set of positions the product's media use |
| MediaGallery.Placement | backend/src/controllers/mediaController.js:37-43 | a new item's position is exactly the largest position plus one (0 for the first) and it is the cover exactly when it is the first |
| MediaGallery.InsertMedia | backend/src/controllers/mediaController.js:37-49 | the row is added under a fresh id, at the largest position of the product's media plus one |
| MediaGallery.UploadMedia | backend/src/controllers/mediaController.js:11-60 | 400 without a file, 404 for an unknown product, otherwise 201 and a row with the type of the file's extension, at the largest position plus one |
| MediaGallery.OrdemIdOrderIsTotalPreorder | backend/src/controllers/productController.js:151 | `ORDER BY ordem, id` is a total preorder |
| MediaGallery.ListMedia | backend/src/controllers/productController.js:151 | every media row of the product once, strictly increasing by (`ordem`, `id`) |
| MediaGallery.LastIndexOf | backend/src/controllers/mediaController.js:77-80 | the last position of an id in the list |
| MediaGallery.SetOrdem | backend/src/controllers/mediaController.js:78-79 | one `UPDATE ... WHERE id = ? AND produtoId = ?` keeps the set of rows |
| MediaGallery.Reordered | backend/src/controllers/mediaController.js:77-80 | the loop keeps the set of rows |
| MediaGallery.ReorderedRows | backend/src/controllers/mediaController.js:77-80 | a listed row of the product gets its last index as position; any other row is unchanged |
| MediaGallery.ReorderPlacesEach | backend/src/controllers/mediaController.js:77-80 | with distinct ids, the item at index `i` gets position `i` |
| MediaGallery.ReorderMedia | backend/src/controllers/mediaController.js:62-88 | 400 without an array, 404 for an unknown product, otherwise the reorder applied and the product's rows returned by position |
| MediaGallery.WithCover | backend/src/controllers/mediaController.js:105-108 | the two updates keep the set of rows |
| MediaGallery.CoverIsUnique | backend/src/controllers/mediaController.js:105-108 | the chosen item is the product's only cover, and nothing else changes |
| MediaGallery.SetCapa | backend/src/controllers/mediaController.js:90-116 | 404 for an unknown product or an item of another product; otherwise the cover is moved |
| MediaGallery.DeleteMedia | backend/src/controllers/mediaController.js:118-142 | 404 for an item not of the product; otherwise exactly that row goes |
| Auth.NormalizeEmail | backend/src/controllers/authController.js:34-153 | `trim().toLowerCase()` never lengthens the address |
| Auth.NormalizeEmailIdempotent | backend/src/controllers/authController.js:34-153 | normalising twice is normalising once |
| Auth.SanitizeUser | backend/src/controllers/authController.js:12-23 | the public user: the name falls back to the e-mail, active unless `isActive` is 0, no password |
| Auth.SanitizeIgnoresPassword | backend/src/controllers/authController.js:12-23 | the password never reaches the public user |
| Auth.UserByEmail | backend/src/controllers/authController.js:36-156 | finds a user with the address exactly when one exists |
| Auth.EmailNamesOneUser | backend/src/config/database.js:19 | with unique addresses an address names at most one user |
| Auth.Login | backend/src/controllers/authController.js:32-58 | 500 without an e-mail; 401 for an unknown address; 403 for an inactive user; 500 without a password; 401 for a wrong password; otherwise 200 and the public user |
| Auth.EmailWriteKeepsUnique | backend/src/config/database.js:19 | writing an address no other user has keeps addresses unique |
| Auth.Register | backend/src/controllers/authController.js:60-88 | 500 without name or e-mail; 409 for an address in use; 500 with nothing written without a password; otherwise 201 and an active user; addresses stay unique |
| Auth.VerifyToken | backend/src/controllers/authController.js:90-106 | 200 and the public user exactly when the token's user exists and is active, else 401 |
| Auth.ListedUser | backend/src/controllers/authController.js:110-124 | a listed user, with `updatedAt` read as `createdAt` when the column is missing |
| Auth.ListUsers | backend/src/controllers/authController.js:108-131 | every user once, newest first |
| Auth.UserListing | backend/src/controllers/authController.js:108-131 | mapping the sorted rows lists every user once, newest first |
| Auth.UpdatedUser | backend/src/controllers/authController.js:143-190 | trimmed name, normalised address, new hash only for a new password, `isActive` from the accepted truthy spellings |
| Auth.UpdateUser | backend/src/controllers/authController.js:133-200 | 404, 409 for an address of another user, 400 for deactivating oneself or an empty body, otherwise the updated row; addresses stay unique; the caller stays active |
| Auth.DeleteUser | backend/src/controllers/authController.js:202-226 | 400 for deleting oneself or the last user, 404 for an unknown id, otherwise exactly that row goes; the caller and at least one user remain |
| Config.Decode | backend/src/controllers/configController.js:17-23 | the parsed JSON value, or the raw text when it does not parse |
| Config.Decoded | backend/src/controllers/configController.js:14-23 | every stored key, each decoded |
| Config.DecodeConfig | backend/src/controllers/configController.js:14-23 | the loop builds the decoded object |
| Config.FillDefaults | backend/src/controllers/configController.js:25-30 | a default key missing or falsy gets its default; every other key keeps its value |
| Config.FilledDefaultsTruthy | backend/src/controllers/configController.js:3-10 | exactly the two empty defaults stay falsy after filling |
| Config.GetConfig | backend/src/controllers/configController.js:12-64 | the stored keys decoded, with the defaults filled in |
| Config.Stored | backend/src/controllers/configController.js:71-73 | objects, arrays and null are stored as JSON text, strings as they are, numbers as their text; booleans cannot be bound |
| Config.FirstUnbindable | backend/src/controllers/configController.js:70-83 | the keys before the first boolean are written, and the first boolean throws |
| Config.Upserted | backend/src/controllers/configController.js:70-83 | the table after upserting each entry in order |
| Config.UpsertedEntries | backend/src/controllers/configController.js:70-83 | a written key holds its last update's stored text; other keys keep their text |
| Config.UpdateReadsBack | backend/src/controllers/configController.js:66-96 | a string, number or JSON value written and read back decodes to itself |
| Config.UpdateConfig | backend/src/controllers/configController.js:66-101 | the keys up to the first boolean are written; 500 with that partial write at a boolean, otherwise 200 and the decoded table |
| QueueScreen.FilteredQueue | frontend/src/pages/admin/ProductionQueue.jsx:126-130 | the listed jobs are the ones the filter shows |
| QueueScreen.ShownIndices | frontend/src/pages/admin/ProductionQueue.jsx:126-130 | the shown jobs' positions in the queue, increasing and complete |
| QueueScreen.FilteredQueueAt | frontend/src/pages/admin/ProductionQueue.jsx:126-130 | the listed job at row `j` is the queue's job at the `j`-th shown position |
| QueueScreen.AllShowsEverything | frontend/src/pages/admin/ProductionQueue.jsx:127 | the `TODOS` filter lists the whole queue |
| QueueScreen.ShownIndicesDependOnShown | frontend/src/pages/admin/ProductionQueue.jsx:126-130 | the shown positions depend only on which jobs are shown |
| QueueScreen.ActiveJobs | frontend/src/pages/admin/ProductionQueue.jsx:134 | the active count is at most the queue length |
| QueueScreen.QueueSummary | frontend/src/pages/admin/ProductionQueue.jsx:132-145 | the summary counts every job and at most that many active ones |
| QueueScreen.ActiveCountMatchesFilter | frontend/src/pages/admin/ProductionQueue.jsx:128-134 | with only known statuses, the active count is the length of the `ATIVOS` list |
| QueueScreen.TotalsAdd | frontend/src/pages/admin/ProductionQueue.jsx:135-136 | the success and failure totals add over concatenated queues |
| QueueScreen.GetProgress | frontend/src/pages/admin/ProductionQueue.jsx:97-106 | processed = success + failure; the total is the job's, at least 1 |
| QueueScreen.CompletionIsPercentage | frontend/src/pages/admin/ProductionQueue.jsx:102 | completion lies in 0..100, and is 100 exactly when the total is reached |
| QueueScreen.UpdateSubmit | frontend/src/pages/admin/ProductionQueue.jsx:190-222 | blocked exactly when success + failure exceed the total; otherwise the counts are sent, and the status becomes CONCLUIDO only when the total is reached and the status was left as it was |
| QueueScreen.SentRequest | frontend/src/pages/admin/ProductionQueue.jsx:203-217 | the body sent: all of `updateData` (stage, client name, contact and notes as typed), with the numeric counts and the final status |
| QueueScreen.SubmitPassesServerCheck | frontend/src/pages/admin/ProductionQueue.jsx:197-200 | a submission the screen lets through, with non-negative counts, passes the server's check on the total |
| QueueScreen.UntouchedTextKept | frontend/src/pages/admin/ProductionQueue.jsx:280-288 | a stored text filled into the form as `x \|\| ''` and sent back is stored unchanged |
| QueueScreen.SentTextStored | backend/src/controllers/printQueueController.js:239-244 | whatever text is sent is stored trimmed and non-empty, or as NULL |
| QueueScreen.SubmitKeepsUntouchedTexts | frontend/src/pages/admin/ProductionQueue.jsx:203-217 | submitting the progress form without touching the client texts leaves the job's name, contact and notes as they were |
| QueueScreen.Swapped | frontend/src/pages/admin/ProductionQueue.jsx:241 | the destructuring swap exchanges two entries and keeps the rest |
| QueueScreen.SwapPermutes | frontend/src/pages/admin/ProductionQueue.jsx:241 | a swap is a permutation |
| QueueScreen.SwapTwice | frontend/src/pages/admin/ProductionQueue.jsx:241 | swapping twice restores the queue |
| QueueScreen.OrderData | frontend/src/pages/admin/ProductionQueue.jsx:245 | one entry per job, with its id and its place + 1 |
| QueueScreen.HandleMove | frontend/src/pages/admin/ProductionQueue.jsx:236-252 | a move off either end of the queue does nothing; otherwise the two jobs are exchanged in the full queue and its order is sent |
| QueueScreen.OrderDataPositions | frontend/src/pages/admin/ProductionQueue.jsx:245 | with distinct positive ids, the order sent names each job with its place + 1 |
| QueueScreen.ReorderAppliesScreenOrder | frontend/src/pages/admin/ProductionQueue.jsx:245-246 | applied by the server, the order a move sends puts each job of the screen at its place + 1 |
| QueueScreen.MoveInFilteredViewAsWritten | frontend/src/pages/admin/ProductionQueue.jsx:236-252 | under `ATIVOS` with a finished job last, the last shown row may still move down, and doing so leaves the shown list unchanged |
| QueueScreen.HandleMoveInView | frontend/src/pages/admin/ProductionQueue.jsx:236-252 | the corrected move: the shown list afterwards is the old one with the two rows exchanged, and the queue is a permutation of the old one |
| QueueScreen.SwappedViewLemma | frontend/src/pages/admin/ProductionQueue.jsx:126-252 | exchanging two shown jobs in the queue exchanges the two rows of the shown list |
| MediaUploaderView.Ids | frontend/src/components/admin/MediaUploader.jsx:66 | the ids of the list, in order |
| MediaUploaderView.FindIndex | frontend/src/components/admin/MediaUploader.jsx:58 | -1 exactly when the id is absent, else its first position |
| MediaUploaderView.IdsOfSwapped | frontend/src/components/admin/MediaUploader.jsx:64-66 | the ids of the swapped list are the swapped ids |
| MediaUploaderView.SwapKeepsDistinct | frontend/src/components/admin/MediaUploader.jsx:64 | a swap keeps ids distinct |
| MediaUploaderView.Exchange | frontend/src/components/admin/MediaUploader.jsx:63-64 | the copied array with two entries exchanged is the swapped list |
| MediaUploaderView.HandleReorder | frontend/src/components/admin/MediaUploader.jsx:57-75 | an unknown id or a move past an end does nothing; otherwise the ids of the swapped list (a permutation) are sent, and the list changes only if the server accepts |
| MediaUploaderView.ReorderSentMatchesServer | frontend/src/components/admin/MediaUploader.jsx:66-69 | the server, applying the ids sent, gives each item its place in the new list |
| MediaUploaderView.WithCover | frontend/src/components/admin/MediaUploader.jsx:47-51 | every item kept, the cover flag 1 on the id and 0 elsewhere |
| MediaUploaderView.CoverIsUniqueInList | frontend/src/components/admin/MediaUploader.jsx:44-55 | with distinct ids, exactly the chosen item is the cover, or none when absent |
| MediaUploaderView.Without | frontend/src/components/admin/MediaUploader.jsx:38 | the filter never lengthens the list |
| MediaUploaderView.WithoutMembers | frontend/src/components/admin/MediaUploader.jsx:38 | exactly the items with another id remain |
| MediaUploaderView.WithoutAppend | frontend/src/components/admin/MediaUploader.jsx:38 | filtering a concatenation filters each part, in order |
| MediaUploaderView.WithoutSplices | frontend/src/components/admin/MediaUploader.jsx:38 | with distinct ids, deleting a listed id cuts out exactly its item and keeps the order of the rest |
| MediaUploaderView.WithoutAbsent | frontend/src/components/admin/MediaUploader.jsx:38 | deleting an absent id changes nothing |
| MediaUploaderView.WithoutPresent | frontend/src/components/admin/MediaUploader.jsx:38 | with distinct ids, deleting a listed id removes exactly one item |
| Gallery.Next | frontend/src/components/public/ProductViewer.jsx:23-25 | the next index, wrapping from the last to the first |
| Gallery.Prev | frontend/src/components/public/ProductViewer.jsx:27-29 | the previous index, wrapping from the first to the last |
| Gallery.PrevUndoesNext | frontend/src/components/public/ProductViewer.jsx:23-29 | previous after next, and next after previous, restore an index |
| Gallery.Viewer.constructor | frontend/src/components/public/ProductViewer.jsx:6-9 | the first render: first item selected, lightbox closed |
| Gallery.Viewer.SelectedMedia | frontend/src/components/public/ProductViewer.jsx:12-21 | none exactly for an empty list; the selected item, or the first past the end |
| Gallery.Viewer.LightboxMedia | frontend/src/components/public/ProductViewer.jsx:161-190 | the lightbox shows an item exactly when open with an index in range |
| Gallery.Viewer.NextMedia | frontend/src/components/public/ProductViewer.jsx:23-25 | the selection moves to the next index, in range |
| Gallery.Viewer.PrevMedia | frontend/src/components/public/ProductViewer.jsx:27-29 | the selection moves to the previous index, in range |
| Gallery.Viewer.SelectMedia | frontend/src/components/public/ProductViewer.jsx:133-136 | a thumbnail click selects it |
| Gallery.Viewer.OpenLightbox | frontend/src/components/public/ProductViewer.jsx:31-34 | opens the lightbox on the index |
| Gallery.Viewer.CloseLightbox | frontend/src/components/public/ProductViewer.jsx:36-38 | closes the lightbox |
| Gallery.Viewer.SetMedia | frontend/src/components/public/ProductViewer.jsx:6 | a new `media` prop, indices kept |
| Gallery.Viewer.KeyPress | frontend/src/components/public/ProductViewer.jsx:40-55 | while open, the arrows move the lightbox around the list and Escape closes it; otherwise nothing changes |
| WhatsApp.FirstOccurrence | frontend/src/utils/whatsapp.js:17-18 | the first offset from `from` on where the pattern occurs, -1 exactly when there is none |
| WhatsApp.Expand | frontend/src/utils/whatsapp.js:17-18 | the replacement text with `$$`, `$&`, `` $` `` and `$'` expanded |
| WhatsApp.ExpandLiteral | frontend/src/utils/whatsapp.js:17-18 | a replacement without `$` is inserted as it is |
| WhatsApp.ExpandMatchedText | frontend/src/utils/whatsapp.js:17 | a name `A$&B` puts the matched `{NOME}` back: `A{NOME}B` |
| WhatsApp.ReplaceFirst | frontend/src/utils/whatsapp.js:17-18 | `String.prototype.replace` with a string pattern: the first occurrence replaced by the expanded replacement |
| WhatsApp.ReplaceFirstAbsent | frontend/src/utils/whatsapp.js:17-18 | `replace` with a string pattern leaves a text without the pattern alone |
| WhatsApp.ReplaceFirstLeftmost | frontend/src/utils/whatsapp.js:17-18 | only the leftmost occurrence is replaced, by the replacement with its `$` patterns expanded against that match |
| WhatsApp.PlaceholderAfterPrefix | frontend/src/utils/whatsapp.js:17-18 | in `a + p + rest` with no first character of `p` in `a`, the first `p` is right after `a` |
| WhatsApp.ReplaceAfterPrefix | frontend/src/utils/whatsapp.js:17-18 | replacing there gives `a`, the expanded replacement, `rest` |
| WhatsApp.Message | frontend/src/utils/whatsapp.js:15-22 | `template \|\| default`, first `{NOME}` then first `{CIDADE}` replaced with their fallbacks, then the to-order sentence for `SOB_ENCOMENDA` |
| WhatsApp.DefaultMessage | frontend/src/utils/whatsapp.js:15-22 | for a name without `{` and a name and city without `$`: the default template with the name (or `este produto`) and the city (or `Sinop-MT`) in place, plus the to-order sentence exactly for `SOB_ENCOMENDA` |
| WhatsApp.FillBoth | frontend/src/utils/whatsapp.js:17-18 | the two placeholders of a template are filled in order by `$`-free name and city |
| WhatsApp.NumberText | frontend/src/utils/whatsapp.js:9 | `String(whatsappNumero)`: a string as it is, anything else through the conversion parameter |
| WhatsApp.GenerateWhatsAppLink | frontend/src/utils/whatsapp.js:1-33 | `#` exactly when the number is falsy or has no digit; otherwise the `wa.me` link to its digits with the encoded message |
| AuthToken.IndexOf | frontend/src/context/AuthContext.jsx:14 | -1 exactly when the character is absent, else its first position |
| AuthToken.SecondSegment | frontend/src/context/AuthContext.jsx:14 | `split('.')[1]`: undefined exactly without a dot; otherwise the dot-free text after the first dot up to the next |
| AuthToken.Normalized | frontend/src/context/AuthContext.jsx:17 | `-` becomes `+` and `_` becomes `/`, nothing else changes |
| AuthToken.Padding | frontend/src/context/AuthContext.jsx:18 | at most three `=`, bringing the length to a multiple of four |
| AuthToken.Padded | frontend/src/context/AuthContext.jsx:17-19 | the normalised payload followed by `=` up to a multiple of four |
| AuthToken.DecodeTokenPayload | frontend/src/context/AuthContext.jsx:12-24 | null without a non-empty second segment or when decoding or parsing fails; otherwise the parsed payload |
| AuthToken.IsTokenExpired | frontend/src/context/AuthContext.jsx:26-33 | an empty token is expired; an unreadable one or one without a truthy `exp` is not; otherwise expired exactly when now ≥ `exp` × 1000 |
| AuthToken.ExpiryIsPermanent | frontend/src/context/AuthContext.jsx:26-33 | an expired token stays expired as time passes |
| AuthToken.UnreadableTokenNeverExpires | frontend/src/context/AuthContext.jsx:12-31 | a token without a second segment never counts as expired |

## Left out

- The HTTP layer (routing, authentication middleware, JSON bodies) is not part of this model.
  Each handler takes its parsed parameters and returns its status code. Error messages and
  console logging are left out.
- `JSON.parse`, `JSON.stringify`, `parseFloat`, `atob`, `encodeURIComponent`, `String(...)`,
  bcrypt, JWT signing and the clock are function parameters. Their behaviour is not modelled.
- Unicode NFD normalisation in `slugify` is taken as the identity, and case mapping is
  ASCII-only. `\w` and `\s` are modelled on ASCII and the usual JavaScript white space.
- The file system is left out: the multer upload, the `uploads/` directory and the file
  removal in `deleteMedia`. The upload URL is built from the base URL and the file name.
- `getProductBySlug` also reads testimonials, and the listings parse the JSON columns
  (`categorias`, `tags`, `historiaMidia`). Both are left out: they do not affect the
  results modelled here.
- The DDL of `print_jobs`, `print_job_materials` and `filaments` is not part of this model.
  Status `FILA` and `pesoUsado` 0 are taken as the column defaults.
- The `users` DDL has no `nome`, `isActive` or `updatedAt` column, but the code reads and
  writes all three. The model treats them as optional columns. The `hasUpdatedAt` parameter
  says whether `updatedAt` exists.
- The products DDL and its added columns have no `stlLink`, which `getQueue` selects. The
  model gives products an optional `stlLink`, which no handler here writes.
  PrintQueue.GetQueue takes `hasStlLink`; without the column the statement does not prepare
  and the answer is 500.
- AUTOINCREMENT's rule that rowids are never reused is not tracked. A new rowid is one above
  the largest id in use.
- Timestamps are integers given as `now`. `CURRENT_TIMESTAMP` and `new Date().toISOString()`
  both become `now`.
- Floating point: weights, prices and the clock are `real`, without rounding.
  `completionAverage` and `successRate` on the queue screen are left out: they are
  `Math.round` of float ratios and only feed the display.
- Text escaping and `LIKE` wildcards inside search terms are not modelled. `LIKE '%x%'` is a
  substring test on both sides lower-cased, as SQLite's `LIKE` ignores ASCII case; case
  outside ASCII is not folded.
- QueueScreen.UpdateSubmit: the form counts are integers. `Number()` of non-numeric input,
  which gives `NaN` and so never blocks, is not modelled.
- QueueScreen.SubmitPassesServerCheck: requires non-negative counts. The screen lets
  negative counts through, and the server clamps them to 0.
- QueueScreen.HandleMove: the optimistic `setQueue`, the toasts and the refetch after a failed
  save are left out. The method returns the next queue and the request it sends.
- The queue screen's create/delete modals and the material-field editors are left out. They
  only pass values to the endpoints modelled above.
- MediaUploaderView: `handleUpload` is left out (it appends the row the server returns). So
  are the confirm/alert dialogs.
- MediaUploaderView.WithCover: gives only the new list. On a failed request the source keeps
  the old list.
- MediaUploaderView.Without: the same as WithCover; on a failed request the source keeps the
  old list.
- Gallery.Viewer.LightboxMedia: the source throws while rendering an open lightbox whose index
  is past the end. The model gives `None` there.
- Gallery: indices are `nat`. Video autoplay and the thumbnail strip's scrolling are left out.
- WhatsApp.DefaultMessage: requires a product name without `{`, and a name and city without
  `$`. A name that contains `{CIDADE}` would itself be replaced by the second `replace`, and
  a `$` pattern in either is expanded (WhatsApp.ReplaceFirst models this for every input;
  WhatsApp.ExpandMatchedText shows one case).
- WhatsApp.GenerateWhatsAppLink: the name, city and template are strings, and `""` stands
  for `undefined`. The duplicate of this logic in `WhatsAppButton.jsx` is not part of this
  model.
- The `AuthProvider` component (localStorage, the expiry timer, login/logout state) is left
  out. Only the token helpers `decodeTokenPayload` and `isTokenExpired` are modelled.
- `getAdminConfig` and `getPublicConfig` differ only in the order of their SQL query. Both
  are `Config.GetConfig`, because JSON key order is not modelled.
- Auth.UpdateUser: a `nome` or `email` of `null` in the body makes `.trim()` throw (500).
  The model takes them as given strings or absent.
- `formatPrice` (`Intl.NumberFormat`) is left out: it only formats for display.
- `calculatePrice` is folded into Products.ProductPrice.

## Findings

| source | as written | input that shows it | evidently intended | confidence | as-written member | corrected member |
|---|---|---|---|---|---|---|
| frontend/src/pages/admin/ProductionQueue.jsx:236-252 | `index` is the row in `filteredQueue` (lines 412, 514, 522), but the bound check and the swap use the full `queue` | queue `[2 FILA, 3 FILA, 1 CONCLUIDO]` under the default `ATIVOS` filter; "move down" on the last shown row (job 3, index 1) is enabled because 1 ≠ `queue.length - 1`; it swaps queue positions 1 and 2, exchanging job 3 with the hidden job 1, and the shown list stays `[2, 3]` | exchange the two neighbouring rows of the shown list | not executed | QueueScreen.MoveInFilteredViewAsWritten | QueueScreen.HandleMoveInView |

Some behaviours are modelled as written and proved, but have no corrected twin:

- `createJob` backfills `JOB-xxxxxx` without checking that a job already uses it.
- `deleteJob` removes the material lines before it learns that the job does not exist.
- `createJob` inserts the material lines outside a transaction. An entry that cannot be
  bound answers 400 with the job and the lines before it kept (PrintQueue.CreateJob).
- Renaming a product onto another product's slug without giving a `slug` skips the conflict
  check, which runs only for a given `slug`, and ends in the UNIQUE violation (500). See
  Products.RenameCollisionFails.
- A category's non-empty new name is checked. Only clearing it with `nome: ""` skips the
  check and rewrites the slug from the stored name, which can collide (500). See
  Categories.EmptyNameSkipsCheck.
- `null` for a product's `nome` or `peso`, or a category's `nome`, passes the `!== undefined`
  test and violates the NOT NULL constraint (500, nothing written).
- `updateConfig` stops at the first boolean value. The keys before it stay written, and the
  request answers 500.
