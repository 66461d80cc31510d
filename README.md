# WooCommerce Fusion item and stock synchronisation, in Dafny

A model of two parts of the WooCommerce Fusion Frappe app:

- **Item synchronisation.** This is `SynchroniseItem` and the module functions around it in `woocommerce_fusion/tasks/sync_items.py`. It pairs an ERPNext Item's "Item WooCommerce Server" link row with a remote WooCommerce Product. When one side is missing, it creates it. When both exist, it pulls, pushes or does nothing, based on the row's last-sync marker (`woocommerce_last_sync_hash`) and the two modification dates. The item field map copies mapped fields in either direction.
- **The stock push.** This is `woocommerce_fusion/tasks/stock_update.py`.
  - A stock document enqueues one stock update per item row.
  - Each update sends the Item's total actual quantity to every linked site that has an enabled server.
  - It stops at the first PUT that raises.

## How it is modelled

- **Database.** The Frappe database is the class `Store.Catalog`. It holds:
  - the Item table, with each Item's link rows;
  - the Item Attribute table;
  - an append-only log of what leaves the database: saves, inserts, remote POST/PUT and enqueued jobs.

  `db.set_value` writes one column through `SetLinkMarker` and `SetItemValue`. It changes neither the modification date nor runs the hook. A save stamps the document with the store's clock `now` and appends the job that the Item hook would enqueue.
- **Synchronisation class.** `Engine.SynchroniseItem` holds `item` and `woocommerce_product`, and its methods change them and the store.
  - Each method's postcondition relates the old and new `SyncState`: the Item and product held, plus the store's Items, Item Attributes and log.
  - The relations are predicates on values: `Resolved`, `Pulled`, `Pushed`, `ProductCreated`, `ItemCreated` and `Synced`. The lemmas beside them state what each promises.
- **Remote answers.** The remote side and the recursive parent syncs arrive as `Engine.Replies`. This record holds:
  - the products the list query sees;
  - the id and date of an inserted product;
  - the date after a PUT;
  - how the image-freshness test and media upload of a push come out (`ImageRefresh`);
  - the parent's remote id or item code;
  - the new link row's name.
- **Other documents.** WooCommerce Server documents, File documents and Item Price rows are read-only inputs, in `Engine.Env`.
- **Data types.** Timestamps are integers. Remote ids are natural numbers, and 0 means unset. The marker is an `Option<int>`, and `None` means cleared. Mapped fields are `map<string, Value>`. Attribute and image lists are sequences of records, not JSON.
- **Stock push.** The PUT is a `StockPut` record. The set `failing` names the link rows whose PUT raises.

## Model

| member | source | states |
|---|---|---|
| SyncRules.Decide | woocommerce_fusion/tasks/sync_items.py:265-278 | Skip iff the marker equals the remote date. Otherwise Pull iff remote is newer than local, Push iff local is newer, and neither on a tie. |
| SyncRules.MarkerSettlesPair | woocommerce_fusion/tasks/sync_items.py:267-270 | Once the marker holds the remote date, the decision is Skip whatever the Item's date. |
| SyncRules.SourcePullsThenPushes | woocommerce_fusion/tasks/sync_items.py:271-278 | The two consecutive ifs as written pull and then also push on (remote 10, no marker, local 5, rename, clock 20). The exclusive decision only pulls there. |
| SyncRules.SourceBranchesVersusDecide | woocommerce_fusion/tasks/sync_items.py:271-278 | The code's pull test is the exclusive Pull. Its push test is Push, or a renaming Pull saved at a clock later than the remote date. |
| SyncRules.FormatErpnextImgUrl | woocommerce_fusion/tasks/sync_items.py:148-157 | A URL is produced iff the file is public. An "http…" URL is kept unchanged. Any other URL becomes "https://" + site + url. |
| SyncRules.FormatErpnextImgUrlIdempotent | woocommerce_fusion/tasks/sync_items.py:148-157 | Formatting a formatted URL gives it back, and the result ends with the file's URL. |
| SyncRules.FirstRate | woocommerce_fusion/tasks/sync_items.py:739-746 | None iff no row is selectable. Otherwise the rate of the first selectable row, with no earlier row selectable. |
| SyncRules.ItemPriceRate | woocommerce_fusion/tasks/sync_items.py:725-746 | None when price-list sync is off. Otherwise the first rate of the server's price list that has no end of validity or ends after now (the intended comparison, see Findings). |
| SyncRules.FirstRateAsWritten | woocommerce_fusion/tasks/sync_items.py:739-746 | The search as written. None iff the query returns no row. Every failure is a TypeError. |
| SyncRules.AsWrittenAgreesWithoutEndDates | woocommerce_fusion/tasks/sync_items.py:739-746 | When no queried row has an end of validity, the code's search gives the intended rate. |
| SyncRules.AsWrittenRaisesOnEndDate | woocommerce_fusion/tasks/sync_items.py:743 | If the first queried row has an end of validity, the code's search raises TypeError, whatever the date. |
| SyncRules.PriceWithEndDateRaises | woocommerce_fusion/tasks/sync_items.py:743 | One row valid up to 30, asked at 10: the code raises, and the intended search gives rate 5. |
| SyncRules.RegularPrice | woocommerce_fusion/tasks/sync_items.py:437 | `rate or "0"`: a missing or zero rate gives the text "0". Any other rate is kept. |
| SyncRules.PriceWithoutPriceListSync | woocommerce_fusion/tasks/sync_items.py:437 | Without price-list sync, a new product's regular price is "0". |
| SyncRules.ItemCodeFor | woocommerce_fusion/tasks/sync_items.py:485-489 | The SKU under "Product SKU" naming when it is non-empty. Otherwise the decimal text of the remote id, which parses back to the id. |
| SyncRules.StockUomFor | woocommerce_fusion/tasks/sync_items.py:490 | The server's uom when it is set, else "Nos". Never empty. |
| SyncRules.ProductKind | woocommerce_fusion/tasks/sync_items.py:380-407 | "variation" iff the Item is a variant, which overrides "variable". "variable" iff it has variants and is no variant. Otherwise "simple". |
| SyncRules.ValuesOf | woocommerce_fusion/tasks/sync_items.py:396 | The attribute values in row order, same length. |
| SyncRules.BuildVariableAttributes | woocommerce_fusion/tasks/sync_items.py:383-400 | Succeeds iff every attribute row names an existing Item Attribute. Then one entry per row with the slug, visible and variation flags and the full option list. Otherwise it fails on the first unknown attribute. |
| SyncRules.VariationAttributes | woocommerce_fusion/tasks/sync_items.py:409-419 | One entry per attribute row, carrying its slug and its single selected option. |
| SyncRules.OptionsOf | woocommerce_fusion/tasks/sync_items.py:532-534 | `options` on a variable product and `[option]` otherwise. The wrong shape is a KeyError. |
| SyncRules.NewValues | woocommerce_fusion/tasks/sync_items.py:541-545 | One value per option, in order, with the spaces removed for its abbreviation. |
| SyncRules.NewValuesHaveOptionSet | woocommerce_fusion/tasks/sync_items.py:541-545 | The new values' set is the option set. |
| SyncRules.UpsertValuesSpec | woocommerce_fusion/tasks/sync_items.py:536-545 | The values are replaced wholesale iff they are empty or their set differs from the option set, and kept exactly otherwise. The value set afterwards is the option set. |
| SyncRules.UpsertValuesIdempotent | woocommerce_fusion/tasks/sync_items.py:536-545 | A second update with the same options changes nothing. |
| SyncRules.UpsertAllOutcome | woocommerce_fusion/tasks/sync_items.py:517-551 | The attribute loop finishes iff every entry has the shape the product type needs. A failure is a KeyError. On success every entry's name is saved once, in order. |
| SyncRules.UpsertAllKeepsOthers | woocommerce_fusion/tasks/sync_items.py:517-551 | An Item Attribute the list does not name is untouched. |
| SyncRules.UpsertAllSetsOptions | woocommerce_fusion/tasks/sync_items.py:517-551 | After a finished loop, each named Item Attribute offers exactly the options of the last entry of that name. |
| SyncRules.AttributeRows | woocommerce_fusion/tasks/sync_items.py:464-469 | One Item attribute row per remote entry, named after it. The value is set only on a variation. |
| SyncRules.VariationRowsRoundTrip | woocommerce_fusion/tasks/sync_items.py:409-419 | Going from a variation's attribute list to Item rows and back gives the list back, when its slugs are canonical. |
| SyncRules.LinkAt | woocommerce_fusion/tasks/sync_items.py:143-145 | `servers[idx - 1]` with Python indexing: in-range positions give that row, and too-large or too-negative ones fail. |
| SyncRules.LinkAtOwnIndex | woocommerce_fusion/tasks/sync_items.py:86-89 | A row looked up by its own idx is that row. |
| SyncRules.LinkAtZeroIsLast | woocommerce_fusion/tasks/sync_items.py:145 | idx 0 wraps round to the last row. |
| SyncRules.HookJob | woocommerce_fusion/tasks/sync_items.py:30-44 | A job is enqueued iff the document is an Item, was not saved by the synchronisation and has a link row. The job is clear_sync_hash_and_run_item_sync for that Item. |
| SyncRules.FlaggedSaveTriggersNothing | woocommerce_fusion/tasks/sync_items.py:36 | A save flagged `created_by_sync` never enqueues, which breaks save loops. |
| SyncRules.FilterWanted | woocommerce_fusion/tasks/sync_items.py:699-706 | Exactly the remote products that pass the date and id/server filters. |
| SyncRules.FilterWantedFirst | woocommerce_fusion/tasks/sync_items.py:699-706 | The filter keeps remote order: its first product is the first wanted one. |
| SyncRules.ListFirstIsFirstWanted | woocommerce_fusion/tasks/sync_items.py:210-213 | The product the Item lookup takes, the page's first, is the first wanted product in remote order. |
| SyncRules.ListOfWcProducts | woocommerce_fusion/tasks/sync_items.py:681-722 | ValueError without a date or Item. A link without a remote id is refused. Otherwise at most one page of 100 wanted products, and all of them when they fit on it. |
| Text.Contains | woocommerce_fusion/tasks/stock_update.py:47 | Python's `sub in s`: true iff `sub` occurs at some position. |
| Text.FieldNameHead | woocommerce_fusion/tasks/sync_items.py:589 | `split(" \| ")[0]`: a prefix with no separator in it, followed by a separator whenever it is shorter than the name. |
| Text.FieldNameHeadWithoutSeparator | woocommerce_fusion/tasks/sync_items.py:564 | A name without separator is used whole. |
| Text.FieldNameHeadOfLabelled | woocommerce_fusion/tasks/sync_items.py:589-590 | "name \| label" names the field `name`. |
| Text.Slug | woocommerce_fusion/tasks/sync_items.py:393 | `lower().replace(" ", "_")` character by character, lowering ASCII letters only. |
| Text.SlugIsNormal | woocommerce_fusion/tasks/sync_items.py:413 | A slug has no space and no ASCII upper-case letter, and slugging it again changes nothing. |
| Text.StripSpaces | woocommerce_fusion/tasks/sync_items.py:545 | `replace(" ", "")` has no space, is no longer than its input, and keeps a space-free string. |
| Text.StripSpacesIdempotent | woocommerce_fusion/tasks/sync_items.py:545 | Removing spaces twice is removing them once. |
| Text.NatToString | woocommerce_fusion/tasks/sync_items.py:488 | `str(id)` is a non-empty string of digits without a leading zero. |
| Text.NatToStringRoundTrip | woocommerce_fusion/tasks/sync_items.py:488 | Parsing `str(id)` gives the id back. |
| Text.NatToStringInjective | woocommerce_fusion/tasks/sync_items.py:488 | Different ids give different item codes. |
| FieldMapper.SetProductFields | woocommerce_fusion/tasks/sync_items.py:575-596 | The loop computes CopyToRemote. Unmapped fields are unchanged. Each mapped field holds the value of the last row writing it. A clean result is unchanged. With one row per field it is dirty iff the product changed. |
| FieldMapper.CopyToRemoteKeepsUnmapped | woocommerce_fusion/tasks/sync_items.py:588-594 | A product field no row writes keeps its value. |
| FieldMapper.CopyToRemoteLastWins | woocommerce_fusion/tasks/sync_items.py:588-594 | A mapped product field holds the Item value of the last row that writes it. |
| FieldMapper.CopyToRemoteCleanIsUnchanged | woocommerce_fusion/tasks/sync_items.py:592-596 | Not dirty means nothing was written. |
| FieldMapper.CopyToRemoteDirtyIffDiffers | woocommerce_fusion/tasks/sync_items.py:592-596 | With one row per field, dirty iff some row's Item value differed from the product's. |
| FieldMapper.CopyToRemoteDirtyIffChanged | woocommerce_fusion/tasks/sync_items.py:582-596 | With one row per field, dirty iff the product's fields changed. Afterwards every mapped field equals its source. |
| FieldMapper.CopyToRemoteIdempotent | woocommerce_fusion/tasks/sync_items.py:575-596 | A second copy finds nothing to change. |
| FieldMapper.CopyToLocalKeepsUnmapped | woocommerce_fusion/tasks/sync_items.py:563-573 | An Item field no row writes keeps its value. |
| FieldMapper.CopyToLocalLastWins | woocommerce_fusion/tasks/sync_items.py:563-573 | A mapped Item field holds the product value of the last row that writes it. |
| FieldMapper.PullThenPushIsClean | woocommerce_fusion/tasks/sync_items.py:553-596 | Copying remote to local and then local to remote finds nothing dirty. |
| Store.SetMarkerRows | woocommerce_fusion/tasks/sync_items.py:603-609 | The row of that name gets the marker, and every other row is unchanged. |
| Store.SetMarker | woocommerce_fusion/tasks/sync_items.py:603-609 | The same write over the whole Item table. Only link rows change. |
| Store.SetMarkerWritesOnlyTheMarker | woocommerce_fusion/tasks/sync_items.py:598-609 | After the write the named row carries the marker. No Item's date, name, fields or other row columns change. |
| Store.SetField | woocommerce_fusion/tasks/sync_items.py:567-573 | The table keeps its Items. Every other Item is equal. The named Item differs only in its fields, which gain the field with the new value and keep every other field. So its date, name and rows do not change. |
| Store.Catalog.SetLinkMarker | woocommerce_fusion/tasks/sync_items.py:603-609 | The Item table becomes SetMarker of the old one, and the store stays valid. |
| Store.Catalog.SetItemValue | woocommerce_fusion/tasks/sync_items.py:567-573 | The Item table becomes SetField of the old one. |
| Store.Catalog.SetItemValues | woocommerce_fusion/tasks/sync_items.py:563-573 | One write per field map row, in order: the Item table becomes PulledFields of the old one, and the store stays valid. |
| Store.Catalog.SaveItem | woocommerce_fusion/tasks/sync_items.py:286-287 | The document is stamped with the clock and stored without its transient flag. The log gains the save and the hook's job, if any. |
| Store.Catalog.InsertItem | woocommerce_fusion/tasks/sync_items.py:496-498 | Refused with DuplicateEntryError when the code is taken. Otherwise like a save. |
| Store.Catalog.SaveAttribute | woocommerce_fusion/tasks/sync_items.py:547-551 | The Item Attribute takes its new values and the save is logged. |
| Store.Catalog.UpsertAttributes | woocommerce_fusion/tasks/sync_items.py:517-551 | The Item Attribute table and the outcome are those of UpsertAll, and the log gains one save per attribute saved, in order. |
| Store.Catalog.ClearLinkMarkers | woocommerce_fusion/tasks/sync_items.py:761-768 | One marker write per name, in order: the Item table becomes ClearMarkers of the old one. |
| Store.Catalog.RecordAll | woocommerce_fusion/tasks/sync_items.py:85-95 | The log gains exactly the given entries, in order. |
| Engine.PulledFieldsKeepsModified | woocommerce_fusion/tasks/sync_items.py:553-573 | A pull sets each mapped Item field to the product's value. It keeps every other field, the modification date, the name, the rows and every other Item. |
| Engine.PushCopiesItem | woocommerce_fusion/tasks/sync_items.py:298-360 | The pushed product has the Item's name and each mapped field's Item value. Unmapped fields stay. With a public Item image, a product without images gets it by URL. A product with images whose file is newer gets the uploaded media item, named after the file and the Item. Otherwise the images stay. |
| Engine.PushCleanIsUnchanged | woocommerce_fusion/tasks/sync_items.py:362-363 | A push that is not dirty leaves the product exactly as it was. |
| Engine.PushDirtyIffChanged | woocommerce_fusion/tasks/sync_items.py:330-363 | With one row per field, the push is dirty iff the product changes. A media replacement is always dirty. |
| Engine.PushAfterPullIsClean | woocommerce_fusion/tasks/sync_items.py:280-363 | Pushing the same product against the Item as the pull stored it sends nothing, provided either the Item has no public image or the product has images and the freshness test neither raises nor uploads. |
| Engine.WrittenBackLinksRow | woocommerce_fusion/tasks/sync_items.py:443-450 | After the write-back the Item's row at idx carries the new id and the new date as marker. Its other rows, name and fields stay, and its date is the save's. |
| Engine.ResolvedPairs | woocommerce_fusion/tasks/sync_items.py:193-252 | A pair completed by the lookup agrees on server and remote id. |
| Engine.PullWritesNoRemote | woocommerce_fusion/tasks/sync_items.py:280-290 | A pull keeps the product. Its only log entries are Item saves. On success the row's marker is the product's date. |
| Engine.PushSavesNoItem | woocommerce_fusion/tasks/sync_items.py:292-366 | A push keeps the Item held. Its only log entries are PUTs, and without one the product is unchanged. On success no stored Item's fields or date change, and the marker is the product's date. |
| Engine.SyncedSettlesPair | woocommerce_fusion/tasks/sync_items.py:267-278 | After a pull or a push that finishes, every stored row of the link carries the product's date as its marker. Deciding again from that row and the product held gives Skip, whatever the Item's date. |
| Engine.ProductCreatedIsLinked | woocommerce_fusion/tasks/sync_items.py:368-450 | After a successful create, the Item held and the new product agree on server and id at the same row. The stored row carries the new id and the new date as marker. |
| Engine.ItemCreatedIsLinked | woocommerce_fusion/tasks/sync_items.py:452-511 | After a successful create, the new Item is stored under a new code with one row. The product lookup accepts that row for the product, and its marker is the product's date. |
| Engine.PostedProductShape | woocommerce_fusion/tasks/sync_items.py:378-439 | The new product has the server, name and type. A variation gets the selected options and parent id. A variable product gets the full option lists. A simple one gets no attributes. Only a variation has a parent id. No SKU or remote date is set. The price is the selected nonzero rate, else "0". The image list is exactly the Item's public image, or empty when there is none. Mapped fields are the Item's, and nothing else is set. |
| Engine.NewItemForShape | woocommerce_fusion/tasks/sync_items.py:459-498 | The new Item is named by SKU or id. It takes the product's name and the server's item group. Its uom defaults to "Nos". It has variants only for "variable". Only a "variation" has a parent, and that parent is the given parent item code. Attribute rows carry values only on a variation. It has exactly one link row with the product's server and id and no marker. Its type read back is the product's. |
| Engine.SynchroniseItem.constructor | woocommerce_fusion/tasks/sync_items.py:165-174 | The Item to sync, the product, the store and the environment are as given. |
| Engine.SynchroniseItem.SetSyncHash | woocommerce_fusion/tasks/sync_items.py:598-609 | The marker of the Item's link row becomes the product's modification date. Nothing else changes. |
| Engine.SynchroniseItem.SetItemFields | woocommerce_fusion/tasks/sync_items.py:553-573 | With both sides present, the stored Item's fields become PulledFields. A missing server is DoesNotExistError. With a side missing, nothing happens. |
| Engine.SynchroniseItem.GetErpnextItem | woocommerce_fusion/tasks/sync_items.py:218-252 | ItemFound: ValueError without server or id. Otherwise the Item owning an enabled link row with that server and id is selected, at that row's position. With no such row the Item stays unset. Nothing else changes. Within the Item, the position is that of the first row with the query's row name. |
| Engine.SynchroniseItem.FetchProduct | woocommerce_fusion/tasks/sync_items.py:197-213 | ProductFetched: DoesNotExistError for a missing server, SyncDisabledError when sync is off, ValueError when the remote has none. Otherwise the product is the first result, and nothing else changes. |
| Engine.SynchroniseItem.GetCorrespondingItemOrProduct | woocommerce_fusion/tasks/sync_items.py:193-216 | Resolved: an Item with a remote id fetches its product, and a product without an Item looks it up. Otherwise nothing changes. The store is never written. |
| Engine.SynchroniseItem.RenameItem | woocommerce_fusion/tasks/sync_items.py:284-287 | A renamed product renames the Item held: it takes the product's name and is saved flagged as the sync's own, at the clock. The log gains only that save. Otherwise nothing changes. |
| Engine.SynchroniseItem.UpdateItem | woocommerce_fusion/tasks/sync_items.py:280-290 | Pulled: the rename step, then the mapped fields of the stored Item take the product's values and the marker is set to the product's date. A missing server fails after the rename. |
| Engine.SynchroniseItem.UpdateWooCommerceProduct | woocommerce_fusion/tasks/sync_items.py:292-366 | Pushed. A product with images whose file is not newer reads an unassigned media response and raises UnboundLocalError, writing nothing. A missing server writes nothing. Otherwise the product becomes PushedProduct, is PUT only when dirty, and the marker is set to its date either way. |
| Engine.SynchroniseItem.PutProduct | woocommerce_fusion/tasks/sync_items.py:362-366 | A dirty product is PUT and takes the saved date. The product is kept and the marker becomes its date. |
| Engine.SynchroniseItem.PrepareProduct | woocommerce_fusion/tasks/sync_items.py:378-439 | Fails on an unknown Item Attribute, a missing parent Item or a missing server, in that order. Otherwise returns PostedProduct. |
| Engine.SynchroniseItem.WriteBackRemoteId | woocommerce_fusion/tasks/sync_items.py:444-450 | The Item held becomes the reloaded Item, whose row at idx takes the new remote id. The table becomes WrittenBack: the Item is saved as the sync's own and the marker is set. A missing Item or row fails and writes nothing. |
| Engine.SynchroniseItem.PostProduct | woocommerce_fusion/tasks/sync_items.py:441-450 | The product is posted and takes the new id and date. The write-back succeeds iff the Item and its row are still there. Then the Item held is the reloaded one and the table is WrittenBack. A failure leaves only the post. |
| Engine.SynchroniseItem.CreateWooCommerceProduct | woocommerce_fusion/tasks/sync_items.py:368-450 | ProductCreated: nothing unless the row has a server, is enabled and has no remote id. A failed lookup writes nothing. Otherwise PostedProduct is posted and its new id is written back into the reloaded Item's row, as in PostProduct. |
| Engine.SynchroniseItem.CreateOrUpdateItemAttributes | woocommerce_fusion/tasks/sync_items.py:513-551 | The Item Attribute table, outcome and saves are those of UpsertAll over the product's attribute list. |
| Engine.SynchroniseItem.CreateItem | woocommerce_fusion/tasks/sync_items.py:452-511 | ItemCreated: a missing server writes nothing. The attributes of a variable product or variation are updated first, and a failure there stops it with the saves done so far. Then NewItemInserted. |
| Engine.SynchroniseItem.InsertAndPull | woocommerce_fusion/tasks/sync_items.py:459-511 | NewItemInserted: a taken code fails with DuplicateEntryError and writes nothing. Otherwise NewItemFor is stored and becomes the Item to sync at its one row. It pulls the mapped fields and takes the product's date as marker. |
| Engine.SynchroniseItem.SyncWcProductWithErpnextItem | woocommerce_fusion/tasks/sync_items.py:254-278 | Synced: with the Item only, ProductCreated. With the product only, ItemCreated. With both, Decide chooses Pulled, Pushed or no change. With neither, nothing changes. |
| Engine.SynchroniseItem.Run | woocommerce_fusion/tasks/sync_items.py:176-191 | Some intermediate state is Resolved from the old one. A failed lookup (missing server, sync disabled, no product, product without server or id) stops there, before anything is written. Otherwise the new state is Synced from it. |
| Triggers.RunItemSync | woocommerce_fusion/tasks/sync_items.py:48-99 | ValueError when all four arguments are absent. A product, given or loaded by name, wins. An Item without link rows is refused. Otherwise there is one synchronisation per link row, in order, each at its own row. |
| Triggers.EnabledNames | woocommerce_fusion/tasks/sync_items.py:757-759 | Exactly the names of the enabled link rows. |
| Triggers.ClearMarkersByName | woocommerce_fusion/tasks/sync_items.py:761-768 | Clearing by name empties the marker of every row with one of the names, and nothing else. |
| Triggers.ClearSyncHashClearsEnabledRows | woocommerce_fusion/tasks/sync_items.py:749-768 | The markers of the Item's enabled rows are cleared. Its disabled rows and all other Items are unchanged. |
| Triggers.ClearingKeepsRows | woocommerce_fusion/tasks/sync_items.py:749-771 | When there is an enabled row to clear, the Item exists and keeps its code, its row count and its rows' positions. |
| Triggers.ClearSyncHashAndRunItemSync | woocommerce_fusion/tasks/sync_items.py:749-771 | Clears the enabled rows' markers. It enqueues one sync per link row iff at least one row was enabled. |
| StockUpdate.UpdateStockLevelsForWoocommerceItem | woocommerce_fusion/tasks/stock_update.py:5-16 | Only the four stock doctypes act, and a Sales Invoice with update_stock 0 does not. Otherwise there is one job per item row, in order, duplicates included. |
| StockUpdate.TotalIgnoresReserved | woocommerce_fusion/tasks/stock_update.py:35-63 | The total depends only on the item's actual quantities, not on reserved quantities or other items' bins. |
| StockUpdate.ChooseServerFirstMatch | woocommerce_fusion/tasks/stock_update.py:43-50 | None iff no server serves the site. Otherwise the first server whose URL contains the site and whose sync is enabled. |
| StockUpdate.EmptySiteTakesFirstEnabled | woocommerce_fusion/tasks/stock_update.py:47 | A link row with an empty site gets the first enabled server, whatever its URL. |
| StockUpdate.PushFromFinishes | woocommerce_fusion/tasks/stock_update.py:39-80 | The loop finishes, and the function returns True, iff no PUT to a served site raises. |
| StockUpdate.PushFromQuantity | woocommerce_fusion/tasks/stock_update.py:63-66 | Every PUT carries the same total. A finished loop sends exactly what a run without failures sends. |
| StockUpdate.PushFromStopsAtFirstFailure | woocommerce_fusion/tasks/stock_update.py:65-70 | A raising PUT returns False at once. The PUTs sent are those of a run without failures up to the first failing site, and later sites get none. |
| StockUpdate.UpdateStockLevelsOnWoocommerceSite | woocommerce_fusion/tasks/stock_update.py:20-80 | A missing Item raises DoesNotExistError. An Item without link rows gives False and sends nothing. Otherwise the result and PUTs are those of the per-site loop over the Item's total actual quantity. |

## Left out

- **HTTP.** Everything HTTP is left out: the WooCommerce API client, `handle_media_update` and the stock PUT itself. Remote answers are inputs in `Replies`, and the set of link rows whose PUT raises is an input.
- **Non-200 branch.** The non-200 branch of the stock PUT (stock_update.py:71-78) concatenates a string with the response object. What it does is not claimed. The model treats every PUT that does not raise as the end of that site's iteration.
- **Image freshness.** In the image step of update_woocommerce_product (sync_items.py:311-349), three things are the `Replies.refresh` oracle: the date comparison, the ISO parsing of the product image's date and the media upload (`handle_media_update`). The branch itself is modelled in `WithImage` and `UpdateWooCommerceProduct`. That covers the replacement by the uploaded media item and the UnboundLocalError when the file is not newer.
- Engine.WithImage: the `tzinfo` test (sync_items.py:311) is taken to hold, because Frappe stores naive datetimes. An aware date would skip the whole image step, and that is not modelled.
- Engine.WithImage: a first image without `date_modified_gmt` makes `fromisoformat(None)` raise TypeError, which `except ValueError` does not catch. The oracle has no such outcome here. The media id is text in the code and a number here, and an upload that raises is not modelled. The `log_error` calls are left out.
- Engine.PushCopiesItem, Engine.PushAfterPullIsClean: these hold only where the image step does not raise. The raising case is UpdateWooCommerceProduct's UnboundLocalError outcome.
- Engine.PushAfterPullIsClean: it is about the Item as the pull stored it. In the code, the push that may follow a pull sees the Item in memory, whose mapped fields the pull did not change.
- Engine.SynchroniseItem.UpdateWooCommerceProduct: the code changes the product object in place before it looks up the server. When the server is missing, the model keeps the held product unchanged.
- Text.Slug, Text.SlugIsNormal: `lower()` covers ASCII letters only here. Python also lowers other Unicode letters, and Dafny has no Unicode case table.
- Triggers.RunItemSync: it returns one prepared synchronisation per link row, as values. With `enqueue=False` the code runs each sync at once on one shared Item object (sync_items.py:84-95), so a later row sees the earlier writes. The `enqueue` flag and the returned (item, product) pair (sync_items.py:96-99) are not modelled.
- **Recursive parent syncs.** `run_item_sync` for the parent of a variant or variation (sync_items.py:404-406, 477-483) is an oracle. The parent's remote id or item code comes from `Replies`. What that nested sync writes is not modelled.
- **Bulk sync.** `sync_woocommerce_products_modified_since`, the scheduled bulk sync, is not modelled. It is orchestration over the remote fetch, the clock and the settings.
- **Pagination, JSON and jobs.** Pagination, JSON (de)serialisation, `msgprint`, `log_error` and the logging in `run` are left out. Enqueued jobs are logged, not run.
- **Floating point.** Quantities and rates are integers.
- **Clock.** The clock is the store's `now`, and the site's host name is `Env.site`.
- Engine.SynchroniseItem.GetErpnextItem: the query has no ORDER BY, so the model promises some enabled matching row, not a particular one.
- FieldMapper.SetProductFields, Engine.SynchroniseItem.SetItemFields: a field-map name that the Item or product lacks is read as Null and written as a new key. On the push, `getattr` raises AttributeError on such a name (sync_items.py:590, 592). On the pull, the product side is read with `.get` and gives None as modelled (sync_items.py:565), but `db.set_value` refuses an unknown Item column (sync_items.py:567-573).
- Engine.SynchroniseItem.PrepareProduct, Engine.SynchroniseItem.CreateWooCommerceProduct, Engine.PostedProductShape: they use the corrected price search, SyncRules.FirstRate (see Findings). Where the code raises TypeError at sync_items.py:743, because the first queried price row has an end of validity, the model posts the product at that row's rate or a later one.
- Engine.SynchroniseItem.SyncWcProductWithErpnextItem: the model uses the exclusive decision (see Findings). The code's pull-then-push on a renaming pull is exhibited separately, not followed.
- Engine.NewItemForShape: the new link row is enabled. That is the DocType's default, which the code does not set.
- Engine.SynchroniseItem.GetCorrespondingItemOrProduct: the remote list is modelled as the filter of `Replies.remote`.
- Engine.SynchroniseItem.Run: a product loaded by name that does not exist fails as DoesNotExistError in `Triggers.RunItemSync`, before any sync.
- SyncRules.ItemPriceRate: the Item Price query is keyed on the Item's `item_name`, as the code writes it (sync_items.py:736), not on its item code.
- Triggers.ClearSyncHashClearsEnabledRows: it requires link-row names to be unique across the table, as Frappe document names are.
- Triggers.ClearSyncHashAndRunItemSync: with an empty item code, the nested `run_item_sync` refuses its arguments after the markers are cleared, and the model returns that ValueError.
- StockUpdate.UpdateStockLevelsOnWoocommerceSite: a site's server is used only through its URL. The API keys and the timeout are not modelled.

## Findings

| source | as written | input that shows it | evidently intended | confidence | as-written member | corrected member |
|---|---|---|---|---|---|---|
| woocommerce_fusion/tasks/sync_items.py:743 | `price.valid_upto > now()`. `frappe.utils.now` returns text, so a row with an end of validity compares a date with a string, and Python 3 raises TypeError. | One Item Price row "Widget" on "Standard Selling", rate 5, valid up to 30, asked at 10: TypeError instead of rate 5. | Compare with the current date (`getdate()` or `now_datetime()`), so rows still valid are taken. | medium, not executed | SyncRules.FirstRateAsWritten, SyncRules.PriceWithEndDateRaises | SyncRules.FirstRate |
| woocommerce_fusion/tasks/sync_items.py:271-278 | Two consecutive `if`s. After a pull that renames the Item, `update_item` saves it, so its in-memory `modified` becomes the clock and the second test then sees the Item as newer than the product. | Remote date 10, no marker, Item date 5, product name differs from the Item's, clock 20: pull, then push. | One of pull, push or nothing (`if` / `elif`). | medium, not executed | SyncRules.SourcePullsThenPushes | SyncRules.Decide |
