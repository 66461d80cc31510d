/**
 * SynchroniseItem: one synchronisation of a catalog Item's link row with
 * its remote WooCommerce Product. It resolves the missing side, then
 * creates the remote product, creates the local Item, or, when both
 * exist, pulls, pushes or does nothing according to the last-sync marker,
 * and finally records the remote modification date as the new marker.
 */
module Engine {
  import opened Records
  import opened Text
  import opened FieldMapper
  import opened SyncRules
  import opened Store

  /** ERPNextItemToSync: an Item and the 1-based idx of the link row being synchronised. */
  datatype ItemToSync = ItemToSync(item: Item, idx: int)
  {
    predicate InRange()
    {
      1 <= idx <= |item.servers|
    }

    /** item_woocommerce_server */
    function Link(): Link
      requires InRange()
    {
      item.servers[idx - 1]
    }
  }

  /**
   * What the synchronisation reads besides the catalog: the WooCommerce
   * Server documents by name, the File documents by URL, the Item Price
   * table and the site's host name.
   */
  datatype Env = Env(servers: map<string, ServerConfig>, files: map<string, FileInfo>, prices: seq<ItemPrice>, site: string)
  {
    /** A server document is stored under its own name. */
    predicate Valid()
    {
      forall k :: k in servers ==> servers[k].name == k
    }
  }

  /**
   * How the image-freshness test of a push comes out for a product that
   * already has images: the Item's file is not newer than the product's
   * first image, the image's date does not parse, or the file is newer and
   * the media upload answers with a media id (0 when it answers nothing,
   * as it does for a server without sync).
   */
  datatype ImageRefresh = NotNewer | BadImageDate | Uploaded(mediaId: nat)

  /** What the remote side and the recursive parent syncs answer. */
  datatype Replies = Replies(
    remote: seq<Product>,             // the remote products the list query sees
    newId: nat,                       // the id the remote gives an inserted product
    newDate: int,                     // the modification date of an inserted product
    savedDate: int,                   // the modification date a product carries after an update
    refresh: ImageRefresh,            // the image-freshness test and media upload of a push
    parentWcId: nat,                  // the parent's remote id, from the sync of the parent Item
    parentItemCode: string,           // the parent's item code, from the sync of the parent product
    newRowName: string)               // the document name of a new link row

  /** A link row and a product that name the same server and remote id. */
  predicate Paired(l: Link, p: Product)
  {
    l.server == p.server && l.woocommerceId == p.id
  }

  /** A link row that the product lookup accepts for this product. */
  predicate Matches(l: Link, p: Product)
  {
    l.enabled && Paired(l, p)
  }

  /** Row `j` of the stored Item `c` is an accepted link to `p`. */
  predicate LinkedAt(items: map<string, Item>, c: string, j: int, p: Product)
  {
    c in items && 0 <= j < |items[c].servers| && Matches(items[c].servers[j], p)
  }

  /** The public URL of the Item's image, when it has a File and the File is public. */
  function ImageUrl(it: Item, env: Env): Option<string>
  {
    if it.image != "" && it.image in env.files then FormatErpnextImgUrl(env.files[it.image], env.site) else None
  }

  /** A pull never changes a stored Item's modification date, name or rows; it sets each mapped field to the product's value. */
  lemma PulledFieldsKeepsModified(items: map<string, Item>, code: string, maps: seq<FieldMap>, remote: Fields)
    ensures var r := PulledFields(items, code, maps, remote);
      r.Keys == items.Keys &&
      (forall c :: c in items ==> r[c] == items[c].(fields := r[c].fields)) &&
      (forall c :: c in items && c != code ==> r[c] == items[c])
    ensures code in items ==>
      var f := PulledFields(items, code, maps, remote)[code].fields;
      (forall i :: 0 <= i < |maps| && LastForLocal(maps, i) ==>
        Get(f, LocalField(maps[i])) == Get(remote, maps[i].woocommerceField)) &&
      (forall k :: k !in LocalTargets(maps) ==> (k in f <==> k in items[code].fields) && Get(f, k) == Get(items[code].fields, k))
  {
    if code in items {
      var local := items[code].fields;
      forall i | 0 <= i < |maps| && LastForLocal(maps, i)
        ensures Get(CopyToLocal(maps, remote, local), LocalField(maps[i])) == Get(remote, maps[i].woocommerceField)
      {
        CopyToLocalLastWins(maps, remote, local, i);
      }
      forall k | k !in LocalTargets(maps)
        ensures var f := CopyToLocal(maps, remote, local); (k in f <==> k in local) && Get(f, k) == Get(local, k)
      {
        CopyToLocalKeepsUnmapped(maps, remote, local, k);
      }
    }
  }

  /**
   * The image step of a push raises: the Item's image is public, the
   * product has images and the Item's file is not newer, so the media
   * response is read before it was ever assigned.
   */
  predicate ImageRaises(p: Product, it: Item, env: Env, refresh: ImageRefresh)
  {
    ImageUrl(it, env).Some? && p.images != [] && refresh == NotNewer
  }

  /** The image step replaces the product's images by a newly uploaded media item. */
  predicate MediaReplaced(p: Product, it: Item, env: Env, refresh: ImageRefresh)
  {
    ImageUrl(it, env).Some? && p.images != [] && refresh.Uploaded? && refresh.mediaId != 0
  }

  /**
   * The image step of a push: with a public Item image, a product without
   * images gets it by URL, and a product with images gets the uploaded
   * media item when the upload answered with an id; otherwise nothing.
   */
  function WithImage(p: Product, it: Item, env: Env, refresh: ImageRefresh): (Product, bool)
    requires !ImageRaises(p, it, env, refresh)
  {
    var url := ImageUrl(it, env);
    if url.None? then (p, false)
    else if p.images == [] then (p.(images := [Image(url.value)]), true)
    else if refresh.Uploaded? && refresh.mediaId != 0 then
      (p.(images := [Media(refresh.mediaId, env.files[it.image].fileName, it.itemName)]), true)
    else (p, false)
  }

  /** update_woocommerce_product before the save: the product with the Item's image, name and mapped fields, and the dirty flag. */
  function PushedProduct(p: Product, it: Item, maps: seq<FieldMap>, env: Env, refresh: ImageRefresh): (Product, bool)
    requires !ImageRaises(p, it, env, refresh)
  {
    var (p1, d1) := WithImage(p, it, env, refresh);
    var p2 := p1.(name := it.itemName);
    var (f, d3) := CopyToRemote(maps, it.fields, p2.fields);
    (p2.(fields := f), d1 || p1.name != it.itemName || d3)
  }

  /**
   * A push gives the product the Item's name and every mapped field the
   * Item's value, and leaves unmapped fields and everything the push does
   * not manage alone. With a public Item image, a product without images
   * gets it by URL and a product with images gets the uploaded media item,
   * named after the file and the Item; in every other case the images stay.
   */
  lemma PushCopiesItem(p: Product, it: Item, maps: seq<FieldMap>, env: Env, refresh: ImageRefresh)
    requires !ImageRaises(p, it, env, refresh)
    ensures var q := PushedProduct(p, it, maps, env, refresh).0;
      q.name == it.itemName &&
      q == p.(name := q.name, images := q.images, fields := q.fields) &&
      (ImageUrl(it, env).Some? && p.images == [] ==> q.images == [Image(ImageUrl(it, env).value)]) &&
      (MediaReplaced(p, it, env, refresh) ==>
        q.images == [Media(refresh.mediaId, env.files[it.image].fileName, it.itemName)]) &&
      (ImageUrl(it, env).None? || (p.images != [] && !MediaReplaced(p, it, env, refresh)) ==> q.images == p.images) &&
      (forall i :: 0 <= i < |maps| && LastForTarget(maps, i) ==>
        Get(q.fields, maps[i].woocommerceField) == Get(it.fields, LocalField(maps[i]))) &&
      (forall k :: k !in Targets(maps) ==> (k in q.fields <==> k in p.fields) && Get(q.fields, k) == Get(p.fields, k))
  {
    var (p1, d1) := WithImage(p, it, env, refresh);
    var p2 := p1.(name := it.itemName);
    forall i | 0 <= i < |maps| && LastForTarget(maps, i)
      ensures Get(CopyToRemote(maps, it.fields, p2.fields).0, maps[i].woocommerceField) == Get(it.fields, LocalField(maps[i]))
    {
      CopyToRemoteLastWins(maps, it.fields, p2.fields, i);
    }
    forall k | k !in Targets(maps)
      ensures var f := CopyToRemote(maps, it.fields, p2.fields).0; (k in f <==> k in p.fields) && Get(f, k) == Get(p.fields, k)
    {
      CopyToRemoteKeepsUnmapped(maps, it.fields, p2.fields, k);
    }
  }

  /** A clean push leaves the product exactly as it was. */
  lemma PushCleanIsUnchanged(p: Product, it: Item, maps: seq<FieldMap>, env: Env, refresh: ImageRefresh)
    requires !ImageRaises(p, it, env, refresh)
    ensures !PushedProduct(p, it, maps, env, refresh).1 ==> PushedProduct(p, it, maps, env, refresh).0 == p
  {
    var (p1, d1) := WithImage(p, it, env, refresh);
    var p2 := p1.(name := it.itemName);
    CopyToRemoteCleanIsUnchanged(maps, it.fields, p2.fields);
  }

  /**
   * With one row per product field, the push is dirty exactly when the
   * product changes, except that an uploaded media item always makes it
   * dirty, even one equal to the product's current image list.
   */
  lemma PushDirtyIffChanged(p: Product, it: Item, maps: seq<FieldMap>, env: Env, refresh: ImageRefresh)
    requires DistinctTargets(maps) && !ImageRaises(p, it, env, refresh)
    ensures !MediaReplaced(p, it, env, refresh) ==>
      (PushedProduct(p, it, maps, env, refresh).1 <==> PushedProduct(p, it, maps, env, refresh).0 != p)
    ensures MediaReplaced(p, it, env, refresh) ==> PushedProduct(p, it, maps, env, refresh).1
  {
    var (p1, d1) := WithImage(p, it, env, refresh);
    var p2 := p1.(name := it.itemName);
    CopyToRemoteDirtyIffChanged(maps, it.fields, p2.fields);
    CopyToRemoteCleanIsUnchanged(maps, it.fields, p2.fields);
    var q := PushedProduct(p, it, maps, env, refresh).0;
    if d1 && !MediaReplaced(p, it, env, refresh) {
      assert q.images != p.images;
    } else if p1.name != it.itemName {
      assert q.name != p.name;
    } else if CopyToRemote(maps, it.fields, p2.fields).1 {
      assert q.fields != p.fields;
    }
  }

  /**
   * A push of the same product against the Item as the pull stored it,
   * with the product's name and mapped fields, sends nothing when the
   * image step adds nothing: the Item has no public image, or the product
   * has images and the freshness test neither raises nor uploads. (The
   * push that update_item's caller may run next sees the Item in memory,
   * whose mapped fields the pull did not change.)
   */
  lemma PushAfterPullIsClean(p: Product, it: Item, maps: seq<FieldMap>, env: Env, refresh: ImageRefresh)
    requires DistinctTargets(maps) && DistinctLocalFields(maps)
    requires ImageUrl(it, env).None? || (p.images != [] && (refresh == BadImageDate || refresh == Uploaded(0)))
    ensures PushedProduct(p, it.(itemName := p.name, fields := CopyToLocal(maps, p.fields, it.fields)), maps, env, refresh) == (p, false)
  {
    var it' := it.(itemName := p.name, fields := CopyToLocal(maps, p.fields, it.fields));
    assert ImageUrl(it', env) == ImageUrl(it, env);
    PullThenPushIsClean(maps, p.fields, it.fields);
  }

  /** create_woocommerce_product's new product before insertion. */
  function DraftProduct(it: Item, server: string, variable: seq<WcAttribute>, parentId: nat, imageUrl: Option<string>, price: Value): Product
  {
    var kind := ProductKind(it);
    Product(
      server := server, id := 0, name := it.itemName, dateModified := 0, kind := kind, sku := "",
      parentId := if kind == "variation" then parentId else 0,
      regularPrice := price,
      attributes := if kind == "variation" then VariationAttributes(it.attributes) else if kind == "variable" then variable else [],
      images := if imageUrl.Some? then [Image(imageUrl.value)] else [],
      fields := map[])
  }

  /** The product create_woocommerce_product inserts for a link row on `server`. */
  function PostedProduct(it: Item, server: ServerConfig, env: Env, attributes: map<string, seq<AttributeValue>>, parentId: nat, now: int): Product
    requires it.hasVariants ==> AttributesKnown(it.attributes, attributes)
  {
    var variable := if it.hasVariants then VariableAttributes(it.attributes, attributes) else [];
    var draft := DraftProduct(it, server.name, variable, parentId, ImageUrl(it, env), RegularPrice(ItemPriceRate(server, env.prices, it, now)));
    draft.(fields := CopyToRemote(server.itemFieldMap, it.fields, draft.fields).0)
  }

  /**
   * The inserted product has the Item's name and type; a variation carries
   * the selected value of each attribute row and its parent's id; a
   * variable product carries every value of each attribute; a simple one
   * carries none; only a variation has a parent id, and no SKU or remote
   * date is set. The price is the selected rate, falling back to "0"; the
   * image list is the Item's public image alone, or empty without one; the
   * mapped fields hold the Item's values and no other field is set.
   */
  lemma PostedProductShape(it: Item, server: ServerConfig, env: Env, attributes: map<string, seq<AttributeValue>>, parentId: nat, now: int)
    requires it.hasVariants ==> AttributesKnown(it.attributes, attributes)
    ensures var q := PostedProduct(it, server, env, attributes, parentId, now);
      q.server == server.name && q.id == 0 && q.name == it.itemName &&
      (q.kind == "variation" <==> it.variantOf != "") &&
      (q.kind == "variable" <==> it.variantOf == "" && it.hasVariants) &&
      (q.kind == "simple" <==> it.variantOf == "" && !it.hasVariants) &&
      (q.kind == "variation" ==>
        q.parentId == parentId && |q.attributes| == |it.attributes| &&
        (forall i :: 0 <= i < |it.attributes| ==>
          q.attributes[i] == Selected(it.attributes[i].attribute, Slug(it.attributes[i].attribute), it.attributes[i].attributeValue))) &&
      (q.kind == "variable" ==>
        |q.attributes| == |it.attributes| &&
        (forall i :: 0 <= i < |it.attributes| ==>
          q.attributes[i] == Full(it.attributes[i].attribute, Slug(it.attributes[i].attribute), true, true,
                                  ValuesOf(attributes[it.attributes[i].attribute])))) &&
      (q.kind == "simple" ==> q.attributes == []) &&
      (q.kind != "variation" ==> q.parentId == 0) &&
      q.sku == "" && q.dateModified == 0 &&
      (ItemPriceRate(server, env.prices, it, now) in {None, Some(0)} ==> q.regularPrice == Str("0")) &&
      (ItemPriceRate(server, env.prices, it, now).Some? && ItemPriceRate(server, env.prices, it, now).value != 0 ==>
        q.regularPrice == Int(ItemPriceRate(server, env.prices, it, now).value)) &&
      (ImageUrl(it, env).None? ==> q.images == []) &&
      (ImageUrl(it, env).Some? ==> q.images == [Image(ImageUrl(it, env).value)]) &&
      (forall i :: 0 <= i < |server.itemFieldMap| && LastForTarget(server.itemFieldMap, i) ==>
        Get(q.fields, server.itemFieldMap[i].woocommerceField) == Get(it.fields, LocalField(server.itemFieldMap[i]))) &&
      (forall k :: k !in Targets(server.itemFieldMap) ==> k !in q.fields)
  {
    var variable := if it.hasVariants then VariableAttributes(it.attributes, attributes) else [];
    var draft := DraftProduct(it, server.name, variable, parentId, ImageUrl(it, env), RegularPrice(ItemPriceRate(server, env.prices, it, now)));
    var maps := server.itemFieldMap;
    forall i | 0 <= i < |maps| && LastForTarget(maps, i)
      ensures Get(CopyToRemote(maps, it.fields, draft.fields).0, maps[i].woocommerceField) == Get(it.fields, LocalField(maps[i]))
    {
      CopyToRemoteLastWins(maps, it.fields, draft.fields, i);
    }
    forall k | k !in Targets(maps) ensures k !in CopyToRemote(maps, it.fields, draft.fields).0 {
      CopyToRemoteKeepsUnmapped(maps, it.fields, draft.fields, k);
    }
  }

  /** create_item's new Item for a remote product, before insertion. */
  function NewItemFor(server: ServerConfig, p: Product, parentCode: string, rowName: string): Item
  {
    Item(
      code := ItemCodeFor(server, p), itemName := p.name, modified := 0,
      stockUom := StockUomFor(server), itemGroup := server.itemGroup,
      hasVariants := p.kind == "variable",
      variantOf := if p.kind == "variation" then parentCode else "",
      image := "",
      attributes := if p.kind == "variable" || p.kind == "variation" then AttributeRows(p.kind, p.attributes) else [],
      servers := [Link(rowName, 1, server.name, "", p.id, None, true)],
      fields := map[], createdBySync := true)
  }

  /**
   * The new Item is named by SKU or by remote id as the server says, takes
   * the product's name and the server's item group, has variants only for
   * a variable product and, only for a variation, the parent's item code, takes a selected attribute value only on a variation, and
   * has exactly one link row, which the product lookup accepts for `p`.
   * Its type read back as a product is the product's type.
   */
  lemma NewItemForShape(server: ServerConfig, p: Product, parentCode: string, rowName: string)
    requires server.name == p.server
    ensures var it := NewItemFor(server, p, parentCode, rowName);
      (server.nameBy == "Product SKU" && p.sku != "" ==> it.code == p.sku) &&
      (!(server.nameBy == "Product SKU" && p.sku != "") ==> ParseNat(it.code) == p.id) &&
      it.stockUom != "" && (server.uom != "" ==> it.stockUom == server.uom) && (server.uom == "" ==> it.stockUom == "Nos") &&
      (it.hasVariants <==> p.kind == "variable") &&
      it.itemName == p.name && it.itemGroup == server.itemGroup &&
      (p.kind != "variation" ==> it.variantOf == "") &&
      (p.kind == "variation" ==> it.variantOf == parentCode) &&
      (p.kind in {"variable", "variation"} ==>
        |it.attributes| == |p.attributes| &&
        (forall i :: 0 <= i < |p.attributes| ==>
          it.attributes[i].attribute == p.attributes[i].name &&
          (p.kind == "variable" ==> it.attributes[i].attributeValue == ""))) &&
      (p.kind !in {"variable", "variation"} ==> it.attributes == []) &&
      |it.servers| == 1 && WellFormed(it) && Matches(it.servers[0], p) && it.servers[0].lastSyncHash == None &&
      (p.kind in {"simple", "variable"} || (p.kind == "variation" && parentCode != "") ==> ProductKind(it) == p.kind)
  {
    var it := NewItemFor(server, p, parentCode, rowName);
    if !(server.nameBy == "Product SKU" && p.sku != "") {
      assert it.code == NatToString(p.id);
      NatToStringRoundTrip(p.id);
    }
  }

  /** create_woocommerce_product's reloaded Item: the row at `idx` takes the new id, flagged as the synchronisation's own save at `now`. */
  function Reloaded(items: map<string, Item>, code: string, idx: int, newId: nat, now: int): Item
    requires code in items && 1 <= idx <= |items[code].servers|
  {
    var it := items[code];
    it.(servers := it.servers[idx - 1 := it.servers[idx - 1].(woocommerceId := newId)], createdBySync := true, modified := now)
  }

  /** The Item table after the write-back: the reloaded Item saved, then its row's marker set to `date`. */
  function WrittenBack(items: map<string, Item>, code: string, idx: int, newId: nat, date: int, now: int): map<string, Item>
    requires code in items && 1 <= idx <= |items[code].servers|
  {
    SetMarker(items[code := Reloaded(items, code, idx, newId, now).(createdBySync := false)], items[code].servers[idx - 1].name, Some(date))
  }

  /**
   * The write-back links the new product: the Item's row at `idx` carries
   * the new remote id and the new date as marker, its other rows, name and
   * fields stay, its date is the save's, and the marker is set on every row
   * of that name.
   */
  lemma WrittenBackLinksRow(items: map<string, Item>, code: string, idx: int, newId: nat, date: int, now: int)
    requires code in items && 1 <= idx <= |items[code].servers| && WellFormed(items[code])
    ensures var r, it := WrittenBack(items, code, idx, newId, date, now), items[code];
      r.Keys == items.Keys &&
      r[code].modified == now && !r[code].createdBySync && r[code].itemName == it.itemName && r[code].fields == it.fields &&
      |r[code].servers| == |it.servers| &&
      r[code].servers[idx - 1] == it.servers[idx - 1].(woocommerceId := newId, lastSyncHash := Some(date)) &&
      (forall j :: 0 <= j < |it.servers| && j != idx - 1 ==> r[code].servers[j] == it.servers[j]) &&
      MarkerIs(r, it.servers[idx - 1].name, Some(date))
  {
    var it := items[code];
    var name := it.servers[idx - 1].name;
    var saved := Reloaded(items, code, idx, newId, now).(createdBySync := false);
    SetMarkerWritesOnlyTheMarker(items[code := saved], name, Some(date));
    assert forall j :: 0 <= j < |it.servers| && j != idx - 1 ==> it.servers[j].name != name;
  }

  /** The Item Attributes create_item saves before it builds the Item. */
  function UpsertedNames(kind: string, attrs: seq<WcAttribute>, stored: map<string, seq<AttributeValue>>): seq<string>
  {
    if kind == "variable" || kind == "variation" then UpsertAll(kind, attrs, stored).1 else []
  }

  /** What one synchronisation can change: the Item and product it holds, and the catalog's Items, Item Attributes and log. */
  datatype SyncState = SyncState(
    item: Option<ItemToSync>,
    product: Option<Product>,
    items: map<string, Item>,
    attributes: map<string, seq<AttributeValue>>,
    log: seq<Event>)
  {
    predicate InRange()
    {
      item.Some? ==> item.value.InRange()
    }
  }

  /**
   * get_corresponding_item_or_product, from state s to state t with
   * outcome o: an Item with a remote id takes the first product the list
   * query finds (refused when the server is missing or its sync is off,
   * failed when nothing is found); a product without an Item takes the Item
   * owning an enabled row with its server and id, at that row. Nothing is
   * written to the catalog.
   */
  ghost predicate Resolved(env: Env, remote: seq<Product>, s: SyncState, o: Outcome, t: SyncState)
    requires s.InRange()
  {
    (s.item.Some? && s.product.None? && s.item.value.Link().woocommerceId != 0 ==> ProductFetched(env, remote, s, o, t)) &&
    (s.item.Some? && s.product.None? && s.item.value.Link().woocommerceId == 0 ==> o == Done && t == s) &&
    (s.item.None? && s.product.Some? ==> ItemFound(s, o, t)) &&
    (s.item.Some? == s.product.Some? ==> o == Done && t == s)
  }

  /** The Item's side of the lookup: the first product the list query finds for its link row, checked against the server first. */
  predicate ProductFetched(env: Env, remote: seq<Product>, s: SyncState, o: Outcome, t: SyncState)
    requires s.InRange() && s.item.Some? && s.item.value.Link().woocommerceId != 0
  {
    var l := s.item.value.Link();
    (l.server !in env.servers ==> o == Failed(DoesNotExistError("WooCommerce Server", l.server)) && t == s) &&
    (l.server in env.servers && !env.servers[l.server].enableSync ==> o == Failed(SyncDisabledError(l.server)) && t == s) &&
    (l.server in env.servers && env.servers[l.server].enableSync ==>
      var found := ListOfWcProducts(Some(l), None, remote).value;
      (found == [] ==> o.Failed? && o.error.ValueError? && t == s) &&
      (found != [] ==> o == Done && t == s.(product := Some(found[0]))))
  }

  /** get_erpnext_item: the product's side of the lookup. */
  ghost predicate ItemFound(s: SyncState, o: Outcome, t: SyncState)
    requires s.product.Some?
  {
    var p := s.product.value;
    (p.server == "" || p.id == 0 ==> o == Failed(ValueError("Both woocommerce_server and woocommerce_id required")) && t == s) &&
    (p.server != "" && p.id != 0 ==>
      o == Done &&
      ((forall c, j :: !LinkedAt(s.items, c, j, p)) ==> t == s) &&
      ((exists c, j :: LinkedAt(s.items, c, j, p)) ==>
        exists c, j :: LinkedAt(s.items, c, j, p) && t == s.(item := Some(ItemToSync(s.items[c], j + 1)))))
  }

  /** A pair resolved by the lookup always agrees on server and remote id. */
  lemma ResolvedPairs(env: Env, remote: seq<Product>, s: SyncState, t: SyncState)
    requires s.InRange() && Resolved(env, remote, s, Done, t)
    requires (s.item.None? || s.product.None?) && t.item.Some? && t.product.Some?
    ensures t.item.value.InRange() && Paired(t.item.value.Link(), t.product.value)
  {
    if s.item.Some? {
      var l := s.item.value.Link();
      var found := ListOfWcProducts(Some(l), None, remote).value;
      assert found[0] in found;
    } else {
      var c, j :| LinkedAt(s.items, c, j, s.product.value) && t == s.(item := Some(ItemToSync(s.items[c], j + 1)));
      assert t.item.value.Link() == s.items[c].servers[j];
    }
  }

  /**
   * update_item (the pull), from s to t: a renamed product renames the
   * Item through a save flagged as the synchronisation's own, at the
   * store's clock `now`; then the stored Item's mapped fields take the
   * product's values and the row's marker is the product's date. A missing
   * server fails after the rename.
   */
  predicate Pulled(env: Env, now: int, s: SyncState, o: Outcome, t: SyncState)
    requires s.InRange() && s.item.Some? && s.product.Some?
  {
    var its, p := s.item.value, s.product.value;
    var s1 := Renamed(now, s);
    (p.server !in env.servers ==> o == Failed(DoesNotExistError("WooCommerce Server", p.server)) && t == s1) &&
    (p.server in env.servers ==>
      o == Done &&
      t == s1.(items := SetMarker(PulledFields(s1.items, its.item.code, env.servers[p.server].itemFieldMap, p.fields),
                                  its.Link().name, Some(p.dateModified))))
  }

  /** The rename step of update_item: the Item takes the product's name through a flagged save at `now`, when the names differ. */
  function Renamed(now: int, s: SyncState): SyncState
    requires s.item.Some? && s.product.Some?
  {
    var its, p := s.item.value, s.product.value;
    if its.item.itemName == p.name then s
    else
      var it' := its.item.(itemName := p.name, createdBySync := true, modified := now);
      s.(item := Some(its.(item := it')), items := s.items[its.item.code := it'.(createdBySync := false)],
         log := s.log + [ItemSaved(its.item.code)])
  }

  /**
   * A pull never writes the remote: the product stays, the only new log
   * entry is the Item's save, and on success the link row's marker is the
   * product's date while every stored Item keeps its rows and date except
   * the renamed one.
   */
  lemma PullWritesNoRemote(env: Env, now: int, s: SyncState, o: Outcome, t: SyncState)
    requires s.InRange() && s.item.Some? && s.product.Some? && Pulled(env, now, s, o, t)
    ensures t.product == s.product && t.attributes == s.attributes
    ensures |s.log| <= |t.log| && t.log[..|s.log|] == s.log && forall e :: e in t.log[|s.log|..] ==> e.ItemSaved?
    ensures o == Done ==> MarkerIs(t.items, s.item.value.Link().name, Some(s.product.value.dateModified))
  {
    var its, p := s.item.value, s.product.value;
    var s1 := Renamed(now, s);
    assert t.log[..|s.log|] == s.log;
    if o == Done {
      SetMarkerWritesOnlyTheMarker(PulledFields(s1.items, its.item.code, env.servers[p.server].itemFieldMap, p.fields),
                                   its.Link().name, Some(p.dateModified));
    }
  }

  /**
   * update_woocommerce_product (the push), from s to t: an image step that
   * raises or a missing server writes nothing; otherwise the product
   * becomes the pushed one, is PUT only when dirty (then carrying the
   * remote's saved date) and the row's marker is its date.
   */
  predicate Pushed(env: Env, replies: Replies, s: SyncState, o: Outcome, t: SyncState)
    requires s.InRange() && s.item.Some? && s.product.Some?
  {
    var its, p := s.item.value, s.product.value;
    var raises := ImageRaises(p, its.item, env, replies.refresh);
    (raises ==> o == Failed(UnboundLocalError("media_response")) && t == s) &&
    (!raises && p.server !in env.servers ==> o == Failed(DoesNotExistError("WooCommerce Server", p.server)) && t == s) &&
    (!raises && p.server in env.servers ==>
      var (q, dirty) := PushedProduct(p, its.item, env.servers[p.server].itemFieldMap, env, replies.refresh);
      var saved := if dirty then q.(dateModified := replies.savedDate) else q;
      o == Done &&
      t == s.(product := Some(saved), log := s.log + (if dirty then [ProductPut(q)] else []),
              items := SetMarker(s.items, its.Link().name, Some(saved.dateModified))))
  }

  /**
   * A push never saves the Item: the Item held and the catalog stay but for
   * the link row's marker, the only new log entry is the product's PUT, and
   * a clean push leaves the product as it was.
   */
  lemma PushSavesNoItem(env: Env, replies: Replies, s: SyncState, o: Outcome, t: SyncState)
    requires s.InRange() && s.item.Some? && s.product.Some? && Pushed(env, replies, s, o, t)
    ensures t.item == s.item && t.attributes == s.attributes && t.product.Some?
    ensures |s.log| <= |t.log| && t.log[..|s.log|] == s.log && forall e :: e in t.log[|s.log|..] ==> e.ProductPut?
    ensures t.log == s.log ==> t.product == s.product
    ensures o == Done ==>
      t.items.Keys == s.items.Keys && MarkerIs(t.items, s.item.value.Link().name, Some(t.product.value.dateModified)) &&
      forall c :: c in s.items ==> t.items[c].fields == s.items[c].fields && t.items[c].modified == s.items[c].modified
  {
    var its, p := s.item.value, s.product.value;
    assert t.log[..|s.log|] == s.log;
    if o == Done {
      var (q, dirty) := PushedProduct(p, its.item, env.servers[p.server].itemFieldMap, env, replies.refresh);
      PushCleanIsUnchanged(p, its.item, env.servers[p.server].itemFieldMap, env, replies.refresh);
      SetMarkerWritesOnlyTheMarker(s.items, its.Link().name, Some(t.product.value.dateModified));
    }
  }

  /** The Item's lookups for create_woocommerce_product succeed: its attributes, its parent and its server exist. */
  predicate ReadyToPost(env: Env, s: SyncState, its: ItemToSync)
    requires its.InRange()
  {
    var it := its.item;
    (!it.hasVariants || AttributesKnown(it.attributes, s.attributes)) &&
    (it.variantOf == "" || it.variantOf in s.items) && its.Link().server in env.servers
  }

  /**
   * create_woocommerce_product, from s to t: nothing unless the row has a
   * server, is enabled and has no remote id; a failed lookup writes
   * nothing; otherwise the product is posted and takes the new id and
   * date, and the reloaded Item is written back with the new id in its row
   * and the new date as marker (a reload that misses the Item or the row
   * fails after the post).
   */
  predicate ProductCreated(env: Env, now: int, replies: Replies, s: SyncState, o: Outcome, t: SyncState)
    requires s.InRange() && s.item.Some?
  {
    var its := s.item.value;
    var it, l := its.item, its.Link();
    var eligible := l.server != "" && l.enabled && l.woocommerceId == 0;
    (!eligible ==> o == Done && t == s) &&
    (eligible && !ReadyToPost(env, s, its) ==> o.Failed? && o.error.DoesNotExistError? && t == s) &&
    (eligible && ReadyToPost(env, s, its) ==>
      var posted := PostedProduct(it, env.servers[l.server], env, s.attributes, replies.parentWcId, now);
      var created := Some(posted.(id := replies.newId, dateModified := replies.newDate));
      (o == Done <==> it.code in s.items && its.idx <= |s.items[it.code].servers|) &&
      (o.Failed? ==> t == s.(product := created, log := s.log + [ProductPosted(posted)])) &&
      (o == Done ==>
        t == s.(item := Some(ItemToSync(Reloaded(s.items, it.code, its.idx, replies.newId, now), its.idx)),
                product := created, log := s.log + [ProductPosted(posted), ItemSaved(it.code)],
                items := WrittenBack(s.items, it.code, its.idx, replies.newId, replies.newDate, now))))
  }

  /**
   * A created product is linked: the Item held names it by server and id
   * at the same row, and the stored row carries its id and its date as
   * marker.
   */
  lemma ProductCreatedIsLinked(env: Env, now: int, replies: Replies, s: SyncState, t: SyncState)
    requires env.Valid() && s.InRange() && s.item.Some? && ProductCreated(env, now, replies, s, Done, t)
    requires var its := s.item.value; its.item.code in s.items && WellFormed(s.items[its.item.code])
    requires var l := s.item.value.Link(); l.server != "" && l.enabled && l.woocommerceId == 0
    requires var its := s.item.value;
      its.idx <= |s.items[its.item.code].servers| ==> s.items[its.item.code].servers[its.idx - 1].server == its.Link().server
    ensures t.item.Some? && t.product.Some? && t.item.value.InRange() && t.item.value.idx == s.item.value.idx
    ensures Paired(t.item.value.Link(), t.product.value)
    ensures var idx, code := s.item.value.idx, s.item.value.item.code;
      code in t.items && idx <= |t.items[code].servers| &&
      t.items[code].servers[idx - 1] == s.items[code].servers[idx - 1].(woocommerceId := replies.newId, lastSyncHash := Some(replies.newDate))
  {
    var its := s.item.value;
    var l := its.Link();
    PostedProductShape(its.item, env.servers[l.server], env, s.attributes, replies.parentWcId, now);
    WrittenBackLinksRow(s.items, its.item.code, its.idx, replies.newId, replies.newDate, now);
  }

  /**
   * create_item, from s to t: a missing server writes nothing; a variable
   * product or variation first updates the Item Attributes, whose failure
   * stops it; then the new Item is inserted (refused when its code is
   * taken), pulls the product's mapped fields and takes its date as marker.
   */
  predicate ItemCreated(env: Env, now: int, replies: Replies, s: SyncState, o: Outcome, t: SyncState)
    requires s.product.Some?
  {
    var p := s.product.value;
    var upsert := p.kind == "variable" || p.kind == "variation";
    var u := UpsertAll(p.kind, p.attributes, s.attributes);
    (p.server !in env.servers ==> o == Failed(DoesNotExistError("WooCommerce Server", p.server)) && t == s) &&
    (p.server in env.servers && upsert && u.2.Failed? ==>
      o == u.2 && t == s.(attributes := u.0, log := s.log + AttributeEvents(u.1))) &&
    (p.server in env.servers && (upsert ==> u.2 == Done) ==>
      NewItemInserted(env, now, replies,
                      s.(attributes := if upsert then u.0 else s.attributes,
                         log := s.log + AttributeEvents(UpsertedNames(p.kind, p.attributes, s.attributes))),
                      o, t))
  }

  /**
   * The end of create_item, from s to t: the new Item for the product is
   * inserted at `now` (refused when its code is taken), pulls the
   * product's mapped fields and takes its date as marker.
   */
  predicate NewItemInserted(env: Env, now: int, replies: Replies, s: SyncState, o: Outcome, t: SyncState)
    requires s.product.Some? && s.product.value.server in env.servers
  {
    var p := s.product.value;
    var server := env.servers[p.server];
    var it := NewItemFor(server, p, replies.parentItemCode, replies.newRowName).(modified := now);
    (it.code in s.items ==> o == Failed(DuplicateEntryError(it.code)) && t == s) &&
    (it.code !in s.items ==>
      o == Done &&
      t == s.(item := Some(ItemToSync(it, 1)), log := s.log + [ItemInserted(it.code)],
              items := SetMarker(PulledFields(s.items[it.code := it.(createdBySync := false)], it.code, server.itemFieldMap, p.fields),
                                 replies.newRowName, Some(p.dateModified))))
  }

  /**
   * A created Item is linked: it is stored under its code with one row,
   * which the product lookup accepts for the product and whose marker is
   * the product's date.
   */
  lemma ItemCreatedIsLinked(env: Env, now: int, replies: Replies, s: SyncState, t: SyncState)
    requires env.Valid() && s.product.Some? && ItemCreated(env, now, replies, s, Done, t)
    ensures t.item.Some? && t.item.value.InRange() && t.item.value.idx == 1 && t.product == s.product
    ensures var code := t.item.value.item.code;
      code !in s.items && code in t.items && |t.items[code].servers| == 1 &&
      LinkedAt(t.items, code, 0, s.product.value) && t.items[code].servers[0].lastSyncHash == Some(s.product.value.dateModified)
  {
    var p := s.product.value;
    var server := env.servers[p.server];
    var it := NewItemFor(server, p, replies.parentItemCode, replies.newRowName).(modified := now);
    NewItemForShape(server, p, replies.parentItemCode, replies.newRowName);
    var pulled := PulledFields(s.items[it.code := it.(createdBySync := false)], it.code, server.itemFieldMap, p.fields);
    PulledFieldsKeepsModified(s.items[it.code := it.(createdBySync := false)], it.code, server.itemFieldMap, p.fields);
    SetMarkerWritesOnlyTheMarker(pulled, replies.newRowName, Some(p.dateModified));
  }

  /**
   * sync_wc_product_with_erpnext_item, from s to t: with one side missing,
   * the creation of the other; with both, the pull, the push or nothing,
   * as SyncRules.Decide says.
   */
  predicate Synced(env: Env, now: int, replies: Replies, s: SyncState, o: Outcome, t: SyncState)
    requires s.InRange()
  {
    (s.item.None? && s.product.None? ==> o == Done && t == s) &&
    (s.item.Some? && s.product.None? ==> ProductCreated(env, now, replies, s, o, t)) &&
    (s.item.None? && s.product.Some? ==> ItemCreated(env, now, replies, s, o, t)) &&
    (s.item.Some? && s.product.Some? ==>
      var a := Decide(s.product.value.dateModified, s.item.value.Link().lastSyncHash, s.item.value.item.modified);
      ((a == Skip || a == Converged) ==> o == Done && t == s) &&
      (a == Pull ==> Pulled(env, now, s, o, t)) &&
      (a == Push ==> Pushed(env, replies, s, o, t)))
  }

  /**
   * After a pull or a push that finishes, every stored row of the pair's
   * link carries the product's date as its marker, so deciding again from
   * that row and the product held gives Skip, whatever the Item's date.
   */
  lemma SyncedSettlesPair(env: Env, now: int, replies: Replies, s: SyncState, o: Outcome, t: SyncState,
                          c: string, j: int, localModified: int)
    requires s.InRange() && s.item.Some? && s.product.Some? && Synced(env, now, replies, s, o, t) && o == Done
    requires Decide(s.product.value.dateModified, s.item.value.Link().lastSyncHash, s.item.value.item.modified) in {Pull, Push}
    requires c in t.items && 0 <= j < |t.items[c].servers| && t.items[c].servers[j].name == s.item.value.Link().name
    ensures t.product.Some? && Decide(t.product.value.dateModified, t.items[c].servers[j].lastSyncHash, localModified) == Skip
  {
    if Decide(s.product.value.dateModified, s.item.value.Link().lastSyncHash, s.item.value.item.modified) == Pull {
      PullWritesNoRemote(env, now, s, o, t);
    } else {
      PushSavesNoItem(env, replies, s, o, t);
    }
  }

  class SynchroniseItem {
    var item: Option<ItemToSync>
    var product: Option<Product>
    const store: Catalog
    const env: Env

    ghost predicate Valid()
      reads this, store
    {
      store.Valid() && env.Valid() &&
      (item.Some? ==> item.value.InRange() && WellFormed(item.value.item))
    }

    /** __init__: the Item to synchronise and the product, against one catalog and environment. */
    constructor(store0: Catalog, env0: Env, item0: Option<ItemToSync>, product0: Option<Product>)
      requires store0.Valid() && env0.Valid()
      requires item0.Some? ==> item0.value.InRange() && WellFormed(item0.value.item)
      ensures Valid()
      ensures store == store0 && env == env0 && item == item0 && product == product0
    {
      store, env, item, product := store0, env0, item0, product0;
    }

    /** The part of the state a synchronisation changes. */
    function State(): SyncState
      reads this, store
    {
      SyncState(item, product, store.items, store.attributes, store.log)
    }

    /** set_sync_hash: the link row's marker becomes the product's modification date. */
    method SetSyncHash()
      requires Valid() && item.Some? && product.Some?
      modifies store`items
      ensures Valid()
      ensures store.items == SetMarker(old(store.items), item.value.Link().name, Some(product.value.dateModified))
    {
      store.SetLinkMarker(item.value.Link().name, Some(product.value.dateModified));
    }

    /** set_item_fields: writes each mapped field of the stored Item from the product, in row order, leaving its date alone. */
    method SetItemFields() returns (o: Outcome)
      requires Valid()
      modifies store`items
      ensures Valid()
      ensures item.None? || product.None? ==> o == Done && store.items == old(store.items)
      ensures item.Some? && product.Some? && product.value.server !in env.servers ==>
        o == Failed(DoesNotExistError("WooCommerce Server", product.value.server)) && store.items == old(store.items)
      ensures item.Some? && product.Some? && product.value.server in env.servers ==>
        o == Done &&
        store.items == PulledFields(old(store.items), item.value.item.code, env.servers[product.value.server].itemFieldMap, product.value.fields)
    {
      if item.None? || product.None? {
        return Done;
      }
      var server := product.value.server;
      if server !in env.servers {
        return Failed(DoesNotExistError("WooCommerce Server", server));
      }
      store.SetItemValues(item.value.item.code, env.servers[server].itemFieldMap, product.value.fields);
      return Done;
    }

    /**
     * get_erpnext_item: the product needs a server and an id; then the Item
     * owning some enabled link row with that server and id becomes the Item
     * to synchronise, at that row. No such row leaves the Item unset.
     */
    method GetErpnextItem() returns (o: Outcome)
      requires Valid() && product.Some?
      modifies this`item
      ensures Valid()
      ensures ItemFound(old(State()), o, State())
    {
      var p := product.value;
      if p.server == "" || p.id == 0 {
        return Failed(ValueError("Both woocommerce_server and woocommerce_id required"));
      }
      if exists c, j :: c in store.items && 0 <= j < |store.items[c].servers| && Matches(store.items[c].servers[j], p) {
        var c, j :| c in store.items && 0 <= j < |store.items[c].servers| && Matches(store.items[c].servers[j], p);
        var found := store.items[c];
        var k := 0;
        while found.servers[k].name != found.servers[j].name
          invariant 0 <= k <= j
          invariant forall m :: 0 <= m < k ==> found.servers[m].name != found.servers[j].name
          decreases j - k
        {
          k := k + 1;
        }
        item := Some(ItemToSync(found, found.servers[k].idx));
        assert LinkedAt(store.items, c, k, p);
      }
      return Done;
    }

    /**
     * get_corresponding_item_or_product: an Item with a remote id fetches
     * its product (refused when the server's sync is off, failed when the
     * remote has no such product); a product without an Item looks the
     * Item up. A pair resolved here always agrees on server and remote id.
     */
    method GetCorrespondingItemOrProduct(remote: seq<Product>) returns (o: Outcome)
      requires Valid()
      modifies this`item, this`product
      ensures Valid()
      ensures Resolved(env, remote, old(State()), o, State())
    {
      if item.Some? && product.None? && item.value.Link().woocommerceId != 0 {
        o := FetchProduct(remote);
      } else if product.Some? && item.None? {
        o := GetErpnextItem();
      } else {
        o := Done;
      }
    }

    /** The Item's side of get_corresponding_item_or_product: the server must exist and have sync enabled, and the list query must find the product. */
    method FetchProduct(remote: seq<Product>) returns (o: Outcome)
      requires Valid() && item.Some? && product.None? && item.value.Link().woocommerceId != 0
      modifies this`product
      ensures Valid()
      ensures ProductFetched(env, remote, old(State()), o, State())
    {
      var l := item.value.Link();
      if l.server !in env.servers {
        return Failed(DoesNotExistError("WooCommerce Server", l.server));
      }
      if !env.servers[l.server].enableSync {
        return Failed(SyncDisabledError(l.server));
      }
      var found := ListOfWcProducts(Some(l), None, remote).value;
      if |found| == 0 {
        return Failed(ValueError("No WooCommerce Product found"));
      }
      product := Some(found[0]);
      return Done;
    }

    /**
     * update_item (the pull): a renamed product renames the Item through a
     * save flagged as the synchronisation's own; then the mapped fields are
     * written from the product and the marker is set.
     */
    method UpdateItem() returns (o: Outcome)
      requires Valid() && item.Some? && product.Some?
      modifies this`item, store`items, store`log
      ensures Valid()
      ensures Pulled(env, store.now, old(State()), o, State())
    {
      var its, p := item.value, product.value;
      RenameItem();
      ghost var s1 := State();
      o := SetItemFields();
      if o.Failed? {
        assert State() == s1;
        return;
      }
      ghost var s2 := State();
      assert s2 == s1.(items := PulledFields(s1.items, its.item.code, env.servers[p.server].itemFieldMap, p.fields));
      SetSyncHash();
      assert State() == s2.(items := SetMarker(s2.items, its.Link().name, Some(p.dateModified)));
    }

    /** The rename step of update_item. */
    method RenameItem()
      requires Valid() && item.Some? && product.Some?
      modifies this`item, store`items, store`log
      ensures Valid() && product == old(product) && item.Some? && item.value.Link() == old(item).value.Link()
      ensures State() == Renamed(store.now, old(State()))
    {
      var its, p := item.value, product.value;
      if its.item.itemName != p.name {
        var doc := its.item.(itemName := p.name, createdBySync := true);
        var saved := store.SaveItem(doc);
        item := Some(its.(item := saved));
      }
    }

    /**
     * update_woocommerce_product (the push): the product takes the Item's
     * image (by URL when it has none, as an uploaded media item when the
     * Item's file is newer), name and mapped fields; it is saved to the
     * remote only when one of them changed; the marker is set either way.
     * A product with images whose first image is not older than the Item's
     * file reads the media response unassigned and raises.
     */
    method UpdateWooCommerceProduct(replies: Replies) returns (o: Outcome)
      requires Valid() && item.Some? && product.Some?
      modifies this`product, store`items, store`log
      ensures Valid()
      ensures Pushed(env, replies, old(State()), o, State())
    {
      var it := item.value.item;
      var p := product.value;
      var dirty := false;
      if it.image != "" && it.image in env.files {
        var url := FormatErpnextImgUrl(env.files[it.image], env.site);
        if url.Some? {
          if p.images == [] {
            p := p.(images := [Image(url.value)]);
            dirty := true;
          } else if replies.refresh == NotNewer {
            return Failed(UnboundLocalError("media_response"));
          } else if replies.refresh.Uploaded? && replies.refresh.mediaId != 0 {
            p := p.(images := [Media(replies.refresh.mediaId, env.files[it.image].fileName, it.itemName)]);
            dirty := true;
          }
        }
      }
      if p.name != it.itemName {
        p := p.(name := it.itemName);
        dirty := true;
      }
      if p.server !in env.servers {
        return Failed(DoesNotExistError("WooCommerce Server", p.server));
      }
      var f, d := SetProductFields(env.servers[p.server].itemFieldMap, it.fields, p.fields);
      p := p.(fields := f);
      if d {
        dirty := true;
      }
      o := PutProduct(p, dirty, replies.savedDate);
    }

    /** The end of update_woocommerce_product: a changed product is PUT and takes the saved date; then the marker is set. */
    method PutProduct(p: Product, dirty: bool, savedDate: int) returns (o: Outcome)
      requires Valid() && item.Some?
      modifies this`product, store`items, store`log
      ensures Valid() && item == old(item)
      ensures var saved := if dirty then p.(dateModified := savedDate) else p;
        o == Done && product == Some(saved) &&
        store.log == old(store.log) + (if dirty then [ProductPut(p)] else []) &&
        store.items == SetMarker(old(store.items), item.value.Link().name, Some(saved.dateModified))
    {
      var q := p;
      if dirty {
        store.Record(ProductPut(p));
        q := p.(dateModified := savedDate);
      }
      product := Some(q);
      SetSyncHash();
      return Done;
    }

    /**
     * The lookups of create_woocommerce_product, in the code's order: the
     * Item Attributes of a variable Item, the parent of a variant, the
     * server; then the product to insert.
     */
    method PrepareProduct(its: ItemToSync, parentWcId: nat) returns (r: Result<Product>)
      requires Valid() && its.InRange()
      ensures var it, l := its.item, its.Link();
        (it.hasVariants && !AttributesKnown(it.attributes, store.attributes) ==>
          r.Err? && r.error.DoesNotExistError? && r.error.doctype == "Item Attribute") &&
        ((!it.hasVariants || AttributesKnown(it.attributes, store.attributes)) && it.variantOf != "" && it.variantOf !in store.items ==>
          r == Err(DoesNotExistError("Item", it.variantOf))) &&
        ((!it.hasVariants || AttributesKnown(it.attributes, store.attributes)) && (it.variantOf == "" || it.variantOf in store.items) &&
         l.server !in env.servers ==>
          r == Err(DoesNotExistError("WooCommerce Server", l.server))) &&
        ((!it.hasVariants || AttributesKnown(it.attributes, store.attributes)) && (it.variantOf == "" || it.variantOf in store.items) &&
         l.server in env.servers ==>
          r == Ok(PostedProduct(it, env.servers[l.server], env, store.attributes, parentWcId, store.now)))
    {
      var it := its.item;
      var l := its.Link();
      var variable: seq<WcAttribute> := [];
      if it.hasVariants {
        var b := BuildVariableAttributes(it.attributes, store.attributes);
        if b.Err? {
          return Err(b.error);
        }
        variable := b.value;
      }
      if it.variantOf != "" && it.variantOf !in store.items {
        return Err(DoesNotExistError("Item", it.variantOf));
      }
      var imageUrl := None;
      if it.image != "" && it.image in env.files {
        imageUrl := FormatErpnextImgUrl(env.files[it.image], env.site);
      }
      if l.server !in env.servers {
        return Err(DoesNotExistError("WooCommerce Server", l.server));
      }
      var server := env.servers[l.server];
      var price := RegularPrice(ItemPriceRate(server, env.prices, it, store.now));
      var draft := DraftProduct(it, l.server, variable, parentWcId, imageUrl, price);
      var f, _ := SetProductFields(server.itemFieldMap, it.fields, draft.fields);
      return Ok(draft.(fields := f));
    }

    /**
     * The end of create_woocommerce_product: the Item is reloaded, its link
     * row at `idx` takes the new remote id, the Item is saved as the
     * synchronisation's own and the marker is set.
     */
    method WriteBackRemoteId(code: string, idx: int, newId: nat) returns (o: Outcome)
      requires Valid() && product.Some? && idx >= 1
      modifies this`item, store`items, store`log
      ensures Valid() && product == old(product)
      ensures code !in old(store.items) ==>
        o == Failed(DoesNotExistError("Item", code)) && item == old(item) &&
        store.items == old(store.items) && store.log == old(store.log)
      ensures code in old(store.items) && idx > |old(store.items)[code].servers| ==>
        o == Failed(IndexError) && item == old(item) &&
        store.items == old(store.items) && store.log == old(store.log)
      ensures code in old(store.items) && idx <= |old(store.items)[code].servers| ==>
        o == Done && item == Some(ItemToSync(Reloaded(old(store.items), code, idx, newId, store.now), idx)) &&
        store.log == old(store.log) + [ItemSaved(code)] &&
        store.items == WrittenBack(old(store.items), code, idx, newId, product.value.dateModified, store.now)
    {
      if code !in store.items {
        return Failed(DoesNotExistError("Item", code));
      }
      var reloaded := store.items[code];
      var row := LinkAt(reloaded.servers, idx);
      if row.None? {
        return Failed(IndexError);
      }
      var k := idx - 1;
      var doc := reloaded.(servers := reloaded.servers[k := row.value.(woocommerceId := newId)], createdBySync := true);
      var saved := store.SaveItem(doc);
      item := Some(ItemToSync(saved, idx));
      SetSyncHash();
      return Done;
    }

    /**
     * create_woocommerce_product: only for an enabled link row with a server
     * and no remote id. Builds and inserts the product, then writes the new
     * remote id back into the Item's row and sets the marker.
     */
    method CreateWooCommerceProduct(replies: Replies) returns (o: Outcome)
      requires Valid() && item.Some?
      modifies this, store`items, store`log
      ensures Valid()
      ensures ProductCreated(env, store.now, replies, old(State()), o, State())
    {
      var its := item.value;
      var l := its.Link();
      if !(l.server != "" && l.enabled && l.woocommerceId == 0) {
        return Done;
      }
      var r := PrepareProduct(its, replies.parentWcId);
      if r.Err? {
        return Failed(r.error);
      }
      o := PostProduct(its, r.value, replies);
    }

    /** The insert of the prepared product, then the write-back of its id into the reloaded Item. */
    method PostProduct(its: ItemToSync, posted: Product, replies: Replies) returns (o: Outcome)
      requires Valid() && its.idx >= 1
      modifies this, store`items, store`log
      ensures Valid()
      ensures var s, code := old(State()), its.item.code;
        var created := Some(posted.(id := replies.newId, dateModified := replies.newDate));
        (o == Done <==> code in s.items && its.idx <= |s.items[code].servers|) &&
        (o.Failed? ==> State() == s.(product := created, log := s.log + [ProductPosted(posted)])) &&
        (o == Done ==>
          State() == s.(item := Some(ItemToSync(Reloaded(s.items, code, its.idx, replies.newId, store.now), its.idx)),
                        product := created, log := s.log + [ProductPosted(posted), ItemSaved(code)],
                        items := WrittenBack(s.items, code, its.idx, replies.newId, replies.newDate, store.now)))
    {
      store.Record(ProductPosted(posted));
      product := Some(posted.(id := replies.newId, dateModified := replies.newDate));
      o := WriteBackRemoteId(its.item.code, its.idx, replies.newId);
    }

    /**
     * create_or_update_item_attributes: for each entry of the product's
     * attribute list, the Item Attribute of that name gets the entry's
     * options (wholesale, when its value set differs) and is saved.
     */
    method CreateOrUpdateItemAttributes() returns (o: Outcome)
      requires product.Some?
      modifies store`attributes, store`log
      ensures var r := UpsertAll(product.value.kind, product.value.attributes, old(store.attributes));
        store.attributes == r.0 && o == r.2 && store.log == old(store.log) + AttributeEvents(r.1)
    {
      o := store.UpsertAttributes(product.value.kind, product.value.attributes);
    }

    /**
     * create_item: builds the Item for a product without one (after
     * updating the Item Attributes of a variable product or variation),
     * inserts it with one link row, writes the mapped fields and sets the
     * marker.
     */
    method CreateItem(replies: Replies) returns (o: Outcome)
      requires Valid() && product.Some? && item.None?
      modifies this`item, store
      ensures Valid()
      ensures ItemCreated(env, store.now, replies, old(State()), o, State())
    {
      var p := product.value;
      if p.server !in env.servers {
        return Failed(DoesNotExistError("WooCommerce Server", p.server));
      }
      if p.kind == "variable" || p.kind == "variation" {
        o := CreateOrUpdateItemAttributes();
        if o.Failed? {
          return;
        }
      }
      o := InsertAndPull(replies);
    }

    /** The end of create_item: the new Item is inserted, becomes the Item to synchronise at its one row, pulls the product's fields and takes the marker. */
    method InsertAndPull(replies: Replies) returns (o: Outcome)
      requires Valid() && product.Some? && product.value.server in env.servers && item.None?
      modifies this`item, store`items, store`log
      ensures Valid()
      ensures NewItemInserted(env, store.now, replies, old(State()), o, State())
    {
      var p := product.value;
      var doc := NewItemFor(env.servers[p.server], p, replies.parentItemCode, replies.newRowName);
      assert WellFormed(doc) by {
        NewItemForShape(env.servers[p.server], p, replies.parentItemCode, replies.newRowName);
      }
      ghost var s := State();
      var r := store.InsertItem(doc);
      if r.Err? {
        return Failed(r.error);
      }
      item := Some(ItemToSync(r.value, 1));
      ghost var s1 := State();
      assert s1 == s.(item := item, items := s.items[doc.code := r.value.(createdBySync := false)], log := s.log + [ItemInserted(doc.code)]);
      o := SetItemFields();
      ghost var s2 := State();
      assert s2 == s1.(items := PulledFields(s1.items, doc.code, env.servers[p.server].itemFieldMap, p.fields));
      SetSyncHash();
      assert State() == s2.(items := SetMarker(s2.items, replies.newRowName, Some(p.dateModified)));
    }

    /**
     * sync_wc_product_with_erpnext_item: creates whichever side is missing;
     * when both exist, pulls, pushes or does nothing as SyncRules.Decide
     * says. A pull never writes the remote, a push never saves the Item,
     * and after either the link row's marker is the product's date.
     */
    method SyncWcProductWithErpnextItem(replies: Replies) returns (o: Outcome)
      requires Valid()
      modifies this, store
      ensures Valid()
      ensures Synced(env, store.now, replies, old(State()), o, State())
    {
      if item.Some? && product.None? {
        o := CreateWooCommerceProduct(replies);
      } else if product.Some? && item.None? {
        o := CreateItem(replies);
      } else if item.Some? && product.Some? {
        var its, p := item.value, product.value;
        var a := Decide(p.dateModified, its.Link().lastSyncHash, its.item.modified);
        if a == Pull {
          o := UpdateItem();
        } else if a == Push {
          o := UpdateWooCommerceProduct(replies);
        } else {
          o := Done;
        }
      } else {
        o := Done;
      }
    }

    /** run: resolve the missing side, then synchronise; a failed lookup stops before anything is written. */
    method Run(replies: Replies) returns (o: Outcome)
      requires Valid()
      modifies this, store
      ensures Valid()
      ensures (old(item).Some? && old(product).None? && old(item).value.Link().woocommerceId != 0 &&
               old(item).value.Link().server in env.servers && !env.servers[old(item).value.Link().server].enableSync) ==>
        o == Failed(SyncDisabledError(old(item).value.Link().server)) && unchanged(store)
      ensures old(item).None? && old(product).Some? && (old(product).value.server == "" || old(product).value.id == 0) ==>
        o == Failed(ValueError("Both woocommerce_server and woocommerce_id required")) && unchanged(store)
      ensures exists mid: SyncState, o1: Outcome ::
                mid.InRange() && Resolved(env, replies.remote, old(State()), o1, mid) &&
                (o1.Failed? ==> o == o1 && State() == mid) &&
                (o1 == Done ==> Synced(env, store.now, replies, mid, o, State()))
    {
      ghost var s := State();
      o := GetCorrespondingItemOrProduct(replies.remote);
      ghost var mid, o1 := State(), o;
      if o.Failed? {
        assert Resolved(env, replies.remote, s, o1, mid);
        return;
      }
      o := SyncWcProductWithErpnextItem(replies);
      assert Resolved(env, replies.remote, s, o1, mid) && Synced(env, store.now, replies, mid, o, State());
    }
  }
}
