/**
 * The entry points around SynchroniseItem: run_item_sync, which checks its
 * arguments and prepares one synchronisation per linked server (or one for
 * a product), and clear_sync_hash_and_run_item_sync, the background job an
 * Item save enqueues, which forgets the markers of the Item's enabled link
 * rows so that the next synchronisation compares dates afresh.
 */
module Triggers {
  import opened Records
  import opened SyncRules
  import opened Store
  import opened Engine

  /** One prepared synchronisation: of a product, or of an Item at one link row. */
  datatype Request = ForProduct(product: Product) | ForItem(target: ItemToSync)

  /** The queue entry for a prepared synchronisation. */
  function JobOf(r: Request): Job
  {
    match r
    case ForProduct(p) => SyncProduct(p)
    case ForItem(t) => SyncItemOnServer(t.item.code, t.idx)
  }

  const MissingArguments: string := "At least one of item_code, item, woocommerce_product_name, woocommerce_product parameters required"
  const NoServers: string := "No WooCommerce Servers defined for Item"

  /**
   * run_item_sync: at least one of the four arguments is required; a product
   * (given, or loaded by name) wins over an Item; an Item (given, or loaded
   * by code) without link rows is refused; otherwise one synchronisation per
   * link row, in row order, each at its row's idx.
   */
  method RunItemSync(itemCode: string, item: Option<Item>, productName: string, product: Option<Product>,
                     items: map<string, Item>, remoteByName: map<string, Product>)
    returns (r: Result<seq<Request>>)
    ensures itemCode == "" && item.None? && productName == "" && product.None? ==> r == Err(ValueError(MissingArguments))
    ensures product.Some? ==> r == Ok([ForProduct(product.value)])
    ensures product.None? && productName != "" ==>
      r == if productName in remoteByName then Ok([ForProduct(remoteByName[productName])])
           else Err(DoesNotExistError("WooCommerce Product", productName))
    ensures product.None? && productName == "" && item.None? && itemCode != "" && itemCode !in items ==>
      r == Err(DoesNotExistError("Item", itemCode))
    ensures product.None? && productName == "" && (item.Some? || (itemCode != "" && itemCode in items)) ==>
      var doc := if item.Some? then item.value else items[itemCode];
      (doc.servers == [] ==> r == Err(ValidationError(NoServers))) &&
      (doc.servers != [] ==>
        r.Ok? && |r.value| == |doc.servers| &&
        (forall j :: 0 <= j < |doc.servers| ==> r.value[j] == ForItem(ItemToSync(doc, doc.servers[j].idx))) &&
        (WellIndexed(doc.servers) ==>
          forall j :: 0 <= j < |doc.servers| ==> r.value[j].target.InRange() && r.value[j].target.Link() == doc.servers[j]))
  {
    if itemCode == "" && item.None? && productName == "" && product.None? {
      return Err(ValueError(MissingArguments));
    }
    if product.Some? || productName != "" {
      var p: Product;
      if product.Some? {
        p := product.value;
      } else {
        if productName !in remoteByName {
          return Err(DoesNotExistError("WooCommerce Product", productName));
        }
        p := remoteByName[productName];
      }
      return Ok([ForProduct(p)]);
    }
    var doc: Item;
    if item.Some? {
      doc := item.value;
    } else {
      if itemCode !in items {
        return Err(DoesNotExistError("Item", itemCode));
      }
      doc := items[itemCode];
    }
    if doc.servers == [] {
      return Err(ValidationError(NoServers));
    }
    var requests: seq<Request> := [];
    for j := 0 to |doc.servers|
      invariant |requests| == j
      invariant forall k :: 0 <= k < j ==> requests[k] == ForItem(ItemToSync(doc, doc.servers[k].idx))
    {
      requests := requests + [ForItem(ItemToSync(doc, doc.servers[j].idx))];
    }
    if WellIndexed(doc.servers) {
      forall j | 0 <= j < |doc.servers| ensures requests[j].target.InRange() && requests[j].target.Link() == doc.servers[j] {
        LinkAtOwnIndex(doc.servers, j);
      }
    }
    return Ok(requests);
  }

  /** The names of the enabled link rows, in row order. */
  function EnabledNames(rows: seq<Link>): (r: seq<string>)
    ensures forall n :: n in r <==> exists j :: 0 <= j < |rows| && rows[j].enabled && rows[j].name == n
  {
    if rows == [] then []
    else
      var rest := EnabledNames(rows[1..]);
      assert forall j :: 1 <= j < |rows| ==> rows[j] == rows[1..][j - 1];
      assert forall n :: n in rest ==> exists j :: 0 <= j < |rows| && rows[j].enabled && rows[j].name == n by {
        forall n | n in rest ensures exists j :: 0 <= j < |rows| && rows[j].enabled && rows[j].name == n {
          var j :| 0 <= j < |rows[1..]| && rows[1..][j].enabled && rows[1..][j].name == n;
          assert rows[j + 1].enabled && rows[j + 1].name == n;
        }
      }
      if rows[0].enabled then [rows[0].name] + rest else rest
  }

  /** The rows clear_sync_hash_and_run_item_sync selects: the Item's enabled link rows. */
  function EnabledRowNames(items: map<string, Item>, code: string): seq<string>
  {
    if code in items then EnabledNames(items[code].servers) else []
  }

  /** Clearing by name empties the marker of every row bearing one of the names, and changes nothing else. */
  lemma {:induction false} ClearMarkersByName(items: map<string, Item>, names: seq<string>)
    ensures var r := ClearMarkers(items, names);
      r.Keys == items.Keys &&
      forall c :: c in items ==>
        r[c] == items[c].(servers := r[c].servers) && |r[c].servers| == |items[c].servers| &&
        forall j :: 0 <= j < |items[c].servers| ==>
          r[c].servers[j] == if items[c].servers[j].name in names then items[c].servers[j].(lastSyncHash := None) else items[c].servers[j]
    decreases |names|
  {
    if names != [] {
      var m := SetMarker(items, names[0], None);
      ClearMarkersByName(m, names[1..]);
      assert forall n :: n in names <==> n == names[0] || n in names[1..];
    }
  }

  /** Link-row names are unique across the whole table, as document names are. */
  ghost predicate RowNamesUnique(items: map<string, Item>)
  {
    forall c1, c2, j1, j2 ::
      (c1 in items && c2 in items && 0 <= j1 < |items[c1].servers| && 0 <= j2 < |items[c2].servers| &&
       items[c1].servers[j1].name == items[c2].servers[j2].name) ==> c1 == c2 && j1 == j2
  }

  /**
   * clear_sync_hash_and_run_item_sync clears the marker of every enabled
   * link row of the Item, and only those: its disabled rows and every other
   * Item are left as they were.
   */
  lemma ClearSyncHashClearsEnabledRows(items: map<string, Item>, code: string)
    requires RowNamesUnique(items)
    ensures var r := ClearMarkers(items, EnabledRowNames(items, code));
      r.Keys == items.Keys &&
      (forall c :: c in items && c != code ==> r[c] == items[c]) &&
      (code in items ==>
        r[code] == items[code].(servers := r[code].servers) && |r[code].servers| == |items[code].servers| &&
        forall j :: 0 <= j < |items[code].servers| ==>
          r[code].servers[j] == if items[code].servers[j].enabled then items[code].servers[j].(lastSyncHash := None) else items[code].servers[j])
  {
    var names := EnabledRowNames(items, code);
    ClearMarkersByName(items, names);
    var r := ClearMarkers(items, names);
    forall c | c in items && c != code ensures r[c] == items[c] {
      forall j | 0 <= j < |items[c].servers| ensures items[c].servers[j].name !in names {
        if code in items {
          forall k | 0 <= k < |items[code].servers| ensures items[code].servers[k].name != items[c].servers[j].name {
          }
        }
      }
      assert r[c].servers == items[c].servers;
    }
    if code in items {
      var rows := items[code].servers;
      forall j | 0 <= j < |rows| ensures rows[j].name in names <==> rows[j].enabled {
        forall k | 0 <= k < |rows| && k != j ensures rows[k].name != rows[j].name {
        }
        assert rows[j].enabled ==> rows[j].enabled && rows[j].name == rows[j].name;
      }
    }
  }

  /** With an enabled row to clear, the Item is there and keeps its code and its rows' positions. */
  lemma ClearingKeepsRows(items: map<string, Item>, code: string)
    requires EnabledRowNames(items, code) != []
    ensures code in items
    ensures var r := ClearMarkers(items, EnabledRowNames(items, code));
      code in r && r[code].code == items[code].code && |r[code].servers| == |items[code].servers| > 0 &&
      forall k :: 0 <= k < |items[code].servers| ==> r[code].servers[k].idx == items[code].servers[k].idx
  {
    var names := EnabledRowNames(items, code);
    assert code in items && names[0] in names;
    var doc := items[code];
    ClearMarkersByName(items, names);
    var k :| 0 <= k < |doc.servers| && doc.servers[k].enabled && doc.servers[k].name == names[0];
  }

  /** The queue entries of the synchronisations run_item_sync prepares for an Item, one per link row. */
  function ItemSyncJobs(doc: Item): seq<Event>
  {
    seq(|doc.servers|, j requires 0 <= j < |doc.servers| => Enqueued(SyncItemOnServer(doc.code, doc.servers[j].idx)))
  }

  /**
   * clear_sync_hash_and_run_item_sync: clears the markers of the Item's
   * enabled rows; if there was at least one, enqueues one synchronisation
   * per link row of the Item (through run_item_sync with enqueue set,
   * which refuses an empty item code after the markers are cleared).
   */
  method ClearSyncHashAndRunItemSync(store: Catalog, code: string) returns (o: Outcome)
    requires store.Valid()
    modifies store`items, store`log
    ensures store.Valid()
    ensures store.items == ClearMarkers(old(store.items), EnabledRowNames(old(store.items), code))
    ensures code == "" && EnabledRowNames(old(store.items), code) != [] ==>
      o == Failed(ValueError(MissingArguments)) && store.log == old(store.log)
    ensures code != "" || EnabledRowNames(old(store.items), code) == [] ==>
      o == Done &&
      store.log == old(store.log) + if EnabledRowNames(old(store.items), code) == [] then [] else ItemSyncJobs(old(store.items)[code])
  {
    var names := EnabledRowNames(store.items, code);
    store.ClearLinkMarkers(names);
    if names == [] {
      return Done;
    }
    ghost var doc := old(store.items)[code];
    ClearingKeepsRows(old(store.items), code);
    var r := RunItemSync(code, None, "", None, store.items, map[]);
    if r.Err? {
      return Failed(r.error);
    }
    var requests := r.value;
    var jobs := seq(|requests|, k requires 0 <= k < |requests| => Enqueued(JobOf(requests[k])));
    store.RecordAll(jobs);
    assert jobs == ItemSyncJobs(doc);
    return Done;
  }
}
