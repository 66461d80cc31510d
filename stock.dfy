/**
 * The stock push: a submitted stock document enqueues one stock update per
 * item row, and the stock update sends the Item's total actual quantity to
 * every linked site that has an enabled server, stopping at the first PUT
 * that raises.
 */
module StockUpdate {
  import opened Records
  import opened Text

  /** A stock-moving document as the hook sees it: its doctype, update_stock and the item codes of its rows. */
  datatype StockDoc = StockDoc(doctype: string, updateStock: int, itemCodes: seq<string>)

  const StockDoctypes: set<string> := {"Stock Entry", "Stock Reconciliation", "Sales Invoice", "Delivery Note"}

  /**
   * update_stock_levels_for_woocommerce_item: only the four stock doctypes
   * act, a Sales Invoice only when it updates stock; then one stock update
   * job per item row, in row order, repeated codes included.
   */
  method UpdateStockLevelsForWoocommerceItem(doc: StockDoc) returns (jobs: seq<Job>)
    ensures doc.doctype !in StockDoctypes ==> jobs == []
    ensures doc.doctype == "Sales Invoice" && doc.updateStock == 0 ==> jobs == []
    ensures doc.doctype in StockDoctypes && !(doc.doctype == "Sales Invoice" && doc.updateStock == 0) ==>
      |jobs| == |doc.itemCodes| && forall i :: 0 <= i < |jobs| ==> jobs[i] == UpdateStockLevels(doc.itemCodes[i])
  {
    jobs := [];
    if doc.doctype in StockDoctypes {
      if doc.doctype == "Sales Invoice" && doc.updateStock == 0 {
        return;
      }
      var i := 0;
      while i < |doc.itemCodes|
        invariant 0 <= i <= |doc.itemCodes|
        invariant |jobs| == i && forall k :: 0 <= k < i ==> jobs[k] == UpdateStockLevels(doc.itemCodes[k])
      {
        jobs := jobs + [UpdateStockLevels(doc.itemCodes[i])];
        i := i + 1;
      }
    }
  }

  /** A Bin row: the stock of one item in one warehouse. */
  datatype Bin = Bin(itemCode: string, warehouse: string, reservedQty: int, actualQty: int)

  /** sum(bin.actual_qty) over the Bin rows of the item. */
  function TotalActual(bins: seq<Bin>, code: string): int
  {
    if bins == [] then 0
    else (if bins[0].itemCode == code then bins[0].actualQty else 0) + TotalActual(bins[1..], code)
  }

  /** The total depends only on the item's actual quantities: reserved quantities and other items' bins play no part. */
  lemma {:induction false} TotalIgnoresReserved(bins: seq<Bin>, other: seq<Bin>, code: string)
    requires |bins| == |other|
    requires forall i :: 0 <= i < |bins| ==>
      (bins[i].itemCode == code <==> other[i].itemCode == code) &&
      (bins[i].itemCode == code ==> bins[i].actualQty == other[i].actualQty)
    ensures TotalActual(bins, code) == TotalActual(other, code)
  {
    if bins != [] {
      TotalIgnoresReserved(bins[1..], other[1..], code);
    }
  }

  /** A server row of WooCommerce Additional Settings. */
  datatype SiteServer = SiteServer(url: string, enableSync: bool)

  /** The server the stock push may use for a site: its URL contains the site and its sync is on. */
  predicate Serves(s: SiteServer, site: string)
  {
    Contains(s.url, site) && s.enableSync
  }

  /** The first settings row that serves the site, if any. */
  function ChooseServer(servers: seq<SiteServer>, site: string): Option<SiteServer>
  {
    if servers == [] then None
    else if Serves(servers[0], site) then Some(servers[0])
    else ChooseServer(servers[1..], site)
  }

  /** No server is chosen iff none serves the site; otherwise the chosen one is the first that does. */
  lemma {:induction false} ChooseServerFirstMatch(servers: seq<SiteServer>, site: string)
    ensures ChooseServer(servers, site).None? <==> forall k :: 0 <= k < |servers| ==> !Serves(servers[k], site)
    ensures ChooseServer(servers, site).Some? ==>
      exists k :: (0 <= k < |servers| && servers[k] == ChooseServer(servers, site).value && Serves(servers[k], site) &&
        forall j :: 0 <= j < k ==> !Serves(servers[j], site))
  {
    if servers != [] && !Serves(servers[0], site) {
      ChooseServerFirstMatch(servers[1..], site);
      assert forall k :: 1 <= k < |servers| ==> servers[k] == servers[1..][k - 1];
      var r := ChooseServer(servers[1..], site);
      if r.Some? {
        var k :| 0 <= k < |servers[1..]| && servers[1..][k] == r.value && Serves(servers[1..][k], site) &&
          forall j :: 0 <= j < k ==> !Serves(servers[1..][j], site);
        assert servers[k + 1] == r.value;
      }
    }
  }

  /** A link row with an empty site is served by the first enabled server, whatever its URL. */
  lemma EmptySiteTakesFirstEnabled(servers: seq<SiteServer>, k: int)
    requires 0 <= k < |servers| && servers[k].enableSync
    requires forall j :: 0 <= j < k ==> !servers[j].enableSync
    ensures ChooseServer(servers, "") == Some(servers[k])
  {
    assert OccursAt(servers[k].url, "", 0);
    ChooseServerFirstMatch(servers, "");
    var r := ChooseServer(servers, "");
    if r.Some? {
      var m :| 0 <= m < |servers| && servers[m] == r.value && Serves(servers[m], "") &&
        forall j :: 0 <= j < m ==> !Serves(servers[j], "");
      assert m == k by {
        assert Serves(servers[k], "");
      }
    }
  }

  /** The PUT of one stock level: the server's URL, the product id and the quantity. */
  datatype StockPut = StockPut(url: string, woocommerceId: nat, stockQuantity: int)

  /**
   * The per-site loop from link row `k` on: the PUTs sent and whether it
   * ran to the end. `failing` holds the link rows whose PUT raises.
   */
  function PushFrom(links: seq<Link>, servers: seq<SiteServer>, qty: int, failing: set<nat>, k: nat): (seq<StockPut>, bool)
    decreases |links| - k
  {
    if k >= |links| then ([], true)
    else
      match ChooseServer(servers, links[k].site)
      case None => PushFrom(links, servers, qty, failing, k + 1)
      case Some(s) =>
        var put := StockPut(s.url, links[k].woocommerceId, qty);
        if k in failing then ([put], false)
        else
          var rest := PushFrom(links, servers, qty, failing, k + 1);
          ([put] + rest.0, rest.1)
  }

  /** Link row `m` has a server to push to. */
  predicate HasServer(links: seq<Link>, servers: seq<SiteServer>, m: int)
    requires 0 <= m < |links|
  {
    ChooseServer(servers, links[m].site).Some?
  }

  /** The loop runs to the end iff no PUT to a served site raises. */
  lemma {:induction false} PushFromFinishes(links: seq<Link>, servers: seq<SiteServer>, qty: int, failing: set<nat>, k: nat)
    ensures PushFrom(links, servers, qty, failing, k).1 <==>
      forall m :: k <= m < |links| && HasServer(links, servers, m) ==> m !in failing
    decreases |links| - k
  {
    if k < |links| {
      PushFromFinishes(links, servers, qty, failing, k + 1);
      assert HasServer(links, servers, k) <==> ChooseServer(servers, links[k].site).Some?;
    }
  }

  /** Every PUT carries the Item's quantity, and a run that finishes sends what a run without failures sends. */
  lemma {:induction false} PushFromQuantity(links: seq<Link>, servers: seq<SiteServer>, qty: int, failing: set<nat>, k: nat)
    ensures var (puts, ok) := PushFrom(links, servers, qty, failing, k);
      (forall i :: 0 <= i < |puts| ==> puts[i].stockQuantity == qty) &&
      (ok ==> puts == PushFrom(links, servers, qty, {}, k).0)
    decreases |links| - k
  {
    if k < |links| {
      PushFromQuantity(links, servers, qty, failing, k + 1);
    }
  }

  /**
   * A raising PUT ends the loop at once: the PUTs sent are exactly those a
   * run without failures sends up to and including the first failing site,
   * and no later site gets one.
   */
  lemma {:induction false} PushFromStopsAtFirstFailure(links: seq<Link>, servers: seq<SiteServer>, qty: int, failing: set<nat>, k: nat)
    requires !PushFrom(links, servers, qty, failing, k).1
    ensures exists m :: (k <= m < |links| && m in failing && HasServer(links, servers, m) &&
      (forall m' :: k <= m' < m && HasServer(links, servers, m') ==> m' !in failing) &&
      PushFrom(links, servers, qty, failing, k).0 + PushFrom(links, servers, qty, {}, m + 1).0 == PushFrom(links, servers, qty, {}, k).0)
    decreases |links| - k
  {
    var rest := PushFrom(links, servers, qty, failing, k + 1);
    var clean := PushFrom(links, servers, qty, {}, k + 1).0;
    match ChooseServer(servers, links[k].site)
    case None =>
      assert !HasServer(links, servers, k);
      PushFromStopsAtFirstFailure(links, servers, qty, failing, k + 1);
      var m :| k + 1 <= m < |links| && m in failing && HasServer(links, servers, m) &&
        (forall m' :: k + 1 <= m' < m && HasServer(links, servers, m') ==> m' !in failing) &&
        rest.0 + PushFrom(links, servers, qty, {}, m + 1).0 == clean;
      assert forall m' :: k <= m' < m && HasServer(links, servers, m') ==> m' !in failing;
    case Some(s) =>
      var put := StockPut(s.url, links[k].woocommerceId, qty);
      assert HasServer(links, servers, k);
      assert PushFrom(links, servers, qty, {}, k).0 == [put] + clean;
      if k in failing {
        assert PushFrom(links, servers, qty, failing, k).0 == [put];
      } else {
        PushFromStopsAtFirstFailure(links, servers, qty, failing, k + 1);
        var m :| k + 1 <= m < |links| && m in failing && HasServer(links, servers, m) &&
          (forall m' :: k + 1 <= m' < m && HasServer(links, servers, m') ==> m' !in failing) &&
          rest.0 + PushFrom(links, servers, qty, {}, m + 1).0 == clean;
        assert ([put] + rest.0) + PushFrom(links, servers, qty, {}, m + 1).0 == [put] + clean;
      }
  }

  /**
   * update_stock_levels_on_woocommerce_site: an Item without link rows gives
   * False and sends nothing; otherwise each linked site with a server gets a
   * PUT of the Item's total actual quantity, a PUT that raises makes it
   * return False at once, and a finished loop returns True.
   */
  method UpdateStockLevelsOnWoocommerceSite(code: string, items: map<string, Item>, servers: seq<SiteServer>,
                                            bins: seq<Bin>, failing: set<nat>)
    returns (r: Result<bool>, puts: seq<StockPut>)
    ensures code !in items ==> r == Err(DoesNotExistError("Item", code)) && puts == []
    ensures code in items && items[code].servers == [] ==> r == Ok(false) && puts == []
    ensures code in items && items[code].servers != [] ==>
      var (planned, ok) := PushFrom(items[code].servers, servers, TotalActual(bins, code), failing, 0);
      r == Ok(ok) && puts == planned
  {
    puts := [];
    if code !in items {
      return Err(DoesNotExistError("Item", code)), [];
    }
    var links := items[code].servers;
    if |links| == 0 {
      return Ok(false), [];
    }
    var qty := TotalActual(bins, code);
    ghost var all := PushFrom(links, servers, qty, failing, 0);
    var k := 0;
    while k < |links|
      invariant 0 <= k <= |links|
      invariant puts + PushFrom(links, servers, qty, failing, k).0 == all.0
      invariant PushFrom(links, servers, qty, failing, k).1 == all.1
    {
      var s := ChooseServer(servers, links[k].site);
      if s.None? {
        k := k + 1;
        continue;
      }
      var put := StockPut(s.value.url, links[k].woocommerceId, qty);
      puts := puts + [put];
      if k in failing {
        return Ok(false), puts;
      }
      k := k + 1;
    }
    return Ok(true), puts;
  }
}
