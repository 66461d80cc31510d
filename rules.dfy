/**
 * The pure rules of item synchronisation: the branch taken when both sides
 * exist, the image URL, the price, naming and unit defaults, product type and
 * attribute lists, the attribute value update, the 1-based link index, the
 * save-hook guard and the guards of the product fetch.
 */
module SyncRules {
  import opened Records
  import opened Text

  // ---------------------------------------------------------------------
  // The decision when both the Item and the product exist
  // ---------------------------------------------------------------------

  datatype Action =
    | Skip        // the marker equals the remote modification date
    | Pull        // remote newer: update the Item from the product
    | Push        // local newer: update the product from the Item
    | Converged   // equal dates, marker stale: neither, marker kept

  /**
   * The reconciliation state machine for a linked pair, in its exclusive
   * form: nothing to do when the remote date equals the link's marker;
   * otherwise pull exactly when the remote is newer, push exactly when the
   * Item is newer, and neither on a tie.
   */
  function Decide(remoteModified: int, marker: Option<int>, localModified: int): (a: Action)
    ensures a == Skip <==> marker == Some(remoteModified)
    ensures a == Pull <==> marker != Some(remoteModified) && remoteModified > localModified
    ensures a == Push <==> marker != Some(remoteModified) && remoteModified < localModified
    ensures a == Converged <==> marker != Some(remoteModified) && remoteModified == localModified
  {
    if marker == Some(remoteModified) then Skip
    else if remoteModified > localModified then Pull
    else if remoteModified < localModified then Push
    else Converged
  }

  /** Once the marker holds the remote date, every later decision is Skip, whatever the Item's date. */
  lemma MarkerSettlesPair(remoteModified: int, localModified: int)
    ensures Decide(remoteModified, Some(remoteModified), localModified) == Skip
  {
  }

  /**
   * The two tests as the code writes them (two `if`s in a row, the second
   * reading the Item's modification date after the first may have saved the
   * Item): a pull that renames the Item saves it, which sets its modification
   * date to the clock, and the second test then sees the Item as newer.
   */
  function SourceBranches(remoteModified: int, marker: Option<int>, localModified: int, renames: bool, now: int): (pullAndPush: (bool, bool))
  {
    var pull := marker != Some(remoteModified) && remoteModified > localModified;
    var localAfter := if pull && renames then now else localModified;
    (pull, marker != Some(remoteModified) && remoteModified < localAfter)
  }

  /** An input on which the code as written both pulls and then pushes. */
  lemma SourcePullsThenPushes()
    ensures SourceBranches(10, None, 5, true, 20) == (true, true)
    ensures Decide(10, None, 5) == Pull
  {
  }

  /**
   * The code's pull test is the exclusive decision's; its push test adds the
   * case of a renaming pull saved at a clock later than the remote date.
   */
  lemma SourceBranchesVersusDecide(remoteModified: int, marker: Option<int>, localModified: int, renames: bool, now: int)
    ensures SourceBranches(remoteModified, marker, localModified, renames, now).0 == (Decide(remoteModified, marker, localModified) == Pull)
    ensures SourceBranches(remoteModified, marker, localModified, renames, now).1 <==>
      Decide(remoteModified, marker, localModified) == Push ||
      (Decide(remoteModified, marker, localModified) == Pull && renames && remoteModified < now)
  {
  }

  // ---------------------------------------------------------------------
  // Images, prices, naming
  // ---------------------------------------------------------------------

  /**
   * format_erpnext_img_url: private files give no URL; a public URL that
   * starts with "http" is kept; any other public URL is made absolute on the
   * site with https.
   */
  function FormatErpnextImgUrl(f: FileInfo, site: string): (r: Option<string>)
    ensures r.Some? <==> f.isPrivate == 0
    ensures r.Some? ==> StartsWith(r.value, "http")
    ensures r.Some? && StartsWith(f.fileUrl, "http") ==> r.value == f.fileUrl
    ensures r.Some? && !StartsWith(f.fileUrl, "http") ==> r.value == "https://" + site + f.fileUrl
  {
    if f.isPrivate == 0 then
      if StartsWith(f.fileUrl, "http") then Some(f.fileUrl)
      else
        assert "http" <= "https://" + site + f.fileUrl;
        Some("https://" + site + f.fileUrl)
    else None
  }

  /** Formatting is idempotent: a formatted URL formats to itself, and it always ends with the file's URL. */
  lemma FormatErpnextImgUrlIdempotent(f: FileInfo, site: string)
    requires f.isPrivate == 0
    ensures var u := FormatErpnextImgUrl(f, site).value;
      FormatErpnextImgUrl(f.(fileUrl := u), site) == Some(u) &&
      u[|u| - |f.fileUrl|..] == f.fileUrl
  {
  }

  /** An Item Price row that the price query returns and whose validity has not ended. */
  predicate Selectable(p: ItemPrice, itemName: string, priceList: string, now: int)
  {
    p.itemCode == itemName && p.priceList == priceList && (p.validUpto.None? || p.validUpto.value > now)
  }

  /** The rate of the first selectable price row, in query order. */
  function FirstRate(prices: seq<ItemPrice>, itemName: string, priceList: string, now: int): (r: Option<int>)
    ensures r.None? <==> forall k :: 0 <= k < |prices| ==> !Selectable(prices[k], itemName, priceList, now)
    ensures r.Some? ==> exists k :: (0 <= k < |prices| && Selectable(prices[k], itemName, priceList, now) &&
                                     prices[k].rate == r.value &&
                                     forall j :: 0 <= j < k ==> !Selectable(prices[j], itemName, priceList, now))
  {
    if prices == [] then None
    else if Selectable(prices[0], itemName, priceList, now) then Some(prices[0].rate)
    else
      var r := FirstRate(prices[1..], itemName, priceList, now);
      assert forall k :: 1 <= k < |prices| ==> prices[k] == prices[1..][k - 1];
      if r.Some? then
        var k :| 0 <= k < |prices[1..]| && Selectable(prices[1..][k], itemName, priceList, now) &&
          prices[1..][k].rate == r.value && forall j :: 0 <= j < k ==> !Selectable(prices[1..][j], itemName, priceList, now);
        assert Selectable(prices[k + 1], itemName, priceList, now);
        assert forall j :: 0 <= j < k + 1 ==> !Selectable(prices[j], itemName, priceList, now) by {
          forall j | 0 <= j < k + 1 ensures !Selectable(prices[j], itemName, priceList, now) {
            if j > 0 { assert prices[j] == prices[1..][j - 1]; }
          }
        }
        r
      else
        r
  }

  /**
   * get_item_price_rate: nothing when price-list sync is off on the server;
   * otherwise the rate of the first price row of the server's price list,
   * keyed by the Item's name, that has no end of validity or ends after now.
   */
  function ItemPriceRate(server: ServerConfig, prices: seq<ItemPrice>, item: Item, now: int): (r: Option<int>)
    ensures !server.enablePriceListSync ==> r.None?
    ensures server.enablePriceListSync ==> r == FirstRate(prices, item.itemName, server.priceList, now)
  {
    if server.enablePriceListSync then FirstRate(prices, item.itemName, server.priceList, now) else None
  }

  /** An Item Price row that the price query returns: that item name on that price list. */
  predicate Queried(p: ItemPrice, itemName: string, priceList: string)
  {
    p.itemCode == itemName && p.priceList == priceList
  }

  /**
   * get_item_price_rate's search as written: `valid_upto > now()` compares
   * a date with the text that frappe.utils.now returns, so the first
   * queried row that has an end of validity raises TypeError, unless an
   * earlier queried row without one has already given its rate.
   */
  function FirstRateAsWritten(prices: seq<ItemPrice>, itemName: string, priceList: string): (r: Result<Option<int>>)
    ensures r == Ok(None) <==> forall k :: 0 <= k < |prices| ==> !Queried(prices[k], itemName, priceList)
    ensures r.Err? ==> r.error == TypeError
  {
    if prices == [] then Ok(None)
    else if Queried(prices[0], itemName, priceList) then
      (if prices[0].validUpto.None? then Ok(Some(prices[0].rate)) else Err(TypeError))
    else
      var r := FirstRateAsWritten(prices[1..], itemName, priceList);
      assert forall k :: 1 <= k < |prices| ==> prices[k] == prices[1..][k - 1];
      r
  }

  /** When no queried row has an end of validity, the search as written finds the intended rate. */
  lemma {:induction false} AsWrittenAgreesWithoutEndDates(prices: seq<ItemPrice>, itemName: string, priceList: string, now: int)
    requires forall k :: 0 <= k < |prices| && Queried(prices[k], itemName, priceList) ==> prices[k].validUpto.None?
    ensures FirstRateAsWritten(prices, itemName, priceList) == Ok(FirstRate(prices, itemName, priceList, now))
  {
    if prices != [] && !Queried(prices[0], itemName, priceList) {
      assert forall k :: 1 <= k < |prices| ==> prices[k] == prices[1..][k - 1];
      AsWrittenAgreesWithoutEndDates(prices[1..], itemName, priceList, now);
    }
  }

  /** The first queried row having an end of validity makes the search as written raise, whatever that date is. */
  lemma {:induction false} AsWrittenRaisesOnEndDate(prices: seq<ItemPrice>, itemName: string, priceList: string, k: int)
    requires 0 <= k < |prices| && Queried(prices[k], itemName, priceList) && prices[k].validUpto.Some?
    requires forall j :: 0 <= j < k ==> !Queried(prices[j], itemName, priceList)
    ensures FirstRateAsWritten(prices, itemName, priceList) == Err(TypeError)
  {
    if k > 0 {
      assert forall j :: 0 <= j < k - 1 ==> prices[1..][j] == prices[j + 1];
      AsWrittenRaisesOnEndDate(prices[1..], itemName, priceList, k - 1);
    }
  }

  /** One price row still valid at date 30, asked at date 10: the code raises where the intended search gives its rate. */
  lemma PriceWithEndDateRaises()
    ensures var prices := [ItemPrice("Widget", "Standard Selling", 5, Some(30))];
      FirstRateAsWritten(prices, "Widget", "Standard Selling") == Err(TypeError) &&
      FirstRate(prices, "Widget", "Standard Selling", 10) == Some(5)
  {
  }

  /** `get_item_price_rate(item) or "0"`: a missing or zero rate gives the text "0". */
  function RegularPrice(rate: Option<int>): (v: Value)
    ensures rate.Some? && rate.value != 0 ==> v == Int(rate.value)
    ensures rate.None? || rate.value == 0 ==> v == Str("0")
  {
    if rate.Some? && rate.value != 0 then Int(rate.value) else Str("0")
  }

  /** Without price-list sync the new product's price is "0". */
  lemma PriceWithoutPriceListSync(server: ServerConfig, prices: seq<ItemPrice>, item: Item, now: int)
    requires !server.enablePriceListSync
    ensures RegularPrice(ItemPriceRate(server, prices, item, now)) == Str("0")
  {
  }

  /**
   * The item code of an Item created from a product: the SKU under the
   * "Product SKU" naming policy when the product has one, otherwise the
   * decimal text of the remote id.
   */
  function ItemCodeFor(server: ServerConfig, p: Product): (code: string)
    ensures server.nameBy == "Product SKU" && p.sku != "" ==> code == p.sku
    ensures !(server.nameBy == "Product SKU" && p.sku != "") ==>
      code == NatToString(p.id) && ParseNat(code) == p.id
  {
    if server.nameBy == "Product SKU" && p.sku != "" then p.sku
    else
      NatToStringRoundTrip(p.id);
      NatToString(p.id)
  }

  /** `wc_server.uom or "Nos"`. */
  function StockUomFor(server: ServerConfig): (uom: string)
    ensures uom != ""
    ensures server.uom != "" ==> uom == server.uom
    ensures server.uom == "" ==> uom == "Nos"
  {
    if server.uom != "" then server.uom else "Nos"
  }

  // ---------------------------------------------------------------------
  // Product type and attribute lists
  // ---------------------------------------------------------------------

  /** The type of the product created for an Item: a variant is a "variation" even when it also has variants. */
  function ProductKind(item: Item): (kind: string)
    ensures kind == "variation" <==> item.variantOf != ""
    ensures kind == "variable" <==> item.variantOf == "" && item.hasVariants
    ensures kind == "simple" <==> item.variantOf == "" && !item.hasVariants
  {
    if item.variantOf != "" then "variation" else if item.hasVariants then "variable" else "simple"
  }

  /** The attribute values of an Item Attribute, in row order. */
  function ValuesOf(vals: seq<AttributeValue>): (r: seq<string>)
    ensures |r| == |vals| && forall i :: 0 <= i < |vals| ==> r[i] == vals[i].attributeValue
  {
    seq(|vals|, i requires 0 <= i < |vals| => vals[i].attributeValue)
  }

  /** Every attribute row names an existing Item Attribute. */
  predicate AttributesKnown(rows: seq<AttributeRow>, attributes: map<string, seq<AttributeValue>>)
  {
    forall i :: 0 <= i < |rows| ==> rows[i].attribute in attributes
  }

  /** The entry of a variable product for one attribute row: every value of its Item Attribute. */
  function FullAttribute(row: AttributeRow, attributes: map<string, seq<AttributeValue>>): WcAttribute
    requires row.attribute in attributes
  {
    Full(row.attribute, Slug(row.attribute), true, true, ValuesOf(attributes[row.attribute]))
  }

  function VariableAttributes(rows: seq<AttributeRow>, attributes: map<string, seq<AttributeValue>>): (r: seq<WcAttribute>)
    requires AttributesKnown(rows, attributes)
  {
    seq(|rows|, i requires 0 <= i < |rows| => FullAttribute(rows[i], attributes))
  }

  /**
   * The attribute list of a variable product: one entry per attribute row,
   * each carrying every value its Item Attribute defines. A row whose Item
   * Attribute does not exist fails the whole creation.
   */
  method BuildVariableAttributes(rows: seq<AttributeRow>, attributes: map<string, seq<AttributeValue>>)
    returns (r: Result<seq<WcAttribute>>)
    ensures r.Ok? <==> AttributesKnown(rows, attributes)
    ensures r.Ok? ==> |r.value| == |rows| && forall i :: 0 <= i < |rows| ==>
      r.value[i] == Full(rows[i].attribute, Slug(rows[i].attribute), true, true, ValuesOf(attributes[rows[i].attribute]))
    ensures r.Ok? ==> r.value == VariableAttributes(rows, attributes)
    ensures r.Err? ==> exists i :: (0 <= i < |rows| && rows[i].attribute !in attributes &&
                                    r.error == DoesNotExistError("Item Attribute", rows[i].attribute) &&
                                    forall j :: 0 <= j < i ==> rows[j].attribute in attributes)
  {
    var acc: seq<WcAttribute> := [];
    var i := 0;
    while i < |rows|
      invariant 0 <= i <= |rows|
      invariant forall j :: 0 <= j < i ==> rows[j].attribute in attributes
      invariant |acc| == i
      invariant forall j :: 0 <= j < i ==>
        acc[j] == Full(rows[j].attribute, Slug(rows[j].attribute), true, true, ValuesOf(attributes[rows[j].attribute]))
    {
      var name := rows[i].attribute;
      if name !in attributes {
        return Err(DoesNotExistError("Item Attribute", name));
      }
      acc := acc + [Full(name, Slug(name), true, true, ValuesOf(attributes[name]))];
      i := i + 1;
    }
    return Ok(acc);
  }

  /** The attribute list of a variation: one entry per attribute row, carrying the row's single selected value. */
  function VariationAttributes(rows: seq<AttributeRow>): (r: seq<WcAttribute>)
    ensures |r| == |rows|
    ensures forall i :: 0 <= i < |rows| ==>
      (r[i].Selected? && r[i].name == rows[i].attribute &&
       r[i].option == rows[i].attributeValue && r[i].slug == Slug(rows[i].attribute))
  {
    seq(|rows|, i requires 0 <= i < |rows| => Selected(rows[i].attribute, Slug(rows[i].attribute), rows[i].attributeValue))
  }

  /** The options an entry of a remote product's attribute list offers: the list on a variable product, the single value otherwise. */
  function OptionsOf(kind: string, a: WcAttribute): (r: Result<seq<string>>)
    ensures kind == "variable" ==> (r.Ok? <==> a.Full?) && (a.Full? ==> r.value == a.options)
    ensures kind != "variable" ==> (r.Ok? <==> a.Selected?) && (a.Selected? ==> r.value == [a.option])
  {
    if kind == "variable" then
      if a.Full? then Ok(a.options) else Err(KeyError("options"))
    else
      if a.Selected? then Ok([a.option]) else Err(KeyError("option"))
  }

  function OptionSet(options: seq<string>): set<string>
  {
    set o | o in options
  }

  function ValueSet(vals: seq<AttributeValue>): set<string>
  {
    set v | v in vals :: v.attributeValue
  }

  /** The rows that replace an attribute's values: one per option, abbreviated by removing spaces. */
  function NewValues(options: seq<string>): (r: seq<AttributeValue>)
    ensures |r| == |options|
    ensures forall i :: 0 <= i < |options| ==> r[i] == AttributeValue(options[i], StripSpaces(options[i]))
  {
    seq(|options|, i requires 0 <= i < |options| => AttributeValue(options[i], StripSpaces(options[i])))
  }

  lemma NewValuesHaveOptionSet(options: seq<string>)
    ensures ValueSet(NewValues(options)) == OptionSet(options)
  {
    var r := NewValues(options);
    forall o | o in OptionSet(options) ensures o in ValueSet(r) {
      var i :| 0 <= i < |options| && options[i] == o;
      assert r[i] in r;
    }
    forall o | o in ValueSet(r) ensures o in OptionSet(options) {
      var v :| v in r && v.attributeValue == o;
      var i :| 0 <= i < |r| && r[i] == v;
      assert options[i] == o;
    }
  }

  /** create_or_update_item_attributes on one Item Attribute. */
  function UpsertValues(vals: seq<AttributeValue>, options: seq<string>): seq<AttributeValue>
  {
    if |vals| == 0 || (|vals| > 0 && OptionSet(options) != ValueSet(vals)) then NewValues(options) else vals
  }

  /**
   * The values are replaced wholesale when there are none or when their
   * set differs from the option set, and left exactly as they are
   * otherwise. Either way the value set afterwards is the option set.
   */
  lemma UpsertValuesSpec(vals: seq<AttributeValue>, options: seq<string>)
    ensures ValueSet(UpsertValues(vals, options)) == OptionSet(options)
    ensures |vals| == 0 || ValueSet(vals) != OptionSet(options) ==> UpsertValues(vals, options) == NewValues(options)
    ensures |vals| > 0 && ValueSet(vals) == OptionSet(options) ==> UpsertValues(vals, options) == vals
  {
    NewValuesHaveOptionSet(options);
  }

  /** Updating an attribute a second time with the same options changes nothing. */
  lemma UpsertValuesIdempotent(vals: seq<AttributeValue>, options: seq<string>)
    ensures UpsertValues(UpsertValues(vals, options), options) == UpsertValues(vals, options)
  {
    var once := UpsertValues(vals, options);
    UpsertValuesSpec(vals, options);
    UpsertValuesSpec(once, options);
    assert |once| == 0 ==> once == NewValues(options) && options == [];
  }

  /** The attribute names a remote attribute list mentions. */
  function AttributeNames(attrs: seq<WcAttribute>): set<string>
  {
    set a | a in attrs :: a.name
  }

  /** Entry `i` is the last one of its name. */
  predicate LastNamed(attrs: seq<WcAttribute>, i: int)
    requires 0 <= i < |attrs|
  {
    forall j :: i < j < |attrs| ==> attrs[j].name != attrs[i].name
  }

  /**
   * create_or_update_item_attributes over the remote attribute list in
   * order: the new Item Attribute table, the names saved, and the outcome
   * (an entry of the wrong shape stops the loop with a KeyError).
   */
  function UpsertAll(kind: string, attrs: seq<WcAttribute>, stored: map<string, seq<AttributeValue>>)
    : (map<string, seq<AttributeValue>>, seq<string>, Outcome)
    decreases |attrs|
  {
    if attrs == [] then (stored, [], Done)
    else
      match OptionsOf(kind, attrs[0])
      case Err(e) => (stored, [], Failed(e))
      case Ok(options) =>
        var name := attrs[0].name;
        var vals := if name in stored then stored[name] else [];
        var rest := UpsertAll(kind, attrs[1..], stored[name := UpsertValues(vals, options)]);
        (rest.0, [name] + rest.1, rest.2)
  }

  /** The loop finishes iff every entry has the shape the product type asks for, and then it saves every entry once, in order. */
  lemma {:induction false} UpsertAllOutcome(kind: string, attrs: seq<WcAttribute>, stored: map<string, seq<AttributeValue>>)
    ensures var r := UpsertAll(kind, attrs, stored);
      (r.2 == Done <==> forall i :: 0 <= i < |attrs| ==> OptionsOf(kind, attrs[i]).Ok?) &&
      (r.2.Failed? ==> r.2.error.KeyError?) &&
      (r.2 == Done ==> |r.1| == |attrs| && forall i :: 0 <= i < |attrs| ==> r.1[i] == attrs[i].name)
    decreases |attrs|
  {
    if attrs != [] {
      var o := OptionsOf(kind, attrs[0]);
      if o.Ok? {
        var name := attrs[0].name;
        var vals := if name in stored then stored[name] else [];
        var stored' := stored[name := UpsertValues(vals, o.value)];
        UpsertAllOutcome(kind, attrs[1..], stored');
        assert forall i :: 1 <= i < |attrs| ==> attrs[i] == attrs[1..][i - 1];
      }
    }
  }

  /** An Item Attribute the list does not name is left as it was. */
  lemma {:induction false} UpsertAllKeepsOthers(kind: string, attrs: seq<WcAttribute>, stored: map<string, seq<AttributeValue>>, n: string)
    requires n !in AttributeNames(attrs)
    ensures var r := UpsertAll(kind, attrs, stored).0;
      (n in r <==> n in stored) && (n in stored ==> r[n] == stored[n])
    decreases |attrs|
  {
    if attrs != [] {
      var o := OptionsOf(kind, attrs[0]);
      if o.Ok? {
        var name := attrs[0].name;
        var vals := if name in stored then stored[name] else [];
        assert attrs[0] in attrs;
        assert forall a :: a in attrs[1..] ==> a in attrs;
        UpsertAllKeepsOthers(kind, attrs[1..], stored[name := UpsertValues(vals, o.value)], n);
      }
    }
  }

  /** When the loop finishes, each named Item Attribute offers exactly the options of the last entry of its name. */
  lemma {:induction false} UpsertAllSetsOptions(kind: string, attrs: seq<WcAttribute>, stored: map<string, seq<AttributeValue>>, i: int)
    requires 0 <= i < |attrs| && LastNamed(attrs, i)
    requires UpsertAll(kind, attrs, stored).2 == Done
    ensures OptionsOf(kind, attrs[i]).Ok?
    ensures var r := UpsertAll(kind, attrs, stored).0;
      attrs[i].name in r && ValueSet(r[attrs[i].name]) == OptionSet(OptionsOf(kind, attrs[i]).value)
    decreases |attrs|
  {
    var o := OptionsOf(kind, attrs[0]);
    assert o.Ok?;
    var name := attrs[0].name;
    var vals := if name in stored then stored[name] else [];
    var stored' := stored[name := UpsertValues(vals, o.value)];
    if i == 0 {
      forall a | a in attrs[1..] ensures a.name != name {
        var j :| 0 <= j < |attrs[1..]| && attrs[1..][j] == a;
        assert attrs[j + 1] == a;
      }
      UpsertAllKeepsOthers(kind, attrs[1..], stored', name);
      UpsertValuesSpec(vals, o.value);
    } else {
      assert attrs[1..][i - 1] == attrs[i];
      UpsertAllSetsOptions(kind, attrs[1..], stored', i - 1);
    }
  }

  /** The Item's attribute rows made from a remote attribute list: the selected value only on a variation. */
  function AttributeRows(kind: string, attrs: seq<WcAttribute>): (r: seq<AttributeRow>)
    ensures |r| == |attrs|
    ensures forall i :: 0 <= i < |attrs| ==> r[i].attribute == attrs[i].name
    ensures forall i :: 0 <= i < |attrs| ==>
      r[i].attributeValue == if kind == "variation" && attrs[i].Selected? then attrs[i].option else ""
  {
    seq(|attrs|, i requires 0 <= i < |attrs| =>
      AttributeRow(attrs[i].name, if kind == "variation" && attrs[i].Selected? then attrs[i].option else ""))
  }

  /** A variation's attribute list survives the trip to Item rows and back, when its slugs are the canonical ones. */
  lemma VariationRowsRoundTrip(attrs: seq<WcAttribute>)
    requires forall i :: 0 <= i < |attrs| ==> attrs[i].Selected? && attrs[i].slug == Slug(attrs[i].name)
    ensures VariationAttributes(AttributeRows("variation", attrs)) == attrs
  {
  }

  // ---------------------------------------------------------------------
  // The 1-based link index, the hook guard and the fetch guards
  // ---------------------------------------------------------------------

  /** Python's `servers[idx - 1]`: negative positions count from the end, others out of range fail. */
  function LinkAt(servers: seq<Link>, idx: int): (r: Option<Link>)
    ensures 1 <= idx <= |servers| ==> r == Some(servers[idx - 1])
    ensures idx > |servers| || idx < 1 - |servers| ==> r.None?
  {
    var k := idx - 1;
    if 0 <= k < |servers| then Some(servers[k])
    else if -|servers| <= k < 0 then Some(servers[|servers| + k])
    else None
  }

  /** The framework keeps each row's idx at its 1-based position. */
  predicate WellIndexed(servers: seq<Link>)
  {
    forall j :: 0 <= j < |servers| ==> servers[j].idx == j + 1
  }

  /** Looking a row up by its own idx gives that row back. */
  lemma LinkAtOwnIndex(servers: seq<Link>, j: int)
    requires WellIndexed(servers) && 0 <= j < |servers|
    ensures LinkAt(servers, servers[j].idx) == Some(servers[j])
  {
  }

  /** An idx of 0 wraps round to the last row, as Python's index -1 does. */
  lemma LinkAtZeroIsLast(servers: seq<Link>)
    requires servers != []
    ensures LinkAt(servers, 0) == Some(servers[|servers| - 1])
  {
  }

  /**
   * run_item_sync_from_hook: an Item save triggers a background sync only
   * when the Item was not saved by the synchronisation itself and has at
   * least one linked server.
   */
  function HookJob(doctype: string, doc: Item): (r: Option<Job>)
    ensures r.Some? <==> doctype == "Item" && !doc.createdBySync && |doc.servers| > 0
    ensures r.Some? ==> r.value == ClearSyncHashAndRunItemSync(doc.code)
  {
    if doctype == "Item" && !doc.createdBySync && |doc.servers| > 0 then Some(ClearSyncHashAndRunItemSync(doc.code))
    else None
  }

  /** A document flagged by the synchronisation never triggers the hook, which breaks save loops. */
  lemma FlaggedSaveTriggersNothing(doc: Item)
    ensures HookJob("Item", doc.(createdBySync := true)) == None
  {
  }

  /** A remote product passes the fetch filters. */
  predicate Wanted(p: Product, link: Option<Link>, dateFrom: Option<int>)
  {
    (dateFrom.Some? ==> p.dateModified > dateFrom.value) &&
    (link.Some? ==> p.id == link.value.woocommerceId && p.server == link.value.server)
  }

  function FilterWanted(remote: seq<Product>, link: Option<Link>, dateFrom: Option<int>): (r: seq<Product>)
    ensures |r| <= |remote|
    ensures forall p :: p in r ==> p in remote && Wanted(p, link, dateFrom)
    ensures forall p :: p in remote && Wanted(p, link, dateFrom) ==> p in r
  {
    if remote == [] then []
    else
      var rest := FilterWanted(remote[1..], link, dateFrom);
      assert forall p :: p in remote ==> p == remote[0] || p in remote[1..];
      if Wanted(remote[0], link, dateFrom) then [remote[0]] + rest else rest
  }

  /** The filter keeps the remote order: its first product is the first wanted one. */
  lemma {:induction false} FilterWantedFirst(remote: seq<Product>, link: Option<Link>, dateFrom: Option<int>)
    ensures var r := FilterWanted(remote, link, dateFrom);
      r != [] ==>
        exists k :: 0 <= k < |remote| && remote[k] == r[0] && Wanted(remote[k], link, dateFrom) &&
          forall j :: 0 <= j < k ==> !Wanted(remote[j], link, dateFrom)
  {
    if remote != [] && !Wanted(remote[0], link, dateFrom) {
      var r := FilterWanted(remote, link, dateFrom);
      FilterWantedFirst(remote[1..], link, dateFrom);
      if r != [] {
        var k :| 0 <= k < |remote[1..]| && remote[1..][k] == r[0] && Wanted(remote[1..][k], link, dateFrom) &&
          forall j :: 0 <= j < k ==> !Wanted(remote[1..][j], link, dateFrom);
        assert remote[k + 1] == r[0];
        assert forall j :: 0 <= j < k + 1 ==> !Wanted(remote[j], link, dateFrom) by {
          forall j | 0 <= j < k + 1 ensures !Wanted(remote[j], link, dateFrom) {
            if j > 0 { assert remote[j] == remote[1..][j - 1]; }
          }
        }
      }
    }
  }

  const PageLength: nat := 100

  /**
   * get_list_of_wc_products: at least one of the date bound and the Item
   * link is required; a link without a remote id is refused; otherwise the
   * first page (100 records) of the remote products that are modified after
   * the bound and, for a link, carry its server and remote id.
   */
  function ListOfWcProducts(link: Option<Link>, dateFrom: Option<int>, remote: seq<Product>): (r: Result<seq<Product>>)
    ensures link.None? && dateFrom.None? ==> r == Err(ValueError("At least one of date_time_from or item parameters are required"))
    ensures link.Some? && link.value.woocommerceId == 0 ==> r.Err? && r.error.ValidationError?
    ensures r.Ok? <==> (link.Some? || dateFrom.Some?) && (link.Some? ==> link.value.woocommerceId != 0)
    ensures r.Ok? ==> |r.value| <= PageLength && forall p :: p in r.value ==> p in remote && Wanted(p, link, dateFrom)
    ensures r.Ok? && |FilterWanted(remote, link, dateFrom)| <= PageLength ==>
      forall p :: p in remote && Wanted(p, link, dateFrom) ==> p in r.value
  {
    if link.None? && dateFrom.None? then Err(ValueError("At least one of date_time_from or item parameters are required"))
    else if link.Some? && link.value.woocommerceId == 0 then Err(ValidationError("WooCommerce ID not found for item"))
    else
      var all := FilterWanted(remote, link, dateFrom);
      var page := if |all| <= PageLength then all else all[..PageLength];
      assert forall p :: p in page ==> p in all;
      Ok(page)
  }

  /** The first product of the page, which the Item lookup takes, is the first wanted product in remote order. */
  lemma ListFirstIsFirstWanted(link: Option<Link>, dateFrom: Option<int>, remote: seq<Product>)
    requires ListOfWcProducts(link, dateFrom, remote).Ok? && ListOfWcProducts(link, dateFrom, remote).value != []
    ensures var first := ListOfWcProducts(link, dateFrom, remote).value[0];
      exists k :: 0 <= k < |remote| && remote[k] == first && Wanted(first, link, dateFrom) &&
        forall j :: 0 <= j < k ==> !Wanted(remote[j], link, dateFrom)
  {
    FilterWantedFirst(remote, link, dateFrom);
  }
}
