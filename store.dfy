/**
 * The local database as the synchronisation sees it: the Item table (with
 * its link rows), the Item Attribute table, and an append-only log of what
 * leaves it (saves, inserts, remote writes, enqueued jobs). Writes through
 * `db.set_value` change one column and touch neither the modification
 * date nor the save hook; a save stores the whole document, stamps it with
 * the clock and runs the Item hook.
 */
module Store {
  import opened Records
  import opened SyncRules
  import opened FieldMapper

  /** The link rows' names are distinct within an Item. */
  predicate DistinctRowNames(rows: seq<Link>)
  {
    forall i, j :: 0 <= i < j < |rows| ==> rows[i].name != rows[j].name
  }

  /** The shape the framework keeps every Item in: row positions as idx, row names distinct. */
  predicate WellFormed(it: Item)
  {
    WellIndexed(it.servers) && DistinctRowNames(it.servers)
  }

  /** `db.set_value("Item WooCommerce Server", rowName, "woocommerce_last_sync_hash", v)` on one Item's rows. */
  function SetMarkerRows(rows: seq<Link>, rowName: string, v: Option<int>): (r: seq<Link>)
    ensures |r| == |rows|
    ensures forall j :: 0 <= j < |rows| ==>
      r[j] == if rows[j].name == rowName then rows[j].(lastSyncHash := v) else rows[j]
  {
    seq(|rows|, j requires 0 <= j < |rows| => if rows[j].name == rowName then rows[j].(lastSyncHash := v) else rows[j])
  }

  /** The same write on the whole Item table: the row of that name gets the marker, nothing else changes. */
  function SetMarker(items: map<string, Item>, rowName: string, v: Option<int>): (r: map<string, Item>)
    ensures r.Keys == items.Keys
    ensures forall c :: c in items ==> r[c] == items[c].(servers := SetMarkerRows(items[c].servers, rowName, v))
  {
    map c | c in items :: items[c].(servers := SetMarkerRows(items[c].servers, rowName, v))
  }

  /** Every row of that name carries the marker `v`. */
  ghost predicate MarkerIs(items: map<string, Item>, rowName: string, v: Option<int>)
  {
    forall c, j :: c in items && 0 <= j < |items[c].servers| && items[c].servers[j].name == rowName ==>
      items[c].servers[j].lastSyncHash == v
  }

  /**
   * Writing the marker sets it on the named row, keeps every other column of
   * every row (ids, servers, enabled flags), and keeps every Item's
   * modification date, name and fields.
   */
  lemma SetMarkerWritesOnlyTheMarker(items: map<string, Item>, rowName: string, v: Option<int>)
    ensures MarkerIs(SetMarker(items, rowName, v), rowName, v)
    ensures forall c :: c in items ==>
      var it, it' := items[c], SetMarker(items, rowName, v)[c];
      it'.modified == it.modified && it'.itemName == it.itemName && it'.fields == it.fields &&
      |it'.servers| == |it.servers| &&
      forall j :: 0 <= j < |it.servers| ==>
        it'.servers[j] == it.servers[j].(lastSyncHash := it'.servers[j].lastSyncHash) &&
        (it.servers[j].name != rowName ==> it'.servers[j] == it.servers[j])
  {
  }

  /** `db.set_value("Item", code, field, v, update_modified=False)`: one field, the date untouched; no row, no effect. */
  function SetField(items: map<string, Item>, code: string, field: string, v: Value): (r: map<string, Item>)
    ensures r.Keys == items.Keys
    ensures forall c :: c in items && c != code ==> r[c] == items[c]
    ensures code in items ==>
      r[code] == items[code].(fields := r[code].fields) &&
      r[code].fields.Keys == items[code].fields.Keys + {field} && r[code].fields[field] == v &&
      forall k :: k in items[code].fields && k != field ==> r[code].fields[k] == items[code].fields[k]
  {
    if code in items then items[code := items[code].(fields := items[code].fields[field := v])] else items
  }

  /** set_item_fields on the stored Item: the mapped fields take the product's values, nothing else changes. */
  function PulledFields(items: map<string, Item>, code: string, maps: seq<FieldMap>, remote: Fields): map<string, Item>
  {
    if code in items then items[code := items[code].(fields := CopyToLocal(maps, remote, items[code].fields))] else items
  }

  /** Clearing the markers of the named rows one after the other. */
  function ClearMarkers(items: map<string, Item>, names: seq<string>): map<string, Item>
    decreases |names|
  {
    if names == [] then items else ClearMarkers(SetMarker(items, names[0], None), names[1..])
  }

  /** The log entries of one Item save: the save and, if the hook fires, its job. */
  function SaveEvents(ev: Event, doc: Item): seq<Event>
  {
    [ev] + if HookJob("Item", doc).Some? then [Enqueued(HookJob("Item", doc).value)] else []
  }

  /** The log entries of saving the named Item Attributes. */
  function AttributeEvents(names: seq<string>): seq<Event>
  {
    seq(|names|, i requires 0 <= i < |names| => AttributeSaved(names[i]))
  }

  lemma AttributeEventsAppend(names: seq<string>, n: string)
    ensures AttributeEvents(names + [n]) == AttributeEvents(names) + [AttributeSaved(n)]
  {
  }

  lemma UpdateTwice<K, V>(m: map<K, V>, k: K, a: V, b: V)
    ensures m[k := a][k := b] == m[k := b]
  {
  }

  lemma AppendAssoc<T>(a: seq<T>, b: seq<T>, c: seq<T>)
    ensures a + (b + c) == (a + b) + c
  {
  }

  /** One step of the attribute loop at entry `i`. */
  lemma UpsertAllStep(kind: string, attrs: seq<WcAttribute>, i: int, stored: map<string, seq<AttributeValue>>)
    requires 0 <= i < |attrs|
    ensures OptionsOf(kind, attrs[i]).Err? ==>
      UpsertAll(kind, attrs[i..], stored) == (stored, [], Failed(OptionsOf(kind, attrs[i]).error))
    ensures OptionsOf(kind, attrs[i]).Ok? ==>
      var name := attrs[i].name;
      var vals := if name in stored then stored[name] else [];
      var rest := UpsertAll(kind, attrs[i + 1..], stored[name := UpsertValues(vals, OptionsOf(kind, attrs[i]).value)]);
      UpsertAll(kind, attrs[i..], stored) == (rest.0, [name] + rest.1, rest.2)
  {
    assert attrs[i..][0] == attrs[i] && attrs[i..][1..] == attrs[i + 1..];
  }

  class Catalog {
    var items: map<string, Item>
    var attributes: map<string, seq<AttributeValue>>
    var log: seq<Event>
    /** The clock at which this run saves documents. */
    const now: int

    ghost predicate Valid()
      reads this
    {
      forall c :: c in items ==> items[c].code == c && WellFormed(items[c]) && !items[c].createdBySync
    }

    constructor(items0: map<string, Item>, attributes0: map<string, seq<AttributeValue>>, clock: int)
      requires forall c :: c in items0 ==> items0[c].code == c && WellFormed(items0[c]) && !items0[c].createdBySync
      ensures Valid()
      ensures items == items0 && attributes == attributes0 && log == [] && now == clock
    {
      items, attributes, log, now := items0, attributes0, [], clock;
    }

    /** Writes the last-sync marker of the named link row. */
    method SetLinkMarker(rowName: string, v: Option<int>)
      requires Valid()
      modifies this`items
      ensures Valid()
      ensures items == SetMarker(old(items), rowName, v)
    {
      items := SetMarker(items, rowName, v);
      forall c | c in items ensures WellFormed(items[c]) {
        assert items[c].servers == SetMarkerRows(old(items)[c].servers, rowName, v);
      }
    }

    /** Empties the last-sync marker of each named link row, one write after the other. */
    method ClearLinkMarkers(names: seq<string>)
      requires Valid()
      modifies this`items
      ensures Valid()
      ensures items == ClearMarkers(old(items), names)
    {
      for i := 0 to |names|
        invariant Valid()
        invariant ClearMarkers(items, names[i..]) == ClearMarkers(old(items), names)
      {
        assert names[i..][1..] == names[i + 1..];
        SetLinkMarker(names[i], None);
      }
      assert names[|names|..] == [];
    }

    /** Writes one field of a stored Item without touching its modification date. */
    method SetItemValue(code: string, field: string, v: Value)
      requires Valid()
      modifies this`items
      ensures Valid()
      ensures items == SetField(old(items), code, field, v)
    {
      items := SetField(items, code, field, v);
    }

    /** The set_value writes of set_item_fields: each mapped field of the Item, in row order. */
    method SetItemValues(code: string, maps: seq<FieldMap>, remote: Fields)
      requires Valid()
      modifies this`items
      ensures Valid()
      ensures items == PulledFields(old(items), code, maps, remote)
    {
      if code !in items {
        return;
      }
      ghost var it := items[code];
      var i := 0;
      while i < |maps|
        invariant 0 <= i <= |maps|
        invariant Valid() && code in items
        invariant items == old(items)[code := it.(fields := items[code].fields)]
        invariant CopyToLocal(maps[i..], remote, items[code].fields) == CopyToLocal(maps, remote, it.fields)
      {
        assert maps[i..][1..] == maps[i + 1..];
        ghost var before := items;
        SetItemValue(code, LocalField(maps[i]), Get(remote, maps[i].woocommerceField));
        UpdateTwice(old(items), code, before[code], items[code]);
        i := i + 1;
      }
    }

    /** Appends the entries to the log, one after the other. */
    method RecordAll(es: seq<Event>)
      modifies this`log
      ensures log == old(log) + es
    {
      for i := 0 to |es|
        invariant log == old(log) + es[..i]
      {
        assert es[..i + 1] == es[..i] + [es[i]];
        Record(es[i]);
      }
      assert es[..|es|] == es;
    }

    /** Item.save(): stamps the document, stores it without its transient flag, runs the hook. */
    method SaveItem(doc: Item) returns (saved: Item)
      requires Valid() && WellFormed(doc)
      modifies this`items, this`log
      ensures Valid()
      ensures saved == doc.(modified := now)
      ensures items == old(items)[doc.code := saved.(createdBySync := false)]
      ensures log == old(log) + SaveEvents(ItemSaved(doc.code), doc)
    {
      saved := doc.(modified := now);
      items := items[doc.code := saved.(createdBySync := false)];
      log := log + SaveEvents(ItemSaved(doc.code), doc);
    }

    /** Item.insert(): like a save, refused when the item code is taken. */
    method InsertItem(doc: Item) returns (r: Result<Item>)
      requires Valid() && WellFormed(doc)
      modifies this`items, this`log
      ensures Valid()
      ensures doc.code in old(items) ==>
        r == Err(DuplicateEntryError(doc.code)) && items == old(items) && log == old(log)
      ensures doc.code !in old(items) ==>
        r == Ok(doc.(modified := now)) &&
        items == old(items)[doc.code := doc.(modified := now, createdBySync := false)] &&
        log == old(log) + SaveEvents(ItemInserted(doc.code), doc)
    {
      if doc.code in items {
        return Err(DuplicateEntryError(doc.code));
      }
      var saved := doc.(modified := now);
      items := items[doc.code := saved.(createdBySync := false)];
      log := log + SaveEvents(ItemInserted(doc.code), doc);
      return Ok(saved);
    }

    /** Item Attribute insert or save with its new value list. */
    method SaveAttribute(name: string, vals: seq<AttributeValue>)
      modifies this`attributes, this`log
      ensures attributes == old(attributes)[name := vals]
      ensures log == old(log) + [AttributeSaved(name)]
    {
      attributes := attributes[name := vals];
      log := log + [AttributeSaved(name)];
    }

    /**
     * The loop of create_or_update_item_attributes over a remote attribute
     * list: each entry's Item Attribute takes its options and is saved, in
     * order, until an entry of the wrong shape stops it.
     */
    method UpsertAttributes(kind: string, attrs: seq<WcAttribute>) returns (o: Outcome)
      modifies this`attributes, this`log
      ensures var r := UpsertAll(kind, attrs, old(attributes));
        attributes == r.0 && o == r.2 && log == old(log) + AttributeEvents(r.1)
    {
      ghost var all := UpsertAll(kind, attrs, attributes);
      ghost var rest := all;
      ghost var saved: seq<string> := [];
      assert attrs[0..] == attrs && saved + all.1 == all.1;
      var i := 0;
      while i < |attrs|
        invariant 0 <= i <= |attrs|
        invariant rest == UpsertAll(kind, attrs[i..], attributes)
        invariant all == (rest.0, saved + rest.1, rest.2)
        invariant log == old(log) + AttributeEvents(saved)
      {
        UpsertAllStep(kind, attrs, i, attributes);
        var a := attrs[i];
        var vals := if a.name in attributes then attributes[a.name] else [];
        var options := OptionsOf(kind, a);
        if options.Err? {
          return Failed(options.error);
        }
        SaveAttribute(a.name, UpsertValues(vals, options.value));
        AttributeEventsAppend(saved, a.name);
        ghost var next := UpsertAll(kind, attrs[i + 1..], attributes);
        AppendAssoc(saved, [a.name], next.1);
        rest := next;
        saved := saved + [a.name];
        i := i + 1;
      }
      assert attrs[i..] == [];
      return Done;
    }

    /** Records a remote write or an enqueued job. */
    method Record(e: Event)
      modifies this`log
      ensures log == old(log) + [e]
    {
      log := log + [e];
    }
  }
}
