/**
 * The records the synchronisation works on: the local catalog Item with its
 * per-server link rows, the remote WooCommerce Product, the server settings,
 * and the error kinds the code raises. Timestamps are integers; JSON lists of
 * attributes and images are sequences of records.
 */
module Records {

  datatype Option<+T> = None | Some(value: T)

  /** The exceptions the synchronisation raises, one constructor per kind. */
  datatype Error =
    | ValueError(msg: string)
    | SyncDisabledError(server: string)
    | DoesNotExistError(doctype: string, name: string)
    | ValidationError(msg: string)        // frappe.throw
    | DuplicateEntryError(name: string)
    | KeyError(key: string)
    | IndexError
    | UnboundLocalError(variable: string)
    | TypeError

  datatype Result<+T> = Ok(value: T) | Err(error: Error)

  datatype Outcome = Done | Failed(error: Error)

  /** A field value as stored on a document; Null stands for Python None. */
  datatype Value = Null | Str(s: string) | Int(i: int)

  /** The mapped (configurable) fields of a document, by field name. */
  type Fields = map<string, Value>

  /** Reading a field: an unset field reads as None. */
  function Get(f: Fields, k: string): Value
  {
    if k in f then f[k] else Null
  }

  /** A row of the Item's "woocommerce_servers" child table (doctype Item WooCommerce Server). */
  datatype Link = Link(
    name: string,                   // the row's own document name
    idx: int,                       // 1-based position, maintained by the framework
    server: string,                 // woocommerce_server ("" when unset)
    site: string,                   // woocommerce_site, used by the stock push
    woocommerceId: nat,             // woocommerce_id, 0 when the remote product does not exist yet
    lastSyncHash: Option<int>,      // woocommerce_last_sync_hash, the last-sync marker
    enabled: bool)

  /** A row of the Item's "attributes" child table. */
  datatype AttributeRow = AttributeRow(attribute: string, attributeValue: string)

  /** The local catalog Item. `createdBySync` is the transient document flag, never stored. */
  datatype Item = Item(
    code: string,                   // item_code, which is also the document name
    itemName: string,
    modified: int,
    stockUom: string,
    itemGroup: string,
    hasVariants: bool,
    variantOf: string,              // "" when the item is not a variant
    image: string,                  // file URL, "" when none
    attributes: seq<AttributeRow>,
    servers: seq<Link>,
    fields: Fields,
    createdBySync: bool)

  /** One row of an Item Attribute's value list. */
  datatype AttributeValue = AttributeValue(attributeValue: string, abbr: string)

  /** One entry of a product's attribute list. */
  datatype WcAttribute =
    | Full(name: string, slug: string, visible: bool, variation: bool, options: seq<string>)  // on a variable product
    | Selected(name: string, slug: string, option: string)                                    // on a variation

  /** An entry of a product's image list: one given by URL, or an uploaded media item. */
  datatype Image =
    | Image(src: string)
    | Media(mediaId: nat, name: string, alt: string)

  /** The remote product as the virtual WooCommerce Product document holds it. */
  datatype Product = Product(
    server: string,                 // woocommerce_server
    id: nat,                        // woocommerce_id, 0 before insertion
    name: string,                   // woocommerce_name
    dateModified: int,              // woocommerce_date_modified, the remote clock
    kind: string,                   // type: "simple", "variable", "variation", ...
    sku: string,
    parentId: nat,
    regularPrice: Value,
    attributes: seq<WcAttribute>,
    images: seq<Image>,
    fields: Fields)

  /** One Item Field Map row: local field name (possibly "field | label") and remote field name. */
  datatype FieldMap = FieldMap(erpnextField: string, woocommerceField: string)

  /** A WooCommerce Server document. */
  datatype ServerConfig = ServerConfig(
    name: string,
    enableSync: bool,
    nameBy: string,                 // "Product SKU" or "WooCommerce ID"
    uom: string,
    itemGroup: string,
    itemFieldMap: seq<FieldMap>,
    enablePriceListSync: bool,
    priceList: string)

  /** The File document columns the code reads. */
  datatype FileInfo = FileInfo(fileName: string, fileUrl: string, isPrivate: int)

  datatype ItemPrice = ItemPrice(itemCode: string, priceList: string, rate: int, validUpto: Option<int>)

  /** A background job as handed to the queue (recorded, never executed). */
  datatype Job =
    | ClearSyncHashAndRunItemSync(itemCode: string)
    | SyncItemOnServer(itemCode: string, idx: int)     // SynchroniseItem(item=...).run for one link row
    | SyncProduct(product: Product)                    // SynchroniseItem(woocommerce_product=...).run
    | UpdateStockLevels(itemCode: string)

  /** What the model records of writes that leave the local tables. */
  datatype Event =
    | ItemSaved(code: string)
    | ItemInserted(code: string)
    | AttributeSaved(name: string)
    | ProductPosted(product: Product)
    | ProductPut(product: Product)
    | Enqueued(job: Job)
}
