/**
 * The order record: an immutable record of fifteen string fields and six
 * number fields, each with a default. Supplying some of the fields merges
 * them over the defaults.
 */
module Orders {
  import opened Wrappers

  /** The string fields of an order, usable as table dimensions. */
  datatype StringKey =
    | OrderId | OrderDate | ShipDate | ShipMode | CustomerId | CustomerName
    | Segment | Country | City | State | Region | ProductId | Category
    | SubCategory | ProductName

  /** The number fields of an order. */
  datatype NumKey = RowId | PostalCode | Sales | Quantity | Discount | Profit

  /** JavaScript numbers are modelled as exact reals. */
  datatype Order = Order(
    rowId: real, orderId: string, orderDate: string, shipDate: string,
    shipMode: string, customerId: string, customerName: string,
    segment: string, country: string, city: string, state: string,
    postalCode: real, region: string, productId: string, category: string,
    subCategory: string, productName: string, sales: real, quantity: real,
    discount: real, profit: real)

  /**
   * `Partial<OrderProps>`: a supplied field is `Some`; a field that is
   * absent, or present with the value `undefined`, is `None` (the record
   * then reads its default).
   */
  datatype OrderPatch = OrderPatch(
    rowId: Option<real>, orderId: Option<string>, orderDate: Option<string>,
    shipDate: Option<string>, shipMode: Option<string>,
    customerId: Option<string>, customerName: Option<string>,
    segment: Option<string>, country: Option<string>, city: Option<string>,
    state: Option<string>, postalCode: Option<real>, region: Option<string>,
    productId: Option<string>, category: Option<string>,
    subCategory: Option<string>, productName: Option<string>,
    sales: Option<real>, quantity: Option<real>, discount: Option<real>,
    profit: Option<real>)

  /** `order.get(key)` for a string field. */
  function Str(o: Order, k: StringKey): string
  {
    match k
    case OrderId => o.orderId
    case OrderDate => o.orderDate
    case ShipDate => o.shipDate
    case ShipMode => o.shipMode
    case CustomerId => o.customerId
    case CustomerName => o.customerName
    case Segment => o.segment
    case Country => o.country
    case City => o.city
    case State => o.state
    case Region => o.region
    case ProductId => o.productId
    case Category => o.category
    case SubCategory => o.subCategory
    case ProductName => o.productName
  }

  /** `order.get(key)` for a number field. */
  function Num(o: Order, k: NumKey): real
  {
    match k
    case RowId => o.rowId
    case PostalCode => o.postalCode
    case Sales => o.sales
    case Quantity => o.quantity
    case Discount => o.discount
    case Profit => o.profit
  }

  /** The string field `k` of a partial record, if supplied. */
  function PatchStr(p: OrderPatch, k: StringKey): Option<string>
  {
    match k
    case OrderId => p.orderId
    case OrderDate => p.orderDate
    case ShipDate => p.shipDate
    case ShipMode => p.shipMode
    case CustomerId => p.customerId
    case CustomerName => p.customerName
    case Segment => p.segment
    case Country => p.country
    case City => p.city
    case State => p.state
    case Region => p.region
    case ProductId => p.productId
    case Category => p.category
    case SubCategory => p.subCategory
    case ProductName => p.productName
  }

  /** The number field `k` of a partial record, if supplied. */
  function PatchNum(p: OrderPatch, k: NumKey): Option<real>
  {
    match k
    case RowId => p.rowId
    case PostalCode => p.postalCode
    case Sales => p.sales
    case Quantity => p.quantity
    case Discount => p.discount
    case Profit => p.profit
  }

  /** `defaultOrderProps`: every string field empty, every number zero. */
  function DefaultOrder(): (o: Order)
    ensures forall k :: Str(o, k) == ""
    ensures forall k :: Num(o, k) == 0.0
  {
    Order(0.0, "", "", "", "", "", "", "", "", "", "", 0.0, "", "", "", "", "",
          0.0, 0.0, 0.0, 0.0)
  }

  /** `defaultOrderProps` passed as a (complete) set of props. */
  function DefaultProps(): OrderPatch
  {
    OrderPatch(Some(0.0), Some(""), Some(""), Some(""), Some(""), Some(""), Some(""),
               Some(""), Some(""), Some(""), Some(""), Some(0.0), Some(""), Some(""),
               Some(""), Some(""), Some(""), Some(0.0), Some(0.0), Some(0.0), Some(0.0))
  }

  /** A supplied value, or the default when the field is not supplied. */
  function Or<T>(v: Option<T>, d: T): T
  {
    match v
    case Some(x) => x
    case None => d
  }

  /** The record built from a partial set of fields: supplied fields win. */
  function FromProps(p: OrderPatch): (o: Order)
    ensures forall k :: Str(o, k) == Or(PatchStr(p, k), Str(DefaultOrder(), k))
    ensures forall k :: Num(o, k) == Or(PatchNum(p, k), Num(DefaultOrder(), k))
  {
    var d := DefaultOrder();
    Order(Or(p.rowId, d.rowId), Or(p.orderId, d.orderId),
          Or(p.orderDate, d.orderDate), Or(p.shipDate, d.shipDate),
          Or(p.shipMode, d.shipMode), Or(p.customerId, d.customerId),
          Or(p.customerName, d.customerName), Or(p.segment, d.segment),
          Or(p.country, d.country), Or(p.city, d.city), Or(p.state, d.state),
          Or(p.postalCode, d.postalCode), Or(p.region, d.region),
          Or(p.productId, d.productId), Or(p.category, d.category),
          Or(p.subCategory, d.subCategory), Or(p.productName, d.productName),
          Or(p.sales, d.sales), Or(p.quantity, d.quantity),
          Or(p.discount, d.discount), Or(p.profit, d.profit))
  }

  /** `new Order(props?)`: `super(props || defaultOrderProps)`. */
  function NewOrder(props: Option<OrderPatch>): (o: Order)
    ensures props.None? ==> o == DefaultOrder()
    ensures props.Some? ==> forall k :: Str(o, k) == Or(PatchStr(props.value, k), "")
    ensures props.Some? ==> forall k :: Num(o, k) == Or(PatchNum(props.value, k), 0.0)
  {
    match props
    case Some(p) => FromProps(p)
    case None => FromProps(DefaultProps())
  }

  /** `Order.fromService(obj?)`: the given fields over the defaults, or the default order. */
  function FromService(obj: Option<OrderPatch>): (o: Order)
    ensures obj.None? ==> o == DefaultOrder()
    ensures obj.Some? ==> forall k :: Str(o, k) == Or(PatchStr(obj.value, k), "")
    ensures obj.Some? ==> forall k :: Num(o, k) == Or(PatchNum(obj.value, k), 0.0)
  {
    if obj.Some? then NewOrder(obj) else NewOrder(Some(DefaultProps()))
  }
}
