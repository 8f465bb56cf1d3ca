/** The records of the inventory app (stock_management/models.py): products,
    transaction headers of type IN or OUT, and the line items that reference
    both; the stock of a product as the signed sum of its line quantities;
    the line-item checks and the per-transaction aggregates. Prices are
    integer cents. */
module Models {
  import opened Wrappers
  import opened Text

  type ProductId = nat
  type TxId = nat
  type LineId = nat

  datatype TxType = IN | OUT

  /** A stored transaction header (one `StockTrans` row). */
  datatype Header = Header(kind: TxType, notes: string, createdBy: string)

  /** A stored line item (one `StockDetail` row); `price` is in cents. */
  datatype Line = Line(id: LineId, product: ProductId, tx: TxId, qty: int, price: Option<int>)

  /** A stored product (one `ProdMast` row). */
  datatype Product = Product(name: string, description: string, active: bool)

  /** The rejections the app raises, as values. */
  datatype Error =
    | NameTooShort
    | DuplicateName
    | QuantityRequired
    | QuantityNotPositive
    | NegativePrice
    | InsufficientStock(product: ProductId, available: int, requested: int)
    | DuplicateProduct(product: ProductId)
    | EmptyTransaction
    | InvalidForms
    | NotFound

  /** The quantity a line contributes to its product's stock: negated when
      the line's transaction is OUT, and taken as is otherwise. */
  function Signed(l: Line, headers: map<TxId, Header>): int {
    if l.tx in headers && headers[l.tx].kind == OUT then -l.qty else l.qty
  }

  /** What a line contributes to the stock of product `p`. */
  function Contribution(l: Line, headers: map<TxId, Header>, p: ProductId): int {
    if l.product == p then Signed(l, headers) else 0
  }

  /** Quantity on hand of `p`: the sum of the contributions of all lines,
      replayed in order. */
  function Stock(lines: seq<Line>, headers: map<TxId, Header>, p: ProductId): int {
    if lines == [] then 0
    else Stock(lines[..|lines| - 1], headers, p) + Contribution(lines[|lines| - 1], headers, p)
  }

  /** The lines other than the one with id `self` (all of them when `self`
      is None, as for a record that has not been saved). */
  function Without(lines: seq<Line>, self: Option<LineId>): (r: seq<Line>)
    ensures |r| <= |lines|
  {
    if lines == [] then []
    else
      var rest := Without(lines[..|lines| - 1], self);
      var last := lines[|lines| - 1];
      if self == Some(last.id) then rest else rest + [last]
  }

  /** `StockDetail.get_current_stock`: the stock of `p` from every line
      except the record `self` being validated. */
  method CurrentStockExcluding(lines: seq<Line>, headers: map<TxId, Header>, p: ProductId, self: Option<LineId>)
    returns (stock: int)
    ensures stock == Stock(Without(lines, self), headers, p)
  {
    stock := 0;
    var i := 0;
    while i < |lines|
      invariant 0 <= i <= |lines|
      invariant stock == Stock(Without(lines[..i], self), headers, p)
    {
      var detail := lines[i];
      assert lines[..i + 1][..i] == lines[..i];
      if self == Some(detail.id) {
        i := i + 1;
        continue;
      }
      if detail.product == p {
        var qty := detail.qty;
        if detail.tx in headers && headers[detail.tx].kind == OUT {
          qty := -qty;
        }
        stock := stock + qty;
      }
      i := i + 1;
    }
    assert lines[..i] == lines;
  }

  /** `StockDetail.clean`: a quantity must be present and positive. */
  function CleanDetail(quantity: Option<int>): (r: Result<(), Error>)
    ensures r.Ok? <==> quantity.Some? && quantity.value > 0
    ensures quantity.None? ==> r == Err(QuantityRequired)
    ensures quantity.Some? && quantity.value <= 0 ==> r == Err(QuantityNotPositive)
  {
    if quantity.None? then Err(QuantityRequired)
    else if quantity.value <= 0 then Err(QuantityNotPositive)
    else Ok(())
  }

  /** `StockDetail.validate_stock_availability`: for an OUT movement of
      `quantity` units of `p` by the record `self`, the stock without that
      record must cover the quantity; IN movements are never checked. */
  function ValidateStockAvailability(kind: TxType, self: Option<LineId>, p: ProductId, quantity: int,
                                     lines: seq<Line>, headers: map<TxId, Header>): (r: Result<(), Error>)
    ensures kind == IN ==> r.Ok?
    ensures kind == OUT ==> (r.Err? <==> Stock(Without(lines, self), headers, p) < quantity)
    ensures r.Err? ==> r.error == InsufficientStock(p, Stock(Without(lines, self), headers, p), quantity)
  {
    if kind == OUT then
      var available := Stock(Without(lines, self), headers, p);
      if available < quantity then Err(InsufficientStock(p, available, quantity)) else Ok(())
    else Ok(())
  }

  /** `StockTrans.get_total_items`: the number of lines of transaction `t`. */
  function TotalItems(lines: seq<Line>, t: TxId): (n: nat)
    ensures n <= |lines|
  {
    if lines == [] then 0
    else TotalItems(lines[..|lines| - 1], t) + (if lines[|lines| - 1].tx == t then 1 else 0)
  }

  /** `StockTrans.get_total_quantity`: the sum of the quantities of the lines
      of transaction `t`. */
  function TotalQuantity(lines: seq<Line>, t: TxId): int {
    if lines == [] then 0
    else TotalQuantity(lines[..|lines| - 1], t) + (if lines[|lines| - 1].tx == t then lines[|lines| - 1].qty else 0)
  }

  /** Every quantity is at least 1 (the model's minimum-value validator), so
      a transaction's total quantity is at least its number of lines. */
  lemma {:induction false} TotalQuantityAtLeastItems(lines: seq<Line>, t: TxId)
    requires forall i :: 0 <= i < |lines| ==> lines[i].qty >= 1
    ensures TotalQuantity(lines, t) >= TotalItems(lines, t)
  {
    if lines != [] {
      TotalQuantityAtLeastItems(lines[..|lines| - 1], t);
    }
  }

  /** `StockDetail.get_total_value`: quantity times unit price when a
      non-zero price is recorded, 0 otherwise. */
  function LineValue(l: Line): (v: int)
    ensures v == l.qty * l.price.GetOr(0)
    ensures l.qty >= 1 && l.price.GetOr(0) >= 0 ==> v >= 0
  {
    if l.price.Some? && l.price.value != 0 then l.qty * l.price.value else 0
  }

  /** The invariant the store keeps: every line belongs to a stored header,
      ids are below the next ids to be assigned and distinct, quantities are
      at least 1, prices are not negative, and no product appears twice in
      one transaction (`unique_together = ['product', 'transaction']`). */
  predicate Consistent(lines: seq<Line>, headers: map<TxId, Header>, nextTx: TxId, nextLine: LineId) {
    && (forall t :: t in headers ==> t < nextTx)
    && (forall i :: 0 <= i < |lines| ==> lines[i].tx in headers && lines[i].id < nextLine)
    && (forall i :: 0 <= i < |lines| ==> lines[i].qty >= 1 && lines[i].price.GetOr(0) >= 0)
    && (forall i, j :: 0 <= i < j < |lines| ==> lines[i].id != lines[j].id)
    && UniquePairs(lines)
  }

  /** No two lines share the same (product, transaction) pair. */
  predicate UniquePairs(lines: seq<Line>) {
    forall i, j :: 0 <= i < j < |lines| ==> (lines[i].product, lines[i].tx) != (lines[j].product, lines[j].tx)
  }

  /** A `ProdMast` instance being cleaned before it is saved. */
  class ProductRecord {
    var name: string
    var description: string
    var active: bool

    constructor (name: string, description: string, active: bool)
      ensures this.name == name && this.description == description && this.active == active
    {
      this.name := name;
      this.description := description;
      this.active := active;
    }

    /** `ProdMast.clean`: a non-empty name is replaced by its stripped,
        title-cased form (also when it is then rejected), and the name is
        rejected when its stripped length is below 2. */
    method Clean() returns (r: Result<(), Error>)
      modifies this`name
      ensures name == if old(name) != [] then Normalize(old(name)) else old(name)
      ensures r.Ok? <==> |Strip(old(name))| >= 2
      ensures r.Err? ==> r.error == NameTooShort
    {
      if name != [] {
        name := Normalize(name);
        StripKeepsStripped(name);
      }
      if |Strip(name)| < 2 {
        return Err(NameTooShort);
      }
      return Ok(());
    }
  }
}
