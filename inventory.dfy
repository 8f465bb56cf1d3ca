/** The read side of the views (stock_management/views.py, lines 119-210):
    the whole-inventory listing, its JSON counterpart, and the stock check of
    one product, each with its three-way stock status. */
module Inventory {
  import opened Wrappers
  import opened Text
  import opened Models
  import opened Projection
  import Forms

  /** Quantities up to this value (and above 0) are low stock. */
  const LowStockThreshold: int := 10

  datatype StockStatus = OutOfStock | LowStock | Good

  /** The status rule, as the JSON endpoints write it. */
  function Status(q: int): (s: StockStatus)
    ensures s == OutOfStock <==> q <= 0
    ensures s == LowStock <==> 0 < q <= LowStockThreshold
    ensures s == Good <==> q > LowStockThreshold
  {
    if q <= 0 then OutOfStock else if q <= LowStockThreshold then LowStock else Good
  }

  /** One row of a listing: the product, its name, its stock and status. */
  datatype Entry = Entry(product: ProductId, name: string, quantity: int, status: StockStatus)

  /** Every row of `list` is right about its product: the product has lines,
      the name is the catalog's, the quantity is the product's stock and the
      status is that quantity's. */
  predicate Describes(list: seq<Entry>, lines: seq<Line>, headers: map<TxId, Header>, catalog: map<ProductId, Product>) {
    forall k :: 0 <= k < |list| ==>
      && HasLines(lines, list[k].product)
      && list[k].product in catalog
      && list[k].name == catalog[list[k].product].name
      && list[k].quantity == Stock(lines, headers, list[k].product)
      && list[k].status == Status(list[k].quantity)
  }

  /** Extending a prefix of the ledger by its next line appends that
      line's product to the key order unless the product is already there. */
  lemma OrderStep(lines: seq<Line>, i: nat)
    requires i < |lines|
    ensures ProductOrder(lines[..i + 1]) ==
      if lines[i].product in ProductOrder(lines[..i]) then ProductOrder(lines[..i])
      else ProductOrder(lines[..i]) + [lines[i].product]
  {
    assert lines[..i + 1][..i] == lines[..i];
  }

  /** Extending a prefix of the ledger by its next line adds that line's
      contribution to the stock of `p`. */
  lemma StockStep(lines: seq<Line>, headers: map<TxId, Header>, i: nat, p: ProductId)
    requires i < |lines|
    ensures Stock(lines[..i + 1], headers, p) == Stock(lines[..i], headers, p) + Contribution(lines[i], headers, p)
  {
    assert lines[..i + 1][..i] == lines[..i];
  }

  /** Adding the next line's signed quantity to its product's running total
      (which starts at 0, as the stock of a product without lines is) keeps
      every total equal to the stock over the longer prefix. */
  lemma TallyStep(lines: seq<Line>, headers: map<TxId, Header>, i: nat,
                  inventory: map<ProductId, int>, inventory': map<ProductId, int>)
    requires i < |lines|
    requires forall p :: p in inventory ==> inventory[p] == Stock(lines[..i], headers, p)
    requires lines[i].product !in inventory ==> Stock(lines[..i], headers, lines[i].product) == 0
    requires inventory' == inventory[lines[i].product :=
      (if lines[i].product in inventory then inventory[lines[i].product] else 0) + Signed(lines[i], headers)]
    ensures forall p :: p in inventory' ==> inventory'[p] == Stock(lines[..i + 1], headers, p)
  {
    forall p | p in inventory' ensures inventory'[p] == Stock(lines[..i + 1], headers, p) {
      StockStep(lines, headers, i, p);
    }
  }

  /** The single-pass aggregation shared by the inventory views: a map from
      each product with lines to its signed sum, and the map's keys in
      insertion order. */
  method Accumulate(lines: seq<Line>, headers: map<TxId, Header>)
    returns (inventory: map<ProductId, int>, order: seq<ProductId>)
    ensures order == ProductOrder(lines)
    ensures forall p :: p in inventory <==> p in order
    ensures forall p :: p in inventory ==> inventory[p] == Stock(lines, headers, p)
  {
    inventory, order := map[], [];
    var i := 0;
    while i < |lines|
      invariant 0 <= i <= |lines|
      invariant order == ProductOrder(lines[..i])
      invariant forall p :: p in inventory <==> p in order
      invariant forall p :: p in inventory ==> inventory[p] == Stock(lines[..i], headers, p)
    {
      var detail := lines[i];
      var qty := detail.qty;
      if detail.tx in headers && headers[detail.tx].kind == OUT {
        qty := -qty;
      }
      assert qty == Signed(detail, headers);
      OrderStep(lines, i);
      // a defaultdict: a product seen for the first time starts at 0 and
      // takes the next place in the key order
      var previous := 0;
      if detail.product in inventory {
        previous := inventory[detail.product];
      } else {
        ProductOrderSpec(lines[..i]);
        StockOfUnusedProduct(lines[..i], headers, detail.product);
        order := order + [detail.product];
      }
      ghost var before := inventory;
      inventory := inventory[detail.product := previous + qty];
      TallyStep(lines, headers, i, before, inventory);
      i := i + 1;
    }
    assert lines[..i] == lines;
  }

  /** `inventory_view` (lines 131-143): one row per key, in key order, with
      the status computed by the view's if/elif chain. */
  method ViewEntries(inventory: map<ProductId, int>, order: seq<ProductId>, catalog: map<ProductId, Product>)
    returns (list: seq<Entry>)
    requires forall p :: p in order ==> p in inventory && p in catalog
    ensures |list| == |order|
    ensures forall k :: 0 <= k < |list| ==>
      list[k] == Entry(order[k], catalog[order[k]].name, inventory[order[k]], Status(inventory[order[k]]))
  {
    list := [];
    for i := 0 to |order|
      invariant |list| == i
      invariant forall k :: 0 <= k < i ==>
        list[k] == Entry(order[k], catalog[order[k]].name, inventory[order[k]], Status(inventory[order[k]]))
    {
      var product := order[i];
      var quantity := inventory[product];
      var status := Good;
      if quantity <= 0 {
        status := OutOfStock;
      } else if quantity <= LowStockThreshold {
        status := LowStock;
      }
      list := list + [Entry(product, catalog[product].name, quantity, status)];
    }
  }

  /** `api_inventory` (lines 166-173): the same rows, with the status written
      as a conditional expression. */
  method ApiEntries(inventory: map<ProductId, int>, order: seq<ProductId>, catalog: map<ProductId, Product>)
    returns (data: seq<Entry>)
    requires forall p :: p in order ==> p in inventory && p in catalog
    ensures |data| == |order|
    ensures forall k :: 0 <= k < |data| ==>
      data[k] == Entry(order[k], catalog[order[k]].name, inventory[order[k]], Status(inventory[order[k]]))
  {
    data := [];
    for i := 0 to |order|
      invariant |data| == i
      invariant forall k :: 0 <= k < i ==>
        data[k] == Entry(order[k], catalog[order[k]].name, inventory[order[k]], Status(inventory[order[k]]))
    {
      var product := order[i];
      var quantity := inventory[product];
      data := data + [Entry(product, catalog[product].name, quantity,
                            if quantity <= 0 then OutOfStock else if quantity <= 10 then LowStock else Good)];
    }
  }

  predicate SortedByName(list: seq<Entry>) {
    forall i, j :: 0 <= i < j < |list| ==> NameLe(list[i].name, list[j].name)
  }

  /** Inserting a row into a name-sorted list, before the first row whose
      name is not smaller, so that rows with equal names keep their order. */
  function InsertByName(e: Entry, list: seq<Entry>): (r: seq<Entry>)
    requires SortedByName(list)
    ensures SortedByName(r)
    ensures multiset(r) == multiset(list) + multiset{e}
  {
    if list == [] || NameLe(e.name, list[0].name) then
      assert forall j :: 0 <= j < |list| ==> NameLe(e.name, list[j].name) by {
        forall j | 0 < j < |list| ensures NameLe(e.name, list[j].name) {
          NameLeTransitive(e.name, list[0].name, list[j].name);
        }
      }
      [e] + list
    else
      var rest := InsertByName(e, list[1..]);
      assert list == [list[0]] + list[1..];
      NameLeTotal(e.name, list[0].name);
      HeadStaysFirst(e, list, rest);
      [list[0]] + rest
  }

  /** The head of a sorted list is not above anything in the tail with `e`
      inserted, when it is not above `e` either. */
  lemma HeadStaysFirst(e: Entry, list: seq<Entry>, rest: seq<Entry>)
    requires SortedByName(list) && list != []
    requires NameLe(list[0].name, e.name)
    requires multiset(rest) == multiset(list[1..]) + multiset{e}
    ensures forall j :: 0 <= j < |rest| ==> NameLe(list[0].name, rest[j].name)
  {
    forall j | 0 <= j < |rest| ensures NameLe(list[0].name, rest[j].name) {
      assert rest[j] in multiset(rest);
      if rest[j] != e {
        assert rest[j] in multiset(list[1..]);
        var m :| 0 <= m < |list[1..]| && list[1..][m] == rest[j];
        assert list[m + 1] == rest[j];
      }
    }
  }

  /** `list.sort(key=lambda x: x['product'].prod_name)`: a stable insertion
      sort by name. */
  function SortByName(list: seq<Entry>): (r: seq<Entry>)
    ensures SortedByName(r)
    ensures multiset(r) == multiset(list)
    ensures |r| == |list|
  {
    if list == [] then []
    else
      assert list == [list[0]] + list[1..];
      var r := InsertByName(list[0], SortByName(list[1..]));
      assert |r| == |multiset(r)| == |multiset(list)| == |list|;
      r
  }

  lemma {:induction false} DistinctCount(s: seq<Entry>, x: Entry)
    requires forall i, j :: 0 <= i < j < |s| ==> s[i] != s[j]
    ensures multiset(s)[x] <= 1
  {
    if s != [] {
      var n := |s| - 1;
      assert s == s[..n] + [s[n]];
      assert forall i, j :: 0 <= i < j < n ==> s[..n][i] != s[..n][j] by {
        forall i, j | 0 <= i < j < n ensures s[..n][i] != s[..n][j] {
          assert s[..n][i] == s[i] && s[..n][j] == s[j];
        }
      }
      DistinctCount(s[..n], x);
      if s[n] == x {
        assert x !in s[..n] by {
          forall m | 0 <= m < n ensures s[..n][m] != x {
            assert s[..n][m] == s[m];
          }
        }
      }
    }
  }

  lemma TwoCopies(s: seq<Entry>, i: nat, j: nat)
    requires i < j < |s| && s[i] == s[j]
    ensures multiset(s)[s[i]] >= 2
  {
    assert s == s[..j] + [s[j]] + s[j + 1..];
    assert s[..j][i] == s[i];
    assert s[i] in multiset(s[..j]);
  }

  /** A rearrangement of rows with distinct products has distinct products. */
  lemma PermutationKeepsProductsDistinct(pre: seq<Entry>, r: seq<Entry>)
    requires multiset(r) == multiset(pre)
    requires forall i, j :: 0 <= i < j < |pre| ==> pre[i].product != pre[j].product
    ensures forall i, j :: 0 <= i < j < |r| ==> r[i].product != r[j].product
  {
    assert forall i, j :: 0 <= i < j < |pre| ==> pre[i] != pre[j];
    forall i, j | 0 <= i < j < |r| ensures r[i].product != r[j].product {
      if r[i].product == r[j].product {
        assert r[i] in multiset(pre) && r[j] in multiset(pre);
        var a :| 0 <= a < |pre| && pre[a] == r[i];
        var b :| 0 <= b < |pre| && pre[b] == r[j];
        assert a == b;
        TwoCopies(r, i, j);
        DistinctCount(pre, r[i]);
        assert false;
      }
    }
  }

  /** Sorting a list whose rows are determined by their product, one row per
      product, keeps one row per product. */
  lemma SortKeepsProductsDistinct(pre: seq<Entry>, lines: seq<Line>, headers: map<TxId, Header>, catalog: map<ProductId, Product>)
    requires Describes(pre, lines, headers, catalog)
    requires forall i, j :: 0 <= i < j < |pre| ==> pre[i].product != pre[j].product
    ensures var r := SortByName(pre);
      Describes(r, lines, headers, catalog) && forall i, j :: 0 <= i < j < |r| ==> r[i].product != r[j].product
  {
    var r := SortByName(pre);
    forall k | 0 <= k < |r| ensures r[k] in pre {
      assert r[k] in multiset(r);
    }
    PermutationKeepsProductsDistinct(pre, r);
  }

  /** `inventory_view`: one row for every product that has lines and for no
      other, each with its stock and status, sorted by product name. */
  method InventoryView(lines: seq<Line>, headers: map<TxId, Header>, catalog: map<ProductId, Product>)
    returns (list: seq<Entry>)
    requires forall i :: 0 <= i < |lines| ==> lines[i].product in catalog
    ensures SortedByName(list)
    ensures Describes(list, lines, headers, catalog)
    ensures forall i, j :: 0 <= i < j < |list| ==> list[i].product != list[j].product
    ensures forall p :: HasLines(lines, p) ==> exists k :: 0 <= k < |list| && list[k].product == p
  {
    var inventory, order := Accumulate(lines, headers);
    ProductOrderSpec(lines);
    forall p | p in order ensures p in catalog {
      var i :| 0 <= i < |lines| && lines[i].product == p;
    }
    var unsorted := ViewEntries(inventory, order, catalog);
    SortKeepsProductsDistinct(unsorted, lines, headers, catalog);
    list := SortByName(unsorted);
    SortedListsAll(unsorted, list, order);
  }

  /** A rearrangement of rows for the products of `order` still has a row
      for each of them. */
  lemma SortedListsAll(unsorted: seq<Entry>, list: seq<Entry>, order: seq<ProductId>)
    requires |unsorted| == |order|
    requires forall k :: 0 <= k < |unsorted| ==> unsorted[k].product == order[k]
    requires multiset(list) == multiset(unsorted)
    ensures forall p :: p in order ==> exists k :: 0 <= k < |list| && list[k].product == p
  {
    forall p | p in order ensures exists k :: 0 <= k < |list| && list[k].product == p {
      var m :| 0 <= m < |order| && order[m] == p;
      assert unsorted[m] in multiset(list);
      var k :| 0 <= k < |list| && list[k] == unsorted[m];
    }
  }

  /** `api_inventory`: the rows in the dictionary's insertion order (first
      appearance in the ledger) and their number. */
  method ApiInventory(lines: seq<Line>, headers: map<TxId, Header>, catalog: map<ProductId, Product>)
    returns (data: seq<Entry>, totalProducts: nat)
    requires forall i :: 0 <= i < |lines| ==> lines[i].product in catalog
    ensures totalProducts == |data| == |ProductOrder(lines)|
    ensures forall k :: 0 <= k < |data| ==> data[k].product == ProductOrder(lines)[k]
    ensures Describes(data, lines, headers, catalog)
  {
    var inventory, order := Accumulate(lines, headers);
    ProductOrderSpec(lines);
    forall p | p in order ensures p in catalog {
      var i :| 0 <= i < |lines| && lines[i].product == p;
    }
    data := ApiEntries(inventory, order, catalog);
    totalProducts := |data|;
  }

  /** `api_check_stock`: an unknown product is not found; a known one is
      reported with its stock and status. */
  method CheckStock(catalog: map<ProductId, Product>, lines: seq<Line>, headers: map<TxId, Header>, productId: ProductId)
    returns (r: Result<Entry, Error>)
    ensures productId !in catalog ==> r == Err(NotFound)
    ensures productId in catalog ==>
      r == Ok(Entry(productId, catalog[productId].name, Stock(lines, headers, productId), Status(Stock(lines, headers, productId))))
  {
    if productId !in catalog {
      return Err(NotFound);
    }
    var currentStock := Forms.CurrentStock(lines, headers, productId);
    var status := if currentStock <= 0 then OutOfStock else if currentStock <= 10 then LowStock else Good;
    return Ok(Entry(productId, catalog[productId].name, currentStock, status));
  }
}
