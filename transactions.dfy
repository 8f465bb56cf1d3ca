/** The write path of the views (stock_management/views.py, lines 35-98):
    a submitted header and formset of line forms are validated against the
    ledger as it was before the submission and, inside one atomic block,
    committed as a header plus one line per filled, non-deleted form, or
    rejected with the ledger left as it was. */
module Transactions {
  import opened Wrappers
  import opened Models
  import opened Projection
  import opened Forms

  /** The cleaned data of one line form: a blank extra form, or a filled one,
      possibly ticked for deletion. */
  datatype DetailForm =
    | Blank
    | Filled(product: Option<ProductId>, quantity: Option<int>, price: Option<int>, delete: bool)

  /** A form the view acts on: filled and not marked for deletion. */
  predicate Active(f: DetailForm) {
    f.Filled? && !f.delete
  }

  /** An active form whose product and quantity are present. */
  predicate Ready(f: DetailForm) {
    Active(f) && f.product.Some? && f.quantity.Some?
  }

  /** What a valid formset guarantees of each form's cleaned data. */
  predicate WellFormed(f: DetailForm) {
    Active(f) ==> Ready(f)
  }

  /** Field validation of one form, which the formset runs on every form not
      marked for deletion (blank extra forms are always valid): a product
      chosen among the active ones, a quantity given and positive, a price
      absent or not negative, and `clean` as the formset builds the form,
      without a transaction type. */
  predicate FormValid(f: DetailForm, catalog: map<ProductId, Product>, lines: seq<Line>, headers: map<TxId, Header>) {
    Active(f) ==>
      && Ready(f)
      && f.product.value in catalog && catalog[f.product.value].active
      && CleanQuantity(f.quantity).Ok?
      && CleanUnitPrice(f.price).Ok?
      && FormClean(f.product, f.quantity, None, lines, headers).Ok?
  }

  /** Every form passes its own validation. */
  predicate EachFormValid(forms: seq<DetailForm>, catalog: map<ProductId, Product>, lines: seq<Line>, headers: map<TxId, Header>) {
    forall i :: 0 <= i < |forms| ==> FormValid(forms[i], catalog, lines, headers)
  }

  /** The formset's validation with `min_num=1, validate_min=True`: every
      form is valid; the first form is not allowed to be left blank (forms
      below `min_num` are not `empty_permitted`, so a blank one fails its
      required fields); and at least one form is filled and not deleted
      (total forms, minus deleted ones, minus unchanged ones, is at least 1). */
  predicate FormsetValid(forms: seq<DetailForm>, catalog: map<ProductId, Product>, lines: seq<Line>, headers: map<TxId, Header>) {
    && EachFormValid(forms, catalog, lines, headers)
    && (|forms| > 0 ==> forms[0].Filled?)
    && exists i :: 0 <= i < |forms| && Active(forms[i])
  }

  /** No ready form names a product of `seen`. */
  predicate Fresh(forms: seq<DetailForm>, seen: set<ProductId>) {
    forall i :: 0 <= i < |forms| && Ready(forms[i]) ==> forms[i].product.value !in seen
  }

  /** No product is named by two ready forms. */
  predicate ActiveDistinct(forms: seq<DetailForm>) {
    forall i, j :: 0 <= i < j < |forms| && Ready(forms[i]) && Ready(forms[j]) ==>
      forms[i].product.value != forms[j].product.value
  }

  /** For an OUT movement, the stock before the batch covers every ready
      form's quantity, each form on its own. */
  predicate Covered(kind: TxType, forms: seq<DetailForm>, lines: seq<Line>, headers: map<TxId, Header>) {
    kind == OUT ==>
      forall i :: 0 <= i < |forms| && Ready(forms[i]) ==>
        forms[i].quantity.value <= Stock(lines, headers, forms[i].product.value)
  }

  /** The products named by the ready forms. */
  function ActiveProducts(forms: seq<DetailForm>): set<ProductId> {
    set i | 0 <= i < |forms| && Ready(forms[i]) :: forms[i].product.value
  }

  /** The validation loop of the view, form by form in submission order,
      given the products `seen` so far: a product named twice is rejected,
      and for OUT each line is checked by `validate_stock_availability` on an
      unsaved record against the ledger as it was before the batch. The
      result is the set of products of the batch. */
  function CheckBatch(kind: TxType, forms: seq<DetailForm>, seen: set<ProductId>,
                      lines: seq<Line>, headers: map<TxId, Header>): Result<set<ProductId>, Error>
    requires forall i :: 0 <= i < |forms| ==> WellFormed(forms[i])
  {
    if forms == [] then Ok(seen)
    else
      var f := forms[0];
      assert forall i :: 0 <= i < |forms[1..]| ==> forms[1..][i] == forms[i + 1];
      assert WellFormed(f);
      if !Active(f) then CheckBatch(kind, forms[1..], seen, lines, headers)
      else
        var p := f.product.value;
        if p in seen then Err(DuplicateProduct(p))
        else
          match ValidateStockAvailability(kind, None, p, f.quantity.value, lines, headers)
          case Err(e) => Err(e)
          case Ok(_) => CheckBatch(kind, forms[1..], seen + {p}, lines, headers)
  }

  /** How the four conditions on a batch split into its first form and the rest. */
  lemma Decompose(kind: TxType, forms: seq<DetailForm>, seen: set<ProductId>, lines: seq<Line>, headers: map<TxId, Header>)
    requires forms != []
    ensures var f, rest := forms[0], forms[1..];
      && (Fresh(forms, seen) <==> (Ready(f) ==> f.product.value !in seen) && Fresh(rest, seen))
      && (ActiveDistinct(forms) <==> (Ready(f) ==> Fresh(rest, {f.product.value})) && ActiveDistinct(rest))
      && (Covered(kind, forms, lines, headers) <==>
            (Ready(f) && kind == OUT ==> f.quantity.value <= Stock(lines, headers, f.product.value))
            && Covered(kind, rest, lines, headers))
      && ActiveProducts(forms) == (if Ready(f) then {f.product.value} else {}) + ActiveProducts(rest)
  {
    var f, rest := forms[0], forms[1..];
    assert forall i :: 0 <= i < |rest| ==> rest[i] == forms[i + 1];
    if ActiveDistinct(forms) && Ready(f) {
      forall i | 0 <= i < |rest| && Ready(rest[i]) ensures rest[i].product.value !in {f.product.value} {
        assert forms[0] == f && forms[i + 1] == rest[i];
      }
    }
    if (Ready(f) ==> Fresh(rest, {f.product.value})) && ActiveDistinct(rest) {
      forall i, j | 0 <= i < j < |forms| && Ready(forms[i]) && Ready(forms[j])
        ensures forms[i].product.value != forms[j].product.value
      {
        if i > 0 {
          assert forms[i] == rest[i - 1] && forms[j] == rest[j - 1];
        } else {
          assert forms[j] == rest[j - 1];
        }
      }
    }
    var head := if Ready(f) then {f.product.value} else {};
    forall p | p in ActiveProducts(forms) ensures p in head + ActiveProducts(rest) {
      var i :| 0 <= i < |forms| && Ready(forms[i]) && forms[i].product.value == p;
      if i > 0 { assert rest[i - 1] == forms[i]; }
    }
    forall p | p in ActiveProducts(rest) ensures p in ActiveProducts(forms) {
      var i :| 0 <= i < |rest| && Ready(rest[i]) && rest[i].product.value == p;
      assert forms[i + 1] == rest[i];
    }
  }

  /** The validation loop accepts exactly when no ready form repeats a
      product (among themselves or against `seen`) and, for OUT, every ready
      form's quantity is within the pre-batch stock; it then yields `seen`
      plus the batch's products. */
  lemma {:induction false} CheckBatchSpec(kind: TxType, forms: seq<DetailForm>, seen: set<ProductId>,
                                          lines: seq<Line>, headers: map<TxId, Header>)
    requires forall i :: 0 <= i < |forms| ==> WellFormed(forms[i])
    ensures var r := CheckBatch(kind, forms, seen, lines, headers);
      && (r.Ok? <==> Fresh(forms, seen) && ActiveDistinct(forms) && Covered(kind, forms, lines, headers))
      && (r.Ok? ==> r.value == seen + ActiveProducts(forms))
      && (r.Err? ==> r.error.DuplicateProduct? || r.error.InsufficientStock?)
    decreases |forms|
  {
    if forms != [] {
      var f, rest := forms[0], forms[1..];
      assert forall i :: 0 <= i < |rest| ==> rest[i] == forms[i + 1];
      Decompose(kind, forms, seen, lines, headers);
      if !Active(f) {
        CheckBatchSpec(kind, rest, seen, lines, headers);
      } else {
        var p := f.product.value;
        CheckBatchSpec(kind, rest, seen + {p}, lines, headers);
        UnsavedExcludesNothing(lines, headers, p);
        assert Fresh(rest, seen + {p}) <==> Fresh(rest, seen) && Fresh(rest, {p});
      }
    }
  }

  /** The view's validation loop, run on the pre-batch ledger. */
  method ValidateBatch(kind: TxType, forms: seq<DetailForm>, lines: seq<Line>, headers: map<TxId, Header>)
    returns (r: Result<set<ProductId>, Error>)
    requires forall i :: 0 <= i < |forms| ==> WellFormed(forms[i])
    ensures r == CheckBatch(kind, forms, {}, lines, headers)
  {
    var productsInTransaction: set<ProductId> := {};
    var i := 0;
    while i < |forms|
      invariant 0 <= i <= |forms|
      invariant CheckBatch(kind, forms, {}, lines, headers) == CheckBatch(kind, forms[i..], productsInTransaction, lines, headers)
    {
      var f := forms[i];
      assert forms[i..][0] == f && forms[i..][1..] == forms[i + 1..];
      if Active(f) {
        var product := f.product.value;
        if product in productsInTransaction {
          return Err(DuplicateProduct(product));
        }
        productsInTransaction := productsInTransaction + {product};
        if kind == OUT {
          var available := CurrentStockExcluding(lines, headers, product, None);
          if available < f.quantity.value {
            return Err(InsufficientStock(product, available, f.quantity.value));
          }
        }
      }
      i := i + 1;
    }
    assert forms[i..] == [];
    return Ok(productsInTransaction);
  }

  /** The lines saved for the ready forms under transaction `t`, with ids
      assigned from `next` on. */
  function Staged(forms: seq<DetailForm>, t: TxId, next: LineId): (r: seq<Line>)
    requires forall i :: 0 <= i < |forms| ==> WellFormed(forms[i])
    ensures |r| <= |forms|
    ensures forall k :: 0 <= k < |r| ==> r[k].tx == t && r[k].id == next + k
  {
    if forms == [] then []
    else
      var f := forms[0];
      assert forall i :: 0 <= i < |forms[1..]| ==> forms[1..][i] == forms[i + 1];
      if Ready(f) then
        var rest := Staged(forms[1..], t, next + 1);
        var r := [Line(next, f.product.value, t, f.quantity.value, f.price)] + rest;
        assert forall k :: 1 <= k < |r| ==> r[k] == rest[k - 1];
        r
      else Staged(forms[1..], t, next)
  }

  /** The total quantity the ready forms name for product `p`. */
  function BatchQuantity(forms: seq<DetailForm>, p: ProductId): int
    requires forall i :: 0 <= i < |forms| ==> WellFormed(forms[i])
  {
    if forms == [] then 0
    else
      var f := forms[0];
      assert forall i :: 0 <= i < |forms[1..]| ==> forms[1..][i] == forms[i + 1];
      (if Ready(f) && f.product.value == p then f.quantity.value else 0) + BatchQuantity(forms[1..], p)
  }

  /** The outcome of a submission: the formset's own validation, then, in
      the atomic block, the validation loop, then the rejection of a batch
      without products; on success, the number of products committed. */
  function Outcome(kind: TxType, forms: seq<DetailForm>, catalog: map<ProductId, Product>,
                   lines: seq<Line>, headers: map<TxId, Header>): Result<nat, Error>
  {
    if !FormsetValid(forms, catalog, lines, headers) then Err(InvalidForms)
    else
      match CheckBatch(kind, forms, {}, lines, headers)
      case Err(e) => Err(e)
      case Ok(products) => if products == {} then Err(EmptyTransaction) else Ok(|products|)
  }

  /** Every staged line names a product of the batch. */
  lemma {:induction false} StagedNamesBatch(forms: seq<DetailForm>, t: TxId, next: LineId)
    requires forall i :: 0 <= i < |forms| ==> WellFormed(forms[i])
    ensures forall k :: 0 <= k < |Staged(forms, t, next)| ==> Staged(forms, t, next)[k].product in ActiveProducts(forms)
    decreases |forms|
  {
    if forms != [] {
      var f, rest := forms[0], forms[1..];
      assert forall i :: 0 <= i < |rest| ==> rest[i] == forms[i + 1];
      var next' := if Ready(f) then next + 1 else next;
      StagedNamesBatch(rest, t, next');
      assert ActiveProducts(rest) <= ActiveProducts(forms) by {
        forall p | p in ActiveProducts(rest) ensures p in ActiveProducts(forms) {
          var i :| 0 <= i < |rest| && Ready(rest[i]) && rest[i].product.value == p;
          assert forms[i + 1] == rest[i];
        }
      }
      if Ready(f) {
        var s := Staged(forms, t, next);
        var sr := Staged(rest, t, next');
        assert s == [Line(next, f.product.value, t, f.quantity.value, f.price)] + sr;
        assert f.product.value in ActiveProducts(forms) by {
          assert Ready(forms[0]) && forms[0].product.value == f.product.value;
        }
        forall k | 0 <= k < |s| ensures s[k].product in ActiveProducts(forms) {
          if k > 0 { assert s[k] == sr[k - 1]; }
        }
      }
    }
  }

  /** The lines staged for a checked batch name distinct products. */
  lemma {:induction false} StagedDistinct(forms: seq<DetailForm>, t: TxId, next: LineId)
    requires forall i :: 0 <= i < |forms| ==> WellFormed(forms[i])
    requires ActiveDistinct(forms)
    ensures forall k, m :: 0 <= k < m < |Staged(forms, t, next)| ==>
      Staged(forms, t, next)[k].product != Staged(forms, t, next)[m].product
    decreases |forms|
  {
    if forms != [] {
      var f, rest := forms[0], forms[1..];
      assert forall i :: 0 <= i < |rest| ==> rest[i] == forms[i + 1];
      Decompose(OUT, forms, {}, [], map[]);
      if Ready(f) {
        var p := f.product.value;
        StagedDistinct(rest, t, next + 1);
        StagedNamesBatch(rest, t, next + 1);
        var s := Staged(forms, t, next);
        var sr := Staged(rest, t, next + 1);
        assert s == [Line(next, p, t, f.quantity.value, f.price)] + sr;
        assert p !in ActiveProducts(rest);
        assert forall m :: 0 < m < |s| ==> s[m] == sr[m - 1] && s[m].product != p;
      } else {
        StagedDistinct(rest, t, next);
      }
    }
  }

  /** A checked batch stages one line per product. */
  lemma {:induction false} StagedCount(forms: seq<DetailForm>, t: TxId, next: LineId)
    requires forall i :: 0 <= i < |forms| ==> WellFormed(forms[i])
    requires ActiveDistinct(forms)
    ensures |Staged(forms, t, next)| == |ActiveProducts(forms)|
    decreases |forms|
  {
    if forms != [] {
      var f, rest := forms[0], forms[1..];
      assert forall i :: 0 <= i < |rest| ==> rest[i] == forms[i + 1];
      Decompose(OUT, forms, {}, [], map[]);
      if Ready(f) {
        var p := f.product.value;
        StagedCount(rest, t, next + 1);
        assert p !in ActiveProducts(rest);
        assert |Staged(forms, t, next)| == 1 + |Staged(rest, t, next + 1)|;
      } else {
        StagedCount(rest, t, next);
      }
    }
  }

  /** The lines staged for a valid formset have quantities of at least 1
      and prices that are not negative. */
  lemma {:induction false} StagedValues(forms: seq<DetailForm>, t: TxId, next: LineId,
                                        catalog: map<ProductId, Product>, lines: seq<Line>, headers: map<TxId, Header>)
    requires EachFormValid(forms, catalog, lines, headers)
    ensures forall k :: 0 <= k < |Staged(forms, t, next)| ==>
      Staged(forms, t, next)[k].qty >= 1 && Staged(forms, t, next)[k].price.GetOr(0) >= 0
    decreases |forms|
  {
    if forms != [] {
      var f, rest := forms[0], forms[1..];
      assert forall i :: 0 <= i < |rest| ==> rest[i] == forms[i + 1];
      assert FormValid(forms[0], catalog, lines, headers);
      assert EachFormValid(rest, catalog, lines, headers);
      if Ready(f) {
        StagedValues(rest, t, next + 1, catalog, lines, headers);
        var s := Staged(forms, t, next);
        var sr := Staged(rest, t, next + 1);
        assert s == [Line(next, f.product.value, t, f.quantity.value, f.price)] + sr;
        assert f.quantity.value >= 1 && f.price.GetOr(0) >= 0 by {
          assert CleanQuantity(f.quantity).Ok? && CleanUnitPrice(f.price).Ok?;
        }
        forall k | 0 <= k < |s| ensures s[k].qty >= 1 && s[k].price.GetOr(0) >= 0 {
          if k > 0 { assert s[k] == sr[k - 1]; }
        }
      } else {
        StagedValues(rest, t, next, catalog, lines, headers);
        assert Staged(forms, t, next) == Staged(rest, t, next);
      }
    }
  }

  /** A submission is committed exactly when every form not marked for
      deletion is valid, the first form is not blank, no product is named
      twice, for OUT every line is covered by the pre-batch stock, and at
      least one form is filled and not deleted; the reported item count is
      then the number of distinct products, which is also the number of
      lines saved. */
  lemma OutcomeSpec(kind: TxType, forms: seq<DetailForm>, catalog: map<ProductId, Product>,
                    lines: seq<Line>, headers: map<TxId, Header>, t: TxId, next: LineId)
    ensures var r := Outcome(kind, forms, catalog, lines, headers);
      && (r.Ok? <==>
            && EachFormValid(forms, catalog, lines, headers)
            && (|forms| > 0 ==> forms[0].Filled?)
            && ActiveDistinct(forms)
            && Covered(kind, forms, lines, headers)
            && exists i :: 0 <= i < |forms| && Active(forms[i]))
      && (r.Ok? ==> r.value == |ActiveProducts(forms)| == |Staged(forms, t, next)|)
  {
    if FormsetValid(forms, catalog, lines, headers) {
      assert forall i :: 0 <= i < |forms| ==> WellFormed(forms[i]);
      CheckBatchSpec(kind, forms, {}, lines, headers);
      assert (exists i :: 0 <= i < |forms| && Active(forms[i])) <==> ActiveProducts(forms) != {} by {
        if exists i :: 0 <= i < |forms| && Active(forms[i]) {
          var i :| 0 <= i < |forms| && Active(forms[i]);
          assert forms[i].product.value in ActiveProducts(forms);
        }
      }
      if ActiveDistinct(forms) {
        StagedDistinct(forms, t, next);
        StagedCount(forms, t, next);
      }
    }
  }

  /** The view's rejection of a batch without products never fires: a
      formset that validates has a filled, non-deleted first or later form,
      so the batch always names a product. */
  lemma EmptyCheckUnreachable(kind: TxType, forms: seq<DetailForm>, catalog: map<ProductId, Product>,
                              lines: seq<Line>, headers: map<TxId, Header>)
    ensures Outcome(kind, forms, catalog, lines, headers) != Err(EmptyTransaction)
  {
    OutcomeSpec(kind, forms, catalog, lines, headers, 0, 0);
    if FormsetValid(forms, catalog, lines, headers) {
      assert forall i :: 0 <= i < |forms| ==> WellFormed(forms[i]);
      CheckBatchSpec(kind, forms, {}, lines, headers);
      var i :| 0 <= i < |forms| && Active(forms[i]);
      assert WellFormed(forms[i]);
      assert forms[i].product.value in ActiveProducts(forms);
      var r := CheckBatch(kind, forms, {}, lines, headers);
      assert r.Ok? ==> forms[i].product.value in r.value;
      assert r.Ok? ==> Outcome(kind, forms, catalog, lines, headers) == Ok(|r.value|);
      assert r.Err? ==> Outcome(kind, forms, catalog, lines, headers) == Err(r.error);
    }
  }

  /** A submission whose first form is left blank is refused as invalid,
      whatever the later forms hold. */
  lemma BlankFirstForm(kind: TxType, rest: seq<DetailForm>, catalog: map<ProductId, Product>,
                       lines: seq<Line>, headers: map<TxId, Header>)
    ensures Outcome(kind, [Blank] + rest, catalog, lines, headers) == Err(InvalidForms)
  {
    assert ([Blank] + rest)[0] == Blank;
  }

  /** A staged batch moves exactly the batch quantities of its products, in
      the direction of its transaction's type. */
  lemma {:induction false} StagedStock(forms: seq<DetailForm>, t: TxId, next: LineId, headers: map<TxId, Header>, p: ProductId)
    requires forall i :: 0 <= i < |forms| ==> WellFormed(forms[i])
    requires t in headers
    ensures Stock(Staged(forms, t, next), headers, p)
         == if headers[t].kind == OUT then -BatchQuantity(forms, p) else BatchQuantity(forms, p)
    decreases |forms|
  {
    if forms != [] {
      var f, rest := forms[0], forms[1..];
      assert forall i :: 0 <= i < |rest| ==> rest[i] == forms[i + 1];
      if Ready(f) {
        StagedStock(rest, t, next + 1, headers, p);
        var x := Line(next, f.product.value, t, f.quantity.value, f.price);
        StockAppend([x], Staged(rest, t, next + 1), headers, p);
        assert [x][..0] == [];
      } else {
        StagedStock(rest, t, next, headers, p);
      }
    }
  }

  /** The stock of every product after a commit is its stock before plus
      (IN) or minus (OUT) the quantity the batch names for it. */
  lemma StockAfterCommit(lines: seq<Line>, headers: map<TxId, Header>, nextTx: TxId, nextLine: LineId,
                         kind: TxType, notes: string, createdBy: string, forms: seq<DetailForm>, p: ProductId)
    requires Consistent(lines, headers, nextTx, nextLine)
    requires forall i :: 0 <= i < |forms| ==> WellFormed(forms[i])
    ensures Stock(lines + Staged(forms, nextTx, nextLine), headers[nextTx := Header(kind, notes, createdBy)], p)
         == Stock(lines, headers, p) + (if kind == OUT then -BatchQuantity(forms, p) else BatchQuantity(forms, p))
  {
    var h := headers[nextTx := Header(kind, notes, createdBy)];
    StockAppend(lines, Staged(forms, nextTx, nextLine), h, p);
    StockIgnoresUnusedHeader(lines, headers, nextTx, Header(kind, notes, createdBy), p);
    StagedStock(forms, nextTx, nextLine, h, p);
  }

  /** A product no ready form names has batch quantity 0. */
  lemma {:induction false} BatchQuantityUnnamed(forms: seq<DetailForm>, p: ProductId)
    requires forall i :: 0 <= i < |forms| ==> WellFormed(forms[i])
    requires p !in ActiveProducts(forms)
    ensures BatchQuantity(forms, p) == 0
    decreases |forms|
  {
    if forms != [] {
      Decompose(OUT, forms, {}, [], map[]);
      assert forall i :: 0 <= i < |forms[1..]| ==> forms[1..][i] == forms[i + 1];
      BatchQuantityUnnamed(forms[1..], p);
    }
  }

  /** In a checked OUT batch the quantity named for a product is 0 or within
      the product's pre-batch stock; in a valid formset it is never negative. */
  lemma {:induction false} BatchQuantityBound(kind: TxType, forms: seq<DetailForm>, catalog: map<ProductId, Product>,
                                              lines: seq<Line>, headers: map<TxId, Header>, p: ProductId)
    requires EachFormValid(forms, catalog, lines, headers)
    requires ActiveDistinct(forms) && Covered(kind, forms, lines, headers)
    ensures BatchQuantity(forms, p) >= 0
    ensures kind == OUT ==> BatchQuantity(forms, p) == 0 || BatchQuantity(forms, p) <= Stock(lines, headers, p)
    decreases |forms|
  {
    if forms != [] {
      var f, rest := forms[0], forms[1..];
      assert forall i :: 0 <= i < |rest| ==> rest[i] == forms[i + 1];
      Decompose(kind, forms, {}, lines, headers);
      BatchQuantityBound(kind, rest, catalog, lines, headers, p);
      if Ready(f) && f.product.value == p {
        assert p !in ActiveProducts(rest);
        BatchQuantityUnnamed(rest, p);
      }
    }
  }

  /** A commit never lowers stock on IN, and on OUT it only lowers the stock
      of a product down to 0 at the lowest. */
  lemma CommitStockDirection(lines: seq<Line>, headers: map<TxId, Header>, nextTx: TxId, nextLine: LineId,
                             kind: TxType, notes: string, createdBy: string, forms: seq<DetailForm>,
                             catalog: map<ProductId, Product>, p: ProductId)
    requires Consistent(lines, headers, nextTx, nextLine)
    requires Outcome(kind, forms, catalog, lines, headers).Ok?
    ensures var after := Stock(lines + Staged(forms, nextTx, nextLine), headers[nextTx := Header(kind, notes, createdBy)], p);
      var before := Stock(lines, headers, p);
      && (kind == IN ==> after >= before)
      && (kind == OUT ==> after <= before && (after < before ==> after >= 0))
  {
    OutcomeSpec(kind, forms, catalog, lines, headers, nextTx, nextLine);
    assert forall i :: 0 <= i < |forms| ==> WellFormed(forms[i]);
    StockAfterCommit(lines, headers, nextTx, nextLine, kind, notes, createdBy, forms, p);
    BatchQuantityBound(kind, forms, catalog, lines, headers, p);
  }

  /** A commit keeps the store's invariant: the new lines belong to the new
      header, take fresh ids, carry valid quantities and prices, and add no
      second line for a (product, transaction) pair. */
  lemma CommitConsistent(lines: seq<Line>, headers: map<TxId, Header>, nextTx: TxId, nextLine: LineId,
                         kind: TxType, notes: string, createdBy: string, forms: seq<DetailForm>,
                         catalog: map<ProductId, Product>)
    requires Consistent(lines, headers, nextTx, nextLine)
    requires Outcome(kind, forms, catalog, lines, headers).Ok?
    ensures var s := Staged(forms, nextTx, nextLine);
      Consistent(lines + s, headers[nextTx := Header(kind, notes, createdBy)], nextTx + 1, nextLine + |s|)
  {
    assert FormsetValid(forms, catalog, lines, headers);
    ValidFormsWellFormed(forms, catalog, lines, headers);
    CheckBatchSpec(kind, forms, {}, lines, headers);
    StagedDistinct(forms, nextTx, nextLine);
    StagedValues(forms, nextTx, nextLine, catalog, lines, headers);
    AppendConsistent(lines, headers, nextTx, nextLine, Header(kind, notes, createdBy), Staged(forms, nextTx, nextLine));
  }

  /** Appending, under a fresh header, lines with consecutive fresh ids,
      valid values and distinct products keeps the store's invariant. */
  lemma AppendConsistent(lines: seq<Line>, headers: map<TxId, Header>, nextTx: TxId, nextLine: LineId,
                         header: Header, s: seq<Line>)
    requires Consistent(lines, headers, nextTx, nextLine)
    requires forall k :: 0 <= k < |s| ==> s[k].tx == nextTx && s[k].id == nextLine + k
    requires forall k :: 0 <= k < |s| ==> s[k].qty >= 1 && s[k].price.GetOr(0) >= 0
    requires forall k, m :: 0 <= k < m < |s| ==> s[k].product != s[m].product
    ensures Consistent(lines + s, headers[nextTx := header], nextTx + 1, nextLine + |s|)
  {
    var all := lines + s;
    var h := headers[nextTx := header];
    assert forall k :: 0 <= k < |s| ==> all[|lines| + k] == s[k];
    assert forall i :: 0 <= i < |lines| ==> all[i] == lines[i];
    forall i, j | 0 <= i < j < |all|
      ensures all[i].id != all[j].id && (all[i].product, all[i].tx) != (all[j].product, all[j].tx)
    {
      if j < |lines| {
      } else if i < |lines| {
        assert all[i].tx in headers && all[i].id < nextLine;
        assert all[j] == s[j - |lines|];
      } else {
        assert all[i] == s[i - |lines|] && all[j] == s[j - |lines|];
      }
    }
    forall i | 0 <= i < |all|
      ensures all[i].tx in h && all[i].id < nextLine + |s|
      ensures all[i].qty >= 1 && all[i].price.GetOr(0) >= 0
    {
      if i >= |lines| {
        assert all[i] == s[i - |lines|];
      }
    }
  }

  /** After a commit the new transaction has as many lines as the reported
      item count. */
  lemma {:induction false} TotalItemsOfCommit(lines: seq<Line>, staged: seq<Line>, t: TxId)
    requires forall i :: 0 <= i < |lines| ==> lines[i].tx != t
    requires forall k :: 0 <= k < |staged| ==> staged[k].tx == t
    ensures TotalItems(lines + staged, t) == |staged|
    decreases |staged|
  {
    if staged == [] {
      assert lines + staged == lines;
      TotalItemsAbsent(lines, t);
    } else {
      var n := |staged| - 1;
      assert (lines + staged)[..|lines + staged| - 1] == lines + staged[..n];
      assert (lines + staged)[|lines + staged| - 1] == staged[n];
      TotalItemsOfCommit(lines, staged[..n], t);
    }
  }

  lemma {:induction false} TotalItemsAbsent(lines: seq<Line>, t: TxId)
    requires forall i :: 0 <= i < |lines| ==> lines[i].tx != t
    ensures TotalItems(lines, t) == 0
  {
    if lines != [] {
      var n := |lines| - 1;
      assert forall i :: 0 <= i < n ==> lines[..n][i] == lines[i];
      TotalItemsAbsent(lines[..n], t);
    }
  }

  /** The view's saving loop: one line per filled, non-deleted form, under
      transaction `t`, with ids assigned from `next` on. */
  method StageLines(forms: seq<DetailForm>, t: TxId, next: LineId) returns (staged: seq<Line>)
    requires forall i :: 0 <= i < |forms| ==> WellFormed(forms[i])
    ensures staged == Staged(forms, t, next)
  {
    staged := [];
    var lineId := next;
    for i := 0 to |forms|
      invariant lineId == next + |staged|
      invariant staged + Staged(forms[i..], t, lineId) == Staged(forms, t, next)
    {
      var f := forms[i];
      assert forms[i..][0] == f && forms[i..][1..] == forms[i + 1..];
      if Active(f) {
        staged := staged + [Line(lineId, f.product.value, t, f.quantity.value, f.price)];
        lineId := lineId + 1;
      }
    }
    assert forms[|forms|..] == [];
  }

  /** A single valid OUT line for `p` is committed exactly when its quantity
      is within the pre-batch stock, and is otherwise refused with the
      available and requested quantities; once committed, the stock of `p`
      is lower by exactly that quantity. */
  lemma SingleOutLine(lines: seq<Line>, headers: map<TxId, Header>, nextTx: TxId, nextLine: LineId,
                      catalog: map<ProductId, Product>, p: ProductId, q: int, notes: string, createdBy: string)
    requires Consistent(lines, headers, nextTx, nextLine)
    requires FormValid(Filled(Some(p), Some(q), None, false), catalog, lines, headers)
    ensures var forms := [Filled(Some(p), Some(q), None, false)];
      && Outcome(OUT, forms, catalog, lines, headers)
         == (if q <= Stock(lines, headers, p) then Ok(1) else Err(InsufficientStock(p, Stock(lines, headers, p), q)))
      && Stock(lines + Staged(forms, nextTx, nextLine), headers[nextTx := Header(OUT, notes, createdBy)], p)
         == Stock(lines, headers, p) - q
  {
    var forms := [Filled(Some(p), Some(q), None, false)];
    assert forms[1..] == [];
    assert Active(forms[0]);
    assert FormsetValid(forms, catalog, lines, headers);
    UnsavedExcludesNothing(lines, headers, p);
    assert Active(forms[0]) && forms[0].product.value == p && forms[0].quantity.value == q;
    if q <= Stock(lines, headers, p) {
      assert ValidateStockAvailability(OUT, None, p, q, lines, headers).Ok?;
      assert {} + {p} == {p};
      assert CheckBatch(OUT, forms, {}, lines, headers) == CheckBatch(OUT, [], {p}, lines, headers);
    } else {
      assert CheckBatch(OUT, forms, {}, lines, headers) == Err(InsufficientStock(p, Stock(lines, headers, p), q));
    }
    StockAfterCommit(lines, headers, nextTx, nextLine, OUT, notes, createdBy, forms, p);
  }

  /** An IN batch naming the same product in two valid lines is refused as
      a duplicate of that product. */
  lemma DuplicateInBatch(lines: seq<Line>, headers: map<TxId, Header>, catalog: map<ProductId, Product>,
                         p: ProductId, q1: int, q2: int)
    requires FormValid(Filled(Some(p), Some(q1), None, false), catalog, lines, headers)
    requires FormValid(Filled(Some(p), Some(q2), None, false), catalog, lines, headers)
    ensures Outcome(IN, [Filled(Some(p), Some(q1), None, false), Filled(Some(p), Some(q2), None, false)],
                    catalog, lines, headers) == Err(DuplicateProduct(p))
  {
    var forms := [Filled(Some(p), Some(q1), None, false), Filled(Some(p), Some(q2), None, false)];
    assert forms[1..] == [forms[1]];
    assert Active(forms[0]);
    assert FormsetValid(forms, catalog, lines, headers);
    assert ValidateStockAvailability(IN, None, p, q1, lines, headers).Ok?;
    assert CheckBatch(IN, forms, {}, lines, headers) == CheckBatch(IN, [forms[1]], {p}, lines, headers);
  }

  /** What a successful submission returns: the new transaction's id and the
      number of products it moved. */
  datatype Receipt = Receipt(tx: TxId, items: nat)

  /** Every form of a valid formset is either inactive or has its product
      and quantity. */
  lemma ValidFormsWellFormed(forms: seq<DetailForm>, catalog: map<ProductId, Product>, lines: seq<Line>, headers: map<TxId, Header>)
    requires EachFormValid(forms, catalog, lines, headers)
    ensures forall i :: 0 <= i < |forms| ==> WellFormed(forms[i])
  {
    forall i | 0 <= i < |forms| ensures WellFormed(forms[i]) {
      assert FormValid(forms[i], catalog, lines, headers);
    }
  }

  /** A formset that validates, passes the batch checks and names at least
      one product commits those products, one line each, and leaves a
      consistent ledger whose new transaction counts exactly those lines. */
  lemma AcceptedBatch(lines: seq<Line>, headers: map<TxId, Header>, nextTx: TxId, nextLine: LineId,
                      kind: TxType, notes: string, createdBy: string, forms: seq<DetailForm>,
                      catalog: map<ProductId, Product>, products: set<ProductId>)
    requires Consistent(lines, headers, nextTx, nextLine)
    requires forall i :: 0 <= i < |forms| ==> WellFormed(forms[i])
    requires FormsetValid(forms, catalog, lines, headers)
    requires CheckBatch(kind, forms, {}, lines, headers) == Ok(products)
    requires products != {}
    ensures Outcome(kind, forms, catalog, lines, headers) == Ok(|products|)
    ensures var s := Staged(forms, nextTx, nextLine);
      && Consistent(lines + s, headers[nextTx := Header(kind, notes, createdBy)], nextTx + 1, nextLine + |s|)
      && TotalItems(lines + s, nextTx) == |products|
  {
    OutcomeSpec(kind, forms, catalog, lines, headers, nextTx, nextLine);
    CommitConsistent(lines, headers, nextTx, nextLine, kind, notes, createdBy, forms, catalog);
    assert forall i :: 0 <= i < |lines| ==> lines[i].tx != nextTx;
    TotalItemsOfCommit(lines, Staged(forms, nextTx, nextLine), nextTx);
  }

  /** The ledger store: the saved lines, the saved headers, and the next ids
      the store will assign. */
  class Ledger {
    var lines: seq<Line>
    var headers: map<TxId, Header>
    var nextTx: TxId
    var nextLine: LineId

    predicate Valid()
      reads this
    {
      Consistent(lines, headers, nextTx, nextLine)
    }

    constructor ()
      ensures Valid()
      ensures lines == [] && headers == map[] && nextTx == 1 && nextLine == 1
    {
      lines, headers := [], map[];
      nextTx, nextLine := 1, 1;
    }

    /** `transaction_list` on POST: validate, then commit the header and the
        lines of the filled, non-deleted forms all at once, or reject and
        leave the ledger exactly as it was. */
    method CreateTransaction(kind: TxType, notes: string, createdBy: string, forms: seq<DetailForm>,
                             catalog: map<ProductId, Product>)
      returns (r: Result<Receipt, Error>)
      requires Valid()
      modifies this
      ensures Valid()
      ensures r.Err? <==> Outcome(kind, forms, catalog, old(lines), old(headers)).Err?
      ensures r.Err? ==> r.error == Outcome(kind, forms, catalog, old(lines), old(headers)).error
      ensures r.Err? ==> lines == old(lines) && headers == old(headers) && nextTx == old(nextTx) && nextLine == old(nextLine)
      ensures r.Ok? ==>
        && r.value == Receipt(old(nextTx), Outcome(kind, forms, catalog, old(lines), old(headers)).value)
        && headers == old(headers)[old(nextTx) := Header(kind, notes, createdBy)]
        && lines == old(lines) + Staged(forms, old(nextTx), old(nextLine))
        && nextTx == old(nextTx) + 1
        && nextLine == old(nextLine) + |Staged(forms, old(nextTx), old(nextLine))|
        && TotalItems(lines, r.value.tx) == r.value.items
    {
      if !FormsetValid(forms, catalog, lines, headers) {
        return Err(InvalidForms);
      }
      ValidFormsWellFormed(forms, catalog, lines, headers);
      // Inside the atomic block: the header and the lines are staged, and
      // installed only once every check has passed.
      var txId := nextTx;
      var header := Header(kind, notes, createdBy);
      var checked := ValidateBatch(kind, forms, lines, headers);
      if checked.Err? {
        return Err(checked.error);
      }
      var staged := StageLines(forms, txId, nextLine);
      if checked.value == {} {
        return Err(EmptyTransaction);
      }
      AcceptedBatch(lines, headers, nextTx, nextLine, kind, notes, createdBy, forms, catalog, checked.value);
      lines, headers, nextTx, nextLine := lines + staged, headers[txId := header], nextTx + 1, nextLine + |staged|;
      r := Ok(Receipt(txId, |checked.value|));
    }
  }
}
