/** The field validators of the product and line-item forms
    (stock_management/forms.py) and the form's own stock computation. */
module Forms {
  import opened Wrappers
  import opened Text
  import opened Models
  import Projection

  /** Whether the lookup leaves out product `q` as the one being edited: only
      when the edited instance has a truthy primary key (`if
      self.instance.pk:`), so an unsaved instance and a pk of 0 exclude
      nothing. */
  predicate IsEdited(q: ProductId, editing: Option<ProductId>) {
    editing.Some? && editing.value != 0 && q == editing.value
  }

  /** Some product other than the one being edited already has name `n`,
      compared ignoring case (`prod_name__iexact`). */
  predicate NameTaken(catalog: map<ProductId, Product>, n: string, editing: Option<ProductId>) {
    exists q :: q in catalog && !IsEdited(q, editing) && SameIgnoringCase(catalog[q].name, n)
  }

  /** An edited instance whose pk is 0 is falsy, so the duplicate lookup
      excludes nothing for it, the same as for an unsaved instance. */
  lemma EditingPkZero(catalog: map<ProductId, Product>, n: string)
    ensures NameTaken(catalog, n, Some(0)) <==> NameTaken(catalog, n, None)
  {
  }

  /** Editing a product with a truthy pk never collides with its own stored
      name: with only that product in the catalogue, no name is taken. */
  lemma EditingOwnName(p: ProductId, product: Product, n: string)
    requires p != 0
    ensures !NameTaken(map[p := product], n, Some(p))
  {
  }

  /** `ProductForm.clean_prod_name`: an empty name is passed through; any
      other name is stripped and title-cased, then rejected when shorter than
      2 characters or when another product has it ignoring case. */
  function CleanProdName(name: string, catalog: map<ProductId, Product>, editing: Option<ProductId>): (r: Result<string, Error>)
    ensures name == [] ==> r == Ok(name)
    ensures name != [] ==> (r.Ok? <==> |Normalize(name)| >= 2 && !NameTaken(catalog, Normalize(name), editing))
    ensures name != [] && r.Ok? ==> r.value == Normalize(name)
    ensures name != [] && r.Err? ==> r.error == if |Normalize(name)| < 2 then NameTooShort else DuplicateName
  {
    if name == [] then Ok(name)
    else
      var n := Normalize(name);
      if |n| < 2 then Err(NameTooShort)
      else if NameTaken(catalog, n, editing) then Err(DuplicateName)
      else Ok(n)
  }

  /** Title-casing before the case-insensitive lookup changes nothing: a name
      is taken in its normal form exactly when it is taken as merely
      stripped, so any spelling of a stored name is refused. */
  lemma NameTakenNormalized(catalog: map<ProductId, Product>, name: string, editing: Option<ProductId>)
    ensures NameTaken(catalog, Normalize(name), editing) <==> NameTaken(catalog, Strip(name), editing)
  {
    NormalizeSameIgnoringCase(name);
  }

  /** An accepted name is already in normal form: it has no surrounding
      whitespace, is at least 2 characters long, and cleaning it again
      against the same catalog accepts it unchanged. */
  lemma CleanProdNameStable(name: string, catalog: map<ProductId, Product>, editing: Option<ProductId>)
    requires name != [] && CleanProdName(name, catalog, editing).Ok?
    ensures var n := CleanProdName(name, catalog, editing).value;
      Stripped(n) && |n| >= 2 && Normalize(n) == n && CleanProdName(n, catalog, editing) == Ok(n)
  {
    NormalizeIdempotent(name);
  }

  /** `StockDetailForm.clean_quantity`: a quantity is accepted when it is
      absent or positive. */
  function CleanQuantity(quantity: Option<int>): (r: Result<Option<int>, Error>)
    ensures r.Ok? <==> quantity.None? || quantity.value > 0
    ensures r.Ok? ==> r.value == quantity
    ensures r.Err? ==> r.error == QuantityNotPositive
  {
    if quantity.Some? && quantity.value <= 0 then Err(QuantityNotPositive) else Ok(quantity)
  }

  /** `StockDetailForm.clean_unit_price`: a price is accepted when it is
      absent or not negative. */
  function CleanUnitPrice(price: Option<int>): (r: Result<Option<int>, Error>)
    ensures r.Ok? <==> price.None? || price.value >= 0
    ensures r.Ok? ==> r.value == price
    ensures r.Err? ==> r.error == NegativePrice
  {
    if price.Some? && price.value < 0 then Err(NegativePrice) else Ok(price)
  }

  /** `StockDetailForm.clean`: when the form was built with transaction type
      OUT and has a product and a non-zero quantity (both truthy), the product's current
      stock must cover the quantity. A form built without a type (`kind` is
      None) is never stock-checked. */
  function FormClean(product: Option<ProductId>, quantity: Option<int>, kind: Option<TxType>,
                     lines: seq<Line>, headers: map<TxId, Header>): (r: Result<(), Error>)
    ensures kind != Some(OUT) ==> r.Ok?
    ensures product.Some? && quantity.Some? && quantity.value != 0 ==>
      (r.Err? <==> kind == Some(OUT) && Stock(lines, headers, product.value) < quantity.value)
    ensures r.Err? ==>
      && product.Some? && quantity.Some? && quantity.value != 0 && kind == Some(OUT)
      && r.error == InsufficientStock(product.value, Stock(lines, headers, product.value), quantity.value)
  {
    if product.Some? && quantity.Some? && quantity.value != 0 && kind == Some(OUT) then
      var current := Stock(lines, headers, product.value);
      if current < quantity.value then Err(InsufficientStock(product.value, current, quantity.value)) else Ok(())
    else Ok(())
  }

  /** `StockDetailForm._get_current_stock`: the signed sum over the lines of
      `p`, 0 when there are none. */
  method CurrentStock(lines: seq<Line>, headers: map<TxId, Header>, p: ProductId) returns (stock: int)
    ensures stock == Stock(lines, headers, p)
    ensures stock == Projection.InQuantity(lines, headers, p) - Projection.OutQuantity(lines, headers, p)
    ensures !Projection.HasLines(lines, p) ==> stock == 0
  {
    stock := 0;
    var i := 0;
    while i < |lines|
      invariant 0 <= i <= |lines|
      invariant stock == Stock(lines[..i], headers, p)
    {
      var detail := lines[i];
      assert lines[..i + 1][..i] == lines[..i];
      if detail.product == p {
        var qty := detail.qty;
        if detail.tx in headers && headers[detail.tx].kind == OUT {
          qty := -qty;
        }
        stock := stock + qty;
      }
      i := i + 1;
    }
    assert lines[..i] == lines;
    Projection.StockIsInMinusOut(lines, headers, p);
    if !Projection.HasLines(lines, p) {
      Projection.StockOfUnusedProduct(lines, headers, p);
    }
  }
}

/** The name rules on concrete names. */
module FormsExamples {
  import opened Wrappers
  import opened Text
  import opened Models
  import opened Forms

  lemma StripLeftWord()
    ensures StripLeft("widget ") == "widget "
  {
    assert !IsSpace("widget "[0]);
  }

  lemma StripLeftOneSpace()
    ensures StripLeft(" widget ") == "widget "
  {
    assert " widget "[1..] == "widget ";
    StripLeftWord();
  }

  lemma StripLeftWidget()
    ensures StripLeft("  widget ") == "widget "
  {
    assert "  widget "[1..] == " widget ";
    StripLeftOneSpace();
  }

  lemma StripRightWidget()
    ensures StripRight("widget ") == "widget"
  {
    assert "widget "[..6] == "widget";
  }

  lemma StripWidget()
    ensures Strip("  widget ") == "widget"
  {
    StripLeftWidget();
    StripRightWidget();
  }

  lemma TitleWidget(s: string)
    requires s == "widget" || s == "WIDGET"
    ensures Title(s) == "Widget"
  {
    var t := Title(s);
    assert t[0] == ToUpper(s[0]) == 'W';
    assert t[1] == ToLower(s[1]) == 'i';
    assert t[2] == ToLower(s[2]) == 'd';
    assert t[3] == ToLower(s[3]) == 'g';
    assert t[4] == ToLower(s[4]) == 'e';
    assert t[5] == ToLower(s[5]) == 't';
  }

  lemma StripUpper()
    ensures Strip("WIDGET") == "WIDGET"
  {
    assert StripLeft("WIDGET") == "WIDGET";
    assert StripRight("WIDGET") == "WIDGET";
  }

  /** "  widget " is saved as "Widget". */
  lemma WidgetAccepted()
    ensures CleanProdName("  widget ", map[], None) == Ok("Widget")
  {
    StripWidget();
    TitleWidget("widget");
    assert !NameTaken(map[], "Widget", None);
  }

  lemma NormalizeUpper()
    ensures Normalize("WIDGET") == "Widget"
  {
    StripUpper();
    TitleWidget("WIDGET");
  }

  /** Once "Widget" is in the catalog, "WIDGET" is refused as a duplicate. */
  lemma WidgetDuplicate()
    ensures CleanProdName("WIDGET", map[1 := Product("Widget", "", true)], None) == Err(DuplicateName)
  {
    var catalog := map[1 := Product("Widget", "", true)];
    assert NameTaken(catalog, "Widget", None) by {
      assert 1 in catalog && SameIgnoringCase(catalog[1].name, "Widget");
    }
    NormalizeUpper();
  }
}
