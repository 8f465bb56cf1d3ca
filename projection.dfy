/** Properties of the stock projection: the quantity on hand of a product is
    a fold over the ledger's lines that does not depend on their order. */
module Projection {
  import opened Wrappers
  import opened Models

  /** Some line references product `p`. */
  predicate HasLines(lines: seq<Line>, p: ProductId) {
    exists i :: 0 <= i < |lines| && lines[i].product == p
  }

  /** The total quantity of `p` moved in (lines whose transaction is not OUT). */
  function InQuantity(lines: seq<Line>, headers: map<TxId, Header>, p: ProductId): int {
    if lines == [] then 0
    else
      var l := lines[|lines| - 1];
      InQuantity(lines[..|lines| - 1], headers, p)
        + (if l.product == p && !(l.tx in headers && headers[l.tx].kind == OUT) then l.qty else 0)
  }

  /** The total quantity of `p` moved out (lines whose transaction is OUT). */
  function OutQuantity(lines: seq<Line>, headers: map<TxId, Header>, p: ProductId): int {
    if lines == [] then 0
    else
      var l := lines[|lines| - 1];
      OutQuantity(lines[..|lines| - 1], headers, p)
        + (if l.product == p && l.tx in headers && headers[l.tx].kind == OUT then l.qty else 0)
  }

  /** Stock is everything moved in minus everything moved out. */
  lemma {:induction false} StockIsInMinusOut(lines: seq<Line>, headers: map<TxId, Header>, p: ProductId)
    ensures Stock(lines, headers, p) == InQuantity(lines, headers, p) - OutQuantity(lines, headers, p)
  {
    if lines != [] {
      StockIsInMinusOut(lines[..|lines| - 1], headers, p);
    }
  }

  /** A product no line references has stock 0. */
  lemma {:induction false} StockOfUnusedProduct(lines: seq<Line>, headers: map<TxId, Header>, p: ProductId)
    requires !HasLines(lines, p)
    ensures Stock(lines, headers, p) == 0
  {
    if lines != [] {
      var init := lines[..|lines| - 1];
      assert !HasLines(init, p) by {
        forall i | 0 <= i < |init| ensures init[i].product != p {
          assert init[i] == lines[i];
        }
      }
      StockOfUnusedProduct(init, headers, p);
    }
  }

  /** The stock of two ledgers replayed one after the other is the sum of
      their stocks. */
  lemma {:induction false} StockAppend(a: seq<Line>, b: seq<Line>, headers: map<TxId, Header>, p: ProductId)
    ensures Stock(a + b, headers, p) == Stock(a, headers, p) + Stock(b, headers, p)
  {
    if b == [] {
      assert a + b == a;
    } else {
      var n := |b| - 1;
      assert (a + b)[..|a + b| - 1] == a + b[..n];
      assert (a + b)[|a + b| - 1] == b[n];
      StockAppend(a, b[..n], headers, p);
    }
  }

  /** Taking line `k` out of a ledger removes exactly its contribution. */
  lemma StockRemoveAt(b: seq<Line>, k: nat, headers: map<TxId, Header>, p: ProductId)
    requires k < |b|
    ensures Stock(b, headers, p) == Stock(b[..k] + b[k + 1..], headers, p) + Contribution(b[k], headers, p)
  {
    var x := b[k];
    assert b == b[..k] + ([x] + b[k + 1..]);
    StockAppend(b[..k], [x] + b[k + 1..], headers, p);
    StockAppend([x], b[k + 1..], headers, p);
    StockAppend(b[..k], b[k + 1..], headers, p);
    assert [x][..0] == [];
  }

  lemma MultisetRemoveAt(b: seq<Line>, k: nat)
    requires k < |b|
    ensures multiset(b[..k] + b[k + 1..]) == multiset(b) - multiset{b[k]}
  {
    assert b == b[..k] + ([b[k]] + b[k + 1..]);
  }

  /** Replay order does not matter: two ledgers holding the same lines
      (as a multiset) give every product the same stock. */
  lemma {:induction false} StockPermutation(a: seq<Line>, b: seq<Line>, headers: map<TxId, Header>, p: ProductId)
    requires multiset(a) == multiset(b)
    ensures Stock(a, headers, p) == Stock(b, headers, p)
    decreases |a|
  {
    if a == [] {
      assert |b| == |multiset(b)| == 0;
    } else {
      var n := |a| - 1;
      var x := a[n];
      assert x in multiset(a) by { assert a[n] in a; }
      var k :| 0 <= k < |b| && b[k] == x;
      MultisetRemoveAt(a, n);
      MultisetRemoveAt(b, k);
      assert a[..n] + a[n + 1..] == a[..n];
      StockPermutation(a[..n], b[..k] + b[k + 1..], headers, p);
      StockRemoveAt(b, k, headers, p);
    }
  }

  /** Excluding an id is distributed over concatenated ledgers. */
  lemma {:induction false} WithoutAppend(a: seq<Line>, b: seq<Line>, self: Option<LineId>)
    ensures Without(a + b, self) == Without(a, self) + Without(b, self)
  {
    if b == [] {
      assert a + b == a;
    } else {
      var n := |b| - 1;
      assert (a + b)[..|a + b| - 1] == a + b[..n];
      assert (a + b)[|a + b| - 1] == b[n];
      WithoutAppend(a, b[..n], self);
    }
  }

  /** Excluding an id that no line carries changes nothing. */
  lemma {:induction false} WithoutAbsent(lines: seq<Line>, self: Option<LineId>)
    requires forall i :: 0 <= i < |lines| ==> self != Some(lines[i].id)
    ensures Without(lines, self) == lines
  {
    if lines != [] {
      var n := |lines| - 1;
      assert forall i :: 0 <= i < n ==> lines[..n][i] == lines[i];
      WithoutAbsent(lines[..n], self);
    }
  }

  /** A record that is not saved yet (`self` is None) excludes nothing. */
  lemma UnsavedExcludesNothing(lines: seq<Line>, headers: map<TxId, Header>, p: ProductId)
    ensures Stock(Without(lines, None), headers, p) == Stock(lines, headers, p)
  {
    WithoutAbsent(lines, None);
  }

  /** With distinct ids, excluding the id of line `k` drops that line and
      no other. */
  lemma WithoutOwnId(lines: seq<Line>, k: nat)
    requires k < |lines|
    requires forall i, j :: 0 <= i < j < |lines| ==> lines[i].id != lines[j].id
    ensures Without(lines, Some(lines[k].id)) == lines[..k] + lines[k + 1..]
  {
    var x := lines[k];
    var before, after := lines[..k], lines[k + 1..];
    forall i | 0 <= i < |before| ensures Some(x.id) != Some(before[i].id) {
      assert before[i] == lines[i];
    }
    forall i | 0 <= i < |after| ensures Some(x.id) != Some(after[i].id) {
      assert after[i] == lines[k + 1 + i];
    }
    assert lines == before + ([x] + after);
    WithoutAround(before, x, after);
  }

  /** Excluding the id of `x` from `before + [x] + after`, where no other
      line carries it, leaves `before + after`. */
  lemma WithoutAround(before: seq<Line>, x: Line, after: seq<Line>)
    requires forall i :: 0 <= i < |before| ==> Some(x.id) != Some(before[i].id)
    requires forall i :: 0 <= i < |after| ==> Some(x.id) != Some(after[i].id)
    ensures Without(before + ([x] + after), Some(x.id)) == before + after
  {
    var self := Some(x.id);
    WithoutAbsent(before, self);
    WithoutAbsent(after, self);
    assert Without([x], self) == [] by {
      assert [x][..0] == [];
    }
    WithoutAppend(before, [x] + after, self);
    WithoutAppend([x], after, self);
    assert [] + after == after;
  }

  /** For a line already in the ledger (ids being distinct), the stock
      without it is the total stock minus that line's own contribution. */
  lemma StockWithoutSelf(lines: seq<Line>, headers: map<TxId, Header>, k: nat)
    requires k < |lines|
    requires forall i, j :: 0 <= i < j < |lines| ==> lines[i].id != lines[j].id
    ensures Stock(Without(lines, Some(lines[k].id)), headers, lines[k].product)
         == Stock(lines, headers, lines[k].product) - Signed(lines[k], headers)
  {
    WithoutOwnId(lines, k);
    StockRemoveAt(lines, k, headers, lines[k].product);
  }

  /** Registering a header that no line belongs to leaves every stock as it was. */
  lemma {:induction false} StockIgnoresUnusedHeader(lines: seq<Line>, headers: map<TxId, Header>, t: TxId, h: Header, p: ProductId)
    requires forall i :: 0 <= i < |lines| ==> lines[i].tx != t
    ensures Stock(lines, headers[t := h], p) == Stock(lines, headers, p)
  {
    if lines != [] {
      var n := |lines| - 1;
      assert forall i :: 0 <= i < n ==> lines[..n][i] == lines[i];
      StockIgnoresUnusedHeader(lines[..n], headers, t, h, p);
    }
  }

  /** The products of the ledger in order of first appearance, which is the
      iteration order of the dictionary the inventory views fill. */
  function ProductOrder(lines: seq<Line>): seq<ProductId> {
    if lines == [] then []
    else
      var n := |lines| - 1;
      var init := ProductOrder(lines[..n]);
      if lines[n].product in init then init else init + [lines[n].product]
  }

  /** The key order lists each product that has lines, and only those, once. */
  lemma {:induction false} ProductOrderSpec(lines: seq<Line>)
    ensures forall i, j :: 0 <= i < j < |ProductOrder(lines)| ==> ProductOrder(lines)[i] != ProductOrder(lines)[j]
    ensures forall p :: p in ProductOrder(lines) <==> HasLines(lines, p)
  {
    if lines != [] {
      var n := |lines| - 1;
      var init := ProductOrder(lines[..n]);
      ProductOrderSpec(lines[..n]);
      forall p ensures HasLines(lines, p) <==> HasLines(lines[..n], p) || lines[n].product == p {
        if HasLines(lines, p) {
          var i :| 0 <= i < |lines| && lines[i].product == p;
          if i < n { assert lines[..n][i] == lines[i]; }
        }
        if HasLines(lines[..n], p) {
          var i :| 0 <= i < n && lines[..n][i].product == p;
          assert lines[i] == lines[..n][i];
        }
      }
      if lines[n].product !in init {
        var r := init + [lines[n].product];
        assert forall i :: 0 <= i < |init| ==> r[i] == init[i];
      }
    }
  }
}
