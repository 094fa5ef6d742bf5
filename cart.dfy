// The shopping cart of script.js: lines grouped by product name and chosen
// options, with a quantity and a line total, changed in place by
// `addToCart`, `incQty`, `decQty` and `removeFromCart`, and summed for the
// cart button and the checkout.
module Cart {

  /** What the product modal hands to `addToCart`. */
  datatype Item = Item(name: string, price: int, options: seq<string>, cat: string)

  /** A cart entry: the item's fields plus `qty` and `priceTotal`. */
  datatype Line = Line(name: string, price: int, options: seq<string>, cat: string, qty: int, priceTotal: int)

  /** `qty || 1`: a zero quantity counts as one. */
  function OrOne(qty: int): int {
    if qty == 0 then 1 else qty
  }

  /** `priceTotal || price` */
  function OrPrice(l: Line): int {
    if l.priceTotal == 0 then l.price else l.priceTotal
  }

  /** The grouping key: equal names and equal option lists (compared through
      `JSON.stringify`, which tells string arrays apart exactly). */
  predicate SameKey(l: Line, name: string, options: seq<string>) {
    l.name == name && l.options == options
  }

  /** Every line holds at least one unit, its total is price times quantity,
      and no two lines share a key. */
  ghost predicate WellFormed(c: seq<Line>) {
    && (forall i :: 0 <= i < |c| ==> c[i].qty >= 1 && c[i].priceTotal == c[i].price * c[i].qty)
    && (forall i, j :: 0 <= i < j < |c| ==> !SameKey(c[j], c[i].name, c[i].options))
  }

  /** `cart.find(...)`'s position: the first line with the key, or |c|. */
  function FindLine(c: seq<Line>, name: string, options: seq<string>): (i: nat)
    ensures i <= |c|
    ensures i < |c| ==> SameKey(c[i], name, options)
    ensures forall j :: 0 <= j < i ==> !SameKey(c[j], name, options)
    decreases |c|
  {
    if c == [] then 0
    else if SameKey(c[0], name, options) then 0
    else 1 + FindLine(c[1..], name, options)
  }

  function NewLine(item: Item): Line {
    Line(item.name, item.price, item.options, item.cat, 1, item.price)
  }

  /** A line set to quantity `q`, its total recomputed as price times `q`. */
  function WithQty(l: Line, q: int): Line {
    l.(qty := q, priceTotal := l.price * q)
  }

  /** One more unit of an existing line, as `addToCart` does it. */
  function Bumped(l: Line): Line {
    WithQty(l, OrOne(l.qty) + 1)
  }

  function Added(c: seq<Line>, item: Item): seq<Line> {
    var i := FindLine(c, item.name, item.options);
    if i < |c| then c[i := Bumped(c[i])] else c + [NewLine(item)]
  }

  /** `incQty(i)` */
  function Incremented(c: seq<Line>, i: nat): seq<Line>
    requires i < |c|
  {
    c[i := WithQty(c[i], c[i].qty + 1)]
  }

  /** `decQty(i)`: one unit less, or the line goes when it held one. */
  function Decremented(c: seq<Line>, i: nat): seq<Line>
    requires i < |c|
  {
    if c[i].qty > 1 then c[i := WithQty(c[i], c[i].qty - 1)]
    else c[..i] + c[i + 1..]
  }

  /** `removeFromCart(i)`: `splice(i, 1)`, which leaves the array alone past
      its end. */
  function RemovedAt(c: seq<Line>, i: nat): seq<Line> {
    if i < |c| then c[..i] + c[i + 1..] else c
  }

  /** `cart.reduce((s, i) => s + (i.priceTotal || i.price), 0)` */
  function Total(c: seq<Line>): int
    decreases |c|
  {
    if c == [] then 0 else Total(c[..|c| - 1]) + OrPrice(c[|c| - 1])
  }

  /** `cart.reduce((c, i) => c + (i.qty || 1), 0)` */
  function Count(c: seq<Line>): int
    decreases |c|
  {
    if c == [] then 0 else Count(c[..|c| - 1]) + OrOne(c[|c| - 1].qty)
  }

  /** The module-level `cart` array. */
  class ShoppingCart {
    var lines: seq<Line>

    constructor ()
      ensures lines == []
    {
      lines := [];
    }

    method AddToCart(item: Item)
      modifies this
      ensures lines == Added(old(lines), item)
    {
      var i := 0;
      while i < |lines| && !(lines[i].name == item.name && lines[i].options == item.options)
        invariant 0 <= i <= |lines|
        invariant forall j :: 0 <= j < i ==> !SameKey(lines[j], item.name, item.options)
      {
        i := i + 1;
      }
      FindLineIsFirst(lines, item.name, item.options, i);
      if i < |lines| {
        var existing := lines[i];
        var q := OrOne(existing.qty) + 1;
        lines := lines[i := existing.(qty := q, priceTotal := existing.price * q)];
      } else {
        lines := lines + [Line(item.name, item.price, item.options, item.cat, 1, item.price)];
      }
    }

    method IncQty(i: nat)
      requires i < |lines|
      modifies this
      ensures lines == Incremented(old(lines), i)
    {
      var l := lines[i];
      lines := lines[i := l.(qty := l.qty + 1)];
      lines := lines[i := lines[i].(priceTotal := lines[i].price * lines[i].qty)];
    }

    method DecQty(i: nat)
      requires i < |lines|
      modifies this
      ensures lines == Decremented(old(lines), i)
    {
      if lines[i].qty > 1 {
        var l := lines[i];
        lines := lines[i := l.(qty := l.qty - 1)];
        lines := lines[i := lines[i].(priceTotal := lines[i].price * lines[i].qty)];
      } else {
        lines := lines[..i] + lines[i + 1..];
      }
    }

    method RemoveFromCart(i: nat)
      modifies this
      ensures lines == RemovedAt(old(lines), i)
    {
      if i < |lines| {
        lines := lines[..i] + lines[i + 1..];
      }
    }

    /** The two sums `updateCartButton` shows; the first is also where
        `calculateCheckoutTotal` starts. */
    method Sums() returns (total: int, count: int)
      ensures total == Total(lines) && count == Count(lines)
    {
      total, count := 0, 0;
      var k := 0;
      while k < |lines|
        invariant 0 <= k <= |lines|
        invariant total == Total(lines[..k]) && count == Count(lines[..k])
      {
        assert lines[..k + 1][..k] == lines[..k];
        total := total + (if lines[k].priceTotal == 0 then lines[k].price else lines[k].priceTotal);
        count := count + (if lines[k].qty == 0 then 1 else lines[k].qty);
        k := k + 1;
      }
      assert lines[..k] == lines;
    }
  }

  /** A search that stopped at the first match, or ran off the end, found
      `FindLine`'s position. */
  lemma {:induction false} FindLineIsFirst(c: seq<Line>, name: string, options: seq<string>, i: nat)
    requires i <= |c|
    requires i < |c| ==> SameKey(c[i], name, options)
    requires forall j :: 0 <= j < i ==> !SameKey(c[j], name, options)
    ensures FindLine(c, name, options) == i
    decreases |c|
  {
    if c != [] && i > 0 {
      assert !SameKey(c[0], name, options);
      forall j | 0 <= j < i - 1 ensures !SameKey(c[1..][j], name, options) {
        assert c[1..][j] == c[j + 1];
      }
      FindLineIsFirst(c[1..], name, options, i - 1);
    }
  }

  // ---------------------------------------------------------------------------
  // What each change does

  /** `addToCart` bumps the line with the item's key, leaving the length and
      the other lines alone, or appends a fresh line of one unit. */
  lemma AddedShape(c: seq<Line>, item: Item)
    ensures var c' := Added(c, item);
      (exists i :: 0 <= i < |c| && SameKey(c[i], item.name, item.options)) ==>
        var i := FindLine(c, item.name, item.options);
        && |c'| == |c| && c'[i].qty == OrOne(c[i].qty) + 1
        && c'[i].priceTotal == c[i].price * c'[i].qty
        && forall j :: 0 <= j < |c| && j != i ==> c'[j] == c[j]
    ensures (forall i :: 0 <= i < |c| ==> !SameKey(c[i], item.name, item.options)) ==>
      Added(c, item) == c + [Line(item.name, item.price, item.options, item.cat, 1, item.price)]
  {
  }

  lemma AddedKeepsWellFormed(c: seq<Line>, item: Item)
    requires WellFormed(c)
    ensures WellFormed(Added(c, item))
  {
    var i := FindLine(c, item.name, item.options);
    var c' := Added(c, item);
    if i < |c| {
      forall a, b | 0 <= a < b < |c'| ensures !SameKey(c'[b], c'[a].name, c'[a].options) {
        assert SameKey(c'[b], c'[a].name, c'[a].options) <==> SameKey(c[b], c[a].name, c[a].options);
      }
    } else {
      forall a, b | 0 <= a < b < |c'| ensures !SameKey(c'[b], c'[a].name, c'[a].options) {
        if b == |c| {
          assert c'[a] == c[a];
        }
      }
    }
  }

  lemma IncrementedKeepsWellFormed(c: seq<Line>, i: nat)
    requires WellFormed(c) && i < |c|
    ensures WellFormed(Incremented(c, i))
  {
    var c' := Incremented(c, i);
    forall a, b | 0 <= a < b < |c'| ensures !SameKey(c'[b], c'[a].name, c'[a].options) {
      assert SameKey(c'[b], c'[a].name, c'[a].options) <==> SameKey(c[b], c[a].name, c[a].options);
    }
  }

  /** Dropping one line keeps the others in their order. */
  lemma RemovingKeepsOrder(c: seq<Line>, i: nat)
    requires i < |c|
    ensures var c' := c[..i] + c[i + 1..];
      |c'| == |c| - 1
      && (forall j :: 0 <= j < i ==> c'[j] == c[j])
      && (forall j :: i <= j < |c'| ==> c'[j] == c[j + 1])
  {
  }

  lemma RemovingKeepsWellFormed(c: seq<Line>, i: nat)
    requires WellFormed(c) && i < |c|
    ensures WellFormed(c[..i] + c[i + 1..])
  {
    var c' := c[..i] + c[i + 1..];
    RemovingKeepsOrder(c, i);
    forall a, b | 0 <= a < b < |c'| ensures !SameKey(c'[b], c'[a].name, c'[a].options) {
      var a0 := if a < i then a else a + 1;
      var b0 := if b < i then b else b + 1;
      assert c'[a] == c[a0] && c'[b] == c[b0];
    }
  }

  lemma DecrementedKeepsWellFormed(c: seq<Line>, i: nat)
    requires WellFormed(c) && i < |c|
    ensures WellFormed(Decremented(c, i))
  {
    if c[i].qty > 1 {
      var c' := Decremented(c, i);
      forall a, b | 0 <= a < b < |c'| ensures !SameKey(c'[b], c'[a].name, c'[a].options) {
        assert SameKey(c'[b], c'[a].name, c'[a].options) <==> SameKey(c[b], c[a].name, c[a].options);
      }
    } else {
      RemovingKeepsWellFormed(c, i);
    }
  }

  lemma RemovedAtKeepsWellFormed(c: seq<Line>, i: nat)
    requires WellFormed(c)
    ensures WellFormed(RemovedAt(c, i))
  {
    if i < |c| {
      RemovingKeepsWellFormed(c, i);
    }
  }

  /** `decQty` removes the line exactly when it held a single unit. */
  lemma DecrementedRemovesIff(c: seq<Line>, i: nat)
    requires WellFormed(c) && i < |c|
    ensures |Decremented(c, i)| == |c| - 1 <==> c[i].qty == 1
    ensures c[i].qty > 1 ==> Decremented(c, i)[i].qty == c[i].qty - 1
  {
  }

  /** `incQty(i)` then `decQty(i)` gives the cart back. */
  lemma DecUndoesInc(c: seq<Line>, i: nat)
    requires WellFormed(c) && i < |c|
    ensures Decremented(Incremented(c, i), i) == c
  {
    var c' := Decremented(Incremented(c, i), i);
    assert c'[i] == c[i];
  }

  // ---------------------------------------------------------------------------
  // Sums

  lemma {:induction false} TotalAppend(a: seq<Line>, b: seq<Line>)
    ensures Total(a + b) == Total(a) + Total(b)
    ensures Count(a + b) == Count(a) + Count(b)
    decreases |b|
  {
    if b == [] {
      assert a + b == a;
    } else {
      TotalAppend(a, b[..|b| - 1]);
      assert (a + b)[..|a + b| - 1] == a + b[..|b| - 1];
    }
  }

  lemma TotalOfOne(l: Line)
    ensures Total([l]) == OrPrice(l) && Count([l]) == OrOne(l.qty)
  {
    assert [l][..0] == [];
  }

  /** Changing one line changes the sums by that line's difference. */
  lemma {:induction false} TotalUpdate(c: seq<Line>, i: nat, l: Line)
    requires i < |c|
    ensures Total(c[i := l]) == Total(c) - OrPrice(c[i]) + OrPrice(l)
    ensures Count(c[i := l]) == Count(c) - OrOne(c[i].qty) + OrOne(l.qty)
    decreases |c|
  {
    var d := c[i := l];
    var n := |c| - 1;
    if i == n {
      assert d[..n] == c[..n];
    } else {
      TotalUpdate(c[..n], i, l);
      assert d[..n] == c[..n][i := l];
    }
  }

  /** Dropping one line takes its part out of the sums. */
  lemma {:induction false} TotalRemove(c: seq<Line>, i: nat)
    requires i < |c|
    ensures Total(c[..i] + c[i + 1..]) == Total(c) - OrPrice(c[i])
    ensures Count(c[..i] + c[i + 1..]) == Count(c) - OrOne(c[i].qty)
    decreases |c|
  {
    var r := c[..i] + c[i + 1..];
    var n := |c| - 1;
    if i == n {
      assert r == c[..n];
    } else {
      var init := c[..n];
      TotalRemove(init, i);
      assert r[..|r| - 1] == init[..i] + init[i + 1..];
      assert r[|r| - 1] == c[n];
    }
  }

  /** A line with a positive quantity and total price times quantity
      contributes price times quantity, even when that is 0. */
  lemma OrPriceIsProduct(l: Line)
    requires l.qty >= 1 && l.priceTotal == l.price * l.qty
    ensures OrPrice(l) == l.price * l.qty
  {
    if l.price > 0 {
      assert l.price * l.qty >= l.qty;
    } else if l.price < 0 {
      assert l.price * l.qty <= -l.qty;
    }
  }

  /** What the lines add up to: prices times quantities, and quantities. */
  function LineSum(c: seq<Line>): int
    decreases |c|
  {
    if c == [] then 0 else LineSum(c[..|c| - 1]) + c[|c| - 1].price * c[|c| - 1].qty
  }

  function QtySum(c: seq<Line>): int
    decreases |c|
  {
    if c == [] then 0 else QtySum(c[..|c| - 1]) + c[|c| - 1].qty
  }

  /** In a well-formed cart the button's sums are the plain sums of prices
      times quantities and of quantities, and the count is at least the
      number of lines. */
  lemma {:induction false} SumsOfWellFormed(c: seq<Line>)
    requires WellFormed(c)
    ensures Total(c) == LineSum(c) && Count(c) == QtySum(c) && Count(c) >= |c|
    decreases |c|
  {
    if c != [] {
      var init := c[..|c| - 1];
      assert WellFormed(init) by {
        assert forall a :: 0 <= a < |init| ==> init[a] == c[a];
      }
      SumsOfWellFormed(init);
      OrPriceIsProduct(c[|c| - 1]);
    }
  }

  /** One unit more adds the line's price to its part of the total. */
  lemma UnitUp(l: Line)
    requires l.qty >= 1 && l.priceTotal == l.price * l.qty
    ensures OrPrice(WithQty(l, l.qty + 1)) == OrPrice(l) + l.price
  {
    OrPriceIsProduct(l);
    OrPriceIsProduct(WithQty(l, l.qty + 1));
    assert l.price * (l.qty + 1) == l.price * l.qty + l.price;
  }

  /** One unit less takes the line's price off its part of the total. */
  lemma UnitDown(l: Line)
    requires l.qty > 1 && l.priceTotal == l.price * l.qty
    ensures OrPrice(WithQty(l, l.qty - 1)) == OrPrice(l) - l.price
  {
    OrPriceIsProduct(l);
    OrPriceIsProduct(WithQty(l, l.qty - 1));
    assert l.price * (l.qty - 1) == l.price * l.qty - l.price;
  }

  /** Adding an item puts one unit on the count and one price on the total:
      the item's own price for a new line, and the price already on the line
      when its key matched (`addToCart` multiplies by `existingItem.price`). */
  lemma AddedSums(c: seq<Line>, item: Item)
    requires WellFormed(c)
    ensures var i := FindLine(c, item.name, item.options);
      Total(Added(c, item)) == Total(c) + (if i < |c| then c[i].price else item.price)
    ensures Count(Added(c, item)) == Count(c) + 1
  {
    var i := FindLine(c, item.name, item.options);
    if i < |c| {
      LineOf(c, i);
      BumpSums(c, i);
    } else {
      TotalAppend(c, [NewLine(item)]);
      TotalOfOne(NewLine(item));
    }
  }

  /** One more unit of a line adds its price and one unit to the sums. */
  lemma UpSums(c: seq<Line>, i: nat)
    requires i < |c| && c[i].qty >= 1 && c[i].priceTotal == c[i].price * c[i].qty
    ensures Total(c[i := WithQty(c[i], c[i].qty + 1)]) == Total(c) + c[i].price
    ensures Count(c[i := WithQty(c[i], c[i].qty + 1)]) == Count(c) + 1
  {
    UnitUp(c[i]);
    TotalUpdate(c, i, WithQty(c[i], c[i].qty + 1));
  }

  /** `addToCart` on a matching line of at least one unit bumps it by one. */
  lemma BumpSums(c: seq<Line>, i: nat)
    requires i < |c| && c[i].qty >= 1 && c[i].priceTotal == c[i].price * c[i].qty
    ensures Total(c[i := Bumped(c[i])]) == Total(c) + c[i].price
    ensures Count(c[i := Bumped(c[i])]) == Count(c) + 1
  {
    assert Bumped(c[i]) == WithQty(c[i], c[i].qty + 1);
    UpSums(c, i);
  }

  /** A line of a well-formed cart holds a unit and costs price times
      quantity. */
  lemma LineOf(c: seq<Line>, i: nat)
    requires WellFormed(c) && i < |c|
    ensures c[i].qty >= 1 && c[i].priceTotal == c[i].price * c[i].qty
  {
  }

  /** `incQty` adds one unit of the line's product to the sums. */
  lemma IncrementedSums(c: seq<Line>, i: nat)
    requires WellFormed(c) && i < |c|
    ensures Total(Incremented(c, i)) == Total(c) + c[i].price
    ensures Count(Incremented(c, i)) == Count(c) + 1
  {
    LineOf(c, i);
    UpSums(c, i);
  }

  lemma LowerSums(c: seq<Line>, i: nat)
    requires i < |c| && c[i].qty > 1 && c[i].priceTotal == c[i].price * c[i].qty
    ensures Total(c[i := WithQty(c[i], c[i].qty - 1)]) == Total(c) - c[i].price
    ensures Count(c[i := WithQty(c[i], c[i].qty - 1)]) == Count(c) - 1
  {
    UnitDown(c[i]);
    TotalUpdate(c, i, WithQty(c[i], c[i].qty - 1));
  }

  lemma DropSums(c: seq<Line>, i: nat)
    requires i < |c| && c[i].qty == 1 && c[i].priceTotal == c[i].price
    ensures Total(c[..i] + c[i + 1..]) == Total(c) - c[i].price
    ensures Count(c[..i] + c[i + 1..]) == Count(c) - 1
  {
    assert OrPrice(c[i]) == c[i].price;
    TotalRemove(c, i);
  }

  /** `decQty` takes one unit of the line's product off the sums, whether it
      lowers the quantity or removes the line. */
  lemma DecrementedSums(c: seq<Line>, i: nat)
    requires WellFormed(c) && i < |c|
    ensures Total(Decremented(c, i)) == Total(c) - c[i].price
    ensures Count(Decremented(c, i)) == Count(c) - 1
  {
    var l := c[i];
    LineOf(c, i);
    if l.qty > 1 {
      assert Decremented(c, i) == c[i := WithQty(l, l.qty - 1)];
      LowerSums(c, i);
    } else {
      assert l.qty == 1;
      assert l.priceTotal == l.price by { assert l.priceTotal == l.price * 1; }
      assert Decremented(c, i) == c[..i] + c[i + 1..];
      DropSums(c, i);
    }
  }

  /** Removing a line takes its total and its quantity off the sums. */
  lemma RemovedSums(c: seq<Line>, i: nat)
    requires WellFormed(c) && i < |c|
    ensures Total(RemovedAt(c, i)) == Total(c) - OrPrice(c[i])
    ensures Count(RemovedAt(c, i)) == Count(c) - c[i].qty
  {
    TotalRemove(c, i);
  }
}
