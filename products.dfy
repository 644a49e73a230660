/** Product records as the live feed delivers them, and the "Latest Price"
    column of the product table: a left fold over a product's price history
    that keeps the entry with the greatest valid date. */
module Products {
  import opened Wrappers

  /** A price is a JavaScript number the client only copies, never computes on. */
  type Price(==)

  /** A valid date, abstracted to the timestamp `new Date(...)` compares by. */
  type Date = int

  datatype PriceEntry = PriceEntry(price: Price, validDate: Date)

  datatype Product = Product(
    id: int,
    name: string,
    category: string,
    prices: seq<PriceEntry>)

  /** One step of the reducer: a strictly later entry replaces the one kept so
      far; on an equal date the earlier entry stays. */
  function LaterOf(latest: PriceEntry, current: PriceEntry): PriceEntry
  {
    if current.validDate > latest.validDate then current else latest
  }

  /** `rest.reduce(LaterOf, latest)`: the fold carries the entry kept so far. */
  function Reduce(latest: PriceEntry, rest: seq<PriceEntry>): (r: PriceEntry)
    ensures r == latest || r in rest
    ensures r.validDate >= latest.validDate
    ensures forall e :: e in rest ==> e.validDate <= r.validDate
    decreases |rest|
  {
    if rest == [] then latest
    else Reduce(LaterOf(latest, rest[0]), rest[1..])
  }

  /** The price cell's selection: no entry for an empty history, otherwise the
      reduce seeded with the first entry and run over the whole list. */
  function LatestPrice(prices: seq<PriceEntry>): (r: Option<PriceEntry>)
    ensures r.None? <==> prices == []
    ensures r.Some? ==> r.value in prices
    ensures r.Some? ==> forall e :: e in prices ==> e.validDate <= r.value.validDate
  {
    if |prices| > 0 then Some(Reduce(prices[0], prices)) else None
  }

  /** What the "Latest Price" cell shows for a row. */
  datatype PriceCell = ShowsPrice(price: Price, validDate: Date) | NoPriceAvailable

  /** The cell renderer; `rowPrices` is None when the row has no price list. */
  function RenderPriceCell(rowPrices: Option<seq<PriceEntry>>): (c: PriceCell)
    ensures c.NoPriceAvailable? <==> rowPrices.None? || rowPrices.value == []
    ensures c.ShowsPrice? ==> PriceEntry(c.price, c.validDate) in rowPrices.value
    ensures c.ShowsPrice? ==> forall e :: e in rowPrices.value ==> e.validDate <= c.validDate
    ensures c.ShowsPrice? ==>
              exists k :: IsFirstLatest(rowPrices.value, k) &&
                          rowPrices.value[k] == PriceEntry(c.price, c.validDate)
  {
    if rowPrices.Some? && |rowPrices.value| > 0 then
      var latest := LatestPrice(rowPrices.value).value;
      LatestPriceCharacterization(rowPrices.value, latest);
      ShowsPrice(latest.price, latest.validDate)
    else
      NoPriceAvailable
  }

  /** Reference definition of the selected entry: index `k` holds a greatest
      date, and every entry before it has a strictly earlier date. */
  ghost predicate IsFirstLatest(prices: seq<PriceEntry>, k: int)
  {
    0 <= k < |prices| &&
    (forall j :: 0 <= j < |prices| ==> prices[j].validDate <= prices[k].validDate) &&
    (forall j :: 0 <= j < k ==> prices[j].validDate < prices[k].validDate)
  }

  /** Every non-empty history has a first latest index. */
  lemma {:induction false} FirstLatestExists(prices: seq<PriceEntry>)
    requires prices != []
    ensures exists k :: IsFirstLatest(prices, k)
  {
    var n := |prices|;
    if n == 1 {
      assert IsFirstLatest(prices, 0);
    } else {
      var init := prices[..n - 1];
      FirstLatestExists(init);
      var k :| IsFirstLatest(init, k);
      assert forall j :: 0 <= j < n - 1 ==> init[j] == prices[j];
      if prices[n - 1].validDate > prices[k].validDate {
        assert IsFirstLatest(prices, n - 1);
      } else {
        assert IsFirstLatest(prices, k);
      }
    }
  }

  /** The fold, started from `latest` and run over `rest`, returns the first
      latest entry of the sequence `[latest] + rest`. */
  lemma {:induction false} ReduceReturnsFirstLatest(latest: PriceEntry, rest: seq<PriceEntry>, k: int)
    requires IsFirstLatest([latest] + rest, k)
    ensures Reduce(latest, rest) == ([latest] + rest)[k]
    decreases |rest|
  {
    var all := [latest] + rest;
    if rest != [] {
      var next := LaterOf(latest, rest[0]);
      var tail := rest[1..];
      var all' := [next] + tail;
      assert all[0] == latest && all[1] == rest[0];
      assert all'[0] == next;
      assert forall j :: 1 <= j < |all'| ==> all'[j] == all[j + 1];
      if k == 0 {
        assert rest[0].validDate <= latest.validDate;
        assert IsFirstLatest(all', 0);
        ReduceReturnsFirstLatest(next, tail, 0);
      } else if k == 1 {
        assert latest.validDate < rest[0].validDate;
        assert IsFirstLatest(all', 0);
        ReduceReturnsFirstLatest(next, tail, 0);
      } else {
        assert all[0].validDate < all[k].validDate && all[1].validDate < all[k].validDate;
        assert all'[0].validDate < all'[k - 1].validDate;
        assert IsFirstLatest(all', k - 1);
        ReduceReturnsFirstLatest(next, tail, k - 1);
      }
    }
  }

  /** The selected price is exactly the first entry that carries the greatest
      valid date: later entries with an equal date never replace it. */
  lemma LatestPriceIsFirstLatest(prices: seq<PriceEntry>, k: int)
    requires IsFirstLatest(prices, k)
    ensures LatestPrice(prices) == Some(prices[k])
  {
    var all := [prices[0]] + prices;
    var k' := if k == 0 then 0 else k + 1;
    assert all[k'] == prices[k];
    assert forall j :: 1 <= j < |all| ==> all[j] == prices[j - 1];
    assert IsFirstLatest(all, k');
    ReduceReturnsFirstLatest(prices[0], prices, k');
  }

  /** Both directions: the cell shows entry `e` exactly when `e` sits at the
      first index holding the greatest valid date. */
  lemma LatestPriceCharacterization(prices: seq<PriceEntry>, e: PriceEntry)
    ensures LatestPrice(prices) == Some(e) <==> exists k :: IsFirstLatest(prices, k) && prices[k] == e
  {
    if LatestPrice(prices) == Some(e) {
      FirstLatestExists(prices);
      var k :| IsFirstLatest(prices, k);
      LatestPriceIsFirstLatest(prices, k);
    }
    if exists k :: IsFirstLatest(prices, k) && prices[k] == e {
      var k :| IsFirstLatest(prices, k) && prices[k] == e;
      LatestPriceIsFirstLatest(prices, k);
    }
  }

  /** On a tie for the greatest date, the earlier entry is shown: whenever
      index `i` carries the greatest date, the selected entry sits at `i` or
      before it, with that same date. */
  lemma TieKeepsEarlierEntry(prices: seq<PriceEntry>, i: int)
    requires 0 <= i < |prices|
    requires forall e :: e in prices ==> e.validDate <= prices[i].validDate
    ensures exists k :: 0 <= k <= i && LatestPrice(prices) == Some(prices[k]) &&
                        prices[k].validDate == prices[i].validDate
  {
    FirstLatestExists(prices);
    var k :| IsFirstLatest(prices, k);
    LatestPriceIsFirstLatest(prices, k);
    assert prices[k] in prices;
    assert prices[k].validDate == prices[i].validDate;
  }

  /** Appending an entry with a strictly later date than every entry so far
      makes it the latest price; appending an entry no later than the current
      latest leaves the choice unchanged. */
  lemma LatestPriceAfterAppend(prices: seq<PriceEntry>, e: PriceEntry)
    ensures (forall x :: x in prices ==> x.validDate < e.validDate) ==>
              LatestPrice(prices + [e]) == Some(e)
    ensures prices != [] && e.validDate <= LatestPrice(prices).value.validDate ==>
              LatestPrice(prices + [e]) == LatestPrice(prices)
  {
    var all := prices + [e];
    var n := |prices|;
    assert all[n] == e;
    assert forall j :: 0 <= j < n ==> all[j] == prices[j];
    if forall x :: x in prices ==> x.validDate < e.validDate {
      assert forall j :: 0 <= j < n ==> prices[j] in prices;
      assert IsFirstLatest(all, n);
      LatestPriceIsFirstLatest(all, n);
    }
    if prices != [] && e.validDate <= LatestPrice(prices).value.validDate {
      FirstLatestExists(prices);
      var k :| IsFirstLatest(prices, k);
      LatestPriceIsFirstLatest(prices, k);
      assert IsFirstLatest(all, k);
      LatestPriceIsFirstLatest(all, k);
    }
  }
}
