/**
 The mirror of all order books: each update refreshes the cached fill price when it has
 drifted, and names the constraints to evaluate again.
 */
module BookMirror {
  import opened Totals
  import opened OrderBook

  const SYNTHETIC_DEPTH := 100.0

  type Notices = seq<(string, bool)>

  type Books = map<string, BookValue>

  // ---------- What each operation does ----------

  function BookOf(books: Books, asset: string): BookValue { if asset in books then books[asset] else EmptyBook }

  ghost predicate Drifted(b: BookValue, size: real, threshold: real) {
    var efp := Efp(b.asks, size);
    efp > 0.0 && (Abs(efp - b.lastEfp) > threshold || b.lastEfp == 0.0)
  }

  ghost function Refreshed(b: BookValue, size: real, threshold: real): BookValue {
    if Drifted(b, size, threshold) then b.(lastEfp := Efp(b.asks, size)) else b
  }

  function Notify(cids: seq<string>, urgent: bool): (r: Notices)
    ensures |r| == |cids|
  {
    seq(|cids|, i requires 0 <= i < |cids| => (cids[i], urgent))
  }

  ghost function NoticesFor(b: BookValue, size: real, threshold: real, cids: seq<string>): Notices {
    if Drifted(b, size, threshold) then Notify(cids, Abs(Efp(b.asks, size) - b.lastEfp) > threshold) else []
  }

  function Snapshotted(b: BookValue, asks: seq<Level>, bids: seq<Level>, ts: real): BookValue {
    b.(asks := Load(asks), bids := Load(bids), lastUpdate := ts)
  }

  function Delta(b: BookValue, isAsk: bool, price: real, size: real, ts: real): BookValue {
    if isAsk then b.(asks := Changed(b.asks, price, size), lastUpdate := ts)
    else b.(bids := Changed(b.bids, price, size), lastUpdate := ts)
  }

  function BestPrices(b: BookValue, bid: real, ask: real, ts: real): BookValue {
    b.(asks := if b.asks == map[] && ask > 0.0 then map[OrderedFloat(ask) := SYNTHETIC_DEPTH] else b.asks,
       bids := if b.bids == map[] && bid > 0.0 then map[OrderedFloat(bid) := SYNTHETIC_DEPTH] else b.bids,
       lastUpdate := ts)
  }

  lemma Overwrite(books: Books, asset: string, a: BookValue, b: BookValue)
    ensures books[asset := a][asset := b] == books[asset := b]
  {
  }

  // ---------- The mirror as the program keeps it ----------

  class BookMirror {
    var books: map<string, OrderBook>
    var constraintsOf: map<string, seq<string>>
    var tradeSize: real
    const threshold: real

    /** No two assets share a book, and no book lists an empty ask level. */
    ghost predicate Valid()
      reads this, books.Values
    {
      && (forall a, b :: a in books && b in books && a != b ==> books[a] != books[b])
      && (forall a :: a in books ==> Sized(books[a].asks))
    }

    ghost function View(): Books
      reads this, books.Values
    {
      map a | a in books :: books[a].Value()
    }

    constructor (size: real, drift: real)
      ensures Valid() && View() == map[] && tradeSize == size && threshold == drift && constraintsOf == map[]
    {
      books, constraintsOf, tradeSize, threshold := map[], map[], size, drift;
    }

    function ConstraintsOf(asset: string): seq<string>
      reads this`constraintsOf
    {
      if asset in constraintsOf then constraintsOf[asset] else []
    }

    method Entry(asset: string) returns (book: OrderBook)
      requires Valid()
      modifies this`books
      ensures Valid() && asset in books && books[asset] == book
      ensures fresh(books.Values - old(books.Values))
      ensures book.Value() == BookOf(old(View()), asset)
      ensures View() == old(View())[asset := book.Value()]
      ensures book in old(books.Values) || fresh(book)
    {
      if asset !in books {
        book := new OrderBook();
        books := books[asset := book];
      }
      book := books[asset];
    }

    method CheckEfpDrift(asset: string, book: OrderBook) returns (notices: Notices)
      requires Sized(book.asks)
      modifies book`lastEfp
      ensures book.Value() == Refreshed(old(book.Value()), tradeSize, threshold)
      ensures notices == NoticesFor(old(book.Value()), tradeSize, threshold, ConstraintsOf(asset))
    {
      var efp := book.EffectiveFillPrice(tradeSize);
      if efp <= 0.0 {
        return [];
      }
      var drift := Abs(efp - book.lastEfp);
      if drift > threshold || book.lastEfp == 0.0 {
        book.lastEfp := efp;
        if asset in constraintsOf {
          return Notify(constraintsOf[asset], drift > threshold);
        }
      }
      return [];
    }

    /** Changing one book changes one entry of the view. */
    twostate lemma OneBookChanged(asset: string)
      requires old(Valid()) && unchanged(this) && asset in books
      requires forall book :: book in books.Values && book != books[asset] ==> unchanged(book)
      requires Sized(books[asset].asks)
      ensures Valid()
      ensures View() == old(View())[asset := books[asset].Value()]
    {
      forall a | a in books && a != asset ensures unchanged(books[a]) {
        assert books[a] in books.Values;
      }
    }

    method SnapshotBook(asset: string, book: OrderBook, asks: seq<Level>, bids: seq<Level>, ts: real)
      returns (notices: Notices)
      modifies book
      ensures var b := Snapshotted(old(book.Value()), asks, bids, ts);
        && book.Value() == Refreshed(b, tradeSize, threshold)
        && notices == NoticesFor(b, tradeSize, threshold, ConstraintsOf(asset))
      ensures Sized(book.asks)
    {
      LoadedIsSized(asks);
      book.ApplySnapshot(asks, bids, ts);
      notices := CheckEfpDrift(asset, book);
    }

    method DeltaBook(asset: string, book: OrderBook, isAsk: bool, price: real, size: real, ts: real)
      returns (notices: Notices)
      requires Sized(book.asks)
      modifies book
      ensures var b := Delta(old(book.Value()), isAsk, price, size, ts);
        && book.Value() == (if isAsk then Refreshed(b, tradeSize, threshold) else b)
        && notices == if isAsk then NoticesFor(b, tradeSize, threshold, ConstraintsOf(asset)) else []
      ensures Sized(book.asks)
    {
      book.ApplyDelta(isAsk, price, size, ts);
      if isAsk {
        notices := CheckEfpDrift(asset, book);
      } else {
        notices := [];
      }
    }

    method BestPricesBook(asset: string, book: OrderBook, bid: real, ask: real, ts: real) returns (notices: Notices)
      requires Sized(book.asks)
      modifies book
      ensures var b := BestPrices(old(book.Value()), bid, ask, ts);
        && book.Value() == Refreshed(b, tradeSize, threshold)
        && notices == NoticesFor(b, tradeSize, threshold, ConstraintsOf(asset))
      ensures Sized(book.asks)
    {
      if book.asks == map[] && ask > 0.0 {
        book.asks := map[OrderedFloat(ask) := SYNTHETIC_DEPTH];
      }
      if book.bids == map[] && bid > 0.0 {
        book.bids := map[OrderedFloat(bid) := SYNTHETIC_DEPTH];
      }
      book.lastUpdate := ts;
      notices := CheckEfpDrift(asset, book);
    }

    method ApplySnapshot(asset: string, asks: seq<Level>, bids: seq<Level>, ts: real) returns (notices: Notices)
      requires Valid()
      modifies this`books, books.Values
      ensures Valid() && fresh(books.Values - old(books.Values))
      ensures var b := Snapshotted(BookOf(old(View()), asset), asks, bids, ts);
        && View() == old(View())[asset := Refreshed(b, tradeSize, threshold)]
        && notices == NoticesFor(b, tradeSize, threshold, ConstraintsOf(asset))
    {
      var book := Entry(asset);
      label ready:
      notices := SnapshotBook(asset, book, asks, bids, ts);
      OneBookChanged@ready(asset);
      Overwrite(old(View()), asset, old@ready(book.Value()), book.Value());
    }

    method ApplyDelta(asset: string, isAsk: bool, price: real, size: real, ts: real) returns (notices: Notices)
      requires Valid()
      modifies this`books, books.Values
      ensures Valid() && fresh(books.Values - old(books.Values))
      ensures var b := Delta(BookOf(old(View()), asset), isAsk, price, size, ts);
        && View() == old(View())[asset := if isAsk then Refreshed(b, tradeSize, threshold) else b]
        && notices == if isAsk then NoticesFor(b, tradeSize, threshold, ConstraintsOf(asset)) else []
    {
      var book := Entry(asset);
      label ready:
      notices := DeltaBook(asset, book, isAsk, price, size, ts);
      OneBookChanged@ready(asset);
      Overwrite(old(View()), asset, old@ready(book.Value()), book.Value());
    }

    method ApplyBestPrices(asset: string, bid: real, ask: real, ts: real) returns (notices: Notices)
      requires Valid()
      modifies this`books, books.Values
      ensures Valid() && fresh(books.Values - old(books.Values))
      ensures var b := BestPrices(BookOf(old(View()), asset), bid, ask, ts);
        && View() == old(View())[asset := Refreshed(b, tradeSize, threshold)]
        && notices == NoticesFor(b, tradeSize, threshold, ConstraintsOf(asset))
    {
      var book := Entry(asset);
      label ready:
      notices := BestPricesBook(asset, book, bid, ask, ts);
      OneBookChanged@ready(asset);
      Overwrite(old(View()), asset, old@ready(book.Value()), book.Value());
    }
  }

  // ---------- The cache stays close ----------

  /** The cached price is within the threshold of any price the book quotes now. */
  ghost predicate CacheIsClose(b: BookValue, size: real, threshold: real) {
    Efp(b.asks, size) > 0.0 ==> Abs(Efp(b.asks, size) - b.lastEfp) <= threshold
  }

  ghost predicate AllClose(books: Books, size: real, threshold: real) {
    forall a :: a in books ==> CacheIsClose(books[a], size, threshold)
  }

  datatype Step =
    | SnapshotStep(asset: string, asks: seq<Level>, bids: seq<Level>, ts: real)
    | DeltaStep(asset: string, isAsk: bool, price: real, size: real, ts: real)
    | BestPricesStep(asset: string, bid: real, ask: real, ts: real)

  ghost function Apply(books: Books, s: Step, size: real, threshold: real): Books {
    match s
    case SnapshotStep(a, asks, bids, ts) =>
      books[a := Refreshed(Snapshotted(BookOf(books, a), asks, bids, ts), size, threshold)]
    case DeltaStep(a, isAsk, price, sz, ts) =>
      var b := Delta(BookOf(books, a), isAsk, price, sz, ts);
      books[a := if isAsk then Refreshed(b, size, threshold) else b]
    case BestPricesStep(a, bid, ask, ts) =>
      books[a := Refreshed(BestPrices(BookOf(books, a), bid, ask, ts), size, threshold)]
  }

  ghost function Run(books: Books, steps: seq<Step>, size: real, threshold: real): Books {
    if steps == [] then books
      else Apply(Run(books, steps[..|steps| - 1], size, threshold), steps[|steps| - 1], size, threshold)
  }

  lemma RefreshedIsClose(b: BookValue, size: real, threshold: real)
    requires threshold >= 0.0
    ensures CacheIsClose(Refreshed(b, size, threshold), size, threshold)
  {
  }

  /** At a fixed trade size, every book's cached price stays close to its quote along every run. */
  lemma {:induction false} CacheStaysClose(books: Books, steps: seq<Step>, size: real, threshold: real)
    requires AllClose(books, size, threshold) && threshold >= 0.0
    ensures AllClose(Run(books, steps, size, threshold), size, threshold)
  {
    if steps != [] {
      var n := |steps| - 1;
      var mid := Run(books, steps[..n], size, threshold);
      CacheStaysClose(books, steps[..n], size, threshold);
      match steps[n] {
        case SnapshotStep(a, asks, bids, ts) =>
          RefreshedIsClose(Snapshotted(BookOf(mid, a), asks, bids, ts), size, threshold);
        case DeltaStep(a, isAsk, price, sz, ts) =>
          RefreshedIsClose(Delta(BookOf(mid, a), isAsk, price, sz, ts), size, threshold);
          assert Efp(EmptyBook.asks, size) == 0.0;
        case BestPricesStep(a, bid, ask, ts) =>
          RefreshedIsClose(BestPrices(BookOf(mid, a), bid, ask, ts), size, threshold);
      }
    }
  }

  // ---------- No move goes unannounced ----------

  /** What an update of an asset with these constraints reports. */
  ghost function Heard(books: Books, s: Step, size: real, threshold: real, cids: seq<string>): Notices {
    match s
    case SnapshotStep(a, asks, bids, ts) =>
      NoticesFor(Snapshotted(BookOf(books, a), asks, bids, ts), size, threshold, cids)
    case DeltaStep(a, isAsk, price, sz, ts) =>
      if isAsk then NoticesFor(Delta(BookOf(books, a), isAsk, price, sz, ts), size, threshold, cids) else []
    case BestPricesStep(a, bid, ask, ts) =>
      NoticesFor(BestPrices(BookOf(books, a), bid, ask, ts), size, threshold, cids)
  }

  /** A step tells every one of these constraints that the asset moved. */
  ghost predicate Announces(books: Books, s: Step, size: real, threshold: real, asset: string, cids: seq<string>) {
    s.asset == asset && exists urgent :: Heard(books, s, size, threshold, cids) == Notify(cids, urgent)
  }

  ghost predicate Announced(books: Books, steps: seq<Step>, i: nat, size: real, threshold: real, asset: string,
                            cids: seq<string>)
    requires i < |steps|
  {
    Announces(Run(books, steps[..i], size, threshold), steps[i], size, threshold, asset, cids)
  }

  /**
   A constraint of the asset is told urgently exactly when a quote lies further than the threshold from
   the cached price, and otherwise only of a first quote.
   */
  lemma NoticesMean(b: BookValue, size: real, threshold: real, cids: seq<string>, n: (string, bool))
    ensures var quote := Efp(b.asks, size);
      var far := quote > b.lastEfp + threshold || quote < b.lastEfp - threshold;
      n in NoticesFor(b, size, threshold, cids)
      <==> n.0 in cids && quote > 0.0 && n.1 == far && (far || b.lastEfp == 0.0)
  {
    var notices := NoticesFor(b, size, threshold, cids);
    if Drifted(b, size, threshold) && n.0 in cids {
      var i :| 0 <= i < |cids| && cids[i] == n.0;
      assert notices[i].0 == n.0;
    }
  }

  /** A cached price moves only with an announcement. */
  lemma CacheMovesAreAnnounced(books: Books, s: Step, size: real, threshold: real, asset: string, cids: seq<string>)
    requires !Announces(books, s, size, threshold, asset, cids)
    ensures BookOf(Apply(books, s, size, threshold), asset).lastEfp == BookOf(books, asset).lastEfp
  {
    if s.asset == asset {
      var heard := Heard(books, s, size, threshold, cids);
      assert heard != Notify(cids, true) && heard != Notify(cids, false);
    }
  }

  lemma {:induction false} UnannouncedKeepsTheCache(books: Books, steps: seq<Step>, size: real, threshold: real,
                                                    asset: string, cids: seq<string>)
    requires forall i :: 0 <= i < |steps| ==> !Announced(books, steps, i, size, threshold, asset, cids)
    ensures BookOf(Run(books, steps, size, threshold), asset).lastEfp == BookOf(books, asset).lastEfp
  {
    if steps != [] {
      var n := |steps| - 1;
      forall i | 0 <= i < n ensures !Announced(books, steps[..n], i, size, threshold, asset, cids) {
        assert steps[..n][..i] == steps[..i];
        assert !Announced(books, steps, i, size, threshold, asset, cids);
      }
      UnannouncedKeepsTheCache(books, steps[..n], size, threshold, asset, cids);
      assert !Announced(books, steps, n, size, threshold, asset, cids);
      CacheMovesAreAnnounced(Run(books, steps[..n], size, threshold), steps[n], size, threshold, asset, cids);
    }
  }

  ghost function Quote(books: Books, asset: string, size: real): real { Efp(BookOf(books, asset).asks, size) }

  lemma QuoteIsClose(books: Books, asset: string, size: real, threshold: real)
    requires AllClose(books, size, threshold) && threshold >= 0.0 && Quote(books, asset, size) > 0.0
    ensures Abs(Quote(books, asset, size) - BookOf(books, asset).lastEfp) <= threshold
  {
    assert Efp(EmptyBook.asks, size) == 0.0;
    if asset in books { assert CacheIsClose(books[asset], size, threshold); }
  }

  /**
   Where a quote ends further than the threshold from the price cached before the run, some step
   told every constraint of the asset, though each single step may have moved it by less.
   */
  lemma MovesAreAnnounced(books: Books, steps: seq<Step>, size: real, threshold: real, asset: string,
                          cids: seq<string>)
    requires AllClose(books, size, threshold) && threshold >= 0.0
    requires var quote := Quote(Run(books, steps, size, threshold), asset, size);
      quote > 0.0 && Abs(quote - BookOf(books, asset).lastEfp) > threshold
    ensures exists i :: 0 <= i < |steps| && Announced(books, steps, i, size, threshold, asset, cids)
  {
    CacheStaysClose(books, steps, size, threshold);
    QuoteIsClose(Run(books, steps, size, threshold), asset, size, threshold);
    if forall i :: 0 <= i < |steps| ==> !Announced(books, steps, i, size, threshold, asset, cids) {
      UnannouncedKeepsTheCache(books, steps, size, threshold, asset, cids);
    }
  }

  // ---------- No quote goes uncached ----------

  /** A book that quotes has a cached price. */
  ghost predicate QuoteIsCached(b: BookValue, size: real) { Efp(b.asks, size) > 0.0 ==> b.lastEfp != 0.0 }

  ghost predicate AllCached(books: Books, size: real) { forall a :: a in books ==> QuoteIsCached(books[a], size) }

  lemma RefreshedIsCached(b: BookValue, size: real, threshold: real)
    ensures QuoteIsCached(Refreshed(b, size, threshold), size)
  {
  }

  lemma BidsKeepTheQuote(b: BookValue, price: real, sz: real, ts: real, size: real)
    requires QuoteIsCached(b, size)
    ensures QuoteIsCached(Delta(b, false, price, sz, ts), size)
  {
  }

  /** Along every run, a book that quotes at the trade size has a cached price, however small its first move was. */
  lemma {:induction false} QuotesAreCached(books: Books, steps: seq<Step>, size: real, threshold: real)
    requires AllCached(books, size)
    ensures AllCached(Run(books, steps, size, threshold), size)
  {
    if steps != [] {
      var n := |steps| - 1;
      var mid := Run(books, steps[..n], size, threshold);
      QuotesAreCached(books, steps[..n], size, threshold);
      match steps[n] {
        case SnapshotStep(a, asks, bids, ts) =>
          RefreshedIsCached(Snapshotted(BookOf(mid, a), asks, bids, ts), size, threshold);
        case DeltaStep(a, isAsk, price, sz, ts) =>
          RefreshedIsCached(Delta(BookOf(mid, a), isAsk, price, sz, ts), size, threshold);
          assert Efp(EmptyBook.asks, size) == 0.0;
          if !isAsk { BidsKeepTheQuote(BookOf(mid, a), price, sz, ts, size); }
        case BestPricesStep(a, bid, ask, ts) =>
          RefreshedIsCached(BestPrices(BookOf(mid, a), bid, ask, ts), size, threshold);
      }
    }
  }

  /** Best prices only fill an empty side, with a single level. */
  lemma BestPricesFillEmptySides(b: BookValue, bid: real, ask: real, ts: real)
    requires bid > 0.0 && ask > 0.0
    ensures var r := BestPrices(b, bid, ask, ts);
      && (b.asks != map[] ==> r.asks == b.asks) && (b.bids != map[] ==> r.bids == b.bids)
      && (b.asks == map[] ==> r.asks.Keys == {OrderedFloat(ask)} && r.asks[OrderedFloat(ask)] == 100.0)
      && (b.bids == map[] ==> r.bids.Keys == {OrderedFloat(bid)} && r.bids[OrderedFloat(bid)] == 100.0)
  {
  }
}
