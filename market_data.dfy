/** Assembly of the stock snapshot that `get_stock_data` returns: the quote
    fields read from the provider's info payload through fallback chains,
    the last ten history rows, and the technical indicators. */
module MarketData {
  import opened Common
  import opened Indicators

  /** Rows kept in the snapshot's "history". */
  const HistoryRows: nat := 10

  /** One row of the daily price history, indexed by its date. */
  datatype PriceRow = PriceRow(date: string, open: real, high: real, low: real, close: real, volume: real)

  /** A history row as `to_dict('records')` renders it: the date index is dropped. */
  datatype PriceRecord = PriceRecord(open: real, high: real, low: real, close: real, volume: real)

  /** The provider's info dictionary: numeric fields and name fields. A key
      that the provider omits is absent from its map. */
  datatype Info = Info(numbers: map<string, real>, names: map<string, string>)

  /** The dictionary that `get_stock_data` returns when there is history,
      before rounding of the indicators. */
  datatype Snapshot = Snapshot(
    ticker: string,
    company: string,
    currentPrice: real,
    changePercent: real,
    high52: real,
    low52: real,
    marketCap: real,
    peRatio: real,
    eps: real,
    volume: real,
    avgVolume: real,
    history: seq<PriceRecord>,
    technicals: Technicals)

  // ---------------------------------------------------------------------
  // Dictionary lookups

  /** `d.get(k, v)` means: the value under `k` when `k` is present, else `v`. */
  ghost predicate GetsOr<V>(d: map<string, V>, k: string, dflt: V, v: V)
  {
    (k in d ==> v == d[k]) && (k !in d ==> v == dflt)
  }

  /** `d.get(a, d.get(b, dflt))`: the primary key, then the secondary key, then the default. */
  ghost predicate FallsBack<V>(d: map<string, V>, a: string, b: string, dflt: V, v: V)
  {
    (a in d ==> v == d[a]) && (a !in d && b in d ==> v == d[b]) && (a !in d && b !in d ==> v == dflt)
  }

  function Get<V>(d: map<string, V>, k: string, dflt: V): (v: V)
    ensures GetsOr(d, k, dflt, v)
  {
    if k in d then d[k] else dflt
  }

  /** A two-key fallback chain. */
  function Get2<V>(d: map<string, V>, a: string, b: string, dflt: V): (v: V)
    ensures FallsBack(d, a, b, dflt, v)
  {
    Get(d, a, Get(d, b, dflt))
  }

  // ---------------------------------------------------------------------
  // History

  function Closes(hist: seq<PriceRow>): (c: seq<real>)
    ensures |c| == |hist|
    ensures forall i :: 0 <= i < |hist| ==> c[i] == hist[i].close
  {
    seq(|hist|, i requires 0 <= i < |hist| => hist[i].close)
  }

  function Record(row: PriceRow): PriceRecord
  {
    PriceRecord(row.open, row.high, row.low, row.close, row.volume)
  }

  /** The records of a run of rows, in the same order. */
  function Records(rows: seq<PriceRow>): (r: seq<PriceRecord>)
    ensures |r| == |rows|
    ensures forall i :: 0 <= i < |rows| ==> r[i] == Record(rows[i])
  {
    seq(|rows|, i requires 0 <= i < |rows| => Record(rows[i]))
  }

  /** `hist.iloc[-10:].to_dict('records')`: the last `min(10, n)` rows, oldest first. */
  function RecentRecords(hist: seq<PriceRow>): (r: seq<PriceRecord>)
    ensures |r| == Min(HistoryRows, |hist|)
    ensures forall i :: 0 <= i < |r| ==> r[i] == Record(hist[|hist| - |r| + i])
  {
    var k := Min(HistoryRows, |hist|);
    seq(k, i requires 0 <= i < k => Record(hist[|hist| - k + i]))
  }

  /** A history of at most ten rows is kept whole; a longer one loses
      exactly its oldest rows, and the order is preserved. */
  lemma RecentRecordsIsSuffix(hist: seq<PriceRow>)
    ensures |hist| <= HistoryRows ==> RecentRecords(hist) == Records(hist)
    ensures |hist| > HistoryRows ==> RecentRecords(hist) == Records(hist[|hist| - HistoryRows..])
  {
    if |hist| <= HistoryRows {
      assert Suffix(hist, |hist|) == hist;
    }
  }

  // ---------------------------------------------------------------------
  // The snapshot

  /** `get_stock_data`: nothing without history; otherwise the quote fields
      through their fallback chains (0 when every key is missing, the ticker
      for a missing name), the change scaled to percent, the market cap in
      billions, the last ten rows and the indicators of the whole close series. */
  function GetStockData(ticker: string, info: Info, hist: seq<PriceRow>): (r: Option<Snapshot>)
    ensures r.None? <==> |hist| == 0
    ensures r.Some? ==>
      var s := r.value;
      && s.ticker == ticker
      && FallsBack(info.names, "longName", "shortName", ticker, s.company)
      && FallsBack(info.numbers, "currentPrice", "regularMarketPrice", 0.0, s.currentPrice)
      && GetsOr(info.numbers, "regularMarketChangePercent", 0.0, s.changePercent / 100.0)
      && GetsOr(info.numbers, "fiftyTwoWeekHigh", 0.0, s.high52)
      && GetsOr(info.numbers, "fiftyTwoWeekLow", 0.0, s.low52)
      && GetsOr(info.numbers, "marketCap", 0.0, s.marketCap * 1000000000.0)
      && GetsOr(info.numbers, "trailingPE", 0.0, s.peRatio)
      && GetsOr(info.numbers, "trailingEPS", 0.0, s.eps)
      && FallsBack(info.numbers, "volume", "regularMarketVolume", 0.0, s.volume)
      && FallsBack(info.numbers, "averageVolume", "averageDailyVolume3Month", 0.0, s.avgVolume)
      && |s.history| == Min(HistoryRows, |hist|)
      && s.history == RecentRecords(hist)
      && s.technicals == ComputeTechnicals(Closes(hist))
  {
    if |hist| == 0 then None
    else
      var n := info.numbers;
      Some(Snapshot(
        ticker,
        Get2(info.names, "longName", "shortName", ticker),
        Get2(n, "currentPrice", "regularMarketPrice", 0.0),
        Get(n, "regularMarketChangePercent", 0.0) * 100.0,
        Get(n, "fiftyTwoWeekHigh", 0.0),
        Get(n, "fiftyTwoWeekLow", 0.0),
        Get(n, "marketCap", 0.0) / 1000000000.0,
        Get(n, "trailingPE", 0.0),
        Get(n, "trailingEPS", 0.0),
        Get2(n, "volume", "regularMarketVolume", 0.0),
        Get2(n, "averageVolume", "averageDailyVolume3Month", 0.0),
        RecentRecords(hist),
        ComputeTechnicals(Closes(hist))))
  }

  /** With an empty info payload every quote field is 0 and the company is the ticker. */
  lemma EmptyInfoDefaults(ticker: string, hist: seq<PriceRow>)
    requires |hist| > 0
    ensures var s := GetStockData(ticker, Info(map[], map[]), hist).value;
      && s.company == ticker
      && s.currentPrice == s.changePercent == s.high52 == s.low52 == 0.0
      && s.marketCap == s.peRatio == s.eps == s.volume == s.avgVolume == 0.0
  {
  }

  /** A one-row history: both moving averages are its close and RSI is undefined. */
  lemma SingleRowSnapshot(ticker: string, info: Info, row: PriceRow)
    ensures var s := GetStockData(ticker, info, [row]).value;
      && s.history == [Record(row)]
      && s.technicals.ma5 == row.close && s.technicals.ma20 == row.close
      && s.technicals.rsi.None?
  {
    var s := GetStockData(ticker, info, [row]).value;
    assert Closes([row]) == [row.close];
    SinglePointAverages(row.close);
  }

  /** Rows older than the kept ten do not appear in the snapshot's history. */
  lemma OlderRowsNotKept(ticker: string, info: Info, older: seq<PriceRow>, recent: seq<PriceRow>)
    requires |recent| == HistoryRows
    ensures GetStockData(ticker, info, older + recent).value.history
         == GetStockData(ticker, info, recent).value.history
  {
    var a := RecentRecords(older + recent);
    var b := RecentRecords(recent);
    assert |a| == |b| == HistoryRows;
    forall i | 0 <= i < |a| ensures a[i] == b[i] {
      assert (older + recent)[|older| + i] == recent[i];
    }
  }
}
