/**
 * The web comparison app: a callback that adds the typed ticker to the
 * tracked list (same duplicate check as the console tracker, no stripping)
 * and returns the figure of every tracked ticker's closing prices.
 */
module Comparison {
  import opened Wrappers
  import opened Text
  import opened StrOrder
  import opened TrackedList

  const ComparisonTitle := "Stock Comparison"

  datatype Layout = Layout(title: string, xTitle: string, yTitle: string, traceOrder: string)

  /** A figure: its traces and its layout. */
  datatype Figure<P> = Figure(data: seq<Trace<P>>, layout: Layout)

  /** The web figure of the tracked list: one trace per entry, in list order,
      named by its ticker with the entry's dates and closing prices; the
      layout depends on nothing but the title. */
  function PlotMultipleStocks<P>(entries: seq<Entry<P>>, title: string): (f: Figure<P>)
    ensures |f.data| == |entries|
    ensures forall i :: 0 <= i < |entries| ==>
      f.data[i].name == entries[i].ticker && f.data[i].x == entries[i].data.index &&
      f.data[i].y == entries[i].data.close
    ensures f.layout == Layout(title, "Date", "Closing Price", "normal")
  {
    Figure(ClosingTraces(entries), Layout(title, "Date", "Closing Price", "normal"))
  }

  /** The app's state: the tracked list captured by the callback, and the provider it downloads from. */
  class ComparisonApp<P> {
    var stockDataList: seq<Entry<P>>
    const provider: Provider<P>

    /** Tickers are distinct ignoring case. */
    ghost predicate Valid()
      reads this
    {
      FoldDistinct(Tickers(stockDataList))
    }

    constructor (p: Provider<P>)
      ensures Valid() && stockDataList == [] && provider == p
    {
      stockDataList := [];
      provider := p;
    }

    /**
     * `add_stock`: a missing or empty ticker and a case-insensitive duplicate
     * change nothing and download nothing; otherwise one download for the
     * given window, appended on success. Either way the figure of the
     * current list is returned.
     */
    method AddStock(stockTicker: Option<string>, start: Date, end: Date) returns (fig: Figure<P>)
      requires Valid()
      modifies this, provider
      ensures Valid()
      ensures fig == PlotMultipleStocks(stockDataList, ComparisonTitle)
      ensures !Truthy(stockTicker) || AlreadyAdded(Tickers(old(stockDataList)), stockTicker.value) ==>
        stockDataList == old(stockDataList) && unchanged(provider)
      ensures Truthy(stockTicker) && !AlreadyAdded(Tickers(old(stockDataList)), stockTicker.value) ==>
        provider.requests == old(provider.requests) + [FetchRequest(stockTicker.value, start, end)] &&
        provider.replies == old(provider.Rest()) &&
        stockDataList == match old(provider.Next())
          case None => old(stockDataList)
          case Some(data) => old(stockDataList) + [Entry(data, stockTicker.value)]
    {
      if Truthy(stockTicker) {
        var t := stockTicker.value;
        if !AlreadyAdded(Tickers(stockDataList), t) {
          var data := provider.GetStockData(t, start, end);
          if data.Some? {
            AppendKeepsDistinct(Tickers(stockDataList), t);
            TickersAppend(stockDataList, Entry(data.value, t));
            stockDataList := stockDataList + [Entry(data.value, t)];
          }
        }
      }
      fig := PlotMultipleStocks(stockDataList, ComparisonTitle);
    }
  }
}
