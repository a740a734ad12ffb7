/**
 * The tracked-ticker list that the console tracker and the comparison app
 * both keep: a list of `(stock_data, ticker)` pairs, the case-insensitive
 * duplicate check run before every fetch, removal by position, one closing
 * price line per entry, and `get_stock_data`, the call out to the market
 * data provider.
 */
module TrackedList {
  import opened Wrappers
  import opened Text
  import opened StrOrder

  /** What the provider returns for a ticker: the date index and the `Close` column. */
  datatype StockData<P> = StockData(index: seq<Date>, close: seq<P>)

  /** One `(stock_data, ticker)` pair of the tracked list. */
  datatype Entry<P> = Entry(data: StockData<P>, ticker: string)

  function Tickers<P>(entries: seq<Entry<P>>): seq<string> {
    seq(|entries|, i requires 0 <= i < |entries| => entries[i].ticker)
  }

  /** The duplicate check: does some tracked ticker equal `t` once both are lower-cased? */
  function AlreadyAdded(tickers: seq<string>, t: string): (b: bool)
    ensures b <==> exists i :: 0 <= i < |tickers| && Lower(tickers[i]) == Lower(t)
  {
    if tickers == [] then false
    else Lower(tickers[0]) == Lower(t) || AlreadyAdded(tickers[1..], t)
  }

  /** No two tracked tickers are equal once lower-cased. */
  predicate FoldDistinct(tickers: seq<string>) {
    forall i, j :: 0 <= i < j < |tickers| ==> Lower(tickers[i]) != Lower(tickers[j])
  }

  /** Appending a ticker that passed the duplicate check keeps the tickers distinct. */
  lemma AppendKeepsDistinct(tickers: seq<string>, t: string)
    requires FoldDistinct(tickers) && !AlreadyAdded(tickers, t)
    ensures FoldDistinct(tickers + [t])
  {
  }

  /** `del s[k]`: every element before `k` stays put, every one after moves down one. */
  function RemoveAt<T>(s: seq<T>, k: nat): (r: seq<T>)
    requires k < |s|
    ensures |r| == |s| - 1
    ensures forall i :: 0 <= i < k ==> r[i] == s[i]
    ensures forall i :: k <= i < |r| ==> r[i] == s[i + 1]
    ensures multiset(r) + multiset{s[k]} == multiset(s)
  {
    assert s == s[..k] + [s[k]] + s[k + 1..];
    s[..k] + s[k + 1..]
  }

  /** Removing a ticker keeps the remaining ones distinct. */
  lemma RemoveKeepsDistinct(tickers: seq<string>, k: nat)
    requires k < |tickers| && FoldDistinct(tickers)
    ensures FoldDistinct(RemoveAt(tickers, k))
  {
    var r := RemoveAt(tickers, k);
    forall i, j | 0 <= i < j < |r|
      ensures Lower(r[i]) != Lower(r[j])
    {
      var i' := if i < k then i else i + 1;
      var j' := if j < k then j else j + 1;
      assert r[i] == tickers[i'] && r[j] == tickers[j'];
    }
  }

  lemma TickersAppend<P>(entries: seq<Entry<P>>, e: Entry<P>)
    ensures Tickers(entries + [e]) == Tickers(entries) + [e.ticker]
  {
  }

  lemma TickersRemove<P>(entries: seq<Entry<P>>, k: nat)
    requires k < |entries|
    ensures Tickers(RemoveAt(entries, k)) == RemoveAt(Tickers(entries), k)
  {
  }

  /** One line of a comparison plot: x is the date index, y the `Close` column. */
  datatype Trace<P> = Trace(x: seq<Date>, y: seq<P>, kind: string, name: string)

  /** The closing-price lines of a comparison plot, in list order. */
  function ClosingTraces<P>(entries: seq<Entry<P>>): (r: seq<Trace<P>>)
    ensures |r| == |entries|
    ensures forall i :: 0 <= i < |r| ==>
      r[i] == Trace(entries[i].data.index, entries[i].data.close, "line", entries[i].ticker)
  {
    if entries == [] then []
    else
      var e := entries[0];
      [Trace(e.data.index, e.data.close, "line", e.ticker)] + ClosingTraces(entries[1..])
  }

  function TraceNames<P>(traces: seq<Trace<P>>): seq<string> {
    seq(|traces|, i requires 0 <= i < |traces| => traces[i].name)
  }

  /** The lines are labelled by the tracked tickers, so their labels are distinct whenever the tickers are. */
  lemma ClosingTracesNamed<P>(entries: seq<Entry<P>>)
    ensures TraceNames(ClosingTraces(entries)) == Tickers(entries)
    ensures FoldDistinct(Tickers(entries)) ==> FoldDistinct(TraceNames(ClosingTraces(entries)))
  {
  }

  /** One download request: the ticker and the date window asked for. */
  datatype FetchRequest = FetchRequest(ticker: string, start: Date, end: Date)

  /** The answer the next download gets from a reply script; `None` once the script is used up. */
  function NextReply<P>(replies: seq<Option<StockData<P>>>): Option<StockData<P>> {
    if replies == [] then None else replies[0]
  }

  /** The replies left in a script after the next download. */
  function LaterReplies<P>(replies: seq<Option<StockData<P>>>): seq<Option<StockData<P>>> {
    if replies == [] then [] else replies[1..]
  }

  /**
   * The market data provider seen from the trackers: each download is
   * logged in `requests` and answered by the next scripted reply; a reply
   * of `None` (or no reply left) is a download that raised, which
   * `get_stock_data` turns into `None`.
   */
  class Provider<P> {
    var replies: seq<Option<StockData<P>>>
    var requests: seq<FetchRequest>

    constructor (script: seq<Option<StockData<P>>>)
      ensures replies == script && requests == []
    {
      replies := script;
      requests := [];
    }

    /** The answer the next download gets. */
    function Next(): Option<StockData<P>>
      reads this
    {
      NextReply(replies)
    }

    /** The replies left after the next download. */
    function Rest(): seq<Option<StockData<P>>>
      reads this
    {
      LaterReplies(replies)
    }

    /** Downloads one ticker's prices for a date window; `None` when the download fails. */
    method GetStockData(ticker: string, start: Date, end: Date) returns (data: Option<StockData<P>>)
      modifies this
      ensures data == old(Next())
      ensures requests == old(requests) + [FetchRequest(ticker, start, end)]
      ensures replies == old(Rest())
    {
      data := Next();
      replies := Rest();
      requests := requests + [FetchRequest(ticker, start, end)];
    }
  }
}
