/**
 * The console comparison tracker: a loop that reads tickers, fetches each
 * new one's prices for a fixed window, plots every tracked ticker, and
 * offers to finish or to remove a ticker by its 1-based position.
 */
module Tracker {
  import opened Wrappers
  import opened Text
  import opened StrOrder
  import opened TrackedList

  /** Every download asks for this window. */
  const StartDate: Date := "2020-01-01"
  const EndDate: Date := "2024-01-01"

  const ComparisonTitle := "Stock Comparison"
  const FinalTitle := "Final Stock Comparison"

  /** A plot window: one closing-price line per tracked ticker, with its labels. */
  datatype Plot<P> = Plot(lines: seq<Trace<P>>, title: string, xLabel: string, yLabel: string,
                          legend: bool, grid: bool)

  /** The plot window drawn for the tracked list under the given title. */
  function PlotMultipleStocks<P>(entries: seq<Entry<P>>, title: string): (p: Plot<P>)
    ensures |p.lines| == |entries| && p.title == title
    ensures forall i :: 0 <= i < |entries| ==>
      p.lines[i].name == entries[i].ticker && p.lines[i].y == entries[i].data.close
    ensures p.xLabel == "Date" && p.yLabel == "Closing Price" && p.legend && p.grid
  {
    Plot(ClosingTraces(entries), title, "Date", "Closing Price", true, true)
  }

  /** What a line read at the ticker prompt led to. */
  datatype AddStep = Finished | Duplicate | FetchFailed | Added

  /** The answer to the add / remove / finish menu. */
  datatype MenuChoice = FinishChoice | RemoveChoice | AddAnother

  /** What a line read at the "number to remove" prompt led to. */
  datatype RemoveStep = Removed(position: nat) | OutOfRange | NotANumber

  /** How the session ended: by the user, or by running out of input (`EOFError`). */
  datatype SessionEnd = Completed | InputExhausted

  /** `a` and `b` are the same text once both are lower-cased, compared character by character. */
  predicate SameIgnoringCase(a: string, b: string) {
    |a| == |b| && forall i :: 0 <= i < |a| ==> LowerChar(a[i]) == LowerChar(b[i])
  }

  /** The menu answer, stripped and lower-cased, selects the choice: `finish` and
      `remove` in any case, and anything else adds another ticker. */
  function ParseMenu(answer: string): (m: MenuChoice)
    ensures m == FinishChoice <==> SameIgnoringCase(Strip(answer), "finish")
    ensures m == RemoveChoice <==> SameIgnoringCase(Strip(answer), "remove")
  {
    MenuWords(Strip(answer));
    var a := Lower(Strip(answer));
    if a == "finish" then FinishChoice
    else if a == "remove" then RemoveChoice
    else AddAnother
  }

  /** Lower-casing `a` gives the lower-case word `w` exactly when `a` is `w` ignoring case. */
  lemma LowerMatches(a: string, w: string)
    requires forall i :: 0 <= i < |w| ==> !('A' <= w[i] <= 'Z')
    ensures Lower(a) == w <==> SameIgnoringCase(a, w)
  {
    if SameIgnoringCase(a, w) {
      forall i | 0 <= i < |a|
        ensures Lower(a)[i] == w[i]
      {
        assert LowerChar(w[i]) == w[i];
      }
    }
    if Lower(a) == w {
      forall i | 0 <= i < |a|
        ensures LowerChar(a[i]) == LowerChar(w[i])
      {
        assert LowerChar(w[i]) == w[i];
      }
    }
  }

  lemma MenuWords(t: string)
    ensures Lower(t) == "finish" <==> SameIgnoringCase(t, "finish")
    ensures Lower(t) == "remove" <==> SameIgnoringCase(t, "remove")
  {
    var finish, remove := "finish", "remove";
    assert forall i :: 0 <= i < |finish| ==> !('A' <= finish[i] <= 'Z');
    assert forall i :: 0 <= i < |remove| ==> !('A' <= remove[i] <= 'Z');
    LowerMatches(t, finish);
    LowerMatches(t, remove);
  }

  /** Case and surrounding whitespace do not affect the menu choice. */
  lemma MenuIgnoresCaseAndPadding(w1: string, answer: string, w2: string)
    requires AllBlank(StrBlanks, w1) && AllBlank(StrBlanks, w2)
    ensures ParseMenu(w1 + answer + w2) == ParseMenu(answer)
    ensures ParseMenu(Lower(answer)) == ParseMenu(answer)
  {
    StripIgnoresPadding(w1, answer, w2);
    LowerCommutesWithStrip(answer);
    LowerIdempotent(Strip(answer));
  }

  /** The 0-based position a line typed at the removal prompt deletes, if any. */
  function RemovalIndex(line: string, count: nat): (k: Option<nat>)
    ensures k.Some? ==> k.value < count
  {
    match ParseInt(line)
    case None => None
    case Some(n) => if 0 <= n - 1 < count then Some(n - 1) else None
  }

  /** Typing the number the listing prints beside entry `i` removes exactly entry `i`;
      no number at all, or one outside `1..count`, removes nothing. */
  lemma RemovalIndexOfListing(w1: string, i: nat, w2: string, count: nat)
    requires AllBlank(IntBlanks, w1) && AllBlank(IntBlanks, w2) && i < count
    requires |Decimal(i + 1)| <= MaxStrDigits
    ensures RemovalIndex(w1 + Show(i + 1) + w2, count) == Some(i)
  {
    ParseShowRoundTrip(w1, i + 1, w2);
  }

  lemma RemovalIndexRange(line: string, count: nat)
    ensures RemovalIndex(line, count).Some? <==>
      ParseInt(line).Some? && 1 <= ParseInt(line).value <= count
  {
  }

  /** The tracker's state as a value: the tracked list, the provider's unused replies and its request log. */
  datatype Tracked<P> = Tracked(list: seq<Entry<P>>, replies: seq<Option<StockData<P>>>,
                                requests: seq<FetchRequest>)

  /** Tickers are distinct ignoring case, and every download asked for the fixed window. */
  predicate TrackedInv<P>(st: Tracked<P>) {
    FoldDistinct(Tickers(st.list)) &&
    forall r :: r in st.requests ==> r.start == StartDate && r.end == EndDate
  }

  /** Every tracked ticker was the subject of some download request. */
  predicate Downloaded<P>(st: Tracked<P>) {
    forall i :: 0 <= i < |st.list| ==> exists j :: 0 <= j < |st.requests| && st.requests[j].ticker == st.list[i].ticker
  }

  /** One pass of the ticker prompt: strip the line, then add the stripped ticker. */
  function AddTickerStep<P>(st: Tracked<P>, line: string): (AddStep, Tracked<P>) {
    AddStripped(st, Strip(line))
  }

  /** The ticker prompt on the stripped ticker `t`: end on empty input,
      reject a case-insensitive duplicate before downloading, append on a
      successful download. */
  function AddStripped<P>(st: Tracked<P>, t: string): (AddStep, Tracked<P>) {
    if t == [] then (Finished, st)
    else if AlreadyAdded(Tickers(st.list), t) then (Duplicate, st)
    else
      var fetched := st.(replies := LaterReplies(st.replies),
                         requests := st.requests + [FetchRequest(t, StartDate, EndDate)]);
      match NextReply(st.replies)
      case None => (FetchFailed, fetched)
      case Some(data) => (Added, fetched.(list := st.list + [Entry(data, t)]))
  }

  /** The removal prompt: `int(line) - 1` must be a position of the list. */
  function RemoveStepOf<P>(list: seq<Entry<P>>, line: string): (RemoveStep, seq<Entry<P>>) {
    match RemovalIndex(line, |list|)
    case Some(k) => (Removed(k), RemoveAt(list, k))
    case None => (if ParseInt(line).None? then NotANumber else OutOfRange, list)
  }

  /** The ticker prompt keeps the invariant. */
  lemma AddStrippedKeepsInv<P>(st: Tracked<P>, t: string)
    requires TrackedInv(st)
    ensures TrackedInv(AddStripped(st, t).1)
  {
    if t != [] && !AlreadyAdded(Tickers(st.list), t) && NextReply(st.replies).Some? {
      AppendKeepsDistinct(Tickers(st.list), t);
      TickersAppend(st.list, Entry(NextReply(st.replies).value, t));
    }
  }

  /** Only a successful add changes the list, and it appends exactly one entry. */
  lemma AddStrippedGrowsOnlyOnAdd<P>(st: Tracked<P>, t: string)
    ensures var (step, st') := AddStripped(st, t);
      if step == Added then |st'.list| == |st.list| + 1 && st'.list[..|st.list|] == st.list
      else st'.list == st.list
  {
    var st' := AddStripped(st, t).1;
    if AddStripped(st, t).0 == Added {
      assert st'.list[..|st.list|] == st.list;
    }
  }

  /** The ticker prompt only appends to the request log, and tracks only tickers it downloaded. */
  lemma AddStrippedDownloads<P>(st: Tracked<P>, t: string)
    ensures st.requests <= AddStripped(st, t).1.requests
    ensures Downloaded(st) ==> Downloaded(AddStripped(st, t).1)
  {
    var st' := AddStripped(st, t).1;
    if t != [] && !AlreadyAdded(Tickers(st.list), t) && Downloaded(st) {
      var req := FetchRequest(t, StartDate, EndDate);
      assert st'.requests == st.requests + [req];
      forall i | 0 <= i < |st'.list|
        ensures exists j :: 0 <= j < |st'.requests| && st'.requests[j].ticker == st'.list[i].ticker
      {
        if i < |st.list| {
          var j :| 0 <= j < |st.requests| && st.requests[j].ticker == st.list[i].ticker;
          assert st'.requests[j] == st.requests[j];
        } else {
          assert st'.requests[|st.requests|] == req;
        }
      }
    }
  }

  /** The removal prompt keeps the invariant. */
  lemma RemoveStepKeepsInv<P>(st: Tracked<P>, line: string)
    requires TrackedInv(st)
    ensures TrackedInv(st.(list := RemoveStepOf(st.list, line).1))
  {
    var k := RemovalIndex(line, |st.list|);
    if k.Some? {
      RemoveKeepsDistinct(Tickers(st.list), k.value);
      TickersRemove(st.list, k.value);
    }
  }

  /** The removal prompt only drops tickers, so every one left was downloaded. */
  lemma RemoveStepDownloads<P>(st: Tracked<P>, line: string)
    requires Downloaded(st)
    ensures Downloaded(st.(list := RemoveStepOf(st.list, line).1))
  {
    var k := RemovalIndex(line, |st.list|);
    if k.Some? {
      var st' := st.(list := RemoveAt(st.list, k.value));
      forall i | 0 <= i < |st'.list|
        ensures exists j :: 0 <= j < |st'.requests| && st'.requests[j].ticker == st'.list[i].ticker
      {
        var i' := if i < k.value then i else i + 1;
        assert st'.list[i] == st.list[i'];
      }
    }
  }

  /** How the session loop ended, the state it left, and the plots it showed, in order. */
  datatype Outcome<P> = Outcome(end: SessionEnd, state: Tracked<P>, shown: seq<Plot<P>>)

  /** `o` with the plots `ps` shown before its own. */
  function ShownFirst<P>(ps: seq<Plot<P>>, o: Outcome<P>): Outcome<P> {
    o.(shown := ps + o.shown)
  }

  lemma ShownTwice<P>(a: seq<Plot<P>>, b: seq<Plot<P>>, o: Outcome<P>)
    ensures ShownFirst(a, ShownFirst(b, o)) == ShownFirst(a + b, o)
  {
    assert a + (b + o.shown) == (a + b) + o.shown;
  }

  /**
   * The `while True` loop of the session from state `st` over the lines the
   * user has yet to type, starting at the ticker prompt.
   */
  function Session<P>(st: Tracked<P>, lines: seq<string>): Outcome<P>
    decreases |lines|, 1
  {
    if lines == [] then Outcome(InputExhausted, st, [])
    else
      var added := AddTickerStep(st, lines[0]);
      if added.0 == Finished then Outcome(Completed, added.1, [])
      else if added.0 == Added then AfterAdd(added.1, lines[1..])
      else Session(added.1, lines[1..])
  }

  /**
   * The rest of a loop pass after a successful add: the comparison plot,
   * then the menu answer, and after `remove` the number to remove.
   */
  function AfterAdd<P>(st: Tracked<P>, lines: seq<string>): Outcome<P>
    decreases |lines|, 0
  {
    var plot := PlotMultipleStocks(st.list, ComparisonTitle);
    if lines == [] then Outcome(InputExhausted, st, [plot])
    else
      var choice := ParseMenu(lines[0]);
      if choice == FinishChoice then Outcome(Completed, st, [plot])
      else if choice == AddAnother then ShownFirst([plot], Session(st, lines[1..]))
      else if |lines| == 1 then Outcome(InputExhausted, st, [plot])
      else ShownFirst([plot], Session(st.(list := RemoveStepOf(st.list, lines[1]).1), lines[2..]))
  }

  /** The loop keeps the invariant, tracks only tickers it downloaded, only
      appends to the request log, and shows only comparison plots. */
  lemma {:induction false} SessionKeeps<P>(st: Tracked<P>, lines: seq<string>)
    ensures var o := Session(st, lines);
      (TrackedInv(st) ==> TrackedInv(o.state)) &&
      (Downloaded(st) ==> Downloaded(o.state)) &&
      st.requests <= o.state.requests &&
      forall k :: 0 <= k < |o.shown| ==> o.shown[k].title == ComparisonTitle
    decreases |lines|, 1
  {
    if lines != [] {
      var added := AddTickerStep(st, lines[0]);
      if TrackedInv(st) {
        AddStrippedKeepsInv(st, Strip(lines[0]));
      }
      AddStrippedDownloads(st, Strip(lines[0]));
      if added.0 == Added {
        AfterAddKeeps(added.1, lines[1..]);
      } else if added.0 != Finished {
        SessionKeeps(added.1, lines[1..]);
      }
    }
  }

  lemma {:induction false} AfterAddKeeps<P>(st: Tracked<P>, lines: seq<string>)
    ensures var o := AfterAdd(st, lines);
      (TrackedInv(st) ==> TrackedInv(o.state)) &&
      (Downloaded(st) ==> Downloaded(o.state)) &&
      st.requests <= o.state.requests &&
      forall k :: 0 <= k < |o.shown| ==> o.shown[k].title == ComparisonTitle
    decreases |lines|, 0
  {
    if lines != [] {
      var choice := ParseMenu(lines[0]);
      if choice == AddAnother {
        SessionKeeps(st, lines[1..]);
      } else if choice == RemoveChoice && |lines| > 1 {
        var st2 := st.(list := RemoveStepOf(st.list, lines[1]).1);
        if TrackedInv(st) {
          RemoveStepKeepsInv(st, lines[1]);
        }
        if Downloaded(st) {
          RemoveStepDownloads(st, lines[1]);
        }
        SessionKeeps(st2, lines[2..]);
      }
    }
  }

  /** An empty ticker line ends the session at once and changes nothing. */
  lemma SessionEndsOnEmptyTicker<P>(st: Tracked<P>, lines: seq<string>)
    requires lines != [] && Strip(lines[0]) == []
    ensures Session(st, lines) == Outcome(Completed, st, [])
  {
  }

  /** A duplicate ticker, or one whose download fails, keeps the list and goes
      back to the ticker prompt with the next line. */
  lemma SessionSkipsUnaddedTicker<P>(st: Tracked<P>, lines: seq<string>)
    requires lines != []
    requires AddTickerStep(st, lines[0]).0 == Duplicate || AddTickerStep(st, lines[0]).0 == FetchFailed
    ensures Session(st, lines) == Session(AddTickerStep(st, lines[0]).1, lines[1..])
    ensures AddTickerStep(st, lines[0]).1.list == st.list
  {
    assert AddTickerStep(st, lines[0]) == AddStripped(st, Strip(lines[0]));
    AddStrippedGrowsOnlyOnAdd(st, Strip(lines[0]));
  }

  /** `finish` after a successful add ends the session with one entry added and its plot shown. */
  lemma SessionFinishAfterAdd<P>(st: Tracked<P>, lines: seq<string>)
    requires |lines| >= 2 && AddTickerStep(st, lines[0]).0 == Added && ParseMenu(lines[1]) == FinishChoice
    ensures var st1 := AddTickerStep(st, lines[0]).1;
      Session(st, lines) == Outcome(Completed, st1, [PlotMultipleStocks(st1.list, ComparisonTitle)]) &&
      |st1.list| == |st.list| + 1 && st1.list[..|st.list|] == st.list
  {
    var tail := lines[1..];
    assert tail[0] == lines[1];
    assert AddTickerStep(st, lines[0]) == AddStripped(st, Strip(lines[0]));
    AddStrippedGrowsOnlyOnAdd(st, Strip(lines[0]));
  }

  /** Any answer but `finish` or `remove` keeps the list as it is and goes back to the ticker prompt. */
  lemma SessionContinuesOnOtherAnswer<P>(st: Tracked<P>, lines: seq<string>)
    requires |lines| >= 2 && AddTickerStep(st, lines[0]).0 == Added && ParseMenu(lines[1]) == AddAnother
    ensures var st1 := AddTickerStep(st, lines[0]).1;
      Session(st, lines) == ShownFirst([PlotMultipleStocks(st1.list, ComparisonTitle)], Session(st1, lines[2..]))
  {
    var tail := lines[1..];
    assert tail[0] == lines[1] && tail[1..] == lines[2..];
    SessionAfterAdded(st, lines);
    AfterAddOnOtherAnswer(AddTickerStep(st, lines[0]).1, tail);
  }

  lemma SessionAfterAdded<P>(st: Tracked<P>, lines: seq<string>)
    requires lines != [] && AddTickerStep(st, lines[0]).0 == Added
    ensures Session(st, lines) == AfterAdd(AddTickerStep(st, lines[0]).1, lines[1..])
  {
  }

  lemma AfterAddOnOtherAnswer<P>(st: Tracked<P>, lines: seq<string>)
    requires lines != [] && ParseMenu(lines[0]) == AddAnother
    ensures AfterAdd(st, lines) == ShownFirst([PlotMultipleStocks(st.list, ComparisonTitle)], Session(st, lines[1..]))
  {
  }

  /** The tracker's state: the list of `(stock_data, ticker)` pairs and the provider it downloads from. */
  class StockTracker<P> {
    var stockDataList: seq<Entry<P>>
    const provider: Provider<P>

    /** The tracker's state as a value. */
    function State(): Tracked<P>
      reads this, provider
    {
      Tracked(stockDataList, provider.replies, provider.requests)
    }

    ghost predicate Valid()
      reads this, provider
    {
      TrackedInv(State())
    }

    constructor (script: seq<Option<StockData<P>>>)
      ensures Valid() && fresh(provider)
      ensures stockDataList == [] && provider.requests == [] && provider.replies == script
    {
      stockDataList := [];
      provider := new Provider(script);
    }

    /** One pass of the ticker prompt. */
    method AddTicker(line: string) returns (step: AddStep)
      requires Valid()
      modifies this, provider
      ensures Valid()
      ensures (step, State()) == AddTickerStep(old(State()), line)
      ensures var t := Strip(line);
        if t == [] then
          step == Finished && stockDataList == old(stockDataList) && unchanged(provider)
        else if AlreadyAdded(Tickers(old(stockDataList)), t) then
          step == Duplicate && stockDataList == old(stockDataList) && unchanged(provider)
        else
          provider.requests == old(provider.requests) + [FetchRequest(t, StartDate, EndDate)] &&
          provider.replies == old(provider.Rest()) &&
          match old(provider.Next())
          case None => step == FetchFailed && stockDataList == old(stockDataList)
          case Some(data) => step == Added && stockDataList == old(stockDataList) + [Entry(data, t)]
    {
      AddStrippedKeepsInv(State(), Strip(line));
      var t := Strip(line);
      if t == [] {
        return Finished;
      }
      if AlreadyAdded(Tickers(stockDataList), t) {
        return Duplicate;
      }
      var data := provider.GetStockData(t, StartDate, EndDate);
      match data
      case None =>
        step := FetchFailed;
      case Some(d) =>
        stockDataList := stockDataList + [Entry(d, t)];
        step := Added;
    }

    /** The removal prompt: `int(line) - 1` must be a position of the list. */
    method Remove(line: string) returns (step: RemoveStep)
      requires Valid()
      modifies this
      ensures Valid()
      ensures (step, stockDataList) == RemoveStepOf(old(stockDataList), line)
      ensures match RemovalIndex(line, |old(stockDataList)|)
        case Some(k) => step == Removed(k) && stockDataList == RemoveAt(old(stockDataList), k)
        case None => stockDataList == old(stockDataList) &&
                     step == (if ParseInt(line).None? then NotANumber else OutOfRange)
    {
      RemoveStepKeepsInv(State(), line);
      match RemovalIndex(line, |stockDataList|)
      case Some(k) =>
        stockDataList := RemoveAt(stockDataList, k);
        step := Removed(k);
      case None =>
        step := if ParseInt(line).None? then NotANumber else OutOfRange;
    }

    /**
     * One pass of the `while True` loop's body, from line `pos`: the ticker
     * prompt and, after a successful add, the rest of the pass. Returns where
     * the next pass starts, the plots this pass showed, and how the session
     * ended if it ended here.
     */
    method Pass(lines: seq<string>, pos: nat) returns (next: nat, ended: Option<SessionEnd>, plots: seq<Plot<P>>)
      requires Valid() && pos < |lines|
      modifies this, provider
      ensures Valid() && pos < next <= |lines|
      ensures Session(old(State()), lines[pos..]) ==
        if ended.Some? then Outcome(ended.value, State(), plots)
        else ShownFirst(plots, Session(State(), lines[next..]))
    {
      ghost var rest := lines[pos..];
      assert rest[0] == lines[pos] && rest[1..] == lines[pos + 1..];
      var step := AddTicker(lines[pos]);
      if step == Finished {
        return pos + 1, Some(Completed), [];
      }
      if step != Added {
        assert [] + Session(State(), lines[pos + 1..]).shown == Session(State(), lines[pos + 1..]).shown;
        return pos + 1, None, [];
      }
      assert Session(old(State()), rest) == AfterAdd(State(), lines[pos + 1..]);
      next, ended, plots := ShowAndAsk(lines, pos + 1);
    }

    /**
     * The rest of a pass after a successful add, from line `pos`: show the
     * comparison plot, read the menu answer, and after `remove` read the
     * number and remove.
     */
    method ShowAndAsk(lines: seq<string>, pos: nat) returns (next: nat, ended: Option<SessionEnd>, plots: seq<Plot<P>>)
      requires Valid() && pos <= |lines|
      modifies this
      ensures Valid() && pos <= next <= |lines|
      ensures ended.None? ==> pos < next
      ensures AfterAdd(old(State()), lines[pos..]) ==
        if ended.Some? then Outcome(ended.value, State(), plots)
        else ShownFirst(plots, Session(State(), lines[next..]))
    {
      var plot := PlotMultipleStocks(stockDataList, ComparisonTitle);
      plots := [plot];
      ghost var rest := lines[pos..];
      if pos == |lines| {
        return pos, Some(InputExhausted), plots;
      }
      assert rest[0] == lines[pos] && rest[1..] == lines[pos + 1..];
      var choice := ParseMenu(lines[pos]);
      next := pos + 1;
      if choice == FinishChoice {
        return next, Some(Completed), plots;
      }
      if choice == RemoveChoice {
        if next == |lines| {
          return next, Some(InputExhausted), plots;
        }
        assert rest[1] == lines[next] && rest[2..] == lines[next + 1..];
        var _ := Remove(lines[next]);
        next := next + 1;
      }
      ended := None;
    }

    /**
     * The `while True` loop of the session over the lines the user types.
     * Returns how it ended and the plots shown after each successful add;
     * the outcome and the new state are those of `Session`.
     */
    method Interact(lines: seq<string>) returns (end: SessionEnd, shown: seq<Plot<P>>)
      requires Valid()
      modifies this, provider
      ensures Valid()
      ensures Session(old(State()), lines) == Outcome(end, State(), shown)
    {
      var pos := 0;
      shown := [];
      while true
        invariant Valid() && pos <= |lines|
        invariant Session(old(State()), lines) == ShownFirst(shown, Session(State(), lines[pos..]))
        decreases |lines| - pos
      {
        if pos == |lines| {
          return InputExhausted, shown;
        }
        var next, ended, plots := Pass(lines, pos);
        ShownTwice(shown, plots, Session(State(), lines[next..]));
        shown := shown + plots;
        if ended.Some? {
          return ended.value, shown;
        }
        pos := next;
      }
    }

    /**
     * The whole console session: the loop, then the final plot, shown only
     * when the session completes with tickers left. Returns how it ended and
     * every plot shown, in order.
     */
    method RunSession(lines: seq<string>) returns (end: SessionEnd, shown: seq<Plot<P>>)
      requires Valid()
      modifies this, provider
      ensures Valid()
      ensures var o := Session(old(State()), lines);
        end == o.end && State() == o.state &&
        shown == o.shown + (if end == Completed && o.state.list != []
                            then [PlotMultipleStocks(o.state.list, FinalTitle)] else [])
      ensures forall k :: 0 <= k < |shown| && shown[k].title != ComparisonTitle ==>
        k == |shown| - 1 && end == Completed
      ensures end == Completed ==>
        (stockDataList != [] <==>
          |shown| > 0 && shown[|shown| - 1] == PlotMultipleStocks(stockDataList, FinalTitle))
    {
      SessionKeeps(State(), lines);
      end, shown := Interact(lines);
      if end == Completed && stockDataList != [] {
        shown := shown + [PlotMultipleStocks(stockDataList, FinalTitle)];
      }
      assert ComparisonTitle != FinalTitle;
      if end == Completed && stockDataList == [] && shown != [] {
        assert shown[|shown| - 1].title == ComparisonTitle;
      }
    }
  }
}
