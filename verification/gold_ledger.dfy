/**
 * The gold holdings ledger: a table of purchase records keyed by uuid that a
 * form adds to or edits in place, the summary the window shows (grams held,
 * what they cost, realised profit and the average prices), and the value of
 * the holdings at the live quote.
 */
module GoldLedger {
  import opened Wrappers
  import SinaQuotes

  // ---------------------------------------------------------------------
  // Specs and their weights
  // ---------------------------------------------------------------------

  /** The specs offered in the selector. */
  const SpecOptions: seq<string> :=
    ["1g", "3g", "8g", "15g", "20g", "30g", "50g", "57g",
     "1/20oz", "1/10oz", "1/4oz", "1/2oz", "1oz", "59.1g"]

  /** Grams per piece of a spec. */
  function SpecWeight(spec: string): real {
    if spec == "1g" then 1.0
    else if spec == "3g" then 3.0
    else if spec == "8g" then 8.0
    else if spec == "15g" then 15.0
    else if spec == "20g" then 20.0
    else if spec == "30g" then 30.0
    else if spec == "50g" then 50.0
    else if spec == "57g" then 57.0
    else if spec == "1/20oz" then 1.55
    else if spec == "1/10oz" then 3.11
    else if spec == "1/4oz" then 7.77
    else if spec == "1/2oz" then 15.5
    else if spec == "1oz" then 31.1
    else if spec == "59.1g" then 59.1
    else 0.0
  }

  /**
   * Every offered spec weighs something, and anything else (the selector
   * also accepts typed text) weighs nothing.
   */
  lemma SpecWeightSign(spec: string)
    ensures spec in SpecOptions <==> SpecWeight(spec) > 0.0
    ensures spec !in SpecOptions ==> SpecWeight(spec) == 0.0
  {
  }

  // ---------------------------------------------------------------------
  // Records and the form
  // ---------------------------------------------------------------------

  /**
   * One row of the table. `sellDate` is `None` where a saved row has no
   * value (read back as NaN); rows entered through the form always carry
   * the text typed, possibly empty.
   */
  datatype Holding = Holding(
    uuid: string,
    buyDate: string,
    symbol: string,
    buyPrice: real,
    spec: string,
    sellDate: Option<string>,
    sellPrice: real,
    profit: real)

  /** The seven columns a submission writes; everything but the uuid. */
  datatype Values = Values(
    buyDate: string,
    symbol: string,
    buyPrice: real,
    spec: string,
    sellDate: string,
    sellPrice: real,
    profit: real)

  /** A price entry box: empty, text `float` accepts, or text it rejects. */
  datatype PriceText = Blank | Number(value: real) | Unparsable

  /** The form as submitted. */
  datatype Form = Form(
    buyDate: string,
    symbol: string,
    buyPrice: PriceText,
    spec: string,
    sellDate: string,
    sellPrice: PriceText)

  /** Why a submission is refused: a required field is empty, or a price is not a number. */
  datatype FormError = MissingRequired | NotANumber

  /** Buy date, symbol, buy price and spec must all be filled in. */
  predicate HasRequired(f: Form) {
    f.buyDate != "" && f.symbol != "" && !f.buyPrice.Blank? && f.spec != ""
  }

  /**
   * The values a submission writes: the required fields are checked first,
   * then the prices are converted; with a sell price the profit is sell
   * minus buy, without one both the stored sell price and the profit are 0.
   */
  function Submitted(f: Form): (r: Result<Values, FormError>)
    ensures !HasRequired(f) <==> r == Failure(MissingRequired)
    ensures r == Failure(NotANumber) <==>
      HasRequired(f) && (f.buyPrice.Unparsable? || f.sellPrice.Unparsable?)
    ensures r.Success? ==>
      && f.buyPrice.Number? && r.value.buyPrice == f.buyPrice.value
      && r.value.buyDate == f.buyDate && r.value.symbol == f.symbol
      && r.value.spec == f.spec && r.value.sellDate == f.sellDate
    ensures r.Success? && f.sellPrice.Number? ==>
      r.value.sellPrice == f.sellPrice.value && r.value.profit == r.value.sellPrice - r.value.buyPrice
    ensures r.Success? && f.sellPrice.Blank? ==> r.value.sellPrice == 0.0 && r.value.profit == 0.0
  {
    if !HasRequired(f) then Failure(MissingRequired)
    else if f.buyPrice.Unparsable? then Failure(NotANumber)
    else
      var buy := f.buyPrice.value;
      match f.sellPrice
      case Number(sell) => Success(Values(f.buyDate, f.symbol, buy, f.spec, f.sellDate, sell, sell - buy))
      case Blank => Success(Values(f.buyDate, f.symbol, buy, f.spec, f.sellDate, 0.0, 0.0))
      case Unparsable => Failure(NotANumber)
  }

  /** A new row with the given uuid. */
  function NewRow(uuid: string, v: Values): Holding {
    Holding(uuid, v.buyDate, v.symbol, v.buyPrice, v.spec, Some(v.sellDate), v.sellPrice, v.profit)
  }

  /** A row with its seven non-uuid columns overwritten. */
  function Overwritten(h: Holding, v: Values): (r: Holding)
    ensures r.uuid == h.uuid && NewRow(h.uuid, v) == r
  {
    h.(buyDate := v.buyDate, symbol := v.symbol, buyPrice := v.buyPrice, spec := v.spec,
       sellDate := Some(v.sellDate), sellPrice := v.sellPrice, profit := v.profit)
  }

  /** The position of the first row carrying `uuid`, if any. */
  function FirstMatch(rows: seq<Holding>, uuid: string): (r: Option<nat>)
    ensures r.Some? ==> r.value < |rows| && rows[r.value].uuid == uuid
    ensures r.Some? ==> forall j :: 0 <= j < r.value ==> rows[j].uuid != uuid
    ensures r.None? <==> forall j :: 0 <= j < |rows| ==> rows[j].uuid != uuid
  {
    if rows == [] then None
    else if rows[0].uuid == uuid then Some(0)
    else
      match FirstMatch(rows[1..], uuid)
      case Some(k) => Some(k + 1)
      case None =>
        assert forall j :: 1 <= j < |rows| ==> rows[j].uuid == rows[1..][j - 1].uuid;
        None
  }

  // ---------------------------------------------------------------------
  // The summary
  // ---------------------------------------------------------------------

  /** A row is still held when its sell date is missing or empty. */
  predicate Unsold(h: Holding) {
    h.sellDate.None? || h.sellDate == Some("")
  }

  /** The grams a row adds to the total: its spec's weight while it is held. */
  function HeldWeight(h: Holding): real {
    if Unsold(h) then SpecWeight(h.spec) else 0.0
  }

  /** What a row adds to the total buy price: its buy price while it is held. */
  function HeldCost(h: Holding): real {
    if Unsold(h) then h.buyPrice else 0.0
  }

  /** What a row adds to the total profit: its profit, held or sold. */
  function RowProfit(h: Holding): real {
    h.profit
  }

  /** The sum of `f` over the rows. */
  function Sum(rows: seq<Holding>, f: Holding -> real): real {
    if rows == [] then 0.0 else Sum(rows[..|rows| - 1], f) + f(rows[|rows| - 1])
  }

  function TotalWeight(rows: seq<Holding>): real { Sum(rows, HeldWeight) }
  function TotalBuyPrice(rows: seq<Holding>): real { Sum(rows, HeldCost) }
  function TotalProfit(rows: seq<Holding>): real { Sum(rows, RowProfit) }

  /** A sum over one more row adds that row's term. */
  lemma SumStep(rows: seq<Holding>, i: nat, f: Holding -> real)
    requires i < |rows|
    ensures Sum(rows[..i + 1], f) == Sum(rows[..i], f) + f(rows[i])
  {
    assert rows[..i + 1][..i] == rows[..i];
  }

  /** Sums split over concatenation. */
  lemma {:induction false} SumAppend(a: seq<Holding>, b: seq<Holding>, f: Holding -> real)
    ensures Sum(a + b, f) == Sum(a, f) + Sum(b, f)
    decreases |b|
  {
    if b != [] {
      var b' := b[..|b| - 1];
      assert (a + b)[..|a + b| - 1] == a + b';
      SumAppend(a, b', f);
    } else {
      assert a + b == a;
    }
  }

  /** Overwriting row `i` changes each total by the difference of that row's contribution. */
  lemma SumUpdate(rows: seq<Holding>, i: nat, h: Holding, f: Holding -> real)
    requires i < |rows|
    ensures Sum(rows[i := h], f) == Sum(rows, f) - f(rows[i]) + f(h)
  {
    var pre, post := rows[..i], rows[i + 1..];
    assert rows == pre + [rows[i]] + post;
    assert rows[i := h] == pre + [h] + post;
    SumAppend(pre + [rows[i]], post, f);
    SumAppend(pre + [h], post, f);
    SumAppend(pre, [rows[i]], f);
    SumAppend(pre, [h], f);
    assert Sum([rows[i]], f) == f(rows[i]) by { assert [rows[i]][..0] == []; }
    assert Sum([h], f) == f(h) by { assert [h][..0] == []; }
  }

  /** Held grams are never negative. */
  lemma {:induction false} TotalWeightNonNegative(rows: seq<Holding>)
    ensures TotalWeight(rows) >= 0.0
  {
    if rows != [] {
      TotalWeightNonNegative(rows[..|rows| - 1]);
      SpecWeightSign(rows[|rows| - 1].spec);
    }
  }

  /**
   * The total weight is zero exactly when no held row has an offered spec,
   * which is when both averages fall back to zero.
   */
  lemma {:induction false} TotalWeightZero(rows: seq<Holding>)
    ensures TotalWeight(rows) == 0.0 <==>
      forall i :: 0 <= i < |rows| && Unsold(rows[i]) ==> rows[i].spec !in SpecOptions
  {
    if rows != [] {
      var init := rows[..|rows| - 1];
      TotalWeightZero(init);
      TotalWeightNonNegative(init);
      SpecWeightSign(rows[|rows| - 1].spec);
      assert forall i :: 0 <= i < |init| ==> init[i] == rows[i];
    }
  }

  /** The averages: buy price per gram, and buy price less profit per gram. */
  function Averages(totalWeight: real, totalBuyPrice: real, totalProfit: real): (real, real) {
    if totalWeight > 0.0 then (totalBuyPrice / totalWeight, (totalBuyPrice - totalProfit) / totalWeight)
    else (0.0, 0.0)
  }

  /**
   * With grams held, the averages times the weight give back the buy price
   * and the buy price less profit; with none both are zero.
   */
  lemma AveragesScale(totalWeight: real, totalBuyPrice: real, totalProfit: real)
    ensures var avg := Averages(totalWeight, totalBuyPrice, totalProfit);
      totalWeight > 0.0 ==>
        avg.0 * totalWeight == totalBuyPrice && avg.1 * totalWeight == totalBuyPrice - totalProfit
    ensures var avg := Averages(totalWeight, totalBuyPrice, totalProfit);
      totalWeight <= 0.0 ==> avg.0 == 0.0 && avg.1 == 0.0
  {
  }

  // ---------------------------------------------------------------------
  // The live price
  // ---------------------------------------------------------------------

  /** How the quote call ended: it raised, or it returned a price or `None`. */
  datatype PriceFeed = Raised | Returned(price: Option<real>)

  /** Why the refresh as written fails. */
  datatype RefreshError = NoneTimesWeight

  /**
   * The refresh as written: a raised call counts as price 0.0, but a call
   * that returns `None` is multiplied by the weight and raises.
   */
  function RealTimeAsWritten(totalWeight: real, feed: PriceFeed): (r: Result<(real, real), RefreshError>)
    ensures r.Failure? <==> feed == Returned(None)
    ensures r.Success? ==> r.value.1 == totalWeight * r.value.0
  {
    match feed
    case Raised => Success((0.0, totalWeight * 0.0))
    case Returned(Some(p)) => Success((p, totalWeight * p))
    case Returned(None) => Failure(NoneTimesWeight)
  }

  /** The price the refresh uses: the quote when there is one, 0.0 when the call raised or found none. */
  function LivePrice(feed: PriceFeed): (price: real)
    ensures feed.Returned? && feed.price.Some? ==> price == feed.price.value
    ensures !(feed.Returned? && feed.price.Some?) ==> price == 0.0
  {
    match feed
    case Returned(Some(p)) => p
    case _ => 0.0
  }

  /** Wherever the refresh as written succeeds, the corrected price agrees with it. */
  lemma LivePriceAgrees(totalWeight: real, feed: PriceFeed)
    ensures RealTimeAsWritten(totalWeight, feed).Success? ==>
      && RealTimeAsWritten(totalWeight, feed).value.0 == LivePrice(feed)
      && RealTimeAsWritten(totalWeight, feed).value.1 == totalWeight * LivePrice(feed)
  {
    match feed {
      case Raised =>
      case Returned(Some(p)) =>
      case Returned(None) =>
    }
  }

  /**
   * The quote call returns `None` whenever the response has no match or a
   * match fails to parse (the parse error is swallowed into an empty
   * table), and the refresh as written then raises.
   */
  lemma NoQuoteBreaksRefresh(totalWeight: real, text: string, today: string, parseFloat: string -> Option<real>)
    requires SinaQuotes.FindAll(text) == [] || SinaQuotes.Collect(SinaQuotes.FindAll(text), SinaQuotes.ParseHit(today, parseFloat)).Failure?
    ensures RealTimeAsWritten(totalWeight,
      Returned(SinaQuotes.FirstPrice(SinaQuotes.FetchedTable(text, today, parseFloat)))).Failure?
  {
    SinaQuotes.PriceOfFirstSymbol(text, today, parseFloat);
  }

  /** An empty response is such a case. */
  lemma EmptyResponseBreaksRefresh(totalWeight: real, today: string, parseFloat: string -> Option<real>)
    ensures RealTimeAsWritten(totalWeight,
      Returned(SinaQuotes.FirstPrice(SinaQuotes.FetchedTable("", today, parseFloat)))).Failure?
  {
    NoQuoteBreaksRefresh(totalWeight, "", today, parseFloat);
  }

  // ---------------------------------------------------------------------
  // The window's state
  // ---------------------------------------------------------------------

  /** What a submission did. */
  datatype Outcome = Rejected(error: FormError) | Added | Modified(index: nat) | NotFound

  /** The table and the figures shown beside it. */
  class Ledger {
    var rows: seq<Holding>
    var totalWeight: real
    var totalBuyPrice: real
    var totalProfit: real
    var avgBuyPrice: real
    var avgBuyExceptProfitPrice: real
    var currentPrice: real
    var currentValue: real

    /** The summary figures are those of the current rows. */
    ghost predicate SummaryValid()
      reads this
    {
      && totalWeight == TotalWeight(rows)
      && totalBuyPrice == TotalBuyPrice(rows)
      && totalProfit == TotalProfit(rows)
      && avgBuyPrice == Averages(totalWeight, totalBuyPrice, totalProfit).0
      && avgBuyExceptProfitPrice == Averages(totalWeight, totalBuyPrice, totalProfit).1
    }

    /** Between events: the summary is current and the value is weight times price. */
    ghost predicate Valid()
      reads this
    {
      SummaryValid() && currentValue == totalWeight * currentPrice
    }

    /**
     * Opens the window on the saved rows (none when there is no save file),
     * then computes the summary and fetches the price.
     */
    constructor (saved: Option<seq<Holding>>, feed: PriceFeed)
      ensures Valid()
      ensures rows == saved.GetOr([]) && currentPrice == LivePrice(feed)
    {
      rows := saved.GetOr([]);
      new;
      UpdateSummary();
      UpdateRealTime(feed);
    }

    /** Recomputes the totals over the rows, then the averages. */
    method UpdateSummary()
      modifies this
      ensures SummaryValid()
      ensures rows == old(rows) && currentPrice == old(currentPrice) && currentValue == old(currentValue)
    {
      var weight, cost, profit := 0.0, 0.0, 0.0;
      var i := 0;
      while i < |rows|
        invariant 0 <= i <= |rows|
        invariant weight == TotalWeight(rows[..i])
        invariant cost == TotalBuyPrice(rows[..i])
        invariant profit == TotalProfit(rows[..i])
        modifies {}
      {
        var row := rows[i];
        if row.sellDate.None? || row.sellDate == Some("") {
          weight := weight + SpecWeight(row.spec);
          cost := cost + row.buyPrice;
        }
        profit := profit + row.profit;
        SumStep(rows, i, HeldWeight);
        SumStep(rows, i, HeldCost);
        SumStep(rows, i, RowProfit);
        i := i + 1;
      }
      assert rows[..i] == rows;
      totalWeight, totalBuyPrice, totalProfit := weight, cost, profit;
      if totalWeight > 0.0 {
        avgBuyPrice := totalBuyPrice / totalWeight;
        avgBuyExceptProfitPrice := (totalBuyPrice - totalProfit) / totalWeight;
      } else {
        avgBuyPrice := 0.0;
        avgBuyExceptProfitPrice := 0.0;
      }
    }

    /** Takes the live price and values the grams held at it. */
    method UpdateRealTime(feed: PriceFeed)
      requires SummaryValid()
      modifies this
      ensures Valid()
      ensures rows == old(rows) && totalWeight == old(totalWeight)
      ensures currentPrice == LivePrice(feed) && currentValue == totalWeight * currentPrice
    {
      currentPrice := LivePrice(feed);
      currentValue := totalWeight * currentPrice;
    }

    /**
     * The confirm button. With a row selected (given by its uuid) the first
     * row carrying that uuid has its seven other columns overwritten, or an
     * error is shown when there is none; with no selection a row is appended
     * under `freshUuid`. A refused form changes nothing; otherwise the
     * summary and the price are refreshed.
     */
    method AddOrModify(f: Form, selected: Option<string>, freshUuid: string, feed: PriceFeed)
      returns (outcome: Outcome)
      requires Valid()
      modifies this
      ensures Valid()
      ensures Submitted(f).Failure? ==> outcome == Rejected(Submitted(f).error) && unchanged(this)
      ensures Submitted(f).Success? ==> currentPrice == LivePrice(feed)
      ensures Submitted(f).Success? && selected.None? ==>
        outcome == Added && rows == old(rows) + [NewRow(freshUuid, Submitted(f).value)]
      ensures Submitted(f).Success? && selected.Some? && FirstMatch(old(rows), selected.value).Some? ==>
        var i := FirstMatch(old(rows), selected.value).value;
        outcome == Modified(i) && rows == old(rows)[i := Overwritten(old(rows)[i], Submitted(f).value)]
      ensures Submitted(f).Success? && selected.Some? && FirstMatch(old(rows), selected.value).None? ==>
        outcome == NotFound && rows == old(rows)
    {
      var submitted := Submitted(f);
      if submitted.Failure? {
        return Rejected(submitted.error);
      }
      var v := submitted.value;
      match selected {
        case Some(uuid) =>
          var found := FirstMatch(rows, uuid);
          if found.Some? {
            var i := found.value;
            rows := rows[i := Overwritten(rows[i], v)];
            outcome := Modified(i);
          } else {
            outcome := NotFound;
          }
        case None =>
          rows := rows + [NewRow(freshUuid, v)];
          outcome := Added;
      }
      UpdateSummary();
      UpdateRealTime(feed);
    }
  }

  /**
   * A modification changes each total by the difference between the new
   * and the old contribution of the row it overwrote; the other rows
   * count as before.
   */
  lemma ModifiedTotals(rows: seq<Holding>, i: nat, v: Values)
    requires i < |rows|
    ensures var h := Overwritten(rows[i], v);
      && TotalWeight(rows[i := h]) == TotalWeight(rows) - HeldWeight(rows[i]) + HeldWeight(h)
      && TotalBuyPrice(rows[i := h]) == TotalBuyPrice(rows) - HeldCost(rows[i]) + HeldCost(h)
      && TotalProfit(rows[i := h]) == TotalProfit(rows) - rows[i].profit + v.profit
  {
    var h := Overwritten(rows[i], v);
    SumUpdate(rows, i, h, HeldWeight);
    SumUpdate(rows, i, h, HeldCost);
    SumUpdate(rows, i, h, RowProfit);
  }

  /** An added row adds its own contribution to each total. */
  lemma AddedTotals(rows: seq<Holding>, uuid: string, v: Values)
    ensures var h := NewRow(uuid, v);
      && TotalWeight(rows + [h]) == TotalWeight(rows) + (if v.sellDate == "" then SpecWeight(v.spec) else 0.0)
      && TotalBuyPrice(rows + [h]) == TotalBuyPrice(rows) + (if v.sellDate == "" then v.buyPrice else 0.0)
      && TotalProfit(rows + [h]) == TotalProfit(rows) + v.profit
  {
    var h := NewRow(uuid, v);
    assert (rows + [h])[..|rows + [h]| - 1] == rows;
  }
}
