/** The quick-trade panel of a stock's detail view: a quantity field that
    accepts only digits, a buy/sell selector, and a trade handler that checks
    login, quantity, funds or holdings in that order before it hands a
    transaction record to the ledger save. Money is in integer cents. */
module Trading {

  import opened Optional
  import opened Digits

  datatype Side = Buy | Sell

  /** What the panel reads from the shared store on each render. */
  datatype Store = Store(userId: Option<string>, balance: int)

  /** The properties the panel is given; a missing `currentShares` is passed as 0. */
  datatype Props = Props(symbol: string, price: int, currentShares: int)

  /** The record handed to the ledger save. */
  datatype TransactionRecord = TransactionRecord(
    userId: string,
    symbol: string,
    companyName: string,
    side: Side,
    shares: nat,
    price: int,
    total: int,
    timestamp: int)

  /** The calls the handler makes outside the component, in order. */
  datatype Effect =
    | DispatchBuyStock(symbol: string, shares: nat, price: int)
    | SaveTransaction(record: TransactionRecord)

  datatype TradeOutcome =
    | LoginRequired
    | InvalidQuantity
    | InsufficientFunds
    | InsufficientShares
    | Succeeded(record: TransactionRecord)
    | Failed

  datatype TradeStep = TradeStep(outcome: TradeOutcome, effects: seq<Effect>)

  /** How the outside calls answer one press: whether the `buyStock` dispatch
      throws synchronously, and whether the ledger save resolves. */
  datatype Replies = Replies(dispatchThrows: bool, saveResolves: bool)

  /** The press ended at one of the four checks. */
  predicate Rejection(outcome: TradeOutcome)
  {
    outcome in {LoginRequired, InvalidQuantity, InsufficientFunds, InsufficientShares}
  }

  /** `!userId` is true both for a missing user and for an empty id. */
  predicate LoggedIn(userId: Option<string>)
  {
    userId.Some? && userId.value != ""
  }

  /** The quantity test of the handler: `isNaN(shares) || shares <= 0` fails. */
  predicate QuantityOk(quantity: string)
    requires IsDigitString(quantity)
  {
    var shares := ParseInt(quantity);
    shares.Some? && shares.value > 0
  }

  /** The trade button's `disabled` expression `!quantity || parseInt(quantity) <= 0`,
      where a NaN never compares as `<= 0`: the button is disabled exactly
      while the quantity has no non-zero digit. */
  predicate TradeButtonDisabled(quantity: string)
    requires IsDigitString(quantity)
    ensures TradeButtonDisabled(quantity) <==> AllZeros(quantity)
  {
    quantity == [] || (ParseInt(quantity).Some? && ParseInt(quantity).value <= 0)
  }

  /** `estimatedTotal`: the empty quantity shows 0, any other parses and is
      multiplied by the price. */
  function EstimatedTotal(quantity: string, price: int): (t: int)
    requires IsDigitString(quantity)
    ensures TradeButtonDisabled(quantity) ==> t == 0
    ensures !TradeButtonDisabled(quantity) ==> t == ParseInt(quantity).value * price
  {
    if quantity == [] then 0 else Value(quantity) * price
  }

  /** `handleTrade` on the quantity and side in the component's state, the
      store and props of the current render, the clock reading `now`, and how
      the dispatch and the save answer. A rejection makes no outside call; a
      success comes only after the save of the record it returns. */
  function Trade(store: Store, props: Props, side: Side, quantity: string, now: int, replies: Replies): (step: TradeStep)
    requires IsDigitString(quantity)
    ensures Rejection(step.outcome) <==> step.effects == []
    ensures step.outcome.Succeeded? ==>
      step.effects[|step.effects| - 1] == SaveTransaction(step.outcome.record)
  {
    if !LoggedIn(store.userId) then TradeStep(LoginRequired, [])
    else if !QuantityOk(quantity) then TradeStep(InvalidQuantity, [])
    else
      var shares := Value(quantity);
      var total := shares * props.price;
      var record := TransactionRecord(store.userId.value, props.symbol, props.symbol,
                                      side, shares, props.price, total, now);
      var outcome := if replies.saveResolves then Succeeded(record) else Failed;
      match side
      case Buy =>
        var dispatch := DispatchBuyStock(props.symbol, shares, props.price);
        if total > store.balance then TradeStep(InsufficientFunds, [])
        else if replies.dispatchThrows then TradeStep(Failed, [dispatch])
        else TradeStep(outcome, [dispatch, SaveTransaction(record)])
      case Sell =>
        if shares > props.currentShares then TradeStep(InsufficientShares, [])
        else TradeStep(outcome, [SaveTransaction(record)])
  }

  /** The component's state: the quantity text and the selected side. */
  class QuickTrade {
    var quantity: string
    var tradeType: Side

    /** The quantity is always a digit string. */
    ghost predicate Valid()
      reads this
    {
      IsDigitString(quantity)
    }

    constructor ()
      ensures Valid()
      ensures quantity == [] && tradeType == Buy
    {
      quantity := [];
      tradeType := Buy;
    }

    /** `handleQuantityChange`: the text replaces the quantity only if it is
        all digits. */
    method HandleQuantityChange(text: string)
      requires Valid()
      modifies this`quantity
      ensures Valid()
      ensures IsDigitString(text) ==> quantity == text
      ensures !IsDigitString(text) ==> quantity == old(quantity)
    {
      if IsDigitString(text) {
        quantity := text;
      }
    }

    /** The BUY and SELL selector buttons; SELL is disabled while the user
        holds no shares, so pressing it then changes nothing. */
    method SelectTradeType(side: Side, currentShares: int)
      modifies this`tradeType
      ensures tradeType == if side == Sell && currentShares == 0 then old(tradeType) else side
    {
      if !(side == Sell && currentShares == 0) {
        tradeType := side;
      }
    }

    /** `handleTrade`: returns the outcome and the external calls made, and
        clears the quantity only after a successful save. */
    method HandleTrade(store: Store, props: Props, now: int, replies: Replies)
      returns (outcome: TradeOutcome, effects: seq<Effect>)
      requires Valid()
      modifies this`quantity
      ensures Valid()
      ensures TradeStep(outcome, effects) == Trade(store, props, tradeType, old(quantity), now, replies)
      ensures quantity == if outcome.Succeeded? then [] else old(quantity)
    {
      effects := [];
      if !LoggedIn(store.userId) {
        return LoginRequired, effects;
      }
      var parsed := ParseInt(quantity);
      if parsed.None? || parsed.value <= 0 {
        return InvalidQuantity, effects;
      }
      var shares := parsed.value;
      var total := shares * props.price;
      var record := TransactionRecord(store.userId.value, props.symbol, props.symbol,
                                      tradeType, shares, props.price, total, now);
      if tradeType == Buy {
        if total > store.balance {
          return InsufficientFunds, effects;
        }
        effects := effects + [DispatchBuyStock(props.symbol, shares, props.price)];
        if replies.dispatchThrows {
          return Failed, effects;
        }
      } else {
        if shares > props.currentShares {
          return InsufficientShares, effects;
        }
      }
      effects := effects + [SaveTransaction(record)];
      if replies.saveResolves {
        quantity := [];
        outcome := Succeeded(record);
      } else {
        outcome := Failed;
      }
    }
  }

  /** Passing every check: logged in, a positive quantity, and enough funds
      for a buy or enough shares for a sell. */
  predicate Approved(store: Store, props: Props, side: Side, quantity: string)
    requires IsDigitString(quantity)
  {
    LoggedIn(store.userId) && QuantityOk(quantity) &&
    match side
    case Buy => Value(quantity) * props.price <= store.balance
    case Sell => Value(quantity) <= props.currentShares
  }

  /** An approved press reaches the save unless it is a buy whose dispatch
      throws. */
  predicate ReachesSave(side: Side, replies: Replies)
  {
    side == Sell || !replies.dispatchThrows
  }

  /** Without a signed-in user the answer is LoginRequired, whatever else
      holds, and nothing is dispatched or saved. */
  lemma LoginCheckedFirst(store: Store, props: Props, side: Side, quantity: string, now: int, replies: Replies)
    requires IsDigitString(quantity)
    requires !LoggedIn(store.userId)
    ensures Trade(store, props, side, quantity, now, replies) == TradeStep(LoginRequired, [])
  {
  }

  /** After login, an empty or all-zero quantity ("", "0", "000") is
      InvalidQuantity with no calls made, and a positive one never is. */
  lemma InvalidQuantityExactly(store: Store, props: Props, side: Side, quantity: string, now: int, replies: Replies)
    requires IsDigitString(quantity)
    requires LoggedIn(store.userId)
    ensures var step := Trade(store, props, side, quantity, now, replies);
      (step.outcome == InvalidQuantity <==> AllZeros(quantity)) &&
      (AllZeros(quantity) ==> step.effects == [])
  {
  }

  /** A buy is refused for funds exactly when its cost exceeds the balance;
      a cost equal to the balance goes through. */
  lemma FundsBoundary(store: Store, props: Props, quantity: string, now: int, replies: Replies)
    requires IsDigitString(quantity)
    requires LoggedIn(store.userId) && QuantityOk(quantity)
    ensures var step := Trade(store, props, Buy, quantity, now, replies);
      (step.outcome == InsufficientFunds <==> Value(quantity) * props.price > store.balance) &&
      (step.outcome == InsufficientFunds ==> step.effects == [])
  {
  }

  /** A sell is refused for holdings exactly when it asks for more shares
      than are held; selling all of them goes through. */
  lemma SharesBoundary(store: Store, props: Props, quantity: string, now: int, replies: Replies)
    requires IsDigitString(quantity)
    requires LoggedIn(store.userId) && QuantityOk(quantity)
    ensures var step := Trade(store, props, Sell, quantity, now, replies);
      (step.outcome == InsufficientShares <==> Value(quantity) > props.currentShares) &&
      (step.outcome == InsufficientShares ==> step.effects == [])
  {
  }

  /** Calls are made exactly when every check passes; then the press
      succeeds exactly when the save resolves and, for a buy, the dispatch
      did not throw. */
  lemma EffectsOnlyWhenApproved(store: Store, props: Props, side: Side, quantity: string, now: int, replies: Replies)
    requires IsDigitString(quantity)
    ensures var step := Trade(store, props, side, quantity, now, replies);
      (step.effects != [] <==> Approved(store, props, side, quantity)) &&
      (Approved(store, props, side, quantity) ==>
         (step.outcome.Succeeded? <==> replies.saveResolves && !(side == Buy && replies.dispatchThrows)) &&
         (step.outcome == Failed <==> !replies.saveResolves || (side == Buy && replies.dispatchThrows)))
  {
  }

  /** The saved record carries the selected side, the parsed shares, the
      price, their product as total, the symbol as company name, the bound
      user and the clock reading; on success it is also the one returned. */
  lemma RecordContents(store: Store, props: Props, side: Side, quantity: string, now: int, replies: Replies)
    requires IsDigitString(quantity)
    requires Approved(store, props, side, quantity)
    ensures var step := Trade(store, props, side, quantity, now, replies);
      ReachesSave(side, replies) ==>
        var r := step.effects[|step.effects| - 1].record;
        step.effects[|step.effects| - 1].SaveTransaction? &&
        r.side == side && r.shares == Value(quantity) && r.price == props.price &&
        r.total == r.shares * r.price && r.companyName == props.symbol &&
        r.symbol == props.symbol && r.userId == store.userId.value && r.timestamp == now &&
        (replies.saveResolves ==> step.outcome == Succeeded(r))
  {
  }

  /** A valid buy dispatches `buyStock` before the save, and the dispatch
      stands whether or not the save succeeds: nothing undoes it. */
  lemma BuyDispatchesBeforeSave(store: Store, props: Props, quantity: string, now: int)
    requires IsDigitString(quantity)
    requires Approved(store, props, Buy, quantity)
    ensures var ok := Trade(store, props, Buy, quantity, now, Replies(false, true));
      var failed := Trade(store, props, Buy, quantity, now, Replies(false, false));
      |ok.effects| == 2 && ok.effects[0] == DispatchBuyStock(props.symbol, Value(quantity), props.price) &&
      ok.effects[1].SaveTransaction? &&
      failed.effects == ok.effects && failed.outcome == Failed
  {
  }

  /** A dispatch that throws inside the `try` skips the save: the press
      fails with only the dispatch made, whatever the save would answer. */
  lemma DispatchThrowSkipsSave(store: Store, props: Props, quantity: string, now: int, saveResolves: bool)
    requires IsDigitString(quantity)
    requires Approved(store, props, Buy, quantity)
    ensures Trade(store, props, Buy, quantity, now, Replies(true, saveResolves)) ==
      TradeStep(Failed, [DispatchBuyStock(props.symbol, Value(quantity), props.price)])
  {
  }

  /** A sell only saves: it dispatches nothing to the portfolio. */
  lemma SellOnlySaves(store: Store, props: Props, quantity: string, now: int, replies: Replies)
    requires IsDigitString(quantity)
    ensures var step := Trade(store, props, Sell, quantity, now, replies);
      forall e :: e in step.effects ==> e.SaveTransaction?
  {
  }

  /** One press saves at most one record. */
  lemma AtMostOneSave(store: Store, props: Props, side: Side, quantity: string, now: int, replies: Replies)
    requires IsDigitString(quantity)
    ensures var step := Trade(store, props, side, quantity, now, replies);
      |step.effects| <= 2 &&
      forall i, j :: 0 <= i < j < |step.effects| ==> !(step.effects[i].SaveTransaction? && step.effects[j].SaveTransaction?)
  {
  }

  /** The trade button is enabled exactly when the handler's quantity check
      would pass, so a press on an enabled button never meets InvalidQuantity. */
  lemma ButtonMatchesQuantityCheck(quantity: string)
    requires IsDigitString(quantity)
    ensures !TradeButtonDisabled(quantity) <==> QuantityOk(quantity)
  {
  }

  /** The estimate shown before the press is the total that gets saved. */
  lemma EstimateIsSavedTotal(store: Store, props: Props, side: Side, quantity: string, now: int, replies: Replies)
    requires IsDigitString(quantity)
    requires Approved(store, props, side, quantity)
    ensures var step := Trade(store, props, side, quantity, now, replies);
      ReachesSave(side, replies) ==>
        step.effects[|step.effects| - 1].record.total == EstimatedTotal(quantity, props.price)
  {
  }

  /** Typing a positive number passes the filter, enables the button, and a
      press trades exactly that many shares. */
  lemma {:induction false} TypedNumberIsTraded(n: nat, store: Store, props: Props, side: Side, now: int, replies: Replies)
    requires n > 0
    ensures IsDigitString(Decimal(n))
    ensures !TradeButtonDisabled(Decimal(n))
    ensures Approved(store, props, side, Decimal(n)) && ReachesSave(side, replies) ==>
      var step := Trade(store, props, side, Decimal(n), now, replies);
      step.effects[|step.effects| - 1].record.shares == n
  {
    ValueOfDecimal(n);
  }

  // Client usage: what a caller can conclude from the contracts alone.

  /** With a balance of 1000.00 and a price of 50.00, typing "12a" is
      ignored, "21" is refused for funds and kept, and "10" buys after a
      dispatch and a save and then clears the field. */
  method QuickTradeScenario(user: string)
    requires user != ""
  {
    var panel := new QuickTrade();
    var store := Store(Some(user), 100000);
    var props := Props("AAPL", 5000, 0);
    assert !IsDigit("12a"[2]);
    panel.HandleQuantityChange("12a");
    assert panel.quantity == [];
    panel.SelectTradeType(Sell, props.currentShares);
    assert panel.tradeType == Buy;
    panel.HandleQuantityChange("21");
    assert Value("21") == 21 by { assert "21"[..1] == "2"; }
    var o, e := panel.HandleTrade(store, props, 0, Replies(false, true));
    assert o == InsufficientFunds && e == [] && panel.quantity == "21";
    panel.HandleQuantityChange("10");
    assert Value("10") == 10 by { assert "10"[..1] == "1"; }
    o, e := panel.HandleTrade(store, props, 0, Replies(false, true));
    assert e[0] == DispatchBuyStock("AAPL", 10, 5000);
    assert o.Succeeded? && o.record.total == 50000 && panel.quantity == [];
  }

}
