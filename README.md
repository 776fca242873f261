# Stock simulator: quick-trade and sign-up validation

A Dafny model of the two places in the stock-simulator mobile app that make
decisions: the quick-trade panel (`src/components/stocks/QuickTrade.tsx`)
and the sign-up form (`src/components/auth/SignupForm.tsx`).

- `optional.dfy` — module `Optional`: the `Option` type, used for a user id
  that may be `undefined` and for `parseInt`'s NaN.
- `digits.dfy` — module `Digits`: the quantity filter `/^\d*$/`
  (`IsDigitString`), `parseInt` on the strings that filter admits
  (`ParseInt`, `Value`), and facts about them (all-zero strings parse to 0,
  leading zeros do not count, a typed number parses back to itself).
- `quick_trade.dfy` — module `Trading`: the component state as a class
  `QuickTrade` (`quantity`, `tradeType`) whose `HandleQuantityChange`,
  `SelectTradeType` and `HandleTrade` methods update it; `Trade`, the pure
  function that specifies `HandleTrade`; the derived `EstimatedTotal` and
  the trade button's `TradeButtonDisabled` condition; lemmas for the order of
  the checks, their boundaries, the saved record and the calls made.
- `signup_form.dfy` — module `Auth`: the form state as a class `SignupForm`
  (`email`, `password`, `confirmPassword`, `loading`, and a ghost `trace` of
  what the handler did), its `HandleSignup` method, the pure `Signup`
  function that specifies its outcome, the error-code mapping and lemmas for
  the order of the checks.

Inputs from outside the component are parameters. For a trade these are the
store's `userId` and `balance` (`Store`), the props `symbol`, `price` and
`currentShares` (`Props`), the clock reading for the record's timestamp, and
how the outside calls answer (`Replies`): whether the `buyStock` dispatch
throws and whether the ledger save resolves. `HandleTrade` returns the outcome
(`LoginRequired`, `InvalidQuantity`, `InsufficientFunds`,
`InsufficientShares`, `Succeeded(record)` or `Failed`) and the external calls
it made, in order: a `buyStock` dispatch and a transaction save. For sign-up
the account-creation service's answer is a parameter, either resolved or
an error with a code and a message.

What the code does, modelled as written:
- A buy dispatches `buyStock` before it saves. If the save then fails, the
  dispatch is not undone. The dispatch sits inside the same `try`, so if it
  throws, nothing is saved and the press fails.
- A sell only saves. `sellStock` is imported in the source but never called,
  so a sell does not change the portfolio state.
- `!userId` is also true for an empty user id, so an empty id counts as not
  logged in.
- `parseInt("")` is NaN, and NaN fails `<= 0`. The trade button's condition
  tests the empty string on its own, so the button is enabled exactly when
  the handler's quantity check would pass (`ButtonMatchesQuantityCheck`).
- The SELL selector is disabled while `currentShares` is 0, so pressing it
  then leaves `tradeType` as it was.
- The sign-up button is disabled while `loading` holds, so `HandleSignup`
  requires `loading` false on entry. The form's `Valid()` ties `loading` to
  the last flag change in the ghost `trace` and states that every service
  call happened while the flag was set.
- Money is in integer cents, and so are the price, balance and totals.

## Model

| member | source | states |
|---|---|---|
| Digits.Value | src/components/stocks/QuickTrade.tsx:41-42 | the parsed value of a digit string is 0 exactly when every digit is '0' |
| Digits.ParseInt | src/components/stocks/QuickTrade.tsx:41-42 | `parseInt` on a filtered quantity is NaN exactly for the empty string; otherwise its value is 0 exactly when every digit is '0' |
| Digits.LeadingZerosIgnored | src/components/stocks/QuickTrade.tsx:41 | leading zeros do not change the parsed value ("007" is 7) |
| Digits.ValueOfDecimal | src/components/stocks/QuickTrade.tsx:41 | the decimal spelling of a number parses back to that number |
| Trading.TradeButtonDisabled | src/components/stocks/QuickTrade.tsx:160-168 | the trade button's disabled condition holds exactly while the quantity has no non-zero digit (empty included) |
| Trading.EstimatedTotal | src/components/stocks/QuickTrade.tsx:99 | the estimate is 0 while the trade button is disabled, and otherwise the parsed shares times the price |
| Trading.QuickTrade.constructor | src/components/stocks/QuickTrade.tsx:21-22 | the panel starts with an empty quantity and the buy side selected |
| Trading.QuickTrade.HandleQuantityChange | src/components/stocks/QuickTrade.tsx:28-33 | the quantity becomes the text exactly when the text is all digits (empty included), is otherwise unchanged, and is always a digit string |
| Trading.QuickTrade.SelectTradeType | src/components/stocks/QuickTrade.tsx:111-138 | the side becomes the one pressed, except that SELL does nothing while no shares are held |
| Trading.Trade | src/components/stocks/QuickTrade.tsx:35-97 | a press is rejected at one of the four checks exactly when it makes no outside call, and it succeeds only after the save of the record it returns; the lemmas below state the order of the checks and what each path calls |
| Trading.QuickTrade.HandleTrade | src/components/stocks/QuickTrade.tsx:35-97 | outcome and calls are those of `Trade` on the old quantity and side; the quantity is cleared only after a successful save and keeps its value on every rejection, thrown dispatch or failed save |
| Trading.LoginCheckedFirst | src/components/stocks/QuickTrade.tsx:36-39 | with no signed-in user (missing or empty id) the outcome is LoginRequired whatever the quantity, side, balance or holdings, and no call is made |
| Trading.InvalidQuantityExactly | src/components/stocks/QuickTrade.tsx:41-45 | after login, the outcome is InvalidQuantity exactly when the quantity is empty or all zeros, and then no call is made |
| Trading.FundsBoundary | src/components/stocks/QuickTrade.tsx:47-53 | a valid buy is InsufficientFunds exactly when shares times price exceeds the balance (equal is allowed), and then no call is made |
| Trading.SharesBoundary | src/components/stocks/QuickTrade.tsx:74-77 | a valid sell is InsufficientShares exactly when it asks for more than the shares held (all of them is allowed), and then no call is made |
| Trading.EffectsOnlyWhenApproved | src/components/stocks/QuickTrade.tsx:35-96 | calls are made exactly when every check passes, and then the outcome is Succeeded exactly when the save resolves and, for a buy, the dispatch did not throw; otherwise it is Failed |
| Trading.RecordContents | src/components/stocks/QuickTrade.tsx:47-89 | whenever the save is reached, the saved record has the selected side, the parsed shares, the price, total = shares times price, company name = symbol, the bound user id and the clock reading, and a success returns that record |
| Trading.BuyDispatchesBeforeSave | src/components/stocks/QuickTrade.tsx:55-72 | a valid buy dispatches `buyStock(symbol, shares, price)` and then saves, and a failed save leaves the same calls made with the outcome Failed (no rollback) |
| Trading.DispatchThrowSkipsSave | src/components/stocks/QuickTrade.tsx:55-72 | a valid buy whose dispatch throws makes only the dispatch, saves nothing and fails, whatever the save would answer |
| Trading.SellOnlySaves | src/components/stocks/QuickTrade.tsx:79-95 | a sell makes no call other than the save |
| Trading.AtMostOneSave | src/components/stocks/QuickTrade.tsx:55-96 | one press makes at most two calls and at most one save |
| Trading.ButtonMatchesQuantityCheck | src/components/stocks/QuickTrade.tsx:160-168 | the trade button is enabled exactly when the handler's quantity check passes, that is when the quantity has a non-zero digit |
| Trading.EstimateIsSavedTotal | src/components/stocks/QuickTrade.tsx:99 | the estimate shown before a valid press equals the total of the record saved, whenever the save is reached |
| Trading.TypedNumberIsTraded | src/components/stocks/QuickTrade.tsx:28-45 | typing any positive number passes the filter, enables the button, and a valid press that reaches the save trades exactly that many shares |
| Auth.FailureMessage | src/components/auth/SignupForm.tsx:35-39 | the code 'auth/email-already-in-use' gives the fixed "already exists" text; any other code gives the error's own message |
| Auth.Signup | src/components/auth/SignupForm.tsx:12-43 | an account is created only for a form that passes every check and a service that resolves; a failure carries the mapped message of the service's error |
| Auth.AlertFor | src/components/auth/SignupForm.tsx:13-39 | the alert's title is "Success" only for a created account; missing fields show "Please fill in all fields"; a failure shows the message it carries |
| Auth.AppendEvent | src/components/auth/SignupForm.tsx:28-42 | appending a flag change sets the flag, appending a call keeps it, and a call made while the flag is set keeps every call inside it |
| Auth.SignupForm.constructor | src/components/auth/SignupForm.tsx:7-10 | the form starts with empty fields, `loading` false and an empty trace, and is `Valid()` |
| Auth.SignupForm.HandleSignup | src/components/auth/SignupForm.tsx:12-43 | keeps `Valid()`; the outcome is `Signup` of the old fields and the reply; the service is called, between raising and lowering `loading`, exactly when all checks pass; `loading` is false afterwards; the fields are cleared only on success and otherwise kept |
| Auth.EmptyFieldFirst | src/components/auth/SignupForm.tsx:13-16 | any empty field gives "Please fill in all fields" before every other check, whatever the service would answer |
| Auth.MismatchBeforeLength | src/components/auth/SignupForm.tsx:18-21 | with all fields filled, the outcome is a mismatch exactly when the passwords differ, even if the password is also too short |
| Auth.LengthBoundary | src/components/auth/SignupForm.tsx:23-26 | a matching password is too short exactly when it has fewer than 6 characters; 6 passes |
| Auth.AttemptOnlyWhenEligible | src/components/auth/SignupForm.tsx:28-39 | the service is reached exactly when all three checks pass; then success creates the account and an error carries the mapped message; otherwise the reply has no effect |

## Left out

- `buyStock`, `sellStock`, `saveTransaction` and `createUserWithEmailAndPassword` are external store, database and auth-service calls whose code is not part of this model. They appear only as recorded calls or as input replies.
- `Alert.alert` and the text of the quick-trade alerts, `formatCurrency`, `console.error`, and all JSX and styles: presentation only. The sign-up alert texts are kept (`Auth.AlertFor`) because the error-code mapping decides one of them.
- The `buyStock` dispatch is not awaited in the source. A thunk that rejects asynchronously is never caught by the `try`, so the press still saves and may succeed. The model covers only a dispatch that returns or throws synchronously (`Replies.dispatchThrows`); a later rejection, and its unhandled-promise report, is not represented.
- Prices, balances and totals are JavaScript floating-point numbers in the source. The model uses exact integers (cents), so rounding in `shares * price` is not modelled.
- Digits.Value: `parseInt` on a digit string too long for a double loses precision or gives Infinity in the source; the model parses it exactly. Digit strings are the only input it can see, because the filter admits nothing else.
- Auth.LengthBoundary: `password.length` counts UTF-16 code units in the source, while the model counts characters, so passwords with characters outside the Basic Multilingual Plane are measured differently.
- The clock (`new Date()`) is a parameter `now`, and the record's timestamp is that number.
- The two `await`ed calls are modelled as completing within one handler call. Concurrency, re-renders while a call is in flight and repeated presses are not modelled. The form's `loading` flag is shown raised around the service call through the ghost `trace`.
- The text-field setters of the sign-up form (`setEmail` and the others) are plain assignments to the class's fields.
- `src/components/stocks/StockCard.tsx`, `src/screens/AuthScreen.tsx`, `src/screens/StockDetailScreen.tsx`, `App.config.js`, `babel.config.js` and `src/store/index.ts`: display, navigation and configuration with no decision logic.
