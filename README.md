# Block-explorer UTXO discovery and wallet node actions, in Dafny

This project models two parts of a wallet front end:

- **UTXO discovery** (`blockExplorerGetAddresesUTXOs` in `src/block_explorer.js`).
  The client lists the unspent outputs of an address. It fetches the raw hex
  of each output's parent transaction, with all fetches in flight together
  (`Promise.all`). It then returns one record per output:
  `{confirmed, txid, index, amount, amountSats, transactionHex}`.
  `amount` is the value in bitcoins, written with exactly eight decimals.
  `amountSats` is the exact satoshi value. Any failure is rethrown after error
  normalisation: `(e.response && e.response.data) || e`.
- **Wallet node actions** (`src/actions/walletActions.jsx`). These two Redux
  action creators copy a node object with object spread and set its `change`
  flag. They tag the action with `UPDATE_DEPOSIT_NODE` or `UPDATE_CHANGE_NODE`.

The HTTP replies are inputs to the model:

- the reply to `GET /address/{address}/utxo` is a `Result`: the listed outputs,
  or the thrown request error;
- the replies to `GET /tx/{txid}/hex` are a function from transaction id to a
  `Result`.

Everything is a pure function over values. The source keeps no mutable state.

Files:

- `js_values.dfy` (module `Js`): the JavaScript semantics the source relies
  on. This covers JSON-like values, truthiness, `&&` and `||`, property access
  and object spread. It also covers `Promise.all` as an all-or-first-error fold.
- `satoshi_format.dfy` (module `SatoshiFormat`): the eight-decimal amount
  string, its parser, and the round trip in both directions.
- `block_explorer.dfy` (module `BlockExplorer`): error normalisation, record
  assembly, UTXO discovery and the lemmas about it.
- `wallet_actions.dfy` (module `WalletActions`): the two action creators and
  their constants.

## Model

| member | source | states |
|---|---|---|
| `Js.SpreadKeys` | src/actions/walletActions.jsx:7-10 | A spread object literal holds exactly the keys of its parts. |
| `Js.SpreadLastWins` | src/actions/walletActions.jsx:7-10 | In a spread object literal, each key takes the value of the last part that holds it. |
| `Js.SpreadTwo` | src/actions/walletActions.jsx:8-9 | `{...a, ...b}` is the union of `a` and `b`, with `b` winning on shared keys. |
| `Js.PromiseAll` | src/block_explorer.js:18-31 | Success exactly when every promise resolves. It then gives every value in promise order, with the same count. Otherwise it gives the rejection of the first rejecting promise, with all before it resolved, and no values. |
| `SatoshiFormat.FormatSats` | src/block_explorer.js:27 | The amount string is a canonical whole-bitcoin numeral, then `.`, then exactly eight digits. |
| `SatoshiFormat.FormatSatsRoundTrip` | src/block_explorer.js:22-27 | Reading the amount string with the independent reference reader `ParseAmount` (digits, a point, eight digits, valued times 10^8) gives back the satoshi value. So the string denotes `value / 10^8` exactly. |
| `SatoshiFormat.FormatSatsInjective` | src/block_explorer.js:27 | Two different satoshi values never give the same amount string. |
| `SatoshiFormat.ParseAmountRoundTrip` | src/block_explorer.js:27 | Formatting the parsed value of any well-formed amount with a canonical whole part gives that string back. So formatting is a bijection onto such strings. |
| `SatoshiFormat.FormatSatsExamples` | src/block_explorer.js:27 | 150000000 satoshis give "1.50000000"; 1000 satoshis give "0.00001000". |
| `BlockExplorer.NormalizeError` | src/block_explorer.js:33 | The rethrown value is `e.response.data` when `e.response` and its `data` are both truthy. Otherwise it is the error `e` itself. Either way it is truthy. |
| `BlockExplorer.FetchUtxo` | src/block_explorer.js:18-30 | The per-output callback succeeds exactly when its hex fetch does. On success its record carries the output's `confirmed`, `txid`, `vout` and satoshi value, the eight-decimal amount, and the fetched hex. On failure it rejects with the fetch's own error. |
| `BlockExplorer.GetAddressUtxos` | src/block_explorer.js:14-35 | If the listing fails, the call throws the normalised listing error. If the listing succeeds, the call succeeds exactly when every hex fetch succeeds. It then returns one record per listed output, in listing order. Each record carries its own output's `confirmed`, `txid`, `vout` and satoshi value, the eight-decimal amount, and the hex fetched for its own txid. Otherwise it throws the normalised error of the first failing fetch and returns no records. |
| `BlockExplorer.EmptyListingSucceeds` | src/block_explorer.js:17-18 | An empty listing gives an empty sequence and no error. |
| `BlockExplorer.AnyHexFailureFailsAll` | src/block_explorer.js:18-33 | One failing hex fetch fails the whole call, so no partial sequence is returned. |
| `BlockExplorer.SameTxidSameHex` | src/block_explorer.js:19-29 | Outputs of the same parent transaction get identical transaction hex. The source makes a separate request for each; this holds under the model's assumption that the explorer answers every request for one txid alike. |
| `BlockExplorer.AmountsAgree` | src/block_explorer.js:22-28 | Every record's `amountSats` is the listed value exactly, and its `amount` string parses back to that same value. |
| `BlockExplorer.SingleUtxoScenario` | src/block_explorer.js:14-31 | A confirmed output `abc:0` of 1000 satoshis, whose hex reply is "0200", yields exactly `[{true, "abc", 0, "0.00001000", 1000, "0200"}]`. |
| `WalletActions.UpdateDepositNodeAction` | src/actions/walletActions.jsx:4-12 | The type is `UPDATE_DEPOSIT_NODE`. The value has the input's keys plus `change`, with `change` equal to `false` even if the input said `true`. Every other key keeps its input value. |
| `WalletActions.UpdateChangeNodeAction` | src/actions/walletActions.jsx:14-22 | The type is `UPDATE_CHANGE_NODE`. The value has the input's keys plus `change`, with `change` equal to `true`. Every other key keeps its input value. |
| `WalletActions.CreatorsDifferOnlyInTag` | src/actions/walletActions.jsx:1-22 | The two creators use different action types. Leaving out `change`, both values equal the input node. |
| `WalletActions.LastTagWins` | src/actions/walletActions.jsx:7-20 | Retagging a tagged node gives the same action as tagging the original node. Only the last flag survives. |

## Left out

- The HTTP GET requests and the async scheduling (src/block_explorer.js:16, 20) are I/O and concurrency. Their replies are inputs to the model. The `address` and `network` parameters only shape the request URLs, so they do not appear.
- `blockExplorerAPIURL` and `satoshisToBitcoins` come from the `unchained-bitcoin` library, and `toFixed` from `bignumber.js`. Their code is not part of this model. `FormatSats` states their assumed combined effect on a non-negative integer satoshi value: exact division by 10^8, written with eight decimals. This needs no rounding.
- `PromiseAll`: rejects with the first rejection in promise order. `Promise.all` rejects with whichever rejection settles first in time, which depends on network timing. When several fetches fail, the source may therefore throw a different one of their errors. That it throws, and that it returns no records, is the same.
- `GetAddressUtxos`: the hex replies are a function of the txid, so the explorer is assumed to answer two fetches of the same transaction alike within one call.
- `GetAddressUtxos`: malformed listing replies are not modelled. The typed `UtxoDescriptor` (`vout` and `value` are `nat`, `status` is always present) excludes them. In the source:
  - a `data` that is not an array raises a `TypeError` at `utxos.map` (src/block_explorer.js:18), rethrown unchanged;
  - an element without `status` raises a `TypeError` at line 24;
  - a missing `txid` becomes the request path `/tx/undefined/hex` (line 20), which fails as an HTTP error;
  - a missing `vout` is copied as `undefined` (line 26);
  - a missing, negative or fractional `value` goes through `new BigNumber` and `toFixed` (lines 22, 27) without a `TypeError`.
- `Js.JsValue`: numbers are integers. NaN, infinities and fractions are not modelled, because no payload looked at here needs them.
- The FIXME txid cache (src/block_explorer.js:19) is not implemented in the source, so it is not modelled. Every output is fetched separately.
- `blockExplorerGetFeeEstimate` (src/block_explorer.js:37-45) is left out. It applies `Math.ceil` to a floating-point estimate. The code reads the estimate for key `2` (line 41), not the one for a 3-block target. A missing key gives `NaN`, not an error.
- `blockExplorerBroadcastTransaction` (src/block_explorer.js:47-54) is left out. It passes the POST reply through unchanged and normalises errors with the same expression as `NormalizeError`.
- `UpdateDepositNodeAction`, `UpdateChangeNodeAction`: the node passed in is modelled as a plain object. Spreading a string, array, `null` or `undefined` argument is not modelled. The input node stays unchanged because Dafny maps are values, so that property holds by construction rather than by a lemma.
- `Js.Spread`: Dafny maps have no key order, so JavaScript property order is not modelled. In the source, `change` keeps its position when the node already has it, and is appended last otherwise. Nothing in this code reads key order.
- Results of separate calls cannot affect each other, because every operation is a pure function of its own inputs.
