# btcping watch list, in Dafny

A model of the watched-transaction logic of btcping, a web app that watches
Bitcoin transactions and sends Telegram alerts as they gain confirmations.
The model covers:

- the `useBlockchain` hook's watch set (`Blockchain.WatchSet`). It is a map from
  transaction id to `{status, confirmations, blockHeight}` plus the key order of
  the JavaScript `Map`. Adding an id validates it, inserts a `pending` entry,
  resolves it and rolls it back on failure. Removing an id deletes it
  optimistically and restores the snapshot when the store refuses. Each new tip
  height runs a reconciliation pass: a loop over a snapshot that re-counts
  confirmations and decides which alerts to send under the notification level
  (`first`, `first_two`, `all`, `none`). On mount the set is loaded from
  `/api/transactions`.
- the `/api/transactions` route (`TransactionsApi`). It stores the
  `WatchedTransactions` table keyed by `(txid, user_email)`, with upsert,
  per-user delete and a newest-first listing. The route sits behind the
  `withAuth` gate.
- the `/api/settings` route (`SettingsApi`): the single `notificationLevel` row,
  checked on `POST` and defaulted on `GET`.
- `getSession`'s cookie parsing and the `withAuth` gate (`Auth`).
- the display arithmetic of the two list and detail components
  (`TransactionDetails`, `TransactionList`).

The model does no I/O. Every network answer the hook and the routes act on is a
parameter:
- a transaction lookup is an `Option<TxStatus>`;
- a save or delete result is a `bool`;
- the settings request is a `LevelFetch` (`Unreachable`, `NotOk` or `Fetched`);
- the initial listing request is a `ListFetch` (`ListUnreachable`, `Unauthorized`,
  `ListNotOk` or `Listed`);
- a store statement that throws is a `Fault`;
- the environment variables and the JWT verifier (`decrypt`) are parameters.

An alert the hook would send is a `Notification` value in the list a method
returns. The Telegram request that delivers it has no parameter: its outcome is
not modelled (see "Left out").

Where the intended design and the code differ, the model follows the code:
- A lookup reporting a block above the tip still marks the entry confirmed, with
  `tip - h + 1 <= 0` confirmations and no alert (`StaleTipConfirmsWithoutCount`).
- Level `first` alerts only when a pass computes a count of exactly 1. An entry
  whose first confirmed pass already counts 2 or more, because the tip moved
  several blocks, is never alerted (`FirstMissedWhenLate`). So `first` alerts at
  most once, not exactly once.
- A lookup that succeeds without a block leaves an entry untouched during a
  pass, so a `pending` entry stays `pending` instead of becoming `unconfirmed`
  (`PendingStaysPending`).
- The duplicate check compares ids as exact strings, so an id in upper case is a
  different key from the same id in lower case.
- Reconciliation updates only the in-memory map. It never writes to the store.
- Counts are JavaScript numbers used as integers. The truthiness tests of the
  source are kept: a block height or tip of `0` counts as absent.
- `types.ts` names the height `blockHeight` while the hook and the table use
  `block_height`. The model uses `blockHeight` throughout.
- The settings route is not wrapped in `withAuth`, and the model keeps it that way.

## Model

| member | source | states |
|---|---|---|
| `Types.ParseStatus` | types.ts:9 | a stored status text reads as a well-formed status whose name is that text (used by `Blockchain.EntryOf` on load) |
| `Types.StatusRoundTrip` | types.ts:9 | a well-formed status written out and read back is unchanged |
| `Text.Decimal` | components/TransactionDetails.tsx:20 | `String(n)` is a non-empty digit string without leading zeros, one digit exactly below 10 |
| `Text.DecimalReadsBack` | components/TransactionDetails.tsx:20 | reading `String(n)` back as digits gives `n` |
| `Text.IntText` | components/TransactionList.tsx:39 | `String(i)` is the decimal of `i`, with a minus sign before the magnitude when negative |
| `Text.Pad2` | components/TransactionDetails.tsx:20 | `padStart(2, '0')` gives width two or more, keeps the text as a suffix, pads only with `'0'` and never truncates |
| `Text.Split` | lib/auth.ts:33 | `split` always yields at least one part |
| `Text.SplitJoin` | lib/auth.ts:33 | joining the parts of a `split` with the separator gives the text back |
| `Text.SplitAfterPlain` | lib/auth.ts:35 | text free of the separator's first character, followed by the separator, is exactly the first part |
| `Text.FirstPart` | lib/auth.ts:35 | the first part of a split at one character is the longest prefix free of that character |
| `Text.Capitalize` | components/TransactionList.tsx:41 | the first character is upper-cased and the rest is kept, same length |
| `Blockchain.EffectiveLevel` | hooks/useBlockchain.ts:107-112 | the level is the fetched level when it is non-empty, and `first` otherwise, including when the answer was not ok |
| `Blockchain.PolicyOf` | hooks/useBlockchain.ts:120 | `first`, `first_two` and `all` each select their own policy; every other text, `none` included, is silent |
| `Blockchain.ShouldNotify` | hooks/useBlockchain.ts:134-142 | first confirmation alerts iff the count is 1 and the level is not silent; later increases alert iff `first_two` reaches 2 or the level is `all` |
| `Blockchain.Merge` | hooks/useBlockchain.ts:97 | a merged entry keeps its id |
| `Blockchain.Evaluate` | hooks/useBlockchain.ts:115-151 | one entry's pass step keeps its id |
| `Blockchain.EvaluateEffect` | hooks/useBlockchain.ts:115-151 | a failed lookup changes nothing; an unconfirmed entry changes iff the lookup reports a block, taking its height; a confirmed entry keeps its block and its count only rises, to `max(old, tip-h+1)`; an alert comes iff the entry changed and the policy selects the crossing, and it has the matching kind |
| `Blockchain.ReconcileMap` | hooks/useBlockchain.ts:114-152 | the pass keeps the set of watched ids |
| `Blockchain.VisitedAt` | hooks/useBlockchain.ts:114 | after visiting some ids of the snapshot, visited entries hold their evaluated value and the rest their snapshot value |
| `Blockchain.VisitedKeys` | hooks/useBlockchain.ts:114 | visiting never adds or drops an id |
| `Blockchain.VisitedAll` | hooks/useBlockchain.ts:114 | visiting every id in turn gives the whole-map result of the pass |
| `Blockchain.Notes` | hooks/useBlockchain.ts:114-147 | the alerts of a pass are those of its visited entries, in key order (its properties are `NotesAtMostOnePerEntry` and `PassStep`) |
| `Blockchain.NotesAtMostOnePerEntry` | hooks/useBlockchain.ts:114-147 | over distinct keys whose entries carry their own ids, every alert of a pass names a visited id and no two alerts name the same id |
| `Blockchain.PassError` | hooks/useBlockchain.ts:85-88 | a failed lookup sets the error to its own message, so the last failure of a pass wins (its properties are `PassErrorUnchanged` and `PassStep`) |
| `Blockchain.PassErrorUnchanged` | hooks/useBlockchain.ts:87 | a pass in which no lookup failed leaves the error as it was |
| `Blockchain.PassStep` | hooks/useBlockchain.ts:114-151 | one more visited id updates its entry, appends its alert, and sets the error iff its lookup failed |
| `Blockchain.EvaluateTwice` | hooks/useBlockchain.ts:131-133 | evaluating an entry again at the same tip with the same lookup changes nothing and alerts nothing |
| `Blockchain.ReconcileIdempotent` | hooks/useBlockchain.ts:133 | a second pass at the same tip, with the same lookup answers, changes no entry and sends no alert |
| `Blockchain.ConfirmedSettled` | hooks/useBlockchain.ts:115-133 | whatever a second pass at the same tip looks up, every entry the first pass left confirmed is unchanged and raises no alert |
| `Blockchain.ReconcileMonotone` | hooks/useBlockchain.ts:131-150 | confirmed entries stay confirmed in the same block and never lose confirmations |
| `Blockchain.StaleTipConfirmsWithoutCount` | hooks/useBlockchain.ts:118 | with no guard on `tip - h + 1`, a tip below the block confirms the entry with a count of zero or less and no alert |
| `Blockchain.PendingStaysPending` | hooks/useBlockchain.ts:116-117 | a pending entry whose lookup reports no block is left exactly as it was and raises nothing |
| `Blockchain.FirstMissedWhenLate` | hooks/useBlockchain.ts:120 | under `first`, an entry whose first confirmed pass counts 2 or more is never alerted over any later passes |
| `Blockchain.FirstAlertsAtMostOnce` | hooks/useBlockchain.ts:120 | under `first` an entry alerts at most once over any run of passes, never once confirmed |
| `Blockchain.FirstTwoAlertsAtMostTwice` | hooks/useBlockchain.ts:136-137 | under `first_two` an entry alerts at most twice over any run of passes |
| `Blockchain.SilentLevelsNeverAlert` | hooks/useBlockchain.ts:120 | under `none` or an unknown level the pass never alerts |
| `Blockchain.AllAlertsOnEveryRise` | hooks/useBlockchain.ts:131-145 | under `all` a confirmed entry alerts on exactly the passes that change it, and any entry on no more passes than change it, so at most once per pass |
| `Blockchain.EveryAlertsOnRise` | hooks/useBlockchain.ts:131-145 | under `all` one pass alerts a confirmed entry iff its count rises, and the alert is `NewConfirmation(id, tip - h + 1)` |
| `Blockchain.AddedConfirmations` | hooks/useBlockchain.ts:208-210 | an added id counts `tip - h + 1` when confirmed with a truthy height and known tip, else 0 |
| `Blockchain.IsTxid` | hooks/useBlockchain.ts:194 | an id is accepted iff it is 64 characters, each a hexadecimal digit in either case (used by `WatchSet.Add`) |
| `Blockchain.Resolved` | hooks/useBlockchain.ts:212-217 | the stored entry keeps the lookup's height and is `confirmed` iff its count is positive, else `unconfirmed` |
| `Blockchain.AddedThenReconciled` | hooks/useBlockchain.ts:212-217 | an entry added as confirmed is already up to date for a pass at the same tip |
| `Blockchain.Without` | hooks/useBlockchain.ts:244 | deleting a key removes exactly that key from the key order, keeping the rest distinct |
| `Blockchain.WithoutAt` | hooks/useBlockchain.ts:244 | in a list of distinct keys, deleting the key at position `i` closes the gap and keeps every other key in its order |
| `Blockchain.WithoutAppended` | hooks/useBlockchain.ts:249-253 | deleting a just-appended key restores the old key order |
| `Blockchain.DeleteInserted` | hooks/useBlockchain.ts:249-253 | deleting a just-inserted key restores the old map |
| `Blockchain.EntryOf` | hooks/useBlockchain.ts:34-35 | a listed row becomes an entry with the same id, count and height, whose status reads back as the listed text |
| `Blockchain.Loaded` | hooks/useBlockchain.ts:35 | `new Map(...)` from the listed rows yields distinct keys in key order, each holding the entry with its own id |
| `Blockchain.LoadedKeys` | hooks/useBlockchain.ts:35 | the loaded map holds exactly the listed ids |
| `Blockchain.LoadedLast` | hooks/useBlockchain.ts:35 | an id listed more than once holds the entry of its last row |
| `Blockchain.LoadedOrder` | hooks/useBlockchain.ts:35 | a listing without repeated ids keeps the listing's order as the key order |
| `Blockchain.Tracked` | hooks/useBlockchain.ts:203-254 | a failed lookup, a failed save, or a settings request that throws after a confirmed save each set their own error and roll back: the watch set and key order are as before and nothing is sent; tracking succeeds iff none of these happens, and then the resolved entry is inserted last and `NowWatching(txid, n)` is sent iff the count `n` is positive and the level is not `none` |
| `Blockchain.WatchSet.constructor` | hooks/useBlockchain.ts:10-12 | a new hook watches nothing, knows no tip and has no error |
| `Blockchain.WatchSet.Entries` | hooks/useBlockchain.ts:277 | the exposed list is the entries in key order |
| `Blockchain.WatchSet.ObserveTip` | hooks/useBlockchain.ts:179 | a new tip replaces the known tip and nothing else |
| `Blockchain.WatchSet.UpdateWatchedTx` | hooks/useBlockchain.ts:92-102 | an update merges into an existing id only; an absent id is never inserted and other ids are untouched |
| `Blockchain.WatchSet.Insert` | hooks/useBlockchain.ts:204 | a new id goes last in key order with its entry |
| `Blockchain.WatchSet.Forget` | hooks/useBlockchain.ts:244 | deleting an id removes it from the map and the key order |
| `Blockchain.WatchSet.Add` | hooks/useBlockchain.ts:188-201 | logged out, a malformed id or an exact duplicate leaves the set unchanged with its error; otherwise the outcome is `Tracked` |
| `Blockchain.WatchSet.Track` | hooks/useBlockchain.ts:203-254 | the new state, error and alerts are exactly those of `Tracked`, so the pending entry is rolled back on a failed lookup, save or settings request, and otherwise the resolved entry stays and `NowWatching` is sent iff confirmed and the level is not `none` |
| `Blockchain.WatchSet.Remove` | hooks/useBlockchain.ts:257-275 | a refused delete restores the exact snapshot and sets the error; an accepted one removes the id |
| `Blockchain.WatchSet.Load` | hooks/useBlockchain.ts:18-41 | logged out the set is emptied; a 401 leaves everything; a failed request leaves the set and records the error; a listing replaces the set and its key order with `Loaded` |
| `Blockchain.WatchSet.Visit` | hooks/useBlockchain.ts:115-151 | one loop turn stores the evaluated entry, returns its alert and records a failed lookup |
| `Blockchain.WatchSet.Reconcile` | hooks/useBlockchain.ts:104-153 | logged out or with an unreachable settings request nothing changes; otherwise the set becomes the pass result, the alerts are those of the snapshot in key order, and the error is the last failed lookup's |
| `Blockchain.WatchSet.Pass` | hooks/useBlockchain.ts:114-152 | the loop visits every id of the snapshot in key order |
| `Blockchain.WatchSet.Advance` | hooks/useBlockchain.ts:114-151 | one loop turn extends the visited prefix by one id |
| `Auth.FirstWithPrefix` | lib/auth.ts:33 | `find` returns the first entry with the prefix, or none when no entry has it |
| `Auth.SessionEntry` | lib/auth.ts:33-34 | the session entry starts with `session=`; there is none iff the header is absent or no entry starts with `session=` |
| `Auth.TokenOf` | lib/auth.ts:35 | `split('=')[1]` of a `session=` entry is the longest `=`-free text after `session=`: it follows the prefix and ends at the entry's end or at an `=` |
| `Auth.GetSession` | lib/auth.ts:32-37 | there is no session without a `session=` entry; with one, `decrypt` receives its token |
| `Auth.FirstEntryWins` | lib/auth.ts:33 | of several `session=` entries the first is used |
| `Auth.SingleEntryToken` | lib/auth.ts:35-36 | the header `session=<t>` hands exactly `t` to the verifier |
| `Auth.TokenStopsAtEquals` | lib/auth.ts:35 | the token is the text between the first and second `=` of the entry |
| `Auth.Request.constructor` | lib/auth.ts:46 | a new request carries no user |
| `Auth.Authenticate` | lib/auth.ts:40-49 | without a session the answer is 401 and the request is untouched; otherwise `req.user` is the session and the handler runs |
| `TransactionsApi.KeyIndex` | api/transactions.ts:19 | finds the first row with the key `(txid, user_email)`, or reports that none has it |
| `TransactionsApi.Deleted` | api/transactions.ts:54-57 | a delete keeps exactly the rows under other keys |
| `TransactionsApi.Upserted` | api/transactions.ts:38-45 | insert or update on the key `(txid, user_email)` (its properties are `UpsertStores`, `UpsertKeepsOthers` and `UpsertWellFormed`) |
| `TransactionsApi.Owned` | api/transactions.ts:24-28 | a listing holds exactly the requesting user's rows |
| `TransactionsApi.Listing` | api/transactions.ts:25 | the response lists the selected columns of each owned row, in listing order |
| `TransactionsApi.HeightColumn` | api/transactions.ts:40 | the stored `block_height` is `NULL` unless the body gave a value, and then it is that value |
| `TransactionsApi.ValidPost` | api/transactions.ts:34 | a body passes the check iff it has a non-empty string `id` and both `status` and `confirmations` are present (used by `Handled`) |
| `TransactionsApi.ValidQuery` | api/transactions.ts:50 | a `txid` query passes iff it is given once and is non-empty (used by `Handled`) |
| `TransactionsApi.UpsertStores` | api/transactions.ts:38-45 | after an upsert the key holds the posted status, count and height, with the old `added_at` when it existed and a new stamp otherwise; only a new key adds a row |
| `TransactionsApi.UpsertKeepsOthers` | api/transactions.ts:41-44 | an upsert leaves every row under another key alone |
| `TransactionsApi.UpsertWellFormed` | api/transactions.ts:19 | an upsert keeps the primary key unique and `added_at` increasing |
| `TransactionsApi.DeleteWellFormed` | api/transactions.ts:54-57 | a delete keeps the primary key unique and `added_at` increasing |
| `TransactionsApi.NewestFirst` | api/transactions.ts:28 | the listing is ordered by `added_at`, newest first |
| `TransactionsApi.UpsertIsolated` | api/transactions.ts:40 | posting under one user changes no other user's listing |
| `TransactionsApi.DeleteIsolated` | api/transactions.ts:56 | deleting under one user changes no other user's listing, even for the same txid |
| `TransactionsApi.OwnedDistinct` | api/transactions.ts:19 | with the primary key `(txid, user_email)`, one user's listing never repeats a txid |
| `TransactionsApi.ListThenLoad` | hooks/useBlockchain.ts:34-35 | the hook loads a listing of a well-formed table with the listed ids in the listing's newest-first order, each holding its row's values |
| `TransactionsApi.Handled` | api/transactions.ts:6-69 | a failing `CREATE` gives 500; `GET` lists the user's rows; `POST` without a body gives 500, 400 iff `id` is missing, null or empty or `status` or `confirmations` is missing, and 201 iff stored, with a `null` in a `NOT NULL` column, an oversized value or a failing statement giving 500; a 201 stores the posted values; `DELETE` gives 400 iff the `txid` is not one non-empty string, 500 when its statement fails, and 200 otherwise; other methods give 405 with `GET, POST, DELETE`; only a 201 or a `DELETE` 200 writes; the table stays well formed |
| `TransactionsApi.Table.constructor` | api/transactions.ts:11-21 | a new table is empty and well formed |
| `TransactionsApi.Table.Upsert` | api/transactions.ts:38-45 | the upsert statement rewrites the table as `Upserted` and keeps it well formed |
| `TransactionsApi.Table.Delete` | api/transactions.ts:54-57 | the delete statement rewrites the table as `Deleted` and keeps it well formed |
| `TransactionsApi.Table.Handle` | api/transactions.ts:6-69 | the handler's response and new table are those of `Handled` |
| `TransactionsApi.Serve` | api/transactions.ts:71 | without a session the answer is 401 and the table is untouched; otherwise the handler runs for the session's email |
| `SettingsApi.Handled` | api/settings.ts:3-74 | `POST` without a body gives 500, 400 iff the level is not `first`, `first_two` or `all`, 200 iff saved, which stores it, and 500 when the `CREATE TABLE` or the upsert of an accepted level throws; `GET` never writes, gives 404 iff a credential is unset, 500 iff both are set and the read fails, and otherwise 200 reporting the stored level or `first`; `DELETE` and other methods give 405 with `GET, POST` |
| `SettingsApi.Accepted` | api/settings.ts:9 | a posted level is accepted iff it is present, non-empty and one of `first`, `first_two`, `all` (used by `Handled`) |
| `SettingsApi.Reported` | api/settings.ts:44-58 | a `GET` reports the stored level, or `first` when the table or the row is missing (used by `Handled` and `PostThenGet`) |
| `SettingsApi.PostThenGet` | api/settings.ts:21-25 | a saved level is what the next readable `GET` reports |
| `SettingsApi.LastWriteWins` | api/settings.ts:24 | of two saves the later one wins |
| `SettingsApi.ReportedLevelAlerts` | api/settings.ts:9 | every level a `GET` of a consistent store reports is one the pass alerts on |
| `SettingsApi.SettingsStore.constructor` | api/settings.ts:14-19 | a fresh store has no table and no level |
| `SettingsApi.SettingsStore.Handle` | api/settings.ts:3-74 | the handler's response and new table are those of `Handled` and the stored level stays one of the three |
| `TransactionDetails.Field` | components/TransactionDetails.tsx:20 | a field is at least two digits, exactly two below 100, and reads back as its number |
| `TransactionDetails.FormatTime` | components/TransactionDetails.tsx:17-21 | the result has a colon three from the end and is `MM:SS` below 100 minutes |
| `TransactionDetails.FormatTimeFields` | components/TransactionDetails.tsx:18-20 | the text before the colon is the minutes field, and after it the two-character seconds field |
| `TransactionDetails.NextCount` | components/TransactionDetails.tsx:73 | a positive count drops by one, zero wraps to 600, and the range [0, 600] is kept |
| `TransactionDetails.TicksCycle` | components/TransactionDetails.tsx:73 | from 600, `k` ticks give `600 - k mod 601`, always within [0, 600] |
| `TransactionDetails.Countdown.constructor` | components/TransactionDetails.tsx:30 | the countdown starts at 600 and not running |
| `TransactionDetails.Countdown.Restart` | components/TransactionDetails.tsx:68-77 | a transaction change resets to 600 and runs the interval iff a loaded transaction is unconfirmed |
| `TransactionDetails.Countdown.Tick` | components/TransactionDetails.tsx:72-74 | a running interval advances the count by `NextCount`, keeping it within [0, 600] |
| `TransactionDetails.ConfirmedShown` | components/TransactionDetails.tsx:132-133 | the panel counts as the hook does (`Blockchain.AddedConfirmations`), and "Confirmed" is shown iff the lookup says confirmed at a height the tip has reached |
| `TransactionDetails.SendNowConfirmations` | components/TransactionDetails.tsx:87 | the message counts `tip - h + 1` whenever both heights are truthy, without looking at `confirmed` |
| `TransactionDetails.SendNowVersusPanel` | components/TransactionDetails.tsx:87 | message and panel agree on a confirmed transaction and differ on an unconfirmed one that carries a reached height |
| `TransactionDetails.BlockLabel` | components/TransactionDetails.tsx:190 | the block field shows `Mempool` iff there is no height, otherwise the height |
| `TransactionDetails.TotalOutput` | components/TransactionDetails.tsx:88 | the `reduce` sum of the output values (its properties are `TotalOutputAppend` and `TotalOutputBounds`) |
| `TransactionDetails.TotalOutputAppend` | components/TransactionDetails.tsx:134 | the total of two runs of outputs is the sum of their totals |
| `TransactionDetails.TotalOutputBounds` | components/TransactionDetails.tsx:88 | with no negative output the total is non-negative and bounds every output |
| `TransactionList.StatusIcon` | components/TransactionList.tsx:24-35 | each of the three statuses gets its own icon and any other text none |
| `TransactionList.StatusText` | components/TransactionList.tsx:37-42 | a confirmed item reads `<n> Confirmation`, ending in `s` iff `n > 1`; any other status is capitalized |
| `TransactionList.OtherStatusTexts` | components/TransactionList.tsx:41 | `pending` and `unconfirmed` read `Pending` and `Unconfirmed` |
| `TransactionList.ConfirmedCountReadsBack` | components/TransactionList.tsx:39 | a confirmed item's text starts with its count in decimal, followed by a space |
| `TransactionList.ItemOf` | components/TransactionList.tsx:97 | an item is selected iff its id is the selected id |
| `TransactionList.RenderContent` | components/TransactionList.tsx:72-115 | loading wins, then the login prompt, then the list when non-empty, else the empty message; the list has one item per transaction in order |
| `TransactionList.AtMostOneSelected` | components/TransactionList.tsx:97 | with distinct ids at most one item is selected |

## Left out

- Network I/O. The mempool.space REST calls, the WebSocket tip feed and its
  reconnect behaviour (hooks/useBlockchain.ts:156-186) and the `fetch` wrappers
  are not modelled; the outcomes the hook acts on are parameters.
- Telegram delivery (hooks/useBlockchain.ts:45-78). An alert is a `Notification`
  value; the credentials request and the `sendMessage` request are not modelled,
  and no parameter stands for their result. A failed send sets the hook's error
  to a "Telegram notification failed" message. The model leaves that out,
  because the send is not awaited: the error lands at a time the pass does not
  control, so its order against the pass's own errors is not determined.
- `isDataLoaded` and the stats fetch it starts (hooks/useBlockchain.ts:155-186):
  the model's `Load` only replaces the watch set.
- Async interleaving. Overlapping passes and adds are not serialized in the
  source. The model runs one pass at a time, as a sequential loop over a snapshot.
- React's state batching. Each `setWatchedTxs` is applied at once, in program order.
- JWT signing and verification, and cookie serialisation. `decrypt` is an
  uninterpreted total function.
- Floating point and locale formatting: `satsToBtc`, `toFixed` and
  `toLocaleString`. Output values are integer satoshis, and counts appear as
  numbers rather than formatted text.
- The Markdown text of alerts and of error messages. Alerts keep only their
  kind and numbers, and errors only their kind.
- SQL DDL and real time. `CREATE TABLE` is a fault point, and `NOW()` is a
  counter that every upsert advances, so no two rows share an `added_at`. The
  real clock allows ties, whose listing order Postgres leaves unspecified.
- A `POST` body field of the wrong JSON type, for example a numeric `id`, is
  not modelled. A `POST` with no body at all is modelled (`NoBody`): reading a
  field of the missing `req.body` throws, and both routes answer 500.
- A session without an `email`: the model's session always has one.
- `Auth.GetSession`: its own ensures says only that a session needs a
  `session=` entry. Which token reaches `decrypt` is stated by `TokenOf`,
  `SingleEntryToken` and `TokenStopsAtEquals`.
- `TransactionDetails.FormatTime`: it is modelled for non-negative seconds
  only. The countdown never leaves [0, 600].
- `Text.Capitalize`: upper-cases ASCII letters only, where the source uses
  JavaScript's full Unicode `toUpperCase`.
- The components' rendering (JSX, CSS classes, the TelegramSettings form, which
  offers `none` even though the settings route refuses it), and the other
  components, contexts and auth routes.
