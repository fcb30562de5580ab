# Roulette ledger — a Dafny model

This project models the server core of a browser roulette game together with two client display
helpers:

- **The ledger.** `MemStorage` is an in-memory store of users and of settled bets ("transactions").
  It keeps them in two maps keyed by id, with two id counters that only grow. New users always
  start with 1000 FTN and 500 LBR.
- **The request handlers.** They cover four operations:
  - find or create a user by wallet address;
  - read a user's balances;
  - read a user's bet history, newest first (10 entries unless the request gives a limit);
  - settle a spin. The wheel has 33 slots: 16 violet, 16 black and 1 blue. A bet wins when the
    drawn colour's name equals the bet colour. A four-case table turns the result into FTN and
    LBR deltas. The deltas go to the ledger and one transaction is appended.
- **Client helpers.** `truncateAddress` shortens a wallet address for display. `getRelativeTime`
  picks a "just now / minutes / hours / days / date" label for a past instant.

Files:

- `builtins.dfy`: `Option` and the index arithmetic of JavaScript's `slice`.
- `schema.dfy`: the `User` and `Transaction` records.
- `storage.dfy`: the `MemStorage` class, plus the pure functions and lemmas behind its queries.
- `routes.dfy`: the wheel, the payout table and the handlers. Each handler is a method that takes
  the ledger as a parameter.
- `utils.dfy`: the two client helpers.

Modelling choices:

- **Insertion order.** A JavaScript `Map` iterates in insertion order. Ids are handed out in
  increasing order, re-setting an existing key keeps its place, and nothing is ever deleted. So the
  model lists map values in id order (`ValuesInOrder`). `MemStorage.Valid()` states that each map's
  keys are exactly 1 up to its counter.
- **Sort order.** `Array.prototype.sort` is stable, and its input is in id order. So the history
  lists transactions by timestamp descending, with ties in id order (`Precedes`).
- **Timestamps** are integers (milliseconds since the epoch) supplied by the caller.
- **The random draw** is a parameter in `[0, 33)`.
- **Where the work happens.** The history query is `Storage.RecentForUser`
  (server/storage.ts:77-85). It chains `Storage.FilterByUser` (server/storage.ts:79),
  `Storage.SortNewestFirst` (server/storage.ts:80-82) and `Builtins.Slice` (server/storage.ts:84).
  The spin's balance checks are `Routes.Affordable` (server/routes.ts:77-82), and its win test is
  `Routes.IsWin` (server/routes.ts:95). The lemmas in the table below state what each of them
  promises.

Quirks of the code that the model keeps:

- **Starting balances.** `createUser` always stores 1000 FTN / 500 LBR. The 100 / 50 that the
  wallet handler passes are overwritten (server/storage.ts:43-48).
- **The stake is never checked to be positive.** A negative stake can push a balance below zero;
  `NegativeStakeOverdraws` shows one.
- **Bet tokens are not validated.** A token other than "FTN" or "LBR" passes both balance checks,
  moves nothing, and is still recorded.
- **Colour names differ between client and server.** The client's bet type offers "red" and
  "black" (client/src/lib/roulette.ts:3), but the server draws "violet", "black" or "blue", so a
  bet on "red" never wins (`RedNeverWins`).
- **Negative limits.** `slice(0, limit)` with a negative limit drops entries from the end of the
  history. The model keeps this.

## Model

| member | source | states |
|---|---|---|
| `Builtins.Slice` | server/storage.ts:84 | `slice(start, end)` returns the contiguous run that starts at the normalised start index; its length is the gap between the two normalised indices, or 0 when they cross |
| `Builtins.SlicePrefix` | server/storage.ts:84 | `slice(0, n)` is the first min(n, len) elements for n ≥ 0, and all but the last −n elements for n < 0 |
| `Storage.ValuesInOrder` | server/storage.ts:78 | iterating a map keyed lo..hi−1 yields hi−lo values |
| `Storage.ValuesAt` | server/storage.ts:78 | value i of that iteration is the one stored under key lo+i |
| `Storage.FirstWithUsername` | server/storage.ts:35-39 | `find` returns the position of the first user with that username: every earlier user has another name, and the position is past the end exactly when nobody matches |
| `Storage.FilterKeeps` | server/storage.ts:79 | the filter keeps exactly the records of that user, and keeps them in id order |
| `Storage.InsertElements` | server/storage.ts:80-82 | one insertion step adds exactly the inserted record to the list's elements |
| `Storage.InsertSorted` | server/storage.ts:80-82 | inserting a record that is older in id than every record of a newest-first list keeps the list newest-first |
| `Storage.SortSorted` | server/storage.ts:80-82 | sorting an id-ordered list gives a newest-first list (ties in id order) that is a permutation of the input |
| `Storage.SortKeepsElements` | server/storage.ts:80-82 | sorting keeps the length and the set of elements |
| `Storage.RecentIsPrefix` | server/storage.ts:77-85 | the query result is a prefix of the complete sorted history of the user |
| `Storage.RecentForUserSpec` | server/storage.ts:77-85 | the result holds only that user's records, newest first; it has min(limit, count) entries (max(0, count+limit) for negative limits); every record of the user that is left out is older than every record returned |
| `Storage.FilterCount` | server/storage.ts:78-79 | the filtered list is as long as the set of ids lo..hi−1 whose record belongs to the user |
| `Storage.InOrderMembers` | server/storage.ts:78 | the values of a map keyed by its records' own ids are listed in increasing id order, and each stored record appears among them |
| `Storage.OwnedCount` | server/storage.ts:78-79 | the filtered list is as long as the set of the user's transaction ids |
| `Storage.HistorySpec` | server/storage.ts:77-85 | the query contract restated over a ledger map: stored records of the user only, newest first, the right length, and nothing newer left out |
| `Storage.MemStorage.AllUsers` | server/storage.ts:36 | the users in insertion order: position i holds user i+1 |
| `Storage.MemStorage.AllTransactions` | server/storage.ts:78 | the transactions in insertion order, with strictly increasing ids |
| `Storage.MemStorage.constructor` | server/storage.ts:18-29 | a new ledger holds exactly one user, `demo_user` with id 1 and 1000/500, no transactions, and counters 2 and 1 |
| `Storage.MemStorage.GetUser` | server/storage.ts:31-33 | found exactly when 1 ≤ id < currentUserId; the user found carries that id |
| `Storage.MemStorage.GetUserByUsername` | server/storage.ts:35-39 | not found exactly when no stored user has the name; otherwise the stored user with that name and the smallest id (the first in insertion order) |
| `Storage.MemStorage.GetUserTransactions` | server/storage.ts:77-85 | stored records of the user only, newest first (ties in insertion order); min(limit, number of the user's records) of them; no record of the user is left out that is newer than one returned |
| `Storage.MemStorage.CreateUser` | server/storage.ts:41-51 | the new user gets the old `currentUserId`, which was unused, and the counter grows by one; the balances are 1000/500 whatever the input said; `getUser` then returns it; every other entry and the transactions are untouched |
| `Storage.MemStorage.UpdateUserBalance` | server/storage.ts:53-65 | an unknown id gives none and changes nothing; a known id gets both deltas added, and every other field and user is untouched |
| `Storage.MemStorage.CreateTransaction` | server/storage.ts:67-75 | the record is stored unchanged under the old `currentTransactionId`, which was unused; the counter grows by one; users are untouched |
| `Routes.ColorOf` | server/routes.ts:86-93 | draws below 16 are violet, draws 16 to 31 are black, and 32 is blue |
| `Routes.SlotCounts` | server/routes.ts:85-93 | of the 33 draws, 16 are violet, 16 black and 1 blue |
| `Routes.RedNeverWins` | server/routes.ts:95 | no draw matches "red", a colour the client's bet type offers (client/src/lib/roulette.ts:3), so the server never pays a bet on it |
| `Routes.Payout` | server/routes.ts:98-118 | FTN win (+amt, 0); FTN loss (−amt, +amt); LBR win (+amt, 0); LBR loss (0, −amt); any other token (0, 0) |
| `Routes.NoOverdraw` | server/routes.ts:77-118 | with non-negative balances, a non-negative stake and a passed balance check, no balance becomes negative |
| `Routes.NegativeStakeOverdraws` | server/routes.ts:60-82 | a stake of −5 FTN passes the check against a zero balance, and a win leaves −5 FTN |
| `Routes.UnknownTokenIsFree` | server/routes.ts:77-118 | a token other than FTN/LBR passes both checks and gets zero deltas |
| `Routes.FindOrCreateByWallet` | server/routes.ts:12-38 | an empty address is invalid and changes nothing; an existing name returns the first such user and changes nothing; otherwise exactly one user is created, with the next id and 1000/500; afterwards looking the address up gives the returned id |
| `Routes.WalletLookupIsStable` | server/routes.ts:20-31 | two lookups of the same address return the same user id, and the only user they can add is that one |
| `Routes.GetBalance` | server/routes.ts:41-56 | not-found exactly when the id is unknown; otherwise that user's two balances; the ledger cannot change |
| `Routes.GetTransactions` | server/routes.ts:155-165 | the ledger query with the given limit, or with 10 when none is given |
| `Routes.Spin` | server/routes.ts:59-152 | unknown user: not-found and nothing changes; failed balance check: insufficient-FTN/LBR and nothing changes; otherwise the user's balances move by exactly the payout deltas of the drawn colour, one transaction with the next id records the bet and its win/loss, and the response repeats them |
| `Utils.TruncateAddress` | client/src/lib/utils.ts:31-34 | "" stays ""; otherwise the first min(4, n) characters, "...", and the last min(4, n) characters |
| `Utils.ShortAddressShownTwice` | client/src/lib/utils.ts:33 | an address of 1 to 4 characters comes out as itself, "...", and itself again |
| `Utils.TruncatedLength` | client/src/lib/utils.ts:33 | an address of at least 4 characters comes out 11 characters long |
| `Utils.GetRelativeTime` | client/src/lib/utils.ts:12-29 | with s elapsed seconds: s < 60 (negatives included) gives "just now"; 60 ≤ s < 3600 gives ⌊s/60⌋ minutes; below 86400, ⌊s/3600⌋ hours; below 604800, ⌊s/86400⌋ days; anything older gives the date |
| `Utils.OlderIsNeverFresher` | client/src/lib/utils.ts:12-29 | an older timestamp never gets a fresher bucket, and within the minutes, hours or days bucket it never shows a smaller count |

## Left out

- `Math.random()`: the slot is a parameter `draw` in [0, 33). The model says nothing about its distribution beyond counting the slots per colour.
- `new Date().toISOString()` and `Date` parsing: timestamps are integers given by the caller, and the history compares them as integers.
- Express routing, HTTP status codes, JSON bodies, zod parsing and `parseInt`. Outcomes are a `Response` datatype (Ok / Invalid / NotFound / InsufficientFtn / InsufficientLbr). So a non-numeric id, a malformed spin body and a non-numeric `limit` (which slices to an empty list) are not modelled.
- JavaScript numbers are doubles: balances, stakes and ids are unbounded `int`, so fractional stakes and precision loss are not modelled.
- The `async`/`await` of the ledger and any interleaving of requests. Every operation runs to completion, as it does in the single-threaded server.
- `Routes.Spin`: the response's `updatedUser?.` fallback for a user that vanished between the check and the update cannot happen in a single-threaded run. The model does not represent it.
- The `IStorage` interface, the module-level `storage` singleton (the ledger is passed to each handler), and the database schema's defaults and unique-username constraint, which `MemStorage` does not use.
- `getRelativeTime`: the model returns a label datatype. The text of the label ("5m ago") and the locale date string of the fallback are not modelled.
- `Utils.TruncateAddress`: counts Unicode characters, but JavaScript's `slice` counts UTF-16 code units, so the two differ for addresses with characters outside the Basic Multilingual Plane. Wallet addresses are ASCII hex.
- `Storage.MemStorage.GetUserTransactions`: the storage method's own default `limit = 10` (server/storage.ts:77) is not modelled; `limit` is always given. The only caller, the transactions route, always passes a number, and `Routes.GetTransactions` models that route's default of 10.
- `cn` and `formatNumber`: wrappers over class-name merging and `Intl` number formatting.
