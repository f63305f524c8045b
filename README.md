# Bankist — a verified model of the account store

Bankist is a single-page demo bank. It holds five accounts in memory.
Each account has an owner's name, a list of movements (positive numbers
are deposits, negative ones withdrawals), an interest rate and a pin. At
load time every account is given a username: the lower-cased initials of
its owner's name. A user logs in with a username and a pin, and then can:

- transfer money to another account by its username;
- request a loan, granted when some deposit is at least a tenth of it;
- close their account by confirming their username and pin.

After a successful login, transfer or loan, the UI of the logged-in
account is refreshed; a close hides it instead. The refresh shows:

- the movement rows, newest first;
- the balance, which is also cached on the account object;
- the in/out summary.

The model is split into four modules:

- `Movements` (movements.dfy) covers the values derived from a list of
  movements. They are the balance (`Sum`, a left fold), the summary
  filters and totals (`Deposits`, `Withdrawals`, `Incomes`, `Out`) and
  the label of each row (`Classify`, `DisplayMovements`).
- `Usernames` (usernames.dfy) covers the username derivation. It is
  written as the source's chain of lower-casing, `split(' ')`, first
  characters and `join('')`. It is proved against an independent
  definition, the word-starting characters of the name (`WordStarts`).
- `ArrayOps` (arrays.dfy) covers `find`/`findIndex` (`FindIndex`) and
  `splice(start, 1)` (`SpliceStart`, `SpliceOne`). This includes the
  negative start that `findIndex` returning -1 leads to.
- `Bank` (bank.dfy) covers the data and the handlers:
  - the `Account` class. `movements`, `username` and the cached
    `balance` are mutable fields; the cached balance is `None` until the
    account's UI is first refreshed.
  - the `App` class. Its fields are the `accounts` array and the nullable
    `currentAccount`, which is undefined before the first login.
  - the login, transfer, loan and close handlers, as methods with their
    DOM work removed. A handler either does its work (`Done`), is refused
    by its guard (`Rejected`), or reads a property of an undefined
    `currentAccount` and throws before changing anything (`Thrown`).

The invariant `App.Valid` holds across every handler. It says:

- the accounts are distinct objects;
- no cached balance overstates the true one (`Account.CacheSound`);
- a logged-in account that is still in the store is the first account
  with its username (`App.CurrentIsFirst`), since `find` picked it that
  way at login and no handler changes a username.

The second part holds because only the logged-in account's cache is ever
refreshed. A transfer's receiver gains money without its cache changing.
Because of that invariant, a transfer accepted against the cached balance
never makes the sender's true balance negative.

Some behaviour of the code is kept as written.

- Login sets `currentAccount` to the account found even when the pin
  does not match; the error is shown but the switch is not undone.
- Closing an account does not clear `currentAccount`. A closed account
  can still make transfers and take loans. A transfer from it adds money
  to the store from outside it. A loan to it goes to an account outside
  the store and leaves the store's total unchanged. The conservation
  contracts of `Transfer` and `RequestLoan` state both cases.
- Closing the same account again removes another account. `findIndex`
  then looks for the closed account's username. If another account
  shares that username (say "Jonas Smith" and "Jane Smith", both `js`),
  the first such account is removed. If no account has it, `findIndex`
  gives -1 and `splice(-1, 1)` removes the last account of the store.
- An owner's name made only of spaces gives an empty username, just as
  an empty name does (`UsernameEmpty`).

## Model

| member | source | states |
|---|---|---|
| Movements.Sum | script.js:101 | The left fold `reduce((acc, mov) => acc + mov, 0)` equals the movements added up first to last (`SumFromFront`), so the order of the fold does not matter. |
| Movements.SumAppend | script.js:101 | The fold that computes the balance adds a new last movement to the previous balance. |
| Movements.SumConcat | script.js:101 | The balance of two lists one after the other is the sum of their balances. |
| Movements.SumSign | script.js:106-114 | A list of deposits only totals at least 0; a list of withdrawals only totals at most 0; a non-empty one of either is not 0. |
| Movements.Deposits | script.js:106-107 | The filter keeps every positive movement as many times as it occurs, and nothing else (as a multiset); it is no longer than the list. |
| Movements.Withdrawals | script.js:111-113 | The filter keeps every negative movement as many times as it occurs, and nothing else (as a multiset); it is no longer than the list. |
| Movements.Incomes | script.js:106-108 | The "in" figure is at least 0, and is 0 exactly when there is no deposit. |
| Movements.Out | script.js:111-114 | The "out" figure (withdrawals total times -1) is at least 0, and is 0 exactly when there is no withdrawal. |
| Movements.IncomesMinusOut | script.js:101-114 | For every list of movements, in minus out equals the balance. |
| Movements.Classify | script.js:88 | The label is deposit exactly when the movement is positive, and withdrawal exactly when it is 0 or negative. |
| Movements.LabelsAgreeWithSummary | script.js:88-113 | A row is labelled deposit exactly when its movement is counted in "in"; it is labelled withdrawal exactly when it is counted in "out" or is 0. |
| Movements.DisplayMovements | script.js:85-98 | One row per movement, newest first: row k shows movement n-1-k with its 1-based number and its deposit/withdrawal label. |
| Usernames.ToLower | script.js:139 | The result is never an upper-case letter; an upper-case letter becomes its lower-case letter (32 code points on); every other character is kept. |
| Usernames.Lower | script.js:139 | Lower-casing keeps the length, lowers each character on its own, leaves no upper-case letter, and keeps every character that is not an upper-case letter. |
| Usernames.Split | script.js:140 | `split(' ')` always gives at least one piece. |
| Usernames.SplitHasNoSpaces | script.js:140 | No piece of a split contains a space. |
| Usernames.SplitLength | script.js:140 | A split has one more piece than the string has spaces. |
| Usernames.JoinSplit | script.js:140 | Joining the pieces with single spaces gives the string back. |
| Usernames.SplitJoin | script.js:140 | Splitting the spaced join of space-free words gives the words back. |
| Usernames.InitialsAreWordStarts | script.js:140-142 | The first characters of the pieces are the characters that start a word (non-space, at the start or after a space); empty pieces contribute nothing. |
| Usernames.Initial | script.js:141 | `name[0]` joined by `join('')`: at most one character, none exactly for an empty piece, otherwise the piece's first character. |
| Usernames.Initials | script.js:141-142 | One character per piece when no piece is empty, and nothing when every piece is empty. |
| Usernames.LowerWordStarts | script.js:139-142 | Lower-casing first and then taking the word starts is the same as taking the word starts and then lower-casing them. |
| Usernames.Username | script.js:138-142 | The username is the lower-cased word-starting characters of the owner's name, in order (`WordStarts`, an independent definition). |
| Usernames.WordStartsEmpty | script.js:141-142 | There are no word starts exactly when every character is a space. |
| Usernames.UsernameEmpty | script.js:138-142 | The username is empty exactly when the owner's name has no character other than a space. |
| Usernames.InitialsLength | script.js:141-142 | The initials have one character per non-empty piece, so at most one per piece. |
| Usernames.UsernameLength | script.js:138-142 | The username is no longer than the number of pieces, nor than the owner's name. |
| ArrayOps.FindIndex | script.js:271-273 | The result is -1 exactly when the key is absent; otherwise it is the position of the first occurrence. |
| ArrayOps.SpliceStart | script.js:274 | A start within the array is kept; a negative start counts back from the end and stops at 0; a start past the end is clamped to the end. |
| ArrayOps.SpliceOne | script.js:274 | When the start falls inside the array, `splice(start, 1)` removes exactly the element at the start position: the result plus that element is the old array as a multiset. Otherwise it leaves the array unchanged. |
| ArrayOps.SpliceOneAt | script.js:274 | At a found position `i`, `splice(i, 1)` leaves exactly the elements before and after `i`, in order. |
| ArrayOps.SpliceOneMinusOne | script.js:271-274 | When `findIndex` gives -1, `splice(-1, 1)` removes the last element, or nothing from an empty array. |
| ArrayOps.DropLast | script.js:271-274 | The array without its last element, which `splice(-1, 1)` leaves: one element shorter with the others in place, and empty for an empty array. |
| ArrayOps.SpliceOneDistinct | script.js:274 | Removing an element keeps the other elements distinct and adds none. |
| ArrayOps.SpliceOneRemoves | script.js:274 | In an array of distinct elements, the element at the spliced position is no longer there. |
| ArrayOps.SpliceOneFound | script.js:271-274 | Splicing at the position `findIndex` gives for an element (or at -1 when it is absent) leaves that element out, and keeps the rest in order or drops the last. |
| Bank.Account.constructor | script.js:8-41 | A new account has the given owner, movements, rate and pin, no username yet and no cached balance. |
| Bank.CalcDisplayBalance | script.js:100-103 | The cached balance becomes the sum of the movements, and that is the balance shown. |
| Bank.UpdateUI | script.js:125-134 | The refresh caches the true balance, shows in and out with in minus out equal to it, and shows the rows of `displayMovements`. |
| Bank.SetUsername | script.js:138-142 | One step of the loop: the account at position i gets its username, and the ones before it keep theirs. |
| Bank.CreateUsernames | script.js:136-145 | Every account's username becomes `Username(owner)`; movements and cached balances are untouched. |
| Bank.Move | script.js:202-207 | `-amount` is appended to the sender and `amount` to the receiver; their balances move by exactly that; the sender's cache is refreshed. |
| Bank.Grant | script.js:235-238 | `amount` is appended to the account, its balance grows by exactly that, and its cache is refreshed. |
| Bank.TotalAppend | script.js:202-204 | Appending one movement to one account changes the store's total by exactly that movement. |
| Bank.TransferConserves | script.js:202-204 | A transfer between two different accounts of the store leaves its total unchanged. |
| Bank.GrantTotal | script.js:235 | After a loan, the store's total grows by the amount when the borrower is in the store, and is unchanged when it is not. |
| Bank.MoveTotal | script.js:202-204 | After a transfer, the store's total is unchanged when the sender is in the store, and grows by the amount when it is not. |
| Bank.SomeCovers | script.js:233 | `deposits.some(...)` holds exactly when some deposit is at least a tenth of the amount. |
| Bank.DepositCovers | script.js:232-233 | A deposit that covers the amount exists exactly when some positive movement covers it. |
| Bank.LoanApproved | script.js:231-233 | The loan is approved exactly when the amount is positive and some positive movement is at least a tenth of it. |
| Bank.DemoAccounts | script.js:8-43 | The five starting accounts with their owners, pins and movements, all distinct and with no cached balance. |
| Bank.App.constructor | script.js:136-145 | At load time the store holds the given accounts with their usernames set, nobody is logged in, and the invariant holds. |
| Bank.App.Login | script.js:149-175 | `currentAccount` becomes the first account with the entered username (or undefined), whatever the pin. Login succeeds exactly when that account exists and its pin matches. On success its cache is refreshed; nothing else changes. |
| Bank.App.Transfer | script.js:178-216 | The outcome is Rejected when no account has the username or the amount is not positive. Otherwise it is Thrown when nobody is logged in. Otherwise it is Done exactly when the amount is within the cached balance and the usernames differ. Done appends exactly `-amount` and `amount` and changes nothing else. The sender's true balance stays at least 0. The total is conserved unless the sender was removed from the store. A refusal changes nothing. No username changes, the logged-in account's included. |
| Bank.App.Commit | script.js:201-207 | The success branch of a transfer keeps the invariant, appends the two movements, refreshes only the sender's cache, leaves every username alone and leaves the sender's true balance at least 0. |
| Bank.App.RequestLoan | script.js:219-246 | Thrown when nobody is logged in. Otherwise Done exactly when the loan rule approves, and then `amount` is appended and the cache refreshed. A refusal changes nothing, and other accounts never change. No username changes, the logged-in account's included. The total grows by the amount exactly when the loan is granted to an account of the store. |
| Bank.App.Select | script.js:153-155 | `find` by username: `currentAccount` becomes the first account with the entered username, or undefined when none has it; the invariant holds for the new current account. |
| Bank.App.RefreshCurrent | script.js:171 | `updateUI(currentAccount)` refreshes only the logged-in account's cache, to its true balance; movements, usernames and every other cache stay as they were. |
| Bank.App.UsernamesKept | script.js:149-246 | Handlers that leave the accounts array and every account's username alone leave the usernames list unchanged. |
| Bank.App.RemoveCurrent | script.js:271-274 | The store becomes `splice(findIndex(username), 1)` of the old one. A current account still in the store is the one found, and it is removed at its position. When no account has the current username, the last account is removed. Afterwards the current account is not in the store. |
| Bank.App.Splice | script.js:274 | `splice` keeps the accounts distinct and their caches sound, and gives `SpliceOne` of the old array. |
| Bank.App.Close | script.js:249-284 | The outcome is Rejected when the username is empty or the pin is 0. Otherwise it is Thrown when nobody is logged in. Otherwise it is Done exactly when both match the current account. Done removes what `findIndex`/`splice` select. That is the current account at its position when it is still in the store. After it was removed, it is the first account with the same username, or the last account when no account has that username. Afterwards the current account is not in the store. `currentAccount` is left in place, and a refusal changes nothing. |

## Left out

- The interest figure of the summary (script.js:117-122) is left out. It
  is floating-point arithmetic on the rate, and the rate is only stored
  on the account.
- Movements.Sum: movements, balances and totals are unbounded integers
  and the arithmetic is exact. In the source they are JavaScript numbers
  (doubles), which are exact only up to `Number.MAX_SAFE_INTEGER`
  (2^53 - 1). Beyond that the source rounds and the model does not. A
  loan may be up to ten times the largest deposit, so repeated loans can
  reach that range.
- Bank.LoanApproved: the rule is stated with exact integers as
  `10 * mov >= amount`, where the source compares `mov` with the double
  `amount * 0.1`. For integer amounts within the exact range, the two
  tests agree. Beyond it the model does not follow the source's rounding.
- Amounts and pins are integers. `Number()` on the input fields is not
  modelled: fractions and `NaN` cannot be passed in. An empty field,
  which `Number` turns into 0, is passed as 0.
- Usernames.ToLower, Usernames.Lower: only the ASCII letters are lower-cased. Strings are
  sequences of characters, not UTF-16 code units.
- All DOM work is left out: element lookups, `innerHTML` and text
  content, opacity, background colours, `setTimeout`, clearing and
  blurring the input fields, and the welcome message. `DisplayMovements`
  and `UpdateUI` return what would be shown instead.
- Event wiring (`addEventListener`, `preventDefault`) is left out. Each
  handler is a method the caller invokes.
- The `currencies` map (script.js:79-83) is never used by the app.
- The sort button has no handler.
- The coding exercises after line 286 are not part of the app.
- Before `createUsernames` runs, the `username` property is undefined in
  the source. Here it starts as the empty string, and `App.constructor`
  sets every username before any handler can run.
