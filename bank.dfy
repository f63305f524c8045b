/** The in-memory account store and the state changes of the login,
    transfer, loan and close handlers, with the DOM work removed. */
module Bank {
  import opened Movements
  import opened Usernames
  import opened ArrayOps

  datatype Option<T> = None | Some(value: T)

  /** How a handler ends: it did its work, its guard refused it, or it read
      a property of an undefined `currentAccount` and threw a TypeError
      before changing anything. */
  datatype Outcome = Done | Rejected | Thrown

  /** What `updateUI` puts on screen for an account. */
  datatype View = View(rows: seq<Row>, balance: int, incomes: int, out: int)

  class Account {
    const owner: string
    const interestRate: real
    const pin: int
    var movements: seq<int>
    /** Set by `createUsernames` at load time. */
    var username: string
    /** The cached balance: `undefined` until `updateUI` first runs. */
    var balance: Option<int>

    constructor (owner: string, movements: seq<int>, interestRate: real, pin: int)
      ensures this.owner == owner && this.movements == movements
      ensures this.interestRate == interestRate && this.pin == pin
      ensures username == [] && balance == None
    {
      this.owner := owner;
      this.movements := movements;
      this.interestRate := interestRate;
      this.pin := pin;
      username := [];
      balance := None;
    }

    /** Movements only ever grow between refreshes of the cache except on
        the account that is refreshed, so the cache never overstates. */
    ghost predicate CacheSound()
      reads this
    {
      balance.Some? ==> balance.value <= Sum(movements)
    }
  }

  /** `calcDisplayBalance`: refreshes the cached balance. */
  method CalcDisplayBalance(account: Account) returns (shown: int)
    modifies account`balance
    ensures account.balance == Some(Sum(account.movements))
    ensures shown == Sum(account.movements)
  {
    shown := Sum(account.movements);
    account.balance := Some(shown);
  }

  /** `updateUI`: the movement rows, the refreshed balance and the
      in/out summary of one account. */
  method UpdateUI(account: Account) returns (view: View)
    modifies account`balance
    ensures account.balance == Some(Sum(account.movements))
    ensures view.balance == Sum(account.movements) == view.incomes - view.out
    ensures view.incomes == Incomes(account.movements) && view.out == Out(account.movements)
    ensures |view.rows| == |account.movements|
    ensures forall k :: 0 <= k < |view.rows| ==>
      var i := |account.movements| - 1 - k;
      view.rows[k] == Row(i + 1, Classify(account.movements[i]), account.movements[i])
  {
    var rows := DisplayMovements(account.movements);
    var shown := CalcDisplayBalance(account);
    IncomesMinusOut(account.movements);
    view := View(rows, shown, Incomes(account.movements), Out(account.movements));
  }

  /** The body of `createUsernames`'s loop, for the account at `i`. */
  method SetUsername(accs: seq<Account>, i: nat, acc: Account)
    requires i < |accs| && accs[i] == acc
    requires forall k :: 0 <= k < i ==> accs[k].username == Username(accs[k].owner)
    modifies acc`username
    ensures forall k :: 0 <= k <= i ==> accs[k].username == Username(accs[k].owner)
  {
    acc.username := Username(acc.owner);
  }

  /** `createUsernames`: sets every account's username from its owner. */
  method CreateUsernames(accs: seq<Account>)
    modifies accs
    ensures forall a :: a in accs ==> a.username == Username(a.owner)
    ensures forall a :: a in accs ==> a.movements == old(a.movements) && a.balance == old(a.balance)
  {
    var i := 0;
    while i < |accs|
      invariant 0 <= i <= |accs|
      invariant forall k :: 0 <= k < i ==> accs[k].username == Username(accs[k].owner)
      invariant forall k :: 0 <= k < |accs| ==> accs[k].movements == old(accs[k].movements)
      invariant forall k :: 0 <= k < |accs| ==> accs[k].balance == old(accs[k].balance)
    {
      SetUsername(accs, i, accs[i]);
      i := i + 1;
    }
  }

  /** The state change of a successful transfer: `-amount` pushed onto
      the sender, `amount` onto the receiver, and the sender's UI (and so
      its cached balance) refreshed. */
  method Move(sender: Account, receiver: Account, amount: int)
    requires sender != receiver
    modifies sender`movements, sender`balance, receiver`movements
    ensures sender.movements == old(sender.movements) + [-amount]
    ensures receiver.movements == old(receiver.movements) + [amount]
    ensures sender.balance == Some(Sum(sender.movements))
    ensures Sum(sender.movements) == old(Sum(sender.movements)) - amount
    ensures Sum(receiver.movements) == old(Sum(receiver.movements)) + amount
  {
    var debited := sender.movements;
    var credited := receiver.movements;
    sender.movements := debited + [-amount];
    receiver.movements := credited + [amount];
    SumAppend(debited, -amount);
    SumAppend(credited, amount);
    var _ := UpdateUI(sender);
  }

  /** The state change of a granted loan: `amount` pushed onto the
      account and its UI (and so its cached balance) refreshed. */
  method Grant(account: Account, amount: int)
    modifies account`movements, account`balance
    ensures account.movements == old(account.movements) + [amount]
    ensures account.balance == Some(Sum(account.movements))
    ensures Sum(account.movements) == old(Sum(account.movements)) + amount
  {
    var before := account.movements;
    account.movements := before + [amount];
    SumAppend(before, amount);
    var _ := UpdateUI(account);
  }

  /** The total of all movements of a list of accounts' movements. */
  function Total(ledger: seq<seq<int>>): int
  {
    if ledger == [] then 0 else Sum(ledger[0]) + Total(ledger[1..])
  }

  /** Appending one movement to one account moves the total by exactly
      that movement. */
  lemma {:induction false} TotalAppend(ledger: seq<seq<int>>, i: nat, x: int)
    requires i < |ledger|
    ensures Total(ledger[i := ledger[i] + [x]]) == Total(ledger) + x
  {
    var updated := ledger[i := ledger[i] + [x]];
    if i == 0 {
      SumAppend(ledger[0], x);
      assert updated[1..] == ledger[1..];
    } else {
      TotalAppend(ledger[1..], i - 1, x);
      assert updated[1..] == ledger[1..][i - 1 := ledger[i] + [x]];
    }
  }

  /** A transfer between two different accounts of the store, `-amount`
      on one and `+amount` on the other, leaves the total unchanged. */
  lemma TransferConserves(ledger: seq<seq<int>>, from: nat, to: nat, amount: int)
    requires from < |ledger| && to < |ledger| && from != to
    ensures Total(ledger[from := ledger[from] + [-amount]][to := ledger[to] + [amount]]) == Total(ledger)
  {
    var debited := ledger[from := ledger[from] + [-amount]];
    TotalAppend(ledger, from, -amount);
    TotalAppend(debited, to, amount);
  }

  /** The ledger after a transfer to `to`, from `from` or (when `from` is
      -1) from an account that is no longer in the store. */
  lemma MoveTotal(before: seq<seq<int>>, after: seq<seq<int>>, from: int, to: nat, amount: int)
    requires |after| == |before| && -1 <= from < |before| && to < |before| && from != to
    requires from >= 0 ==> after[from] == before[from] + [-amount]
    requires after[to] == before[to] + [amount]
    requires forall k :: 0 <= k < |before| && k != from && k != to ==> after[k] == before[k]
    ensures Total(after) == Total(before) + if from < 0 then amount else 0
  {
    if from >= 0 {
      assert after == before[from := before[from] + [-amount]][to := before[to] + [amount]];
      TransferConserves(before, from, to, amount);
    } else {
      assert after == before[to := before[to] + [amount]];
      TotalAppend(before, to, amount);
    }
  }

  /** The ledger after a loan to the account at `at`, or (when `at` is -1)
      to an account that is no longer in the store. */
  lemma GrantTotal(before: seq<seq<int>>, after: seq<seq<int>>, at: int, amount: int)
    requires |after| == |before| && -1 <= at < |before|
    requires at >= 0 ==> after[at] == before[at] + [amount]
    requires forall k :: 0 <= k < |before| && k != at ==> after[k] == before[k]
    ensures Total(after) == Total(before) + if at < 0 then 0 else amount
  {
    if at >= 0 {
      assert after == before[at := before[at] + [amount]];
      TotalAppend(before, at, amount);
    } else {
      assert after == before;
    }
  }

  /** The loan rule: some deposit is at least a tenth of the amount. */
  function SomeCovers(deposits: seq<int>, amount: int): (r: bool)
    ensures r <==> exists d :: d in deposits && 10 * d >= amount
  {
    if deposits == [] then false
    else
      var rest := deposits[1..];
      assert forall d :: d in deposits <==> d == deposits[0] || d in rest by {
        assert deposits == [deposits[0]] + rest;
      }
      if 10 * deposits[0] >= amount then
        assert deposits[0] in deposits;
        true
      else
        SomeCovers(rest, amount)
  }

  /** `amount && amount > 0 && deposits.some(mov => mov >= amount * 0.1)` */
  function LoanApproved(movements: seq<int>, amount: int): (r: bool)
    ensures r <==> amount > 0 && exists i :: 0 <= i < |movements| && movements[i] > 0 && 10 * movements[i] >= amount
  {
    DepositCovers(movements, amount);
    amount != 0 && amount > 0 && SomeCovers(Deposits(movements), amount)
  }

  lemma DepositCovers(movements: seq<int>, amount: int)
    ensures (exists d :: d in Deposits(movements) && 10 * d >= amount) <==>
            exists i :: 0 <= i < |movements| && movements[i] > 0 && 10 * movements[i] >= amount
  {
    if exists d :: d in Deposits(movements) && 10 * d >= amount {
      var d :| d in Deposits(movements) && 10 * d >= amount;
      var i :| 0 <= i < |movements| && movements[i] == d;
    }
    if exists i :: 0 <= i < |movements| && movements[i] > 0 && 10 * movements[i] >= amount {
      var i :| 0 <= i < |movements| && movements[i] > 0 && 10 * movements[i] >= amount;
      assert movements[i] in Deposits(movements);
    }
  }

  /** The five accounts the app starts with. */
  method DemoAccounts() returns (accs: seq<Account>)
    ensures |accs| == 5 && Distinct(accs)
    ensures forall a :: a in accs ==> fresh(a) && a.balance == None
    ensures accs[0].owner == "Jonas Schmedtmann" && accs[0].pin == 1111
    ensures accs[0].movements == [200, 450, -400, 3000, -650, -130, 70, 1300]
    ensures accs[1].owner == "Jessica Davis" && accs[1].pin == 2222
    ensures accs[1].movements == [5000, 3400, -150, -790, -3210, -1000, 8500, -30]
    ensures accs[2].owner == "Steven Thomas Williams" && accs[2].pin == 3333
    ensures accs[2].movements == [200, -200, 340, -300, -20, 50, 400, -460]
    ensures accs[3].owner == "Sarah Smith" && accs[3].pin == 4444
    ensures accs[3].movements == [430, 1000, 700, 50, 90]
    ensures accs[4].owner == "Anuar Shaidenov" && accs[4].pin == 7045
    ensures accs[4].movements == [430, 1000, 700, 50, 90, 1000000]
  {
    var account1 := new Account("Jonas Schmedtmann", [200, 450, -400, 3000, -650, -130, 70, 1300], 1.2, 1111);
    var account2 := new Account("Jessica Davis", [5000, 3400, -150, -790, -3210, -1000, 8500, -30], 1.5, 2222);
    var account3 := new Account("Steven Thomas Williams", [200, -200, 340, -300, -20, 50, 400, -460], 0.7, 3333);
    var account4 := new Account("Sarah Smith", [430, 1000, 700, 50, 90], 1.0, 4444);
    var account5 := new Account("Anuar Shaidenov", [430, 1000, 700, 50, 90, 1000000], 2.0, 7045);
    accs := [account1, account2, account3, account4, account5];
  }

  /** The module-level state of the app: the `accounts` array and the
      logged-in `currentAccount` (undefined before the first login). */
  class App {
    var accounts: seq<Account>
    var currentAccount: Account?

    ghost predicate Valid()
      reads this, accounts, currentAccount
    {
      StoreValid() && CurrentIsFirst()
    }

    /** The accounts are distinct objects and no cached balance
        overstates the true one. */
    ghost predicate StoreValid()
      reads this, accounts, currentAccount
    {
      Distinct(accounts) &&
      (forall a :: a in accounts ==> a.CacheSound()) &&
      (currentAccount != null ==> currentAccount.CacheSound())
    }

    /** A logged-in account that is still in the store is the first one
        with its username, as `find` picked it at login. */
    ghost predicate CurrentIsFirst()
      reads this, accounts, currentAccount
    {
      currentAccount != null && currentAccount in accounts ==>
        var i := FindIndex(UsernameList(), currentAccount.username);
        0 <= i && accounts[i] == currentAccount
    }

    /** The usernames in the order of `accounts`, as `find` scans them. */
    function UsernameList(): (r: seq<string>)
      reads this`accounts, accounts
      ensures |r| == |accounts|
      ensures forall k :: 0 <= k < |r| ==> r[k] == accounts[k].username
    {
      var accs := accounts;
      seq(|accs|, k requires 0 <= k < |accs| reads accs => accs[k].username)
    }

    /** Every account's movements, in the order of `accounts`. */
    ghost function Ledger(): (r: seq<seq<int>>)
      reads this`accounts, accounts
      ensures |r| == |accounts|
      ensures forall k :: 0 <= k < |r| ==> r[k] == accounts[k].movements
    {
      var accs := accounts;
      seq(|accs|, k requires 0 <= k < |accs| reads accs => accs[k].movements)
    }

    /** The money held in the store. */
    ghost function TotalMoney(): int
      reads this`accounts, accounts
    {
      Total(Ledger())
    }

    /** The load-time setup: the `accounts` array, with `createUsernames`
        run over it and no one logged in. */
    constructor (accs: seq<Account>)
      requires Distinct(accs)
      requires forall a :: a in accs ==> a.balance == None
      modifies accs
      ensures Valid() && accounts == accs && currentAccount == null
      ensures forall a :: a in accs ==> a.username == Username(a.owner)
      ensures forall a :: a in accs ==> a.movements == old(a.movements) && a.balance == None
    {
      accounts := accs;
      currentAccount := null;
      new;
      CreateUsernames(accs);
    }

    /** The login handler: `currentAccount` becomes the first account with
        the entered username (or undefined), whether or not the pin then
        matches; on a match the UI, and so the cached balance, is refreshed. */
    method Login(user: string, pin: int) returns (ok: bool)
      requires Valid()
      modifies this`currentAccount, accounts
      ensures Valid()
      ensures accounts == old(accounts) && UsernameList() == old(UsernameList()) && Ledger() == old(Ledger())
      ensures var i := FindIndex(old(UsernameList()), user);
        currentAccount == if i < 0 then null else accounts[i]
      ensures ok <==> currentAccount != null && currentAccount.pin == pin
      ensures ok ==> currentAccount.balance == Some(Sum(currentAccount.movements))
      ensures forall a :: a in accounts && !(ok && a == currentAccount) ==> a.balance == old(a.balance)
    {
      Select(user);
      ok := currentAccount != null && currentAccount.pin == pin;
      if ok {
        RefreshCurrent();
      }
    }

    /** `currentAccount = accounts.find(acc => acc.username === user)`. */
    method Select(user: string)
      requires Valid()
      modifies this`currentAccount
      ensures Valid()
      ensures var i := FindIndex(UsernameList(), user);
        currentAccount == if i < 0 then null else accounts[i]
    {
      var i := FindIndex(UsernameList(), user);
      currentAccount := if i < 0 then null else accounts[i];
    }

    /** `updateUI(currentAccount)`: only the logged-in account's cached
        balance changes. */
    method RefreshCurrent()
      requires Valid() && currentAccount != null
      modifies currentAccount`balance
      ensures Valid()
      ensures currentAccount.balance == Some(Sum(currentAccount.movements))
      ensures UsernameList() == old(UsernameList()) && Ledger() == old(Ledger())
      ensures forall a :: a in accounts && a != currentAccount ==> a.balance == old(a.balance)
    {
      var _ := UpdateUI(currentAccount);
      UsernamesKept();
    }

    /** The transfer handler. It succeeds iff an account has the entered
        username, the amount is positive, it does not exceed the sender's
        cached balance, and the two usernames differ. */
    method Transfer(to: string, amount: int) returns (outcome: Outcome)
      requires Valid()
      modifies accounts, currentAccount
      ensures Valid()
      ensures accounts == old(accounts) && currentAccount == old(currentAccount)
      ensures UsernameList() == old(UsernameList())
      ensures currentAccount != null ==> currentAccount.username == old(currentAccount.username)
      ensures var ri := FindIndex(old(UsernameList()), to);
        outcome == old(
          if ri < 0 || amount <= 0 then Rejected
          else if currentAccount == null then Thrown
          else if currentAccount.balance.None? || amount > currentAccount.balance.value then Rejected
          else if accounts[ri].username == currentAccount.username then Rejected
          else Done)
      ensures outcome == Done ==>
        var receiver := accounts[FindIndex(old(UsernameList()), to)];
        && receiver != currentAccount
        && currentAccount.movements == old(currentAccount.movements) + [-amount]
        && receiver.movements == old(receiver.movements) + [amount]
        && currentAccount.balance == Some(Sum(currentAccount.movements))
        && receiver.balance == old(receiver.balance)
        && (forall a :: a in accounts && a != currentAccount && a != receiver ==>
              a.movements == old(a.movements) && a.balance == old(a.balance))
      // The sender's true balance cannot go negative: the cache never overstates it.
      ensures outcome == Done ==> Sum(currentAccount.movements) >= 0
      ensures outcome != Done ==> Ledger() == old(Ledger())
      ensures outcome != Done ==> forall a :: a in accounts ==> a.balance == old(a.balance)
      ensures outcome != Done && currentAccount != null ==>
        currentAccount.movements == old(currentAccount.movements) && currentAccount.balance == old(currentAccount.balance)
      // Money is conserved inside the store, unless the sender is no longer in it.
      ensures TotalMoney() == old(TotalMoney()) +
        if outcome == Done && old(currentAccount) !in old(accounts) then amount else 0
    {
      var ri := FindIndex(UsernameList(), to);
      if ri < 0 || amount <= 0 {
        return Rejected;
      }
      if currentAccount == null {
        return Thrown;
      }
      var receiver := accounts[ri];
      if currentAccount.balance.None? || amount > currentAccount.balance.value
        || receiver.username == currentAccount.username {
        return Rejected;
      }
      Commit(ri, amount);
      outcome := Done;
    }

    /** The success branch of the transfer handler, for the receiver at
        position `ri` of `accounts`. */
    method Commit(ri: nat, amount: int)
      requires Valid() && currentAccount != null
      requires ri < |accounts| && accounts[ri] != currentAccount
      requires currentAccount.balance.Some? && 0 < amount <= currentAccount.balance.value
      modifies accounts[ri], currentAccount
      ensures Valid()
      ensures accounts == old(accounts) && currentAccount == old(currentAccount)
      ensures UsernameList() == old(UsernameList())
      ensures currentAccount != null ==> currentAccount.username == old(currentAccount.username)
      ensures currentAccount.movements == old(currentAccount.movements) + [-amount]
      ensures accounts[ri].movements == old(accounts[ri].movements) + [amount]
      ensures currentAccount.balance == Some(Sum(currentAccount.movements))
      ensures accounts[ri].balance == old(accounts[ri].balance)
      ensures forall a :: a in accounts && a != currentAccount && a != accounts[ri] ==>
        a.movements == old(a.movements) && a.balance == old(a.balance)
      ensures Sum(currentAccount.movements) >= 0
      ensures TotalMoney() == old(TotalMoney()) + if currentAccount !in accounts then amount else 0
    {
      ghost var before := Ledger();
      var sender := currentAccount;
      var receiver := accounts[ri];
      ghost var si := FindIndex(accounts, sender);
      Move(sender, receiver, amount);
      UsernamesKept();
      MoveTotal(before, Ledger(), si, ri, amount);
    }

    /** The loan handler: grants the amount when it is positive and some
        deposit of the current account is at least a tenth of it. */
    method RequestLoan(amount: int) returns (outcome: Outcome)
      requires Valid()
      modifies currentAccount
      ensures Valid()
      ensures accounts == old(accounts) && currentAccount == old(currentAccount)
      ensures UsernameList() == old(UsernameList())
      ensures currentAccount != null ==> currentAccount.username == old(currentAccount.username)
      ensures outcome ==
        if currentAccount == null then Thrown
        else if LoanApproved(old(currentAccount.movements), amount) then Done
        else Rejected
      ensures outcome == Done ==>
        currentAccount.movements == old(currentAccount.movements) + [amount] &&
        currentAccount.balance == Some(Sum(currentAccount.movements))
      ensures outcome != Done && currentAccount != null ==>
        currentAccount.movements == old(currentAccount.movements) && currentAccount.balance == old(currentAccount.balance)
      ensures forall a :: a in accounts && a != currentAccount ==>
        a.movements == old(a.movements) && a.balance == old(a.balance)
      ensures TotalMoney() == old(TotalMoney()) +
        if outcome == Done && currentAccount in accounts then amount else 0
    {
      if currentAccount == null {
        return Thrown;
      }
      if !LoanApproved(currentAccount.movements, amount) {
        return Rejected;
      }
      ghost var before := Ledger();
      var acc := currentAccount;
      ghost var i := FindIndex(accounts, acc);
      Grant(acc, amount);
      UsernamesKept();
      GrantTotal(before, Ledger(), i, amount);
      outcome := Done;
    }

    /** No handler touches a username. */
    twostate lemma UsernamesKept()
      requires accounts == old(accounts)
      requires forall a :: a in accounts ==> a.username == old(a.username)
      ensures UsernameList() == old(UsernameList())
    {
    }

    /** `findIndex` by the current account's username, then
        `splice(index, 1)` at whatever index that gives. */
    method RemoveCurrent() returns (index: int)
      requires Valid() && currentAccount != null
      modifies this`accounts
      ensures Valid()
      ensures index == FindIndex(old(UsernameList()), currentAccount.username)
      ensures accounts == SpliceOne(old(accounts), index)
      ensures currentAccount in old(accounts) ==> 0 <= index && old(accounts)[index] == currentAccount
      ensures 0 <= index ==> accounts == old(accounts)[..index] + old(accounts)[index + 1..]
      ensures index < 0 ==> accounts == DropLast(old(accounts))
      ensures currentAccount !in accounts
    {
      var names := UsernameList();
      var key := currentAccount.username;
      index := FindIndex(names, key);
      assert CurrentIsFirst();
      SpliceOneFound(accounts, index, currentAccount);
      Splice(index);
    }

    /** `accounts.splice(start, 1)`, at a start that takes the logged-in
        account (if any) out of the store or leaves it out. */
    method Splice(start: int)
      requires StoreValid()
      requires currentAccount != null ==> currentAccount !in SpliceOne(accounts, start)
      modifies this`accounts
      ensures Valid()
      ensures accounts == SpliceOne(old(accounts), start)
    {
      SpliceOneDistinct(accounts, start);
      accounts := SpliceOne(accounts, start);
    }

    /** The close handler: with a non-empty username and a non-zero pin that
        both match the current account, it removes the first account with
        the current account's username. `currentAccount` is left in place. */
    method Close(user: string, pin: int) returns (outcome: Outcome)
      requires Valid()
      modifies this`accounts
      ensures Valid()
      ensures currentAccount == old(currentAccount)
      ensures outcome ==
        if user == [] || pin == 0 then Rejected
        else if currentAccount == null then Thrown
        else if user == currentAccount.username && pin == currentAccount.pin then Done
        else Rejected
      ensures outcome != Done ==> accounts == old(accounts)
      // `findIndex` by the current account's username, then `splice` at
      // that index: the current account itself when it is still in the
      // store. After it was removed, the first other account with the same
      // username; when no account has that username, -1, and
      // `splice(-1, 1)` removes the last account instead.
      ensures outcome == Done ==>
        var i := FindIndex(old(UsernameList()), currentAccount.username);
        && accounts == SpliceOne(old(accounts), i)
        && (currentAccount in old(accounts) ==> 0 <= i && old(accounts)[i] == currentAccount)
        && currentAccount !in accounts
        && (0 <= i ==> accounts == old(accounts)[..i] + old(accounts)[i + 1..])
        && (i < 0 ==> accounts == DropLast(old(accounts)))
    {
      if user == [] || pin == 0 {
        return Rejected;
      }
      if currentAccount == null {
        return Thrown;
      }
      if user != currentAccount.username || pin != currentAccount.pin {
        return Rejected;
      }
      var _ := RemoveCurrent();
      outcome := Done;
    }
  }
}
