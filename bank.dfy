/** The service state and its routes. `users_db` and `bank_accounts` are the
    fields of one `Bank` object; every route that the source guards with the
    bearer dependency takes the presented token and the current time, and the
    dependency runs before the request body is validated. */
module Bank {
  import opened Results
  import Credentials
  import Tokens
  import Accounts

  /** The body `login` answers with. */
  datatype LoginResponse = LoginResponse(accessToken: Tokens.Token, tokenType: string)

  class Bank {
    const scheme: Credentials.HashScheme
    var users: Credentials.Users
    var accounts: Accounts.AccountMap
    /** The ids of `accounts` in insertion order. */
    var order: seq<int>

    ghost predicate Valid()
      reads this
    {
      Credentials.Sound(scheme) && Credentials.WellFormed(users) && Accounts.Valid(accounts, order)
    }

    constructor (scheme: Credentials.HashScheme)
      requires Credentials.Sound(scheme)
      ensures Valid()
      ensures this.scheme == scheme && users == map[] && accounts == map[] && order == []
    {
      this.scheme := scheme;
      users := map[];
      accounts := map[];
      order := [];
    }

    /** `register`: refuse a taken username, otherwise store the new user with
        the hash of the password, never the password itself. */
    method Register(username: string, email: string, password: string, salt: int) returns (r: Result<()>)
      requires Valid()
      modifies this`users
      ensures Valid()
      ensures r.Err? <==> username in old(users)
      ensures r.Err? ==> r.error == DuplicateUsername && users == old(users)
      ensures r.Ok? ==> Ok(users) == Credentials.Enroll(scheme, old(users), username, email, password, salt)
      ensures r.Ok? ==> users[username].hashedPassword == scheme.hash(password, salt)
    {
      if username in users {
        return Err(DuplicateUsername);
      }
      var hashed := scheme.hash(password, salt);
      users := users[username := Credentials.UserRecord(username, email, hashed)];
      r := Ok(());
    }

    /** `login`: a token for the authenticated user, or the one
        `InvalidCredentials` failure. No expiry delta is passed, so the token
        lives for the default 15 minutes. */
    method Login(username: string, password: string, now: int) returns (r: Result<LoginResponse>)
      requires Valid()
      ensures r.Ok? <==> username in users && scheme.verify(password, users[username].hashedPassword)
      ensures r.Err? ==> r.error == InvalidCredentials
      ensures r.Ok? ==> r.value.tokenType == "bearer"
      ensures r.Ok? ==> r.value.accessToken.signatureValid
      ensures r.Ok? ==> r.value.accessToken.claims == Tokens.Claims(Some(username), now + Tokens.DEFAULT_EXPIRY_SECONDS)
    {
      var user := Credentials.AuthenticateUser(scheme, users, username, password);
      if user.None? {
        return Err(InvalidCredentials);
      }
      var token := Tokens.CreateAccessToken(user.value.username, now, None);
      r := Ok(LoginResponse(token, "bearer"));
    }

    /** `create_account`: admit the caller, check the balance bound, refuse a
        taken id, otherwise insert the account. */
    method CreateAccount(bearer: Option<Tokens.Token>, now: int, account: Accounts.Account) returns (r: Result<Accounts.Account>)
      requires Valid()
      modifies this`accounts, this`order
      ensures Valid()
      ensures Tokens.CurrentUser(users, bearer, now).Err? ==> r == Err(Unauthorized)
      ensures Tokens.CurrentUser(users, bearer, now).Ok? && account.balance < 0 ==> r == Err(InvalidBalance)
      ensures Tokens.CurrentUser(users, bearer, now).Ok? && account.balance >= 0 && account.id in old(accounts)
              ==> r == Err(DuplicateAccount)
      ensures r.Ok? <==> Tokens.CurrentUser(users, bearer, now).Ok? && account.balance >= 0 && account.id !in old(accounts)
      ensures r.Err? ==> accounts == old(accounts) && order == old(order)
      ensures r.Ok? ==> r.value == account
      ensures r.Ok? ==> accounts == old(accounts)[account.id := account] && order == old(order) + [account.id]
      ensures r.Ok? ==> Accounts.Total(accounts, order) == old(Accounts.Total(accounts, order)) + account.balance
    {
      if Tokens.CurrentUser(users, bearer, now).Err? {
        return Err(Unauthorized);
      }
      if account.balance < 0 {
        return Err(InvalidBalance);
      }
      if !Accounts.CanOpen(accounts, account) {
        return Err(DuplicateAccount);
      }
      Accounts.OpenAddsBalance(accounts, order, account);
      accounts := accounts[account.id := account];
      order := order + [account.id];
      r := Ok(account);
    }

    /** `read_account`: admit the caller, then look the id up. */
    method ReadAccount(bearer: Option<Tokens.Token>, now: int, id: int) returns (r: Result<Accounts.Account>)
      requires Valid()
      ensures Tokens.CurrentUser(users, bearer, now).Err? ==> r == Err(Unauthorized)
      ensures r.Ok? <==> Tokens.CurrentUser(users, bearer, now).Ok? && id in accounts
      ensures r.Ok? ==> r.value == accounts[id]
      ensures Tokens.CurrentUser(users, bearer, now).Ok? && id !in accounts ==> r == Err(NotFound)
    {
      if Tokens.CurrentUser(users, bearer, now).Err? {
        return Err(Unauthorized);
      }
      r := Accounts.ReadAccount(accounts, id);
    }

    /** `list_accounts`: admit the caller, then list every account. */
    method ListAccounts(bearer: Option<Tokens.Token>, now: int) returns (r: Result<seq<Accounts.Account>>)
      requires Valid()
      ensures r.Err? <==> Tokens.CurrentUser(users, bearer, now).Err?
      ensures r.Err? ==> r.error == Unauthorized
      ensures r.Ok? ==> |r.value| == |accounts| && forall a :: a in r.value <==> a in accounts.Values
      ensures r.Ok? ==> r.value == Accounts.ListAccounts(accounts, order)
    {
      if Tokens.CurrentUser(users, bearer, now).Err? {
        return Err(Unauthorized);
      }
      r := Ok(Accounts.ListAccounts(accounts, order));
    }

    /** `transfer_funds`: admit the caller, check the amount bound, find both
        accounts, check the sender's funds, then debit the sender and credit
        the receiver in place. */
    method TransferFunds(bearer: Option<Tokens.Token>, now: int, fromId: int, toId: int, amount: int)
      returns (r: Result<Accounts.TransferReceipt>)
      requires Valid()
      modifies this`accounts
      ensures Valid()
      ensures Tokens.CurrentUser(users, bearer, now).Err? ==> r == Err(Unauthorized)
      ensures Tokens.CurrentUser(users, bearer, now).Ok? && amount <= 0 ==> r == Err(InvalidAmount)
      ensures Tokens.CurrentUser(users, bearer, now).Ok? && amount > 0 && (fromId !in old(accounts) || toId !in old(accounts))
              ==> r == Err(NotFound)
      ensures Tokens.CurrentUser(users, bearer, now).Ok? && amount > 0
              && fromId in old(accounts) && toId in old(accounts) && old(accounts)[fromId].balance < amount
              ==> r == Err(InsufficientFunds)
      ensures r.Ok? <==> Tokens.CurrentUser(users, bearer, now).Ok? && Accounts.Admissible(old(accounts), fromId, toId, amount)
      ensures r.Err? ==> accounts == old(accounts)
      ensures r.Ok? ==> accounts == Accounts.ApplyTransfer(old(accounts), fromId, toId, amount)
      ensures r.Ok? ==> r.value == Accounts.TransferReceipt(accounts[fromId].balance, accounts[toId].balance)
      ensures r.Ok? && fromId == toId ==> accounts == old(accounts)
      ensures Accounts.Total(accounts, order) == old(Accounts.Total(accounts, order))
    {
      if Tokens.CurrentUser(users, bearer, now).Err? {
        return Err(Unauthorized);
      }
      if amount <= 0 {
        return Err(InvalidAmount);
      }
      if fromId !in accounts || toId !in accounts {
        return Err(NotFound);
      }
      if accounts[fromId].balance < amount {
        return Err(InsufficientFunds);
      }
      Accounts.AdmissibleTransferPreserves(accounts, order, fromId, toId, amount);
      var sender := accounts[fromId];
      accounts := accounts[fromId := sender.(balance := sender.balance - amount)];
      var receiver := accounts[toId];
      accounts := accounts[toId := receiver.(balance := receiver.balance + amount)];
      r := Ok(Accounts.TransferReceipt(accounts[fromId].balance, accounts[toId].balance));
    }
  }

  /** The first half of the walk-through: register "alice", log in, and open
      two accounts with the token obtained. */
  method OpenTwoAccounts(scheme: Credentials.HashScheme, now: int) returns (bank: Bank, token: Option<Tokens.Token>)
    requires Credentials.Sound(scheme)
    ensures fresh(bank) && bank.Valid()
    ensures Tokens.CurrentUser(bank.users, token, now).Ok?
    ensures bank.order == [1, 2]
    ensures bank.accounts == map[1 := Accounts.Account(1, "Alice", "a@x.com", 100), 2 := Accounts.Account(2, "Bob", "b@x.com", 50)]
  {
    bank := new Bank(scheme);
    var registered := bank.Register("alice", "a@x.com", "pw1", 0);
    assert "alice" in bank.users && bank.users["alice"].hashedPassword == scheme.hash("pw1", 0);
    assert scheme.verify("pw1", scheme.hash("pw1", 0));
    var login := bank.Login("alice", "pw1", now);
    token := Some(login.value.accessToken);
    assert Tokens.CurrentUser(bank.users, token, now).Ok?;
    var alice := bank.CreateAccount(token, now, Accounts.Account(1, "Alice", "a@x.com", 100));
    var bob := bank.CreateAccount(token, now, Accounts.Account(2, "Bob", "b@x.com", 50));
  }

  /** The walk-through a client of the service goes through: after opening
      the two accounts, move 30 from the first to the second, ask for more
      than the first then holds, and list the accounts. */
  method Walkthrough(scheme: Credentials.HashScheme, now: int)
    returns (moved: Result<Accounts.TransferReceipt>, refused: Result<Accounts.TransferReceipt>, listed: Result<seq<Accounts.Account>>)
    requires Credentials.Sound(scheme)
    ensures moved == Ok(Accounts.TransferReceipt(70, 80))
    ensures refused == Err(InsufficientFunds)
    ensures listed == Ok([Accounts.Account(1, "Alice", "a@x.com", 70), Accounts.Account(2, "Bob", "b@x.com", 80)])
  {
    var bank, token := OpenTwoAccounts(scheme, now);
    moved := bank.TransferFunds(token, now, 1, 2, 30);
    assert bank.accounts[1] == Accounts.Account(1, "Alice", "a@x.com", 70);
    assert bank.accounts[2] == Accounts.Account(2, "Bob", "b@x.com", 80);
    refused := bank.TransferFunds(token, now, 1, 2, 1000);
    listed := bank.ListAccounts(token, now);
    assert |listed.value| == 2 && listed.value[0] == bank.accounts[1] && listed.value[1] == bank.accounts[2];
    assert listed.value == [bank.accounts[1], bank.accounts[2]];
  }
}
