# Secure Bank API: ledger and credential registry

This project models the core of a small authenticated bank service written in
Python (`Bank_Auth_main.py`). The service keeps two in-memory dictionaries:

- `users_db`: registered users and their password hashes.
- `bank_accounts`: accounts and their balances.

Users register and then log in for a time-bound bearer token. With that token
they can open accounts, read one account, list all accounts and move money
between accounts.

The model has five modules:

- `Results` (`results.dfy`): `Option`, `Result`, and one `Error` value per
  exception the routes raise.
- `Credentials` (`credentials.dfy`): `get_user`, `authenticate_user` and the
  registry update done by `register`. The bcrypt context is a `HashScheme`, a
  pair of function values `hash(password, salt)` and `verify(password, hash)`.
  The one thing assumed about it is `Sound`: every password verifies against
  every hash computed from it. Bcrypt draws its salt at random, so the salt
  is an argument.
- `Tokens` (`tokens.dfy`): `create_access_token`, `jwt.decode` and the claims
  check of `get_current_user`. A token is the claims it carries (`sub` may be
  missing, `exp` is in whole seconds) plus a flag saying whether its
  signature checks out under the server key. Time is an integer argument.
- `Accounts` (`accounts.dfy`): pure functions over the ledger, and the
  lemmas about balances. A Python dict keeps insertion order. The ledger is
  therefore a `map<int, Account>` plus the ids in insertion order, and
  `list_accounts` returns the accounts in that order. Balances are whole
  minor currency units.
- `Bank` (`bank.dfy`): class `Bank`. Its fields are the two dictionaries
  and the insertion order. Its methods are the routes: `Register`, `Login`,
  `CreateAccount`, `ReadAccount`, `ListAccounts` and `TransferFunds`.

`Bank.Valid()` is the invariant every route keeps:

- the hash scheme is sound;
- every user is stored under their own name;
- every account is stored under its own id;
- every balance is non-negative.

Each guarded route first runs the bearer check. FastAPI runs that dependency
before it validates the request body. So a route answers `Unauthorized`
before it answers `InvalidBalance` or `InvalidAmount`, the two schema bounds
(`balance >= 0`, `amount > 0`). Only then does the handler's own logic run.

Some behaviours of the code are easy to misread; the model follows the code:

- Token expiry is inclusive. The JWT library refuses a token only when
  `exp < now`. So a token is still accepted at its expiry second.
- `create_access_token` computes `expires_delta or timedelta(minutes=15)`.
  A zero `timedelta` is falsy in Python. So a zero delta also gets the
  15-minute default. `login` never passes a delta, so every issued token
  lives 900 seconds. The 30-minute `ACCESS_TOKEN_EXPIRE_MINUTES` constant is
  never used.
- A transfer from an account to itself succeeds when the balance covers the
  amount. The debit and the credit hit the same record, so the balance is
  unchanged and the receipt shows it twice.
- The amount and balance bounds come from request validation, not from the
  handlers. The ledger functions therefore take them as conditions
  (`Admissible`), and the routes return the errors.
- Accounts are listed in the order they were inserted.

## Model

| member | source | states |
|---|---|---|
| `Credentials.GetUser` | Bank_Auth_main.py:70-71 | Returns a record exactly when the username is a key, and then the stored record. |
| `Credentials.AuthenticateUser` | Bank_Auth_main.py:73-77 | Succeeds exactly when the user exists and `verify(password, stored hash)` holds; the result is then the stored record under that username; every other case gives the one failure value. |
| `Credentials.FailuresIndistinguishable` | Bank_Auth_main.py:73-77 | An unknown username and a known username with a wrong password give the same failure value. |
| `Credentials.Enroll` | Bank_Auth_main.py:100-106 | A taken username fails with DuplicateUsername. Otherwise exactly that key is added, every old record is unchanged, and the new record holds `hash(password, salt)` (a record has no password field). |
| `Credentials.EnrollKeepsWellFormed` | Bank_Auth_main.py:105 | Registration keeps every record stored under its own username. |
| `Credentials.EnrollThenAuthenticate` | Bank_Auth_main.py:100-106 | With a sound hash scheme, a user who just registered authenticates with the same password and gets back exactly the stored record. |
| `Tokens.ExpiryFor` | Bank_Auth_main.py:66 | Expiry is now plus the delta; with no delta, or a zero delta, it is now plus 15 minutes. |
| `Tokens.CreateAccessToken` | Bank_Auth_main.py:64-68 | An issued token is validly signed, carries the subject as `sub`, and expires at `ExpiryFor(now, delta)`. |
| `Tokens.Decode` | Bank_Auth_main.py:86 | Decoding yields the claims exactly when the signature is valid and `now <= exp`. |
| `Tokens.CurrentUser` | Bank_Auth_main.py:79-95 | Succeeds exactly when a token is present, decodes, has a `sub`, and that `sub` is registered; it then returns that user's record; every failure is the single Unauthorized. |
| `Tokens.IssuedTokenLifetime` | Bank_Auth_main.py:64-68 | A token issued for a registered user admits that user up to and including its expiry second and is refused after it. |
| `Tokens.ForgedTokenRejected` | Bank_Auth_main.py:85-95 | A token whose signature fails is Unauthorized, whatever its claims say. |
| `Accounts.Total` | Bank_Auth_main.py:48 | On a valid ledger the sum of all balances is non-negative. |
| `Accounts.ReadAccount` | Bank_Auth_main.py:128-131 | Returns the stored account exactly when the id is a key; otherwise NotFound. |
| `Accounts.ListAccounts` | Bank_Auth_main.py:135 | Lists each stored account once, in insertion order, with as many entries as the map has keys, and nothing that is not a stored value. |
| `Accounts.ApplyTransfer` | Bank_Auth_main.py:147-148 | Same keys. Every account other than the two is unchanged. For distinct ids the sender loses `amount` and the receiver gains it. For the same id the ledger is unchanged. |
| `Accounts.TransferConserves` | Bank_Auth_main.py:147-148 | The debit and credit leave the total balance unchanged. The ledger stays valid exactly when the ids are the same or neither new balance is negative. |
| `Accounts.AdmissibleTransferPreserves` | Bank_Auth_main.py:139-148 | A transfer with a positive amount, both accounts present and enough funds keeps every balance non-negative and the total unchanged. |
| `Accounts.OpenAddsBalance` | Bank_Auth_main.py:121-123 | Inserting a new id with a non-negative balance keeps the ledger valid and raises the total by exactly that balance. |
| `Accounts.Replay` | Bank_Auth_main.py:137-153 | Running a sequence of transfer requests one after another, each admissible one applied and each refused one changing nothing, keeps the set of account ids. |
| `Accounts.ReplayPreserves` | Bank_Auth_main.py:137-153 | After any sequence of transfer requests, every balance is still non-negative and the total is what it was. |
| `Bank.Bank.constructor` | Bank_Auth_main.py:20-21 | The service starts with no users and no accounts. |
| `Bank.Bank.Register` | Bank_Auth_main.py:100-106 | A taken username fails with DuplicateUsername and changes nothing. Otherwise the registry becomes `Enroll`'s result, which stores `hash(password, salt)`. Accounts are never touched. |
| `Bank.Bank.Login` | Bank_Auth_main.py:108-114 | Succeeds exactly when the user exists and the password verifies; the token is signed, names the user and expires 15 minutes after `now`; the type is "bearer"; otherwise InvalidCredentials. |
| `Bank.Bank.CreateAccount` | Bank_Auth_main.py:119-124 | Unauthorized, InvalidBalance, DuplicateAccount in that order, each leaving the ledger unchanged. Otherwise the ledger gains exactly that account, the order gains its id, and the total rises by its balance. |
| `Bank.Bank.ReadAccount` | Bank_Auth_main.py:126-131 | Unauthorized when the token check fails. Otherwise the stored account exactly when the id exists, else NotFound. It cannot modify anything. |
| `Bank.Bank.ListAccounts` | Bank_Auth_main.py:133-135 | Unauthorized exactly when the token check fails. Otherwise exactly the stored accounts, as `Accounts.ListAccounts` lists them. It cannot modify anything. |
| `Bank.Bank.TransferFunds` | Bank_Auth_main.py:137-154 | Unauthorized, InvalidAmount, NotFound, InsufficientFunds in that order, each leaving every balance unchanged. Success comes exactly when the transfer is admissible; the ledger becomes `ApplyTransfer` of the old one, the receipt holds the new stored balances, a self-transfer changes nothing, and the total is preserved. |
| `Bank.OpenTwoAccounts` | Bank_Auth_main.py:100-124 | Registering "alice", logging in and opening two accounts yields a fresh, valid bank whose ledger is exactly account 1 at 100 and account 2 at 50, in that order, together with a token the bearer check accepts. |
| `Bank.Walkthrough` | Bank_Auth_main.py:100-154 | Register, log in, open accounts 1 (100) and 2 (50), and transfer 30: the receipt is 70/80. Then a transfer of 1000 fails with InsufficientFunds, and the list shows the accounts at 70 and 80. |

## Left out

- The FastAPI application, the route decorators, the HTTP status codes and the `home` route are not modelled. Each exception becomes an `Error` value.
- JWT encoding, signing and decoding are library code. A token is its claims plus an opaque "signature valid" flag. The secret key and the HS256 algorithm are not modelled. A malformed token or a missing `Authorization` header counts as an invalid or absent token.
- Tokens always carry `exp`. The library skips the expiry check for a token without `exp`, and that case is not modelled.
- The clock is whole seconds passed in as an argument. The library truncates the `datetime` expiry to whole seconds, and that rounding is not modelled.
- bcrypt is not modelled. It is replaced by the abstract `HashScheme` and its soundness. Its cost, its constant-time comparison and its randomness are not modelled.
- Pydantic validation is reduced to the two numeric bounds. `EmailStr` validation is not modelled, so emails are arbitrary strings.
- Balances are integers (minor currency units). The source uses floats, and float rounding is not modelled.
- The transfer message text (an f-string with the account names) is not modelled. The receipt holds only the two balances.
- `read_account` and `list_accounts` return the stored dicts themselves. A caller could mutate them through that alias, but nothing in the source does. The model returns values, so that aliasing is not modelled.
- Concurrency is not modelled. `Bank.Valid()` (non-negative balances) and conservation of the total are proved for one request at a time only. The source has no locking, and `transfer_funds` is a plain `def`, which FastAPI runs on a worker thread pool. So two overlapping transfers from the same account could both pass the funds check at Bank_Auth_main.py:144 before either debits at line 147. The model does not capture such interleavings.
- `bankmodule.py` is not part of this model. It is a demo class that increments a class counter and prints.
