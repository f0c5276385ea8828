/** The ledger `bank_accounts`: pure functions over its contents and the
    lemmas about balances. A Python dict remembers insertion order, so the
    ledger is the map from id to account together with the ids in the order
    they were inserted. Balances are whole minor currency units. */
module Accounts {
  import opened Results

  datatype Account = Account(id: int, name: string, email: string, balance: int)

  type AccountMap = map<int, Account>

  /** The receipt `transfer_funds` returns (its message text is left out). */
  datatype TransferReceipt = TransferReceipt(senderBalance: int, receiverBalance: int)

  /** One requested transfer, as in `TransferRequest`. */
  datatype TransferIntent = TransferIntent(fromId: int, toId: int, amount: int)

  predicate Distinct(ids: seq<int>) {
    forall i, j :: 0 <= i < j < |ids| ==> ids[i] != ids[j]
  }

  /** The ledger invariant: `order` lists every key exactly once, each account
      is stored under its own id, and no balance is negative. */
  predicate Valid(accounts: AccountMap, order: seq<int>) {
    && Distinct(order)
    && (forall i :: 0 <= i < |order| ==> order[i] in accounts)
    && (forall id :: id in accounts ==> id in order)
    && (forall id :: id in accounts ==> accounts[id].id == id && accounts[id].balance >= 0)
  }

  /** The sum of the balances of the accounts named by `ids`. */
  function SumOver(accounts: AccountMap, ids: seq<int>): (total: int)
    requires forall i :: 0 <= i < |ids| ==> ids[i] in accounts
    ensures (forall i :: 0 <= i < |ids| ==> accounts[ids[i]].balance >= 0) ==> total >= 0
  {
    if ids == [] then 0 else accounts[ids[0]].balance + SumOver(accounts, ids[1..])
  }

  /** The money held by the whole ledger. */
  function Total(accounts: AccountMap, order: seq<int>): (total: int)
    requires Valid(accounts, order)
    ensures total >= 0
  {
    SumOver(accounts, order)
  }

  /** `read_account`'s lookup: the stored account, or `NotFound`. */
  function ReadAccount(accounts: AccountMap, id: int): (r: Result<Account>)
    ensures r.Ok? <==> id in accounts
    ensures r.Ok? ==> r.value == accounts[id]
    ensures r.Err? ==> r.error == NotFound
  {
    if id in accounts then Ok(accounts[id]) else Err(NotFound)
  }

  /** `list(bank_accounts.values())`: the stored accounts in insertion order,
      each exactly once, and nothing else. */
  function ListAccounts(accounts: AccountMap, order: seq<int>): (r: seq<Account>)
    requires Valid(accounts, order)
    ensures |r| == |order| == |accounts|
    ensures forall i :: 0 <= i < |r| ==> r[i] == accounts[order[i]]
    ensures forall a :: a in r <==> a in accounts.Values
  {
    DistinctCard(order);
    assert accounts.Keys == set id | id in order by {
      forall id | id in accounts ensures id in order { }
    }
    var r := seq(|order|, i requires 0 <= i < |order| => accounts[order[i]]);
    forall a | a in accounts.Values ensures a in r {
      var id :| id in accounts && accounts[id] == a;
      var i :| 0 <= i < |order| && order[i] == id;
      assert r[i] == a;
    }
    r
  }

  /** The number of distinct ids listed is the length of the list. */
  lemma {:induction false} DistinctCard(ids: seq<int>)
    requires Distinct(ids)
    ensures |set id | id in ids| == |ids|
  {
    if ids != [] {
      var rest := ids[1..];
      assert Distinct(rest) by {
        forall i, j | 0 <= i < j < |rest| ensures rest[i] != rest[j] {
          assert rest[i] == ids[i + 1] && rest[j] == ids[j + 1];
        }
      }
      DistinctCard(rest);
      assert ids[0] !in rest by {
        forall k | 0 <= k < |rest| ensures rest[k] != ids[0] {
          assert rest[k] == ids[k + 1];
        }
      }
      assert (set id | id in ids) == (set id | id in rest) + {ids[0]} by {
        assert ids == [ids[0]] + rest;
      }
    }
  }

  /** The duplicate-id test of `create_account`: the account may be opened
      only under an id the ledger does not hold yet. */
  predicate CanOpen(accounts: AccountMap, account: Account) {
    account.id !in accounts
  }

  /** The conditions under which `transfer_funds` moves money: a positive
      amount, both accounts present, and enough funds at the sender. */
  predicate Admissible(accounts: AccountMap, fromId: int, toId: int, amount: int) {
    amount > 0 && fromId in accounts && toId in accounts && accounts[fromId].balance >= amount
  }

  /** The two in-place updates of `transfer_funds`: debit the sender, then
      credit the receiver as it stands after the debit. */
  function ApplyTransfer(accounts: AccountMap, fromId: int, toId: int, amount: int): (r: AccountMap)
    requires fromId in accounts && toId in accounts
    ensures r.Keys == accounts.Keys
    ensures forall id :: id in accounts && id != fromId && id != toId ==> r[id] == accounts[id]
    ensures fromId != toId ==>
              r[fromId] == accounts[fromId].(balance := accounts[fromId].balance - amount)
              && r[toId] == accounts[toId].(balance := accounts[toId].balance + amount)
    ensures fromId == toId ==> r == accounts
  {
    var sender := accounts[fromId];
    var debited := accounts[fromId := sender.(balance := sender.balance - amount)];
    var receiver := debited[toId];
    var r := debited[toId := receiver.(balance := receiver.balance + amount)];
    assert fromId == toId ==> r == accounts by {
      if fromId == toId {
        assert r[fromId] == accounts[fromId];
      }
    }
    r
  }

  /** Changing the account under an id that `ids` does not name leaves the sum unchanged. */
  lemma {:induction false} SumOverFrame(accounts: AccountMap, ids: seq<int>, id: int, account: Account)
    requires forall i :: 0 <= i < |ids| ==> ids[i] in accounts
    requires id !in ids
    ensures SumOver(accounts[id := account], ids) == SumOver(accounts, ids)
  {
    if ids != [] {
      SumOverFrame(accounts, ids[1..], id, account);
    }
  }

  /** Replacing the account under an id that `ids` names once shifts the sum
      by the change in that account's balance. */
  lemma {:induction false} SumOverUpdate(accounts: AccountMap, ids: seq<int>, id: int, account: Account)
    requires forall i :: 0 <= i < |ids| ==> ids[i] in accounts
    requires Distinct(ids) && id in ids
    ensures SumOver(accounts[id := account], ids)
            == SumOver(accounts, ids) - accounts[id].balance + account.balance
  {
    var rest := ids[1..];
    assert Distinct(rest) by {
      forall i, j | 0 <= i < j < |rest| ensures rest[i] != rest[j] {
        assert rest[i] == ids[i + 1] && rest[j] == ids[j + 1];
      }
    }
    if ids[0] == id {
      assert id !in rest by {
        forall k | 0 <= k < |rest| ensures rest[k] != id {
          assert rest[k] == ids[k + 1];
        }
      }
      SumOverFrame(accounts, rest, id, account);
    } else {
      assert id in rest by {
        var k :| 0 <= k < |ids| && ids[k] == id;
        assert rest[k - 1] == id;
      }
      SumOverUpdate(accounts, rest, id, account);
    }
  }

  /** Appending an id adds that account's balance to the sum. */
  lemma {:induction false} SumOverAppend(accounts: AccountMap, ids: seq<int>, id: int)
    requires forall i :: 0 <= i < |ids| ==> ids[i] in accounts
    requires id in accounts
    ensures SumOver(accounts, ids + [id]) == SumOver(accounts, ids) + accounts[id].balance
  {
    if ids != [] {
      assert (ids + [id])[1..] == ids[1..] + [id];
      SumOverAppend(accounts, ids[1..], id);
    }
  }

  /** Conservation: a transfer neither creates nor destroys money. */
  lemma TransferConserves(accounts: AccountMap, order: seq<int>, fromId: int, toId: int, amount: int)
    requires Valid(accounts, order)
    requires fromId in accounts && toId in accounts
    ensures Valid(ApplyTransfer(accounts, fromId, toId, amount), order) <==>
            (fromId == toId || (accounts[fromId].balance >= amount && accounts[toId].balance + amount >= 0))
    ensures Total(accounts, order) == SumOver(ApplyTransfer(accounts, fromId, toId, amount), order)
  {
    var after := ApplyTransfer(accounts, fromId, toId, amount);
    if fromId != toId {
      var sender := accounts[fromId].(balance := accounts[fromId].balance - amount);
      var receiver := accounts[toId].(balance := accounts[toId].balance + amount);
      var debited := accounts[fromId := sender];
      assert after == debited[toId := receiver];
      SumOverUpdate(accounts, order, fromId, sender);
      SumOverUpdate(debited, order, toId, receiver);
      assert after[fromId] == sender && after[toId] == receiver;
    }
  }

  /** An admissible transfer keeps the ledger invariant (in particular every
      balance stays non-negative) and the total. */
  lemma AdmissibleTransferPreserves(accounts: AccountMap, order: seq<int>, fromId: int, toId: int, amount: int)
    requires Valid(accounts, order)
    requires Admissible(accounts, fromId, toId, amount)
    ensures Valid(ApplyTransfer(accounts, fromId, toId, amount), order)
    ensures Total(ApplyTransfer(accounts, fromId, toId, amount), order) == Total(accounts, order)
  {
    TransferConserves(accounts, order, fromId, toId, amount);
  }

  /** Opening an account adds exactly its opening balance to the total and
      keeps the ledger invariant. */
  lemma OpenAddsBalance(accounts: AccountMap, order: seq<int>, account: Account)
    requires Valid(accounts, order)
    requires CanOpen(accounts, account) && account.balance >= 0
    ensures Valid(accounts[account.id := account], order + [account.id])
    ensures Total(accounts[account.id := account], order + [account.id])
            == Total(accounts, order) + account.balance
  {
    var after := accounts[account.id := account];
    assert Distinct(order + [account.id]) by {
      var s := order + [account.id];
      forall i, j | 0 <= i < j < |s| ensures s[i] != s[j] {
        if j == |order| {
          assert s[i] == order[i];
        } else {
          assert s[i] == order[i] && s[j] == order[j];
        }
      }
    }
    SumOverFrame(accounts, order, account.id, account);
    SumOverAppend(after, order, account.id);
  }

  /** Replay of a sequence of transfer requests: each admissible one is
      applied, each refused one leaves the ledger as it was. */
  function Replay(accounts: AccountMap, intents: seq<TransferIntent>): (r: AccountMap)
    ensures r.Keys == accounts.Keys
    decreases |intents|
  {
    if intents == [] then accounts
    else
      var t := intents[0];
      var next := if Admissible(accounts, t.fromId, t.toId, t.amount)
                  then ApplyTransfer(accounts, t.fromId, t.toId, t.amount) else accounts;
      Replay(next, intents[1..])
  }

  /** Any sequence of transfers keeps every balance non-negative and the
      total unchanged. */
  lemma {:induction false} ReplayPreserves(accounts: AccountMap, order: seq<int>, intents: seq<TransferIntent>)
    requires Valid(accounts, order)
    ensures Valid(Replay(accounts, intents), order)
    ensures Total(Replay(accounts, intents), order) == Total(accounts, order)
    decreases |intents|
  {
    if intents != [] {
      var t := intents[0];
      if Admissible(accounts, t.fromId, t.toId, t.amount) {
        AdmissibleTransferPreserves(accounts, order, t.fromId, t.toId, t.amount);
        ReplayPreserves(ApplyTransfer(accounts, t.fromId, t.toId, t.amount), order, intents[1..]);
      } else {
        ReplayPreserves(accounts, order, intents[1..]);
      }
    }
  }
}
