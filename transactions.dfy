/** The transaction controller: creation defaults, the by-id handlers behind
    the ownership guard, and the statistics endpoint (totals, net amount and
    the per-category breakdown, optionally restricted to a date range). */
module Transactions {
  import opened Common
  import opened Calendar
  import opened Grouping
  import opened Access

  /** A transaction document; `kind` is the document's `type` field. */
  datatype Transaction = Transaction(
    user: UserId,
    kind: string,
    category: string,
    amount: int,
    description: Option<string>,
    date: Date,
    tags: seq<string>)

  function OwnerOf(t: Transaction): UserId { t.user }

  function CategoryOf(t: Transaction): string { t.category }

  function AmountOf(t: Transaction): int { t.amount }

  /** Only the type "income" is income; every other type counts as an expense. */
  predicate IsIncome(t: Transaction)
  {
    t.kind == "income"
  }

  /** What a transaction adds to the income total. */
  function IncomePart(t: Transaction): int
  {
    if IsIncome(t) then t.amount else 0
  }

  /** What a transaction adds to the expense total. */
  function ExpensePart(t: Transaction): int
  {
    if IsIncome(t) then 0 else t.amount
  }

  // ---------------------------------------------------------------------------
  // Create, get, update, delete

  /** The fields createTransaction takes from the request body. A date or tags
      that the client left out (or sent falsy) is None. */
  datatype TransactionBody = TransactionBody(
    kind: string,
    category: string,
    amount: int,
    description: Option<string>,
    date: Option<Date>,
    tags: Option<seq<string>>)

  /** The new document: owned by the requester whatever the body says, dated now
      unless the body gives a date, with no tags unless the body gives some. */
  function NewTransaction(body: TransactionBody, requester: UserId, now: Date): (t: Transaction)
    ensures t.user == requester
    ensures t.date == (if body.date.Some? then body.date.value else now)
    ensures t.tags == (if body.tags.Some? then body.tags.value else [])
    ensures (t.kind, t.category, t.amount, t.description) == (body.kind, body.category, body.amount, body.description)
  {
    Transaction(requester, body.kind, body.category, body.amount, body.description,
                match body.date case Some(d) => d case None => now,
                match body.tags case Some(ts) => ts case None => [])
  }

  /** createTransaction: the new document is stored under a fresh id and returned;
      afterwards its creator can read it back and nobody else can. */
  function CreateTransaction(store: map<Id, Transaction>, newId: Id, body: TransactionBody,
                             requester: UserId, now: Date): (r: (Response<Transaction>, map<Id, Transaction>))
    requires newId !in store
    ensures r.0 == Done(NewTransaction(body, requester, now))
    ensures r.0.Done? && r.0.value.user == requester
    ensures r.1 == store[newId := r.0.value]
    ensures GetById(r.1, newId, requester, OwnerOf) == r.0
    ensures forall u :: u != requester ==> GetById(r.1, newId, u, OwnerOf) == Failed(NotAuthorized)
  {
    var t := NewTransaction(body, requester, now);
    (Done(t), store[newId := t])
  }

  /** getTransactionById. */
  function GetTransaction(store: map<Id, Transaction>, id: Id, requester: UserId): (r: Response<Transaction>)
    ensures id !in store ==> r == Failed(NotFound)
    ensures id in store && store[id].user != requester ==> r == Failed(NotAuthorized)
    ensures id in store && store[id].user == requester ==> r == Done(store[id])
  {
    GetById(store, id, requester, OwnerOf)
  }

  /** The fields updateTransaction takes from the request body; None is a field
      the client left out, which the update does not touch. The owner is not
      among them. */
  datatype TransactionPatch = TransactionPatch(
    kind: Option<string>,
    category: Option<string>,
    amount: Option<int>,
    description: Option<string>,
    date: Option<Date>,
    tags: Option<seq<string>>)

  /** The document after the update: each field the client sent replaces the stored one. */
  function Patched(t: Transaction, p: TransactionPatch): (r: Transaction)
    ensures r.user == t.user
    ensures p.kind.Some? ==> r.kind == p.kind.value
    ensures p.kind.None? ==> r.kind == t.kind
    ensures p.category.Some? ==> r.category == p.category.value
    ensures p.category.None? ==> r.category == t.category
    ensures p.amount.Some? ==> r.amount == p.amount.value
    ensures p.amount.None? ==> r.amount == t.amount
    ensures p.date.Some? ==> r.date == p.date.value
    ensures p.date.None? ==> r.date == t.date
    ensures p.tags.Some? ==> r.tags == p.tags.value
    ensures p.tags.None? ==> r.tags == t.tags
    ensures p.description.Some? ==> r.description == p.description
    ensures p.description.None? ==> r.description == t.description
    ensures p == TransactionPatch(None, None, None, None, None, None) ==> r == t
  {
    Transaction(t.user, Or(p.kind, t.kind), Or(p.category, t.category), Or(p.amount, t.amount),
                if p.description.Some? then p.description else t.description,
                Or(p.date, t.date), Or(p.tags, t.tags))
  }

  /** updateTransaction: 404, then 401, and only then the write; the owner never changes. */
  function UpdateTransaction(store: map<Id, Transaction>, id: Id, requester: UserId, p: TransactionPatch)
    : (r: (Response<Transaction>, map<Id, Transaction>))
    ensures id !in store ==> r == (Failed(NotFound), store)
    ensures id in store && store[id].user != requester ==> r == (Failed(NotAuthorized), store)
    ensures id in store && store[id].user == requester ==>
              r.0 == Done(Patched(store[id], p)) && r.1 == store[id := Patched(store[id], p)]
    ensures r.0.Done? ==> r.0.value.user == requester
  {
    UpdateById(store, id, requester, OwnerOf, t => Patched(t, p))
  }

  /** deleteTransaction: 404, then 401, and only then the removal. */
  function DeleteTransaction(store: map<Id, Transaction>, id: Id, requester: UserId)
    : (r: (Response<()>, map<Id, Transaction>))
    ensures id !in store ==> r == (Failed(NotFound), store)
    ensures id in store && store[id].user != requester ==> r == (Failed(NotAuthorized), store)
    ensures id in store && store[id].user == requester ==> r == (Done(()), store - {id})
  {
    DeleteById(store, id, requester, OwnerOf)
  }

  // ---------------------------------------------------------------------------
  // Statistics

  /** One entry of a category breakdown. */
  datatype Bucket = Bucket(income: int, expenses: int)

  /** The response of the statistics endpoint. */
  datatype TransactionStats = TransactionStats(
    totalIncome: int,
    totalExpenses: int,
    netAmount: int,
    transactionCount: nat,
    categoryBreakdown: map<string, Bucket>)

  function AddTo(b: Bucket, t: Transaction): Bucket
  {
    if IsIncome(t) then Bucket(b.income + t.amount, b.expenses)
    else Bucket(b.income, b.expenses + t.amount)
  }

  /** The breakdown dictionary a forEach over ts builds: on first sight of a key its
      bucket starts at {income: 0, expenses: 0}, then the amount goes to income
      or expenses by type. */
  function Breakdown(ts: seq<Transaction>, key: Transaction -> string): map<string, Bucket>
    decreases |ts|
  {
    if ts == [] then map[]
    else
      var m := Breakdown(ts[..|ts| - 1], key);
      var t := ts[|ts| - 1];
      m[key(t) := AddTo(if key(t) in m then m[key(t)] else Bucket(0, 0), t)]
  }

  function Incomes(m: map<string, Bucket>): map<string, int>
  {
    map k | k in m :: m[k].income
  }

  function Expenses(m: map<string, Bucket>): map<string, int>
  {
    map k | k in m :: m[k].expenses
  }

  /** Accumulating one more transaction into the breakdown. */
  lemma BreakdownSnoc(ts: seq<Transaction>, t: Transaction, key: Transaction -> string)
    ensures Breakdown(ts + [t], key)
            == Breakdown(ts, key)[key(t) := AddTo(if key(t) in Breakdown(ts, key) then Breakdown(ts, key)[key(t)]
                                                  else Bucket(0, 0), t)]
  {
    assert (ts + [t])[..|ts|] == ts;
  }

  /** One step of the forEach: the dictionary m built so far, with the bucket
      of t's key replaced by b, is the breakdown of one more transaction. */
  lemma BreakdownStep(ts: seq<Transaction>, t: Transaction, key: Transaction -> string,
                      m: map<string, Bucket>, b: Bucket)
    requires m == Breakdown(ts, key)
    requires b == AddTo(if key(t) in m then m[key(t)] else Bucket(0, 0), t)
    ensures m[key(t) := b] == Breakdown(ts + [t], key)
  {
    BreakdownSnoc(ts, t, key);
  }

  /** The breakdown has exactly one entry per key present in the input. */
  lemma {:induction false} BreakdownKeys(ts: seq<Transaction>, key: Transaction -> string)
    ensures Breakdown(ts, key).Keys == Elements(FirstSeen(ts, key))
    decreases |ts|
  {
    if ts != [] {
      BreakdownKeys(ts[..|ts| - 1], key);
    }
  }

  /** One step of the forEach on the keys: a key not yet in the dictionary is
      appended to the keys in insertion order. */
  lemma KeysStep(ts: seq<Transaction>, t: Transaction, key: Transaction -> string,
                 m: map<string, Bucket>, keys: seq<string>)
    requires m == Breakdown(ts, key) && keys == FirstSeen(ts, key)
    ensures (if key(t) in m then keys else keys + [key(t)]) == FirstSeen(ts + [t], key)
  {
    BreakdownKeys(ts, key);
    FirstSeenSnoc(ts, t, key);
  }

  /** The breakdown is two grouped sums side by side: incomes and expenses. */
  lemma BreakdownIsTwoGroupSums(ts: seq<Transaction>, key: Transaction -> string)
    ensures Incomes(Breakdown(ts, key)) == GroupSum(ts, key, IncomePart)
    ensures Expenses(Breakdown(ts, key)) == GroupSum(ts, key, ExpensePart)
  {
    IncomesAreGroupSum(ts, key);
    ExpensesAreGroupSum(ts, key);
  }

  lemma {:induction false} IncomesAreGroupSum(ts: seq<Transaction>, key: Transaction -> string)
    ensures Incomes(Breakdown(ts, key)) == GroupSum(ts, key, IncomePart)
    decreases |ts|
  {
    if ts != [] {
      var front, t := ts[..|ts| - 1], ts[|ts| - 1];
      var m := Breakdown(front, key);
      var b := AddTo(if key(t) in m then m[key(t)] else Bucket(0, 0), t);
      IncomesAreGroupSum(front, key);
      assert Incomes(m[key(t) := b]) == Incomes(m)[key(t) := b.income];
    }
  }

  lemma {:induction false} ExpensesAreGroupSum(ts: seq<Transaction>, key: Transaction -> string)
    ensures Expenses(Breakdown(ts, key)) == GroupSum(ts, key, ExpensePart)
    decreases |ts|
  {
    if ts != [] {
      var front, t := ts[..|ts| - 1], ts[|ts| - 1];
      var m := Breakdown(front, key);
      var b := AddTo(if key(t) in m then m[key(t)] else Bucket(0, 0), t);
      ExpensesAreGroupSum(front, key);
      assert Expenses(m[key(t) := b]) == Expenses(m)[key(t) := b.expenses];
    }
  }

  /** The breakdown's keys are exactly the keys present in the input; the bucket of
      a key holds the income and the expenses of exactly the transactions with
      that key; and summing the buckets over all keys gives the income and
      expense totals over all transactions. */
  lemma BreakdownMeaning(ts: seq<Transaction>, key: Transaction -> string)
    ensures Breakdown(ts, key).Keys == Elements(FirstSeen(ts, key))
    ensures forall k :: k in Breakdown(ts, key) ==>
              Breakdown(ts, key)[k] == Bucket(Sum(Filter(ts, KeyIs(key, k)), IncomePart),
                                              Sum(Filter(ts, KeyIs(key, k)), ExpensePart))
    ensures SumOver(Incomes(Breakdown(ts, key)), FirstSeen(ts, key)) == Sum(ts, IncomePart)
    ensures SumOver(Expenses(Breakdown(ts, key)), FirstSeen(ts, key)) == Sum(ts, ExpensePart)
  {
    var m := Breakdown(ts, key);
    BreakdownIsTwoGroupSums(ts, key);
    BreakdownKeys(ts, key);
    GroupSumTotal(ts, key, IncomePart);
    GroupSumTotal(ts, key, ExpensePart);
    forall k | k in m
      ensures m[k] == Bucket(Sum(Filter(ts, KeyIs(key, k)), IncomePart),
                             Sum(Filter(ts, KeyIs(key, k)), ExpensePart))
    {
      GroupSumAt(ts, key, IncomePart, k);
      GroupSumAt(ts, key, ExpensePart, k);
      assert Incomes(m)[k] == m[k].income && Expenses(m)[k] == m[k].expenses;
    }
  }

  /** Every transaction is either income or expense: the two totals add up to the
      sum of all amounts. */
  lemma IncomeAndExpensesPartitionAmounts(ts: seq<Transaction>)
    ensures Sum(ts, IncomePart) + Sum(ts, ExpensePart) == Sum(ts, AmountOf)
  {
    SumSplit(ts, AmountOf, IncomePart, ExpensePart);
  }

  /** The transactions of the requester. */
  function OwnedBy(requester: UserId): Transaction -> bool
  {
    (t: Transaction) => t.user == requester
  }

  /** The requester's transactions dated within [start, end], both ends included. */
  function OwnedWithin(requester: UserId, start: Date, end: Date): Transaction -> bool
  {
    (t: Transaction) => t.user == requester && AtOrBefore(start, t.date) && AtOrBefore(t.date, end)
  }

  /** The query getTransactionStats sends: the requester's transactions, restricted
      to the date range only when both a start and an end date are given. */
  function StatsQuery(all: seq<Transaction>, requester: UserId, startDate: Option<Date>, endDate: Option<Date>)
    : (r: seq<Transaction>)
    ensures forall t :: t in r ==> t.user == requester
    ensures startDate.Some? && endDate.Some? ==>
              forall t :: t in r ==> AtOrBefore(startDate.value, t.date) && AtOrBefore(t.date, endDate.value)
    ensures startDate.Some? && endDate.Some? ==>
              && |r| == Count(all, OwnedWithin(requester, startDate.value, endDate.value))
              && forall t :: multiset(r)[t] ==
                   if t.user == requester && AtOrBefore(startDate.value, t.date) && AtOrBefore(t.date, endDate.value)
                   then multiset(all)[t] else 0
    ensures startDate.None? || endDate.None? ==>
              && |r| == Count(all, OwnedBy(requester))
              && forall t :: multiset(r)[t] == if t.user == requester then multiset(all)[t] else 0
    ensures multiset(r) <= multiset(all)
  {
    if startDate.Some? && endDate.Some? then
      var within := OwnedWithin(requester, startDate.value, endDate.value);
      FilterMeaning(all, within);
      FilterIsSubMultiset(all, within);
      FilterMultiplicity(all, within);
      CountIsFilterLength(all, within);
      Filter(all, within)
    else
      FilterMeaning(all, OwnedBy(requester));
      FilterIsSubMultiset(all, OwnedBy(requester));
      FilterMultiplicity(all, OwnedBy(requester));
      CountIsFilterLength(all, OwnedBy(requester));
      Filter(all, OwnedBy(requester))
  }

  /** getTransactionStats: fetch the transactions of the query, then accumulate. */
  method GetTransactionStats(all: seq<Transaction>, requester: UserId, startDate: Option<Date>, endDate: Option<Date>)
    returns (stats: TransactionStats)
    ensures stats.transactionCount == |StatsQuery(all, requester, startDate, endDate)|
    ensures stats.totalIncome == Sum(StatsQuery(all, requester, startDate, endDate), IncomePart)
    ensures stats.totalExpenses == Sum(StatsQuery(all, requester, startDate, endDate), ExpensePart)
    ensures stats.netAmount == stats.totalIncome - stats.totalExpenses
    ensures stats.categoryBreakdown == Breakdown(StatsQuery(all, requester, startDate, endDate), CategoryOf)
  {
    stats := AccumulateStats(StatsQuery(all, requester, startDate, endDate));
  }

  /** The body of getTransactionStats after the query: one pass over the fetched
      transactions accumulating the totals and the category breakdown, then the
      net amount. */
  method AccumulateStats(transactions: seq<Transaction>) returns (stats: TransactionStats)
    ensures stats.transactionCount == |transactions|
    ensures stats.totalIncome == Sum(transactions, IncomePart)
    ensures stats.totalExpenses == Sum(transactions, ExpensePart)
    ensures stats.netAmount == stats.totalIncome - stats.totalExpenses
    ensures stats.totalIncome + stats.totalExpenses == Sum(transactions, AmountOf)
    ensures stats.categoryBreakdown == Breakdown(transactions, CategoryOf)
  {
    var totalIncome, totalExpenses := 0, 0;
    var breakdown: map<string, Bucket> := map[];
    ghost var seen: seq<Transaction> := [];
    var i := 0;
    while i < |transactions|
      invariant 0 <= i <= |transactions|
      invariant seen == transactions[..i]
      invariant totalIncome == Sum(seen, IncomePart)
      invariant totalExpenses == Sum(seen, ExpensePart)
      invariant breakdown == Breakdown(seen, CategoryOf)
    {
      var t := transactions[i];
      SumSnoc(seen, t, IncomePart);
      SumSnoc(seen, t, ExpensePart);
      if t.kind == "income" {
        totalIncome := totalIncome + t.amount;
      } else {
        totalExpenses := totalExpenses + t.amount;
      }
      var bucket := if t.category in breakdown then breakdown[t.category] else Bucket(0, 0);
      if t.kind == "income" {
        bucket := bucket.(income := bucket.income + t.amount);
      } else {
        bucket := bucket.(expenses := bucket.expenses + t.amount);
      }
      BreakdownStep(seen, t, CategoryOf, breakdown, bucket);
      breakdown := breakdown[t.category := bucket];
      PrefixSnoc(transactions, i);
      seen := seen + [t];
      i := i + 1;
    }
    assert seen == transactions;
    IncomeAndExpensesPartitionAmounts(transactions);
    stats := TransactionStats(totalIncome, totalExpenses, totalIncome - totalExpenses, |transactions|, breakdown);
  }
}
