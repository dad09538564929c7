/** The budget controller: creation defaults, the by-id handlers behind the
    ownership guard with the update's field whitelist, and the statistics
    endpoint over the requester's active budgets. */
module Budgets {
  import opened Common
  import opened Calendar
  import opened Grouping
  import opened Access

  /** A budget document. */
  datatype Budget = Budget(
    user: UserId,
    name: string,
    category: string,
    amount: int,
    period: string,
    startDate: Date,
    endDate: Option<Date>,
    description: Option<string>,
    isActive: bool)

  function OwnerOf(b: Budget): UserId { b.user }

  function CategoryOf(b: Budget): string { b.category }

  function AmountOf(b: Budget): int { b.amount }

  // ---------------------------------------------------------------------------
  // Create, get, update, delete

  /** The fields createBudget takes from the request body; a start date the client
      left out (or sent falsy) is None. isActive is not among them. */
  datatype BudgetBody = BudgetBody(
    name: string,
    category: string,
    amount: int,
    period: string,
    startDate: Option<Date>,
    endDate: Option<Date>,
    description: Option<string>)

  /** The new document: owned by the requester, starting now unless the body gives a
      start date; isActive is left to the schema's default, given here as a parameter. */
  function NewBudget(body: BudgetBody, requester: UserId, now: Date, schemaDefaultActive: bool): (b: Budget)
    ensures b.user == requester
    ensures b.startDate == (if body.startDate.Some? then body.startDate.value else now)
    ensures b.isActive == schemaDefaultActive
    ensures (b.name, b.category, b.amount, b.period, b.endDate, b.description)
            == (body.name, body.category, body.amount, body.period, body.endDate, body.description)
  {
    Budget(requester, body.name, body.category, body.amount, body.period,
           match body.startDate case Some(d) => d case None => now,
           body.endDate, body.description, schemaDefaultActive)
  }

  /** createBudget: the new document is stored under a fresh id and returned to its owner. */
  function CreateBudget(store: map<Id, Budget>, newId: Id, body: BudgetBody, requester: UserId,
                        now: Date, schemaDefaultActive: bool): (r: (Response<Budget>, map<Id, Budget>))
    requires newId !in store
    ensures r.0 == Done(NewBudget(body, requester, now, schemaDefaultActive))
    ensures r.0.Done? && r.0.value.user == requester
    ensures r.1 == store[newId := r.0.value]
    ensures GetById(r.1, newId, requester, OwnerOf) == r.0
  {
    var b := NewBudget(body, requester, now, schemaDefaultActive);
    (Done(b), store[newId := b])
  }

  /** getBudgetById. */
  function GetBudget(store: map<Id, Budget>, id: Id, requester: UserId): (r: Response<Budget>)
    ensures id !in store ==> r == Failed(NotFound)
    ensures id in store && store[id].user != requester ==> r == Failed(NotAuthorized)
    ensures id in store && store[id].user == requester ==> r == Done(store[id])
  {
    GetById(store, id, requester, OwnerOf)
  }

  /** The whitelisted fields updateBudget takes from the request body; None is a
      field the client left out, which the update does not touch. The owner is
      not among them. */
  datatype BudgetPatch = BudgetPatch(
    name: Option<string>,
    category: Option<string>,
    amount: Option<int>,
    period: Option<string>,
    startDate: Option<Date>,
    endDate: Option<Date>,
    description: Option<string>,
    isActive: Option<bool>)

  /** The document after the update: each whitelisted field the client sent
      replaces the stored one; the owner is kept. */
  function Patched(b: Budget, p: BudgetPatch): (r: Budget)
    ensures r.user == b.user
    ensures p.name.Some? ==> r.name == p.name.value
    ensures p.name.None? ==> r.name == b.name
    ensures p.category.Some? ==> r.category == p.category.value
    ensures p.category.None? ==> r.category == b.category
    ensures p.amount.Some? ==> r.amount == p.amount.value
    ensures p.amount.None? ==> r.amount == b.amount
    ensures p.period.Some? ==> r.period == p.period.value
    ensures p.period.None? ==> r.period == b.period
    ensures p.startDate.Some? ==> r.startDate == p.startDate.value
    ensures p.startDate.None? ==> r.startDate == b.startDate
    ensures p.isActive.Some? ==> r.isActive == p.isActive.value
    ensures p.isActive.None? ==> r.isActive == b.isActive
    ensures p.endDate.Some? ==> r.endDate == p.endDate
    ensures p.endDate.None? ==> r.endDate == b.endDate
    ensures p.description.Some? ==> r.description == p.description
    ensures p.description.None? ==> r.description == b.description
    ensures p == BudgetPatch(None, None, None, None, None, None, None, None) ==> r == b
  {
    Budget(b.user, Or(p.name, b.name), Or(p.category, b.category), Or(p.amount, b.amount),
           Or(p.period, b.period), Or(p.startDate, b.startDate),
           if p.endDate.Some? then p.endDate else b.endDate,
           if p.description.Some? then p.description else b.description,
           Or(p.isActive, b.isActive))
  }

  /** updateBudget: 404, then 401, and only then the write; the owner never changes. */
  function UpdateBudget(store: map<Id, Budget>, id: Id, requester: UserId, p: BudgetPatch)
    : (r: (Response<Budget>, map<Id, Budget>))
    ensures id !in store ==> r == (Failed(NotFound), store)
    ensures id in store && store[id].user != requester ==> r == (Failed(NotAuthorized), store)
    ensures id in store && store[id].user == requester ==>
              r.0 == Done(Patched(store[id], p)) && r.1 == store[id := Patched(store[id], p)]
    ensures r.0.Done? ==> r.0.value.user == requester
  {
    UpdateById(store, id, requester, OwnerOf, b => Patched(b, p))
  }

  /** deleteBudget: 404, then 401, and only then the removal. */
  function DeleteBudget(store: map<Id, Budget>, id: Id, requester: UserId)
    : (r: (Response<()>, map<Id, Budget>))
    ensures id !in store ==> r == (Failed(NotFound), store)
    ensures id in store && store[id].user != requester ==> r == (Failed(NotAuthorized), store)
    ensures id in store && store[id].user == requester ==> r == (Done(()), store - {id})
  {
    DeleteById(store, id, requester, OwnerOf)
  }

  // ---------------------------------------------------------------------------
  // Statistics

  /** The response of the statistics endpoint. */
  datatype BudgetStats = BudgetStats(
    totalBudgets: nat,
    totalBudgetAmount: int,
    activeBudgets: nat,
    categoryBreakdown: map<string, int>)

  /** The requester's active budgets. */
  function ActiveOf(requester: UserId): Budget -> bool
  {
    (b: Budget) => b.user == requester && b.isActive
  }

  /** The query getBudgetStats sends: the requester's budgets with isActive true. */
  function ActiveBudgets(all: seq<Budget>, requester: UserId): (r: seq<Budget>)
    ensures forall b :: b in r ==> b.user == requester && b.isActive
    ensures |r| == Count(all, ActiveOf(requester))
    ensures forall b :: multiset(r)[b] == if b.user == requester && b.isActive then multiset(all)[b] else 0
    ensures multiset(r) <= multiset(all)
  {
    FilterMeaning(all, ActiveOf(requester));
    FilterIsSubMultiset(all, ActiveOf(requester));
    FilterMultiplicity(all, ActiveOf(requester));
    CountIsFilterLength(all, ActiveOf(requester));
    Filter(all, ActiveOf(requester))
  }

  /** getBudgetStats: fetch the active budgets, then accumulate. */
  method GetBudgetStats(all: seq<Budget>, requester: UserId) returns (stats: BudgetStats)
    ensures stats.totalBudgets == stats.activeBudgets == |ActiveBudgets(all, requester)|
    ensures stats.totalBudgetAmount == Sum(ActiveBudgets(all, requester), AmountOf)
    ensures stats.categoryBreakdown == GroupSum(ActiveBudgets(all, requester), CategoryOf, AmountOf)
  {
    stats := AccumulateStats(ActiveBudgets(all, requester));
  }

  /** The body of getBudgetStats after the query: one pass over the fetched budgets
      counting them and accumulating the total and the per-category amounts. */
  method AccumulateStats(budgets: seq<Budget>) returns (stats: BudgetStats)
    ensures stats.totalBudgets == stats.activeBudgets == |budgets|
    ensures stats.totalBudgetAmount == Sum(budgets, AmountOf)
    ensures stats.categoryBreakdown == GroupSum(budgets, CategoryOf, AmountOf)
    ensures stats.categoryBreakdown.Keys == Elements(FirstSeen(budgets, CategoryOf))
    ensures SumOver(stats.categoryBreakdown, FirstSeen(budgets, CategoryOf)) == stats.totalBudgetAmount
  {
    var totalBudgetAmount := 0;
    var activeBudgets := 0;
    var breakdown: map<string, int> := map[];
    var i := 0;
    while i < |budgets|
      invariant 0 <= i <= |budgets|
      invariant activeBudgets == i
      invariant totalBudgetAmount == Sum(budgets[..i], AmountOf)
      invariant breakdown == GroupSum(budgets[..i], CategoryOf, AmountOf)
    {
      var b := budgets[i];
      totalBudgetAmount := totalBudgetAmount + b.amount;
      activeBudgets := activeBudgets + 1;
      if b.category !in breakdown || breakdown[b.category] == 0 {
        breakdown := breakdown[b.category := 0];
      }
      breakdown := breakdown[b.category := breakdown[b.category] + b.amount];
      assert budgets[..i + 1][..i] == budgets[..i];
      i := i + 1;
    }
    assert budgets[..i] == budgets;
    GroupSumKeys(budgets, CategoryOf, AmountOf);
    GroupSumTotal(budgets, CategoryOf, AmountOf);
    stats := BudgetStats(|budgets|, totalBudgetAmount, activeBudgets, breakdown);
  }
}
