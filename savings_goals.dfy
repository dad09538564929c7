/** The savings-goal controller: creation from a whitelisted body, the by-id
    handlers behind the ownership guard, the deposit (the only state
    transition of the system: reaching the target completes a goal), and the
    statistics endpoint. */
module SavingsGoals {
  import opened Common
  import opened Calendar
  import opened Access
  import opened SavingsGoalModel

  function OwnerOf(g: Goal): UserId { g.user }

  // ---------------------------------------------------------------------------
  // Create, get, update, delete

  /** The request body as a client may send it: currentAmount and isActive
      may be present, but createSavingsGoal does not read them. */
  datatype GoalBody = GoalBody(
    name: Option<string>,
    targetAmount: Option<int>,
    currentAmount: Option<int>,
    targetDate: Option<Date>,
    description: Option<string>,
    isActive: Option<bool>,
    priority: Option<string>,
    category: Option<string>)

  /** The fields createSavingsGoal passes to the new document: the owner and six
      fields of the body; currentAmount and isActive are left to their defaults. */
  function CreateFields(body: GoalBody, requester: UserId): (f: GoalFields)
    ensures f.user == requester && f.currentAmount.None? && f.isActive.None?
    ensures f.name == body.name && f.targetAmount == body.targetAmount && f.targetDate == body.targetDate
    ensures f.description == body.description && f.priority == body.priority && f.category == body.category
  {
    GoalFields(requester, body.name, body.targetAmount, None, body.targetDate,
               body.description, None, body.priority, body.category)
  }

  /** createSavingsGoal: a goal that passes validation is stored under a fresh id,
      starting from nothing and active whatever the client sent; a goal that
      fails validation is a server error and nothing is stored. */
  function CreateSavingsGoal(store: map<Id, Goal>, newId: Id, body: GoalBody, requester: UserId)
    : (r: (Response<Goal>, map<Id, Goal>))
    requires newId !in store
    ensures r.0.Done? <==> Build(CreateFields(body, requester)).Some?
    ensures r.0.Done? ==> r.0.value.user == requester && r.0.value.currentAmount == 0 && r.0.value.isActive
    ensures r.0.Done? ==> Valid(r.0.value) && r.1 == store[newId := r.0.value]
    ensures r.0.Done? ==> r.0.value == Build(CreateFields(body, requester)).value
    ensures r.0.Done? ==>
              && r.0.value.name == body.name.value
              && r.0.value.targetAmount == body.targetAmount.value
              && r.0.value.targetDate == body.targetDate.value
              && r.0.value.description == body.description
              && r.0.value.priority == (if body.priority.Some? then body.priority.value else "medium")
              && r.0.value.category == (if body.category.Some? then body.category.value else "General")
    ensures r.0.Failed? ==> r == (Failed(ServerError), store)
  {
    match Build(CreateFields(body, requester))
    case Some(g) => (Done(g), store[newId := g])
    case None => (Failed(ServerError), store)
  }

  /** What a client sends as currentAmount or isActive has no effect on creation. */
  lemma CreateIgnoresClientProgress(store: map<Id, Goal>, newId: Id, body: GoalBody, requester: UserId,
                                    currentAmount: Option<int>, isActive: Option<bool>)
    requires newId !in store
    ensures CreateSavingsGoal(store, newId, body.(currentAmount := currentAmount, isActive := isActive), requester)
            == CreateSavingsGoal(store, newId, body, requester)
  {
  }

  /** getSavingsGoalById. */
  function GetSavingsGoal(store: map<Id, Goal>, id: Id, requester: UserId): (r: Response<Goal>)
    ensures id !in store ==> r == Failed(NotFound)
    ensures id in store && store[id].user != requester ==> r == Failed(NotAuthorized)
    ensures id in store && store[id].user == requester ==> r == Done(store[id])
  {
    GetById(store, id, requester, OwnerOf)
  }

  /** The fields updateSavingsGoal takes from the request body; None is a field
      the client left out. currentAmount and isActive are among them. */
  datatype GoalPatch = GoalPatch(
    name: Option<string>,
    targetAmount: Option<int>,
    currentAmount: Option<int>,
    targetDate: Option<Date>,
    description: Option<string>,
    priority: Option<string>,
    category: Option<string>,
    isActive: Option<bool>)

  /** The document after the update: a plain overwrite of each field sent. The
      update runs no validators and no completion check. */
  function Patched(g: Goal, p: GoalPatch): (r: Goal)
    ensures r.user == g.user
    ensures p.name.Some? ==> r.name == p.name.value
    ensures p.name.None? ==> r.name == g.name
    ensures p.targetAmount.Some? ==> r.targetAmount == p.targetAmount.value
    ensures p.targetAmount.None? ==> r.targetAmount == g.targetAmount
    ensures p.currentAmount.Some? ==> r.currentAmount == p.currentAmount.value
    ensures p.currentAmount.None? ==> r.currentAmount == g.currentAmount
    ensures p.targetDate.Some? ==> r.targetDate == p.targetDate.value
    ensures p.targetDate.None? ==> r.targetDate == g.targetDate
    ensures p.priority.Some? ==> r.priority == p.priority.value
    ensures p.priority.None? ==> r.priority == g.priority
    ensures p.category.Some? ==> r.category == p.category.value
    ensures p.category.None? ==> r.category == g.category
    ensures p.isActive.Some? ==> r.isActive == p.isActive.value
    ensures p.isActive.None? ==> r.isActive == g.isActive
    ensures p.description.Some? ==> r.description == p.description
    ensures p.description.None? ==> r.description == g.description
  {
    Goal(g.user, Or(p.name, g.name), Or(p.targetAmount, g.targetAmount), Or(p.currentAmount, g.currentAmount),
         Or(p.targetDate, g.targetDate), if p.description.Some? then p.description else g.description,
         Or(p.isActive, g.isActive), Or(p.priority, g.priority), Or(p.category, g.category))
  }

  /** updateSavingsGoal: 404, then 401, and only then the write. */
  function UpdateSavingsGoal(store: map<Id, Goal>, id: Id, requester: UserId, p: GoalPatch)
    : (r: (Response<Goal>, map<Id, Goal>))
    ensures id !in store ==> r == (Failed(NotFound), store)
    ensures id in store && store[id].user != requester ==> r == (Failed(NotAuthorized), store)
    ensures id in store && store[id].user == requester ==>
              r.0 == Done(Patched(store[id], p)) && r.1 == store[id := Patched(store[id], p)]
    ensures r.0.Done? ==> r.0.value.user == requester
  {
    UpdateById(store, id, requester, OwnerOf, g => Patched(g, p))
  }

  /** Unlike a deposit, an update can leave a goal that has reached its target active. */
  lemma UpdateCanLeaveReachedGoalActive(g: Goal)
    requires g.targetAmount == 500 && g.isActive
    ensures var r := Patched(g, GoalPatch(None, None, Some(600), None, None, None, None, None));
            r.currentAmount >= r.targetAmount && r.isActive
  {
  }

  /** deleteSavingsGoal: 404, then 401, and only then the removal. */
  function DeleteSavingsGoal(store: map<Id, Goal>, id: Id, requester: UserId)
    : (r: (Response<()>, map<Id, Goal>))
    ensures id !in store ==> r == (Failed(NotFound), store)
    ensures id in store && store[id].user != requester ==> r == (Failed(NotAuthorized), store)
    ensures id in store && store[id].user == requester ==> r == (Done(()), store - {id})
  {
    DeleteById(store, id, requester, OwnerOf)
  }

  // ---------------------------------------------------------------------------
  // Deposit

  /** The goal after a deposit of amount: the current amount grows by exactly the
      amount; the goal is completed (inactive) once the target is reached and is
      never reactivated; nothing else changes. */
  function Deposited(g: Goal, amount: int): (r: Goal)
    ensures r.currentAmount == g.currentAmount + amount
    ensures r.currentAmount >= r.targetAmount ==> !r.isActive
    ensures r.isActive ==> g.isActive
    ensures r.isActive == (g.isActive && r.currentAmount < r.targetAmount)
    ensures r == g.(currentAmount := r.currentAmount, isActive := r.isActive)
  {
    var current := g.currentAmount + amount;
    g.(currentAmount := current, isActive := if current >= g.targetAmount then false else g.isActive)
  }

  /** A fetched savings-goal document, mutated in memory before it is saved. */
  class GoalDocument {
    var user: UserId
    var name: string
    var targetAmount: int
    var currentAmount: int
    var targetDate: Date
    var description: Option<string>
    var isActive: bool
    var priority: string
    var category: string

    /** The document's fields as a stored value. */
    function Value(): Goal
      reads this
    {
      Goal(user, name, targetAmount, currentAmount, targetDate, description, isActive, priority, category)
    }

    /** Loading a stored goal (findById). */
    constructor Load(g: Goal)
      ensures Value() == g
    {
      user, name, targetAmount, currentAmount := g.user, g.name, g.targetAmount, g.currentAmount;
      targetDate, description, isActive := g.targetDate, g.description, g.isActive;
      priority, category := g.priority, g.category;
    }

    /** The in-place update of addAmountToGoal: add the amount, then complete the
        goal if its target is reached. */
    method AddAmount(amount: int)
      modifies this
      ensures Value() == Deposited(old(Value()), amount)
      ensures currentAmount == old(currentAmount) + amount
      ensures currentAmount >= targetAmount ==> !isActive
      ensures isActive ==> old(isActive)
      ensures user == old(user) && targetAmount == old(targetAmount)
    {
      currentAmount := currentAmount + amount;
      if currentAmount >= targetAmount {
        isActive := false;
      }
    }
  }

  /** Saving a document: the schema validators accept it and it replaces the stored
      goal, or they reject it, which the handler reports as a server error. */
  function Save(store: map<Id, Goal>, id: Id, g: Goal): (r: (Response<Goal>, map<Id, Goal>))
    ensures Valid(g) ==> r == (Done(g), store[id := g])
    ensures !Valid(g) ==> r == (Failed(ServerError), store)
  {
    if Valid(g) then (Done(g), store[id := g]) else (Failed(ServerError), store)
  }

  /** addAmountToGoal: 404, then 401; then the fetched document is deposited into
      and saved, which fails when the result breaks the schema (a current amount
      below zero). On every failure the store is unchanged. */
  method AddAmountToGoal(store: map<Id, Goal>, id: Id, requester: UserId, amount: int)
    returns (r: Response<Goal>, store': map<Id, Goal>)
    ensures id !in store ==> r == Failed(NotFound) && store' == store
    ensures id in store && store[id].user != requester ==> r == Failed(NotAuthorized) && store' == store
    ensures id in store && store[id].user == requester ==>
              (r, store') == Save(store, id, Deposited(store[id], amount))
    ensures r.Done? ==> r.value.currentAmount >= r.value.targetAmount ==> !r.value.isActive
    ensures r.Failed? ==> store' == store
    ensures store'.Keys == store.Keys
  {
    var denied := Check(store, id, requester, OwnerOf);
    if denied.Some? {
      return Failed(denied.value), store;
    }
    var doc := new GoalDocument.Load(store[id]);
    doc.AddAmount(amount);
    var saved := Save(store, id, doc.Value());
    r, store' := saved.0, saved.1;
  }

  /** A valid goal stays valid under a non-negative deposit, so such a deposit is saved. */
  lemma DepositKeepsValid(g: Goal, amount: int)
    requires Valid(g) && amount >= 0
    ensures Valid(Deposited(g, amount))
  {
  }

  /** A deposit that would take the current amount below zero is rejected at save. */
  lemma OverdrawingDepositIsRejected(store: map<Id, Goal>, id: Id, amount: int)
    requires id in store && store[id].currentAmount + amount < 0
    ensures Save(store, id, Deposited(store[id], amount)) == (Failed(ServerError), store)
  {
  }

  /** A goal after a sequence of deposits. */
  function DepositAll(g: Goal, amounts: seq<int>): Goal
    decreases |amounts|
  {
    if amounts == [] then g else DepositAll(Deposited(g, amounts[0]), amounts[1..])
  }

  /** Completion is one-way: once a goal is inactive, no sequence of deposits
      reactivates it, and the current amount moves by exactly their sum. */
  lemma {:induction false} CompletedStaysCompleted(g: Goal, amounts: seq<int>)
    requires !g.isActive
    ensures !DepositAll(g, amounts).isActive
    ensures DepositAll(g, amounts).currentAmount == g.currentAmount + SumOf(amounts)
    decreases |amounts|
  {
    if amounts != [] {
      CompletedStaysCompleted(Deposited(g, amounts[0]), amounts[1..]);
    }
  }

  /** The sum of a sequence of amounts. */
  function SumOf(amounts: seq<int>): int
    decreases |amounts|
  {
    if amounts == [] then 0 else amounts[0] + SumOf(amounts[1..])
  }

  /** A non-empty run of deposits that leaves the current amount at or above the
      target leaves the goal completed, whatever the signs of the amounts: the
      last deposit's own check completes a goal that is still active. */
  lemma {:induction false} ReachingTargetCompletes(g: Goal, amounts: seq<int>)
    requires amounts != []
    requires DepositAll(g, amounts).currentAmount >= g.targetAmount
    ensures !DepositAll(g, amounts).isActive
    decreases |amounts|
  {
    var next := Deposited(g, amounts[0]);
    if !next.isActive {
      CompletedStaysCompleted(next, amounts[1..]);
    } else {
      ReachingTargetCompletes(next, amounts[1..]);
    }
  }

  // ---------------------------------------------------------------------------
  // Statistics

  /** The response of the statistics endpoint. */
  datatype GoalStats = GoalStats(
    totalGoals: nat,
    activeGoals: nat,
    completedGoals: nat,
    totalTargetAmount: int,
    totalCurrentAmount: int,
    totalProgress: int)

  function TargetOf(g: Goal): int { g.targetAmount }

  function CurrentOf(g: Goal): int { g.currentAmount }

  predicate IsActiveGoal(g: Goal) { g.isActive }

  predicate IsCompletedGoal(g: Goal) { !g.isActive }

  /** The requester's goals. */
  function OwnedBy(requester: UserId): Goal -> bool
  {
    (g: Goal) => g.user == requester
  }

  /** The overall progress: the rounded percentage of the summed target reached by
      the summed current amounts, or 0 when the summed target is not positive. */
  function TotalProgress(totalCurrent: int, totalTarget: int): (r: int)
    ensures totalTarget <= 0 ==> r == 0
    ensures totalTarget > 0 ==> totalTarget * (2 * r - 1) <= 200 * totalCurrent < totalTarget * (2 * r + 1)
  {
    if totalTarget > 0 then RoundedRatio(100 * totalCurrent, totalTarget) else 0
  }

  /** getSavingsGoalStats: fetch the requester's goals, then accumulate. */
  method GetSavingsGoalStats(all: seq<Goal>, requester: UserId) returns (stats: GoalStats)
    ensures stats.totalGoals == |Filter(all, OwnedBy(requester))| == Count(all, OwnedBy(requester))
    ensures stats.activeGoals == Count(Filter(all, OwnedBy(requester)), IsActiveGoal)
    ensures stats.completedGoals == Count(Filter(all, OwnedBy(requester)), IsCompletedGoal)
    ensures stats.activeGoals + stats.completedGoals == stats.totalGoals
    ensures stats.totalTargetAmount == Sum(Filter(all, OwnedBy(requester)), TargetOf)
    ensures stats.totalCurrentAmount == Sum(Filter(all, OwnedBy(requester)), CurrentOf)
    ensures stats.totalProgress == TotalProgress(stats.totalCurrentAmount, stats.totalTargetAmount)
  {
    CountIsFilterLength(all, OwnedBy(requester));
    stats := AccumulateStats(Filter(all, OwnedBy(requester)));
  }

  /** The body of getSavingsGoalStats after the query: one pass counting active and
      completed goals and summing targets and current amounts, then the guarded
      overall percentage. */
  method AccumulateStats(goals: seq<Goal>) returns (stats: GoalStats)
    ensures stats.totalGoals == |goals|
    ensures stats.activeGoals == Count(goals, IsActiveGoal)
    ensures stats.completedGoals == Count(goals, IsCompletedGoal)
    ensures stats.activeGoals + stats.completedGoals == stats.totalGoals
    ensures stats.totalTargetAmount == Sum(goals, TargetOf)
    ensures stats.totalCurrentAmount == Sum(goals, CurrentOf)
    ensures stats.totalProgress == TotalProgress(stats.totalCurrentAmount, stats.totalTargetAmount)
  {
    var activeGoals, completedGoals := 0, 0;
    var totalTargetAmount, totalCurrentAmount := 0, 0;
    var i := 0;
    while i < |goals|
      invariant 0 <= i <= |goals|
      invariant activeGoals == Count(goals[..i], IsActiveGoal)
      invariant completedGoals == Count(goals[..i], IsCompletedGoal)
      invariant totalTargetAmount == Sum(goals[..i], TargetOf)
      invariant totalCurrentAmount == Sum(goals[..i], CurrentOf)
    {
      var g := goals[i];
      totalTargetAmount := totalTargetAmount + g.targetAmount;
      totalCurrentAmount := totalCurrentAmount + g.currentAmount;
      if g.isActive {
        activeGoals := activeGoals + 1;
      } else {
        completedGoals := completedGoals + 1;
      }
      assert goals[..i + 1] == goals[..i] + [g];
      CountSnoc(goals[..i], g, IsActiveGoal);
      CountSnoc(goals[..i], g, IsCompletedGoal);
      SumSnoc(goals[..i], g, TargetOf);
      SumSnoc(goals[..i], g, CurrentOf);
      i := i + 1;
    }
    assert goals[..i] == goals;
    CountPartition(goals, IsActiveGoal, IsCompletedGoal);
    var totalProgress := 0;
    if totalTargetAmount > 0 {
      totalProgress := RoundedRatio(100 * totalCurrentAmount, totalTargetAmount);
    }
    stats := GoalStats(|goals|, activeGoals, completedGoals, totalTargetAmount, totalCurrentAmount, totalProgress);
  }

  /** For saved (valid) goals the overall progress is at least 0, and at most 100
      while no goal is overfunded. */
  lemma TotalProgressBounds(goals: seq<Goal>)
    requires forall i :: 0 <= i < |goals| ==> Valid(goals[i])
    ensures 0 <= TotalProgress(Sum(goals, CurrentOf), Sum(goals, TargetOf))
    ensures (forall i :: 0 <= i < |goals| ==> goals[i].currentAmount <= goals[i].targetAmount) ==>
              TotalProgress(Sum(goals, CurrentOf), Sum(goals, TargetOf)) <= 100
  {
    SumNonNegative(goals, CurrentOf);
    var current, target := Sum(goals, CurrentOf), Sum(goals, TargetOf);
    if target > 0 {
      RoundedPercentBounds(current, target);
    }
    if forall i :: 0 <= i < |goals| ==> goals[i].currentAmount <= goals[i].targetAmount {
      SumMonotone(goals, CurrentOf, TargetOf);
    }
  }
}
