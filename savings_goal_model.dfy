/** The savings-goal schema: its fields, the defaults mongoose fills in for a
    missing field, the validation run when a document is saved (required
    fields, `min: 0` bounds, the priority enum), and the two virtual getters
    progressPercentage and remainingAmount. */
module SavingsGoalModel {
  import opened Common
  import opened Calendar

  /** A savings-goal document as stored. */
  datatype Goal = Goal(
    user: UserId,
    name: string,
    targetAmount: int,
    currentAmount: int,
    targetDate: Date,
    description: Option<string>,
    isActive: bool,
    priority: string,
    category: string)

  const Priorities: set<string> := {"low", "medium", "high"}

  const DefaultCurrentAmount: int := 0
  const DefaultIsActive: bool := true
  const DefaultPriority: string := "medium"
  const DefaultCategory: string := "General"

  /** What the schema's validators accept at save: a non-empty name (a required
      string rejects ''), non-negative target and current amounts, and a priority
      from the enum. The owner is always set by the handlers. */
  predicate Valid(g: Goal)
  {
    g.name != "" && g.targetAmount >= 0 && g.currentAmount >= 0 && g.priority in Priorities
  }

  /** The fields passed to `new SavingsGoal({...})`; None is a field left undefined. */
  datatype GoalFields = GoalFields(
    user: UserId,
    name: Option<string>,
    targetAmount: Option<int>,
    currentAmount: Option<int>,
    targetDate: Option<Date>,
    description: Option<string>,
    isActive: Option<bool>,
    priority: Option<string>,
    category: Option<string>)

  /** Constructing and saving a document: defaults fill the missing fields, then
      validation accepts the document (Some) or rejects it (None). */
  function Build(f: GoalFields): (r: Option<Goal>)
    ensures r.Some? <==>
              && f.name.Some? && f.name.value != ""
              && f.targetAmount.Some? && f.targetAmount.value >= 0
              && f.targetDate.Some?
              && (f.currentAmount.None? || f.currentAmount.value >= 0)
              && (f.priority.None? || f.priority.value in Priorities)
    ensures r.Some? ==> Valid(r.value) && r.value.user == f.user
    ensures r.Some? ==>
              && r.value.name == f.name.value
              && r.value.targetAmount == f.targetAmount.value
              && r.value.targetDate == f.targetDate.value
              && r.value.description == f.description
    ensures r.Some? && f.currentAmount.Some? ==> r.value.currentAmount == f.currentAmount.value
    ensures r.Some? && f.isActive.Some? ==> r.value.isActive == f.isActive.value
    ensures r.Some? && f.priority.Some? ==> r.value.priority == f.priority.value
    ensures r.Some? && f.category.Some? ==> r.value.category == f.category.value
    ensures r.Some? && f.currentAmount.None? ==> r.value.currentAmount == 0
    ensures r.Some? && f.isActive.None? ==> r.value.isActive
    ensures r.Some? && f.priority.None? ==> r.value.priority == "medium"
    ensures r.Some? && f.category.None? ==> r.value.category == "General"
  {
    if f.name.None? || f.targetAmount.None? || f.targetDate.None? then None
    else
      var g := Goal(f.user, f.name.value, f.targetAmount.value, Or(f.currentAmount, DefaultCurrentAmount),
                    f.targetDate.value, f.description, Or(f.isActive, DefaultIsActive),
                    Or(f.priority, DefaultPriority), Or(f.category, DefaultCategory));
      if Valid(g) then Some(g) else None
  }

  // ---------------------------------------------------------------------------
  // Virtuals

  /** A JavaScript number as the virtuals can produce it: an integer after
      Math.round, or the result of a division by zero. */
  datatype JsNumber = Finite(value: int) | PositiveInfinity | NegativeInfinity | NaN

  /** Math.round(num / den) for den > 0: the nearest integer, halves rounded up
      (Math.round(x) is floor(x + 1/2)). */
  function RoundedRatio(num: int, den: int): (r: int)
    requires den > 0
    ensures den * (2 * r - 1) <= 2 * num < den * (2 * r + 1)
  {
    var q := (2 * num + den) / (2 * den);
    var rem := (2 * num + den) % (2 * den);
    assert 2 * num + den == 2 * den * q + rem;
    assert den * (2 * q - 1) == 2 * den * q - den;
    assert den * (2 * q + 1) == 2 * den * q + den;
    q
  }

  /** The rounding contract leaves only one possible result. */
  lemma RoundedRatioUnique(num: int, den: int, r: int)
    requires den > 0
    requires den * (2 * r - 1) <= 2 * num < den * (2 * r + 1)
    ensures r == RoundedRatio(num, den)
  {
    var q := RoundedRatio(num, den);
    if r < q {
      MultiplyMonotone(den, 2 * r + 1, 2 * q - 1);
    } else if r > q {
      MultiplyMonotone(den, 2 * q + 1, 2 * r - 1);
    }
  }

  lemma MultiplyMonotone(d: int, a: int, b: int)
    requires d > 0 && a <= b
    ensures d * a <= d * b
  {
  }

  /** A share of num out of den (0 <= num <= den) rounds to a percentage in [0, 100];
      reaching the whole gives at least 100. */
  lemma {:induction false} RoundedPercentBounds(num: int, den: int)
    requires den > 0
    ensures 0 <= num ==> 0 <= RoundedRatio(100 * num, den)
    ensures num <= den ==> RoundedRatio(100 * num, den) <= 100
    ensures num >= den ==> RoundedRatio(100 * num, den) >= 100
  {
    var r := RoundedRatio(100 * num, den);
    if 0 <= num && r < 0 {
      MultiplyMonotone(den, 2 * r + 1, -1);
    }
    if num <= den && r > 100 {
      MultiplyMonotone(den, 201, 2 * r - 1);
      MultiplyMonotone(den, num, den);
    }
    if num >= den && r < 100 {
      MultiplyMonotone(den, 2 * r + 1, 199);
      MultiplyMonotone(den, den, num);
    }
  }

  /** The progressPercentage virtual: Math.round(current / target * 100), with no
      cap at 100 and no guard against a zero target. */
  function ProgressPercentage(g: Goal): (r: JsNumber)
    ensures r.Finite? <==> g.targetAmount != 0
    ensures g.targetAmount > 0 ==>
              g.targetAmount * (2 * r.value - 1) <= 200 * g.currentAmount < g.targetAmount * (2 * r.value + 1)
    ensures g.targetAmount < 0 ==>
              -g.targetAmount * (2 * r.value - 1) <= -200 * g.currentAmount < -g.targetAmount * (2 * r.value + 1)
    ensures g.targetAmount == 0 ==>
              r == (if g.currentAmount > 0 then PositiveInfinity
                    else if g.currentAmount < 0 then NegativeInfinity else NaN)
  {
    if g.targetAmount > 0 then Finite(RoundedRatio(100 * g.currentAmount, g.targetAmount))
    else if g.targetAmount < 0 then Finite(RoundedRatio(-100 * g.currentAmount, -g.targetAmount))
    else if g.currentAmount > 0 then PositiveInfinity
    else if g.currentAmount < 0 then NegativeInfinity
    else NaN
  }

  /** On a valid goal with a positive target the percentage is at least 0, at most
      100 while the target is not reached, and at least 100 once it is. */
  lemma ProgressPercentageBounds(g: Goal)
    requires Valid(g) && g.targetAmount > 0
    ensures ProgressPercentage(g).Finite?
    ensures ProgressPercentage(g).value >= 0
    ensures g.currentAmount <= g.targetAmount ==> ProgressPercentage(g).value <= 100
    ensures g.currentAmount >= g.targetAmount ==> ProgressPercentage(g).value >= 100
  {
    RoundedPercentBounds(g.currentAmount, g.targetAmount);
  }

  /** The percentage is not capped: a goal saved past its target reports more than 100. */
  lemma ProgressPercentageIsNotCapped(g: Goal)
    requires g.targetAmount == 100 && g.currentAmount == 250
    ensures ProgressPercentage(g) == Finite(250)
  {
    RoundedRatioUnique(25000, 100, 250);
  }

  /** The remainingAmount virtual: what is still missing to reach the target,
      negative once the goal is overfunded. */
  function RemainingAmount(g: Goal): (r: int)
    ensures r <= 0 <==> g.currentAmount >= g.targetAmount
    ensures g.currentAmount >= 0 ==> r <= g.targetAmount
    ensures r + g.currentAmount == g.targetAmount
  {
    g.targetAmount - g.currentAmount
  }
}
