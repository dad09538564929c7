/** The reports page: the date range it asks the statistics endpoint for, and
    the views it derives from the user's transactions — the category
    breakdown under the category selector, the monthly trend of the latest
    six months, the five largest expenses and incomes, and the income share
    shown for each category. */
module Reports {
  import opened Common
  import opened Calendar
  import opened Grouping
  import opened Text
  import opened Transactions

  // ---------------------------------------------------------------------------
  // Date range

  /** new Date(now - 7 days), at the granularity of days. */
  function WeekStart(now: Date): (r: Date)
    requires ValidDate(now)
    ensures ValidDate(r) && Before(r, now) && DaysAfter(r, 7) == now
  {
    DaysBeforeRoundTrip(now, 7);
    DaysBefore(now, 7)
  }

  /** The start and end dates sent with the statistics request for the selected
      range: the week, month, quarter or year up to now; any other value falls
      back to the month. The end is always now. */
  function ReportRange(range: string, now: Date): (r: (Date, Date))
    requires ValidDate(now)
    ensures r.1 == now
    ensures ValidDate(r.0) && AtOrBefore(r.0, r.1)
    ensures range == "week" ==> DaysAfter(r.0, 7) == now && Before(r.0, now)
    ensures range == "quarter" ==>
              && r.0.year == now.year && r.0.day == 1
              && r.0.month % 3 == 0 && r.0.month <= now.month < r.0.month + 3
    ensures range == "year" ==> r.0 == Date(now.year, 0, 1)
    ensures range != "week" && range != "quarter" && range != "year" ==>
              r.0 == Date(now.year, now.month, 1)
  {
    var quarterMonth := (now.month / 3) * 3;
    assert quarterMonth == now.month - now.month % 3;
    var start :=
      if range == "week" then WeekStart(now)
      else if range == "month" then Date(now.year, now.month, 1)
      else if range == "quarter" then Date(now.year, quarterMonth, 1)
      else if range == "year" then Date(now.year, 0, 1)
      else Date(now.year, now.month, 1);
    (start, now)
  }

  // ---------------------------------------------------------------------------
  // Category breakdown

  /** The category selector: "all" lets every transaction through, any other
      value only the transactions of that category. */
  function Selects(selected: string): Transaction -> bool
  {
    (t: Transaction) => selected == "all" || t.category == selected
  }

  /** getCategoryBreakdown: one pass over the transactions, adding each selected
      one to the income or the expenses of its category. */
  method CategoryBreakdown(ts: seq<Transaction>, selected: string) returns (breakdown: map<string, Bucket>)
    ensures breakdown == Breakdown(Filter(ts, Selects(selected)), CategoryOf)
  {
    breakdown := map[];
    ghost var seen: seq<Transaction> := [];
    ghost var chosen: seq<Transaction> := [];
    var i := 0;
    while i < |ts|
      invariant 0 <= i <= |ts|
      invariant seen == ts[..i]
      invariant chosen == Filter(seen, Selects(selected))
      invariant breakdown == Breakdown(chosen, CategoryOf)
    {
      var t := ts[i];
      FilterSnoc(seen, t, Selects(selected));
      if selected == "all" || t.category == selected {
        var bucket := if t.category in breakdown then breakdown[t.category] else Bucket(0, 0);
        if t.kind == "income" {
          bucket := bucket.(income := bucket.income + t.amount);
        } else {
          bucket := bucket.(expenses := bucket.expenses + t.amount);
        }
        BreakdownStep(chosen, t, CategoryOf, breakdown, bucket);
        breakdown := breakdown[t.category := bucket];
        chosen := chosen + [t];
      }
      PrefixSnoc(ts, i);
      seen := seen + [t];
      i := i + 1;
    }
    assert seen == ts;
  }

  /** With "all" selected the breakdown covers every transaction. */
  lemma AllSelectsEverything(ts: seq<Transaction>)
    ensures Filter(ts, Selects("all")) == ts
  {
    FilterAll(ts, Selects("all"));
  }

  /** Selecting a category leaves only that category's entry in the breakdown. */
  lemma SelectedCategoryOnly(ts: seq<Transaction>, selected: string)
    requires selected != "all"
    ensures Breakdown(Filter(ts, Selects(selected)), CategoryOf).Keys <= {selected}
  {
    var selectedTs := Filter(ts, Selects(selected));
    BreakdownKeys(selectedTs, CategoryOf);
    FirstSeenWitnessed(selectedTs, CategoryOf);
    forall k | k in Breakdown(selectedTs, CategoryOf)
      ensures k == selected
    {
      var j :| 0 <= j < |selectedTs| && selectedTs[j].category == k;
      assert selectedTs[j] in selectedTs;
    }
  }

  /** The share of income among a category's income and expenses, in percent;
      None when the category has nothing to share ('No transactions'). */
  function IncomeShare(b: Bucket): (r: Option<real>)
    ensures r.Some? <==> b.income + b.expenses > 0
    ensures r.Some? ==> r.value * (b.income + b.expenses) as real == 100.0 * b.income as real
  {
    if b.income + b.expenses > 0 then
      Some(b.income as real / (b.income + b.expenses) as real * 100.0)
    else None
  }

  /** With non-negative amounts the share is a percentage between 0 and 100,
      and it is 100 exactly when there are no expenses. */
  lemma IncomeShareBounds(b: Bucket)
    requires b.income >= 0 && b.expenses >= 0 && b.income + b.expenses > 0
    ensures 0.0 <= IncomeShare(b).value <= 100.0
    ensures IncomeShare(b).value == 100.0 <==> b.expenses == 0
  {
    var total := (b.income + b.expenses) as real;
    var share := IncomeShare(b).value;
    assert share * total == 100.0 * b.income as real;
    assert 100.0 * total - share * total == 100.0 * b.expenses as real;
    assert (100.0 - share) * total == 100.0 * b.expenses as real;
  }

  // ---------------------------------------------------------------------------
  // Monthly trend

  /** The month key of a transaction's date. */
  function MonthOf(t: Transaction): string
  {
    MonthKey(t.date)
  }

  /** An entry of Object.entries(monthlyData): a month key and its bucket. */
  type Entry = (string, Bucket)

  /** Object.entries: the keys in insertion order, each with its value. Every
      key is in the dictionary; a missing one would read as an empty bucket. */
  function Entries(m: map<string, Bucket>, keys: seq<string>): (r: seq<Entry>)
    ensures |r| == |keys|
    ensures forall i :: 0 <= i < |r| ==> r[i].0 == keys[i]
    ensures forall i :: 0 <= i < |r| && keys[i] in m ==> r[i].1 == m[keys[i]]
  {
    seq(|keys|, i requires 0 <= i < |keys| => (keys[i], if keys[i] in m then m[keys[i]] else Bucket(0, 0)))
  }

  predicate KeysAscending(s: seq<Entry>)
  {
    forall i, j :: 0 <= i < j < |s| ==> StrLess(s[i].0, s[j].0)
  }

  predicate DistinctKeys(s: seq<Entry>)
  {
    forall i, j :: 0 <= i < j < |s| ==> s[i].0 != s[j].0
  }

  /** Insertion into a sequence sorted by key. */
  function InsertByKey(e: Entry, s: seq<Entry>): (r: seq<Entry>)
    ensures multiset(r) == multiset(s) + multiset{e}
    ensures |r| == |s| + 1
  {
    if s == [] then [e]
    else
      assert s == [s[0]] + s[1..];
      if StrLess(s[0].0, e.0) then [s[0]] + InsertByKey(e, s[1..]) else [e] + s
  }

  /** sort(([a], [b]) => a.localeCompare(b)): the entries ordered by key. */
  function SortByKey(s: seq<Entry>): (r: seq<Entry>)
    ensures multiset(r) == multiset(s)
    ensures |r| == |s|
  {
    if s == [] then []
    else
      assert s == [s[0]] + s[1..];
      InsertByKey(s[0], SortByKey(s[1..]))
  }

  lemma {:induction false} InsertByKeyAscending(e: Entry, s: seq<Entry>)
    requires KeysAscending(s)
    requires forall x :: x in s ==> x.0 != e.0
    ensures KeysAscending(InsertByKey(e, s))
    decreases |s|
  {
    if s != [] {
      if StrLess(s[0].0, e.0) {
        InsertByKeyAscending(e, s[1..]);
        var rest := InsertByKey(e, s[1..]);
        forall j | 0 <= j < |rest|
          ensures StrLess(s[0].0, rest[j].0)
        {
          assert rest[j] in multiset(rest);
          if rest[j] != e {
            assert rest[j] in multiset(s[1..]);
            var k :| 0 <= k < |s[1..]| && s[1..][k] == rest[j];
            assert s[k + 1] == rest[j];
          }
        }
        assert InsertByKey(e, s) == [s[0]] + rest;
      } else {
        StrLessTotal(s[0].0, e.0);
        forall j | 0 <= j < |s|
          ensures StrLess(e.0, s[j].0)
        {
          if j > 0 {
            StrLessTransitive(e.0, s[0].0, s[j].0);
          }
        }
      }
    }
  }

  /** Entries with distinct keys come out of the sort in strictly ascending key order. */
  lemma {:induction false} SortByKeyAscending(s: seq<Entry>)
    requires DistinctKeys(s)
    ensures KeysAscending(SortByKey(s))
    decreases |s|
  {
    if s != [] {
      var tail := s[1..];
      assert DistinctKeys(tail) by {
        forall i, j | 0 <= i < j < |tail|
          ensures tail[i].0 != tail[j].0
        {
          assert tail[i] == s[i + 1] && tail[j] == s[j + 1];
        }
      }
      SortByKeyAscending(tail);
      forall x | x in SortByKey(tail)
        ensures x.0 != s[0].0
      {
        assert x in multiset(SortByKey(tail));
        assert x in multiset(tail);
        var k :| 0 <= k < |tail| && tail[k] == x;
        assert s[k + 1] == x;
      }
      InsertByKeyAscending(s[0], SortByKey(tail));
    }
  }

  /** slice(-6): the last six entries, or all of them when there are fewer. */
  function LastSix(s: seq<Entry>): (r: seq<Entry>)
    ensures |r| == if |s| < 6 then |s| else 6
    ensures r == s[|s| - |r|..]
  {
    if |s| <= 6 then s else s[|s| - 6..]
  }

  /** getMonthlyTrend after the accumulation: the entries of the dictionary,
      sorted by key, of which the last six are kept. */
  function Trend(m: map<string, Bucket>, keys: seq<string>): seq<Entry>
  {
    LastSix(SortByKey(Entries(m, keys)))
  }

  /** The sorted entries: one per key, each with its own bucket, in strictly
      ascending key order. */
  lemma SortedEntries(m: map<string, Bucket>, keys: seq<string>)
    requires Distinct(keys) && forall k :: k in keys ==> k in m
    ensures var s := SortByKey(Entries(m, keys));
            && |s| == |keys|
            && KeysAscending(s)
            && (forall e :: e in s ==> e.0 in keys && e.0 in m && e.1 == m[e.0])
            && (forall k :: k in keys ==> exists j :: 0 <= j < |s| && s[j].0 == k)
  {
    var entries := Entries(m, keys);
    assert DistinctKeys(entries);
    SortByKeyAscending(entries);
    var sorted := SortByKey(entries);
    forall e | e in sorted
      ensures e.0 in keys && e.0 in m && e.1 == m[e.0]
    {
      assert e in multiset(sorted);
      assert e in multiset(entries);
    }
    forall k | k in keys
      ensures exists j :: 0 <= j < |sorted| && sorted[j].0 == k
    {
      var i :| 0 <= i < |keys| && keys[i] == k;
      assert entries[i] in multiset(entries);
      assert entries[i] in multiset(sorted);
      var j :| 0 <= j < |sorted| && sorted[j] == entries[i];
    }
  }

  /** The last six of an ascending sequence: min(6, n) entries, still ascending,
      and every entry left out sorts before every entry kept. */
  lemma LastSixMeaning(s: seq<Entry>)
    requires KeysAscending(s)
    ensures |LastSix(s)| == if |s| < 6 then |s| else 6
    ensures KeysAscending(LastSix(s))
    ensures forall e :: e in LastSix(s) ==> e in s
    ensures forall j :: 0 <= j < |s| && (forall e :: e in LastSix(s) ==> e.0 != s[j].0) ==>
              forall e :: e in LastSix(s) ==> StrLess(s[j].0, e.0)
  {
    var r := LastSix(s);
    assert forall l :: 0 <= l < |r| ==> r[l] in s;
    LastSixLeavesOutEarlier(s);
  }

  /** Every entry of an ascending sequence that slice(-6) leaves out sorts before
      every entry it keeps. */
  lemma LastSixLeavesOutEarlier(s: seq<Entry>)
    requires KeysAscending(s)
    ensures forall j :: 0 <= j < |s| && (forall e :: e in LastSix(s) ==> e.0 != s[j].0) ==>
              forall e :: e in LastSix(s) ==> StrLess(s[j].0, e.0)
  {
    var start := if |s| <= 6 then 0 else |s| - 6;
    var r := LastSix(s);
    assert r == s[start..];
    assert forall l :: 0 <= l < |r| ==> r[l] == s[start + l];
    forall j | start <= j < |s|
      ensures s[j] in r
    {
      assert r[j - start] == s[j];
    }
    forall j | 0 <= j < start
      ensures forall e :: e in r ==> StrLess(s[j].0, e.0)
    {
      SuffixAbove(s, j, start);
    }
  }

  /** In an ascending sequence, every entry from position start on sorts after
      an entry before start. */
  lemma SuffixAbove(s: seq<Entry>, j: nat, start: nat)
    requires KeysAscending(s) && j < start <= |s|
    ensures forall e :: e in s[start..] ==> StrLess(s[j].0, e.0)
  {
    forall e | e in s[start..]
      ensures StrLess(s[j].0, e.0)
    {
      var l :| 0 <= l < |s[start..]| && s[start..][l] == e;
      assert s[start + l] == e;
    }
  }

  /** The trend holds min(6, n) of the n months, in ascending key order, each
      with its own bucket, and every month left out sorts before every month
      kept. */
  lemma TrendMeaning(m: map<string, Bucket>, keys: seq<string>)
    requires Distinct(keys) && forall k :: k in keys ==> k in m
    ensures var r := Trend(m, keys);
            && |r| == (if |keys| < 6 then |keys| else 6)
            && KeysAscending(r)
            && (forall e :: e in r ==> e.0 in keys && e.0 in m && e.1 == m[e.0])
            && (forall k :: k in keys && (forall e :: e in r ==> e.0 != k) ==>
                  forall e :: e in r ==> StrLess(k, e.0))
  {
    SortedEntries(m, keys);
    LastSixMeaning(SortByKey(Entries(m, keys)));
    TrendLeavesOutEarlier(m, keys);
  }

  /** Every key left out of the trend sorts before every key in it. */
  lemma TrendLeavesOutEarlier(m: map<string, Bucket>, keys: seq<string>)
    requires Distinct(keys) && forall k :: k in keys ==> k in m
    ensures forall k :: k in keys && (forall e :: e in Trend(m, keys) ==> e.0 != k) ==>
              forall e :: e in Trend(m, keys) ==> StrLess(k, e.0)
  {
    var sorted := SortByKey(Entries(m, keys));
    SortedEntries(m, keys);
    LastSixLeavesOutEarlier(sorted);
    var r := Trend(m, keys);
    forall k | k in keys && (forall e :: e in r ==> e.0 != k)
      ensures forall e :: e in r ==> StrLess(k, e.0)
    {
      var j :| 0 <= j < |sorted| && sorted[j].0 == k;
    }
  }

  /** getMonthlyTrend: the trend of the transactions' months. */
  method MonthlyTrend(ts: seq<Transaction>) returns (trend: seq<Entry>)
    ensures trend == Trend(Breakdown(ts, MonthOf), FirstSeen(ts, MonthOf))
  {
    trend := TrendBy(ts, MonthOf);
  }

  /** The body of getMonthlyTrend, for the month key computed by monthKeyOf: one
      pass over the transactions accumulating each month's income and expenses
      under its key (keys kept in insertion order), then the latest six months
      in ascending key order. */
  method TrendBy(ts: seq<Transaction>, monthKeyOf: Transaction -> string) returns (trend: seq<Entry>)
    ensures trend == Trend(Breakdown(ts, monthKeyOf), FirstSeen(ts, monthKeyOf))
  {
    var monthlyData: map<string, Bucket> := map[];
    var keys: seq<string> := [];
    ghost var seen: seq<Transaction> := [];
    var i := 0;
    while i < |ts|
      invariant 0 <= i <= |ts|
      invariant seen == ts[..i]
      invariant monthlyData == Breakdown(seen, monthKeyOf)
      invariant keys == FirstSeen(seen, monthKeyOf)
    {
      var t := ts[i];
      var monthKey := monthKeyOf(t);
      KeysStep(seen, t, monthKeyOf, monthlyData, keys);
      if monthKey !in monthlyData {
        keys := keys + [monthKey];
      }
      var bucket := if monthKey in monthlyData then monthlyData[monthKey] else Bucket(0, 0);
      if t.kind == "income" {
        bucket := bucket.(income := bucket.income + t.amount);
      } else {
        bucket := bucket.(expenses := bucket.expenses + t.amount);
      }
      BreakdownStep(seen, t, monthKeyOf, monthlyData, bucket);
      monthlyData := monthlyData[monthKey := bucket];
      PrefixSnoc(ts, i);
      seen := seen + [t];
      i := i + 1;
    }
    assert seen == ts;
    trend := LastSix(SortByKey(Entries(monthlyData, keys)));
  }

  /** The trend holds the latest min(6, n) of the n months present, in
      ascending key order, and every month present but left out sorts before
      every month listed. */
  lemma TrendMonths(ts: seq<Transaction>, monthKeyOf: Transaction -> string)
    ensures var trend := Trend(Breakdown(ts, monthKeyOf), FirstSeen(ts, monthKeyOf));
            && |trend| == (if |FirstSeen(ts, monthKeyOf)| < 6 then |FirstSeen(ts, monthKeyOf)| else 6)
            && KeysAscending(trend)
            && (forall i :: 0 <= i < |ts| && (forall e :: e in trend ==> e.0 != monthKeyOf(ts[i])) ==>
                  forall e :: e in trend ==> StrLess(monthKeyOf(ts[i]), e.0))
  {
    BreakdownKeys(ts, monthKeyOf);
    FirstSeenMeaning(ts, monthKeyOf);
    TrendMeaning(Breakdown(ts, monthKeyOf), FirstSeen(ts, monthKeyOf));
  }

  /** Each entry of the trend holds the income and the expenses of exactly the
      transactions of its month. */
  lemma TrendBuckets(ts: seq<Transaction>, monthKeyOf: Transaction -> string)
    ensures forall e :: e in Trend(Breakdown(ts, monthKeyOf), FirstSeen(ts, monthKeyOf)) ==>
              e.1 == Bucket(Sum(Filter(ts, KeyIs(monthKeyOf, e.0)), IncomePart),
                            Sum(Filter(ts, KeyIs(monthKeyOf, e.0)), ExpensePart))
  {
    BreakdownMeaning(ts, monthKeyOf);
    FirstSeenMeaning(ts, monthKeyOf);
    TrendMeaning(Breakdown(ts, monthKeyOf), FirstSeen(ts, monthKeyOf));
  }

  // ---------------------------------------------------------------------------
  // Top expenses and incomes

  function HasKind(kind: string): Transaction -> bool
  {
    (t: Transaction) => t.kind == kind
  }

  predicate AmountsNonIncreasing(s: seq<Transaction>)
  {
    forall i, j :: 0 <= i < j < |s| ==> s[i].amount >= s[j].amount
  }

  /** Insertion into a sequence sorted by decreasing amount, before the first
      element that is not larger, so that equal amounts keep their order. */
  function InsertByAmount(t: Transaction, s: seq<Transaction>): (r: seq<Transaction>)
    ensures multiset(r) == multiset(s) + multiset{t}
    ensures |r| == |s| + 1
  {
    if s == [] then [t]
    else
      assert s == [s[0]] + s[1..];
      if s[0].amount > t.amount then [s[0]] + InsertByAmount(t, s[1..]) else [t] + s
  }

  /** sort((a, b) => b.amount - a.amount): largest amount first. */
  function SortByAmount(s: seq<Transaction>): (r: seq<Transaction>)
    ensures multiset(r) == multiset(s)
    ensures |r| == |s|
  {
    if s == [] then []
    else
      assert s == [s[0]] + s[1..];
      InsertByAmount(s[0], SortByAmount(s[1..]))
  }

  lemma {:induction false} InsertByAmountSorted(t: Transaction, s: seq<Transaction>)
    requires AmountsNonIncreasing(s)
    ensures AmountsNonIncreasing(InsertByAmount(t, s))
    decreases |s|
  {
    if s != [] && s[0].amount > t.amount {
      InsertByAmountSorted(t, s[1..]);
      var rest := InsertByAmount(t, s[1..]);
      forall j | 0 <= j < |rest|
        ensures s[0].amount >= rest[j].amount
      {
        assert rest[j] in multiset(rest);
        if rest[j] != t {
          assert rest[j] in multiset(s[1..]);
          var k :| 0 <= k < |s[1..]| && s[1..][k] == rest[j];
          assert s[k + 1] == rest[j];
        }
      }
      assert InsertByAmount(t, s) == [s[0]] + rest;
    }
  }

  lemma {:induction false} SortByAmountSorted(s: seq<Transaction>)
    ensures AmountsNonIncreasing(SortByAmount(s))
    decreases |s|
  {
    if s != [] {
      SortByAmountSorted(s[1..]);
      InsertByAmountSorted(s[0], SortByAmount(s[1..]));
    }
  }

  /** slice(0, 5): the first five transactions, or all of them when there are fewer. */
  function FirstFive(s: seq<Transaction>): (r: seq<Transaction>)
    ensures |r| == if |s| < 5 then |s| else 5
    ensures r == s[..|r|]
  {
    if |s| <= 5 then s else s[..5]
  }

  /** The top list of a kind: the transactions of that kind, largest amount
      first, of which the first five are kept. */
  function Top(ts: seq<Transaction>, kind: string): (r: seq<Transaction>)
    ensures var n := Count(ts, HasKind(kind));
            |r| == if n < 5 then n else 5
  {
    CountIsFilterLength(ts, HasKind(kind));
    FirstFive(SortByAmount(Filter(ts, HasKind(kind))))
  }

  /** getTopExpenses: at most five expenses, largest amount first. */
  function TopExpenses(ts: seq<Transaction>): (r: seq<Transaction>)
    ensures var n := Count(ts, HasKind("expense"));
            |r| == if n < 5 then n else 5
    ensures forall t :: t in r ==> t.kind == "expense"
    ensures AmountsNonIncreasing(r)
    ensures multiset(r) <= multiset(ts)
    ensures forall t :: t in multiset(ts) - multiset(r) && t.kind == "expense" ==>
              forall j :: 0 <= j < |r| ==> t.amount <= r[j].amount
  {
    TopMeaning(ts, "expense");
    TopFromInput(ts, "expense");
    Top(ts, "expense")
  }

  /** getTopIncome: at most five incomes, largest amount first. */
  function TopIncome(ts: seq<Transaction>): (r: seq<Transaction>)
    ensures var n := Count(ts, HasKind("income"));
            |r| == if n < 5 then n else 5
    ensures forall t :: t in r ==> t.kind == "income"
    ensures AmountsNonIncreasing(r)
    ensures multiset(r) <= multiset(ts)
    ensures forall t :: t in multiset(ts) - multiset(r) && t.kind == "income" ==>
              forall j :: 0 <= j < |r| ==> t.amount <= r[j].amount
  {
    TopMeaning(ts, "income");
    TopFromInput(ts, "income");
    Top(ts, "income")
  }

  /** What is left after taking a prefix is the rest of the sequence. */
  lemma PrefixRest(s: seq<Transaction>, k: nat)
    requires k <= |s|
    ensures multiset(s[..k]) <= multiset(s)
    ensures multiset(s) - multiset(s[..k]) == multiset(s[k..])
  {
    assert s == s[..k] + s[k..];
  }

  /** The first five of a sequence sorted by decreasing amount: min(5, n)
      elements, still sorted, taken from the sequence, and none of the rest is
      larger than any of them. */
  lemma FirstFiveMeaning(s: seq<Transaction>)
    requires AmountsNonIncreasing(s)
    ensures |FirstFive(s)| == if |s| < 5 then |s| else 5
    ensures AmountsNonIncreasing(FirstFive(s))
    ensures multiset(FirstFive(s)) <= multiset(s)
    ensures forall t :: t in multiset(s) - multiset(FirstFive(s)) ==>
              forall j :: 0 <= j < |FirstFive(s)| ==> t.amount <= FirstFive(s)[j].amount
  {
    var k := if |s| <= 5 then |s| else 5;
    assert FirstFive(s) == s[..k];
    PrefixRest(s, k);
    RestNotLarger(s, k);
  }

  /** In a sequence sorted by decreasing amount, nothing after position k is
      larger than anything before it. */
  lemma RestNotLarger(s: seq<Transaction>, k: nat)
    requires AmountsNonIncreasing(s) && k <= |s|
    ensures forall t :: t in multiset(s[k..]) ==> forall j :: 0 <= j < |s[..k]| ==> t.amount <= s[..k][j].amount
  {
    forall t | t in multiset(s[k..])
      ensures forall j :: 0 <= j < k ==> t.amount <= s[j].amount
    {
      var l :| 0 <= l < |s[k..]| && s[k..][l] == t;
      assert s[k + l] == t;
    }
  }

  /** The top list holds min(5, n) of the n transactions of the kind, each of that
      kind, by non-increasing amount, and no transaction left out has a larger
      amount than one listed; with fewer than five of the kind, it holds them all. */
  lemma TopMeaning(ts: seq<Transaction>, kind: string)
    ensures var r := Top(ts, kind);
            var f := Filter(ts, HasKind(kind));
            && |r| == (if |f| < 5 then |f| else 5)
            && (forall t :: t in r ==> t.kind == kind)
            && AmountsNonIncreasing(r)
            && multiset(r) <= multiset(f)
            && (forall t :: t in multiset(f) - multiset(r) ==>
                  forall j :: 0 <= j < |r| ==> t.amount <= r[j].amount)
    ensures forall i :: 0 <= i < |ts| && ts[i].kind == kind ==>
              ts[i] in multiset(Top(ts, kind)) || |Top(ts, kind)| == 5
  {
    var f := Filter(ts, HasKind(kind));
    var sorted := SortByAmount(f);
    SortByAmountSorted(f);
    FirstFiveMeaning(sorted);
    FilterMeaning(ts, HasKind(kind));
    var r := Top(ts, kind);
    forall t | t in r
      ensures t.kind == kind
    {
      assert t in multiset(r);
      assert t in multiset(sorted);
      assert t in f;
    }
    forall i | 0 <= i < |ts| && ts[i].kind == kind && |r| != 5
      ensures ts[i] in multiset(r)
    {
      assert ts[i] in f;
      assert r == sorted;
    }
  }

  /** The top list measured against the whole input: it is taken from the input,
      and no transaction of the kind that it leaves out has a larger amount than
      one it lists. */
  lemma TopFromInput(ts: seq<Transaction>, kind: string)
    ensures multiset(Top(ts, kind)) <= multiset(ts)
    ensures forall t :: t in multiset(ts) - multiset(Top(ts, kind)) && t.kind == kind ==>
              forall j :: 0 <= j < |Top(ts, kind)| ==> t.amount <= Top(ts, kind)[j].amount
  {
    var f := Filter(ts, HasKind(kind));
    var r := Top(ts, kind);
    TopMeaning(ts, kind);
    FilterIsSubMultiset(ts, HasKind(kind));
    FilterMultiplicity(ts, HasKind(kind));
    forall t | t in multiset(ts) - multiset(r) && t.kind == kind
      ensures t in multiset(f) - multiset(r)
    {
    }
  }
}
