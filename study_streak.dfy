/**
 * GET /api/study-streak (app/api/study-streak/route.ts): the number of
 * consecutive study days ending at the most recent one, provided that one
 * is today or yesterday. Days are whole day numbers; the query delivers
 * the caller's activity days newest first.
 */
module StudyStreak {
  import opened Wrappers
  import opened Store

  /** Newest first, repeats allowed: the `order('activity_date', { ascending: false })` result. */
  predicate Descending(dates: seq<int>) {
    forall i, j :: 0 <= i < j < |dates| ==> dates[i] >= dates[j]
  }

  /**
   * What the counting loop does from its current position with the cursor
   * at `cursor`: a match counts and moves the cursor a day back, an earlier
   * day stops, a later day is passed over.
   */
  function Scan(dates: seq<int>, cursor: int): (n: nat)
    ensures n <= |dates|
  {
    if dates == [] then 0
    else if dates[0] == cursor then 1 + Scan(dates[1..], cursor - 1)
    else if dates[0] < cursor then 0
    else Scan(dates[1..], cursor)
  }

  /** The streak the route reports for the query result `dates`. */
  function Streak(dates: seq<int>, today: int): (n: nat)
    ensures dates == [] ==> n == 0
    ensures dates != [] && dates[0] < today - 1 ==> n == 0
    ensures n <= |dates|
  {
    if dates == [] then 0
    else if dates[0] < today - 1 then 0
    else Scan(dates, dates[0])
  }

  /** The streak computation of the route (lines 33-69), with `today` at midnight as a day number. */
  method ComputeStreak(dates: seq<int>, today: int) returns (streak: nat)
    ensures streak == Streak(dates, today)
  {
    if |dates| == 0 {
      return 0;
    }
    var yesterday := today - 1;
    var latestDate := dates[0];
    if latestDate < yesterday {
      return 0;
    }
    streak := 0;
    var currentDate := latestDate;
    var i := 0;
    while i < |dates|
      invariant 0 <= i <= |dates|
      invariant streak + Scan(dates[i..], currentDate) == Scan(dates, latestDate)
    {
      var activityDate := dates[i];
      assert dates[i..][1..] == dates[i + 1..];
      if activityDate == currentDate {
        streak := streak + 1;
        currentDate := currentDate - 1;
      } else if activityDate < currentDate {
        break;
      }
      i := i + 1;
    }
  }

  /**
   * On newest-first input the scan counts exactly the run of consecutive
   * days in `dates` that ends at the cursor: every day of
   * (cursor - n, cursor] occurs, cursor - n does not.
   */
  lemma {:induction false} ScanCountsRun(dates: seq<int>, cursor: int)
    requires Descending(dates)
    ensures forall d :: cursor - Scan(dates, cursor) < d <= cursor ==> d in dates
    ensures cursor - Scan(dates, cursor) !in dates
  {
    if dates == [] {
    } else {
      var rest := dates[1..];
      assert dates == [dates[0]] + rest;
      assert Descending(rest);
      assert forall x :: x in rest ==> x <= dates[0] by {
        forall x | x in rest ensures x <= dates[0] {
          var k :| 0 <= k < |rest| && rest[k] == x;
          assert dates[k + 1] == x;
        }
      }
      if dates[0] == cursor {
        ScanCountsRun(rest, cursor - 1);
      } else if dates[0] < cursor {
      } else {
        ScanCountsRun(rest, cursor);
      }
    }
  }

  /** At most one n fits the run description: the run length is a function of the set of days. */
  lemma RunLengthUnique(days: seq<int>, top: int, n: nat, m: nat)
    requires forall d :: top - n < d <= top ==> d in days
    requires top - n !in days
    requires forall d :: top - m < d <= top ==> d in days
    requires top - m !in days
    ensures n == m
  {
  }

  /**
   * When the latest day is today or yesterday, the streak is the length
   * of the run of consecutive days ending at it, hence at least 1.
   */
  lemma StreakIsRun(dates: seq<int>, today: int)
    requires Descending(dates) && dates != [] && dates[0] >= today - 1
    ensures Streak(dates, today) >= 1
    ensures forall d :: dates[0] - Streak(dates, today) < d <= dates[0] ==> d in dates
    ensures dates[0] - Streak(dates, today) !in dates
  {
    ScanCountsRun(dates, dates[0]);
  }

  /** The days (top - n, top] as a set. */
  function DaysBefore(top: int, n: nat): (s: set<int>)
    ensures |s| == n
    ensures forall d :: d in s <==> top - n < d <= top
    decreases n
  {
    if n == 0 then {} else
      var s := DaysBefore(top - 1, n - 1) + {top};
      assert top !in DaysBefore(top - 1, n - 1);
      s
  }

  /** The streak never exceeds the number of distinct study days. */
  lemma StreakAtMostDistinctDays(dates: seq<int>, today: int)
    requires Descending(dates)
    ensures Streak(dates, today) <= |set d | d in dates|
  {
    if dates != [] && dates[0] >= today - 1 {
      var n := Streak(dates, today);
      StreakIsRun(dates, today);
      var run := DaysBefore(dates[0], n);
      assert run <= (set d | d in dates);
      SubsetCardinality(run, (set d | d in dates));
    }
  }

  lemma SubsetCardinality(a: set<int>, b: set<int>)
    requires a <= b
    ensures |a| <= |b|
  {
    assert b == a + (b - a);
  }

  /**
   * Repeated days neither extend nor break the streak: two newest-first
   * lists with the same days give the same streak.
   */
  lemma StreakDependsOnlyOnDays(a: seq<int>, b: seq<int>, today: int)
    requires Descending(a) && Descending(b)
    requires forall d :: d in a <==> d in b
    ensures Streak(a, today) == Streak(b, today)
  {
    assert a != [] ==> a[0] in a && a[0] in b;
    assert b != [] ==> b[0] in b && b[0] in a;
    if a != [] {
      var i :| 0 <= i < |a| && a[i] == b[0];
      var j :| 0 <= j < |b| && b[j] == a[0];
      assert a[0] == b[0];
      if a[0] >= today - 1 {
        StreakIsRun(a, today);
        StreakIsRun(b, today);
        RunLengthUnique(a, a[0], Streak(a, today), Streak(b, today));
      }
    }
  }

  /** Nothing after the first gap counts: days older than the gap can be appended freely. */
  lemma OlderDaysAfterGapIgnored(dates: seq<int>, older: seq<int>, today: int)
    requires Descending(dates) && dates != [] && dates[0] >= today - 1
    requires forall k :: 0 <= k < |older| ==> older[k] < dates[0] - Streak(dates, today)
    ensures Streak(dates + older, today) == Streak(dates, today)
  {
    ScanAppend(dates, older, dates[0]);
  }

  lemma {:induction false} ScanAppend(dates: seq<int>, older: seq<int>, cursor: int)
    requires Descending(dates)
    requires forall k :: 0 <= k < |older| ==> older[k] < cursor - Scan(dates, cursor)
    ensures Scan(dates + older, cursor) == Scan(dates, cursor)
  {
    if dates == [] {
      if older != [] {
        assert (dates + older)[0] == older[0];
      }
    } else {
      assert (dates + older)[1..] == dates[1..] + older;
      assert Descending(dates[1..]);
      if dates[0] == cursor {
        ScanAppend(dates[1..], older, cursor - 1);
      } else if dates[0] > cursor {
        ScanAppend(dates[1..], older, cursor);
      }
    }
  }

  /** Three consecutive days ending today give 3; a single day two days ago gives 0. */
  lemma StreakExamples(today: int)
    ensures Streak([today, today - 1, today - 2], today) == 3
    ensures Streak([today - 2], today) == 0
    ensures Streak([today - 1, today - 1, today - 3], today) == 1
  {
    assert [today, today - 1, today - 2][1..] == [today - 1, today - 2];
    assert [today - 1, today - 2][1..] == [today - 2];
    assert Scan([today - 2], today - 2) == 1 + Scan([], today - 3) == 1;
    assert Scan([today - 1, today - 2], today - 1) == 2;
    assert [today - 1, today - 1, today - 3][1..] == [today - 1, today - 3];
    assert [today - 1, today - 3][1..] == [today - 3];
    assert Scan([today - 3], today - 2) == 0;
    assert Scan([today - 1, today - 3], today - 2) == 0;
  }

  /** The caller's study days, from every course. */
  ghost function UserDays(activity: seq<ActivityRow>, u: UserId): set<int> {
    set r | r in activity && r.userId == u :: r.day
  }

  /**
   * The route. `ordered` is the activity query's result and `fetchFails`
   * its failure; the database is only read.
   */
  method Get(db: Database, user: Option<UserId>, ordered: seq<int>, fetchFails: bool, today: int)
    returns (resp: Response<nat>)
    requires user.Some? ==> Descending(ordered) && forall d :: d in ordered <==> d in UserDays(db.activity, user.value)
    ensures user.None? ==> resp == Failure(401, "Unauthorized")
    ensures user.Some? && fetchFails ==> resp == Failure(500, "Failed to fetch study activity")
    ensures user.Some? && !fetchFails ==> resp == Success(Streak(ordered, today))
    ensures resp.Success? && resp.body > 0 ==>
      forall d :: ordered[0] - resp.body < d <= ordered[0] ==> d in UserDays(db.activity, user.value)
  {
    if user.None? {
      return Failure(401, "Unauthorized");
    }
    if fetchFails {
      return Failure(500, "Failed to fetch study activity");
    }
    var streak := ComputeStreak(ordered, today);
    if streak > 0 {
      StreakIsRun(ordered, today);
    }
    resp := Success(streak);
  }
}
