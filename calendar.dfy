/**
 * The daily-update calendar: which month a request shows, the links to the
 * months before and after it, and the updates of that month grouped by day.
 */
module Calendar {
  import opened Wrappers
  import opened Users
  import opened Dates
  import opened Rows
  import opened Models

  /** The `<int:year>/<int:month>` of the route; the converter matches digits only. */
  datatype MonthRoute = MonthRoute(year: nat, month: nat)

  datatype Nav = Nav(current: Date, next: Date, prev: Date)

  /** The exceptions the month arithmetic raises. */
  datatype NavError = ValueError | OverflowError

  /** `if not year: year, month = today.year, today.month`: no year, or year 0, means today's month. */
  function ShownMonth(route: Option<MonthRoute>, today: Date): (r: MonthRoute)
    requires Dates.Valid(today)
    ensures route.None? || route.value.year == 0 ==> r == MonthRoute(today.year, today.month)
    ensures route.Some? && route.value.year != 0 ==> r == route.value
  {
    if route.None? || route.value.year == 0 then MonthRoute(today.year, today.month) else route.value
  }

  /**
   * `current_date = date(year, month, 1)`, `next_month = (current_date +
   * timedelta(days=32)).replace(day=1)` and `prev_month = (current_date -
   * timedelta(days=1)).replace(day=1)`.
   */
  function MonthNav(route: Option<MonthRoute>, today: Date): (r: Result<Nav, NavError>)
    requires Dates.Valid(today)
  {
    var ym := ShownMonth(route, today);
    var current := Date(ym.year, ym.month, 1);
    if !Dates.Valid(current) then Err(ValueError)
    else
      match AddDays(current, 32)
      case None => Err(OverflowError)
      case Some(after) =>
        PrevFromFirst(current);
        match PrevDay(current)
        case None => Err(OverflowError)
        case Some(before) => Ok(Nav(current, FirstOfMonth(after), FirstOfMonth(before)))
  }

  /**
   * The shown month is the first of the requested (or current) month; the
   * next link is the first of the following month, December rolling over to
   * January, and the previous link the first of the preceding month. The
   * only failures are an impossible month (`ValueError`) and stepping past
   * year 9999 or before year 1 (`OverflowError`).
   */
  lemma MonthNavSpec(route: Option<MonthRoute>, today: Date)
    requires Dates.Valid(today)
    ensures var ym := ShownMonth(route, today);
      var r := MonthNav(route, today);
      && (r == Err(ValueError) <==> !(1 <= ym.year <= MaxYear && 1 <= ym.month <= 12))
      && (r == Err(OverflowError) <==>
            (ym.year == MaxYear && ym.month == 12) || (ym.year == MinYear && ym.month == 1))
  {
    var ym := ShownMonth(route, today);
    var current := Date(ym.year, ym.month, 1);
    if Dates.Valid(current) {
      Add32FromFirst(current);
      PrevFromFirst(current);
    }
  }

  /** When the links exist, they are the firsts of the shown, the following and the preceding month. */
  lemma MonthNavLinks(route: Option<MonthRoute>, today: Date)
    requires Dates.Valid(today)
    requires MonthNav(route, today).Ok?
    ensures var ym := ShownMonth(route, today);
      var nav := MonthNav(route, today).value;
      && nav.current == Date(ym.year, ym.month, 1)
      && nav.next == FollowingMonth(ym.year, ym.month)
      && nav.prev == PrecedingMonth(ym.year, ym.month)
  {
    var ym := ShownMonth(route, today);
    var current := Date(ym.year, ym.month, 1);
    Add32FromFirst(current);
    PrevFromFirst(current);
  }

  // ---------------------------------------------------------------------
  // The month's updates by day
  // ---------------------------------------------------------------------

  /** `DailyUpdate.Meta.ordering = ['-created_at']`. */
  function CreatedDesc(a: DailyUpdate, b: DailyUpdate): bool { a.createdAt >= b.createdAt }

  /** `DailyUpdate.objects.filter(user=..., date__year=..., date__month=...)`, newest first. */
  function MonthUpdates(t: Tables, user: UserId, year: int, month: int): (r: seq<DailyUpdate>)
    ensures forall d :: d in r <==> d in t.dailyUpdates && d.user == user && d.date.year == year && d.date.month == month
    ensures forall i, j :: 0 <= i < j < |r| ==> r[i].createdAt >= r[j].createdAt
  {
    var mine := Filter(t.dailyUpdates, (d: DailyUpdate) => d.user == user && d.date.year == year && d.date.month == month);
    CreatedDescPreorder();
    var r := SortWith(mine, CreatedDesc);
    SortedNewestFirst(mine, r);
    r
  }

  lemma CreatedDescPreorder()
    ensures TotalPreorder(CreatedDesc)
  {
  }

  /** A sort of `mine` by `CreatedDesc` holds the same rows, newest first. */
  lemma SortedNewestFirst(mine: seq<DailyUpdate>, r: seq<DailyUpdate>)
    requires SortedWith(r, CreatedDesc) && multiset(r) == multiset(mine)
    ensures forall d :: d in r <==> d in mine
    ensures forall i, j :: 0 <= i < j < |r| ==> r[i].createdAt >= r[j].createdAt
  {
    assert forall d :: d in r <==> d in multiset(mine);
    forall i, j | 0 <= i < j < |r| ensures r[i].createdAt >= r[j].createdAt {
      assert CreatedDesc(r[i], r[j]);
    }
  }

  /** The updates of `s` dated on day `day`, in the order of `s`. */
  function OnDay(s: seq<DailyUpdate>, day: int): (r: seq<DailyUpdate>)
    ensures forall u :: u in r <==> u in s && u.date.day == day
  {
    if s == [] then []
    else
      var last := s[|s| - 1];
      assert s == s[..|s| - 1] + [last];
      OnDay(s[..|s| - 1], day) + (if last.date.day == day then [last] else [])
  }

  /** The days some update of `s` is dated on. */
  function DaysOf(s: seq<DailyUpdate>): set<int> {
    set u | u in s :: u.date.day
  }

  lemma OnDayAppend(s: seq<DailyUpdate>, u: DailyUpdate, d: int)
    ensures OnDay(s + [u], d) == OnDay(s, d) + (if u.date.day == d then [u] else [])
  {
    assert (s + [u])[..|s|] == s;
  }

  lemma OnDayAbsent(s: seq<DailyUpdate>, d: int)
    requires d !in DaysOf(s)
    ensures OnDay(s, d) == []
  {
    assert forall x :: x in s ==> x.date.day in DaysOf(s);
    var none := OnDay(s, d);
    assert forall k :: 0 <= k < |none| ==> none[k] in none;
  }

  lemma DaysOfAppend(s: seq<DailyUpdate>, u: DailyUpdate)
    ensures DaysOf(s + [u]) == DaysOf(s) + {u.date.day}
  {
    assert forall x :: x in s + [u] <==> x in s || x == u;
  }

  /** `byDay` groups `s` by day: its keys are the days of `s`, each mapped to that day's updates in order. */
  ghost predicate Grouped(byDay: map<int, seq<DailyUpdate>>, s: seq<DailyUpdate>) {
    byDay.Keys == DaysOf(s) && forall d :: d in byDay ==> byDay[d] == OnDay(s, d)
  }

  /** `if day not in updates_dict: updates_dict[day] = []`, then `updates_dict[day].append(u)`. */
  function AddToDay(byDay: map<int, seq<DailyUpdate>>, u: DailyUpdate): map<int, seq<DailyUpdate>> {
    var b := if u.date.day in byDay then byDay else byDay[u.date.day := []];
    b[u.date.day := b[u.date.day] + [u]]
  }

  /** The dictionary the loop builds from `s`, one update at a time in order. */
  function GroupAll(s: seq<DailyUpdate>): map<int, seq<DailyUpdate>> {
    if s == [] then map[] else AddToDay(GroupAll(s[..|s| - 1]), s[|s| - 1])
  }

  /** Adding one more update to a grouping of `s` groups `s` with it appended. */
  lemma GroupedSnoc(byDay: map<int, seq<DailyUpdate>>, s: seq<DailyUpdate>, u: DailyUpdate)
    requires Grouped(byDay, s)
    ensures Grouped(AddToDay(byDay, u), s + [u])
  {
    var day := u.date.day;
    var b' := AddToDay(byDay, u);
    DaysOfAppend(s, u);
    assert b'.Keys == byDay.Keys + {day};
    forall d | d in b' ensures b'[d] == OnDay(s + [u], d) {
      OnDayAppend(s, u, d);
      if d != day {
        assert b'[d] == byDay[d];
      } else if day !in byDay {
        OnDayAbsent(s, day);
      }
    }
  }

  /** The loop's dictionary has the days of `s` as keys, each with that day's updates in order. */
  lemma {:induction false} GroupAllGrouped(s: seq<DailyUpdate>)
    ensures Grouped(GroupAll(s), s)
    decreases |s|
  {
    if s != [] {
      var init := s[..|s| - 1];
      GroupAllGrouped(init);
      GroupedSnoc(GroupAll(init), init, s[|s| - 1]);
      assert init + [s[|s| - 1]] == s;
    }
  }

  /**
   * `updates_dict`: every day that has updates maps to them, in list order;
   * days without updates are absent.
   */
  method GroupByDay(updates: seq<DailyUpdate>) returns (byDay: map<int, seq<DailyUpdate>>)
    ensures byDay == GroupAll(updates)
    ensures Grouped(byDay, updates)
  {
    byDay := map[];
    var i := 0;
    while i < |updates|
      invariant 0 <= i <= |updates|
      invariant byDay == GroupAll(updates[..i])
    {
      var u := updates[i];
      var day := u.date.day;
      if day !in byDay {
        byDay := byDay[day := []];
      }
      byDay := byDay[day := byDay[day] + [u]];
      assert updates[..i + 1][..i] == updates[..i];
      i := i + 1;
    }
    assert updates[..i] == updates;
    GroupAllGrouped(updates);
  }

  /** Every update of the month is listed under its own day and under no other. */
  lemma GroupsPartition(updates: seq<DailyUpdate>, byDay: map<int, seq<DailyUpdate>>, u: DailyUpdate)
    requires byDay.Keys == DaysOf(updates)
    requires forall d :: d in byDay ==> byDay[d] == OnDay(updates, d)
    requires u in updates
    ensures u.date.day in byDay && u in byDay[u.date.day]
    ensures forall d :: d in byDay && u in byDay[d] ==> d == u.date.day
  {
  }
}
