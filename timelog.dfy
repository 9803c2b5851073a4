/**
 * The time a project's daily-update line items log. Each `time_spent` text
 * such as "2:30" is read as hours and minutes, the entries are summed into
 * minutes, and the total is shown as "{h}h {m}m".
 */
module Timelog {
  import opened Wrappers
  import opened Text
  import opened Rows
  import opened Users
  import opened Models

  /**
   * The entries the model covers: all whitespace, or holding a ':' (which
   * stripping keeps). A non-blank entry without ':' is read as a decimal
   * number of hours, which is floating point and not part of this model.
   */
  predicate Covered(raw: string) {
    AllSpace(raw) || ':' in raw
  }

  predicate AllCovered(entries: seq<string>) {
    forall i :: 0 <= i < |entries| ==> Covered(entries[i])
  }

  /**
   * The minutes one entry adds: `int(parts[0]) * 60 + int(parts[1])` of the
   * stripped text split at ':'. An empty entry is skipped, and an entry
   * whose first two parts are not both integers adds nothing (the
   * `ValueError` is swallowed).
   */
  function EntryMinutes(raw: string): int
    requires Covered(raw)
  {
    if raw == [] then 0
    else
      var t := Strip(raw);
      if ':' in t then
        var parts := Split(t, ':');
        match (ParseInt(parts[0]), ParseInt(parts[1]))
        case (Some(h), Some(m)) => h * 60 + m
        case _ => 0
      else 0
  }

  /**
   * "H:MM" with whitespace around it, and perhaps further ':'-separated
   * fields after the minutes, counts `H * 60 + MM`.
   */
  lemma EntryHoursMinutes(a: string, h: int, m: int, extra: string, b: string)
    requires AllSpace(a) && AllSpace(b)
    requires extra == [] || (extra[0] == ':' && !IsSpace(extra[|extra| - 1]))
    ensures Covered(a + IntToString(h) + ":" + IntToString(m) + extra + b)
    ensures EntryMinutes(a + IntToString(h) + ":" + IntToString(m) + extra + b) == h * 60 + m
  {
    var hs := IntToString(h);
    var ms := IntToString(m);
    var core := hs + [':'] + (ms + extra);
    var raw := a + IntToString(h) + ":" + IntToString(m) + extra + b;
    assert raw == a + core + b;
    CoreTrimmed(h, m, extra);
    StripPadded(a, core, b);
    CoreParts(h, m, extra);
    assert raw[|a| + |hs|] == ':' && core[|hs|] == ':';
    EntryMinutesParsed(raw, h, m);
  }

  /** An entry whose stripped text splits into two integers counts hours and minutes. */
  lemma EntryMinutesParsed(raw: string, h: int, m: int)
    requires ':' in raw && ':' in Strip(raw)
    requires var parts := Split(Strip(raw), ':');
      ParseInt(parts[0]) == Some(h) && ParseInt(parts[1]) == Some(m)
    ensures Covered(raw) && EntryMinutes(raw) == h * 60 + m
  {
  }

  /**
   * An entry holding ':' whose hour or minute field is not an integer adds
   * nothing: the `ValueError` of `int()` is swallowed.
   */
  lemma EntryUnparsed(raw: string)
    requires ':' in Strip(raw)
    requires var parts := Split(Strip(raw), ':');
      ParseInt(parts[0]).None? || ParseInt(parts[1]).None?
    ensures Covered(raw) && EntryMinutes(raw) == 0
  {
    StrippedChar(raw, ':');
  }

  /** A character of the stripped text is a character of the text. */
  lemma StrippedChar(raw: string, c: char)
    requires c in Strip(raw)
    ensures c in raw && raw != []
  {
    var rest := raw[LeadingSpaces(raw)..];
    var r := rest[..|rest| - TrailingSpaces(rest)];
    assert Strip(raw) == r;
    var k :| 0 <= k < |r| && r[k] == c;
    assert raw[LeadingSpaces(raw) + k] == c;
  }

  lemma CoreTrimmed(h: int, m: int, extra: string)
    requires extra == [] || (extra[0] == ':' && !IsSpace(extra[|extra| - 1]))
    ensures Trimmed(IntToString(h) + [':'] + (IntToString(m) + extra))
  {
    var hs := IntToString(h);
    var ms := IntToString(m);
    var core := hs + [':'] + (ms + extra);
    assert core[0] == hs[0];
    if extra == [] {
      assert core[|core| - 1] == ms[|ms| - 1];
    } else {
      assert core[|core| - 1] == extra[|extra| - 1];
    }
  }

  lemma CoreParts(h: int, m: int, extra: string)
    requires extra == [] || extra[0] == ':'
    ensures var parts := Split(IntToString(h) + [':'] + (IntToString(m) + extra), ':');
      |parts| >= 2 && ParseInt(parts[0]) == Some(h) && ParseInt(parts[1]) == Some(m)
  {
    var hs := IntToString(h);
    var ms := IntToString(m);
    NoColon(h);
    NoColon(m);
    SplitFields(hs, ms, extra);
    ParsePrinted(h);
    ParsePrinted(m);
  }

  lemma NoColon(i: int)
    ensures ':' !in IntToString(i)
  {
    var s := IntToString(i);
    assert forall k :: 0 <= k < |s| ==> s[k] != ':';
  }

  lemma ParsePrinted(i: int)
    ensures ParseInt(IntToString(i)) == Some(i)
  {
    ParseIntRoundTrip([], i, []);
    assert [] + IntToString(i) + [] == IntToString(i);
  }

  lemma SplitFields(x: string, y: string, extra: string)
    requires ':' !in x && ':' !in y
    requires extra == [] || extra[0] == ':'
    ensures var parts := Split(x + [':'] + (y + extra), ':');
      |parts| >= 2 && parts[0] == x && parts[1] == y
  {
    SplitAfter(x, y + extra, ':');
    SplitHead(y, extra, ':');
  }

  /** Blank entries add nothing. */
  lemma BlankEntry(raw: string)
    requires AllSpace(raw)
    ensures Covered(raw) && EntryMinutes(raw) == 0
  {
  }

  /** The sum the loops compute, entry by entry in order. */
  function SumMinutes(entries: seq<string>): int
    requires AllCovered(entries)
  {
    if entries == [] then 0
    else SumMinutes(entries[..|entries| - 1]) + EntryMinutes(entries[|entries| - 1])
  }

  /** Each entry adds its own minutes: the total of a concatenation is the sum of the totals. */
  lemma {:induction false} SumMinutesAppend(a: seq<string>, b: seq<string>)
    requires AllCovered(a) && AllCovered(b)
    ensures AllCovered(a + b)
    ensures SumMinutes(a + b) == SumMinutes(a) + SumMinutes(b)
    decreases |b|
  {
    if b != [] {
      var c := a + b;
      var b' := b[..|b| - 1];
      assert c[..|c| - 1] == a + b' && c[|c| - 1] == b[|b| - 1];
      assert AllCovered(b');
      SumMinutesAppend(a, b');
      assert AllCovered(c) by {
        forall i | 0 <= i < |c| ensures Covered(c[i]) {
          if i < |a| { assert c[i] == a[i]; } else { assert c[i] == b[i - |a|]; }
        }
      }
      assert SumMinutes(c) == SumMinutes(a + b') + EntryMinutes(b[|b| - 1]);
      assert SumMinutes(b) == SumMinutes(b') + EntryMinutes(b[|b| - 1]);
    } else {
      assert a + b == a;
    }
  }

  /** One more entry of the list adds its own minutes to the running sum. */
  lemma SumMinutesStep(entries: seq<string>, i: int)
    requires AllCovered(entries) && 0 <= i < |entries|
    ensures AllCovered(entries[..i]) && AllCovered(entries[..i + 1])
    ensures SumMinutes(entries[..i + 1]) == SumMinutes(entries[..i]) + EntryMinutes(entries[i])
  {
    assert entries[..i + 1][..i] == entries[..i];
  }

  /** The accumulation loop over `time_spent` values. */
  method TotalMinutes(entries: seq<string>) returns (total: int)
    requires AllCovered(entries)
    ensures total == SumMinutes(entries)
  {
    total := 0;
    var i := 0;
    while i < |entries|
      invariant 0 <= i <= |entries|
      invariant AllCovered(entries[..i]) && total == SumMinutes(entries[..i])
    {
      SumMinutesStep(entries, i);
      total := total + EntryMinutes(entries[i]);
      i := i + 1;
    }
    assert entries[..i] == entries;
  }

  /** `f"{total // 60}h {total % 60}m"` with floor division. */
  function FormatTotal(total: int): string {
    IntToString(total / 60) + "h " + IntToString(total % 60) + "m"
  }

  /**
   * The text shows whole hours and the remaining minutes, below 60 (also
   * for a negative total, as floor division gives).
   */
  lemma FormatTotalShows(h: int, m: int)
    requires 0 <= m < 60
    ensures FormatTotal(h * 60 + m) == IntToString(h) + "h " + IntToString(m) + "m"
  {
    DivMod60(h, m);
  }

  /** Euclidean division by 60 recovers the hours and the minutes below 60. */
  lemma DivMod60(h: int, m: int)
    requires 0 <= m < 60
    ensures (h * 60 + m) / 60 == h && (h * 60 + m) % 60 == m
  {
  }

  /** Different totals show differently. */
  lemma FormatTotalInjective(a: int, b: int)
    requires FormatTotal(a) == FormatTotal(b)
    ensures a == b
  {
    var ha, ma := IntToString(a / 60), IntToString(a % 60);
    var hb, mb := IntToString(b / 60), IntToString(b % 60);
    FormatTotalFields(a);
    FormatTotalFields(b);
    FirstField(ha, "h " + ma + "m", hb, "h " + mb + "m");
    MinutesField(ma, mb);
    IntToStringInjective(a / 60, b / 60);
    IntToStringInjective(a % 60, b % 60);
    assert a == (a / 60) * 60 + a % 60 && b == (b / 60) * 60 + b % 60;
  }

  /** The shown total is an 'h'-free hours field, then "h ", the minutes and "m". */
  lemma FormatTotalFields(total: int)
    ensures FormatTotal(total) == IntToString(total / 60) + ("h " + IntToString(total % 60) + "m")
    ensures 'h' !in IntToString(total / 60)
  {
    var hs := IntToString(total / 60);
    assert forall k :: 0 <= k < |hs| ==> hs[k] != 'h';
  }

  lemma MinutesField(x: string, y: string)
    requires "h " + x + "m" == "h " + y + "m"
    ensures x == y
  {
    var u, v := "h " + x + "m", "h " + y + "m";
    assert |x| == |y|;
    assert x == u[2..|x| + 2] && y == v[2..|y| + 2];
  }

  /** Two texts that each start with an 'h'-free field followed by 'h' split the same way. */
  lemma FirstField(x: string, u: string, y: string, v: string)
    requires x + u == y + v
    requires 'h' !in x && 'h' !in y
    requires |u| > 0 && |v| > 0 && u[0] == 'h' && v[0] == 'h'
    ensures x == y && u == v
  {
    var s := x + u;
    assert forall k :: 0 <= k < |x| ==> s[k] == x[k];
    assert forall k :: 0 <= k < |y| ==> s[k] == y[k];
    assert s[|x|] == 'h' && s[|y|] == 'h';
    assert |x| == |y|;
    assert x == s[..|x|] && y == s[..|y|];
  }

  lemma IntToStringInjective(a: int, b: int)
    requires IntToString(a) == IntToString(b)
    ensures a == b
  {
    var s := IntToString(a);
    if a < 0 {
      assert b < 0;
      assert NatToString(-a) == s[1..] == NatToString(-b);
    } else {
      assert b >= 0;
    }
  }

  // ---------------------------------------------------------------------
  // Per project and per member
  // ---------------------------------------------------------------------

  /** The line item was logged in a daily update of `user`. */
  predicate LoggedBy(t: Tables, l: LineItem, user: UserId) {
    exists d :: d in t.dailyUpdates && d.id == l.dailyUpdate && d.user == user
  }

  function TimeSpentOf(l: LineItem): string { l.timeSpent }

  /** `time_spent` of every line item logged against the project. */
  function ProjectEntries(t: Tables, project: Id): seq<string> {
    MapRows(Filter(t.lineItems, (l: LineItem) => l.project == project), TimeSpentOf)
  }

  /** `time_spent` of the line items the member logged against the project. */
  function MemberEntries(t: Tables, project: Id, user: UserId): seq<string> {
    MapRows(Filter(t.lineItems, (l: LineItem) => l.project == project && LoggedBy(t, l, user)), TimeSpentOf)
  }

  /** The entries of the selected line items, no more and no fewer. */
  lemma MapTimeSpent(items: seq<LineItem>, r: seq<string>)
    requires r == MapRows(items, TimeSpentOf)
    ensures forall x :: x in r <==> exists l :: l in items && x == l.timeSpent
  {
    assert forall l :: l in items ==> TimeSpentOf(l) in r by {
      forall l | l in items ensures TimeSpentOf(l) in r {
        var k :| 0 <= k < |items| && items[k] == l;
        assert r[k] == TimeSpentOf(l);
      }
    }
    assert forall k :: 0 <= k < |r| ==> items[k] in items && r[k] == items[k].timeSpent;
  }

  /** The project's entries are exactly the `time_spent` of its line items. */
  lemma ProjectEntriesExact(t: Tables, project: Id)
    ensures forall x :: x in ProjectEntries(t, project) <==>
      exists l :: l in t.lineItems && l.project == project && x == l.timeSpent
  {
    var items := Filter(t.lineItems, (l: LineItem) => l.project == project);
    MapTimeSpent(items, ProjectEntries(t, project));
  }

  /** The member's entries are exactly the `time_spent` of the line items they logged on the project. */
  lemma MemberEntriesExact(t: Tables, project: Id, user: UserId)
    ensures forall x :: x in MemberEntries(t, project, user) <==>
      exists l :: l in t.lineItems && l.project == project && LoggedBy(t, l, user) && x == l.timeSpent
  {
    var items := Filter(t.lineItems, (l: LineItem) => l.project == project && LoggedBy(t, l, user));
    MapTimeSpent(items, MemberEntries(t, project, user));
  }

  /** Every `time_spent` of the database is of the covered form. */
  predicate EntriesCovered(t: Tables) {
    forall l :: l in t.lineItems ==> Covered(l.timeSpent)
  }

  /** A database whose every entry is covered covers each project's and each member's entries. */
  lemma EntriesOfCovered(t: Tables, project: Id, user: UserId)
    requires EntriesCovered(t)
    ensures AllCovered(ProjectEntries(t, project))
    ensures AllCovered(MemberEntries(t, project, user))
  {
    var p := ProjectEntries(t, project);
    var q := MemberEntries(t, project, user);
    ProjectEntriesExact(t, project);
    MemberEntriesExact(t, project, user);
    assert forall i :: 0 <= i < |p| ==> p[i] in p;
    assert forall i :: 0 <= i < |q| ==> q[i] in q;
  }

  /** The loop over one member's entries (pms/views.py:286-297). */
  method MemberTotal(t: Tables, project: Id, member: ProjectMember) returns (shown: string)
    requires AllCovered(MemberEntries(t, project, member.user))
    ensures shown == FormatTotal(SumMinutes(MemberEntries(t, project, member.user)))
  {
    var entries := MemberEntries(t, project, member.user);
    var minutes := TotalMinutes(entries);
    shown := FormatTotal(minutes);
  }

  /** The loop over the project's entries (pms/views.py:270-283). */
  method ProjectTotal(t: Tables, project: Id) returns (shown: string)
    requires AllCovered(ProjectEntries(t, project))
    ensures shown == FormatTotal(SumMinutes(ProjectEntries(t, project)))
  {
    var entries := ProjectEntries(t, project);
    var minutes := TotalMinutes(entries);
    shown := FormatTotal(minutes);
  }

  /** The entries of each member row of the team, in team order. */
  function TeamEntries(t: Tables, project: Id, team: seq<ProjectMember>): (cols: seq<seq<string>>)
    ensures |cols| == |team|
  {
    if team == [] then []
    else TeamEntries(t, project, team[..|team| - 1]) + [MemberEntries(t, project, team[|team| - 1].user)]
  }

  /** Column `k` holds exactly the entries of the team's `k`-th member. */
  lemma {:induction false} TeamEntriesAt(t: Tables, project: Id, team: seq<ProjectMember>, k: int)
    requires 0 <= k < |team|
    ensures TeamEntries(t, project, team)[k] == MemberEntries(t, project, team[k].user)
    decreases |team|
  {
    var init := team[..|team| - 1];
    if k < |init| {
      TeamEntriesAt(t, project, init, k);
      assert init[k] == team[k];
    }
  }

  predicate EachCovered(cols: seq<seq<string>>) {
    forall k :: 0 <= k < |cols| ==> AllCovered(cols[k])
  }

  /** The shown total of each column, in order. */
  function Totals(cols: seq<seq<string>>): (shown: seq<string>)
    requires EachCovered(cols)
    ensures |shown| == |cols|
  {
    seq(|cols|, k requires 0 <= k < |cols| => FormatTotal(SumMinutes(cols[k])))
  }

  /** One more column adds its shown total to the row. */
  lemma TotalsSnoc(cols: seq<seq<string>>, i: int)
    requires EachCovered(cols) && 0 <= i < |cols|
    ensures EachCovered(cols[..i]) && EachCovered(cols[..i + 1]) && AllCovered(cols[i])
    ensures Totals(cols[..i + 1]) == Totals(cols[..i]) + [FormatTotal(SumMinutes(cols[i]))]
  {
    assert cols[..i + 1][..i] == cols[..i];
  }

  /** The loop over the team (pms/views.py:285-299): one shown total per member row, in order. */
  method MemberTotals(t: Tables, project: Id, team: seq<ProjectMember>) returns (memberTotals: seq<string>)
    requires EachCovered(TeamEntries(t, project, team))
    ensures memberTotals == Totals(TeamEntries(t, project, team))
  {
    ghost var cols := TeamEntries(t, project, team);
    memberTotals := [];
    var i := 0;
    while i < |team|
      invariant 0 <= i <= |team| && EachCovered(cols[..i]) && memberTotals == Totals(cols[..i])
    {
      TeamEntriesAt(t, project, team, i);
      TotalsSnoc(cols, i);
      var shown := MemberTotal(t, project, team[i]);
      memberTotals := memberTotals + [shown];
      i := i + 1;
    }
    assert cols[..i] == cols;
  }

  /**
   * The project detail page's time summary: the project total and, for
   * each member row of the team, the same computation over that member's
   * entries. Only the entries that are summed need to be covered.
   */
  method TimeSummary(t: Tables, project: Id, team: seq<ProjectMember>)
    returns (projectTotal: string, memberTotals: seq<string>)
    requires AllCovered(ProjectEntries(t, project)) && EachCovered(TeamEntries(t, project, team))
    ensures projectTotal == FormatTotal(SumMinutes(ProjectEntries(t, project)))
    ensures memberTotals == Totals(TeamEntries(t, project, team))
  {
    projectTotal := ProjectTotal(t, project);
    memberTotals := MemberTotals(t, project, team);
  }

  /** Each member row shows the formatted sum of exactly that member's entries in the project. */
  lemma TimeSummaryRows(t: Tables, project: Id, team: seq<ProjectMember>)
    requires EachCovered(TeamEntries(t, project, team))
    ensures forall k :: 0 <= k < |team| ==>
      AllCovered(MemberEntries(t, project, team[k].user)) &&
      Totals(TeamEntries(t, project, team))[k] == FormatTotal(SumMinutes(MemberEntries(t, project, team[k].user)))
  {
    var cols := TeamEntries(t, project, team);
    forall k | 0 <= k < |team|
      ensures AllCovered(MemberEntries(t, project, team[k].user))
      ensures Totals(cols)[k] == FormatTotal(SumMinutes(MemberEntries(t, project, team[k].user)))
    {
      TeamEntriesAt(t, project, team, k);
    }
  }
}
