/** ChallengeActivityController: the `challenge_activities` table, the
    generation of a challenge's activities from its schedule, status
    updates, and the read-only reports over the table. */
module ChallengeActivities {
  import opened Common
  import opened Calendar
  import opened Records
  import opened Schedule
  import opened ApiResponse

  // ---------------------------------------------------------------------
  // Rows and the specification of regeneration
  // ---------------------------------------------------------------------

  /** The row createActivity inserts for one date: the challenge's user and
      id, the date, and status pending. */
  function NewRow(id: nat, c: Challenge, d: Day): Activity
  {
    Activity(id, c.userId, c.id, d, Pending)
  }

  /** The rows inserted for `dates`, one per date in order, numbered from
      `firstId` by the auto-increment key. */
  function NewRows(firstId: nat, c: Challenge, dates: seq<Day>): (r: seq<Activity>)
    ensures |r| == |dates|
  {
    seq(|dates|, i requires 0 <= i < |dates| => NewRow(firstId + i, c, dates[i]))
  }

  /** The rows of challenge `cid` dated today or later (the delete's where). */
  function Upcoming(cid: nat, today: Day): Activity -> bool
  {
    (a: Activity) => a.challengeId == cid && a.date >= today
  }

  /** The rows the delete leaves in place. */
  function Kept(cid: nat, today: Day): Activity -> bool
  {
    (a: Activity) => !(a.challengeId == cid && a.date >= today)
  }

  /** The rows of challenge `cid` dated before today. */
  function Past(cid: nat, today: Day): Activity -> bool
  {
    (a: Activity) => a.challengeId == cid && a.date < today
  }

  /** The rows of every other challenge. */
  function OtherThan(cid: nat): Activity -> bool
  {
    (a: Activity) => a.challengeId != cid
  }

  /** The table after the delete of generateActivities. */
  function AfterDelete(rows: seq<Activity>, c: Challenge, today: Day): seq<Activity>
  {
    Filter(rows, Kept(c.id, today))
  }

  /** The dates a challenge is scheduled on. */
  function Dates(c: Challenge): seq<Day>
  {
    Expand(c.startDate, c.endDate, c.frequency)
  }

  /** The table after a successful generateActivities: the delete, then one
      inserted row per scheduled date of the whole challenge range. */
  function Regenerated(rows: seq<Activity>, nextId: nat, c: Challenge, today: Day): seq<Activity>
  {
    AfterDelete(rows, c, today) + NewRows(nextId, c, Dates(c))
  }

  /** Rows with their key erased, for comparing tables up to numbering. */
  function Unnumbered(s: seq<Activity>): (r: seq<Activity>)
    ensures |r| == |s|
  {
    seq(|s|, i requires 0 <= i < |s| => s[i].(id := 0))
  }

  /** The pending rows of challenge `c` for `dates`, without keys. */
  function PendingFor(c: Challenge, dates: seq<Day>): (r: seq<Activity>)
    ensures |r| == |dates|
  {
    seq(|dates|, i requires 0 <= i < |dates| => NewRow(0, c, dates[i]))
  }

  function ActivityKey(a: Activity): int { a.id }

  /** Keys strictly increase along the table. */
  predicate IdsIncreasing(rows: seq<Activity>)
  {
    KeysIncreasing(rows, ActivityKey)
  }

  /** Every key is below the next auto-increment value. */
  predicate IdsBelow(rows: seq<Activity>, nextId: nat)
  {
    forall i :: 0 <= i < |rows| ==> rows[i].id < nextId
  }

  // ---------------------------------------------------------------------
  // Lemmas about the row sequences
  // ---------------------------------------------------------------------

  lemma {:induction false} NewRowsSnoc(firstId: nat, c: Challenge, dates: seq<Day>, d: Day)
    ensures NewRows(firstId, c, dates + [d]) == NewRows(firstId, c, dates) + [NewRow(firstId + |dates|, c, d)]
  {
  }

  lemma {:induction false} PendingForConcat(c: Challenge, a: seq<Day>, b: seq<Day>)
    ensures PendingFor(c, a + b) == PendingFor(c, a) + PendingFor(c, b)
  {
  }

  lemma {:induction false} UnnumberedConcat(a: seq<Activity>, b: seq<Activity>)
    ensures Unnumbered(a + b) == Unnumbered(a) + Unnumbered(b)
  {
  }

  /** New rows without their keys are the pending rows of their dates. */
  lemma {:induction false} UnnumberedNewRows(firstId: nat, c: Challenge, dates: seq<Day>)
    ensures Unnumbered(NewRows(firstId, c, dates)) == PendingFor(c, dates)
  {
  }

  /** Erasing keys commutes with a filter that does not look at keys. */
  lemma {:induction false} UnnumberedFilter(s: seq<Activity>, p: Activity -> bool)
    requires forall a :: p(a) == p(a.(id := 0))
    ensures Unnumbered(Filter(s, p)) == Filter(Unnumbered(s), p)
  {
    if s != [] {
      UnnumberedFilter(s[1..], p);
      var head := if p(s[0]) then [s[0]] else [];
      UnnumberedConcat(head, Filter(s[1..], p));
      assert Unnumbered(s)[1..] == Unnumbered(s[1..]);
      assert Unnumbered(s)[0] == s[0].(id := 0);
    }
  }

  /** Filtering keyless pending rows by a property of their date filters
      the dates. */
  lemma {:induction false} PendingForFilter(c: Challenge, dates: seq<Day>, p: Activity -> bool, q: Day -> bool)
    requires forall d: Day :: p(NewRow(0, c, d)) == q(d)
    ensures Filter(PendingFor(c, dates), p) == PendingFor(c, Filter(dates, q))
  {
    if dates != [] {
      PendingForFilter(c, dates[1..], p, q);
      assert PendingFor(c, dates)[1..] == PendingFor(c, dates[1..]);
      var head := if q(dates[0]) then [dates[0]] else [];
      PendingForConcat(c, head, Filter(dates[1..], q));
    }
  }

  /** A filter keeps keys increasing and below the next key. */
  lemma {:induction false} FilterKeepsIds(rows: seq<Activity>, nextId: nat, p: Activity -> bool)
    requires IdsIncreasing(rows) && IdsBelow(rows, nextId)
    ensures IdsIncreasing(Filter(rows, p)) && IdsBelow(Filter(rows, p), nextId)
  {
    FilterKeysIncreasing(rows, ActivityKey, p);
    var r := Filter(rows, p);
    forall i | 0 <= i < |r| ensures r[i].id < nextId {
      assert r[i] in rows;
    }
  }

  /** Filtering the regenerated table is filtering its two parts. */
  lemma {:induction false} RegeneratedSplit(rows: seq<Activity>, nextId: nat, c: Challenge, today: Day, p: Activity -> bool)
    ensures Filter(Regenerated(rows, nextId, c, today), p)
         == Filter(AfterDelete(rows, c, today), p) + Filter(NewRows(nextId, c, Dates(c)), p)
  {
    FilterConcat(AfterDelete(rows, c, today), NewRows(nextId, c, Dates(c)), p);
  }

  // ---------------------------------------------------------------------
  // What generateActivities does to the table
  // ---------------------------------------------------------------------

  /** Regeneration leaves the rows of every other challenge exactly as
      they were, in order and with their keys. */
  lemma {:induction false} OtherChallengesUntouched(rows: seq<Activity>, nextId: nat, c: Challenge, today: Day)
    ensures Filter(Regenerated(rows, nextId, c, today), OtherThan(c.id)) == Filter(rows, OtherThan(c.id))
  {
    RegeneratedSplit(rows, nextId, c, today, OtherThan(c.id));
    FilterFilter(rows, Kept(c.id, today), OtherThan(c.id), OtherThan(c.id));
    FilterNone(NewRows(nextId, c, Dates(c)), OtherThan(c.id));
  }

  /** Regeneration keeps the challenge's past rows, and adds another
      pending row for every scheduled date before today. */
  lemma {:induction false} PastRowsKept(rows: seq<Activity>, nextId: nat, c: Challenge, today: Day)
    ensures var added := Filter(NewRows(nextId, c, Dates(c)), Past(c.id, today));
      && Filter(Regenerated(rows, nextId, c, today), Past(c.id, today)) == Filter(rows, Past(c.id, today)) + added
      && Unnumbered(added) == PendingFor(c, Filter(Dates(c), (d: Day) => d < today))
  {
    var inserted := NewRows(nextId, c, Dates(c));
    RegeneratedSplit(rows, nextId, c, today, Past(c.id, today));
    FilterFilter(rows, Kept(c.id, today), Past(c.id, today), Past(c.id, today));
    UnnumberedFilter(inserted, Past(c.id, today));
    UnnumberedNewRows(nextId, c, Dates(c));
    PendingForFilter(c, Dates(c), Past(c.id, today), (d: Day) => d < today);
  }

  /** After regeneration the challenge's rows dated today or later are,
      up to their keys, exactly one pending row per scheduled date from
      today on, whatever the table held before. */
  lemma {:induction false} UpcomingRowsRebuilt(rows: seq<Activity>, nextId: nat, c: Challenge, today: Day)
    ensures Unnumbered(Filter(Regenerated(rows, nextId, c, today), Upcoming(c.id, today)))
         == PendingFor(c, Filter(Dates(c), (d: Day) => d >= today))
  {
    var inserted := NewRows(nextId, c, Dates(c));
    RegeneratedSplit(rows, nextId, c, today, Upcoming(c.id, today));
    FilterFilter(rows, Kept(c.id, today), Upcoming(c.id, today), (a: Activity) => false);
    FilterNone(rows, (a: Activity) => false);
    UnnumberedFilter(inserted, Upcoming(c.id, today));
    UnnumberedNewRows(nextId, c, Dates(c));
    PendingForFilter(c, Dates(c), Upcoming(c.id, today), (d: Day) => d >= today);
  }

  /** A second regeneration on the same day leaves the challenge's rows
      from today on as the first one left them (up to keys). */
  lemma {:induction false} UpcomingRowsIdempotent(rows: seq<Activity>, n1: nat, n2: nat, c: Challenge, today: Day)
    ensures var once := Regenerated(rows, n1, c, today);
      Unnumbered(Filter(Regenerated(once, n2, c, today), Upcoming(c.id, today)))
        == Unnumbered(Filter(once, Upcoming(c.id, today)))
  {
    UpcomingRowsRebuilt(rows, n1, c, today);
    UpcomingRowsRebuilt(Regenerated(rows, n1, c, today), n2, c, today);
  }

  /** The rows a regeneration adds that survive the next one's delete are
      as many as the scheduled dates before today. */
  lemma {:induction false} KeptNewRowsCount(nextId: nat, c: Challenge, today: Day)
    ensures |AfterDelete(NewRows(nextId, c, Dates(c)), c, today)| == Count(Dates(c), (d: Day) => d < today)
  {
    var inserted := NewRows(nextId, c, Dates(c));
    UnnumberedFilter(inserted, Kept(c.id, today));
    UnnumberedNewRows(nextId, c, Dates(c));
    PendingForFilter(c, Dates(c), Kept(c.id, today), (d: Day) => d < today);
    assert |Filter(inserted, Kept(c.id, today))| == |Unnumbered(Filter(inserted, Kept(c.id, today)))|;
  }

  /** Regeneration is not idempotent on the whole table: a second call on
      the same day grows it by one duplicate per scheduled date before
      today. */
  lemma {:induction false} RegenerationDuplicatesPast(rows: seq<Activity>, n1: nat, n2: nat, c: Challenge, today: Day)
    ensures var once := Regenerated(rows, n1, c, today);
      |Regenerated(once, n2, c, today)| == |once| + Count(Dates(c), (d: Day) => d < today)
  {
    var inserted := NewRows(n1, c, Dates(c));
    FilterConcat(AfterDelete(rows, c, today), inserted, Kept(c.id, today));
    FilterIdempotent(rows, Kept(c.id, today));
    KeptNewRowsCount(n1, c, today);
  }

  /** A frequency outside daily, weekly and monthly inserts nothing. */
  lemma {:induction false} UnknownFrequencyInsertsNothing(rows: seq<Activity>, nextId: nat, c: Challenge, today: Day)
    requires c.frequency != "daily" && c.frequency != "weekly" && c.frequency != "monthly"
    ensures Regenerated(rows, nextId, c, today) == AfterDelete(rows, c, today)
  {
  }

  // ---------------------------------------------------------------------
  // The table
  // ---------------------------------------------------------------------

  /** `challenge_activities`, with its auto-increment counter. */
  class ActivityTable {
    var rows: seq<Activity>
    var nextId: nat

    ghost predicate Valid()
      reads this
    {
      IdsIncreasing(rows) && IdsBelow(rows, nextId)
    }

    constructor ()
      ensures Valid() && rows == [] && nextId == 1
    {
      rows := [];
      nextId := 1;
    }

    /** createActivity: insert one pending row for `date`. */
    method CreateActivity(c: Challenge, date: Day) returns (a: Activity)
      requires Valid()
      modifies this
      ensures Valid()
      ensures a == NewRow(old(nextId), c, date)
      ensures rows == old(rows) + [a] && nextId == old(nextId) + 1
    {
      a := NewRow(nextId, c, date);
      rows := rows + [a];
      nextId := nextId + 1;
    }

    /** The foreach of the daily and weekly cases: one row per date. */
    method CreateEach(c: Challenge, period: seq<Day>) returns (created: seq<Activity>)
      requires Valid()
      modifies this
      ensures Valid()
      ensures created == NewRows(old(nextId), c, period)
      ensures rows == old(rows) + created && nextId == old(nextId) + |period|
    {
      created := [];
      var i := 0;
      while i < |period|
        invariant 0 <= i <= |period| && Valid()
        invariant created == NewRows(old(nextId), c, period[..i])
        invariant rows == old(rows) + created && nextId == old(nextId) + i
      {
        var a := CreateActivity(c, period[i]);
        NewRowsSnoc(old(nextId), c, period[..i], period[i]);
        assert period[..i + 1] == period[..i] + [period[i]];
        created := created + [a];
        i := i + 1;
      }
      assert period[..i] == period;
    }

    /** createActivitiesBasedOnFrequency: insert one pending row per date the
        challenge's frequency schedules, and return them in order. */
    method CreateActivitiesBasedOnFrequency(c: Challenge) returns (created: seq<Activity>)
      requires Valid()
      modifies this
      ensures Valid()
      ensures created == NewRows(old(nextId), c, Dates(c))
      ensures rows == old(rows) + created && nextId == old(nextId) + |created|
    {
      if c.frequency == "daily" {
        created := CreateEach(c, DaySteps(c.startDate, c.endDate, 1));
      } else if c.frequency == "weekly" {
        created := CreateEach(c, DaySteps(c.startDate, c.endDate, 7));
      } else if c.frequency == "monthly" {
        // startOfMonth and endOfMonth move the two dates themselves, so the
        // loop's guard compares against the widened bounds.
        var startDate := StartOfMonth(c.startDate);
        var endDate := EndOfMonth(c.endDate);
        var period := MonthSteps(MonthIndexOf(startDate), endDate);
        created := CreateInRange(c, period, startDate, endDate);
      } else {
        created := [];
      }
    }

    /** The foreach of the monthly case: one row per date of `period` that
        lies between `startDate` and `endDate`. */
    method CreateInRange(c: Challenge, period: seq<Day>, startDate: Day, endDate: Day)
      returns (created: seq<Activity>)
      requires Valid()
      modifies this
      ensures Valid()
      ensures created == NewRows(old(nextId), c, Filter(period, Between(startDate, endDate)))
      ensures rows == old(rows) + created && nextId == old(nextId) + |created|
    {
      var inRange: Day -> bool := Between(startDate, endDate);
      created := [];
      var i := 0;
      while i < |period|
        invariant 0 <= i <= |period| && Valid()
        invariant created == NewRows(old(nextId), c, Filter<Day>(period[..i], inRange))
        invariant rows == old(rows) + created && nextId == old(nextId) + |created|
      {
        var date := period[i];
        assert period[..i + 1] == period[..i] + [date];
        FilterConcat<Day>(period[..i], [date], inRange);
        if startDate <= date && date <= endDate {
          var a := CreateActivity(c, date);
          NewRowsSnoc(old(nextId), c, Filter(period[..i], inRange), date);
          created := created + [a];
        }
        i := i + 1;
      }
      assert period[..i] == period;
    }

    /** generateActivities: only the owner, only for an active challenge;
        then, as one transaction, delete the challenge's rows from today on
        and insert the rows of its whole schedule. `fault` is the exception
        the storage raises inside the transaction, if any; it rolls the
        table back. */
    method GenerateActivities(c: Challenge, caller: nat, today: Day, fault: Option<string>)
      returns (r: Response<seq<Activity>>)
      requires Valid()
      modifies this
      ensures Valid()
      ensures c.userId != caller ==>
        r == ErrorResponse(GetMessage("activity_unauthorized"), 403)
      ensures c.userId == caller && !c.isActive ==>
        r == ErrorResponse(GetMessage("activity_unprocessable"), 422)
      ensures c.userId == caller && c.isActive && fault.Some? ==>
        r == ErrorResponse(GetMessage("activity_create_error") + fault.value, 500)
      ensures !(c.userId == caller && c.isActive && fault.None?) ==>
        rows == old(rows) && nextId == old(nextId)
      ensures c.userId == caller && c.isActive && fault.None? ==>
        && r == SuccessResponse(NewRows(old(nextId), c, Dates(c)), GetMessage("activity_created"))
        && rows == Regenerated(old(rows), old(nextId), c, today)
        && nextId == old(nextId) + |Dates(c)|
    {
      if c.userId != caller {
        return ErrorResponse(GetMessage("activity_unauthorized"), 403);
      }
      if !c.isActive {
        return ErrorResponse(GetMessage("activity_unprocessable"), 422);
      }
      var savedRows, savedNextId := rows, nextId;
      FilterKeepsIds(rows, nextId, Kept(c.id, today));
      rows := AfterDelete(rows, c, today);
      var created := CreateActivitiesBasedOnFrequency(c);
      if fault.Some? {
        rows, nextId := savedRows, savedNextId;
        return ErrorResponse(GetMessage("activity_create_error") + fault.value, 500);
      }
      r := SuccessResponse(created, GetMessage("activity_created"));
    }

    /** updateStatus: only the owner of the row, and only to completed or
        missed; the row is the one the route names, so it exists. */
    method UpdateStatus(activityId: nat, caller: nat, status: Input) returns (r: Response<Activity>)
      requires Valid()
      requires exists i :: 0 <= i < |rows| && rows[i].id == activityId
      modifies this
      ensures Valid() && nextId == old(nextId) && |rows| == |old(rows)|
      ensures var k := IndexOfId(old(rows), activityId);
        && (old(rows)[k].userId != caller ==>
              r == ErrorResponse(GetMessage("activity_unauthorized"), 403) && rows == old(rows))
        && (old(rows)[k].userId == caller && ParseStatus(status).None? ==>
              r == ValidationErrorResponse({"status"}) && rows == old(rows))
        && (old(rows)[k].userId == caller && ParseStatus(status).Some? ==>
              && rows == old(rows)[k := old(rows)[k].(status := ParseStatus(status).value)]
              && r == SuccessResponse(rows[k], GetMessage("activity_updated")))
    {
      var k := IndexOfId(rows, activityId);
      if rows[k].userId != caller {
        return ErrorResponse(GetMessage("activity_unauthorized"), 403);
      }
      var parsed := ParseStatus(status);
      if parsed.None? {
        return ValidationErrorResponse({"status"});
      }
      rows := rows[k := rows[k].(status := parsed.value)];
      r := SuccessResponse(rows[k], GetMessage("activity_updated"));
    }
  }

  /** The position of the row with key `id`. */
  function IndexOfId(rows: seq<Activity>, id: nat): (k: nat)
    requires exists i :: 0 <= i < |rows| && rows[i].id == id
    ensures k < |rows| && rows[k].id == id
    ensures forall j :: 0 <= j < k ==> rows[j].id != id
  {
    if rows[0].id == id then 0 else IndexOfId(rows[1..], id) + 1
  }

  /** The rule `required|in:completed,missed` on the status field, and the
      status it sets. */
  function ParseStatus(v: Input): (r: Option<Status>)
    ensures r.Some? <==> v == Text("completed") || v == Text("missed")
    ensures r.Some? ==> r.value != Pending
    ensures v == Text("completed") ==> r == Some(Completed)
    ensures v == Text("missed") ==> r == Some(Missed)
  {
    match v
    case Text(s) =>
      if s == "completed" then Some(Completed)
      else if s == "missed" then Some(Missed)
      else None
    case _ => None
  }

  /** An accepted update changes the status of that one row and nothing
      else: no other row, and no other field of it. */
  lemma {:induction false} UpdateTouchesOneRow(rows: seq<Activity>, k: nat, s: Status)
    requires k < |rows|
    ensures var after := rows[k := rows[k].(status := s)];
      && |after| == |rows|
      && (forall j :: 0 <= j < |rows| && j != k ==> after[j] == rows[j])
      && after[k].id == rows[k].id && after[k].userId == rows[k].userId
      && after[k].challengeId == rows[k].challengeId && after[k].date == rows[k].date
      && after[k].status == s
  {
  }

  // ---------------------------------------------------------------------
  // Read-only reports
  // ---------------------------------------------------------------------

  predicate SortedByDate(s: seq<Activity>)
  {
    forall i, j :: 0 <= i < j < |s| ==> s[i].date <= s[j].date
  }

  /** `a` placed before the first row of `s` dated later. */
  function InsertByDate(a: Activity, s: seq<Activity>): (r: seq<Activity>)
    requires SortedByDate(s)
    ensures SortedByDate(r) && multiset(r) == multiset(s) + multiset{a}
  {
    if s == [] then [a]
    else if a.date <= s[0].date then [a] + s
    else
      var rest := InsertByDate(a, s[1..]);
      assert s == [s[0]] + s[1..];
      LaterThanFirst(s, a, rest);
      [s[0]] + rest
  }

  /** A rearrangement of a sorted tail plus one later row stays on or after
      the head's date. */
  lemma {:induction false} LaterThanFirst(s: seq<Activity>, a: Activity, rest: seq<Activity>)
    requires s != [] && SortedByDate(s) && s[0].date < a.date
    requires multiset(rest) == multiset(s[1..]) + multiset{a}
    ensures forall j :: 0 <= j < |rest| ==> s[0].date <= rest[j].date
  {
    forall j | 0 <= j < |rest| ensures s[0].date <= rest[j].date {
      assert rest[j] in multiset(rest);
      if rest[j] != a {
        assert rest[j] in multiset(s[1..]);
        var k :| 0 <= k < |s[1..]| && s[1..][k] == rest[j];
        assert s[0].date <= s[k + 1].date;
      }
    }
  }

  /** `orderBy('activity_date')`: the rows in date order. */
  function SortByDate(s: seq<Activity>): (r: seq<Activity>)
    ensures SortedByDate(r) && multiset(r) == multiset(s)
  {
    if s == [] then []
    else
      assert s == [s[0]] + s[1..];
      InsertByDate(s[0], SortByDate(s[1..]))
  }

  /** getActivities: the owner's view of one challenge's rows, in date order. */
  function GetActivities(rows: seq<Activity>, c: Challenge, caller: nat): (r: Response<seq<Activity>>)
    ensures c.userId != caller ==> r == ErrorResponse(GetMessage("activity_unauthorized"), 403)
    ensures c.userId == caller ==>
      && r.success && r.status == 200 && r.message == GetMessage("activity_retrieved")
      && r.data.Some? && SortedByDate(r.data.value)
      && multiset(r.data.value) == multiset(Filter(rows, (a: Activity) => a.challengeId == c.id))
  {
    if c.userId != caller then ErrorResponse(GetMessage("activity_unauthorized"), 403)
    else SuccessResponse(SortByDate(Filter(rows, (a: Activity) => a.challengeId == c.id)), GetMessage("activity_retrieved"))
  }

  /** The rows getActivities returns are exactly that challenge's rows. */
  lemma {:induction false} GetActivitiesMembers(rows: seq<Activity>, c: Challenge, a: Activity)
    ensures var r := GetActivities(rows, c, c.userId);
      a in r.data.value <==> a in rows && a.challengeId == c.id
  {
    var p := (x: Activity) => x.challengeId == c.id;
    var r := GetActivities(rows, c, c.userId);
    assert a in r.data.value <==> a in multiset(Filter(rows, p));
    if a in rows && a.challengeId == c.id {
      FilterComplete(rows, p, a);
    }
  }

  /** The four aggregates of the stats query. */
  datatype Tally = Tally(total: nat, completed: nat, missed: nat, pending: nat)

  function StatusIs(s: Status): Activity -> bool
  {
    (a: Activity) => a.status == s
  }

  /** COUNT(status) and the three SUM(CASE ...) aggregates over `rows`;
      every row has one of the three statuses, so they add up. */
  function TallyOf(rows: seq<Activity>): (t: Tally)
    ensures t.total == |rows|
    ensures t.completed + t.missed + t.pending == t.total
    ensures t.completed == Count(rows, StatusIs(Completed))
    ensures t.missed == Count(rows, StatusIs(Missed))
    ensures t.pending == Count(rows, StatusIs(Pending))
  {
    if rows == [] then Tally(0, 0, 0, 0)
    else
      var t := TallyOf(rows[1..]);
      match rows[0].status
      case Completed => t.(total := t.total + 1, completed := t.completed + 1)
      case Missed => t.(total := t.total + 1, missed := t.missed + 1)
      case Pending => t.(total := t.total + 1, pending := t.pending + 1)
  }

  /** completion_rate in hundredths of a percent: 0 for no rows, otherwise
      completed / total * 100 rounded to two places, halves rounded up. */
  function CompletionRate(completed: nat, total: nat): (r: nat)
    ensures total == 0 ==> r == 0
    ensures total > 0 ==> -(total as int) < 2 * r * total - 20000 * completed <= total
  {
    if total == 0 then 0 else (20000 * completed + total) / (2 * total)
  }

  /** The rate is a percentage: at most 100.00 when no more rows are
      completed than exist, and exactly 100.00 when all are. */
  lemma {:induction false} CompletionRateBounds(completed: nat, total: nat)
    requires completed <= total
    ensures CompletionRate(completed, total) <= 10000
    ensures total > 0 && completed == total ==> CompletionRate(completed, total) == 10000
  {
    if total > 0 {
      var r := CompletionRate(completed, total);
      if r >= 10001 {
        MulAtLeast(r, 10001, 2 * total);
      }
    }
  }

  lemma {:induction false} MulAtLeast(a: int, b: int, c: nat)
    requires a >= b
    ensures a * c >= b * c
  {
  }

  /** Two of five rows completed is 40.00 percent. */
  lemma {:induction false} CompletionRateExample()
    ensures CompletionRate(2, 5) == 4000
    ensures CompletionRate(1, 3) == 3333
    ensures CompletionRate(2, 3) == 6667
  {
  }

  /** The progress payload: no pending count. */
  datatype Progress = Progress(
    totalActivities: nat,
    completedActivities: nat,
    missedActivities: nat,
    completionRate: nat)

  /** getProgress: the owner's tally of one challenge's rows. */
  function GetProgress(rows: seq<Activity>, c: Challenge, caller: nat): (r: Response<Progress>)
    ensures c.userId != caller ==> r == ErrorResponse(GetMessage("activity_unauthorized"), 403)
    ensures c.userId == caller ==> r.data.Some?
    ensures c.userId == caller ==>
      var mine := Filter(rows, (a: Activity) => a.challengeId == c.id);
      var p := r.data.value;
      && r.success && r.status == 200 && r.message == GetMessage("activity_progress_retrived")
      && p.totalActivities == |mine|
      && p.completedActivities == Count(mine, StatusIs(Completed))
      && p.missedActivities == Count(mine, StatusIs(Missed))
      && p.completedActivities + p.missedActivities <= p.totalActivities
      && p.completionRate == CompletionRate(p.completedActivities, p.totalActivities)
      && p.completionRate <= 10000
  {
    if c.userId != caller then ErrorResponse(GetMessage("activity_unauthorized"), 403)
    else
      var t := TallyOf(Filter(rows, (a: Activity) => a.challengeId == c.id));
      CompletionRateBounds(t.completed, t.total);
      SuccessResponse(Progress(t.total, t.completed, t.missed, CompletionRate(t.completed, t.total)),
                      GetMessage("activity_progress_retrived"))
  }

  /** The first challenge with key `id`, as the `challenge` relation loads it. */
  function ChallengeById(challenges: seq<Challenge>, id: nat): (r: Option<Challenge>)
    ensures r.Some? ==> r.value in challenges && r.value.id == id
    ensures r.None? <==> forall j :: 0 <= j < |challenges| ==> challenges[j].id != id
  {
    if challenges == [] then None
    else if challenges[0].id == id then Some(challenges[0])
    else ChallengeById(challenges[1..], id)
  }

  /** `whereHas('challenge', is_active = true)`. */
  predicate ActiveChallenge(challenges: seq<Challenge>, id: nat)
  {
    ChallengeById(challenges, id).Some? && ChallengeById(challenges, id).value.isActive
  }

  /** The caller's pending rows dated today whose challenge is active. */
  function TodayPending(challenges: seq<Challenge>, caller: nat, today: Day): Activity -> bool
  {
    (a: Activity) => ActiveChallenge(challenges, a.challengeId)
      && a.userId == caller && a.date == today && a.status == Pending
  }

  /** One entry of the pending list. */
  datatype PendingEntry = PendingEntry(
    id: nat,
    challengeTitle: string,
    challengeDescription: string,
    activityDate: Day,
    status: Status)

  /** The pending summary payload. */
  datatype PendingSummary = PendingSummary(totalPending: nat, date: Day, activities: seq<PendingEntry>)

  /** An entry for a row whose challenge is loaded. */
  function EntryOf(challenges: seq<Challenge>, a: Activity): PendingEntry
    requires ChallengeById(challenges, a.challengeId).Some?
  {
    var ch := ChallengeById(challenges, a.challengeId).value;
    PendingEntry(a.id, ch.title, ch.description, a.date, a.status)
  }

  /** getListPendingActivities. */
  function GetListPendingActivities(rows: seq<Activity>, challenges: seq<Challenge>, caller: nat, today: Day)
    : (r: Response<PendingSummary>)
    ensures var list := Filter(rows, TodayPending(challenges, caller, today));
      && r.success && r.status == 200 && r.message == GetMessage("activity_pending_retrived")
      && r.data.Some? && r.data.value.date == today
      && |r.data.value.activities| == |list| == r.data.value.totalPending
      && forall i :: 0 <= i < |list| ==>
           && r.data.value.activities[i].id == list[i].id
           && r.data.value.activities[i].activityDate == today
           && r.data.value.activities[i].status == Pending
  {
    var list := Filter(rows, TodayPending(challenges, caller, today));
    assert forall i :: 0 <= i < |list| ==> list[i] in list;
    var entries := seq(|list|, i requires 0 <= i < |list| => EntryOf(challenges, list[i]));
    SuccessResponse(PendingSummary(|entries|, today, entries), GetMessage("activity_pending_retrived"))
  }

  /** The pending list holds exactly the rows it should. */
  lemma {:induction false} PendingListMembers(rows: seq<Activity>, challenges: seq<Challenge>, caller: nat, today: Day, a: Activity)
    ensures a in Filter(rows, TodayPending(challenges, caller, today)) <==>
      && a in rows && a.userId == caller && a.date == today && a.status == Pending
      && ActiveChallenge(challenges, a.challengeId)
  {
    if a in rows && TodayPending(challenges, caller, today)(a) {
      FilterComplete(rows, TodayPending(challenges, caller, today), a);
    }
  }

  /** The pending count payload. */
  datatype PendingCount = PendingCount(date: Day, pendingActivities: nat)

  /** The caller's pending rows dated today, active challenge or not. */
  function TodayPendingAny(caller: nat, today: Day): Activity -> bool
  {
    (a: Activity) => a.userId == caller && a.date == today && a.status == Pending
  }

  /** getActivitiesPendingCount: no active-challenge filter. */
  function GetActivitiesPendingCount(rows: seq<Activity>, caller: nat, today: Day): (r: Response<PendingCount>)
    ensures r.success && r.status == 200 && r.message == GetMessage("activity_statistics_retrieved")
    ensures r.data.Some? && r.data.value.date == today
    ensures r.data.value.pendingActivities == Count(rows, TodayPendingAny(caller, today))
  {
    SuccessResponse(PendingCount(today, Count(rows, TodayPendingAny(caller, today))),
                    GetMessage("activity_statistics_retrieved"))
  }

  /** The count endpoint counts at least the rows the list endpoint lists,
      and exactly as many when every challenge is active. */
  lemma {:induction false} PendingCountCoversList(rows: seq<Activity>, challenges: seq<Challenge>, caller: nat, today: Day)
    ensures GetListPendingActivities(rows, challenges, caller, today).data.value.totalPending
         <= GetActivitiesPendingCount(rows, caller, today).data.value.pendingActivities
    ensures (forall i :: 0 <= i < |rows| ==> ActiveChallenge(challenges, rows[i].challengeId)) ==>
      GetListPendingActivities(rows, challenges, caller, today).data.value.totalPending
        == GetActivitiesPendingCount(rows, caller, today).data.value.pendingActivities
  {
    FilterWeaker(rows, TodayPending(challenges, caller, today), TodayPendingAny(caller, today));
    if forall i :: 0 <= i < |rows| ==> ActiveChallenge(challenges, rows[i].challengeId) {
      FilterCongruent(rows, TodayPending(challenges, caller, today), TodayPendingAny(caller, today));
    }
  }

  /** The statistics payload: no missed count. */
  datatype Stats = Stats(
    date: Day,
    totalActiveChallenges: nat,
    totalActivities: nat,
    pendingActivities: nat,
    completedActivities: nat,
    completionRate: nat)

  /** The caller's rows whose challenge is active. */
  function MineActive(challenges: seq<Challenge>, caller: nat): Activity -> bool
  {
    (a: Activity) => ActiveChallenge(challenges, a.challengeId) && a.userId == caller
  }

  /** getActivityStats: the caller's active challenges, and the tally of
      their rows over every date. */
  function GetActivityStats(rows: seq<Activity>, challenges: seq<Challenge>, caller: nat, today: Day)
    : (r: Response<Stats>)
    ensures r.data.Some?
    ensures var mine := Filter(rows, MineActive(challenges, caller));
      var s := r.data.value;
      && r.success && r.status == 200 && r.message == GetMessage("activity_statistics_retrieved")
      && s.date == today
      && s.totalActiveChallenges == Count(challenges, (ch: Challenge) => ch.userId == caller && ch.isActive)
      && s.totalActivities == |mine|
      && s.pendingActivities == Count(mine, StatusIs(Pending))
      && s.completedActivities == Count(mine, StatusIs(Completed))
      && s.pendingActivities + s.completedActivities <= s.totalActivities
      && s.completionRate == CompletionRate(s.completedActivities, s.totalActivities)
      && s.completionRate <= 10000
  {
    var t := TallyOf(Filter(rows, MineActive(challenges, caller)));
    CompletionRateBounds(t.completed, t.total);
    var count := Count(challenges, (ch: Challenge) => ch.userId == caller && ch.isActive);
    SuccessResponse(Stats(today, count, t.total, t.pending, t.completed, CompletionRate(t.completed, t.total)),
                    GetMessage("activity_statistics_retrieved"))
  }
}
