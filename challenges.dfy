/** ChallengeController: the `challenges` table, the validation and insert
    of a new challenge, the two listings, and the soft delete. */
module Challenges {
  import opened Common
  import opened Calendar
  import opened Records
  import opened ApiResponse

  /** FREQUENCY_TYPES, also the values of the `frequency` enum column. */
  const FrequencyTypes: seq<string> := ["daily", "weekly", "monthly"]

  /** A date field of the request as the `date` rule reads it: missing or
      empty, present but not a date, or a calendar day. A text the `date`
      rule refuses may still be one Carbon parses (`tomorrow`): `parsed` is
      the day Carbon reads from it, if any. */
  datatype DateInput = NoDate | NotADate(parsed: Option<Day>) | OnDay(day: Day)

  /** The body of a create-challenge request. */
  datatype ChallengeRequest = ChallengeRequest(
    title: Input,
    description: Input,
    startDate: DateInput,
    endDate: DateInput,
    frequency: Input)

  /** `required|string|max:255`. */
  predicate TitleOk(v: Input)
  {
    Required(v) && v.Text? && |v.s| <= 255
  }

  /** `required|string`. */
  predicate DescriptionOk(v: Input)
  {
    Required(v) && v.Text?
  }

  /** `required|date|after_or_equal:today`. */
  predicate StartOk(v: DateInput, today: Day)
  {
    v.OnDay? && v.day >= today
  }

  /** The day `after:start_date` compares with: the start_date field as
      Carbon parses it, whether or not the `date` rule accepted it. */
  function StartTimestampDay(start: DateInput): (r: Option<Day>)
    ensures start.OnDay? ==> r == Some(start.day)
    ensures start.NoDate? ==> r.None?
  {
    match start
    case NoDate => None
    case NotADate(parsed) => parsed
    case OnDay(d) => Some(d)
  }

  /** `required|date|after:start_date`. When start_date gives no timestamp
      the comparison is PHP's `$ts > null`, true for every timestamp but 0,
      the first day of the epoch (dates are read in UTC). */
  predicate EndOk(v: DateInput, start: DateInput)
  {
    v.OnDay? &&
    match StartTimestampDay(start)
    case Some(d) => v.day > d
    case None => v.day != 0
  }

  /** `required|string|in:daily,weekly,monthly`. */
  predicate FrequencyOk(v: Input)
  {
    Required(v) && v.Text? && v.s in FrequencyTypes
  }

  /** The keys of the error bag the validator reports: the fields whose
      rules fail. */
  function ChallengeErrors(req: ChallengeRequest, today: Day): (r: ErrorBag)
    ensures r <= {"title", "description", "start_date", "end_date", "frequency"}
    ensures "title" in r <==> !TitleOk(req.title)
    ensures "description" in r <==> !DescriptionOk(req.description)
    ensures "start_date" in r <==> !StartOk(req.startDate, today)
    ensures "end_date" in r <==> !EndOk(req.endDate, req.startDate)
    ensures "frequency" in r <==> !FrequencyOk(req.frequency)
  {
    (if TitleOk(req.title) then {} else {"title"})
    + (if DescriptionOk(req.description) then {} else {"description"})
    + (if StartOk(req.startDate, today) then {} else {"start_date"})
    + (if EndOk(req.endDate, req.startDate) then {} else {"end_date"})
    + (if FrequencyOk(req.frequency) then {} else {"frequency"})
  }

  /** A request passes exactly when a non-blank title of at most 255
      characters, a non-blank description, a start no earlier than today, an
      end strictly after the start and one of the three frequencies are all
      given. */
  lemma {:induction false} ChallengeAccepted(req: ChallengeRequest, today: Day)
    ensures ChallengeErrors(req, today) == {} <==>
      && req.title.Text? && !Blank(req.title.s) && |req.title.s| <= 255
      && req.description.Text? && !Blank(req.description.s)
      && req.startDate.OnDay? && req.startDate.day >= today
      && req.endDate.OnDay? && req.endDate.day > req.startDate.day
      && req.frequency.Text? && req.frequency.s in FrequencyTypes
  {
    var r := ChallengeErrors(req, today);
    if req.startDate.OnDay? {
      assert StartTimestampDay(req.startDate) == Some(req.startDate.day);
    }
    if req.frequency.Text? && req.frequency.s in FrequencyTypes {
      FrequencyNotBlank(req.frequency.s);
    }
    if r != {} {
      var f :| f in r;
    }
  }

  /** None of the three frequencies is blank, so `in` implies `required`. */
  lemma {:induction false} FrequencyNotBlank(s: string)
    requires s in FrequencyTypes
    ensures !Blank(s)
  {
    assert !IsTrimChar(s[0]);
  }

  /** A title and a description of one space each are both refused. */
  lemma {:induction false} BlankTitleRejected(req: ChallengeRequest, today: Day)
    requires req.title == Text(" ") && req.description == Text(" ")
    ensures "title" in ChallengeErrors(req, today)
    ensures "description" in ChallengeErrors(req, today)
  {
    assert Blank(" ") by { assert IsTrimChar(" "[0]); }
  }

  /** A missing start date is reported against start_date alone: the end
      date's `after:start_date` compares with nothing and passes. */
  lemma {:induction false} MissingStartBlamesStartOnly(req: ChallengeRequest, today: Day)
    requires req.startDate == NoDate && req.endDate.OnDay? && req.endDate.day > 0
    ensures "start_date" in ChallengeErrors(req, today)
    ensures "end_date" !in ChallengeErrors(req, today)
  {
  }

  /** A start date Carbon parses but the `date` rule refuses is still the
      bound the end date must pass. */
  lemma {:induction false} UnparsedStartStillBounds(req: ChallengeRequest, today: Day, d: Day)
    requires req.startDate == NotADate(Some(d)) && req.endDate == OnDay(d)
    ensures "start_date" in ChallengeErrors(req, today)
    ensures "end_date" in ChallengeErrors(req, today)
  {
  }

  /** A challenge that starts and ends on the same day is never accepted. */
  lemma {:induction false} SingleDayRejected(req: ChallengeRequest, today: Day)
    requires req.startDate.OnDay? && req.endDate == req.startDate
    ensures "end_date" in ChallengeErrors(req, today)
  {
  }

  /** The row created from an accepted request: the caller's, active, with
      the validated fields copied. */
  function NewChallenge(id: nat, caller: nat, req: ChallengeRequest): Challenge
    requires req.title.Text? && req.description.Text? && req.frequency.Text?
    requires req.startDate.OnDay? && req.endDate.OnDay?
  {
    Challenge(id, caller, req.title.s, req.description.s, req.startDate.day, req.endDate.day,
              req.frequency.s, true)
  }

  function ChallengeKey(c: Challenge): int { c.id }

  /** The caller's active challenges. */
  function OwnedActive(caller: nat): Challenge -> bool
  {
    (c: Challenge) => c.userId == caller && c.isActive
  }

  /** The caller's active challenges of one frequency. */
  function OwnedActiveOf(caller: nat, filter: string): Challenge -> bool
  {
    (c: Challenge) => c.userId == caller && c.frequency == filter && c.isActive
  }

  /** challengesList: the caller's active challenges, latest first. */
  function ChallengesList(rows: seq<Challenge>, caller: nat): (r: Response<seq<Challenge>>)
    ensures r.success && r.status == 200 && r.message == GetMessage("challenges_retrived")
    ensures r.data.Some?
    ensures forall x :: x in r.data.value ==> x in rows && x.userId == caller && x.isActive
  {
    var kept := Filter(rows, OwnedActive(caller));
    var listed := Reverse(kept);
    assert forall x :: x in listed ==> x in kept by {
      forall x | x in listed ensures x in kept {
        var i :| 0 <= i < |listed| && listed[i] == x;
        assert kept[|kept| - 1 - i] == x;
      }
    }
    SuccessResponse(listed, GetMessage("challenges_retrived"))
  }

  /** challengesListFilter: the caller's active challenges whose frequency
      is the route's filter. */
  function ChallengesListFilter(rows: seq<Challenge>, caller: nat, filter: string): (r: Response<seq<Challenge>>)
    ensures r.success && r.status == 200 && r.message == GetMessage("challenges_retrived")
    ensures r.data.Some?
    ensures forall x :: x in r.data.value ==> x in rows && x.userId == caller && x.isActive && x.frequency == filter
  {
    SuccessResponse(Filter(rows, OwnedActiveOf(caller, filter)), GetMessage("challenges_retrived"))
  }

  /** A challenge is listed exactly when it is one of the caller's active
      challenges. */
  lemma {:induction false} ChallengesListMembers(rows: seq<Challenge>, caller: nat, x: Challenge)
    ensures x in ChallengesList(rows, caller).data.value <==> x in rows && x.userId == caller && x.isActive
  {
    var kept := Filter(rows, OwnedActive(caller));
    var listed := Reverse(kept);
    if x in rows && x.userId == caller && x.isActive {
      FilterComplete(rows, OwnedActive(caller), x);
      var i :| 0 <= i < |kept| && kept[i] == x;
      assert listed[|kept| - 1 - i] == x;
    }
  }

  /** The listing shows the latest challenge first: keys decrease along it. */
  lemma {:induction false} ChallengesListNewestFirst(rows: seq<Challenge>, caller: nat)
    requires KeysIncreasing(rows, ChallengeKey)
    ensures var listed := ChallengesList(rows, caller).data.value;
      forall i, j :: 0 <= i < j < |listed| ==> listed[i].id > listed[j].id
  {
    FilterKeysIncreasing(rows, ChallengeKey, OwnedActive(caller));
  }

  /** A challenge is in the filtered listing exactly when it is one of the
      caller's active challenges of that frequency. */
  lemma {:induction false} ChallengesListFilterMembers(rows: seq<Challenge>, caller: nat, filter: string, x: Challenge)
    ensures x in ChallengesListFilter(rows, caller, filter).data.value <==>
      x in rows && x.userId == caller && x.isActive && x.frequency == filter
  {
    if x in rows && OwnedActiveOf(caller, filter)(x) {
      FilterComplete(rows, OwnedActiveOf(caller, filter), x);
    }
  }

  /** A filter that is not one of the three frequencies lists nothing. */
  lemma {:induction false} UnknownFilterEmpty(rows: seq<Challenge>, caller: nat, filter: string)
    requires forall i :: 0 <= i < |rows| ==> rows[i].frequency in FrequencyTypes
    requires filter !in FrequencyTypes
    ensures ChallengesListFilter(rows, caller, filter).data.value == []
  {
    FilterNone(rows, OwnedActiveOf(caller, filter));
  }

  /** The position of the caller's challenge with key `id`
      (`where('user_id', caller)->findOrFail(id)`), active or not. */
  function IndexOfOwned(rows: seq<Challenge>, id: nat, caller: nat): (r: Option<nat>)
    ensures r.Some? ==> r.value < |rows| && rows[r.value].id == id && rows[r.value].userId == caller
    ensures r.None? <==> forall i :: 0 <= i < |rows| ==> !(rows[i].id == id && rows[i].userId == caller)
  {
    if rows == [] then None
    else if rows[0].id == id && rows[0].userId == caller then Some(0)
    else
      var rest := IndexOfOwned(rows[1..], id, caller);
      if rest.Some? then Some(rest.value + 1) else None
  }

  /** The table with the challenge at `k` marked inactive. */
  function SoftDeleted(rows: seq<Challenge>, k: nat): (r: seq<Challenge>)
    requires k < |rows|
    ensures |r| == |rows| && r[k] == rows[k].(isActive := false)
    ensures forall j :: 0 <= j < |rows| && j != k ==> r[j] == rows[j]
  {
    rows[k := rows[k].(isActive := false)]
  }

  /** Deleting twice is deleting once. */
  lemma {:induction false} SoftDeleteIdempotent(rows: seq<Challenge>, k: nat)
    requires k < |rows|
    ensures SoftDeleted(SoftDeleted(rows, k), k) == SoftDeleted(rows, k)
  {
  }

  /** After the delete the challenge is no longer listed, and every other
      challenge is listed exactly as before. */
  lemma {:induction false} DeletedNotListed(rows: seq<Challenge>, k: nat, caller: nat, x: Challenge)
    requires k < |rows|
    requires KeysIncreasing(rows, ChallengeKey)
    ensures var after := SoftDeleted(rows, k);
      && (x.id == rows[k].id ==> x !in ChallengesList(after, caller).data.value)
      && (x.id != rows[k].id ==>
            (x in ChallengesList(after, caller).data.value <==> x in ChallengesList(rows, caller).data.value))
  {
    var after := SoftDeleted(rows, k);
    ChallengesListMembers(after, caller, x);
    ChallengesListMembers(rows, caller, x);
    if x.id == rows[k].id && x in after {
      var j :| 0 <= j < |after| && after[j] == x;
      if j != k {
        assert false;
      }
    }
    if x.id != rows[k].id {
      if x in rows {
        var j :| 0 <= j < |rows| && rows[j] == x;
        assert after[j] == x;
      }
      if x in after {
        var j :| 0 <= j < |after| && after[j] == x;
        assert j != k && rows[j] == x;
      }
    }
  }

  /** `challenges`, with its auto-increment counter. */
  class ChallengeTable {
    var rows: seq<Challenge>
    var nextId: nat

    /** Keys increase and stay below the counter, and every frequency is one
        the enum column admits. */
    ghost predicate Valid()
      reads this
    {
      && KeysIncreasing(rows, ChallengeKey)
      && (forall i :: 0 <= i < |rows| ==> rows[i].id < nextId)
      && (forall i :: 0 <= i < |rows| ==> rows[i].frequency in FrequencyTypes)
    }

    constructor ()
      ensures Valid() && rows == [] && nextId == 1
    {
      rows := [];
      nextId := 1;
    }

    /** challangeAdd: 422 with the error bag, or 201 with the new row. */
    method ChallangeAdd(req: ChallengeRequest, caller: nat, today: Day) returns (r: Response<Challenge>)
      requires Valid()
      modifies this
      ensures Valid()
      ensures ChallengeErrors(req, today) != {} ==>
        && r == ValidationErrorResponse(ChallengeErrors(req, today))
        && rows == old(rows) && nextId == old(nextId)
      ensures ChallengeErrors(req, today) == {} ==>
        && req.title.Text? && req.description.Text? && req.frequency.Text?
        && req.startDate.OnDay? && req.endDate.OnDay?
        && r == SuccessResponse(NewChallenge(old(nextId), caller, req), GetMessage("challenges_create_success"), 201)
        && rows == old(rows) + [NewChallenge(old(nextId), caller, req)]
        && nextId == old(nextId) + 1
    {
      var errors := ChallengeErrors(req, today);
      if errors != {} {
        return ValidationErrorResponse(errors);
      }
      var c := NewChallenge(nextId, caller, req);
      rows := rows + [c];
      nextId := nextId + 1;
      r := SuccessResponse(c, GetMessage("challenges_create_success"), 201);
    }

    /** challengeDelete: 404 unless the caller owns a challenge with key
        `id`; otherwise only its is_active becomes false. Nothing but this
        table may change, so the activity table is untouched. */
    method ChallengeDelete(id: nat, caller: nat) returns (r: Response<()>)
      requires Valid()
      modifies this
      ensures Valid() && nextId == old(nextId)
      ensures IndexOfOwned(old(rows), id, caller).None? ==>
        r == ErrorResponse(GetMessage("challenges_not_found"), 404) && rows == old(rows)
      ensures IndexOfOwned(old(rows), id, caller).Some? ==>
        && r == SuccessResponse((), GetMessage("challenges_deleted"))
        && rows == SoftDeleted(old(rows), IndexOfOwned(old(rows), id, caller).value)
    {
      var k := IndexOfOwned(rows, id, caller);
      if k.None? {
        return ErrorResponse(GetMessage("challenges_not_found"), 404);
      }
      rows := SoftDeleted(rows, k.value);
      r := SuccessResponse((), GetMessage("challenges_deleted"));
    }
  }
}
