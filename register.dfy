/** RegisterController: the OTP login. sendOtp finds or creates the user of a
    mobile number and records an OTP for it; verifyOtp consumes the latest
    matching OTP, stamps the user and gives the user a profile. The clock is
    a parameter; the access token verifyOtp also issues is not modelled. */
module Register {
  import opened Common
  import opened Records
  import opened ApiResponse
  import opened AuthRequests

  /** The fixed OTP every trail gets while no SMS gateway is wired in. */
  const DefaultOtp := "123456"

  /** How long an OTP stays valid, in seconds (ten minutes). */
  const OtpLifetime := 600

  /** The bio of a profile created at first login. */
  const DefaultBio := "Achive The Goal"

  /** The payload of sendOtp. */
  datatype OtpSent = OtpSent(userId: nat, otp: string, expiresAt: Time)

  /** The profile part of the verifyOtp payload. */
  datatype ProfileView = ProfileView(profilePicture: string, bio: string, lastProfileUpdatedAt: Time)

  /** The payload of verifyOtp, without the token. */
  datatype Login = Login(user: User, profile: ProfileView)

  /** PHP's string conversion of an integer. */
  function IntText(n: int): (r: string)
    ensures r != ""
  {
    if n >= 0 then DecimalText(n) else "-" + DecimalText(-n)
  }

  /** The name a new user gets: the request's name unless it is empty, and
      the mobile number otherwise. */
  function NameFor(req: SendOtpInput): (r: string)
    requires SendOtpRules(req)
    ensures PhpEmpty(req.name) ==> r == req.mobile.s
    ensures req.name.Text? && !PhpEmpty(req.name) ==> r == req.name.s
  {
    if PhpEmpty(req.name) then req.mobile.s
    else match req.name
      case Text(s) => s
      case Number(n) => IntText(n)
  }

  /** The user firstOrCreate inserts for a new mobile number. The e-mail
      attribute is not mass assignable on User, so it is not stored. */
  function NewUser(id: nat, req: SendOtpInput): User
    requires SendOtpRules(req)
  {
    User(id, NameFor(req), req.mobile.s, true, None, None)
  }

  /** The first user with mobile `m`, if any. */
  function UserByMobile(users: seq<User>, m: string): (r: Option<nat>)
    ensures r.Some? ==> r.value < |users| && users[r.value].mobile == m
    ensures r.None? <==> forall i :: 0 <= i < |users| ==> users[i].mobile != m
  {
    if users == [] then None
    else if users[0].mobile == m then Some(0)
    else
      var rest := UserByMobile(users[1..], m);
      if rest.Some? then Some(rest.value + 1) else None
  }

  /** The position of the user with key `id` (findOrFail). */
  function IndexOfUser(users: seq<User>, id: nat): (k: nat)
    requires exists i :: 0 <= i < |users| && users[i].id == id
    ensures k < |users| && users[k].id == id
  {
    if users[0].id == id then 0 else IndexOfUser(users[1..], id) + 1
  }

  /** The profile of user `uid`, if any (the lookup of firstOrCreate). */
  function ProfileOf(profiles: seq<UserProfile>, uid: nat): (r: Option<nat>)
    ensures r.Some? ==> r.value < |profiles| && profiles[r.value].userId == uid
    ensures r.None? <==> forall i :: 0 <= i < |profiles| ==> profiles[i].userId != uid
  {
    if profiles == [] then None
    else if profiles[0].userId == uid then Some(0)
    else
      var rest := ProfileOf(profiles[1..], uid);
      if rest.Some? then Some(rest.value + 1) else None
  }

  /** The trail query's where clauses: the user's id and mobile, the given
      OTP, not yet verified, and expiring strictly after now. */
  predicate Usable(t: OtpTrail, u: User, otp: string, now: Time)
  {
    t.userId == u.id && t.mobile == u.mobile && t.otp == otp && !t.isVerified && t.expiresAt > now
  }

  /** `latest()->first()`: the most recently created usable trail. */
  function LatestMatch(trails: seq<OtpTrail>, u: User, otp: string, now: Time): (r: Option<nat>)
    ensures r.Some? ==> r.value < |trails| && Usable(trails[r.value], u, otp, now)
    ensures r.Some? ==> forall j :: r.value < j < |trails| ==> !Usable(trails[j], u, otp, now)
    ensures r.None? <==> forall j :: 0 <= j < |trails| ==> !Usable(trails[j], u, otp, now)
  {
    if trails == [] then None
    else if Usable(trails[|trails| - 1], u, otp, now) then Some(|trails| - 1)
    else LatestMatch(trails[..|trails| - 1], u, otp, now)
  }

  /** The trail a successful sendOtp records. */
  function SentTrail(id: nat, uid: nat, mobile: string, now: Time): OtpTrail
  {
    OtpTrail(id, uid, mobile, DefaultOtp, now + OtpLifetime, false)
  }

  /** The trails with the one at `k` marked verified. */
  function Verified(trails: seq<OtpTrail>, k: nat): (r: seq<OtpTrail>)
    requires k < |trails|
    ensures |r| == |trails| && r[k] == trails[k].(isVerified := true)
    ensures forall j :: 0 <= j < |trails| && j != k ==> r[j] == trails[j]
  {
    trails[k := trails[k].(isVerified := true)]
  }

  /** The user after a successful login: both timestamps are now. */
  function Stamped(u: User, now: Time): User
  {
    u.(mobileVerifiedAt := Some(now), lastLoginAt := Some(now))
  }

  /** The profile firstOrCreate inserts at first login. */
  function NewProfile(id: nat, uid: nat, picture: string, now: Time): UserProfile
  {
    UserProfile(id, uid, picture, DefaultBio, now)
  }

  /** The OTP just sent is the one a verification picks, at any time
      before it expires. */
  lemma {:induction false} SentOtpVerifies(trails: seq<OtpTrail>, id: nat, u: User, sentAt: Time, now: Time)
    requires sentAt <= now < sentAt + OtpLifetime
    ensures var after := trails + [SentTrail(id, u.id, u.mobile, sentAt)];
      LatestMatch(after, u, DefaultOtp, now) == Some(|trails|)
  {
  }

  /** At the expiry instant the trail no longer counts: the comparison is
      strict. */
  lemma {:induction false} ExpiredAtDeadline(id: nat, u: User, sentAt: Time, otp: string)
    ensures !Usable(SentTrail(id, u.id, u.mobile, sentAt), u, otp, sentAt + OtpLifetime)
  {
  }

  /** Consuming one trail leaves every other usable trail usable, so an
      older OTP of the same user still verifies afterwards; the consumed
      one never matches again. */
  lemma {:induction false} OtherTrailsStayUsable(trails: seq<OtpTrail>, k: nat, j: nat, u: User, otp: string, now: Time)
    requires k < |trails| && j < |trails| && j != k
    requires Usable(trails[j], u, otp, now)
    ensures Usable(Verified(trails, k)[j], u, otp, now)
    ensures LatestMatch(Verified(trails, k), u, otp, now).Some?
    ensures !Usable(Verified(trails, k)[k], u, otp, now)
  {
  }

  /** A mobile number belongs to at most one user. */
  predicate MobilesUnique(users: seq<User>)
  {
    forall i, j :: 0 <= i < |users| && 0 <= j < |users| && users[i].mobile == users[j].mobile ==> i == j
  }

  /** A user has at most one profile. */
  predicate OneProfileEach(profiles: seq<UserProfile>)
  {
    forall i, j :: 0 <= i < |profiles| && 0 <= j < |profiles| && profiles[i].userId == profiles[j].userId ==> i == j
  }

  function UserKey(u: User): int { u.id }
  function TrailKey(t: OtpTrail): int { t.id }
  function ProfileKey(p: UserProfile): int { p.id }

  /** Stamping a user keeps its key and mobile. */
  lemma {:induction false} StampKeepsUsers(users: seq<User>, ui: nat, now: Time, nextId: nat)
    requires ui < |users|
    requires KeysIncreasing(users, UserKey) && MobilesUnique(users)
    requires forall i :: 0 <= i < |users| ==> users[i].id < nextId
    ensures var after := users[ui := Stamped(users[ui], now)];
      && KeysIncreasing(after, UserKey) && MobilesUnique(after)
      && (forall i :: 0 <= i < |after| ==> after[i].id < nextId)
  {
    var after := users[ui := Stamped(users[ui], now)];
    assert forall i :: 0 <= i < |after| ==> after[i].id == users[i].id && after[i].mobile == users[i].mobile;
  }

  /** Marking a trail verified keeps its key. */
  lemma {:induction false} VerifyKeepsTrails(trails: seq<OtpTrail>, k: nat, nextId: nat)
    requires k < |trails|
    requires KeysIncreasing(trails, TrailKey)
    requires forall i :: 0 <= i < |trails| ==> trails[i].id < nextId
    ensures var after := Verified(trails, k);
      KeysIncreasing(after, TrailKey) && (forall i :: 0 <= i < |after| ==> after[i].id < nextId)
  {
    var after := Verified(trails, k);
    assert forall i :: 0 <= i < |after| ==> after[i].id == trails[i].id;
  }

  /** Adding a profile for a user without one keeps one profile per user. */
  lemma {:induction false} AddProfileKeepsProfiles(profiles: seq<UserProfile>, p: UserProfile, nextId: nat)
    requires p.id == nextId
    requires KeysIncreasing(profiles, ProfileKey) && OneProfileEach(profiles)
    requires forall i :: 0 <= i < |profiles| ==> profiles[i].id < nextId
    requires forall i :: 0 <= i < |profiles| ==> profiles[i].userId != p.userId
    ensures var after := profiles + [p];
      && KeysIncreasing(after, ProfileKey) && OneProfileEach(after)
      && (forall i :: 0 <= i < |after| ==> after[i].id < nextId + 1)
  {
  }

  /** Adding a user for a mobile number nobody has keeps mobiles unique. */
  lemma {:induction false} AddUserKeepsUsers(users: seq<User>, u: User, nextId: nat)
    requires u.id == nextId
    requires KeysIncreasing(users, UserKey) && MobilesUnique(users)
    requires forall i :: 0 <= i < |users| ==> users[i].id < nextId
    requires UserByMobile(users, u.mobile).None?
    ensures var after := users + [u];
      && KeysIncreasing(after, UserKey) && MobilesUnique(after)
      && (forall i :: 0 <= i < |after| ==> after[i].id < nextId + 1)
  {
  }

  /** Appending a trail with the next key keeps the keys increasing. */
  lemma {:induction false} AddTrailKeepsTrails(trails: seq<OtpTrail>, t: OtpTrail, nextId: nat)
    requires t.id == nextId
    requires KeysIncreasing(trails, TrailKey)
    requires forall i :: 0 <= i < |trails| ==> trails[i].id < nextId
    ensures var after := trails + [t];
      KeysIncreasing(after, TrailKey) && (forall i :: 0 <= i < |after| ==> after[i].id < nextId + 1)
  {
  }

  /** `users`, `otp_trails` and `user_profiles`, with their counters. */
  class AuthStore {
    var users: seq<User>
    var trails: seq<OtpTrail>
    var profiles: seq<UserProfile>
    var nextUserId: nat
    var nextTrailId: nat
    var nextProfileId: nat

    ghost predicate Valid()
      reads this
    {
      && KeysIncreasing(users, UserKey) && (forall i :: 0 <= i < |users| ==> users[i].id < nextUserId)
      && KeysIncreasing(trails, TrailKey) && (forall i :: 0 <= i < |trails| ==> trails[i].id < nextTrailId)
      && KeysIncreasing(profiles, ProfileKey) && (forall i :: 0 <= i < |profiles| ==> profiles[i].id < nextProfileId)
      && MobilesUnique(users)
      && OneProfileEach(profiles)
    }

    constructor ()
      ensures Valid() && users == [] && trails == [] && profiles == []
      ensures nextUserId == 1 && nextTrailId == 1 && nextProfileId == 1
    {
      users, trails, profiles := [], [], [];
      nextUserId, nextTrailId, nextProfileId := 1, 1, 1;
    }

    /** `User::firstOrCreate` on the mobile number: the id of the user who
        has it, or of a new user created for it. */
    method UserFirstOrCreate(req: SendOtpInput) returns (uid: nat)
      requires Valid() && SendOtpRules(req)
      modifies this
      ensures Valid()
      ensures trails == old(trails) && profiles == old(profiles)
      ensures nextTrailId == old(nextTrailId) && nextProfileId == old(nextProfileId)
      ensures var found := UserByMobile(old(users), req.mobile.s);
        && (found.Some? ==> uid == old(users)[found.value].id && users == old(users) && nextUserId == old(nextUserId))
        && (found.None? ==> uid == old(nextUserId) && users == old(users) + [NewUser(old(nextUserId), req)]
                            && nextUserId == old(nextUserId) + 1)
    {
      var found := UserByMobile(users, req.mobile.s);
      if found.Some? {
        uid := users[found.value].id;
      } else {
        var u := NewUser(nextUserId, req);
        AddUserKeepsUsers(users, u, nextUserId);
        uid := u.id;
        users := users + [u];
        nextUserId := nextUserId + 1;
      }
    }

    /** Records a fresh OTP trail for user uid and mobile m. */
    method RecordOtp(uid: nat, m: string, now: Time)
      requires Valid()
      modifies this
      ensures Valid()
      ensures trails == old(trails) + [SentTrail(old(nextTrailId), uid, m, now)]
      ensures nextTrailId == old(nextTrailId) + 1
      ensures users == old(users) && profiles == old(profiles)
      ensures nextUserId == old(nextUserId) && nextProfileId == old(nextProfileId)
    {
      AddTrailKeepsTrails(trails, SentTrail(nextTrailId, uid, m, now), nextTrailId);
      trails := trails + [SentTrail(nextTrailId, uid, m, now)];
      nextTrailId := nextTrailId + 1;
    }

    /** sendOtp: find the user of the mobile number or create one, then
        record a fresh OTP for it that expires ten minutes from now. */
    method SendOtp(req: SendOtpInput, now: Time) returns (r: Response<OtpSent>)
      requires Valid() && SendOtpRules(req)
      modifies this
      ensures Valid()
      ensures profiles == old(profiles) && nextProfileId == old(nextProfileId)
      ensures var m := req.mobile.s;
        var found := UserByMobile(old(users), m);
        var uid := if found.Some? then old(users)[found.value].id else old(nextUserId);
        && (found.Some? ==> users == old(users) && nextUserId == old(nextUserId))
        && (found.None? ==> users == old(users) + [NewUser(old(nextUserId), req)] && nextUserId == old(nextUserId) + 1)
        && trails == old(trails) + [SentTrail(old(nextTrailId), uid, m, now)]
        && nextTrailId == old(nextTrailId) + 1
        && r == SuccessResponse(OtpSent(uid, DefaultOtp, now + OtpLifetime), GetMessage("otp_sent"))
    {
      var uid := UserFirstOrCreate(req);
      RecordOtp(uid, req.mobile.s, now);
      r := SuccessResponse(OtpSent(uid, DefaultOtp, now + OtpLifetime), GetMessage("otp_sent"));
    }

    /** The trail and user updates of a successful verification: trail k is
        marked verified and user ui gets both timestamps. */
    method ConsumeOtp(ui: nat, k: nat, now: Time)
      requires Valid() && ui < |users| && k < |trails|
      modifies this
      ensures Valid()
      ensures trails == Verified(old(trails), k)
      ensures users == old(users)[ui := Stamped(old(users)[ui], now)]
      ensures profiles == old(profiles)
      ensures nextUserId == old(nextUserId) && nextTrailId == old(nextTrailId) && nextProfileId == old(nextProfileId)
    {
      VerifyKeepsTrails(trails, k, nextTrailId);
      StampKeepsUsers(users, ui, now, nextUserId);
      trails := Verified(trails, k);
      users := users[ui := Stamped(users[ui], now)];
    }

    /** `UserProfile::firstOrCreate` for user uid: the existing profile, or
        a new one with the default bio, the given picture and now. */
    method ProfileFirstOrCreate(uid: nat, picture: string, now: Time) returns (prof: UserProfile)
      requires Valid()
      modifies this
      ensures Valid()
      ensures users == old(users) && trails == old(trails)
      ensures nextUserId == old(nextUserId) && nextTrailId == old(nextTrailId)
      ensures var p := ProfileOf(old(profiles), uid);
        && (p.Some? ==> prof == old(profiles)[p.value] && profiles == old(profiles) && nextProfileId == old(nextProfileId))
        && (p.None? ==> prof == NewProfile(old(nextProfileId), uid, picture, now)
                        && profiles == old(profiles) + [prof] && nextProfileId == old(nextProfileId) + 1)
    {
      var p := ProfileOf(profiles, uid);
      if p.Some? {
        prof := profiles[p.value];
      } else {
        prof := NewProfile(nextProfileId, uid, picture, now);
        AddProfileKeepsProfiles(profiles, prof, nextProfileId);
        profiles := profiles + [prof];
        nextProfileId := nextProfileId + 1;
      }
    }

    /** verifyOtp: 422 and no change unless a usable trail exists; otherwise
        mark the latest one verified, stamp the user, and create the user's
        profile if there is none. `picture` is the default image URL the
        environment supplies. */
    method VerifyOtp(req: VerifyOtpInput, now: Time, picture: string) returns (r: Response<Login>)
      requires Valid() && VerifyOtpRules(req, users)
      modifies this
      ensures Valid()
      ensures nextUserId == old(nextUserId) && nextTrailId == old(nextTrailId)
      ensures var ui := IndexOfUser(old(users), AsId(req.userId).value);
        var u := old(users)[ui];
        var t := LatestMatch(old(trails), u, req.otp.s, now);
        && (t.None? ==>
              && r == ErrorResponse(GetMessage("invalid_expired_otp"), 422)
              && users == old(users) && trails == old(trails) && profiles == old(profiles)
              && nextProfileId == old(nextProfileId))
        && (t.Some? ==>
              && trails == Verified(old(trails), t.value)
              && users == old(users)[ui := Stamped(u, now)]
              && var p := ProfileOf(old(profiles), u.id);
                 && (p.Some? ==> profiles == old(profiles) && nextProfileId == old(nextProfileId))
                 && (p.None? ==> profiles == old(profiles) + [NewProfile(old(nextProfileId), u.id, picture, now)]
                                 && nextProfileId == old(nextProfileId) + 1)
                 && var prof := if p.Some? then old(profiles)[p.value]
                                else NewProfile(old(nextProfileId), u.id, picture, now);
                    r == SuccessResponse(Login(Stamped(u, now),
                                               ProfileView(prof.profilePicture, prof.bio, prof.lastProfileUpdatedAt)),
                                         GetMessage("logged_in_success")))
    {
      var ui := IndexOfUser(users, AsId(req.userId).value);
      var u := users[ui];
      var t := LatestMatch(trails, u, req.otp.s, now);
      if t.None? {
        return ErrorResponse(GetMessage("invalid_expired_otp"), 422);
      }
      ConsumeOtp(ui, t.value, now);
      var prof := ProfileFirstOrCreate(u.id, picture, now);
      r := SuccessResponse(Login(Stamped(u, now), ProfileView(prof.profilePicture, prof.bio, prof.lastProfileUpdatedAt)),
                           GetMessage("logged_in_success"));
    }
  }
}
