/** The rows of the five tables the core reads and writes. Field lists,
    casts and defaults follow the Eloquent models and the challenges
    migration; column names are given in the comments. */
module Records {
  import opened Common
  import opened Calendar

  /** A clock reading in seconds (Carbon::now()). */
  type Time = nat

  /** `challenge_activities.status`; rows are only ever written with these three. */
  datatype Status = Pending | Completed | Missed

  /** A row of `challenges`. `frequency` holds the column's text: the enum
      daily/weekly/monthly, kept as text because the scheduler switches on it. */
  datatype Challenge = Challenge(
    id: nat,
    userId: nat,           // user_id
    title: string,         // challenge_title
    description: string,   // challenge_description
    startDate: Day,        // start_date
    endDate: Day,          // end_date
    frequency: string,     // frequency
    isActive: bool)        // is_active, default true

  /** A row of `challenge_activities`. */
  datatype Activity = Activity(
    id: nat,
    userId: nat,           // user_id
    challengeId: nat,      // challenge_id
    date: Day,             // activity_date
    status: Status)

  /** A row of `users`, limited to the mass-assignable columns. */
  datatype User = User(
    id: nat,
    name: string,
    mobile: string,
    isActive: bool,
    mobileVerifiedAt: Option<Time>,
    lastLoginAt: Option<Time>)

  /** A row of `otp_trails`. */
  datatype OtpTrail = OtpTrail(
    id: nat,
    userId: nat,
    mobile: string,
    otp: string,
    expiresAt: Time,       // otp_expire_at
    isVerified: bool)

  /** A row of `user_profiles`. */
  datatype UserProfile = UserProfile(
    id: nat,
    userId: nat,
    profilePicture: string,
    bio: string,
    lastProfileUpdatedAt: Time)
}
