/** The two form requests of the OTP login: who may send them and the rules
    their fields must pass. Laravel checks both before the controller runs
    and answers a failed check itself, so the controller methods take these
    predicates as preconditions. */
module AuthRequests {
  import opened Common
  import opened Records

  /** The body of a send-OTP request. */
  datatype SendOtpInput = SendOtpInput(mobile: Input, name: Input, email: Input)

  /** The body of a verify-OTP request. */
  datatype VerifyOtpInput = VerifyOtpInput(userId: Input, otp: Input)

  /** Laravel's `string` rule. */
  predicate IsString(v: Input) { v.Text? }

  /** Laravel's `min:n` and `max:n` on a string field: its length in
      characters. On a value that is not a string the `string` rule of the
      same field already fails, so the size rules are not consulted here. */
  predicate MinLength(v: Input, n: nat) { v.Text? ==> |v.s| >= n }
  predicate MaxLength(v: Input, n: nat) { v.Text? ==> |v.s| <= n }

  /** A request field read as a user id: a non-negative number, or a text
      of decimal digits. The database's looser reading of other texts as
      numbers is not modelled. */
  function AsId(v: Input): Option<nat>
  {
    match v
    case Number(n) => if n >= 0 then Some(n) else None
    case Text(s) =>
      if s != [] && forall i :: 0 <= i < |s| ==> IsDigit(s[i]) then Some(DecimalValue(s)) else None
    case Absent => None
  }

  /** Laravel's `exists:users,id`. */
  predicate ExistsUser(v: Input, users: seq<User>)
  {
    AsId(v).Some? && exists i :: 0 <= i < |users| && users[i].id == AsId(v).value
  }

  /** SendOtpRequest::authorize: anyone may ask for an OTP. */
  function SendOtpAuthorize(): (r: bool)
    ensures r
  {
    true
  }

  /** SendOtpRequest::rules: `mobile` is required|string|min:10|max:15; the
      `name` and `email` rules are commented out, so those fields are free. */
  function SendOtpRules(req: SendOtpInput): (r: bool)
    ensures r <==> req.mobile.Text? && !Blank(req.mobile.s) && 10 <= |req.mobile.s| <= 15
  {
    Required(req.mobile) && IsString(req.mobile) && MinLength(req.mobile, 10) && MaxLength(req.mobile, 15)
  }

  /** VerifyOtpRequest::authorize: anyone may try an OTP. The same as
      SendOtpAuthorize, as the two request classes are the same here. */
  function VerifyOtpAuthorize(): (r: bool)
    ensures r
  {
    true
  }

  /** VerifyOtpRequest::rules: `user_id` is required|exists:users,id and
      `otp` is required|string|min:6|max:6. */
  function VerifyOtpRules(req: VerifyOtpInput, users: seq<User>): (r: bool)
    ensures r <==> (exists i :: 0 <= i < |users| && AsId(req.userId) == Some(users[i].id))
                   && req.otp.Text? && !Blank(req.otp.s) && |req.otp.s| == 6
  {
    Required(req.userId) && ExistsUser(req.userId, users)
    && Required(req.otp) && IsString(req.otp) && MinLength(req.otp, 6) && MaxLength(req.otp, 6)
  }

  /** The name and e-mail of a send-OTP request never decide its validity. */
  lemma {:induction false} SendOtpIgnoresNameAndEmail(req: SendOtpInput, name: Input, email: Input)
    ensures SendOtpRules(req.(name := name, email := email)) == SendOtpRules(req)
  {
  }

  /** Ten spaces are not a mobile number: `required` trims them away. */
  lemma {:induction false} BlankMobileRejected(name: Input, email: Input)
    ensures !SendOtpRules(SendOtpInput(Text("          "), name, email))
  {
    assert IsTrimChar(" "[0]);
    assert Blank("          ");
  }

  /** A user id sent as decimal text is read as that id. */
  lemma {:induction false} DecimalUserIdAccepted(id: nat)
    ensures AsId(Text(DecimalText(id))) == Some(id)
  {
    DecimalRoundTrip(id);
  }
}
