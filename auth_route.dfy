/**
 * The credential and phone-verification routes as transitions on the `User`
 * and `Otp` collections: signup, login, add-phone and verify-phone. Time,
 * the OTP draw, the SMS outcome and the deployment mode are parameters;
 * tokens are left to the bearer gate.
 */
module AuthRoute {
  import opened Wrappers
  import opened Http
  import opened Bcrypt
  import opened OtpUtil
  import opened UserModel
  import opened OtpModel
  import Vonage

  type Otps = map<OtpKey, Otp>

  /** A handler's reply and both collections after it. */
  datatype AuthStep = AuthStep(reply: Reply, users: Users, otps: Otps)

  /** A body field is truthy: present and not the empty string. */
  predicate Given(v: Option<string>) {
    v.Some? && v.value != ""
  }

  // ---------------------------------------------------------------- signup

  datatype SignupBody = SignupBody(name: Option<string>, email: Option<string>, password: Option<string>)

  /** The document `User.create` receives: name, email and the password's digest, nothing else. */
  function SignupDoc(body: SignupBody): (doc: UserInput)
    requires Given(body.password)
    ensures doc.age.None? && doc.city.None? && doc.state.None? && doc.pincode.None?
    ensures doc.email == body.email && doc.password == Some(Hash(body.password.value))
  {
    UserInput(body.name, body.email, Some(Hash(body.password.value)), None, None, None, None, None, None)
  }

  /**
   * `signupHandler`: the presence and email-shape guards, then `User.create`;
   * any failure of the create (a validator, or the unique email) is reported
   * as "Email already exists". A created user takes the next position.
   */
  function SignupOutcome(users: Users, otps: Otps, body: SignupBody): AuthStep {
    if !Given(body.name) || !Given(body.email) || !Given(body.password) then
      AuthStep(Reply(400, "Name, email and password are required"), users, otps)
    else if !LooksLikeEmail(body.email.value) then
      AuthStep(Reply(400, "Invalid email format"), users, otps)
    else
      match BuildUser(SignupDoc(body))
      case Failure(_) => AuthStep(Reply(400, "Email already exists"), users, otps)
      case Success(u) =>
        if EmailTaken(users, u.email) then AuthStep(Reply(400, "Email already exists"), users, otps)
        else AuthStep(Reply(200, "Signed up"), users + [u], otps)
  }

  /**
   * No signup ever creates a user: the handler never supplies the required
   * age, city, state and pincode, so every request that passes the guards
   * ends with "Email already exists".
   */
  lemma SignupNeverCreates(users: Users, otps: Otps, body: SignupBody)
    ensures SignupOutcome(users, otps, body).users == users && SignupOutcome(users, otps, body).otps == otps
    ensures SignupOutcome(users, otps, body).reply.status == 400
    ensures Given(body.name) && Given(body.email) && Given(body.password) && LooksLikeEmail(body.email.value) ==>
      SignupOutcome(users, otps, body).reply == Reply(400, "Email already exists")
  {
    if Given(body.name) && Given(body.email) && Given(body.password) && LooksLikeEmail(body.email.value) {
      NoAgeNoUser(SignupDoc(body));
    }
  }

  // ---------------------------------------------------------------- login

  datatype LoginBody = LoginBody(identifier: Option<string>, credential: Option<string>)

  /** The login query: by email when the identifier looks like one, else by phone. */
  predicate Identifies(u: User, byEmail: bool, identifier: string) {
    if byEmail then u.email == identifier else u.phone == Some(identifier)
  }

  /** `User.findOne(query)` from position `i` on: the first user the query selects. */
  function FindFrom(users: Users, byEmail: bool, identifier: string, i: nat): (r: Option<UserId>)
    requires i <= |users|
    ensures r.Some? ==> i <= r.value < |users| && Identifies(users[r.value], byEmail, identifier)
    ensures r.Some? ==> forall j :: i <= j < r.value ==> !Identifies(users[j], byEmail, identifier)
    ensures r.None? ==> forall j :: i <= j < |users| ==> !Identifies(users[j], byEmail, identifier)
    decreases |users| - i
  {
    if i == |users| then None
    else if Identifies(users[i], byEmail, identifier) then Some(i)
    else FindFrom(users, byEmail, identifier, i + 1)
  }

  /** A login reply and, on success, the user it signs a token for. */
  datatype LoginResult = LoginResult(reply: Reply, user: Option<UserId>)

  function LoginOutcome(users: Users, body: LoginBody): LoginResult {
    if !Given(body.identifier) || !Given(body.credential) then
      LoginResult(Reply(400, "Identifier and credential are required"), None)
    else
      var useEmail := LooksLikeEmail(body.identifier.value);
      match FindFrom(users, useEmail, body.identifier.value, 0)
      case None => LoginResult(Reply(404, "User not found"), None)
      case Some(id) =>
        if !useEmail && !users[id].isPhoneVerified then LoginResult(Reply(400, "Phone number is not verified"), None)
        else if !Matches(body.credential.value, users[id].password) then LoginResult(Reply(400, "Wrong credentials"), None)
        else LoginResult(Reply(200, "Logged in"), Some(id))
  }

  /**
   * A login succeeds exactly for a user whom the chosen query selects and
   * whose stored digest matches the credential; a phone login also needs a
   * verified phone.
   */
  lemma LoginSucceedsIff(users: Users, body: LoginBody)
    ensures LoginOutcome(users, body).user.Some? <==> LoginOutcome(users, body).reply.status == 200
    ensures LoginOutcome(users, body).user.Some? ==>
      var id := LoginOutcome(users, body).user.value;
      && Given(body.identifier) && Given(body.credential)
      && id < |users|
      && Identifies(users[id], LooksLikeEmail(body.identifier.value), body.identifier.value)
      && Matches(body.credential.value, users[id].password)
      && (!LooksLikeEmail(body.identifier.value) ==> users[id].isPhoneVerified)
    ensures Given(body.identifier) && Given(body.credential) ==>
      var byEmail := LooksLikeEmail(body.identifier.value);
      var found := FindFrom(users, byEmail, body.identifier.value, 0);
      found.Some? && Matches(body.credential.value, users[found.value].password) &&
      (byEmail || users[found.value].isPhoneVerified) ==>
        LoginOutcome(users, body) == LoginResult(Reply(200, "Logged in"), found)
  {
  }

  /**
   * The verified-phone check comes before the password check: a phone login
   * whose user has not verified the phone is refused whatever the credential.
   */
  lemma UnverifiedPhoneRefusedFirst(users: Users, body: LoginBody, credential: string)
    requires Given(body.identifier) && Given(body.credential) && credential != ""
    requires !LooksLikeEmail(body.identifier.value)
    requires FindFrom(users, false, body.identifier.value, 0).Some?
    requires !users[FindFrom(users, false, body.identifier.value, 0).value].isPhoneVerified
    ensures LoginOutcome(users, body) == LoginResult(Reply(400, "Phone number is not verified"), None)
    ensures LoginOutcome(users, body.(credential := Some(credential))) == LoginOutcome(users, body)
  {
  }

  /** "User not found" exactly when the chosen query selects nobody. */
  lemma LoginNotFoundIff(users: Users, body: LoginBody)
    requires Given(body.identifier) && Given(body.credential)
    ensures LoginOutcome(users, body).reply.status == 404 <==>
      forall j :: 0 <= j < |users| ==> !Identifies(users[j], LooksLikeEmail(body.identifier.value), body.identifier.value)
  {
  }

  /** A user that signed up with a password logs in with it, by email. */
  lemma LoginWithOwnPassword(users: Users, id: UserId, password: string)
    requires UniqueEmails(users) && id < |users| && users[id].password == Hash(password)
    requires password != "" && users[id].email != "" && LooksLikeEmail(users[id].email)
    ensures LoginOutcome(users, LoginBody(Some(users[id].email), Some(password))) == LoginResult(Reply(200, "Logged in"), Some(id))
  {
    assert Identifies(users[id], true, users[id].email);
    MatchesOwnHash(password);
  }

  /** With the collection's invariant, the unverified-phone refusal never happens: every stored phone is verified. */
  lemma UnverifiedPhoneLoginUnreachable(users: Users, body: LoginBody)
    requires PhonesVerified(users)
    ensures LoginOutcome(users, body).reply != Reply(400, "Phone number is not verified")
  {
  }

  // ---------------------------------------------------------------- add-phone

  /** What the add-phone handler hands back besides the reply: the code, outside production only. */
  datatype AddPhoneResult = AddPhoneResult(step: AuthStep, otpShown: Option<string>)

  /**
   * `/add-phone` for the authenticated `userId`: the code is the OTP for
   * `draw`, `now` the clock in milliseconds, `smsSent` whether
   * `sendOtpViaVonage` resolved, `production` whether `NODE_ENV` is
   * "production". The pending record is written before the SMS is sent and
   * stays when the send fails.
   */
  function AddPhoneOutcome(users: Users, otps: Otps, userId: UserId, phoneNumber: Option<string>,
                           draw: nat, now: int, smsSent: bool, production: bool): AddPhoneResult
    requires OtpsValid(otps) && draw < 900000
  {
    if !Given(phoneNumber) then AddPhoneResult(AuthStep(Reply(400, "Phone number is required"), users, otps), None)
    else if userId >= |users| then AddPhoneResult(AuthStep(Reply(404, "User not found"), users, otps), None)
    else if users[userId].phone == phoneNumber && users[userId].isPhoneVerified then
      AddPhoneResult(AuthStep(Reply(200, "Phone already verified"), users, otps), None)
    else if PhoneHeldByOther(users, userId, phoneNumber.value) then
      AddPhoneResult(AuthStep(Reply(400, "Phone in use"), users, otps), None)
    else
      var otp := GenerateOtp(draw);
      var pending := UpsertOtp(otps, userId, phoneNumber.value, Hash(otp), now + OtpLifetimeMs);
      if !smsSent then AddPhoneResult(AuthStep(Reply(502, "Failed to send OTP via SMS"), users, pending), None)
      else AddPhoneResult(AuthStep(Reply(200, "OTP sent to phone"), users, pending), if production then None else Some(otp))
  }

  /**
   * Add-phone never touches the users; a refused request and "Phone already
   * verified" leave the pending codes alone; otherwise exactly the record for
   * (userId, phone) is replaced, with a fresh digest and an expiry five
   * minutes ahead, whether or not the SMS went out.
   */
  lemma AddPhoneWrites(users: Users, otps: Otps, userId: UserId, phoneNumber: Option<string>,
                       draw: nat, now: int, smsSent: bool, production: bool)
    requires OtpsValid(otps) && draw < 900000
    ensures var r := AddPhoneOutcome(users, otps, userId, phoneNumber, draw, now, smsSent, production);
      && r.step.users == users
      && OtpsValid(r.step.otps)
      && (r.step.reply.message in {"Phone number is required", "User not found", "Phone already verified", "Phone in use"} ==>
            r.step.otps == otps)
      && (r.step.reply.message in {"OTP sent to phone", "Failed to send OTP via SMS"} ==>
            && r.step.otps.Keys == otps.Keys + {(userId, phoneNumber.value)}
            && r.step.otps[(userId, phoneNumber.value)] ==
                 Otp(userId, phoneNumber.value, Hash(GenerateOtp(draw)), now + 300000)
            && forall k :: k in otps && k != (userId, phoneNumber.value) ==> r.step.otps[k] == otps[k])
  {
    LifetimeIsFiveMinutes();
  }

  /**
   * The pending record for (userId, phone) is written exactly when the phone
   * is given, the user exists, that phone is not already verified for them and
   * no other user holds it; the write is the upsert of the fresh digest with
   * an expiry five minutes ahead, and every other request keeps the codes.
   */
  lemma AddPhoneWritesIff(users: Users, otps: Otps, userId: UserId, phoneNumber: Option<string>,
                          draw: nat, now: int, smsSent: bool, production: bool)
    requires OtpsValid(otps) && draw < 900000
    ensures var r := AddPhoneOutcome(users, otps, userId, phoneNumber, draw, now, smsSent, production);
      var writes := Given(phoneNumber) && userId < |users|
        && !(users[userId].phone == phoneNumber && users[userId].isPhoneVerified)
        && !PhoneHeldByOther(users, userId, phoneNumber.value);
      && (writes <==> r.step.reply in {Reply(200, "OTP sent to phone"), Reply(502, "Failed to send OTP via SMS")})
      && (writes ==> r.step.otps == UpsertOtp(otps, userId, phoneNumber.value, Hash(GenerateOtp(draw)), now + 300000))
      && (!writes ==> r.step.otps == otps)
  {
    LifetimeIsFiveMinutes();
  }

  /** The code is shown only on a successful send outside production. */
  lemma OtpShownOnlyOutsideProduction(users: Users, otps: Otps, userId: UserId, phoneNumber: Option<string>,
                                      draw: nat, now: int, smsSent: bool, production: bool)
    requires OtpsValid(otps) && draw < 900000
    ensures var r := AddPhoneOutcome(users, otps, userId, phoneNumber, draw, now, smsSent, production);
      r.otpShown.Some? <==> r.step.reply == Reply(200, "OTP sent to phone") && !production
    ensures var r := AddPhoneOutcome(users, otps, userId, phoneNumber, draw, now, smsSent, production);
      r.otpShown.Some? ==> r.otpShown.value == GenerateOtp(draw)
  {
  }

  /**
   * Add-phone with the SMS wrapper deciding whether the send went out. The SMS
   * carries the code whose digest is stored, in the configured template (the
   * default one reads "Your verification code is " and the code). Without SMS
   * credentials the deployment mode decides the answer: outside production the
   * send is skipped and counts as sent, so the code reaches the caller only in
   * the reply; in production the send throws, the answer is 502 and the
   * pending record stays.
   */
  lemma AddPhoneWithSms(users: Users, otps: Otps, userId: UserId, phone: string, draw: nat, now: int,
                        env: Vonage.Env, post: Vonage.SmsRequest -> Vonage.SmsResponse)
    requires OtpsValid(otps) && draw < 900000 && phone != "" && userId < |users|
    requires !(users[userId].phone == Some(phone) && users[userId].isPhoneVerified)
    requires !PhoneHeldByOther(users, userId, phone)
    ensures var code := GenerateOtp(draw);
      var attempt := Vonage.SendOtp(env, phone, code, post);
      var r := AddPhoneOutcome(users, otps, userId, Some(phone), draw, now, attempt.result.Success?, env.production);
      && (userId, phone) in r.step.otps
      && Matches(code, r.step.otps[(userId, phone)].otpHash)
      && (attempt.request.Some? ==>
            && attempt.request.value.to == phone
            && attempt.request.value.text ==
                 Vonage.BuildOtpMessage(Vonage.SettingOr(env.template, Vonage.DefaultTemplate), code))
      && (attempt.request.Some? && !Vonage.Set(env.template) ==>
            attempt.request.value.text == "Your verification code is " + code)
      && (!Vonage.Set(env.apiKey) || !Vonage.Set(env.apiSecret) ==>
            && attempt.request.None?
            && (!env.production ==> r.step.reply == Reply(200, "OTP sent to phone") && r.otpShown == Some(code))
            && (env.production ==> r.step.reply == Reply(502, "Failed to send OTP via SMS") && r.otpShown.None?))
  {
    var code := GenerateOtp(draw);
    MatchesOwnHash(code);
    if Vonage.Set(env.apiKey) && Vonage.Set(env.apiSecret) {
      Vonage.CredentialsSend(env, phone, code, post);
      Vonage.DefaultTemplateMessage(code);
    } else {
      Vonage.MissingCredentialsRule(env, phone, code, post);
    }
  }

  // ---------------------------------------------------------------- verify-phone

  /**
   * `/verify-phone` for the authenticated `userId` at time `now`. A record
   * expires only strictly after its `expiresAt`. A user that no longer exists
   * ends in 500 after the record is deleted; a user update refused by the
   * phone index ends in 500 before it.
   */
  function VerifyPhoneOutcome(users: Users, otps: Otps, userId: UserId,
                              phoneNumber: Option<string>, otp: Option<string>, now: int): AuthStep
  {
    if !Given(phoneNumber) || !Given(otp) then AuthStep(Reply(400, "Phone number and OTP are required"), users, otps)
    else
      var key := (userId, phoneNumber.value);
      if key !in otps then AuthStep(Reply(400, "OTP not requested for this phone"), users, otps)
      else if Expired(otps[key], now) then AuthStep(Reply(400, "OTP expired"), users, otps)
      else if !Matches(otp.value, otps[key].otpHash) then AuthStep(Reply(400, "Invalid OTP"), users, otps)
      else if userId >= |users| then AuthStep(Reply(500, "Failed to verify phone"), users, otps - {key})
      else if PhoneHeldByOther(users, userId, phoneNumber.value) then AuthStep(Reply(500, "Failed to verify phone"), users, otps)
      else AuthStep(Reply(200, "Phone verified successfully"),
                    users[userId := WithVerifiedPhone(users[userId], phoneNumber.value)], otps - {key})
  }

  /**
   * Verification succeeds exactly for a pending, unexpired record whose
   * digest matches the code, when no other user holds the phone; it then
   * sets the phone, marks it verified and consumes the record.
   */
  lemma VerifySucceedsIff(users: Users, otps: Otps, userId: UserId, phone: string, otp: string, now: int)
    requires phone != "" && otp != ""
    ensures VerifyPhoneOutcome(users, otps, userId, Some(phone), Some(otp), now).reply.status == 200 <==>
      && (userId, phone) in otps
      && now <= otps[(userId, phone)].expiresAt
      && Matches(otp, otps[(userId, phone)].otpHash)
      && !PhoneHeldByOther(users, userId, phone)
      && userId < |users|
    ensures var r := VerifyPhoneOutcome(users, otps, userId, Some(phone), Some(otp), now);
      r.reply.status == 200 ==>
        && r.users[userId].phone == Some(phone) && r.users[userId].isPhoneVerified
        && r.otps == otps - {(userId, phone)}
        && |r.users| == |users|
        && forall j :: 0 <= j < |users| && j != userId ==> r.users[j] == users[j]
  {
  }

  /** Any refusal with 400 changes nothing. */
  lemma VerifyRefusalChangesNothing(users: Users, otps: Otps, userId: UserId,
                                    phoneNumber: Option<string>, otp: Option<string>, now: int)
    ensures VerifyPhoneOutcome(users, otps, userId, phoneNumber, otp, now).reply.status == 400 ==>
      VerifyPhoneOutcome(users, otps, userId, phoneNumber, otp, now) == AuthStep(VerifyPhoneOutcome(users, otps, userId, phoneNumber, otp, now).reply, users, otps)
  {
  }

  /** The expiry boundary: at exactly `expiresAt` the code is still accepted; one millisecond later it is not. */
  lemma ExpiryBoundary(o: Otp)
    ensures !Expired(o, o.expiresAt)
    ensures Expired(o, o.expiresAt + 1)
  {
  }

  /** A consumed record cannot be used twice: a repeat verification is "not requested". */
  lemma VerifyOnce(users: Users, otps: Otps, userId: UserId, phone: string, otp: string, now: int, later: int)
    requires phone != "" && otp != ""
    requires VerifyPhoneOutcome(users, otps, userId, Some(phone), Some(otp), now).reply.status == 200
    ensures var r := VerifyPhoneOutcome(users, otps, userId, Some(phone), Some(otp), now);
      VerifyPhoneOutcome(r.users, r.otps, userId, Some(phone), Some(otp), later).reply ==
        Reply(400, "OTP not requested for this phone")
  {
  }

  /**
   * The round trip: after a code is sent for a phone nobody else holds, that
   * code verifies the phone until the five minutes are over, and is refused
   * as expired afterwards; any other code is refused as invalid.
   */
  lemma AddThenVerify(users: Users, otps: Otps, userId: UserId, phone: string,
                      draw: nat, sentAt: int, production: bool, now: int, guess: string)
    requires OtpsValid(otps) && draw < 900000 && phone != "" && userId < |users|
    requires !(users[userId].phone == Some(phone) && users[userId].isPhoneVerified)
    requires !PhoneHeldByOther(users, userId, phone)
    ensures var sent := AddPhoneOutcome(users, otps, userId, Some(phone), draw, sentAt, true, production).step;
      var code := GenerateOtp(draw);
      && sent.reply == Reply(200, "OTP sent to phone")
      && (now <= sentAt + 300000 ==>
            VerifyPhoneOutcome(sent.users, sent.otps, userId, Some(phone), Some(code), now).reply ==
              Reply(200, "Phone verified successfully"))
      && (now > sentAt + 300000 ==>
            VerifyPhoneOutcome(sent.users, sent.otps, userId, Some(phone), Some(code), now).reply ==
              Reply(400, "OTP expired"))
      && (now <= sentAt + 300000 && guess != "" && guess != code ==>
            VerifyPhoneOutcome(sent.users, sent.otps, userId, Some(phone), Some(guess), now).reply ==
              Reply(400, "Invalid OTP"))
  {
    var code := GenerateOtp(draw);
    LifetimeIsFiveMinutes();
    MatchesOwnHash(code);
    if guess != code && Matches(guess, Hash(code)) {
      MatchesOnlyOwnHash(guess, code);
    }
  }

  // ---------------------------------------------------------------- the store

  class AuthStore {
    var users: Users
    var otps: Otps

    /** The schema and index constraints on both collections. */
    ghost predicate Valid()
      reads this
    {
      UsersValid(users) && OtpsValid(otps)
    }

    /**
     * The collections as the database holds them when the routes start; users
     * also arrive from outside these routes, so any valid state can be given.
     */
    constructor(users0: Users, otps0: Otps)
      requires UsersValid(users0) && OtpsValid(otps0)
      ensures Valid() && users == users0 && otps == otps0
    {
      users := users0;
      otps := otps0;
    }

    /** `signupHandler`. */
    method Signup(body: SignupBody) returns (reply: Reply)
      requires Valid()
      modifies this
      ensures Valid()
      ensures AuthStep(reply, users, otps) == SignupOutcome(old(users), old(otps), body)
    {
      if !Given(body.name) || !Given(body.email) || !Given(body.password) {
        return Reply(400, "Name, email and password are required");
      }
      if !LooksLikeEmail(body.email.value) {
        return Reply(400, "Invalid email format");
      }
      var created := BuildUser(SignupDoc(body));
      if created.Success? {
        // The create cannot succeed: the document has no age, city, state or pincode.
        assert false;
      }
      return Reply(400, "Email already exists");
    }

    /** `POST /login`: reads the users and changes nothing. */
    method Login(body: LoginBody) returns (r: LoginResult)
      ensures r == LoginOutcome(users, body)
    {
      if !Given(body.identifier) || !Given(body.credential) {
        return LoginResult(Reply(400, "Identifier and credential are required"), None);
      }
      var useEmail := LooksLikeEmail(body.identifier.value);
      var found := FindFrom(users, useEmail, body.identifier.value, 0);
      if found.None? {
        return LoginResult(Reply(404, "User not found"), None);
      }
      var user := users[found.value];
      if !useEmail && !user.isPhoneVerified {
        return LoginResult(Reply(400, "Phone number is not verified"), None);
      }
      if !Matches(body.credential.value, user.password) {
        return LoginResult(Reply(400, "Wrong credentials"), None);
      }
      return LoginResult(Reply(200, "Logged in"), found);
    }

    /** `POST /add-phone` for the authenticated `userId`. */
    method AddPhone(userId: UserId, phoneNumber: Option<string>, draw: nat, now: int, smsSent: bool, production: bool)
      returns (reply: Reply, otpShown: Option<string>)
      requires Valid() && draw < 900000
      modifies this
      ensures Valid()
      ensures AddPhoneResult(AuthStep(reply, users, otps), otpShown) ==
        AddPhoneOutcome(old(users), old(otps), userId, phoneNumber, draw, now, smsSent, production)
    {
      otpShown := None;
      if !Given(phoneNumber) {
        return Reply(400, "Phone number is required"), otpShown;
      }
      if userId >= |users| {
        return Reply(404, "User not found"), otpShown;
      }
      var user := users[userId];
      if user.phone == phoneNumber && user.isPhoneVerified {
        return Reply(200, "Phone already verified"), otpShown;
      }
      var phone := phoneNumber.value;
      if PhoneHeldByOther(users, userId, phone) {
        return Reply(400, "Phone in use"), otpShown;
      }
      var otp := GenerateOtp(draw);
      var otpHash := Hash(otp);
      var expiresAt := now + OtpExpirationMinutes * 60 * 1000;
      otps := UpsertOtp(otps, userId, phone, otpHash, expiresAt);
      if !smsSent {
        return Reply(502, "Failed to send OTP via SMS"), otpShown;
      }
      if !production {
        otpShown := Some(otp);
      }
      return Reply(200, "OTP sent to phone"), otpShown;
    }

    /** `POST /verify-phone` for the authenticated `userId`. */
    method VerifyPhone(userId: UserId, phoneNumber: Option<string>, otp: Option<string>, now: int) returns (reply: Reply)
      requires Valid()
      modifies this
      ensures Valid()
      ensures AuthStep(reply, users, otps) == VerifyPhoneOutcome(old(users), old(otps), userId, phoneNumber, otp, now)
    {
      if !Given(phoneNumber) || !Given(otp) {
        return Reply(400, "Phone number and OTP are required");
      }
      var phone := phoneNumber.value;
      var key := (userId, phone);
      if key !in otps {
        return Reply(400, "OTP not requested for this phone");
      }
      var record := otps[key];
      if record.expiresAt < now {
        return Reply(400, "OTP expired");
      }
      if !Matches(otp.value, record.otpHash) {
        return Reply(400, "Invalid OTP");
      }
      if userId >= |users| {
        otps := otps - {key};
        return Reply(500, "Failed to verify phone");
      }
      if PhoneHeldByOther(users, userId, phone) {
        return Reply(500, "Failed to verify phone");
      }
      SetVerifiedPhoneKeepsValid(users, userId, phone);
      users := users[userId := WithVerifiedPhone(users[userId], phone)];
      otps := otps - {key};
      return Reply(200, "Phone verified successfully");
    }
  }
}
