/**
 * The `User` collection: the stored document, the document handed to
 * `User.create`, the schema's casting, defaults and validators, and the
 * collection-wide constraints (unique email, sparse unique phone).
 */
module UserModel {
  import opened Wrappers
  import opened JsString
  import opened Bcrypt
  import OtpUtil

  type UserId = nat

  /** A stored user. `name` is an optional untyped-in-schema string. */
  datatype User = User(
    name: Option<string>,
    email: string,
    password: Digest,
    age: real,
    city: string,
    state: string,
    pincode: string,
    phone: Option<string>,
    isPhoneVerified: bool)

  /** The plain object passed to `User.create`; every path may be absent. */
  datatype UserInput = UserInput(
    name: Option<string>,
    email: Option<string>,
    password: Option<Digest>,
    age: Option<real>,
    city: Option<string>,
    state: Option<string>,
    pincode: Option<string>,
    phone: Option<string>,
    isPhoneVerified: Option<bool>)

  /** A required string path: present and not empty. */
  predicate Present(v: Option<string>) {
    v.Some? && v.value != ""
  }

  /** The schema's constraints on one stored document. */
  predicate ValidUser(u: User) {
    && u.email != "" && OtpUtil.LooksLikeEmail(u.email)
    && u.age >= 1.0
    && u.city != "" && Trimmed(u.city)
    && u.state != "" && Trimmed(u.state)
    && u.pincode != "" && Trimmed(u.pincode)
  }

  function TrimOpt(v: Option<string>): Option<string> {
    if v.Some? then Some(Trim(v.value)) else None
  }

  /**
   * `User.create` up to the store write: the `trim` setters run, then the
   * `required`, `min` and `match` validators; the message names the first
   * failing path in schema order. `isPhoneVerified` defaults to false.
   */
  function BuildUser(doc: UserInput): (r: Result<User, string>)
    ensures r.Success? <==>
      && Present(doc.email) && OtpUtil.LooksLikeEmail(doc.email.value)
      && doc.password.Some?
      && doc.age.Some? && doc.age.value >= 1.0
      && Present(TrimOpt(doc.city)) && Present(TrimOpt(doc.state)) && Present(TrimOpt(doc.pincode))
    ensures r.Success? ==> ValidUser(r.value)
    ensures r.Success? ==> r.value.isPhoneVerified == (doc.isPhoneVerified.Some? && doc.isPhoneVerified.value)
    ensures r.Success? ==> r.value.phone == doc.phone && r.value.name == doc.name
  {
    if !Present(doc.email) || !OtpUtil.LooksLikeEmail(doc.email.value) then Failure("email")
    else if doc.password.None? then Failure("password")
    else if doc.age.None? || doc.age.value < 1.0 then Failure("age")
    else if !Present(TrimOpt(doc.city)) then Failure("city")
    else if !Present(TrimOpt(doc.state)) then Failure("state")
    else if !Present(TrimOpt(doc.pincode)) then Failure("pincode")
    else
      var city, state, pincode := Trim(doc.city.value), Trim(doc.state.value), Trim(doc.pincode.value);
      var u := User(doc.name, doc.email.value, doc.password.value, doc.age.value,
                    city, state, pincode, doc.phone,
                    if doc.isPhoneVerified.Some? then doc.isPhoneVerified.value else false);
      assert ValidUser(u);
      Success(u)
  }

  /** A document without an age never validates, whatever else it carries. */
  lemma {:induction false} NoAgeNoUser(doc: UserInput)
    requires doc.age.None?
    ensures BuildUser(doc).Failure?
  {
  }

  /** The collection in insertion order; a user's id is its position. */
  type Users = seq<User>

  predicate UniqueEmails(users: Users) {
    forall a, b :: 0 <= a < b < |users| ==> users[a].email != users[b].email
  }

  /** Sparse unique index: only users that have a phone take part. */
  predicate UniquePhones(users: Users) {
    forall a, b :: 0 <= a < b < |users| && users[a].phone.Some? ==> users[a].phone != users[b].phone
  }

  /** The handlers never store a phone without marking it verified. */
  predicate PhonesVerified(users: Users) {
    forall a :: 0 <= a < |users| && users[a].phone.Some? ==> users[a].isPhoneVerified
  }

  predicate AllUsersValid(users: Users) {
    forall a :: 0 <= a < |users| ==> ValidUser(users[a])
  }

  /** Every collection-wide constraint and every document constraint. */
  predicate UsersValid(users: Users) {
    && AllUsersValid(users)
    && UniqueEmails(users)
    && UniquePhones(users)
    && PhonesVerified(users)
  }

  /** `User.findOne({ phone, _id: { $ne: self } })` finds someone. */
  predicate PhoneHeldByOther(users: Users, self: UserId, phone: string) {
    exists a :: 0 <= a < |users| && a != self && users[a].phone == Some(phone)
  }

  /** `User.findOne({ email })` finds someone. */
  predicate EmailTaken(users: Users, email: string) {
    exists a :: 0 <= a < |users| && users[a].email == email
  }

  /** The user after `phone` is set and marked verified. */
  function WithVerifiedPhone(u: User, phone: string): (v: User)
    ensures v.phone == Some(phone) && v.isPhoneVerified
    ensures v.email == u.email && v.name == u.name && v.password == u.password
    ensures v == u.(phone := Some(phone), isPhoneVerified := true)
    ensures ValidUser(u) ==> ValidUser(v)
  {
    User(u.name, u.email, u.password, u.age, u.city, u.state, u.pincode, Some(phone), true)
  }

  lemma {:induction false} SetPhoneKeepsPhones(users: Users, id: UserId, phone: string)
    requires id < |users| && UniquePhones(users) && !PhoneHeldByOther(users, id, phone)
    ensures UniquePhones(users[id := WithVerifiedPhone(users[id], phone)])
  {
    var r := users[id := WithVerifiedPhone(users[id], phone)];
    forall a, b | 0 <= a < b < |r| && r[a].phone.Some?
      ensures r[a].phone != r[b].phone
    {
      if a == id {
        assert !(b != id && users[b].phone == Some(phone));
      } else if b == id {
        assert !(a != id && users[a].phone == Some(phone));
      }
    }
  }

  /**
   * Setting a verified phone on one user keeps every collection constraint,
   * provided no other user holds that phone (the index rejects the write otherwise).
   */
  lemma {:induction false} SetVerifiedPhoneKeepsValid(users: Users, id: UserId, phone: string)
    requires UsersValid(users) && id < |users|
    requires !PhoneHeldByOther(users, id, phone)
    ensures UsersValid(users[id := WithVerifiedPhone(users[id], phone)])
  {
    SetPhoneKeepsPhones(users, id, phone);
  }
}
