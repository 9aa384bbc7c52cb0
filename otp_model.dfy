/**
 * The `Otp` collection of pending phone verifications. The compound unique
 * index on (userId, phone) is the map's key; `userId` alone is only indexed,
 * so one user may hold pending codes for several phones.
 */
module OtpModel {
  import opened Bcrypt
  import opened UserModel

  type OtpKey = (UserId, string)

  /** A pending verification: exactly the four schema paths. */
  datatype Otp = Otp(userId: UserId, phone: string, otpHash: Digest, expiresAt: int)

  /** Every record sits under the key made of its own userId and phone. */
  ghost predicate OtpsValid(otps: map<OtpKey, Otp>) {
    forall k :: k in otps ==> otps[k].userId == k.0 && otps[k].phone == k.1
  }

  /** At most one record per (userId, phone): two records that agree on both are the same record. */
  lemma {:induction false} OnePendingPerPair(otps: map<OtpKey, Otp>, k1: OtpKey, k2: OtpKey)
    requires OtpsValid(otps) && k1 in otps && k2 in otps
    requires otps[k1].userId == otps[k2].userId && otps[k1].phone == otps[k2].phone
    ensures k1 == k2 && otps[k1] == otps[k2]
  {
  }

  /** The handler's own expiry test: a record is expired only strictly after its `expiresAt`. */
  predicate Expired(o: Otp, now: int) {
    o.expiresAt < now
  }

  /** The `findOneAndUpdate` upsert keyed by (userId, phone): that record replaced, all others kept. */
  function UpsertOtp(otps: map<OtpKey, Otp>, userId: UserId, phone: string, otpHash: Digest, expiresAt: int): (r: map<OtpKey, Otp>)
    requires OtpsValid(otps)
    ensures OtpsValid(r)
    ensures r.Keys == otps.Keys + {(userId, phone)}
    ensures r[(userId, phone)] == Otp(userId, phone, otpHash, expiresAt)
    ensures forall k :: k in otps && k != (userId, phone) ==> r[k] == otps[k]
  {
    otps[(userId, phone):= Otp(userId, phone, otpHash, expiresAt)]
  }
}
