/**
 * The in-memory e-mail verification store of `utils/email_auth.py`: one map from
 * an address to its pending code, one from an address to its "verified" mark,
 * each entry carrying the instant it expires. Instants are whole seconds and the
 * clock is a parameter of every operation.
 */
module EmailAuth {
  import opened Text

  /** `{"code": ..., "expires_at": ...}`. */
  datatype CodeEntry = CodeEntry(code: string, expiresAt: int)

  /** `{"verified_at": ..., "expires_at": ...}`. */
  datatype VerifiedEntry = VerifiedEntry(verifiedAt: int, expiresAt: int)

  /** `settings.VERIFICATION_CODE_EXPIRE_MINUTES` when the environment does not set it. */
  const DefaultCodeMinutes: int := 10

  /** A verified mark lasts `timedelta(hours=24)`. */
  const VerifiedLifetime: int := 24 * 60 * 60

  const DecimalDigits: string := "0123456789"

  /**
   * `generate_verification_code(length)`: `random.choices(string.digits, k=length)`
   * joined, where `draw(i)` is the random index picked for position `i`.
   */
  function GenerateVerificationCode(length: int, draw: nat -> nat): (r: string)
    ensures |r| == if length < 0 then 0 else length
    ensures AllAsciiDigits(r)
  {
    if length <= 0 then ""
    else
      var init := GenerateVerificationCode(length - 1, draw);
      init + [DecimalDigits[draw(length - 1) % 10]]
  }

  /** Every digit string is the code drawn by the indices that spell it. */
  lemma {:induction false} EveryCodeIsPossible(s: string, draw: nat -> nat)
    requires AllAsciiDigits(s)
    requires forall i: nat :: i < |s| ==> draw(i) == s[i] as int - '0' as int
    ensures GenerateVerificationCode(|s|, draw) == s
  {
    if s != [] {
      var init := s[..|s| - 1];
      EveryCodeIsPossible(init, draw);
      assert DecimalDigits[draw(|s| - 1) % 10] == s[|s| - 1];
      assert s == init + [s[|s| - 1]];
    }
  }

  /** `cleanup_expired_data` on one map: the entries that expire at `now` or later. */
  function Unexpired<V>(m: map<string, V>, expiresAt: V -> int, now: int): map<string, V> {
    map e | e in m && expiresAt(m[e]) >= now :: m[e]
  }

  function CodeExpiry(): CodeEntry -> int { (c: CodeEntry) => c.expiresAt }

  function VerifiedExpiry(): VerifiedEntry -> int { (v: VerifiedEntry) => v.expiresAt }

  /** Cleanup removes exactly the entries whose expiry is before `now`; one expiring at `now` stays. */
  lemma UnexpiredExact<V>(m: map<string, V>, expiresAt: V -> int, now: int)
    ensures forall e :: e in Unexpired(m, expiresAt, now) <==> e in m && !(expiresAt(m[e]) < now)
    ensures forall e :: e in Unexpired(m, expiresAt, now) ==> Unexpired(m, expiresAt, now)[e] == m[e]
  {
  }

  /** Cleaning twice, at `t` and then at a later `u`, is cleaning once at `u`. */
  lemma UnexpiredTwice<V>(m: map<string, V>, expiresAt: V -> int, t: int, u: int)
    requires t <= u
    ensures Unexpired(Unexpired(m, expiresAt, t), expiresAt, u) == Unexpired(m, expiresAt, u)
  {
  }

  /**
   * `verify_email_code` after its cleanup: the outcome, and the pending codes
   * afterwards. A matching code is consumed; anything else leaves the map as is.
   */
  function CheckCode(codes: map<string, CodeEntry>, email: string, code: string): (r: (bool, map<string, CodeEntry>))
    ensures r.0 <==> email in codes && codes[email].code == code
    ensures r.1 == if r.0 then codes - {email} else codes
  {
    if email !in codes then (false, codes)
    else if codes[email].code == code then (true, codes - {email})
    else (false, codes)
  }

  /** The store's pending codes after `store_verification_code` at `now`. */
  function Stored(codes: map<string, CodeEntry>, email: string, code: string, now: int, lifetime: int): map<string, CodeEntry> {
    codes[email := CodeEntry(code, now + lifetime)]
  }

  /** A stored code verifies at any instant up to its expiry, and not after it. */
  lemma StoreThenVerify(codes: map<string, CodeEntry>, email: string, code: string, t0: int, lifetime: int, now: int)
    ensures var live := Unexpired(Stored(codes, email, code, t0, lifetime), CodeExpiry(), now);
            CheckCode(live, email, code).0 <==> now <= t0 + lifetime
  {
  }

  /** Storing again replaces the earlier code: only the newest one verifies. */
  lemma StoreReplaces(codes: map<string, CodeEntry>, email: string, old1: string, code: string, t0: int, t1: int, lifetime: int, now: int)
    requires old1 != code
    ensures var s := Stored(Stored(codes, email, old1, t0, lifetime), email, code, t1, lifetime);
            !CheckCode(Unexpired(s, CodeExpiry(), now), email, old1).0
  {
  }

  /** A successful verification consumes the code: the same code fails the second time. */
  lemma VerifySingleUse(codes: map<string, CodeEntry>, email: string, code: string, t: int, u: int)
    requires t <= u
    requires CheckCode(Unexpired(codes, CodeExpiry(), t), email, code).0
    ensures !CheckCode(Unexpired(CheckCode(Unexpired(codes, CodeExpiry(), t), email, code).1, CodeExpiry(), u), email, code).0
  {
  }

  /** A wrong code fails and the stored code is still there, still verifying until it expires. */
  lemma WrongCodeKeeps(codes: map<string, CodeEntry>, email: string, code: string, wrong: string, t: int, u: int)
    requires email in codes && codes[email].code == code && wrong != code
    requires t <= u <= codes[email].expiresAt
    ensures var (ok, rest) := CheckCode(Unexpired(codes, CodeExpiry(), t), email, wrong);
            !ok && email in rest && rest[email] == codes[email]
            && CheckCode(Unexpired(rest, CodeExpiry(), u), email, code).0
  {
  }

  /** A mark set at `t0` is seen exactly until 24 hours later. */
  lemma MarkThenVerified(verified: map<string, VerifiedEntry>, email: string, t0: int, now: int)
    ensures email in Unexpired(verified[email := VerifiedEntry(t0, t0 + VerifiedLifetime)], VerifiedExpiry(), now)
            <==> now <= t0 + VerifiedLifetime
  {
  }

  /** The two module-level dictionaries, and how long a stored code lasts. */
  class Store {
    var codes: map<string, CodeEntry>
    var verified: map<string, VerifiedEntry>
    /** `timedelta(minutes=settings.VERIFICATION_CODE_EXPIRE_MINUTES)`, in seconds. */
    const codeLifetime: int

    /** Every verified mark expires 24 hours after it was set. */
    predicate Valid()
      reads this
    {
      forall e :: e in verified ==> verified[e].expiresAt == verified[e].verifiedAt + VerifiedLifetime
    }

    constructor (codeMinutes: int)
      ensures codes == map[] && verified == map[] && codeLifetime == codeMinutes * 60
      ensures Valid()
    {
      codes, verified := map[], map[];
      codeLifetime := codeMinutes * 60;
    }

    /** The store under the default configuration: codes live ten minutes. */
    constructor Default()
      ensures codes == map[] && verified == map[] && codeLifetime == DefaultCodeMinutes * 60 == 600
      ensures Valid()
    {
      codes, verified := map[], map[];
      codeLifetime := DefaultCodeMinutes * 60;
    }

    /** `cleanup_expired_data`: both dictionaries lose the entries that expired before `now`. */
    method CleanupExpiredData(now: int)
      requires Valid()
      modifies this`codes, this`verified
      ensures Valid()
      ensures codes == Unexpired(old(codes), CodeExpiry(), now)
      ensures verified == Unexpired(old(verified), VerifiedExpiry(), now)
    {
      var expiredCodes := set e | e in codes && codes[e].expiresAt < now;
      codes := DeleteAll(codes, expiredCodes);
      var expiredMarks := set e | e in verified && verified[e].expiresAt < now;
      verified := DeleteAll(verified, expiredMarks);
    }

    /** `store_verification_code`: the address's code is replaced, expiring `codeLifetime` after `now`. */
    method StoreVerificationCode(email: string, code: string, now: int) returns (ok: bool)
      modifies this`codes
      ensures ok
      ensures codes == Stored(old(codes), email, code, now, codeLifetime)
    {
      codes := codes[email := CodeEntry(code, now + codeLifetime)];
      ok := true;
    }

    /** `verify_email_code`: clean up, then accept and consume the address's code if it matches. */
    method VerifyEmailCode(email: string, code: string, now: int) returns (ok: bool)
      requires Valid()
      modifies this`codes, this`verified
      ensures Valid()
      ensures var live := Unexpired(old(codes), CodeExpiry(), now);
              ok == CheckCode(live, email, code).0 && codes == CheckCode(live, email, code).1
      ensures verified == Unexpired(old(verified), VerifiedExpiry(), now)
    {
      CleanupExpiredData(now);
      if email !in codes {
        return false;
      }
      if codes[email].code == code {
        codes := codes - {email};
        return true;
      }
      return false;
    }

    /** `is_email_verified`: clean up, then whether the address has a mark. */
    method IsEmailVerified(email: string, now: int) returns (b: bool)
      requires Valid()
      modifies this`codes, this`verified
      ensures Valid()
      ensures b <==> email in Unexpired(old(verified), VerifiedExpiry(), now)
      ensures codes == Unexpired(old(codes), CodeExpiry(), now)
      ensures verified == Unexpired(old(verified), VerifiedExpiry(), now)
    {
      CleanupExpiredData(now);
      b := email in verified;
    }

    /** `mark_email_as_verified`: the address is marked at `now`, for 24 hours. */
    method MarkEmailAsVerified(email: string, now: int) returns (ok: bool)
      requires Valid()
      modifies this`verified
      ensures Valid()
      ensures ok
      ensures verified == old(verified)[email := VerifiedEntry(now, now + VerifiedLifetime)]
    {
      verified := verified[email := VerifiedEntry(now, now + VerifiedLifetime)];
      ok := true;
    }
  }

  /** The `for email in expired: del d[email]` loop. */
  method DeleteAll<V>(m: map<string, V>, keys: set<string>) returns (r: map<string, V>)
    ensures r == m - keys
  {
    r := m;
    var rest := keys;
    while rest != {}
      invariant rest <= keys
      invariant r == m - (keys - rest)
      decreases rest
    {
      var e :| e in rest;
      r := r - {e};
      rest := rest - {e};
    }
  }
}
