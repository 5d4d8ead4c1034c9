/** Passwordless sign-in (accounts/models.py, accounts/services.py): a
    user's upgrade flag, one-time login codes stored as a hash, and the
    request throttle that issues them. Time is an integer number of
    microseconds passed in as `now`; the hash, the random code and the
    request's address and agent are parameters. */
module Accounts {
  import opened Common

  const Second: int := 1_000_000
  const Minute: int := 60 * Second
  const Hour: int := 60 * Minute

  /** `send_login_code`'s limits. */
  const RequestGap: int := 30 * Second
  const HourlyLimit: nat := 5
  const CodeMinutes: int := 10

  /** A login code row, as a value. */
  datatype CodeRecord = CodeRecord(
    codeHash: string, createdAt: int, expiresAt: int, usedAt: Option<int>, purpose: string,
    attempts: nat, ip: Option<string>, userAgentHash: string)

  // ---------------------------------------------------------------------------
  // verify_and_use on values
  // ---------------------------------------------------------------------------

  /** `verify_and_use`: the answer and the row afterwards. A used code or a
      code past its expiry is refused untouched; a wrong candidate counts
      an attempt; the right one marks the code used now. */
  function Verify(c: CodeRecord, candidate: string, now: int, hash: string -> string): (bool, CodeRecord) {
    if c.usedAt.Some? || now > c.expiresAt then (false, c)
    else if c.codeHash != hash(candidate) then (false, c.(attempts := c.attempts + 1))
    else (true, c.(usedAt := Some(now)))
  }

  /** Verification is refused without change exactly when the code is used
      or expired; expiry is strict, so `now == expires_at` is still in time. */
  lemma VerifyRefuses(c: CodeRecord, candidate: string, now: int, hash: string -> string)
    ensures Verify(c, candidate, now, hash) == (false, c) <==> c.usedAt.Some? || now > c.expiresAt
    ensures c.usedAt.None? && now == c.expiresAt && hash(candidate) == c.codeHash ==> Verify(c, candidate, now, hash).0
  {
  }

  /** A wrong candidate inside the window adds exactly one attempt and
      leaves the code unused; the right one uses it and keeps the count. */
  lemma VerifyOutcome(c: CodeRecord, candidate: string, now: int, hash: string -> string)
    requires c.usedAt.None? && now <= c.expiresAt
    ensures var (ok, c') := Verify(c, candidate, now, hash);
      && (ok <==> hash(candidate) == c.codeHash)
      && (!ok ==> c'.attempts == c.attempts + 1 && c'.usedAt.None?)
      && (ok ==> c'.usedAt == Some(now) && c'.attempts == c.attempts)
      && c'.codeHash == c.codeHash && c'.expiresAt == c.expiresAt && c'.createdAt == c.createdAt
  {
  }

  /** The answers to a series of attempts `(candidate, now)` and the row
      after them. */
  function VerifyAll(c: CodeRecord, tries: seq<(string, int)>, hash: string -> string): (seq<bool>, CodeRecord) {
    if tries == [] then ([], c)
    else
      var (answers, c') := VerifyAll(c, tries[..|tries| - 1], hash);
      var (ok, c'') := Verify(c', tries[|tries| - 1].0, tries[|tries| - 1].1, hash);
      (answers + [ok], c'')
  }

  /** A code is single-use: a series of attempts succeeds at most once, and
      never once the code was used before the series; after a success the
      code stays used. */
  lemma {:induction false} SingleUse(c: CodeRecord, tries: seq<(string, int)>, hash: string -> string)
    ensures var (answers, c') := VerifyAll(c, tries, hash);
      && Occurrences(answers, true) <= 1
      && (c.usedAt.Some? ==> true !in answers && c' == c)
      && (true in answers ==> c'.usedAt.Some?)
      && (c.usedAt.Some? ==> c'.usedAt == c.usedAt)
  {
    if tries != [] {
      var (answers, c1) := VerifyAll(c, tries[..|tries| - 1], hash);
      SingleUse(c, tries[..|tries| - 1], hash);
      var (ok, c2) := Verify(c1, tries[|tries| - 1].0, tries[|tries| - 1].1, hash);
      assert ok ==> c1.usedAt.None?;
      assert VerifyAll(c, tries, hash) == (answers + [ok], c2);
      assert (answers + [ok])[..|answers|] == answers;
    }
  }

  /** Attempts never decrease and grow by at most one per try. */
  lemma {:induction false} AttemptsBounded(c: CodeRecord, tries: seq<(string, int)>, hash: string -> string)
    ensures c.attempts <= VerifyAll(c, tries, hash).1.attempts <= c.attempts + |tries|
  {
    if tries != [] {
      AttemptsBounded(c, tries[..|tries| - 1], hash);
    }
  }

  // ---------------------------------------------------------------------------
  // the objects
  // ---------------------------------------------------------------------------

  /** `LoginCode`: only the use time, the attempt count and the request
      metadata change after creation. */
  class LoginCode {
    const codeHash: string
    const createdAt: int
    const expiresAt: int
    var usedAt: Option<int>
    const purpose: string
    var attempts: nat
    var ip: Option<string>
    var userAgentHash: string

    /** `objects.create(...)`: unused, no attempts, no request metadata. */
    constructor(codeHash: string, createdAt: int, expiresAt: int, purpose: string)
      ensures Value() == CodeRecord(codeHash, createdAt, expiresAt, None, purpose, 0, None, "")
    {
      this.codeHash := codeHash;
      this.createdAt := createdAt;
      this.expiresAt := expiresAt;
      this.usedAt := None;
      this.purpose := purpose;
      this.attempts := 0;
      this.ip := None;
      this.userAgentHash := "";
    }

    function Value(): CodeRecord
      reads this
    {
      CodeRecord(codeHash, createdAt, expiresAt, usedAt, purpose, attempts, ip, userAgentHash)
    }

    /** `verify_and_use(candidate)` at time `now`. */
    method VerifyAndUse(candidate: string, now: int, hash: string -> string) returns (ok: bool)
      modifies this
      ensures (ok, Value()) == Verify(old(Value()), candidate, now, hash)
    {
      if usedAt.Some? || now > expiresAt {
        return false;
      }
      if codeHash != hash(candidate) {
        attempts := attempts + 1;
        return false;
      }
      usedAt := Some(now);
      return true;
    }
  }

  /** The request metadata `send_login_code` stores. */
  datatype RequestMeta = RequestMeta(remoteAddr: Option<string>, userAgent: string)

  /** A `User` with the fields this model uses; `loginCodes` is the
      `login_codes` relation, oldest first. */
  class User {
    var upgradedUntil: Option<int>
    var loginCodes: seq<LoginCode>

    constructor(upgradedUntil: Option<int>)
      ensures this.upgradedUntil == upgradedUntil && loginCodes == []
    {
      this.upgradedUntil := upgradedUntil;
      this.loginCodes := [];
    }

    /** `is_upgraded`. */
    predicate IsUpgraded(now: int)
      reads this
    {
      upgradedUntil.Some? && upgradedUntil.value > now
    }
  }

  /** `is_upgraded` holds exactly while the upgrade lasts: it never holds
      without an end time, and an upgrade that holds at some time holds at
      every earlier time. */
  lemma UpgradeLasts(u: User, now: int, earlier: int)
    requires earlier <= now
    ensures u.IsUpgraded(now) <==> u.upgradedUntil.Some? && now < u.upgradedUntil.value
    ensures u.IsUpgraded(now) ==> u.IsUpgraded(earlier)
  {
  }

  /** `create_for_user(user, minutes, purpose)`: the row stores the hash of
      the code and expires `minutes` after `now`. */
  method CreateForUser(user: User, code: string, now: int, minutes: int, purpose: string, hash: string -> string)
    returns (lc: LoginCode)
    modifies user
    ensures fresh(lc) && user.loginCodes == old(user.loginCodes) + [lc]
    ensures lc.Value() == CodeRecord(hash(code), now, now + minutes * Minute, None, purpose, 0, None, "")
    ensures user.upgradedUntil == old(user.upgradedUntil)
  {
    lc := new LoginCode(hash(code), now, now + minutes * Minute, purpose);
    user.loginCodes := user.loginCodes + [lc];
  }

  /** A new code verifies with its own code until it expires, and, when the
      hash is injective, with no other candidate. */
  lemma NewCodeVerifies(code: string, candidate: string, created: int, now: int, minutes: int, purpose: string,
                        hash: string -> string)
    requires created <= now <= created + minutes * Minute
    ensures var c := CodeRecord(hash(code), created, created + minutes * Minute, None, purpose, 0, None, "");
      && Verify(c, code, now, hash).0
      && ((forall a, b :: hash(a) == hash(b) ==> a == b) ==> (Verify(c, candidate, now, hash).0 <==> candidate == code))
  {
  }

  // ---------------------------------------------------------------------------
  // send_login_code's throttle
  // ---------------------------------------------------------------------------

  /** A request: refused, with the message of `TooManyRequests`, or sent. */
  datatype SendResult = Throttled(message: string) | Sent

  function CreatedTimes(codes: seq<LoginCode>): (r: seq<int>)
    ensures |r| == |codes| && forall i :: 0 <= i < |codes| ==> r[i] == codes[i].createdAt
  {
    seq(|codes|, i requires 0 <= i < |codes| => codes[i].createdAt)
  }

  /** `created_at__gt=now - 30s` exists. */
  predicate RecentBlock(created: seq<int>, now: int) {
    exists i :: 0 <= i < |created| && created[i] > now - RequestGap
  }

  function WithinHour(now: int): int -> bool {
    t => t > now - Hour
  }

  /** `created_at__gt=now - 1h` count. */
  function Hourly(created: seq<int>, now: int): nat {
    CountWhere(created, WithinHour(now))
  }

  /** The decision: the 30-second rule first, then the hourly one. */
  function Throttle(created: seq<int>, now: int): Option<string> {
    if RecentBlock(created, now) then Some("Please wait before requesting another code.")
    else if Hourly(created, now) >= HourlyLimit then Some("Too many login emails. Try later.")
    else None
  }

  /** `send_login_code` for an existing user: check the throttle, create a
      ten-minute login code, then store the request's address and the hash
      of its agent on the new code. */
  method SendLoginCode(user: User, code: string, now: int, request: Option<RequestMeta>, hash: string -> string)
    returns (r: SendResult)
    modifies user
    ensures Throttle(CreatedTimes(old(user.loginCodes)), now).Some? ==>
      r == Throttled(Throttle(CreatedTimes(old(user.loginCodes)), now).value) && user.loginCodes == old(user.loginCodes)
    ensures Throttle(CreatedTimes(old(user.loginCodes)), now).None? ==>
      && r == Sent && |user.loginCodes| == |old(user.loginCodes)| + 1
      && user.loginCodes[..|old(user.loginCodes)|] == old(user.loginCodes)
      && fresh(user.loginCodes[|old(user.loginCodes)|])
      && user.loginCodes[|old(user.loginCodes)|].Value() == CodeRecord(
           hash(code), now, now + CodeMinutes * Minute, None, "login", 0,
           if request.Some? then request.value.remoteAddr else None,
           if request.Some? then hash(request.value.userAgent) else "")
    ensures user.upgradedUntil == old(user.upgradedUntil)
  {
    var created := CreatedTimes(user.loginCodes);
    var recent := false;
    var i := 0;
    while i < |user.loginCodes|
      invariant i <= |user.loginCodes|
      invariant recent <==> exists j :: 0 <= j < i && created[j] > now - RequestGap
    {
      if user.loginCodes[i].createdAt > now - RequestGap {
        recent := true;
      }
      i := i + 1;
    }
    if recent {
      return Throttled("Please wait before requesting another code.");
    }
    var hourly := CountHourly(user.loginCodes, now);
    if hourly >= HourlyLimit {
      return Throttled("Too many login emails. Try later.");
    }
    var lc := CreateForUser(user, code, now, CodeMinutes, "login", hash);
    if request.Some? {
      lc.ip := request.value.remoteAddr;
      lc.userAgentHash := hash(request.value.userAgent);
    }
    assert user.loginCodes[|old(user.loginCodes)|] == lc;
    return Sent;
  }

  /** The database count of codes created in the last hour. */
  method CountHourly(codes: seq<LoginCode>, now: int) returns (n: nat)
    ensures n == Hourly(CreatedTimes(codes), now)
  {
    var created := CreatedTimes(codes);
    n := 0;
    var i := 0;
    while i < |codes|
      invariant i <= |codes|
      invariant n == CountWhere(created[..i], WithinHour(now))
    {
      TakeOneMore(created, i);
      if codes[i].createdAt > now - Hour {
        n := n + 1;
      }
      i := i + 1;
    }
    TakeAll(created, i);
  }

  /** When both limits are hit, the 30-second message is the one given;
      the hourly message is given only when no code is that recent. */
  lemma ThrottleOrder(created: seq<int>, now: int)
    ensures RecentBlock(created, now) ==> Throttle(created, now) == Some("Please wait before requesting another code.")
    ensures Throttle(created, now) == Some("Too many login emails. Try later.") <==>
      !RecentBlock(created, now) && Hourly(created, now) >= HourlyLimit
  {
  }

  /** Codes created at least 30 seconds apart, in order. */
  predicate Spaced(created: seq<int>) {
    forall i, j :: 0 <= i < j < |created| ==> created[j] - created[i] >= RequestGap
  }

  /** A request that passes the throttle at `now` keeps the codes 30 seconds
      apart, and leaves at most five codes created in the hour up to now. */
  lemma SendKeepsLimits(created: seq<int>, now: int)
    requires Spaced(created) && Throttle(created, now).None?
    ensures Spaced(created + [now])
    ensures Hourly(created + [now], now) <= HourlyLimit
  {
    var after := created + [now];
    forall i, j | 0 <= i < j < |after|
      ensures after[j] - after[i] >= RequestGap
    {
      if j == |created| {
        assert after[i] == created[i];
        assert !(created[i] > now - RequestGap);
      } else {
        assert after[i] == created[i] && after[j] == created[j];
      }
    }
    assert after[..|after| - 1] == created;
  }
}
