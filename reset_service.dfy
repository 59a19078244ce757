/** The password-reset service: one coordinator over a token-keyed store of reset
    records, shared by the Express binding (an in-process `Map`, server/server.js) and
    the Worker binding (a KV namespace, server/src/index.js). The identity provider and
    the mail sender are not modelled; their outcomes are parameters, and the calls the
    coordinator makes to them are returned as a trace. */
module ResetService {
  import opened Wrappers
  import opened Secrets

  /** `Date.now() + 3600000`: a record lives one hour. */
  const ResetWindowMs: nat := 3600000

  /** `{ expirationTtl: 3600 }` on the Worker's KV put. */
  const KvTtlSeconds: nat := 3600

  /** A stored reset record; time is in milliseconds. */
  datatype Record = Record(email: string, tempPassword: string, expires: nat)

  type Store = map<string, Record>

  /** `now > data.expires`: a record is still good at the instant it expires. */
  predicate Expired(r: Record, now: nat)
  {
    now > r.expires
  }

  /** What the hourly sweep leaves behind: every entry that has not expired. */
  function Unexpired(m: Store, now: nat): Store
  {
    map t | t in m && !Expired(m[t], now) :: m[t]
  }

  /** The three answers of verify-token. */
  datatype Redemption = UnknownToken | ExpiredToken | Redeemed(email: string, tempPassword: string)

  /** The HTTP status each answer is sent with. */
  function RedemptionStatus(r: Redemption): (status: int)
    ensures status == 200 <==> r.Redeemed?
    ensures r.UnknownToken? ==> status == 404
    ensures r.ExpiredToken? ==> status == 410
  {
    match r
    case UnknownToken => 404
    case ExpiredToken => 410
    case Redeemed(_, _) => 200
  }

  /** The answer verify-token gives for `token` at `now`. */
  function Redeem(m: Store, token: string, now: nat): Redemption
  {
    if token !in m then UnknownToken
    else if Expired(m[token], now) then ExpiredToken
    else Redeemed(m[token].email, m[token].tempPassword)
  }

  /** The store after verify-token: an expired record is deleted on read, nothing else is. */
  function AfterRedeem(m: Store, token: string, now: nat): Store
  {
    if token in m && Expired(m[token], now) then m - {token} else m
  }

  /** Verify-token on a live or unknown token changes nothing, so it can be repeated with
      the same answer; on an expired token it deletes that one key only, after which the
      token is unknown at any time. */
  lemma RedeemRepeatable(m: Store, token: string, now: nat, later: nat)
    ensures !Redeem(m, token, now).ExpiredToken? ==>
      AfterRedeem(m, token, now) == m && Redeem(AfterRedeem(m, token, now), token, later) == Redeem(m, token, later)
    ensures Redeem(m, token, now).ExpiredToken? ==>
      && AfterRedeem(m, token, now).Keys == m.Keys - {token}
      && (forall t :: t in AfterRedeem(m, token, now) ==> AfterRedeem(m, token, now)[t] == m[t])
      && Redeem(AfterRedeem(m, token, now), token, later) == UnknownToken
  {
  }

  /** A record written at `issuedAt` by forgot-password redeems to its email and temporary
      password up to and including `issuedAt + ResetWindowMs`, and is expired after that. */
  lemma IssuedRecordRedeems(m: Store, token: string, email: string, tempPassword: string, issuedAt: nat, now: nat)
    ensures var m' := m[token := Record(email, tempPassword, issuedAt + ResetWindowMs)];
      && (now <= issuedAt + ResetWindowMs ==> Redeem(m', token, now) == Redeemed(email, tempPassword))
      && (now > issuedAt + ResetWindowMs ==> Redeem(m', token, now) == ExpiredToken)
  {
  }

  /** After the sweep at `now`, no verify-token at `now` or earlier answers 410: the sweep
      turns exactly the 410 answers into 404 and leaves every other answer as it was. */
  lemma SweepHidesOnlyExpired(m: Store, now: nat, token: string)
    ensures Redeem(Unexpired(m, now), token, now) ==
      (if Redeem(m, token, now).ExpiredToken? then UnknownToken else Redeem(m, token, now))
    ensures forall earlier: nat :: earlier <= now ==> !Redeem(Unexpired(m, now), token, earlier).ExpiredToken?
  {
  }

  /** The sweep keeps every unexpired entry as it was and drops every expired one. */
  lemma SweepKeepsExactlyLive(m: Store, now: nat)
    ensures Unexpired(m, now).Keys <= m.Keys
    ensures forall t :: t in m ==> (t in Unexpired(m, now) <==> !Expired(m[t], now))
    ensures forall t :: t in Unexpired(m, now) ==> Unexpired(m, now)[t] == m[t]
    ensures Unexpired(Unexpired(m, now), now) == Unexpired(m, now)
  {
  }

  /** The two bindings of the same coordinator. */
  datatype Binding = Express | Worker

  /** The identity provider's answer to "which account has this email?". */
  datatype Lookup = Found(accountId: string) | NoAccount | LookupThrew

  /** A provider update or a mail send: it returns, or it throws. */
  datatype Outcome = Succeeded | Threw

  /** The external effects of forgot-password, in the order they happen. */
  datatype Call =
    | LookupAccount(email: string)
    | PutRecord(token: string, record: Record, ttlSeconds: Option<nat>)
    | SetPassword(accountId: string, password: string)
    | SendMail(to: string, tempPassword: string, link: string)

  /** `getUserByEmail` of the Worker: `null` when the lookup answer has no `users` array or
      an empty one, otherwise the first user. */
  function WorkerLookup(users: Option<seq<string>>): (r: Lookup)
    ensures r.NoAccount? <==> users.None? || users.value == []
    ensures r.Found? ==> users.Some? && |users.value| > 0 && r.accountId == users.value[0]
    ensures !r.LookupThrew?
  {
    if users.None? || users.value == [] then NoAccount else Found(users.value[0])
  }

  /** `if (!email)`: an absent or empty email. */
  predicate MissingEmail(email: Option<string>)
  {
    email.None? || email.value == ""
  }

  /** The temporary password drawn from the first twelve random fractions. */
  predicate IsDrawnPassword(password: string, draws: seq<nat>, den: nat)
  {
    && |password| == DefaultPasswordLength
    && |draws| >= DefaultPasswordLength
    && forall i :: 0 <= i < DefaultPasswordLength ==>
      draws[i] < den && password[i] == Alphabet[CharIndex(draws[i], den)]
  }

  /** Which handler the Worker's `fetch` runs for a request. */
  datatype Endpoint = Preflight | Health | Probe | Forgot | Verify(token: string) | NoRoute

  const VerifyPrefix: string := "/api/verify-token/"

  predicate StartsWith(s: string, prefix: string)
  {
    |prefix| <= |s| && s[..|prefix|] == prefix
  }

  /** `pathname.split('/').pop()`: the text after the last `/`, or all of it if there is none. */
  function LastSegment(path: string): (r: string)
    ensures |r| <= |path| && r == path[|path| - |r|..]
    ensures '/' !in r
    ensures |r| < |path| ==> path[|path| - |r| - 1] == '/'
  {
    if path == [] || path[|path| - 1] == '/' then []
    else LastSegment(path[..|path| - 1]) + [path[|path| - 1]]
  }

  /** The last segment of a path that ends in `/` followed by a slash-free token is the token. */
  lemma {:induction false} LastSegmentOfToken(prefix: string, token: string)
    requires '/' !in token
    ensures LastSegment(prefix + "/" + token) == token
  {
    var path := prefix + "/" + token;
    if token != [] {
      var init := token[..|token| - 1];
      assert path[..|path| - 1] == prefix + "/" + init;
      assert init + [token[|token| - 1]] == token;
      LastSegmentOfToken(prefix, init);
    }
  }

  /** The routing of the Worker's `fetch`, tried in the source's order. */
  function Route(verb: string, path: string): Endpoint
  {
    if verb == "OPTIONS" then Preflight
    else if path == "/health" then Health
    else if path == "/test" then Probe
    else if path == "/api/forgot-password" && verb == "POST" then Forgot
    else if StartsWith(path, VerifyPrefix) && verb == "GET" then Verify(LastSegment(path))
    else NoRoute
  }

  /** Every preflight is answered as such; a GET on the verify path carries the token
      written after it; forgot-password is served only for POST. */
  lemma RouteFacts(verb: string, token: string)
    ensures Route("OPTIONS", token) == Preflight
    ensures '/' !in token ==> Route("GET", VerifyPrefix + token) == Verify(token)
    ensures verb != "OPTIONS" ==> (Route(verb, "/api/forgot-password") == Forgot <==> verb == "POST")
    ensures verb != "OPTIONS" && verb != "GET" && verb != "POST" ==> Route(verb, VerifyPrefix + token) == NoRoute
  {
    var path := VerifyPrefix + token;
    assert StartsWith(path, VerifyPrefix);
    assert path != "/health" && path != "/test" && path != "/api/forgot-password" by {
      assert path[..5] == "/api/";
      assert path[5] == 'v';
    }
    if '/' !in token {
      assert VerifyPrefix == "/api/verify-token" + "/";
      LastSegmentOfToken("/api/verify-token", token);
    }
  }

  /** What the Worker sends back besides the status. */
  datatype Body = EmptyBody | HealthBody | ProbeBody | ForgotBody | VerifyBody(answer: Redemption) | NotFoundBody

  class Coordinator {
    const binding: Binding
    /** `FRONTEND_URL`, the page the reset link points at. */
    const frontendUrl: string
    /** `tempPasswords` / the `TEMP_PASSWORDS` namespace: reset token to record. */
    var records: Store

    constructor (binding: Binding, frontendUrl: string)
      ensures this.binding == binding && this.frontendUrl == frontendUrl
      ensures records == map[]
    {
      this.binding := binding;
      this.frontendUrl := frontendUrl;
      records := map[];
    }

    /** `${FRONTEND_URL}?token=${resetToken}` */
    function ResetLink(token: string): string
    {
      frontendUrl + "?token=" + token
    }

    /** The Worker puts with a one-hour KV expiry; the Express map has none. */
    function PutTtl(): Option<nat>
    {
      if binding == Worker then Some(KvTtlSeconds) else None
    }

    /** A store write that throws: the Worker's KV `put` can fail, the Express `Map.set`
        cannot. */
    predicate PutThrows(put: Outcome)
    {
      binding == Worker && put.Threw?
    }

    /** The forgot-password handler. The record is written before the provider password is
        rotated and before the mail is sent, so a later failure answers 500 with the new
        record still in the store. `put` is the outcome of the store write. */
    method ForgotPassword(email: Option<string>, lookup: Lookup, put: Outcome, update: Outcome, send: Outcome,
                          now: nat, draws: seq<nat>, den: nat, bytes: seq<Byte>)
      returns (status: int, calls: seq<Call>)
      requires |draws| >= DefaultPasswordLength
      requires forall i :: 0 <= i < |draws| ==> draws[i] < den
      requires |bytes| == TokenBytes
      modifies this
      ensures status in {200, 400, 404, 500}
      ensures MissingEmail(email) ==> status == 400 && calls == [] && records == old(records)
      ensures !MissingEmail(email) && !lookup.Found? ==>
        && calls == [LookupAccount(email.value)]
        && records == old(records)
        && status == (if lookup.NoAccount? || binding == Express then 404 else 500)
      ensures !MissingEmail(email) && lookup.Found? ==>
        var token := GenerateToken(bytes);
        && |calls| >= 2
        && calls[0] == LookupAccount(email.value)
        && calls[1].PutRecord?
        && calls[1].token == token
        && calls[1].ttlSeconds == PutTtl()
        && calls[1].record.email == email.value
        && calls[1].record.expires == now + ResetWindowMs
        && IsDrawnPassword(calls[1].record.tempPassword, draws, den)
        && (PutThrows(put) ==> status == 500 && |calls| == 2 && records == old(records))
        && (!PutThrows(put) ==>
              && |calls| >= 3
              && calls[2] == SetPassword(lookup.accountId, calls[1].record.tempPassword)
              && records == old(records)[token := calls[1].record]
              && (update.Threw? ==> status == 500 && |calls| == 3)
              && (update.Succeeded? ==>
                    && calls == calls[..3] + [SendMail(email.value, calls[1].record.tempPassword, ResetLink(token))]
                    && status == (if send.Succeeded? then 200 else 500)))
      ensures status == 200 <==>
        !MissingEmail(email) && lookup.Found? && !PutThrows(put) && update.Succeeded? && send.Succeeded?
    {
      if MissingEmail(email) {
        return 400, [];
      }
      var e := email.value;
      calls := [LookupAccount(e)];
      match lookup {
        case NoAccount =>
          return 404, calls;
        case LookupThrew =>
          // Express answers every lookup failure with 404; in the Worker a throwing
          // lookup reaches the handler's catch-all.
          status := if binding == Express then 404 else 500;
          return;
        case Found(accountId) =>
          var issued;
          status, issued := IssueReset(e, accountId, put, update, send, now, draws, den, bytes);
          calls := [LookupAccount(e)] + issued;
          assert calls[1..] == issued;
          if !PutThrows(put) && update.Succeeded? {
            assert calls[..3] == [LookupAccount(e)] + issued[..2];
          }
      }
    }

    /** The steps after a successful lookup: draw the password and the token, store the
        record, rotate the provider password, then mail the link. A store write that
        throws reaches the Worker's catch-all before the password changes. */
    method IssueReset(e: string, accountId: string, put: Outcome, update: Outcome, send: Outcome,
                      now: nat, draws: seq<nat>, den: nat, bytes: seq<Byte>)
      returns (status: int, calls: seq<Call>)
      requires |draws| >= DefaultPasswordLength
      requires forall i :: 0 <= i < |draws| ==> draws[i] < den
      requires |bytes| == TokenBytes
      modifies this
      ensures var token := GenerateToken(bytes);
        && |calls| >= 1
        && calls[0].PutRecord?
        && calls[0].token == token
        && calls[0].ttlSeconds == PutTtl()
        && calls[0].record.email == e
        && calls[0].record.expires == now + ResetWindowMs
        && IsDrawnPassword(calls[0].record.tempPassword, draws, den)
        && (PutThrows(put) ==> status == 500 && |calls| == 1 && records == old(records))
        && (!PutThrows(put) ==>
              && |calls| >= 2
              && calls[1] == SetPassword(accountId, calls[0].record.tempPassword)
              && records == old(records)[token := calls[0].record]
              && (update.Threw? ==> status == 500 && |calls| == 2)
              && (update.Succeeded? ==>
                    && calls == calls[..2] + [SendMail(e, calls[0].record.tempPassword, ResetLink(token))]
                    && status == (if send.Succeeded? then 200 else 500)))
    {
      var tempPassword := GeneratePassword(DefaultPasswordLength, draws, den);
      var token := GenerateToken(bytes);
      var record := Record(e, tempPassword, now + ResetWindowMs);
      calls := [PutRecord(token, record, PutTtl())];
      if PutThrows(put) {
        return 500, calls;
      }
      records := records[token := record];
      calls := calls + [SetPassword(accountId, tempPassword)];
      if update.Threw? {
        return 500, calls;
      }
      calls := calls + [SendMail(e, tempPassword, ResetLink(token))];
      status := if send.Succeeded? then 200 else 500;
    }

    /** The verify-token handler at time `now`. */
    method VerifyToken(token: string, now: nat) returns (status: int, answer: Redemption)
      modifies this
      ensures answer == Redeem(old(records), token, now)
      ensures status == RedemptionStatus(answer)
      ensures records == AfterRedeem(old(records), token, now)
    {
      if token !in records {
        return 404, UnknownToken;
      }
      var data := records[token];
      if now > data.expires {
        records := records - {token};
        return 410, ExpiredToken;
      }
      return 200, Redeemed(data.email, data.tempPassword);
    }

    /** The hourly cleanup: visits every entry and deletes those expired at `now`. */
    method CleanupExpired(now: nat)
      modifies this
      ensures records == Unexpired(old(records), now)
    {
      ghost var before := records;
      var pending := records.Keys;
      while pending != {}
        invariant pending <= before.Keys
        invariant records == map t | t in before && (t in pending || !Expired(before[t], now)) :: before[t]
        decreases pending
      {
        var t :| t in pending;
        if now > records[t].expires {
          records := records - {t};
        }
        pending := pending - {t};
      }
    }

    /** The Worker's `fetch`: routes the request and runs the matching handler. */
    method Fetch(verb: string, path: string, email: Option<string>, lookup: Lookup,
                 put: Outcome, update: Outcome, send: Outcome, now: nat, draws: seq<nat>, den: nat, bytes: seq<Byte>)
      returns (status: int, body: Body, calls: seq<Call>)
      requires binding == Worker
      requires |draws| >= DefaultPasswordLength
      requires forall i :: 0 <= i < |draws| ==> draws[i] < den
      requires |bytes| == TokenBytes
      modifies this
      ensures Route(verb, path).Preflight? ==> status == 200 && body == EmptyBody && calls == [] && records == old(records)
      ensures Route(verb, path).Health? ==> status == 200 && body == HealthBody && calls == [] && records == old(records)
      ensures Route(verb, path).Probe? ==> status == 200 && body == ProbeBody && calls == [] && records == old(records)
      ensures Route(verb, path).NoRoute? ==> status == 404 && body == NotFoundBody && calls == [] && records == old(records)
      ensures Route(verb, path).Verify? ==>
        var token := Route(verb, path).token;
        && body == VerifyBody(Redeem(old(records), token, now))
        && status == RedemptionStatus(Redeem(old(records), token, now))
        && records == AfterRedeem(old(records), token, now)
        && calls == []
      ensures Route(verb, path).Forgot? ==> body == ForgotBody && status in {200, 400, 404, 500}
    {
      match Route(verb, path) {
        case Preflight => status, body, calls := 200, EmptyBody, [];
        case Health => status, body, calls := 200, HealthBody, [];
        case Probe => status, body, calls := 200, ProbeBody, [];
        case Forgot =>
          status, calls := ForgotPassword(email, lookup, put, update, send, now, draws, den, bytes);
          body := ForgotBody;
        case Verify(token) =>
          var answer;
          status, answer := VerifyToken(token, now);
          body, calls := VerifyBody(answer), [];
        case NoRoute => status, body, calls := 404, NotFoundBody, [];
      }
    }
  }
}
