/** Waiting for the user to authorise a device: the poll loop of the OAuth device
    flow (src/thinr/auth/auth_manager.cpp:1126-1196; error codes of section 3.5 of
    RFC 8628). Time is in nanoseconds since the loop began. */
module DeviceToken {
  import opened Options
  import opened JsonValue

  const SECOND := 1_000_000_000

  datatype AuthError =
    | NoError | InvalidCredentials | AccessDenied | NotFound | NetworkError | TokenExpired
    | UserDenied | Timeout | InvalidResponse | ServerError | SslError

  datatype AuthResult = AuthResult(success: bool, error: AuthError, status: int, accessToken: string)

  /** A request: an exception already classified, or a response and its body when
      that is JSON. */
  datatype Reply = Threw(error: AuthError) | Http(status: int, success: bool, body: Option<Json>)

  /** One turn of the loop: time lost before the check, time the request took, the
      reply, and how much longer than asked the sleep was. */
  datatype Round = Round(lag: nat, took: nat, reply: Reply, overslept: nat)

  function MapStatus(status: int): AuthError {
    if status == 401 then InvalidCredentials
    else if status == 403 then AccessDenied
    else if status == 404 then NotFound
    else if status >= 500 then ServerError
    else NetworkError
  }

  function Failure(e: AuthError, status: int): AuthResult {
    AuthResult(false, e, status, "")
  }

  const TIMED_OUT := Failure(Timeout, 0)

  /** The `error` member of a 400 response; None when the body cannot give one. */
  function OAuthError(r: Reply): Option<string>
    requires r.Http?
  {
    if r.body.None? || !r.body.value.Obj? || !TextOk(r.body.value.fields, "error") then None
    else Some(TextOr(r.body.value.fields, "error", ""))
  }

  predicate IsBadRequest(r: Reply) {
    r.Http? && !(r.success && r.status == 200) && r.status == 400
  }

  predicate Pending(r: Reply) {
    IsBadRequest(r) && OAuthError(r) == Some("authorization_pending")
  }

  predicate SlowDown(r: Reply) {
    IsBadRequest(r) && OAuthError(r) == Some("slow_down")
  }

  predicate Decisive(r: Reply) {
    !Pending(r) && !SlowDown(r)
  }

  /** What a decisive reply means. */
  function Verdict(r: Reply): AuthResult
    requires Decisive(r)
  {
    if r.Threw? then Failure(r.error, 0)
    else if r.success && r.status == 200 then
      if r.body.Some? && r.body.value.Text("access_token").Some?
      then AuthResult(true, NoError, 200, r.body.value.Text("access_token").value)
      else Failure(InvalidResponse, 200)
    else if r.status == 400 then
      if OAuthError(r).None? then Failure(InvalidResponse, 400)
      else if OAuthError(r).value == "access_denied" then Failure(UserDenied, 400)
      else if OAuthError(r).value == "expired_token" then Failure(TokenExpired, 400)
      else Failure(ServerError, 400)
    else Failure(MapStatus(r.status), r.status)
  }

  // ---- what each answer says of the reply -------------------------------------------

  /** A successful response 200 with a text access_token. */
  predicate Grants(r: Reply) {
    && r.Http? && r.success && r.status == 200
    && r.body.Some? && r.body.value.Obj? && "access_token" in r.body.value.fields
    && r.body.value.fields["access_token"].Str?
  }

  /** A response 400 whose body names an error. */
  predicate Denies(r: Reply, error: string) {
    && r.Http? && r.status == 400
    && r.body.Some? && r.body.value.Obj? && "error" in r.body.value.fields
    && r.body.value.fields["error"] == Str(error)
  }

  /** A response that should carry a document and does not: no token in a successful
      200, or no object, or an error that is not text, in a 400. */
  predicate Unreadable(r: Reply) {
    && r.Http?
    && (|| (r.success && r.status == 200 && !Grants(r))
        || (r.status == 400
            && (|| r.body.None? || !r.body.value.Obj?
                || ("error" in r.body.value.fields && !r.body.value.fields["error"].Str?))))
  }

  /** A response 400 with an error of another name, or none. */
  predicate OtherError(r: Reply) {
    && r.Http? && r.status == 400 && !Unreadable(r)
    && !Denies(r, "authorization_pending") && !Denies(r, "slow_down")
    && !Denies(r, "access_denied") && !Denies(r, "expired_token")
  }

  /** The answer to a reply that ends the loop, one clause for every kind of answer. */
  predicate Meaning(v: AuthResult, r: Reply) {
    && (v.success <==> Grants(r))
    && (v.success ==> v == AuthResult(true, NoError, 200, r.body.value.fields["access_token"].s))
    && (!v.success ==> v.accessToken == "")
    && (r.Threw? ==> v.error == r.error && v.status == 0)
    && (r.Http? ==>
          && v.status == r.status
          && (v.error.NoError? <==> Grants(r))
          && (v.error.UserDenied? <==> Denies(r, "access_denied"))
          && (v.error.TokenExpired? <==> Denies(r, "expired_token"))
          && (v.error.InvalidResponse? <==> Unreadable(r))
          && (v.error.InvalidCredentials? <==> r.status == 401)
          && (v.error.AccessDenied? <==> r.status == 403)
          && (v.error.NotFound? <==> r.status == 404)
          && (v.error.ServerError? <==> r.status >= 500 || OtherError(r))
          && !v.error.Timeout? && !v.error.SslError?)
  }

  /** The clauses leave no choice: they hold of the verdict and of nothing else. */
  lemma VerdictIff(v: AuthResult, r: Reply)
    requires Decisive(r)
    ensures Meaning(v, r) <==> v == Verdict(r)
  {
  }

  // ---- the loop in closed form ------------------------------------------------

  function Pause(r: Reply, interval: int): nat {
    if SlowDown(r) then 5 * SECOND else if interval > 0 then interval * SECOND else 0
  }

  /** Time spent in the first k turns. */
  function Elapsed(h: seq<Round>, interval: int, k: nat): nat
    requires k <= |h|
  {
    if k == 0 then 0
    else
      Elapsed(h, interval, k - 1)
      + h[k - 1].lag + h[k - 1].took + Pause(h[k - 1].reply, interval) + h[k - 1].overslept
  }

  /** Turn k finds the time used up. */
  predicate Late(h: seq<Round>, timeout: int, interval: int, k: nat)
    requires k < |h|
  {
    Elapsed(h, interval, k) + h[k].lag > timeout * SECOND
  }

  /** The turn that ends the loop: the first that is late or gets a decisive reply. */
  predicate Ends(h: seq<Round>, timeout: int, interval: int, k: nat)
    requires k < |h|
  {
    Late(h, timeout, interval, k) || Decisive(h[k].reply)
  }

  predicate EndsAt(h: seq<Round>, timeout: int, interval: int, k: nat) {
    k < |h| && Ends(h, timeout, interval, k) && forall j :: 0 <= j < k ==> !Ends(h, timeout, interval, j)
  }

  // ---- the bound ------------------------------------------------------------------

  function Shortest(interval: int): int {
    if interval < 5 then interval else 5
  }

  /** floor(timeout / min(interval, 5)) + 1, and no request at all on a negative timeout. */
  function MaxRequests(timeout: int, interval: int): nat
    requires interval >= 1
  {
    if timeout < 0 then 0 else timeout / Shortest(interval) + 1
  }

  lemma {:induction false} EachTurnTakesTime(h: seq<Round>, interval: int, k: nat)
    requires k <= |h| && interval >= 1
    requires forall j :: 0 <= j < k ==> !Decisive(h[j].reply)
    ensures Elapsed(h, interval, k) >= k * (Shortest(interval) * SECOND)
  {
    if k > 0 {
      EachTurnTakesTime(h, interval, k - 1);
      assert !Decisive(h[k - 1].reply);
      assert k * (Shortest(interval) * SECOND) == (k - 1) * (Shortest(interval) * SECOND) + Shortest(interval) * SECOND;
    }
  }

  lemma Smaller(k: int, l: int, m: int)
    requires m >= 1 && k * m < l * m
    ensures k < l
  {
  }

  lemma AtMost(k: nat, m: int, timeout: int)
    requires m >= 1 && k * (m * SECOND) <= timeout * SECOND
    ensures k <= timeout / m
  {
    assert k * (m * SECOND) == k * m * SECOND;
    var q := timeout / m;
    assert (q + 1) * m == q * m + m;
    Smaller(k, q + 1, m);
  }

  /** With an interval of a second or more, turn number MaxRequests, counting from
      0, finds the time used up, unless the loop has ended before it. */
  lemma RunsOutOfTime(h: seq<Round>, timeout: int, interval: int, k: nat)
    requires interval >= 1 && k < |h|
    requires forall j :: 0 <= j < k ==> !Ends(h, timeout, interval, j)
    ensures k >= MaxRequests(timeout, interval) ==> Late(h, timeout, interval, k) && Ends(h, timeout, interval, k)
  {
    forall j | 0 <= j < k
      ensures !Decisive(h[j].reply)
    {
      assert !Ends(h, timeout, interval, j);
    }
    EachTurnTakesTime(h, interval, k);
    if !Late(h, timeout, interval, k) {
      AtMost(k, Shortest(interval), timeout);
    }
  }

  /** How many requests the turn that ends the loop leaves behind it. */
  function RequestsBy(h: seq<Round>, timeout: int, interval: int, k: nat): nat
    requires k < |h|
  {
    if Late(h, timeout, interval, k) then k else k + 1
  }

  predicate StillPolling(h: seq<Round>, timeout: int, interval: int) {
    forall j :: 0 <= j < |h| ==> !Ends(h, timeout, interval, j)
  }

  lemma RequestBound(h: seq<Round>, timeout: int, interval: int, k: nat)
    requires interval >= 1 && EndsAt(h, timeout, interval, k)
    ensures RequestsBy(h, timeout, interval, k) <= MaxRequests(timeout, interval)
  {
    if !Late(h, timeout, interval, k) {
      RunsOutOfTime(h, timeout, interval, k);
    } else if k > 0 {
      RunsOutOfTime(h, timeout, interval, k - 1);
    }
  }

  lemma PollingBound(h: seq<Round>, timeout: int, interval: int)
    requires interval >= 1 && StillPolling(h, timeout, interval)
    ensures |h| <= MaxRequests(timeout, interval)
  {
    if h != [] {
      RunsOutOfTime(h, timeout, interval, |h| - 1);
    }
  }

  /** poll_device_token over a history of turns; None while it would still be
      polling at the end of it. Turn k ends the loop. With an interval of a second or more, every history
      long enough gives a result, after at most MaxRequests requests. */
  method PollDeviceToken(h: seq<Round>, timeout: int, interval: int)
    returns (r: Option<AuthResult>, requests: nat, ghost k: nat)
    ensures r.None? ==> StillPolling(h, timeout, interval) && requests == |h|
    ensures r.Some? ==> EndsAt(h, timeout, interval, k) && requests == RequestsBy(h, timeout, interval, k)
    ensures r.Some? ==>
              if Late(h, timeout, interval, k) then r.value == AuthResult(false, Timeout, 0, "")
              else Meaning(r.value, h[k].reply)
    ensures r.Some? ==>
              (r.value.error.Timeout? <==>
                 Late(h, timeout, interval, k) || h[k].reply == Threw(Timeout))
    ensures interval >= 1 ==> requests <= MaxRequests(timeout, interval)
    ensures interval >= 1 && |h| > MaxRequests(timeout, interval) ==> r.Some?
  {
    if interval >= 1 {
      if StillPolling(h, timeout, interval) {
        PollingBound(h, timeout, interval);
      }
      forall k: nat | EndsAt(h, timeout, interval, k)
        ensures RequestsBy(h, timeout, interval, k) <= MaxRequests(timeout, interval)
      {
        RequestBound(h, timeout, interval, k);
      }
    }
    requests, k := 0, 0;
    var now, i := 0, 0;
    while i < |h|
      invariant 0 <= i == requests == k <= |h|
      invariant now == Elapsed(h, interval, i)
      invariant forall j :: 0 <= j < i ==> !Ends(h, timeout, interval, j)
    {
      now := now + h[i].lag;
      if now > timeout * SECOND {
        assert EndsAt(h, timeout, interval, i);
        return Some(TIMED_OUT), requests, k;
      }
      var response := h[i].reply;
      requests := requests + 1;
      now := now + h[i].took;
      if Decisive(response) {
        assert EndsAt(h, timeout, interval, i);
        VerdictIff(Verdict(response), response);
      }
      if response.Threw? {
        return Some(Failure(response.error, 0)), requests, k;
      }
      if response.success && response.status == 200 {
        if response.body.Some? && response.body.value.Text("access_token").Some? {
          return Some(AuthResult(true, NoError, 200, response.body.value.Text("access_token").value)), requests, k;
        }
        return Some(Failure(InvalidResponse, 200)), requests, k;
      } else if response.status == 400 {
        var error := OAuthError(response);
        if error.None? {
          return Some(Failure(InvalidResponse, 400)), requests, k;
        }
        if error.value == "authorization_pending" {
          now := now + (if interval > 0 then interval * SECOND else 0) + h[i].overslept;
        } else if error.value == "slow_down" {
          now := now + 5 * SECOND + h[i].overslept;
        } else if error.value == "access_denied" {
          return Some(Failure(UserDenied, 400)), requests, k;
        } else if error.value == "expired_token" {
          return Some(Failure(TokenExpired, 400)), requests, k;
        } else {
          return Some(Failure(ServerError, 400)), requests, k;
        }
      } else {
        return Some(Failure(MapStatus(response.status), response.status)), requests, k;
      }
      i, k := i + 1, k + 1;
    }
    r := None;
  }

  const PENDING := Round(0, 0, Http(400, false, Some(Obj(map["error" := Str("authorization_pending")]))), 0)
  const SLOW_DOWN := Round(0, 0, Http(400, false, Some(Obj(map["error" := Str("slow_down")]))), 0)

  function Repeat(x: Round, n: nat): (h: seq<Round>)
    ensures |h| == n && forall i :: 0 <= i < n ==> h[i] == x
  {
    seq(n, _ => x)
  }

  lemma {:induction false} RepeatElapsed(x: Round, n: nat, interval: int, k: nat)
    requires k <= n
    ensures Elapsed(Repeat(x, n), interval, k) ==
            k * (x.lag + x.took + Pause(x.reply, interval) + x.overslept)
  {
    if k > 0 {
      RepeatElapsed(x, n, interval, k - 1);
    }
  }

  /** The bound is reached: by the shorter of the two waits, over and over. */
  lemma BoundIsReached(timeout: int, interval: int)
    requires interval >= 1
    ensures exists h :: |h| == MaxRequests(timeout, interval) && StillPolling(h, timeout, interval)
  {
    var n := MaxRequests(timeout, interval);
    var m := Shortest(interval);
    var x := if interval < 5 then PENDING else SLOW_DOWN;
    var h := Repeat(x, n);
    forall j | 0 <= j < n
      ensures !Ends(h, timeout, interval, j)
    {
      RepeatElapsed(x, n, interval, j);
      assert Elapsed(h, interval, j) == j * (m * SECOND);
      assert j <= timeout / m;
      assert j * m <= timeout / m * m <= timeout;
      assert j * (m * SECOND) == j * m * SECOND;
    }
    assert StillPolling(h, timeout, interval);
  }

  /** No history keeps the loop going beyond n turns. */
  ghost predicate BoundedBy(n: nat, timeout: int, interval: int) {
    forall h: seq<Round> :: |h| > n ==> !StillPolling(h, timeout, interval)
  }

  lemma NeverBounded(n: nat, timeout: int, interval: int)
    requires interval < 1 && timeout >= 0
    ensures !BoundedBy(n, timeout, interval)
  {
    var h := Repeat(PENDING, n + 1);
    forall j | 0 <= j < n + 1
      ensures !Ends(h, timeout, interval, j)
    {
      RepeatElapsed(PENDING, n + 1, interval, j);
    }
    assert StillPolling(h, timeout, interval);
  }

  /** The loop is bounded exactly when the interval is at least a second or the
      timeout is negative: otherwise a server that keeps answering
      authorization_pending at once is asked without end. */
  lemma BoundedIff(timeout: int, interval: int)
    ensures (exists n: nat :: BoundedBy(n, timeout, interval)) <==> (interval >= 1 || timeout < 0)
  {
    if interval >= 1 {
      var n := MaxRequests(timeout, interval);
      forall h: seq<Round> | |h| > n
        ensures !StillPolling(h, timeout, interval)
      {
        if StillPolling(h, timeout, interval) {
          PollingBound(h, timeout, interval);
        }
      }
      assert BoundedBy(n, timeout, interval);
    } else if timeout < 0 {
      forall h: seq<Round> | |h| > 0
        ensures !StillPolling(h, timeout, interval)
      {
        assert Ends(h, timeout, interval, 0);
      }
      assert BoundedBy(0, timeout, interval);
    } else {
      forall n: nat
        ensures !BoundedBy(n, timeout, interval)
      {
        NeverBounded(n, timeout, interval);
      }
    }
  }

  /** Timing only decides whether the time runs out first: two histories with the same
      replies that both get an answer get the same answer, at the same turn, which is
      that of the first reply other than authorization_pending and slow_down. */
  lemma FirstDecisiveDecides(h: seq<Round>, g: seq<Round>, timeout: int, interval: int, k: nat, l: nat)
    requires |h| == |g| && forall j :: 0 <= j < |h| ==> h[j].reply == g[j].reply
    requires EndsAt(h, timeout, interval, k) && !Late(h, timeout, interval, k)
    requires EndsAt(g, timeout, interval, l)
    ensures Late(g, timeout, interval, l) || l == k
    ensures forall j :: 0 <= j < k ==> Pending(h[j].reply) || SlowDown(h[j].reply)
  {
    forall j | 0 <= j < k
      ensures !Decisive(h[j].reply)
    {
      assert !Ends(h, timeout, interval, j);
    }
    forall j | 0 <= j < l
      ensures !Decisive(g[j].reply)
    {
      assert !Ends(g, timeout, interval, j);
    }
  }
}
