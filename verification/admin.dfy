/** The memoised admin token of the directory client. */
module AdminToken {
  import opened TypedStore

  const MARGIN := 30 * SECOND

  /** What the directory answers to a login begun at some time: a token it issued at `issuedAt`, good for
      `lifetime`, the answer being recorded at `recordedAt`; or nothing, known at `recordedAt`. */
  datatype Reply =
    | Refused(recordedAt: int)
    | Granted(token: string, issuedAt: int, lifetime: int, recordedAt: int)

  /** One caller inside the mutex at `at`, with the answer it would get if it logged in. */
  datatype Call = Call(at: int, reply: Reply)

  datatype Answer = Cached(token: string) | LoggedIn(token: string) | Unavailable

  /** The two fields of the client. */
  datatype Memo = Memo(token: string, expiry: int)

  predicate Usable(m: Memo, at: int) {
    m.token != "" && at < m.expiry - MARGIN
  }

  function Next(m: Memo, c: Call): Memo {
    if !Usable(m, c.at) && c.reply.Granted? then Memo(c.reply.token, c.reply.recordedAt + c.reply.lifetime) else m
  }

  function AnswerTo(m: Memo, c: Call): Answer {
    if Usable(m, c.at) then Cached(m.token)
    else if c.reply.Granted? then LoggedIn(c.reply.token)
    else Unavailable
  }

  class KeycloakUseCase {
    var cachedToken: string
    var tokenExpiry: int

    function Fields(): Memo
      reads this
    {
      Memo(cachedToken, tokenExpiry)
    }

    constructor ()
      ensures Fields() == NOTHING
    {
      cachedToken, tokenExpiry := "", 0;
    }

    /** The body runs under the mutex. */
    method GetAdminToken(c: Call) returns (a: Answer)
      modifies this
      ensures Fields() == Next(old(Fields()), c) && a == AnswerTo(old(Fields()), c)
      ensures a.Cached? ==> a.token == old(cachedToken) == cachedToken && tokenExpiry == old(tokenExpiry)
      ensures a.LoggedIn? ==> c.reply.Granted? && a.token == c.reply.token == cachedToken
    {
      if cachedToken != "" && c.at < tokenExpiry - MARGIN {
        return Cached(cachedToken);
      }
      if c.reply.Refused? {
        return Unavailable;
      }
      cachedToken := c.reply.token;
      tokenExpiry := c.reply.recordedAt + c.reply.lifetime;
      return LoggedIn(cachedToken);
    }

    /** Callers one after the other, as the mutex lets them in. */
    method Serve(calls: seq<Call>) returns (answers: seq<Answer>)
      modifies this
      ensures Fields() == MemoAfter(old(Fields()), calls)
      ensures answers == Answers(old(Fields()), calls)
    {
      answers := [];
      var i := 0;
      while i < |calls|
        invariant 0 <= i <= |calls|
        invariant Fields() == MemoAfter(old(Fields()), calls[..i]) && answers == Answers(old(Fields()), calls[..i])
      {
        var a := GetAdminToken(calls[i]);
        answers := answers + [a];
        assert calls[..i + 1][..i] == calls[..i];
        i := i + 1;
      }
      assert calls[..i] == calls;
    }
  }

  // ---------- Runs ----------

  function MemoAfter(m: Memo, calls: seq<Call>): Memo {
    if calls == [] then m else Next(MemoAfter(m, calls[..|calls| - 1]), calls[|calls| - 1])
  }

  /** What the callers are told, in order. */
  function Answers(m: Memo, calls: seq<Call>): (answers: seq<Answer>)
    ensures |answers| == |calls|
  {
    if calls == [] then []
    else
      var before := calls[..|calls| - 1];
      Answers(m, before) + [AnswerTo(MemoAfter(m, before), calls[|calls| - 1])]
  }

  /** Each caller gets the answer for the memo that those before it left. */
  lemma {:induction false} AnswersAt(m: Memo, calls: seq<Call>, i: nat)
    requires i < |calls|
    ensures Answers(m, calls)[i] == AnswerTo(MemoAfter(m, calls[..i]), calls[i])
    decreases |calls|
  {
    if i < |calls| - 1 {
      AnswersAt(m, calls[..|calls| - 1], i);
      assert calls[..|calls| - 1][..i] == calls[..i];
    }
  }

  const NOTHING := Memo("", 0)

  /** Logins take time, and tokens are not empty. */
  predicate Plausible(c: Call) {
    c.at <= c.reply.recordedAt &&
    (c.reply.Granted? ==> c.reply.token != "" && c.at <= c.reply.issuedAt <= c.reply.recordedAt)
  }

  /** The memo the i-th caller finds. */
  function Found(calls: seq<Call>, i: nat): Memo
    requires i <= |calls|
  {
    MemoAfter(NOTHING, calls[..i])
  }

  predicate LogsIn(calls: seq<Call>, i: nat)
    requires i < |calls|
  {
    !Usable(Found(calls, i), calls[i].at) && calls[i].reply.Granted?
  }

  lemma FoundStep(calls: seq<Call>, i: nat)
    requires i < |calls|
    ensures Found(calls, i + 1) == Next(Found(calls, i), calls[i])
  {
    assert calls[..i + 1][..i] == calls[..i];
  }

  /** Position of the last successful login before the i-th caller, or -1. */
  function LastLogin(calls: seq<Call>, i: nat): (r: int)
    requires i <= |calls|
    ensures -1 <= r < i && (r >= 0 ==> LogsIn(calls, r))
    ensures forall j :: r < j < i ==> !LogsIn(calls, j)
  {
    if i == 0 then -1 else if LogsIn(calls, i - 1) then i - 1 else LastLogin(calls, i - 1)
  }

  /** The memo is always that of the last successful login; failed logins leave it in place. */
  lemma {:induction false} MemoIsLastLogin(calls: seq<Call>, i: nat)
    requires i <= |calls|
    ensures var k := LastLogin(calls, i);
            Found(calls, i) == if k < 0 then NOTHING
                               else Memo(calls[k].reply.token, calls[k].reply.recordedAt + calls[k].reply.lifetime)
    decreases i
  {
    if i > 0 {
      FoundStep(calls, i - 1);
      MemoIsLastLogin(calls, i - 1);
    } else {
      assert calls[..0] == [];
    }
  }

  /** The directory still accepts the token at `t`. */
  predicate Unexpired(r: Reply, t: int)
    requires r.Granted?
  {
    t < r.issuedAt + r.lifetime
  }

  /** A token served from the memo was granted by an earlier login and, if that login's answer was
      recorded at most 30 seconds after the token was issued, it is unexpired when it is served. */
  lemma ServedTokenIsValid(calls: seq<Call>, i: nat)
    requires i < |calls| && AnswerTo(Found(calls, i), calls[i]).Cached?
    ensures var k := LastLogin(calls, i);
            0 <= k < i &&
            AnswerTo(Found(calls, i), calls[i]).token == calls[k].reply.token &&
            (calls[k].reply.recordedAt - calls[k].reply.issuedAt <= MARGIN ==> Unexpired(calls[k].reply, calls[i].at))
  {
    MemoIsLastLogin(calls, i);
  }

  /** In every run each answer carries the token of the last successful login, this caller's own included; a caller
      is told that it logged in exactly if it did, and nothing exactly if there was no usable memo and the login was
      refused. So a caller with no usable memo gets what always logging in would give it. */
  lemma AnswersFollowLogins(calls: seq<Call>, i: nat)
    requires i < |calls|
    ensures var a, k := Answers(NOTHING, calls)[i], LastLogin(calls, i);
            var usable := k >= 0 && calls[k].reply.token != "" &&
                          calls[i].at < calls[k].reply.recordedAt + calls[k].reply.lifetime - 30 * SECOND;
            && (a == Unavailable <==> !usable && calls[i].reply.Refused?)
            && (a.LoggedIn? <==> !usable && calls[i].reply.Granted?)
            && (a.Cached? <==> usable)
            && (a != Unavailable ==>
                  var last := LastLogin(calls, i + 1);
                  last >= 0 && a.token == calls[last].reply.token && (a.LoggedIn? <==> last == i))
  {
    AnswersAt(NOTHING, calls, i);
    MemoIsLastLogin(calls, i);
    MemoIsLastLogin(calls, i + 1);
  }

  /** Exactly when the memo is safe. After any run with a successful login, every next caller from `since` on
      who is served from the memo gets an unexpired token, if and only if the answer to the last successful
      login took at most 30 seconds or the memo is no longer served at `since`; if `since` is the moment that
      answer was recorded, the latter means a lifetime of at most 30 seconds. */
  lemma SafeExactly(calls: seq<Call>, since: int)
    requires var k := LastLogin(calls, |calls|);
             k >= 0 && Plausible(calls[k]) && since >= calls[k].reply.recordedAt
    ensures var last := calls[LastLogin(calls, |calls|)].reply;
            && ((forall next: Call ::
                   next.at >= since && AnswerTo(Found(calls, |calls|), next).Cached? ==> Unexpired(last, next.at)) <==>
                last.recordedAt - last.issuedAt <= 30 * SECOND ||
                since >= last.recordedAt + last.lifetime - 30 * SECOND)
            && (since == last.recordedAt ==>
                (since >= last.recordedAt + last.lifetime - 30 * SECOND <==> last.lifetime <= 30 * SECOND))
  {
    var last := calls[LastLogin(calls, |calls|)].reply;
    MemoIsLastLogin(calls, |calls|);
    if last.recordedAt - last.issuedAt > MARGIN && since < last.recordedAt + last.lifetime - MARGIN {
      var t := if since < last.issuedAt + last.lifetime then last.issuedAt + last.lifetime else since;
      var next := Call(t, Refused(t));
      assert AnswerTo(Found(calls, |calls|), next).Cached? && !Unexpired(last, next.at);
    }
  }

  // ---------- How often it logs in ----------

  /** The next successful login begins no earlier than the recorded expiry of the last, less the margin. */
  lemma LoginsAreSpaced(calls: seq<Call>, i: nat)
    requires i < |calls| && LogsIn(calls, i) && LastLogin(calls, i) >= 0
    requires forall j :: 0 <= j < |calls| ==> Plausible(calls[j])
    ensures var last := calls[LastLogin(calls, i)].reply; calls[i].at >= last.recordedAt + last.lifetime - MARGIN
  {
    MemoIsLastLogin(calls, i);
    assert Plausible(calls[LastLogin(calls, i)]);
  }

  /** When the successful logins of the first i callers began, in order. */
  function LoginStarts(calls: seq<Call>, i: nat): seq<int>
    requires i <= |calls|
  {
    if i == 0 then [] else LoginStarts(calls, i - 1) + if LogsIn(calls, i - 1) then [calls[i - 1].at] else []
  }

  lemma {:induction false} LastStart(calls: seq<Call>, i: nat)
    requires i <= |calls|
    ensures var k, starts := LastLogin(calls, i), LoginStarts(calls, i);
            if k < 0 then starts == [] else starts != [] && starts[|starts| - 1] == calls[k].at
    decreases i
  {
    if i > 0 {
      LastStart(calls, i - 1);
    }
  }

  /** `n` gaps in a row. */
  function Gaps(n: nat, gap: int): int {
    if n == 0 then 0 else Gaps(n - 1, gap) + gap
  }

  lemma {:induction false} GapsMultiply(n: nat, gap: int)
    ensures Gaps(n, gap) == n * gap
    decreases n
  {
    if n > 0 {
      GapsMultiply(n - 1, gap);
      assert n * gap == (n - 1) * gap + gap;
    }
  }

  /** The grants of a run last at least `e`, and every call is plausible. */
  ghost predicate Lasting(calls: seq<Call>, e: int) {
    forall j :: 0 <= j < |calls| ==> Plausible(calls[j]) && (calls[j].reply.Granted? ==> calls[j].reply.lifetime >= e)
  }

  predicate Spaced(starts: seq<int>, gap: int) {
    forall m :: 0 < m < |starts| ==> starts[m] >= starts[m - 1] + gap
  }

  /** Each further login begins at least one gap after the one before, a gap being the lifetime less
      the margin. */
  lemma NextLoginStart(calls: seq<Call>, i: nat, gap: int)
    requires i < |calls| && LogsIn(calls, i) && LastLogin(calls, i) >= 0 && Lasting(calls, gap + MARGIN)
    ensures calls[i].at >= calls[LastLogin(calls, i)].at + gap
  {
    LoginsAreSpaced(calls, i);
    assert Plausible(calls[LastLogin(calls, i)]);
  }

  lemma {:induction false} StartsAreSpaced(calls: seq<Call>, i: nat, gap: int)
    requires i <= |calls| && Lasting(calls, gap + MARGIN)
    ensures Spaced(LoginStarts(calls, i), gap)
    decreases i
  {
    if i > 0 {
      StartsAreSpaced(calls, i - 1, gap);
      LastStart(calls, i - 1);
      if LogsIn(calls, i - 1) && LastLogin(calls, i - 1) >= 0 {
        NextLoginStart(calls, i - 1, gap);
      }
    }
  }

  lemma {:induction false} StartsAreCalls(calls: seq<Call>, i: nat, from: int, to: int)
    requires i <= |calls| && forall j :: 0 <= j < |calls| ==> from <= calls[j].at <= to
    ensures forall m :: 0 <= m < |LoginStarts(calls, i)| ==> from <= LoginStarts(calls, i)[m] <= to
    decreases i
  {
    if i > 0 {
      StartsAreCalls(calls, i - 1, from, to);
    }
  }

  lemma {:induction false} SpacedTakesTime(starts: seq<int>, gap: int)
    requires starts != [] && Spaced(starts, gap)
    ensures Gaps(|starts| - 1, gap) <= starts[|starts| - 1] - starts[0]
    decreases |starts|
  {
    if |starts| > 1 {
      SpacedTakesTime(starts[..|starts| - 1], gap);
    }
  }

  /** A run of `window` seconds, with any number of callers, has n successful logins with
      (n - 1) * (e - 30) <= window, if every granted lifetime is at least e. */
  lemma LoginRate(calls: seq<Call>, e: int, window: nat, n: nat, gap: int)
    requires Lasting(calls, e) && n == |LoginStarts(calls, |calls|)| && n >= 1 && gap == e - 30 * SECOND
    requires forall j :: 0 <= j < |calls| ==> calls[0].at <= calls[j].at <= calls[0].at + window
    ensures (n - 1) * gap <= window
  {
    var starts := LoginStarts(calls, |calls|);
    StartsAreSpaced(calls, |calls|, gap);
    StartsAreCalls(calls, |calls|, calls[0].at, calls[0].at + window);
    SpacedTakesTime(starts, gap);
    GapsMultiply(n - 1, gap);
  }
}
