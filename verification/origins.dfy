/** Where everything a run does to the directory and everything it announces comes from: which earlier requests,
    with which arguments and which answers of the outside world. */
module Origins {
  import opened Wrappers
  import opened Keys
  import opened TypedStore
  import opened Protocol
  import opened Requests
  import Text

  /** The world before call n of a run. */
  function Before(now: int, calls: seq<Call>, n: nat): World
    requires n <= |calls|
  {
    Run(Fresh(now), calls[..n])
  }

  lemma {:induction false} RunSnoc(w: World, calls: seq<Call>, c: Call)
    ensures Run(w, calls + [c]) == Step(Run(w, calls), c).0
    decreases |calls|
  {
    if calls == [] {
      assert [c][1..] == [];
      assert calls + [c] == [c];
    } else {
      RunSnoc(Step(w, calls[0]).0, calls[1..], c);
      assert (calls + [c])[1..] == calls[1..] + [c];
    }
  }

  lemma NextWorld(now: int, calls: seq<Call>, n: nat)
    requires n < |calls|
    ensures Before(now, calls, n + 1) == Step(Before(now, calls, n), calls[n]).0
  {
    RunSnoc(Fresh(now), calls[..n], calls[n]);
    assert calls[..n + 1] == calls[..n] + [calls[n]];
  }

  // ---------- The call an event stems from ----------

  lemma StepExtendsLog(w: World, c: Call)
    ensures w.log <= Step(w, c).0.log && w.now <= Step(w, c).0.now
  {
  }

  /** Call m added event i. */
  ghost predicate Adds(now: int, calls: seq<Call>, m: nat, i: nat) {
    m < |calls| && |Before(now, calls, m).log| <= i < |Step(Before(now, calls, m), calls[m]).0.log|
  }

  lemma {:induction false} EventHasCall(now: int, calls: seq<Call>, n: nat, i: nat) returns (m: nat)
    requires n <= |calls| && i < |Before(now, calls, n).log|
    ensures m < n && Adds(now, calls, m, i)
    ensures Step(Before(now, calls, m), calls[m]).0.log[i] == Before(now, calls, n).log[i]
    decreases n
  {
    if n > 0 {
      NextWorld(now, calls, n - 1);
      StepExtendsLog(Before(now, calls, n - 1), calls[n - 1]);
      m := n - 1;
      if i < |Before(now, calls, n - 1).log| {
        m := EventHasCall(now, calls, n - 1, i);
      }
    }
  }

  // ---------- The call that wrote what is under a key ----------

  /** Call j put something under the key. */
  predicate Puts(now: int, calls: seq<Call>, j: nat, k: Key)
    requires j < |calls|
  {
    match calls[j]
    case SendOTP(p, email, e) =>
      k == OtpKey(Slot(p, Text.Normalise(email))) && (if p == Forgot then e.lookup != None else e.lookup == None) &&
      !e.generateFails && e.store != Lost
    case VerifyOTP(req, _, e) =>
      k == ResetKey(e.token) && req.purpose == Forgot && Right(Before(now, calls, j), req, e) && e.lookup != None &&
      e.store != Lost
    case SocialLoginURL(provider, state, stored) =>
      k == StateKey(state) && provider in {"google", "facebook", "github"} && stored != Lost
    case _ => false
  }

  /** The last call before call n that did, or -1. */
  function LastPut(now: int, calls: seq<Call>, n: nat, k: Key): (j: int)
    requires n <= |calls|
    ensures -1 <= j < n && (j >= 0 ==> Puts(now, calls, j, k))
    ensures forall i :: j < i < n ==> !Puts(now, calls, i, k)
  {
    if n == 0 then -1 else if Puts(now, calls, n - 1, k) then n - 1 else LastPut(now, calls, n - 1, k)
  }

  /** What is stored under the key is what the last such call put there, but for a counter. */
  ghost predicate FromLastPut(now: int, calls: seq<Call>, n: nat, k: Key)
    requires n <= |calls|
  {
    var db, j := Before(now, calls, n).db, LastPut(now, calls, n, k);
    match k
    case OtpKey(slot) => slot in db.otps ==> j >= 0 && CodeOfCall(now, calls, j, slot, db.otps[slot])
    case ResetKey(token) => token in db.resets ==> j >= 0 && TokenOfCall(now, calls, j, db.resets[token])
    case StateKey(state) => state in db.states ==> j >= 0 && StateOfCall(now, calls, j, db.states[state])
    case LockKey(_) => true
  }

  predicate CodeOfCall(now: int, calls: seq<Call>, j: nat, slot: Slot, t: Timed<OtpData>)
    requires j < |calls|
  {
    calls[j].SendOTP? && t.value.code == Text.CodeOf(calls[j].send.draw) &&
    t.expiry == Before(now, calls, j).now + if slot.purpose == Register then 60 * SECOND else 600 * SECOND
  }

  predicate TokenOfCall(now: int, calls: seq<Call>, j: nat, t: Timed<ResetTokenData>)
    requires j < |calls|
  {
    calls[j].VerifyOTP? && calls[j].verify.lookup == Some(t.value.userID) &&
    t.value.email == Text.Normalise(calls[j].req.email) && t.expiry == Before(now, calls, j).now + 600 * SECOND
  }

  predicate StateOfCall(now: int, calls: seq<Call>, j: nat, t: Timed<string>)
    requires j < |calls|
  {
    calls[j].SocialLoginURL? && t == Timed(calls[j].provider, Before(now, calls, j).now + 600 * SECOND)
  }

  /** What the key holds afterwards it held before, but for a counter. */
  ghost predicate Keeps(before: Store, after: Store, k: Key) {
    match k
    case OtpKey(slot) =>
      slot in after.otps ==> slot in before.otps && after.otps[slot].value.code == before.otps[slot].value.code &&
                             after.otps[slot].expiry == before.otps[slot].expiry
    case ResetKey(t) => t in after.resets ==> t in before.resets && after.resets[t] == before.resets[t]
    case StateKey(s) => s in after.states ==> s in before.states && after.states[s] == before.states[s]
    case LockKey(_) => true
  }

  lemma VerifyKeeps(w: World, req: VerifyRequest, userID: string, e: VerifyEnv, k: Key)
    requires k == ResetKey(e.token) ==>
               !(req.purpose == Forgot && Right(w, req, e) && e.lookup != None && e.store != Lost)
    ensures Keeps(w.db, Step(w, VerifyOTP(req, userID, e)).0.db, k)
  {
    CheckOutcome(w, req, userID, e);
    if !Right(w, req, e) {
      FailedCheckEffect(w, req, userID, e);
    } else {
      match req.purpose
      case Register => RegisterEffect(w, req, userID, e);
      case Forgot => ForgotRequest(w, req, userID, e);
      case ChangeEmail => ChangeEmailRequest(w, req, userID, e);
    }
  }

  lemma CallKeeps(now: int, calls: seq<Call>, n: nat, k: Key)
    requires n < |calls| && !Puts(now, calls, n, k)
    ensures Keeps(Before(now, calls, n).db, Step(Before(now, calls, n), calls[n]).0.db, k)
  {
    var w := Before(now, calls, n);
    match calls[n]
    case Wait(_) =>
    case SendOTP(p, email, e) => SendEffect(w, p, email, e);
    case VerifyOTP(req, userID, e) => VerifyKeeps(w, req, userID, e, k);
    case ResetPassword(token, e) => ResetRequest(w, token, e);
    case SocialLoginURL(provider, state, stored) => LoginURLRequest(w, provider, state, stored);
    case ExchangeCode(state, e) => ExchangeRequest(w, state, e);
  }

  lemma CallPuts(now: int, calls: seq<Call>, n: nat, k: Key)
    requires n < |calls| && Puts(now, calls, n, k)
    ensures FromLastPut(now, calls, n + 1, k)
  {
    var w := Before(now, calls, n);
    NextWorld(now, calls, n);
    assert LastPut(now, calls, n + 1, k) == n;
    match calls[n]
    case SendOTP(p, email, e) => SendEffect(w, p, email, e);
    case VerifyOTP(req, userID, e) => ForgotRequest(w, req, userID, e);
    case SocialLoginURL(provider, state, stored) => LoginURLRequest(w, provider, state, stored);
  }

  /** In every run, whatever is stored under a key is what the last request that wrote there put there. */
  lemma {:induction false} StoredByLastPut(now: int, calls: seq<Call>, n: nat, k: Key)
    requires n <= |calls|
    ensures FromLastPut(now, calls, n, k)
    decreases n
  {
    if n == 0 {
      assert calls[..0] == [];
    } else if Puts(now, calls, n - 1, k) {
      CallPuts(now, calls, n - 1, k);
    } else {
      NextWorld(now, calls, n - 1);
      StoredByLastPut(now, calls, n - 1, k);
      CallKeeps(now, calls, n - 1, k);
    }
  }

  // ---------- What each call adds to the log ----------

  /** The effects on the directory, and the announcement, that a call may have. */
  ghost predicate Warranted(w: World, c: Call, ev: Event) {
    match ev
    case UserCreated(email, at) =>
      c.VerifyOTP? && c.req.purpose == Register && Right(w, c.req, c.verify) && at == w.now &&
      email == Text.Normalise(c.req.email) && Text.TrimSpace(c.req.username) != "" && |c.req.password| >= 8
    case EmailUpdated(userID, email, at, ok) =>
      c.VerifyOTP? && c.req.purpose == ChangeEmail && Right(w, c.req, c.verify) && at == w.now &&
      email == Text.Normalise(c.req.email) && userID == c.userID != "" && ok == (c.verify.update == Written)
    case PasswordSet(userID, at, ok) =>
      c.ResetPassword? && TokenReadable(w, c.token) && userID == w.db.resets[c.token].value.userID && at == w.now &&
      ok == !c.reset.writeFails
    case LoginAnnounced(state, provider, at) =>
      c.ExchangeCode? && c.state == state && StateReadable(w, state) && provider == w.db.states[state].value &&
      at == w.now && c.exchange.post == Tokens && c.exchange.producer
    case _ => true
  }

  lemma VerifyIsWarranted(w: World, c: Call, i: nat)
    requires c.VerifyOTP? && |w.log| <= i < |Step(w, c).0.log|
    ensures Warranted(w, c, Step(w, c).0.log[i])
  {
    CheckOutcome(w, c.req, c.userID, c.verify);
    if !Right(w, c.req, c.verify) {
      FailedCheckEffect(w, c.req, c.userID, c.verify);
    } else {
      match c.req.purpose
      case Register => RegisterEffect(w, c.req, c.userID, c.verify);
      case Forgot => ForgotRequest(w, c.req, c.userID, c.verify);
      case ChangeEmail => ChangeEmailRequest(w, c.req, c.userID, c.verify);
    }
  }

  lemma NewEventIsWarranted(w: World, c: Call, i: nat)
    requires |w.log| <= i < |Step(w, c).0.log|
    ensures Warranted(w, c, Step(w, c).0.log[i])
  {
    match c
    case Wait(_) =>
    case SendOTP(p, email, e) => SendEffect(w, p, email, e);
    case VerifyOTP(_, _, _) => VerifyIsWarranted(w, c, i);
    case ResetPassword(token, e) => ResetRequest(w, token, e);
    case SocialLoginURL(provider, state, stored) => LoginURLRequest(w, provider, state, stored);
    case ExchangeCode(state, e) => ExchangeRequest(w, state, e);
  }

  lemma EventIsWarranted(now: int, calls: seq<Call>, i: nat) returns (m: nat)
    requires i < |Run(Fresh(now), calls).log|
    ensures Adds(now, calls, m, i) && Warranted(Before(now, calls, m), calls[m], Run(Fresh(now), calls).log[i])
  {
    assert calls[..|calls|] == calls;
    m := EventHasCall(now, calls, |calls|, i);
    NewEventIsWarranted(Before(now, calls, m), calls[m], i);
  }

  // ---------- The requests behind it all ----------

  /** Call m presents the code of the last call before it that sent one for that purpose and address, in time. */
  ghost predicate PresentsCode(now: int, calls: seq<Call>, m: nat, p: Purpose, id: string) {
    m < |calls| && calls[m].VerifyOTP? && calls[m].req.purpose == p && Text.Normalise(calls[m].req.email) == id &&
    var s := LastPut(now, calls, m, OtpKey(Slot(p, id)));
    s >= 0 && calls[s].SendOTP? && calls[s].purpose == p && Text.Normalise(calls[s].email) == id &&
    Text.TrimSpace(calls[m].req.otp) == Text.CodeOf(calls[s].send.draw) &&
    Before(now, calls, m).now < Before(now, calls, s).now + if p == Register then 60 * SECOND else 600 * SECOND
  }

  lemma RightPresentsCode(now: int, calls: seq<Call>, m: nat)
    requires m < |calls| && calls[m].VerifyOTP? && Right(Before(now, calls, m), calls[m].req, calls[m].verify)
    ensures PresentsCode(now, calls, m, calls[m].req.purpose, Text.Normalise(calls[m].req.email))
  {
    StoredByLastPut(now, calls, m, OtpKey(Slot(calls[m].req.purpose, Text.Normalise(calls[m].req.email))));
  }

  /** Every change of an address is the request of a known caller for its own account and for that address, presenting
      the code last sent to that address for this purpose less than ten minutes ago. */
  lemma EmailUpdateWasRequested(now: int, calls: seq<Call>, i: nat)
    requires var log := Run(Fresh(now), calls).log; i < |log| && log[i].EmailUpdated?
    ensures var ev := Run(Fresh(now), calls).log[i];
            exists m: nat :: Adds(now, calls, m, i) && PresentsCode(now, calls, m, ChangeEmail, ev.email) &&
                             calls[m].userID == ev.userID != "" && ev.at == Before(now, calls, m).now &&
                             ev.ok == (calls[m].verify.update == Written)
  {
    var m := EventIsWarranted(now, calls, i);
    RightPresentsCode(now, calls, m);
  }

  /** Every verified user created is the request of somebody who chose a user name and a password of eight characters
      or more and presented the code last sent to that address for a registration less than a minute ago. */
  lemma CreationWasRequested(now: int, calls: seq<Call>, i: nat)
    requires var log := Run(Fresh(now), calls).log; i < |log| && log[i].UserCreated?
    ensures var ev := Run(Fresh(now), calls).log[i];
            exists m: nat :: Adds(now, calls, m, i) && PresentsCode(now, calls, m, Register, ev.email) &&
                             ev.at == Before(now, calls, m).now &&
                             Text.TrimSpace(calls[m].req.username) != "" && |calls[m].req.password| >= 8
  {
    var m := EventIsWarranted(now, calls, i);
    RightPresentsCode(now, calls, m);
  }

  /** Call v issued the token that call m spends, less than ten minutes before, and v presented the code last sent to
      an address under which the lookup found the user. */
  ghost predicate ResetsFor(now: int, calls: seq<Call>, m: nat, userID: string) {
    m < |calls| && calls[m].ResetPassword? &&
    var v := LastPut(now, calls, m, ResetKey(calls[m].token));
    v >= 0 && calls[v].VerifyOTP? && PresentsCode(now, calls, v, Forgot, Text.Normalise(calls[v].req.email)) &&
    calls[v].verify.token == calls[m].token && calls[v].verify.lookup == Some(userID) &&
    Before(now, calls, m).now < Before(now, calls, v).now + 600 * SECOND
  }

  /** Every password set is the request of somebody with the token last issued under its name, to whoever presented
      the code last sent to an address of that user; each within ten minutes. */
  lemma ResetWasRequested(now: int, calls: seq<Call>, i: nat)
    requires var log := Run(Fresh(now), calls).log; i < |log| && log[i].PasswordSet?
    ensures var ev := Run(Fresh(now), calls).log[i];
            exists m: nat :: Adds(now, calls, m, i) && ResetsFor(now, calls, m, ev.userID) &&
                             ev.at == Before(now, calls, m).now && ev.ok == !calls[m].reset.writeFails
  {
    var m := EventIsWarranted(now, calls, i);
    StoredByLastPut(now, calls, m, ResetKey(calls[m].token));
    var v := LastPut(now, calls, m, ResetKey(calls[m].token));
    RightPresentsCode(now, calls, v);
    assert ResetsFor(now, calls, m, Run(Fresh(now), calls).log[i].userID);
  }

  /** Call m redeems the state that was last issued under its name less than ten minutes ago, for that provider. */
  ghost predicate RedeemsFor(now: int, calls: seq<Call>, m: nat, state: string, provider: string) {
    m < |calls| && calls[m].ExchangeCode? && calls[m].state == state &&
    var j := LastPut(now, calls, m, StateKey(state));
    j >= 0 && calls[j].SocialLoginURL? && calls[j].state == state && calls[j].provider == provider &&
    provider in {"google", "facebook", "github"} &&
    Before(now, calls, m).now < Before(now, calls, j).now + 600 * SECOND
  }

  /** Every login announced names the provider that was asked for when the redeemed state was last issued. */
  lemma AnnouncedProviderWasRequested(now: int, calls: seq<Call>, i: nat)
    requires var log := Run(Fresh(now), calls).log; i < |log| && log[i].LoginAnnounced?
    ensures var ev := Run(Fresh(now), calls).log[i];
            exists m: nat :: Adds(now, calls, m, i) && RedeemsFor(now, calls, m, ev.state, ev.provider) &&
                             ev.at == Before(now, calls, m).now && calls[m].exchange.post == Tokens
  {
    var m := EventIsWarranted(now, calls, i);
    var ev := Run(Fresh(now), calls).log[i];
    StoredByLastPut(now, calls, m, StateKey(ev.state));
    assert RedeemsFor(now, calls, m, ev.state, ev.provider);
  }
}
