/** What each request is answered and what it changes, case by case, read off the request, the answers of the
    outside world and the store alone. */
module Requests {
  import opened Wrappers
  import opened Keys
  import opened TypedStore
  import opened Protocol
  import Text

  // ---------- Sending a code ----------

  /** The address must be unknown for a registration or a change of address, and known for a forgotten
      password. Then a code is generated, stored and mailed, in this order, and the first of these to fail
      decides the answer. */
  lemma SendOutcome(w: World, p: Purpose, email: string, e: SendEnv)
    ensures var out := Step(w, SendOTP(p, email, e)).1;
            var refused := (p == Forgot && e.lookup == None) || (p in {Register, ChangeEmail} && e.lookup != None);
            && (out == AddressRefused <==> refused)
            && (out == CannotGenerate <==> !refused && e.generateFails)
            && (out == CannotStore <==> !refused && !e.generateFails && e.store != Acknowledged)
            && (out == CannotMail <==> !refused && !e.generateFails && e.store == Acknowledged && e.mailFails)
            && (out == Done <==> !refused && !e.generateFails && e.store == Acknowledged && !e.mailFails)
  {
  }

  /** The draw's code is stored for that purpose and normalised address with its counter at zero, for a minute if
      it is for a registration and else for ten, exactly if the address was fit, a code was generated and the
      write was not lost. Otherwise nothing changes. */
  lemma SendEffect(w: World, p: Purpose, email: string, e: SendEnv)
    ensures var w' := Step(w, SendOTP(p, email, e)).0;
            var fit := if p == Forgot then e.lookup != None else e.lookup == None;
            var slot, code := Slot(p, Text.Normalise(email)), Text.CodeOf(e.draw);
            var life := if p == Register then 60 * SECOND else 600 * SECOND;
            if fit && !e.generateFails && e.store != Lost then
              w' == World(w.now, w.db.(otps := w.db.otps[slot := Timed(OtpData(code, 0), w.now + life)]),
                          w.log + [CodeStored(slot, code, w.now)])
            else w' == w
  {
  }

  // ---------- Checking a code ----------

  /** The code of the slot as it can be read: stored and not yet at its expiry. */
  predicate Readable(w: World, slot: Slot) {
    slot in w.db.otps && w.now < w.db.otps[slot].expiry
  }

  /** The request's code, trimmed, is the stored one, which is readable and has fewer than five wrong guesses
      counted. */
  predicate Right(w: World, req: VerifyRequest, e: VerifyEnv) {
    var slot := Slot(req.purpose, Text.Normalise(req.email));
    !e.faults.read && Readable(w, slot) && w.db.otps[slot].value.retry < 5 &&
    w.db.otps[slot].value.code == Text.TrimSpace(req.otp)
  }

  /** How a check of a code fails, and that it fails in no other case. */
  lemma CheckOutcome(w: World, req: VerifyRequest, userID: string, e: VerifyEnv)
    ensures var out := Step(w, VerifyOTP(req, userID, e)).1;
            var slot := Slot(req.purpose, Text.Normalise(req.email));
            && (out == CodeFailed(Unreadable) <==> e.faults.read)
            && (out == CodeFailed(Missing) <==> !e.faults.read && !Readable(w, slot))
            && (!out.CodeFailed? <==> Right(w, req, e))
            && (Readable(w, slot) && !e.faults.read ==>
                  var retry := w.db.otps[slot].value.retry;
                  var wrong := w.db.otps[slot].value.code != Text.TrimSpace(req.otp);
                  && (out == CodeFailed(LockedOut) <==> retry >= 5)
                  && (out == CodeFailed(LastGuess) <==> retry == 4 && wrong)
                  && (out == CodeFailed(WrongGuess) <==> retry < 4 && wrong))
  {
  }

  /** What a failed check changes: a wrong guess raises the counter by one and keeps code and expiry, the fifth one
      and a refusal before the comparison delete the code, each unless that operation has no effect. */
  lemma FailedCheckEffect(w: World, req: VerifyRequest, userID: string, e: VerifyEnv)
    requires Step(w, VerifyOTP(req, userID, e)).1.CodeFailed?
    ensures var (w', out) := Step(w, VerifyOTP(req, userID, e));
            var slot := Slot(req.purpose, Text.Normalise(req.email));
            && (out.verdict == Unreadable || out.verdict == Missing ==> w' == w)
            && (out.verdict in {LockedOut, LastGuess, WrongGuess} ==>
                  slot in w.db.otps &&
                  var t := w.db.otps[slot];
                  var raised := if e.faults.increment then w.db.otps
                                else w.db.otps[slot := Timed(OtpData(t.value.code, t.value.retry + 1), t.expiry)];
                  var otps := if out.verdict == LockedOut then w.db.otps else raised;
                  && w'.now == w.now
                  && w'.db == w.db.(otps := if out.verdict == WrongGuess || e.faults.delete then otps
                                            else otps - {slot})
                  && w'.log == w.log + [if out.verdict == LockedOut then CodeLocked(slot, w.now, !e.faults.delete)
                                        else if out.verdict == LastGuess then
                                          CodeRefused(slot, w.now, !e.faults.increment, true, !e.faults.delete)
                                        else CodeRefused(slot, w.now, !e.faults.increment, false, false)])
  {
    assert w.log + [] == w.log;
  }

  /** A right code is deleted, unless that has no effect, before anything else happens, and the log says so. */
  function AfterRight(w: World, req: VerifyRequest, e: VerifyEnv): World {
    var slot := Slot(req.purpose, Text.Normalise(req.email));
    World(w.now, w.db.(otps := if e.faults.delete then w.db.otps else w.db.otps - {slot}),
          w.log + [CodeAccepted(slot, Text.TrimSpace(req.otp), w.now, !e.faults.delete)])
  }

  // ---------- After a right code ----------

  /** A change of address: the caller's own entry gets the normalised address the code was sent to. */
  lemma ChangeEmailRequest(w: World, req: VerifyRequest, userID: string, e: VerifyEnv)
    requires req.purpose == ChangeEmail && Right(w, req, e)
    ensures var (w', out) := Step(w, VerifyOTP(req, userID, e)); var w1 := AfterRight(w, req, e);
            if userID == "" then out == Unauthorised && w' == w1
            else if e.update == WriteFailed || e.update == Written then
              && w'.db == w1.db && w'.now == w.now
              && w'.log == w1.log + [EmailUpdated(userID, Text.Normalise(req.email), w.now, e.update == Written)]
              && (out == Done <==> e.update == Written) && (out == NotUpdated(WriteFailed) <==> e.update == WriteFailed)
            else out == NotUpdated(e.update) && w' == w1
  {
    var w1 := AfterRight(w, req, e);
    assert w1.log + [] == w1.log;
  }

  /** A forgotten password: if the lookup finds a user, the log says so, and a token for that user and address is
      stored for ten minutes unless the write is lost; the caller gets exactly that token if it is acknowledged. */
  lemma ForgotRequest(w: World, req: VerifyRequest, userID: string, e: VerifyEnv)
    requires req.purpose == Forgot && Right(w, req, e)
    ensures var (w', out) := Step(w, VerifyOTP(req, userID, e)); var w1 := AfterRight(w, req, e);
            var id := Text.Normalise(req.email);
            if e.lookup == None then out == EmailUnknown && w' == w1
            else
              var data := ResetTokenData(id, e.lookup.value);
              var found := w1.log + [UserFound(id, e.lookup.value, w.now)];
              && out == (if e.store == Acknowledged then Issued(e.token) else NoToken)
              && w' == (if e.store == Lost then w1.(log := found)
                        else World(w.now, w1.db.(resets := w1.db.resets[e.token := Timed(data, w.now + 600 * SECOND)]),
                                   found + [TokenIssued(e.token, data, w.now)]))
  {
  }

  /** Somebody's registration lock for the address has not run out. */
  predicate LockHeld(w: World, id: string) {
    id in w.db.locks && w.now < w.db.locks[id].expiry
  }

  /** How a registration ends. */
  lemma RegisterOutcome(w: World, req: VerifyRequest, userID: string, e: VerifyEnv)
    requires req.purpose == Register && Right(w, req, e)
    ensures var out := Step(w, VerifyOTP(req, userID, e)).1; var id := Text.Normalise(req.email);
            var blank, short := Text.TrimSpace(req.username) == "", |req.password| < 8;
            && (out == UsernameRequired <==> blank)
            && (out == PasswordTooShort <==> !blank && short)
            && (out == LockUnavailable <==> !blank && !short && e.lock != Acknowledged)
            && (out == InProgress <==> !blank && !short && e.lock == Acknowledged && LockHeld(w, id))
            && (!blank && !short && e.lock == Acknowledged && !LockHeld(w, id) ==>
                  out == if e.registration == Registered then Done else NotRegistered(e.registration))
  {
  }

  /** What it changes. A user with that verified address is created exactly if the request got as far as creating
      and that took effect; the lock is taken for 30 seconds, and given back only after a failed registration. */
  lemma RegisterEffect(w: World, req: VerifyRequest, userID: string, e: VerifyEnv)
    requires req.purpose == Register && Right(w, req, e)
    ensures var w', w1 := Step(w, VerifyOTP(req, userID, e)).0, AfterRight(w, req, e);
            var id := Text.Normalise(req.email);
            var won := w1.db.(locks := w1.db.locks[id := Timed("1", w.now + 30 * SECOND)]);
            var refused := Text.TrimSpace(req.username) == "" || |req.password| < 8;
            if refused || e.lock == Lost || LockHeld(w, id) then w' == w1
            else if e.lock == Unanswered then w' == w1.(db := won)
            else
              && w'.now == w.now
              && w'.log == w1.log + (if e.registration in {CreateUnanswered, PasswordFailed, LoginFailed, Registered}
                                     then [UserCreated(id, w.now)] else [])
              && w'.db == if e.registration == Registered || e.unlockFails then won
                          else won.(locks := won.locks - {id})
  {
    assert AfterRight(w, req, e).log + [] == AfterRight(w, req, e).log;
  }

  // ---------- Resetting a password ----------

  predicate TokenReadable(w: World, token: string) {
    token in w.db.resets && w.now < w.db.resets[token].expiry
  }

  /** A readable token is spent before the password of its user is set, and `Done` means that it was set. */
  lemma ResetRequest(w: World, token: string, e: ResetEnv)
    ensures var (w', out) := Step(w, ResetPassword(token, e));
            if e.readFails || !TokenReadable(w, token) then out == TokenInvalid && w' == w
            else
              var data := w.db.resets[token].value;
              && out == (if e.adminFails || e.writeFails then PasswordNotSet else Done)
              && w'.now == w.now
              && w'.db == w.db.(resets := if e.deleteFails then w.db.resets else w.db.resets - {token})
              && w'.log == w.log + [TokenSpent(token, data, w.now, !e.deleteFails)] +
                           (if e.adminFails then [] else [PasswordSet(data.userID, w.now, !e.writeFails)])
  {
  }

  // ---------- Social login ----------

  /** For one of the three providers the state is stored with exactly that provider, for ten minutes, unless the
      write is lost; for any other nothing is stored. */
  lemma LoginURLRequest(w: World, provider: string, state: string, stored: Write)
    ensures var (w', out) := Step(w, SocialLoginURL(provider, state, stored));
            var allowed := provider in {"google", "facebook", "github"};
            && (out == ProviderRefused <==> !allowed)
            && (out == Done <==> allowed && stored == Acknowledged)
            && (out == StateNotStored <==> allowed && stored != Acknowledged)
            && (allowed && stored != Lost ==>
                  w' == World(w.now, w.db.(states := w.db.states[state := Timed(provider, w.now + 600 * SECOND)]),
                              w.log + [StateIssued(state, provider, w.now)]))
            && (!allowed || stored == Lost ==> w' == w)
  {
  }

  predicate StateReadable(w: World, state: string) {
    state in w.db.states && w.now < w.db.states[state].expiry
  }

  /** A readable state is deleted before the token endpoint is called; the caller is logged in exactly if that
      answers with tokens, and the stored provider's login is announced exactly if there is a producer too. */
  lemma ExchangeRequest(w: World, state: string, e: ExchangeEnv)
    ensures var (w', out) := Step(w, ExchangeCode(state, e));
            && (out == StateMissing <==> state == "")
            && (out == StateInvalid <==> state != "" && (e.readFails || !StateReadable(w, state)))
            && (out == StateMissing || out == StateInvalid ==> w' == w)
            && (state != "" && !e.readFails && StateReadable(w, state) ==>
                  var provider := w.db.states[state].value;
                  && out == (if e.post == Tokens then Done else NotExchanged(e.post))
                  && w'.now == w.now
                  && w'.db == w.db.(states := if e.deleteFails then w.db.states else w.db.states - {state})
                  && w'.log == w.log + [StateSpent(state, provider, w.now, !e.deleteFails)] +
                               [CodeExchanged(state, w.now)] +
                               (if e.post == Tokens && e.producer then [LoginAnnounced(state, provider, w.now)]
                                else []))
  {
  }
}
