/** In every run the store is exactly what the log says it is, and every logged event is
    justified by the events before it. */
module Invariant {
  import Text
  import opened Keys
  import opened TypedStore
  import opened Protocol
  import opened History

  /** The codes in the store are the standing ones, each with its counted wrong guesses. */
  ghost predicate CodesMatch(otps: map<Slot, Timed<OtpData>>, log: Log) {
    forall slot :: CodeMatches(otps, log, slot)
  }

  ghost predicate CodeMatches(otps: map<Slot, Timed<OtpData>>, log: Log, slot: Slot) {
    (slot in otps <==> Standing(log, OtpKey(slot))) &&
    (slot in otps ==>
      var stored := LatestCode(log, slot);
      otps[slot] == Timed(OtpData(stored.code, Counted(log, slot)), stored.at + TtlForPurpose(slot.purpose)))
  }

  ghost predicate TokensMatch(resets: map<string, Timed<ResetTokenData>>, log: Log) {
    forall token :: TokenMatches(resets, log, token)
  }

  ghost predicate TokenMatches(resets: map<string, Timed<ResetTokenData>>, log: Log, token: string) {
    (token in resets <==> Standing(log, ResetKey(token))) &&
    (token in resets ==>
      var issued := log[LastWrite(log, ResetKey(token))];
      resets[token] == Timed(issued.data, issued.at + RESET_TOKEN_TTL))
  }

  ghost predicate StatesMatch(states: map<string, Timed<string>>, log: Log) {
    forall state :: StateMatches(states, log, state)
  }

  ghost predicate StateMatches(states: map<string, Timed<string>>, log: Log, state: string) {
    (state in states <==> Standing(log, StateKey(state))) &&
    (state in states ==>
      var issued := log[LastWrite(log, StateKey(state))];
      states[state] == Timed(issued.provider, issued.at + SOCIAL_STATE_TTL))
  }

  ghost predicate Inv(w: World) {
    && Sound(w.log)
    && (forall i :: 0 <= i < |w.log| ==> w.log[i].at <= w.now)
    && CodesMatch(w.db.otps, w.log)
    && TokensMatch(w.db.resets, w.log)
    && StatesMatch(w.db.states, w.log)
  }

  // ---------- What one event does to the three maps ----------

  function OtpsAfter(otps: map<Slot, Timed<OtpData>>, e: Event): map<Slot, Timed<OtpData>> {
    match e
    case CodeStored(slot, code, at) => otps[slot := Timed(OtpData(code, 0), at + TtlForPurpose(slot.purpose))]
    case CodeAccepted(slot, _, _, deleted) => if deleted then otps - {slot} else otps
    case CodeLocked(slot, _, deleted) => if deleted then otps - {slot} else otps
    case CodeRefused(slot, _, counted, _, deleted) =>
      if deleted then otps - {slot}
      else if counted && slot in otps then
        otps[slot := Timed(OtpData(otps[slot].value.code, otps[slot].value.retry + 1), otps[slot].expiry)]
      else otps
    case _ => otps
  }

  function ResetsAfter(resets: map<string, Timed<ResetTokenData>>, e: Event): map<string, Timed<ResetTokenData>> {
    match e
    case TokenIssued(token, data, at) => resets[token := Timed(data, at + RESET_TOKEN_TTL)]
    case TokenSpent(token, _, _, deleted) => if deleted then resets - {token} else resets
    case _ => resets
  }

  function StatesAfter(states: map<string, Timed<string>>, e: Event): map<string, Timed<string>> {
    match e
    case StateIssued(state, provider, at) => states[state := Timed(provider, at + SOCIAL_STATE_TTL)]
    case StateSpent(state, _, _, deleted) => if deleted then states - {state} else states
    case _ => states
  }

  lemma CodesFollow(otps: map<Slot, Timed<OtpData>>, log: Log, e: Event)
    requires CodesMatch(otps, log)
    ensures CodesMatch(OtpsAfter(otps, e), log + [e])
  {
    forall slot
      ensures CodeMatches(OtpsAfter(otps, e), log + [e], slot)
    {
      assert CodeMatches(otps, log, slot);
      LastWriteAppend(log, e, OtpKey(slot));
      StandingAppend(log, e, OtpKey(slot));
      CountedAppend(log, e, slot);
    }
  }

  lemma TokensFollow(resets: map<string, Timed<ResetTokenData>>, log: Log, e: Event)
    requires TokensMatch(resets, log)
    ensures TokensMatch(ResetsAfter(resets, e), log + [e])
  {
    forall token
      ensures TokenMatches(ResetsAfter(resets, e), log + [e], token)
    {
      assert TokenMatches(resets, log, token);
      LastWriteAppend(log, e, ResetKey(token));
      StandingAppend(log, e, ResetKey(token));
    }
  }

  lemma StatesFollow(states: map<string, Timed<string>>, log: Log, e: Event)
    requires StatesMatch(states, log)
    ensures StatesMatch(StatesAfter(states, e), log + [e])
  {
    forall state
      ensures StateMatches(StatesAfter(states, e), log + [e], state)
    {
      assert StateMatches(states, log, state);
      LastWriteAppend(log, e, StateKey(state));
      StandingAppend(log, e, StateKey(state));
    }
  }

  /** A justified event, with its effect on the store, keeps the invariant. */
  lemma InvAppend(w: World, e: Event, w': World)
    requires Inv(w) && Justified(w.log, e) && e.at == w.now
    requires w'.now == w.now && w'.log == w.log + [e]
    requires w'.db.otps == OtpsAfter(w.db.otps, e)
    requires w'.db.resets == ResetsAfter(w.db.resets, e)
    requires w'.db.states == StatesAfter(w.db.states, e)
    ensures Inv(w')
  {
    SoundAppend(w.log, e);
    CodesFollow(w.db.otps, w.log, e);
    TokensFollow(w.db.resets, w.log, e);
    StatesFollow(w.db.states, w.log, e);
  }

  // ---------- Every step keeps it ----------

  /** What a live code in the store tells about the log. */
  lemma LiveCode(w: World, slot: Slot)
    requires Inv(w) && Live(w.db.otps, slot, w.now).Some?
    ensures DuringCode(w.log, slot, w.now)
    ensures Live(w.db.otps, slot, w.now).value == OtpData(LatestCode(w.log, slot).code, Counted(w.log, slot))
  {
    assert CodeMatches(w.db.otps, w.log, slot);
  }

  /** The one event of a check that got to see a live code. */
  function CheckEvent(slot: Slot, guess: string, now: int, v: Verdict, f: Faults): Event
    requires !v.Missing? && !v.Unreadable?
  {
    CheckEvents(slot, guess, now, v, f)[0]
  }

  lemma CheckJustified(w: World, slot: Slot, guess: string, f: Faults)
    requires Inv(w)
    ensures var v := Check(w, slot, guess, f).1;
            v.Missing? || v.Unreadable? || Justified(w.log, CheckEvent(slot, guess, w.now, v, f))
  {
    if Live(w.db.otps, slot, w.now).Some? {
      LiveCode(w, slot);
    }
  }

  lemma CheckEffect(w: World, slot: Slot, guess: string, f: Faults)
    ensures var (w', v) := Check(w, slot, guess, f);
            && w'.now == w.now && w'.db.resets == w.db.resets && w'.db.states == w.db.states
            && if v.Missing? || v.Unreadable? then w' == w
               else
                 var e := CheckEvent(slot, guess, w.now, v, f);
                 w'.log == w.log + [e] && e.at == w.now && w'.db.otps == OtpsAfter(w.db.otps, e) &&
                 ResetsAfter(w.db.resets, e) == w.db.resets && StatesAfter(w.db.states, e) == w.db.states
  {
    assert w.log + [] == w.log;
  }

  lemma CheckKeepsInv(w: World, slot: Slot, guess: string, f: Faults)
    requires Inv(w)
    ensures Inv(Check(w, slot, guess, f).0)
    ensures Check(w, slot, guess, f).1.Accepted? ==> EndsWithAcceptance(Check(w, slot, guess, f).0.log, slot, w.now)
  {
    var (w', v) := Check(w, slot, guess, f);
    CheckEffect(w, slot, guess, f);
    if !v.Missing? && !v.Unreadable? {
      CheckJustified(w, slot, guess, f);
      InvAppend(w, CheckEvent(slot, guess, w.now, v, f), w');
    }
  }

  /** Events that change nothing in the store. */
  predicate Silent(e: Event) {
    e.UserFound? || e.PasswordSet? || e.UserCreated? || e.EmailUpdated? || e.CodeExchanged? || e.LoginAnnounced?
  }

  lemma InvNote(w: World, e: Event)
    requires Inv(w) && Justified(w.log, e) && e.at == w.now && Silent(e)
    ensures Inv(w.(log := w.log + [e]))
  {
    InvAppend(w, e, w.(log := w.log + [e]));
  }

  /** A world that differs in its locks only. */
  lemma LocksAreFree(w: World, w': World)
    requires Inv(w) && w' == w.(db := w.db.(locks := w'.db.locks))
    ensures Inv(w')
  {
  }

  /** Registering changes locks, and logs at most the creation. */
  lemma AfterRegisterEffect(w: World, id: string, req: VerifyRequest, e: VerifyEnv)
    ensures var w' := AfterRegister(w, id, req, e).0;
            w'.now == w.now && w'.db == w.db.(locks := w'.db.locks) &&
            (w'.log == w.log || w'.log == w.log + [UserCreated(id, w.now)])
  {
    assert w.log + [] == w.log;
  }

  lemma AfterRegisterKeepsInv(w: World, id: string, req: VerifyRequest, e: VerifyEnv)
    requires Inv(w) && EndsWithAcceptance(w.log, Slot(Register, id), w.now)
    ensures Inv(AfterRegister(w, id, req, e).0)
  {
    var w' := AfterRegister(w, id, req, e).0;
    AfterRegisterEffect(w, id, req, e);
    InvNote(w, UserCreated(id, w.now));
    LocksAreFree(w.(log := w'.log), w');
  }

  lemma IssueToken(w: World, token: string, data: ResetTokenData)
    requires Inv(w) && Justified(w.log, TokenIssued(token, data, w.now))
    ensures Inv(w.(db := StoreResetToken(w.db, w.now, token, data), log := w.log + [TokenIssued(token, data, w.now)]))
  {
    var e := TokenIssued(token, data, w.now);
    var w' := w.(db := StoreResetToken(w.db, w.now, token, data), log := w.log + [e]);
    assert w'.db.resets == ResetsAfter(w.db.resets, e) && w'.db.otps == w.db.otps && w'.db.states == w.db.states;
    InvAppend(w, e, w');
  }

  lemma AfterForgotKeepsInv(w: World, id: string, e: VerifyEnv)
    requires Inv(w) && EndsWithAcceptance(w.log, Slot(Forgot, id), w.now)
    ensures Inv(AfterForgot(w, id, e).0)
  {
    if e.lookup.Some? {
      var found := UserFound(id, e.lookup.value, w.now);
      InvNote(w, found);
      IssueToken(w.(log := w.log + [found]), e.token, ResetTokenData(id, e.lookup.value));
    }
  }

  lemma AfterChangeEmailKeepsInv(w: World, userID: string, id: string, e: VerifyEnv)
    requires Inv(w) && EndsWithAcceptance(w.log, Slot(ChangeEmail, id), w.now)
    ensures Inv(AfterChangeEmail(w, userID, id, e).0)
  {
    if userID != "" && e.update.Writes() {
      InvNote(w, EmailUpdated(userID, id, w.now, e.update.Written?));
    } else {
      assert w.log + [] == w.log;
    }
  }

  lemma VerifyKeepsInv(w: World, req: VerifyRequest, userID: string, e: VerifyEnv)
    requires Inv(w)
    ensures Inv(Verify(w, req, userID, e).0)
  {
    var id := Text.Normalise(req.email);
    CheckKeepsInv(w, SlotOf(req), Text.TrimSpace(req.otp), e.faults);
    var (w1, v) := Check(w, SlotOf(req), Text.TrimSpace(req.otp), e.faults);
    if v.Accepted? {
      match req.purpose
      case Register => AfterRegisterKeepsInv(w1, id, req, e);
      case Forgot => AfterForgotKeepsInv(w1, id, e);
      case ChangeEmail => AfterChangeEmailKeepsInv(w1, userID, id, e);
    }
  }

  lemma SpendToken(w: World, token: string, fails: bool)
    requires Inv(w) && Live(w.db.resets, token, w.now).Some?
    ensures var spent := TokenSpent(token, Live(w.db.resets, token, w.now).value, w.now, !fails);
            Inv(w.(db := DeleteResetToken(w.db, token, fails), log := w.log + [spent]))
  {
    assert TokenMatches(w.db.resets, w.log, token);
    var spent := TokenSpent(token, Live(w.db.resets, token, w.now).value, w.now, !fails);
    InvAppend(w, spent, w.(db := DeleteResetToken(w.db, token, fails), log := w.log + [spent]));
  }

  lemma ResetKeepsInv(w: World, token: string, e: ResetEnv)
    requires Inv(w)
    ensures Inv(Reset(w, token, e).0)
  {
    if !e.readFails && Live(w.db.resets, token, w.now).Some? {
      SpendToken(w, token, e.deleteFails);
      var data := Live(w.db.resets, token, w.now).value;
      var w1 := w.(db := DeleteResetToken(w.db, token, e.deleteFails),
                   log := w.log + [TokenSpent(token, data, w.now, !e.deleteFails)]);
      if e.adminFails {
        assert w1.log + [] == w1.log;
      } else {
        InvNote(w1, PasswordSet(data.userID, w.now, !e.writeFails));
      }
    }
  }

  lemma SpendState(w: World, state: string, fails: bool)
    requires Inv(w) && Live(w.db.states, state, w.now).Some?
    ensures var spent := StateSpent(state, Live(w.db.states, state, w.now).value, w.now, !fails);
            Inv(w.(db := DeleteState(w.db, state, fails), log := w.log + [spent]))
  {
    assert StateMatches(w.db.states, w.log, state);
    var spent := StateSpent(state, Live(w.db.states, state, w.now).value, w.now, !fails);
    InvAppend(w, spent, w.(db := DeleteState(w.db, state, fails), log := w.log + [spent]));
  }

  lemma ExchangeNotes(w: World, spent: Event)
    requires Inv(w) && w.log != [] && w.log[|w.log| - 1] == spent && spent.StateSpent? && spent.at == w.now
    ensures Inv(w.(log := w.log + [CodeExchanged(spent.state, w.now)]))
    ensures Inv(w.(log := w.log + [CodeExchanged(spent.state, w.now)] +
                          [LoginAnnounced(spent.state, spent.provider, w.now)]))
  {
    InvNote(w, CodeExchanged(spent.state, w.now));
    InvNote(w.(log := w.log + [CodeExchanged(spent.state, w.now)]), LoginAnnounced(spent.state, spent.provider, w.now));
  }

  lemma ExchangeKeepsInv(w: World, state: string, e: ExchangeEnv)
    requires Inv(w)
    ensures Inv(Exchange(w, state, e).0)
  {
    if state != "" && !e.readFails && Live(w.db.states, state, w.now).Some? {
      SpendState(w, state, e.deleteFails);
      var spent := StateSpent(state, Live(w.db.states, state, w.now).value, w.now, !e.deleteFails);
      var w1 := w.(db := DeleteState(w.db, state, e.deleteFails), log := w.log + [spent]);
      ExchangeNotes(w1, spent);
      ExchangeLog(w.log, spent, CodeExchanged(state, w.now), LoginAnnounced(state, spent.provider, w.now));
    }
  }

  lemma ExchangeLog(log: Log, a: Event, b: Event, c: Event)
    ensures log + ([a, b] + []) == log + [a] + [b]
    ensures log + ([a, b] + [c]) == log + [a] + [b] + [c]
  {
  }

  lemma StepKeepsInv(w: World, c: Call)
    requires Inv(w)
    ensures Inv(Step(w, c).0)
  {
    var w' := Step(w, c).0;
    match c
    case Wait(d) =>
    case SendOTP(p, email, e) =>
      if w' != w {
        InvAppend(w, CodeStored(Slot(p, Text.Normalise(email)), Text.CodeOf(e.draw), w.now), w');
      }
    case VerifyOTP(req, userID, e) => VerifyKeepsInv(w, req, userID, e);
    case ResetPassword(token, e) => ResetKeepsInv(w, token, e);
    case SocialLoginURL(provider, state, _) =>
      if w' != w {
        InvAppend(w, StateIssued(state, provider, w.now), w');
      }
    case ExchangeCode(state, e) => ExchangeKeepsInv(w, state, e);
  }

  lemma {:induction false} RunKeepsInv(w: World, calls: seq<Call>)
    requires Inv(w)
    ensures Inv(Run(w, calls))
    decreases |calls|
  {
    if calls != [] {
      StepKeepsInv(w, calls[0]);
      RunKeepsInv(Step(w, calls[0]).0, calls[1..]);
    }
  }

  lemma FreshInv(now: int)
    ensures Inv(Fresh(now))
  {
    assert forall k :: LastWrite([], k) == -1;
  }

  /** Main invariant: in every run, under every failure of every operation, the store is the one
      the log describes and the log is sound. */
  lemma EveryRun(now: int, calls: seq<Call>)
    ensures Inv(Run(Fresh(now), calls))
  {
    FreshInv(now);
    RunKeepsInv(Fresh(now), calls);
  }
}
