/** What traffic under other keys, and a bounded number of wrong guesses under the same one, can
    do to a pending code. */
module Noise {
  import Text
  import opened Keys
  import opened TypedStore
  import opened Protocol

  // ---------- Projection ----------

  /** The call reads or writes the slot's code, or is time passing. */
  predicate Touches(c: Call, slot: Slot) {
    match c
    case Wait(_) => true
    case SendOTP(p, email, _) => Slot(p, Text.Normalise(email)) == slot
    case VerifyOTP(req, _, _) => SlotOf(req) == slot
    case _ => false
  }

  function Only(calls: seq<Call>, slot: Slot): seq<Call> {
    if calls == [] then []
    else (if Touches(calls[0], slot) then [calls[0]] else []) + Only(calls[1..], slot)
  }

  /** What the caller learns about the slot's code. */
  datatype Answer = Sending(outcome: Outcome) | Checking(verdict: Verdict)

  function VerdictOf(o: Outcome): Verdict {
    if o.CodeFailed? then o.verdict else Accepted
  }

  /** What the outcomes of a run tell about the slot's code. */
  function Answers(calls: seq<Call>, outcomes: seq<Outcome>, slot: Slot): seq<Answer>
    requires |outcomes| == |calls|
  {
    if calls == [] then []
    else
      var c, o := calls[0], outcomes[0];
      var here :=
        if c.SendOTP? && Touches(c, slot) then [Sending(o)]
        else if c.VerifyOTP? && Touches(c, slot) then [Checking(VerdictOf(o))]
        else [];
      here + Answers(calls[1..], outcomes[1..], slot)
  }

  predicate Agree(a: World, b: World, slot: Slot) {
    a.now == b.now && (slot in a.db.otps <==> slot in b.db.otps) &&
    (slot in a.db.otps ==> a.db.otps[slot] == b.db.otps[slot])
  }

  /** A step that does not touch the slot leaves its code alone. */
  lemma UntouchedStays(w: World, c: Call, slot: Slot)
    requires !Touches(c, slot)
    ensures Agree(Step(w, c).0, w, slot)
  {
  }

  /** What follows an accepted code changes no code. */
  lemma VerifyLeavesCodesToCheck(w: World, req: VerifyRequest, userID: string, e: VerifyEnv)
    ensures var (w', v) := Check(w, SlotOf(req), Text.TrimSpace(req.otp), e.faults);
            Verify(w, req, userID, e).0.db.otps == w'.db.otps && Verify(w, req, userID, e).0.now == w.now &&
            (v.Accepted? <==> !Verify(w, req, userID, e).1.CodeFailed?) && VerdictOf(Verify(w, req, userID, e).1) == v
  {
  }

  lemma CheckAgrees(a: World, b: World, slot: Slot, guess: string, f: Faults)
    requires Agree(a, b, slot)
    ensures Agree(Check(a, slot, guess, f).0, Check(b, slot, guess, f).0, slot)
    ensures Check(a, slot, guess, f).1 == Check(b, slot, guess, f).1
  {
  }

  lemma TouchingAgrees(a: World, b: World, c: Call, slot: Slot)
    requires Agree(a, b, slot) && Touches(c, slot)
    ensures Agree(Step(a, c).0, Step(b, c).0, slot)
    ensures c.SendOTP? ==> Step(a, c).1 == Step(b, c).1
    ensures c.VerifyOTP? ==> VerdictOf(Step(a, c).1) == VerdictOf(Step(b, c).1)
  {
    match c
    case VerifyOTP(req, userID, e) =>
      VerifyLeavesCodesToCheck(a, req, userID, e);
      VerifyLeavesCodesToCheck(b, req, userID, e);
      CheckAgrees(a, b, slot, Text.TrimSpace(req.otp), e.faults);
      assert Step(a, c) == Verify(a, req, userID, e) && Step(b, c) == Verify(b, req, userID, e);
    case SendOTP(p, email, e) =>
      SendAgrees(a, b, p, email, e);
    case _ =>
  }

  lemma SendAgrees(a: World, b: World, p: Purpose, email: string, e: SendEnv)
    requires Agree(a, b, Slot(p, Text.Normalise(email)))
    ensures Agree(Send(a, p, email, e).0, Send(b, p, email, e).0, Slot(p, Text.Normalise(email)))
    ensures Send(a, p, email, e).1 == Send(b, p, email, e).1
  {
  }

  lemma AnswersUnfold(w: World, calls: seq<Call>, slot: Slot)
    requires calls != []
    ensures var c := calls[0]; var o := Step(w, c).1;
            Answers(calls, Outcomes(w, calls), slot) ==
            (if c.SendOTP? && Touches(c, slot) then [Sending(o)]
             else if c.VerifyOTP? && Touches(c, slot) then [Checking(VerdictOf(o))]
             else []) +
            Answers(calls[1..], Outcomes(Step(w, c).0, calls[1..]), slot)
  {
    assert Outcomes(w, calls)[1..] == Outcomes(Step(w, calls[0]).0, calls[1..]);
  }

  lemma {:induction false} AgreeingWorldsAnswerAlike(a: World, b: World, calls: seq<Call>, slot: Slot)
    requires Agree(a, b, slot)
    ensures Answers(calls, Outcomes(a, calls), slot) == Answers(Only(calls, slot), Outcomes(b, Only(calls, slot)), slot)
    decreases |calls|
  {
    if calls != [] {
      var c := calls[0];
      AnswersUnfold(a, calls, slot);
      if Touches(c, slot) {
        TouchingAgrees(a, b, c, slot);
        AgreeingWorldsAnswerAlike(Step(a, c).0, Step(b, c).0, calls[1..], slot);
        assert Only(calls, slot)[0] == c && Only(calls, slot)[1..] == Only(calls[1..], slot);
        AnswersUnfold(b, Only(calls, slot), slot);
      } else {
        UntouchedStays(a, c, slot);
        AgreeingWorldsAnswerAlike(Step(a, c).0, b, calls[1..], slot);
        assert Only(calls, slot) == Only(calls[1..], slot);
      }
    }
  }

  /** Every answer about one purpose and address is the answer of the run from which all calls under
      other purposes and addresses, all resets and all social logins are struck out. */
  lemma Projection(w: World, calls: seq<Call>, slot: Slot)
    ensures Answers(calls, Outcomes(w, calls), slot) ==
            Answers(Only(calls, slot), Outcomes(w, Only(calls, slot)), slot)
  {
    AgreeingWorldsAnswerAlike(w, w, calls, slot);
  }

  // ---------- Completeness ----------

  /** The call stores a new code for the slot. */
  predicate Restores(c: Call, slot: Slot) {
    c.SendOTP? && Touches(c, slot) && !Blocked(c.purpose, c.send.lookup) && !c.send.generateFails && !c.send.store.Lost?
  }

  /** The call redeems this code and deletes it. */
  predicate Redeems(c: Call, slot: Slot, code: string) {
    c.VerifyOTP? && Touches(c, slot) && Text.TrimSpace(c.req.otp) == code &&
    !c.verify.faults.read && !c.verify.faults.delete
  }

  /** The call compares a wrong guess. */
  predicate Misses(c: Call, slot: Slot, code: string) {
    c.VerifyOTP? && Touches(c, slot) && Text.TrimSpace(c.req.otp) != code && !c.verify.faults.read
  }

  function CountMisses(calls: seq<Call>, slot: Slot, code: string): nat {
    if calls == [] then 0
    else (if Misses(calls[0], slot, code) then 1 else 0) + CountMisses(calls[1..], slot, code)
  }

  lemma TimePasses(w: World, c: Call)
    ensures w.now <= Step(w, c).0.now
  {
  }

  lemma {:induction false} TimeOnlyPasses(w: World, calls: seq<Call>)
    ensures w.now <= Run(w, calls).now
    decreases |calls|
  {
    if calls != [] {
      TimePasses(w, calls[0]);
      TimeOnlyPasses(Step(w, calls[0]).0, calls[1..]);
    }
  }

  ghost predicate Pending(w: World, slot: Slot, code: string, expiry: int, tries: int) {
    slot in w.db.otps && w.db.otps[slot].value.code == code && w.db.otps[slot].expiry == expiry &&
    0 <= w.db.otps[slot].value.retry <= tries
  }

  lemma StepKeepsPending(w: World, c: Call, slot: Slot, code: string, expiry: int, tries: int)
    requires Pending(w, slot, code, expiry, tries) && w.now < expiry
    requires !Restores(c, slot) && !Redeems(c, slot, code)
    requires Misses(c, slot, code) ==> tries < MAX_RETRIES - 1
    requires tries < MAX_RETRIES
    ensures Pending(Step(w, c).0, slot, code, expiry, if Misses(c, slot, code) then tries + 1 else tries)
  {
    if !Touches(c, slot) {
      UntouchedStays(w, c, slot);
    }
  }

  lemma {:induction false} RunKeepsPending(w: World, calls: seq<Call>, slot: Slot, code: string, expiry: int,
                                           tries: int)
    requires Pending(w, slot, code, expiry, tries) && Run(w, calls).now < expiry
    requires forall i :: 0 <= i < |calls| ==> !Restores(calls[i], slot) && !Redeems(calls[i], slot, code)
    requires tries + CountMisses(calls, slot, code) < MAX_RETRIES
    ensures Pending(Run(w, calls), slot, code, expiry, tries + CountMisses(calls, slot, code))
    decreases |calls|
  {
    if calls != [] {
      TimeOnlyPasses(w, calls);
      StepKeepsPending(w, calls[0], slot, code, expiry, tries);
      var tries' := if Misses(calls[0], slot, code) then tries + 1 else tries;
      RunKeepsPending(Step(w, calls[0]).0, calls[1..], slot, code, expiry, tries');
    }
  }

  /** After a code is sent, and after any run of other calls (failures included) that neither stores a
      new code for that purpose and address nor redeems this one, and that has at most four wrong
      guesses at it, the sent code passes the check until its lifetime is over, under every spelling of
      the address that normalises alike and with white space around the code. */
  lemma SentCodeStaysGood(w: World, p: Purpose, email: string, e: SendEnv, calls: seq<Call>, req: VerifyRequest,
                          userID: string, v: VerifyEnv)
    requires Send(w, p, email, e).1.Done?
    requires var slot := Slot(p, Text.Normalise(email)); var code := Text.CodeOf(e.draw);
             (forall i :: 0 <= i < |calls| ==> !Restores(calls[i], slot) && !Redeems(calls[i], slot, code)) &&
             CountMisses(calls, slot, code) <= 4
    requires var w' := Run(Send(w, p, email, e).0, calls);
             w'.now < w.now + if p.Register? then 60 * SECOND else 600 * SECOND
    requires req.purpose == p && Text.Normalise(req.email) == Text.Normalise(email)
    requires Text.TrimSpace(req.otp) == Text.TrimSpace(Text.CodeOf(e.draw)) && !v.faults.read
    ensures var w' := Run(Send(w, p, email, e).0, calls);
            Judge(w'.db, w'.now, SlotOf(req), Text.TrimSpace(req.otp), v.faults).Accepted? &&
            !Verify(w', req, userID, v).1.CodeFailed?
  {
    var slot, code := Slot(p, Text.Normalise(email)), Text.CodeOf(e.draw);
    Text.CodesAreSixDigits(e.draw);
    var w1 := Send(w, p, email, e).0;
    SentIsPending(w, p, email, e);
    RunKeepsPending(w1, calls, slot, code, w.now + TtlForPurpose(p), 0);
    PendingCodePasses(Run(w1, calls), slot, code, w.now + TtlForPurpose(p), v.faults);
    VerifyLeavesCodesToCheck(Run(w1, calls), req, userID, v);
  }

  lemma SentIsPending(w: World, p: Purpose, email: string, e: SendEnv)
    requires Send(w, p, email, e).1.Done?
    ensures Pending(Send(w, p, email, e).0, Slot(p, Text.Normalise(email)), Text.CodeOf(e.draw),
                    w.now + TtlForPurpose(p), 0)
  {
  }

  lemma PendingCodePasses(w: World, slot: Slot, code: string, expiry: int, f: Faults)
    requires Pending(w, slot, code, expiry, 4) && w.now < expiry && !f.read
    ensures Judge(w.db, w.now, slot, code, f).Accepted?
    ensures Check(w, slot, code, f).1.Accepted?
  {
  }
}
