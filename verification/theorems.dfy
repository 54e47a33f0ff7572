/** What every run of the protocol guarantees. `now` is the time a run starts at, `calls` is any sequence
    of requests, one after the other, with any answers of the outside world and any failing operations. */
module Guarantees {
  import opened Wrappers
  import opened Keys
  import opened TypedStore
  import opened Protocol
  import opened History
  import opened Invariant

  function Reached(now: int, calls: seq<Call>): World {
    Run(Fresh(now), calls)
  }

  lemma SoundRun(now: int, calls: seq<Call>)
    ensures Sound(Reached(now, calls).log)
  {
    EveryRun(now, calls);
  }

  // ---------- Exactly when a code is accepted ----------

  /** The ruling a reader of the log alone would give. */
  ghost function Ruling(log: Log, now: int, slot: Slot, guess: string): Verdict {
    if !DuringCode(log, slot, now) then Missing
    else if Counted(log, slot) >= 5 then LockedOut
    else if guess == LatestCode(log, slot).code then Accepted
    else if Counted(log, slot) == 4 then LastGuess
    else WrongGuess
  }

  /** A readable check rules as the log does: it accepts the latest code if and only if that is
      unexpired, neither redeemed nor evicted since, and has fewer than five wrong guesses counted. */
  lemma RulesByTheLog(now: int, calls: seq<Call>, slot: Slot, guess: string, f: Faults)
    ensures var w := Reached(now, calls);
            Judge(w.db, w.now, slot, guess, f) ==
            if f.read then Unreadable else Ruling(w.log, w.now, slot, guess)
  {
    var w := Reached(now, calls);
    EveryRun(now, calls);
    assert CodeMatches(w.db.otps, w.log, slot);
    if slot in w.db.otps {
      var k := LastWrite(w.log, OtpKey(slot));
      assert w.log[k].at <= w.now;
    }
  }

  /** A reset token is honoured if and only if it was issued less than ten minutes ago and its
      deletion has not succeeded since; what it yields is what it was issued for. */
  lemma TokenHonouredExactly(now: int, calls: seq<Call>, token: string, data: ResetTokenData)
    ensures var w := Reached(now, calls); var k := LastWrite(w.log, ResetKey(token));
            Live(w.db.resets, token, w.now) == Some(data) <==>
            Standing(w.log, ResetKey(token)) && w.log[k].data == data &&
            w.now < w.log[k].at + 600 * SECOND
  {
    var w := Reached(now, calls);
    EveryRun(now, calls);
    assert TokenMatches(w.db.resets, w.log, token);
  }

  /** Likewise a social-login state, with the provider it was issued for. */
  lemma StateHonouredExactly(now: int, calls: seq<Call>, state: string, provider: string)
    ensures var w := Reached(now, calls); var k := LastWrite(w.log, StateKey(state));
            Live(w.db.states, state, w.now) == Some(provider) <==>
            Standing(w.log, StateKey(state)) && w.log[k].provider == provider &&
            w.now < w.log[k].at + 600 * SECOND
  {
    var w := Reached(now, calls);
    EveryRun(now, calls);
    assert StateMatches(w.db.states, w.log, state);
  }

  // ---------- Single use ----------

  /** Using what is under a key needs it standing. */
  lemma UsesNeedStanding(log: Log, i: nat, k: Key)
    requires Sound(log) && i < |log| && Uses(log[i], k)
    ensures Standing(log[..i], k)
  {
    assert JustifiedAt(log, i);
  }

  lemma UsedOnceIn(log: Log, k: Key, i: nat, j: nat)
    requires Sound(log) && i < j < |log| && Uses(log[i], k) && Removes(log[i], k) && Uses(log[j], k)
    ensures LastWrite(log[..i], k) < i < LastWrite(log[..j], k) < j
  {
    UsesNeedStanding(log, j, k);
    assert log[..j][i] == log[i];
    assert !Writes(log[i], k);
  }

  /** Whatever the key holds (code, token or social state): between a use that deleted it and any
      later use, something was written under the key again; so the two uses honour different writes. */
  lemma SingleUse(now: int, calls: seq<Call>, k: Key, i: nat, j: nat)
    requires var log := Reached(now, calls).log;
             i < j < |log| && Uses(log[i], k) && Removes(log[i], k) && Uses(log[j], k)
    ensures var log := Reached(now, calls).log;
            LastWrite(log[..i], k) < i < LastWrite(log[..j], k) < j
  {
    SoundRun(now, calls);
    UsedOnceIn(Reached(now, calls).log, k, i, j);
  }

  // ---------- Where a password reset comes from ----------

  /** An accepted code is the one stored last for its slot, in its lifetime. */
  lemma CodeOrigin(log: Log, i: nat)
    requires Sound(log) && i < |log| && log[i].CodeAccepted?
    ensures var k := LastWrite(log[..i], OtpKey(log[i].slot));
            0 <= k < i && log[k].CodeStored? && log[k].slot == log[i].slot && log[k].code == log[i].code &&
            log[k].at <= log[i].at < log[k].at + TtlForPurpose(log[i].slot.purpose)
  {
    assert JustifiedAt(log, i);
  }

  /** A spent token is the one issued last under its name, in its lifetime. */
  lemma TokenOrigin(log: Log, i: nat)
    requires Sound(log) && i < |log| && log[i].TokenSpent?
    ensures var k := LastWrite(log[..i], ResetKey(log[i].token));
            0 <= k < i && log[k].TokenIssued? && log[k].token == log[i].token && log[k].data == log[i].data &&
            log[k].at <= log[i].at < log[k].at + RESET_TOKEN_TTL
  {
    assert JustifiedAt(log, i);
  }

  /** A token is issued right after its user was found right after a forgot-password code was accepted. */
  lemma IssueOrigin(log: Log, i: nat)
    requires Sound(log) && i < |log| && log[i].TokenIssued?
    ensures i >= 2 && log[i - 1] == UserFound(log[i].data.email, log[i].data.userID, log[i].at)
    ensures log[i - 2].CodeAccepted? && log[i - 2].slot == Slot(Forgot, log[i].data.email) && log[i - 2].at == log[i].at
  {
    assert JustifiedAt(log, i);
    assert JustifiedAt(log, i - 1);
  }

  /** Event `use` meets what event `write` put under the key: the latest write there, and still standing. */
  ghost predicate Honours(log: Log, use: nat, write: nat, k: Key) {
    use <= |log| && write == LastWrite(log[..use], k) && Standing(log[..use], k)
  }

  /** Events stored, accepted, issued, spent lead from a live forgot-password code over a live token to a
      reset for `userID`. */
  ghost predicate ResetChain(log: Log, stored: nat, accepted: nat, issued: nat, spent: nat, userID: string, at: int) {
    && stored < accepted && issued == accepted + 2 && issued < spent < |log|
    && log[stored].CodeStored? && log[accepted].CodeAccepted? && log[issued].TokenIssued? && log[spent].TokenSpent?
    && var slot := log[stored].slot;
    && Honours(log, accepted, stored, OtpKey(slot)) && Honours(log, spent, issued, ResetKey(log[spent].token))
    && slot.purpose == Forgot
    && log[accepted].slot == slot && log[accepted].code == log[stored].code
    && log[stored].at <= log[accepted].at < log[stored].at + 10 * MINUTE
    && log[accepted + 1] == UserFound(slot.id, userID, log[accepted].at)
    && log[issued].data == ResetTokenData(slot.id, userID) && log[issued].at == log[accepted].at
    && log[spent].token == log[issued].token && log[spent].data == log[issued].data && log[spent].at == at
    && log[issued].at <= at < log[issued].at + 10 * MINUTE
  }

  lemma ChainOfSpent(log: Log, spent: nat)
    requires Sound(log) && spent < |log| && log[spent].TokenSpent?
    ensures exists stored: nat, accepted: nat, issued: nat ::
              ResetChain(log, stored, accepted, issued, spent, log[spent].data.userID, log[spent].at)
  {
    TokenOrigin(log, spent);
    var issued := LastWrite(log[..spent], ResetKey(log[spent].token));
    IssueOrigin(log, issued);
    CodeOrigin(log, issued - 2);
    var stored := LastWrite(log[..issued - 2], OtpKey(log[issued - 2].slot));
    UsesNeedStanding(log, spent, ResetKey(log[spent].token));
    UsesNeedStanding(log, issued - 2, OtpKey(log[issued - 2].slot));
    assert ResetChain(log, stored, issued - 2, issued, spent, log[spent].data.userID, log[spent].at);
  }

  lemma ResetFollowsSpent(log: Log, i: nat)
    requires Sound(log) && i < |log| && log[i].PasswordSet?
    ensures i >= 1 && log[i - 1].TokenSpent? && log[i - 1].data.userID == log[i].userID && log[i - 1].at == log[i].at
  {
    assert JustifiedAt(log, i);
  }

  /** Every password set by a reset goes back to the latest token under its name, standing and issued for
      that user, the user found under the address, and the latest code stored for the same normalised
      address, standing and accepted before it expired;
      less than 1200 seconds pass from storing the code to setting the password. */
  lemma ResetProvenance(now: int, calls: seq<Call>, i: nat)
    requires var log := Reached(now, calls).log; i < |log| && log[i].PasswordSet?
    ensures var log := Reached(now, calls).log;
            exists stored: nat, accepted: nat, issued: nat, spent: nat ::
              ResetChain(log, stored, accepted, issued, spent, log[i].userID, log[i].at) && spent + 1 == i &&
              log[stored].at <= log[i].at < log[stored].at + 1200 * SECOND
  {
    var log := Reached(now, calls).log;
    SoundRun(now, calls);
    ResetFollowsSpent(log, i);
    ChainOfSpent(log, i - 1);
  }

  // ---------- Verified addresses ----------

  /** The slot a write of the verified flag has to answer for: registration of the address, or a
      change to it. */
  function VerifiedSlot(e: Event): Option<Slot> {
    match e
    case UserCreated(email, _) => Some(Slot(Register, email))
    case EmailUpdated(_, email, _, _) => Some(Slot(ChangeEmail, email))
    case _ => None
  }

  /** Marking an address verified comes right after accepting the latest code stored under that same address
      and that flow's own purpose, still standing and stored less than a minute ago for a registration and
      less than ten for a change of address. */
  lemma VerifiedEmailProvenance(now: int, calls: seq<Call>, i: nat)
    requires var log := Reached(now, calls).log; i < |log| && VerifiedSlot(log[i]).Some?
    ensures var log := Reached(now, calls).log; var slot := VerifiedSlot(log[i]).value;
            i >= 1 && log[i - 1].CodeAccepted? && log[i - 1].slot == slot && log[i - 1].at == log[i].at &&
            exists k: nat :: k < i - 1 && Honours(log, i - 1, k, OtpKey(slot)) &&
                             log[k] == CodeStored(slot, log[i - 1].code, log[k].at) &&
                             log[k].at <= log[i].at <
                             log[k].at + if log[i].UserCreated? then 60 * SECOND else 600 * SECOND
  {
    var log := Reached(now, calls).log;
    SoundRun(now, calls);
    VerifiedFollowsAcceptance(log, i);
    CodeOrigin(log, i - 1);
    UsesNeedStanding(log, i - 1, OtpKey(log[i - 1].slot));
    assert Honours(log, i - 1, LastWrite(log[..i - 1], OtpKey(log[i - 1].slot)), OtpKey(log[i - 1].slot));
  }

  lemma VerifiedFollowsAcceptance(log: Log, i: nat)
    requires Sound(log) && i < |log| && VerifiedSlot(log[i]).Some?
    ensures i >= 1 && log[i - 1].CodeAccepted? && log[i - 1].slot == VerifiedSlot(log[i]).value
    ensures log[i - 1].at == log[i].at
  {
    assert JustifiedAt(log, i);
  }

  /** If the earlier one's code was deleted, two such writes answer to two different stored codes. */
  lemma VerifiedWritesUseDistinctCodes(now: int, calls: seq<Call>, i: nat, j: nat)
    requires var log := Reached(now, calls).log;
             i < j < |log| && VerifiedSlot(log[i]).Some? && VerifiedSlot(log[j]) == VerifiedSlot(log[i])
    requires var log := Reached(now, calls).log; i >= 1 && log[i - 1].CodeAccepted? && log[i - 1].deleted
    ensures var log := Reached(now, calls).log; var k := OtpKey(VerifiedSlot(log[i]).value);
            0 <= LastWrite(log[..i - 1], k) < LastWrite(log[..j - 1], k)
  {
    SoundRun(now, calls);
    DistinctCodesIn(Reached(now, calls).log, i, j);
  }

  lemma DistinctCodesIn(log: Log, i: nat, j: nat)
    requires Sound(log) && 1 <= i < j < |log|
    requires VerifiedSlot(log[i]).Some? && VerifiedSlot(log[j]) == VerifiedSlot(log[i])
    requires log[i - 1].CodeAccepted? && log[i - 1].deleted
    ensures var k := OtpKey(VerifiedSlot(log[i]).value); 0 <= LastWrite(log[..i - 1], k) < LastWrite(log[..j - 1], k)
  {
    VerifiedFollowsAcceptance(log, i);
    VerifiedFollowsAcceptance(log, j);
    var k := OtpKey(VerifiedSlot(log[i]).value);
    assert Uses(log[i - 1], k) && Removes(log[i - 1], k) && Uses(log[j - 1], k);
    UsesNeedStanding(log, i - 1, k);
    UsedOnceIn(log, k, i - 1, j - 1);
  }

  // ---------- The retry counter ----------

  /** A last guess that was counted and whose deletion failed. */
  predicate FailedEviction(e: Event, slot: Slot) {
    CountedRefusal(e, slot) && e.last && !e.deleted
  }

  ghost predicate EvictionFailed(log: Log, slot: Slot) {
    exists j :: LastWrite(log, OtpKey(slot)) < j < |log| && FailedEviction(log[j], slot)
  }

  /** The counter passes 4 at a counted last guess and nowhere else. */
  lemma {:induction false} ExhaustedAfterLastGuess(log: Log, slot: Slot)
    requires Sound(log)
    ensures Counted(log, slot) >= MAX_RETRIES <==>
            exists j :: LastWrite(log, OtpKey(slot)) < j < |log| && CountedRefusal(log[j], slot) && log[j].last
    decreases |log|
  {
    if log != [] {
      var n := |log| - 1;
      var init, e := log[..n], log[n];
      assert JustifiedAt(log, n) && log == init + [e];
      SoundPrefix(log, n);
      ExhaustedAfterLastGuess(init, slot);
      LastWriteAppend(init, e, OtpKey(slot));
      if Counted(init, slot) >= MAX_RETRIES && !Writes(e, OtpKey(slot)) {
        var j :| LastWrite(init, OtpKey(slot)) < j < n && CountedRefusal(init[j], slot) && init[j].last;
        assert log[j] == init[j];
      }
      if Counted(log, slot) >= MAX_RETRIES > Counted(init, slot) {
        assert CountedRefusal(log[n], slot) && log[n].last;
      }
      forall j | LastWrite(log, OtpKey(slot)) < j < n && CountedRefusal(log[j], slot) && log[j].last
        ensures Counted(log, slot) >= MAX_RETRIES
      {
        assert init[j] == log[j];
      }
    }
  }

  /** So while a code stands its counter has passed 4 if and only if its eviction failed. */
  lemma ExhaustedMeansEvictionFailed(log: Log, slot: Slot)
    requires Sound(log) && Standing(log, OtpKey(slot))
    ensures Counted(log, slot) >= MAX_RETRIES <==> EvictionFailed(log, slot)
  {
    ExhaustedAfterLastGuess(log, slot);
    if Counted(log, slot) >= MAX_RETRIES {
      var j :| LastWrite(log, OtpKey(slot)) < j < |log| && CountedRefusal(log[j], slot) && log[j].last;
      assert !Removes(log[j], OtpKey(slot));
      assert FailedEviction(log[j], slot);
    }
  }

  /** The retry field of a stored code is the number of wrong guesses counted since it was stored; it
      lies in 0 .. 4 if and only if no counted last guess since then failed to delete the code, and past 4
      every guess, the right one included, is refused. */
  lemma RetryInvariant(now: int, calls: seq<Call>, slot: Slot)
    requires slot in Reached(now, calls).db.otps
    ensures var w := Reached(now, calls); var retry := w.db.otps[slot].value.retry;
            && retry == Counted(w.log, slot)
            && (retry >= MAX_RETRIES <==> EvictionFailed(w.log, slot))
            && (retry >= MAX_RETRIES ==>
                forall guess, f :: !Judge(w.db, w.now, slot, guess, f).Accepted?)
  {
    var w := Reached(now, calls);
    EveryRun(now, calls);
    assert CodeMatches(w.db.otps, w.log, slot);
    ExhaustedMeansEvictionFailed(w.log, slot);
  }

  /** If checks do not overlap, a readable check of a live code is refused before the codes are compared if and
      only if an eviction of that code has failed. (Overlapping checks: see LockoutUnderOverlap.) */
  lemma LockoutExactly(now: int, calls: seq<Call>, slot: Slot, guess: string, f: Faults)
    requires var w := Reached(now, calls); Live(w.db.otps, slot, w.now).Some? && !f.read
    ensures var w := Reached(now, calls);
            Judge(w.db, w.now, slot, guess, f).LockedOut? <==> EvictionFailed(w.log, slot)
  {
    RetryInvariant(now, calls, slot);
  }

  /** And every such refusal in a log follows a failed eviction of the code it refused. */
  lemma LockoutNeedsFailedDelete(now: int, calls: seq<Call>, i: nat)
    requires var log := Reached(now, calls).log; i < |log| && log[i].CodeLocked?
    ensures var log := Reached(now, calls).log; EvictionFailed(log[..i], log[i].slot)
  {
    var log := Reached(now, calls).log;
    SoundRun(now, calls);
    assert JustifiedAt(log, i);
    SoundPrefix(log, i);
    ExhaustedMeansEvictionFailed(log[..i], log[i].slot);
  }

  // ---------- Social login ----------

  lemma ExchangeFollowsState(log: Log, i: nat)
    requires Sound(log) && i < |log| && log[i].CodeExchanged?
    ensures i >= 1 && log[i - 1].StateSpent? && log[i - 1].state == log[i].state && log[i - 1].at == log[i].at
  {
    assert JustifiedAt(log, i);
  }

  /** A spent state is the one issued last under its name, for an allowed provider, in its lifetime. */
  lemma StateOrigin(log: Log, i: nat)
    requires Sound(log) && i < |log| && log[i].StateSpent?
    ensures var k := LastWrite(log[..i], StateKey(log[i].state));
            0 <= k < i && log[k] == StateIssued(log[i].state, log[i].provider, log[k].at) &&
            log[i].provider in ALLOWED_PROVIDERS && log[k].at <= log[i].at < log[k].at + 10 * MINUTE
  {
    assert JustifiedAt(log, i);
    var k := LastWrite(log[..i], StateKey(log[i].state));
    assert log[..i][k] == log[k];
    assert JustifiedAt(log, k);
  }

  /** Every code exchanged at the token endpoint redeems, at that moment, the latest state under its name,
      still standing and issued less than ten minutes earlier for an allowed provider (the state parameter
      of section 10.12 of RFC 6749). */
  lemma ExchangeProvenance(now: int, calls: seq<Call>, i: nat)
    requires var log := Reached(now, calls).log; i < |log| && log[i].CodeExchanged?
    ensures var log := Reached(now, calls).log;
            i >= 1 && log[i - 1].StateSpent? && log[i - 1].state == log[i].state && log[i - 1].at == log[i].at &&
            log[i - 1].provider in ALLOWED_PROVIDERS &&
            exists k: nat :: k < i - 1 && Honours(log, i - 1, k, StateKey(log[i].state)) &&
                             log[k] == StateIssued(log[i].state, log[i - 1].provider, log[k].at) &&
                             log[k].at <= log[i].at < log[k].at + 600 * SECOND
  {
    var log := Reached(now, calls).log;
    SoundRun(now, calls);
    ExchangeFollowsState(log, i);
    StateOrigin(log, i - 1);
    UsesNeedStanding(log, i - 1, StateKey(log[i].state));
    assert Honours(log, i - 1, LastWrite(log[..i - 1], StateKey(log[i].state)), StateKey(log[i].state));
  }

  /** A login event names the provider the redeemed state was issued for. */
  lemma AnnouncedProviderIsStored(now: int, calls: seq<Call>, i: nat)
    requires var log := Reached(now, calls).log; i < |log| && log[i].LoginAnnounced?
    ensures var log := Reached(now, calls).log;
            i >= 2 && log[i - 1] == CodeExchanged(log[i].state, log[i].at) &&
            var k := LastWrite(log[..i - 2], StateKey(log[i].state));
            0 <= k < i - 2 && log[k] == StateIssued(log[i].state, log[i].provider, log[k].at) &&
            log[i].provider in ALLOWED_PROVIDERS
  {
    SoundRun(now, calls);
    AnnouncementOrigin(Reached(now, calls).log, i);
  }

  lemma AnnouncementOrigin(log: Log, i: nat)
    requires Sound(log) && i < |log| && log[i].LoginAnnounced?
    ensures i >= 2 && log[i - 1] == CodeExchanged(log[i].state, log[i].at) &&
            var k := LastWrite(log[..i - 2], StateKey(log[i].state));
            0 <= k < i - 2 && log[k] == StateIssued(log[i].state, log[i].provider, log[k].at) &&
            log[i].provider in ALLOWED_PROVIDERS
  {
    assert JustifiedAt(log, i);
    assert log[..i][i - 2] == log[i - 2];
    StateOrigin(log, i - 2);
  }

  /** If the state was deleted when first redeemed, it authorises a second exchange only after being
      issued again. */
  lemma OneExchangePerState(now: int, calls: seq<Call>, i: nat, j: nat)
    requires var log := Reached(now, calls).log;
             1 <= i < j < |log| && log[i].CodeExchanged? && log[j].CodeExchanged? && log[i].state == log[j].state
    requires var log := Reached(now, calls).log; log[i - 1].StateSpent? && log[i - 1].deleted
    ensures var log := Reached(now, calls).log;
            exists m :: i < m < j && log[m].StateIssued? && log[m].state == log[i].state
  {
    SoundRun(now, calls);
    SecondExchange(Reached(now, calls).log, i, j);
  }

  lemma SecondExchange(log: Log, i: nat, j: nat)
    requires Sound(log) && 1 <= i < j < |log| && log[i].CodeExchanged? && log[j].CodeExchanged?
    requires log[i].state == log[j].state && log[i - 1].StateSpent? && log[i - 1].deleted
    ensures exists m :: i < m < j && log[m].StateIssued? && log[m].state == log[i].state
  {
    ExchangeFollowsState(log, i);
    ExchangeFollowsState(log, j);
    UsedOnceIn(log, StateKey(log[i].state), i - 1, j - 1);
    var m := LastWrite(log[..j - 1], StateKey(log[i].state));
    assert log[..j - 1][m] == log[m];
  }
}
