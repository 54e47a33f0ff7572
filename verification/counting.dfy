/** Conservation: how many resets, tokens and codes a run can contain. */
module Conservation {
  import Sets
  import opened Keys
  import opened TypedStore
  import opened Protocol
  import opened History
  import opened Invariant

  function Count(log: Log, p: Event -> bool): nat {
    if log == [] then 0
    else Count(log[..|log| - 1], p) + if p(log[|log| - 1]) then 1 else 0
  }

  function EndsWith(log: Log, p: Event -> bool): nat {
    if log != [] && p(log[|log| - 1]) then 1 else 0
  }

  predicate IsCodeStored(e: Event) { e.CodeStored? && e.slot.purpose.Forgot? }
  predicate IsCodeAccepted(e: Event) { e.CodeAccepted? && e.slot.purpose.Forgot? }
  predicate IsCodeKept(e: Event) { IsCodeAccepted(e) && !e.deleted }
  predicate IsUserFound(e: Event) { e.UserFound? }
  predicate IsTokenIssued(e: Event) { e.TokenIssued? }
  predicate IsTokenSpent(e: Event) { e.TokenSpent? }
  predicate IsTokenKept(e: Event) { e.TokenSpent? && !e.deleted }
  predicate IsPasswordSet(e: Event) { e.PasswordSet? }

  // ---------- The maps as the log alone rebuilds them ----------

  function Otps(log: Log): map<Slot, Timed<OtpData>> {
    if log == [] then map[] else OtpsAfter(Otps(log[..|log| - 1]), log[|log| - 1])
  }

  function Resets(log: Log): map<string, Timed<ResetTokenData>> {
    if log == [] then map[] else ResetsAfter(Resets(log[..|log| - 1]), log[|log| - 1])
  }

  lemma {:induction false} RebuiltMapsMatch(log: Log)
    ensures CodesMatch(Otps(log), log) && TokensMatch(Resets(log), log)
    decreases |log|
  {
    if log != [] {
      var init, e := log[..|log| - 1], log[|log| - 1];
      RebuiltMapsMatch(init);
      CodesFollow(Otps(init), init, e);
      TokensFollow(Resets(init), init, e);
      assert log == init + [e];
    }
  }

  function ForgotSlots(otps: map<Slot, Timed<OtpData>>): set<Slot> {
    set s | s in otps && s.purpose.Forgot?
  }

  // ---------- The balances ----------

  /** Every forgot-password code stored pays for one acceptance that deletes it, or is still there. */
  lemma {:induction false} CodeBalance(log: Log)
    requires Sound(log)
    ensures |ForgotSlots(Otps(log))| + Count(log, IsCodeAccepted) <= Count(log, IsCodeStored) + Count(log, IsCodeKept)
    decreases |log|
  {
    if log == [] {
      assert ForgotSlots(Otps(log)) == {};
    } else {
      var init, e := log[..|log| - 1], log[|log| - 1];
      SoundPrefix(log, |log| - 1);
      CodeBalance(init);
      RebuiltMapsMatch(init);
      assert JustifiedAt(log, |log| - 1);
      var before, after := ForgotSlots(Otps(init)), ForgotSlots(Otps(log));
      match e
      case CodeStored(slot, _, _) =>
        assert after <= before + {slot};
        Sets.SmallerSet(after, before + {slot});
        assert slot.purpose.Forgot? || after == before;
      case CodeAccepted(slot, _, _, deleted) =>
        assert CodeMatches(Otps(init), init, slot);
        assert slot in Otps(init);
        assert after == if deleted then before - {slot} else before;
      case CodeRefused(slot, _, _, _, _) =>
        assert after <= before;
        Sets.SmallerSet(after, before);
      case CodeLocked(slot, _, _) =>
        assert after <= before;
        Sets.SmallerSet(after, before);
      case _ =>
        assert after == before;
    }
  }

  lemma {:induction false} TokenBalance(log: Log)
    requires Sound(log)
    ensures |Resets(log)| + Count(log, IsTokenSpent) <= Count(log, IsTokenIssued) + Count(log, IsTokenKept)
    decreases |log|
  {
    if log != [] {
      var init, e := log[..|log| - 1], log[|log| - 1];
      SoundPrefix(log, |log| - 1);
      TokenBalance(init);
      RebuiltMapsMatch(init);
      assert JustifiedAt(log, |log| - 1);
      if e.TokenSpent? {
        assert TokenMatches(Resets(init), init, e.token);
        assert Resets(init).Keys - {e.token} == (Resets(init) - {e.token}).Keys;
      }
    }
  }

  /** Each issue follows its own lookup, each lookup its own acceptance, each reset its own token. */
  lemma {:induction false} FollowersAreFewer(log: Log)
    requires Sound(log)
    ensures Count(log, IsTokenIssued) + EndsWith(log, IsUserFound) <= Count(log, IsUserFound)
    ensures Count(log, IsUserFound) + EndsWith(log, IsCodeAccepted) <= Count(log, IsCodeAccepted)
    ensures Count(log, IsPasswordSet) + EndsWith(log, IsTokenSpent) <= Count(log, IsTokenSpent)
    decreases |log|
  {
    if log != [] {
      SoundPrefix(log, |log| - 1);
      FollowersAreFewer(log[..|log| - 1]);
      assert JustifiedAt(log, |log| - 1);
    }
  }

  /** In every run: resets are at most the tokens spent, tokens spent at most the tokens issued plus the
      spends whose deletion failed, tokens issued at most the forgot-password codes accepted, and those
      at most the codes stored plus the acceptances whose deletion failed. */
  lemma Conserved(now: int, calls: seq<Call>)
    ensures var log := Run(Fresh(now), calls).log;
            && Count(log, IsPasswordSet) <= Count(log, IsTokenSpent)
            && Count(log, IsTokenSpent) <= Count(log, IsTokenIssued) + Count(log, IsTokenKept)
            && Count(log, IsTokenIssued) <= Count(log, IsCodeAccepted)
            && Count(log, IsCodeAccepted) <= Count(log, IsCodeStored) + Count(log, IsCodeKept)
  {
    var log := Run(Fresh(now), calls).log;
    EveryRun(now, calls);
    CodeBalance(log);
    TokenBalance(log);
    FollowersAreFewer(log);
  }

  /** With every deletion succeeding: resets <= tokens issued <= forgot-password codes stored. */
  lemma ConservedWithoutFailures(now: int, calls: seq<Call>)
    requires var log := Run(Fresh(now), calls).log;
             forall i :: 0 <= i < |log| ==> !IsCodeKept(log[i]) && !IsTokenKept(log[i])
    ensures var log := Run(Fresh(now), calls).log;
            Count(log, IsPasswordSet) <= Count(log, IsTokenIssued) <= Count(log, IsCodeStored)
  {
    var log := Run(Fresh(now), calls).log;
    Conserved(now, calls);
    CountNone(log, IsCodeKept);
    CountNone(log, IsTokenKept);
  }

  lemma {:induction false} CountNone(log: Log, p: Event -> bool)
    requires forall i :: 0 <= i < |log| ==> !p(log[i])
    ensures Count(log, p) == 0
    decreases |log|
  {
    if log != [] {
      CountNone(log[..|log| - 1], p);
    }
  }
}
