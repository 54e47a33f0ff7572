/** The balances of a run are exact: for every number of failed deletions some run meets all of them with
    equality. */
module ConservationAttained {
  import opened Wrappers
  import opened Keys
  import opened TypedStore
  import opened Protocol
  import opened Conservation
  import Text

  /** How many of the events that the balances are about a log holds. */
  datatype Sums = Sums(
    stored: nat, accepted: nat, codesKept: nat, issued: nat, spent: nat, tokensKept: nat, passwords: nat)

  function SumsOf(log: Log): Sums {
    Sums(Count(log, IsCodeStored), Count(log, IsCodeAccepted), Count(log, IsCodeKept), Count(log, IsTokenIssued),
         Count(log, IsTokenSpent), Count(log, IsTokenKept), Count(log, IsPasswordSet))
  }

  function One(b: bool): nat {
    if b then 1 else 0
  }

  function Plus(s: Sums, e: Event): Sums {
    Sums(s.stored + One(IsCodeStored(e)), s.accepted + One(IsCodeAccepted(e)), s.codesKept + One(IsCodeKept(e)),
         s.issued + One(IsTokenIssued(e)), s.spent + One(IsTokenSpent(e)), s.tokensKept + One(IsTokenKept(e)),
         s.passwords + One(IsPasswordSet(e)))
  }

  lemma CountAppend(log: Log, e: Event, p: Event -> bool)
    ensures Count(log + [e], p) == Count(log, p) + One(p(e))
  {
    assert (log + [e])[..|log|] == log;
  }

  lemma SumsAppend(log: Log, e: Event)
    ensures SumsOf(log + [e]) == Plus(SumsOf(log), e)
  {
    CountAppend(log, e, IsCodeStored);
    CountAppend(log, e, IsCodeAccepted);
    CountAppend(log, e, IsCodeKept);
    CountAppend(log, e, IsTokenIssued);
    CountAppend(log, e, IsTokenSpent);
    CountAppend(log, e, IsTokenKept);
    CountAppend(log, e, IsPasswordSet);
  }

  // ---------- The calls of the run ----------

  const USER := "user"
  const TOKEN := "token"

  function SlotFor(email: string): Slot {
    Slot(Forgot, Text.Normalise(email))
  }

  function DataFor(email: string): ResetTokenData {
    ResetTokenData(Text.Normalise(email), USER)
  }

  function SendCall(email: string, draw: Text.Draw): Call {
    SendOTP(Forgot, email, SendEnv(Some(USER), draw, false, Acknowledged, false))
  }

  function VerifyCall(email: string, draw: Text.Draw, deleteFails: bool): Call {
    VerifyOTP(VerifyRequest(Forgot, email, Text.CodeOf(draw), "", ""), "",
              VerifyEnv(Faults(false, false, deleteFails), "", Acknowledged, Registered, false, Some(USER), TOKEN,
                        Acknowledged, Written))
  }

  function ResetCall(deleteFails: bool): Call {
    ResetPassword(TOKEN, ResetEnv(false, deleteFails, false, false))
  }

  /** The code is there to be accepted. */
  predicate HasCode(w: World, email: string, draw: Text.Draw) {
    Live(w.db.otps, SlotFor(email), w.now) == Some(OtpData(Text.CodeOf(draw), 0))
  }

  predicate HasToken(w: World, email: string) {
    Live(w.db.resets, TOKEN, w.now) == Some(DataFor(email))
  }

  lemma Sends(now: int, email: string, draw: Text.Draw)
    ensures var w := Step(Fresh(now), SendCall(email, draw)).0;
            HasCode(w, email, draw) && SumsOf(w.log) == Sums(1, 0, 0, 0, 0, 0, 0)
  {
    SumsAppend([], CodeStored(SlotFor(email), Text.CodeOf(draw), now));
  }

  /** Accepted, the user found, a token issued. */
  lemma VerifyEvents(w: World, email: string, draw: Text.Draw, fails: bool)
    requires HasCode(w, email, draw)
    ensures var w' := Step(w, VerifyCall(email, draw, fails)).0;
            HasToken(w', email) && (fails ==> HasCode(w', email, draw)) &&
            w'.log == w.log + [CodeAccepted(SlotFor(email), Text.CodeOf(draw), w.now, !fails)] +
                      [UserFound(Text.Normalise(email), USER, w.now)] + [TokenIssued(TOKEN, DataFor(email), w.now)]
  {
    Text.CodesAreSixDigits(draw);
  }

  lemma Verifies(w: World, email: string, draw: Text.Draw, fails: bool)
    requires HasCode(w, email, draw)
    ensures var w' := Step(w, VerifyCall(email, draw, fails)).0;
            HasToken(w', email) && (fails ==> HasCode(w', email, draw)) &&
            var s := SumsOf(w.log);
            SumsOf(w'.log) ==
            s.(accepted := s.accepted + 1, codesKept := s.codesKept + One(fails), issued := s.issued + 1)
  {
    VerifyEvents(w, email, draw, fails);
    var a := CodeAccepted(SlotFor(email), Text.CodeOf(draw), w.now, !fails);
    var b, c := UserFound(Text.Normalise(email), USER, w.now), TokenIssued(TOKEN, DataFor(email), w.now);
    SumsAppend(w.log, a);
    SumsAppend(w.log + [a], b);
    SumsAppend(w.log + [a] + [b], c);
  }

  lemma Resets(w: World, email: string, draw: Text.Draw, fails: bool)
    requires HasToken(w, email)
    ensures var w' := Step(w, ResetCall(fails)).0;
            (fails ==> HasToken(w', email)) && (HasCode(w, email, draw) ==> HasCode(w', email, draw)) &&
            var s := SumsOf(w.log);
            SumsOf(w'.log) ==
            s.(spent := s.spent + 1, tokensKept := s.tokensKept + One(fails), passwords := s.passwords + 1)
  {
    var a, b := TokenSpent(TOKEN, DataFor(email), w.now, !fails), PasswordSet(USER, w.now, true);
    assert Step(w, ResetCall(fails)).0.log == w.log + [a] + [b];
    SumsAppend(w.log, a);
    SumsAppend(w.log + [a], b);
  }

  lemma {:induction false} RunComposes(w: World, a: seq<Call>, b: seq<Call>)
    ensures Run(w, a + b) == Run(Run(w, a), b)
    decreases |a|
  {
    if a == [] {
      assert a + b == b;
    } else {
      RunComposes(Step(w, a[0]).0, a[1..], b);
      assert (a + b)[1..] == a[1..] + b;
    }
  }

  lemma RunOne(w: World, c: Call)
    ensures Run(w, [c]) == Step(w, c).0
  {
    assert [c][1..] == [];
  }

  // ---------- The run ----------

  /** d acceptances whose deletion fails, each followed by the reset it allows. */
  lemma {:induction false} Rounds(w: World, email: string, draw: Text.Draw, d: nat) returns (calls: seq<Call>)
    requires HasCode(w, email, draw)
    ensures var w' := Run(w, calls);
            HasCode(w', email, draw) &&
            var s := SumsOf(w.log);
            SumsOf(w'.log) == s.(accepted := s.accepted + d, codesKept := s.codesKept + d, issued := s.issued + d,
                                 spent := s.spent + d, passwords := s.passwords + d)
    decreases d
  {
    if d == 0 {
      calls := [];
    } else {
      var before := Rounds(w, email, draw, d - 1);
      var w1 := Run(w, before);
      var verify, reset := VerifyCall(email, draw, true), ResetCall(false);
      Verifies(w1, email, draw, true);
      Resets(Step(w1, verify).0, email, draw, false);
      RunOne(w1, verify);
      RunOne(Step(w1, verify).0, reset);
      RunComposes(w1, [verify], [reset]);
      RunComposes(w, before, [verify] + [reset]);
      calls := before + ([verify] + [reset]);
    }
  }

  /** e resets with a token whose deletion fails each time. */
  lemma {:induction false} Repeats(w: World, email: string, draw: Text.Draw, e: nat) returns (calls: seq<Call>)
    requires HasToken(w, email)
    ensures var w' := Run(w, calls);
            HasToken(w', email) &&
            var s := SumsOf(w.log);
            SumsOf(w'.log) ==
            s.(spent := s.spent + e, tokensKept := s.tokensKept + e, passwords := s.passwords + e)
    decreases e
  {
    if e == 0 {
      calls := [];
    } else {
      var before := Repeats(w, email, draw, e - 1);
      Resets(Run(w, before), email, draw, true);
      RunOne(Run(w, before), ResetCall(true));
      RunComposes(w, before, [ResetCall(true)]);
      calls := before + [ResetCall(true)];
    }
  }

  lemma WholeRun(now: int, email: string, draw: Text.Draw, d: nat, e: nat) returns (calls: seq<Call>)
    ensures SumsOf(Run(Fresh(now), calls).log) == Sums(1, d + 1, d, d + 1, d + 1 + e, e, d + 1 + e)
  {
    var send, verify, reset := SendCall(email, draw), VerifyCall(email, draw, false), ResetCall(false);
    Sends(now, email, draw);
    RunOne(Fresh(now), send);
    var w1 := Run(Fresh(now), [send]);
    var rounds := Rounds(w1, email, draw, d);
    RunComposes(Fresh(now), [send], rounds);
    var w2 := Run(w1, rounds);
    Verifies(w2, email, draw, false);
    RunOne(w2, verify);
    RunComposes(Fresh(now), [send] + rounds, [verify]);
    var w3 := Run(w2, [verify]);
    var repeats := Repeats(w3, email, draw, e);
    RunComposes(Fresh(now), [send] + rounds + [verify], repeats);
    var w4 := Run(w3, repeats);
    Resets(w4, email, draw, false);
    RunOne(w4, reset);
    calls := [send] + rounds + [verify] + repeats + [reset];
    RunComposes(Fresh(now), [send] + rounds + [verify] + repeats, [reset]);
  }

  /** All five quantities of the conservation law are tied with equality in some run, for every number d of
      acceptances and every number e of spends whose deletion failed. */
  lemma SlackIsExact(now: int, d: nat, e: nat)
    ensures exists calls :: var log := Run(Fresh(now), calls).log;
              && Count(log, IsCodeKept) == d && Count(log, IsTokenKept) == e
              && Count(log, IsPasswordSet) == Count(log, IsTokenSpent)
              && Count(log, IsTokenSpent) == Count(log, IsTokenIssued) + e
              && Count(log, IsTokenIssued) == Count(log, IsCodeAccepted)
              && Count(log, IsCodeAccepted) == Count(log, IsCodeStored) + d
  {
    var calls := WholeRun(now, "", 0, d, e);
    var log := Run(Fresh(now), calls).log;
    assert SumsOf(log) == Sums(1, d + 1, d, d + 1, d + 1 + e, e, d + 1 + e);
  }
}
