/** What becomes of a freshly sent code while cache operations interleave. */
module CodeSurvival {
  import Sets
  import opened Keys
  import opened TypedStore
  import opened InterleavedChecks

  /** The step neither stores a new code for the slot nor deletes code `gen` after accepting it. */
  predicate Spares(s: Sys, step: Step, slot: Slot, gen: nat) {
    match step
    case Send(other, _) => other != slot
    case Delete(pid, fails) => fails || pid !in s.procs || s.procs[pid] != Accepting(slot, gen)
    case _ => true
  }

  predicate Sparing(s: Sys, steps: seq<Step>, slot: Slot, gen: nat, k: nat)
    requires Linked(s) && Possible(s, steps, k)
    decreases |steps|
  {
    steps == [] ||
    (Spares(s, steps[0], slot, gen) &&
     (LinkedAfter(s, steps[0], k); Sparing(Apply(s, steps[0], k), steps[1..], slot, gen, k)))
  }

  predicate IsMiss(step: Step, slot: Slot, code: string) {
    step.Read? && step.slot == slot && step.guess != code
  }

  function Misses(steps: seq<Step>, slot: Slot, code: string): nat {
    if steps == [] then 0 else (if IsMiss(steps[0], slot, code) then 1 else 0) + Misses(steps[1..], slot, code)
  }

  // ---------- With nobody under way ----------

  function RaisingIn(procs: map<nat, Stage>, slot: Slot): set<nat> {
    set p | p in procs && procs[p].Raising? && procs[p].slot == slot
  }

  /** A verifier of this code, after at most `m` wrong guesses at it. */
  predicate Tame(v: Stage, slot: Slot, gen: nat, m: nat) {
    v.slot == slot ==> v.gen == gen && !v.Discarding? && (v.Raising? ==> v.seen < m)
  }

  /** The code is still stored, and what its counter says and will say is covered by the wrong guesses. */
  ghost predicate Pending(s: Sys, slot: Slot, code: string, expiry: int, gen: nat, m: nat) {
    && slot in s.cells && s.cells[slot] == Cell(code, s.cells[slot].retry, expiry, gen)
    && s.cells[slot].retry + |RaisingIn(s.procs, slot)| <= m
    && (forall p :: p in s.procs ==> Tame(s.procs[p], slot, gen, m))
  }

  lemma RaisingInSet(procs: map<nat, Stage>, pid: nat, stage: Stage, slot: Slot)
    ensures RaisingIn(procs[pid := stage], slot) ==
            if stage.Raising? && stage.slot == slot then RaisingIn(procs, slot) + {pid}
            else RaisingIn(procs, slot) - {pid}
    ensures RaisingIn(procs - {pid}, slot) == RaisingIn(procs, slot) - {pid}
  {
  }

  lemma VerifierJoins(procs: map<nat, Stage>, pid: nat, stage: Stage, slot: Slot)
    requires pid !in procs
    ensures |RaisingIn(procs[pid := stage], slot)| ==
            |RaisingIn(procs, slot)| + if stage.Raising? && stage.slot == slot then 1 else 0
  {
    RaisingInSet(procs, pid, stage, slot);
    assert pid !in RaisingIn(procs, slot);
    assert RaisingIn(procs, slot) - {pid} == RaisingIn(procs, slot);
  }

  lemma ReadElsewhereKeepsPending(s: Sys, step: Step, k: nat, slot: Slot, code: string, expiry: int, gen: nat, m: nat)
    requires Linked(s) && step.Read? && Enabled(s, step, k) && Pending(s, slot, code, expiry, gen, m)
    requires step.slot != slot
    ensures Pending(Apply(s, step, k), slot, code, expiry, gen, m)
  {
    if Alive(s, step.slot) {
      VerifierJoins(s.procs, step.pid, Apply(s, step, k).procs[step.pid], slot);
    }
  }

  lemma ReadHereKeepsPending(s: Sys, step: Step, k: nat, slot: Slot, code: string, expiry: int, gen: nat, m: nat)
    requires Linked(s) && step.Read? && Enabled(s, step, k) && Pending(s, slot, code, expiry, gen, m) && m < MAX_RETRIES
    requires step.slot == slot
    ensures Pending(Apply(s, step, k), slot, code, expiry, gen, if step.guess != code then m + 1 else m)
  {
    if Alive(s, slot) {
      VerifierJoins(s.procs, step.pid, Apply(s, step, k).procs[step.pid], slot);
    }
  }

  lemma RaiseKeepsPending(s: Sys, step: Step, k: nat, slot: Slot, code: string, expiry: int, gen: nat, m: nat)
    requires Linked(s) && step.Raise? && Enabled(s, step, k)
    requires Pending(s, slot, code, expiry, gen, m) && m < MAX_RETRIES
    ensures Pending(Apply(s, step, k), slot, code, expiry, gen, m)
  {
    var s', p := Apply(s, step, k), s.procs[step.pid];
    RaisingInSet(s.procs, step.pid, Discarding(p.slot, p.gen), slot);
    assert Tame(p, slot, gen, m);
    if p.slot == slot {
      assert step.pid in RaisingIn(s.procs, slot);
    } else {
      assert RaisingIn(s.procs, slot) - {step.pid} == RaisingIn(s.procs, slot);
    }
  }

  lemma DeleteKeepsPending(s: Sys, step: Step, k: nat, slot: Slot, code: string, expiry: int, gen: nat, m: nat)
    requires Linked(s) && step.Delete? && Enabled(s, step, k) && Pending(s, slot, code, expiry, gen, m)
    requires Spares(s, step, slot, gen)
    ensures Pending(Apply(s, step, k), slot, code, expiry, gen, m)
  {
    RaisingInSet(s.procs, step.pid, s.procs[step.pid], slot);
    assert Tame(s.procs[step.pid], slot, gen, m);
    assert RaisingIn(s.procs, slot) - {step.pid} == RaisingIn(s.procs, slot);
  }

  lemma StepKeepsPending(s: Sys, step: Step, k: nat, slot: Slot, code: string, expiry: int, gen: nat, m: nat)
    requires Linked(s) && Enabled(s, step, k) && Pending(s, slot, code, expiry, gen, m) && m < MAX_RETRIES
    requires Spares(s, step, slot, gen)
    ensures Pending(Apply(s, step, k), slot, code, expiry, gen, if IsMiss(step, slot, code) then m + 1 else m)
  {
    match step
    case Read(_, _, _) =>
      if step.slot == slot {
        ReadHereKeepsPending(s, step, k, slot, code, expiry, gen, m);
      } else {
        ReadElsewhereKeepsPending(s, step, k, slot, code, expiry, gen, m);
      }
    case Raise(_, _) => RaiseKeepsPending(s, step, k, slot, code, expiry, gen, m);
    case Delete(_, _) => DeleteKeepsPending(s, step, k, slot, code, expiry, gen, m);
    case _ =>
  }

  lemma {:induction false} RunKeepsPending(s: Sys, steps: seq<Step>, k: nat, slot: Slot, code: string, expiry: int,
                                           gen: nat, m: nat)
    requires Linked(s) && Possible(s, steps, k) && Pending(s, slot, code, expiry, gen, m)
    requires Sparing(s, steps, slot, gen, k) && m + Misses(steps, slot, code) < MAX_RETRIES
    ensures Pending(Exec(s, steps, k), slot, code, expiry, gen, m + Misses(steps, slot, code))
    decreases |steps|
  {
    if steps != [] {
      LinkedAfter(s, steps[0], k);
      StepKeepsPending(s, steps[0], k, slot, code, expiry, gen, m);
      var m' := if IsMiss(steps[0], slot, code) then m + 1 else m;
      RunKeepsPending(Apply(s, steps[0], k), steps[1..], k, slot, code, expiry, gen, m');
    }
  }

  /** Whatever follows the sending of the code in `s`, with at most four wrong guesses at it, no other code sent
      and none of its own acceptances followed by a deletion: until it expires a check with it accepts it. */
  ghost predicate StaysGood(s: Sys, slot: Slot, code: string, k: nat)
    requires Linked(s)
  {
    LinkedAfter(s, Send(slot, code), k);
    var sent := Apply(s, Send(slot, code), k);
    forall more, pid ::
      Possible(sent, more, k) && Sparing(sent, more, slot, |s.codes|, k) && Misses(more, slot, code) <= 4 &&
      Exec(sent, more, k).now < s.now + TtlForPurpose(slot.purpose) &&
      Enabled(Exec(sent, more, k), Read(pid, slot, code), k) ==>
        Passes(Exec(sent, more, k), pid, slot, code, |s.codes|, k)
  }

  predicate Passes(s: Sys, pid: nat, slot: Slot, code: string, gen: nat, k: nat)
    requires Linked(s) && Enabled(s, Read(pid, slot, code), k)
  {
    var s' := Apply(s, Read(pid, slot, code), k);
    pid in s'.procs && s'.procs[pid] == Accepting(slot, gen)
  }

  lemma SentIsPending(s: Sys, slot: Slot, code: string, k: nat)
    requires Linked(s) && InFlight(s.procs, slot) == {}
    ensures Pending(Apply(s, Send(slot, code), k), slot, code, s.now + TtlForPurpose(slot.purpose), |s.codes|, 0)
  {
    assert forall p :: p in s.procs ==> (s.procs[p].slot == slot ==> p in InFlight(s.procs, slot));
    assert RaisingIn(s.procs, slot) == {};
  }

  lemma GoodWithNobodyUnderWay(s: Sys, slot: Slot, code: string, k: nat)
    requires Linked(s) && InFlight(s.procs, slot) == {}
    ensures StaysGood(s, slot, code, k)
  {
    LinkedAfter(s, Send(slot, code), k);
    var sent := Apply(s, Send(slot, code), k);
    SentIsPending(s, slot, code, k);
    forall more, pid |
      Possible(sent, more, k) && Sparing(sent, more, slot, |s.codes|, k) && Misses(more, slot, code) <= 4 &&
      Exec(sent, more, k).now < s.now + TtlForPurpose(slot.purpose) &&
      Enabled(Exec(sent, more, k), Read(pid, slot, code), k)
      ensures Passes(Exec(sent, more, k), pid, slot, code, |s.codes|, k)
    {
      RunKeepsPending(sent, more, k, slot, code, s.now + TtlForPurpose(slot.purpose), |s.codes|, 0);
    }
  }

  // ---------- With somebody under way ----------

  lemma {:induction false} SparingComposes(s: Sys, a: seq<Step>, b: seq<Step>, slot: Slot, gen: nat, k: nat)
    requires Linked(s) && Possible(s, a, k) && Possible(Exec(s, a, k), b, k)
    requires Sparing(s, a, slot, gen, k) && Sparing(Exec(s, a, k), b, slot, gen, k)
    ensures Possible(s, a + b, k) && Exec(s, a + b, k) == Exec(Exec(s, a, k), b, k)
    ensures Sparing(s, a + b, slot, gen, k)
    decreases |a|
  {
    RunsCompose(s, a, b, k);
    if a == [] {
      assert a + b == b;
    } else {
      LinkedAfter(s, a[0], k);
      SparingComposes(Apply(s, a[0], k), a[1..], b, slot, gen, k);
      assert (a + b)[1..] == a[1..] + b;
    }
  }

  lemma {:induction false} MissesAdd(a: seq<Step>, b: seq<Step>, slot: Slot, code: string)
    ensures Misses(a + b, slot, code) == Misses(a, slot, code) + Misses(b, slot, code)
    decreases |a|
  {
    if a == [] {
      assert a + b == b;
    } else {
      MissesAdd(a[1..], b, slot, code);
      assert (a + b)[1..] == a[1..] + b;
    }
  }

  lemma OneSparingStep(s: Sys, step: Step, slot: Slot, gen: nat, code: string, k: nat)
    requires Linked(s) && Enabled(s, step, k) && Spares(s, step, slot, gen)
    ensures Possible(s, [step], k) && Exec(s, [step], k) == Apply(s, step, k) && Sparing(s, [step], slot, gen, k)
    ensures Misses([step], slot, code) == if IsMiss(step, slot, code) then 1 else 0
  {
    OneStep(s, step, k);
    assert [step][1..] == [];
  }

  /** `steps` lead from s to s', sparing the code, with `m` wrong guesses at it. */
  ghost predicate Leads(s: Sys, steps: seq<Step>, s': Sys, slot: Slot, gen: nat, code: string, m: nat, k: nat) {
    && Linked(s) && Possible(s, steps, k) && Exec(s, steps, k) == s'
    && Sparing(s, steps, slot, gen, k) && Misses(steps, slot, code) == m
  }

  lemma LeadsOn(s: Sys, a: seq<Step>, s1: Sys, b: seq<Step>, s2: Sys, slot: Slot, gen: nat, code: string, m: nat,
                n: nat, k: nat)
    requires Leads(s, a, s1, slot, gen, code, m, k) && Leads(s1, b, s2, slot, gen, code, n, k)
    ensures Leads(s, a + b, s2, slot, gen, code, m + n, k)
  {
    SparingComposes(s, a, b, slot, gen, k);
    MissesAdd(a, b, slot, code);
  }

  /** The verifier p is done, and the slot has no code. */
  predicate Gone(s: Sys, s': Sys, p: nat, slot: Slot) {
    s'.now == s.now && slot !in s'.cells && s'.procs == s.procs - {p}
  }

  lemma MissIsRead(s: Sys, p: nat, slot: Slot, code: string, gen: nat, k: nat) returns (s1: Sys)
    requires Linked(s) && Alive(s, slot) && s.cells[slot].code == code && s.cells[slot].gen == gen
    requires s.cells[slot].retry < MAX_RETRIES && p !in s.procs && |InFlight(s.procs, slot)| < k
    ensures Leads(s, [Read(p, slot, code + "x")], s1, slot, gen, code, 1, k) && Linked(s1)
    ensures s1.now == s.now && s1.cells == s.cells
    ensures s1.procs == s.procs[p := Raising(slot, gen, s.cells[slot].retry)]
  {
    OneSparingStep(s, Read(p, slot, code + "x"), slot, gen, code, k);
    LinkedAfter(s, Read(p, slot, code + "x"), k);
    s1 := Apply(s, Read(p, slot, code + "x"), k);
  }

  /** A wrong guess by p, its increment landing. */
  lemma MissLands(s: Sys, p: nat, slot: Slot, code: string, gen: nat, k: nat) returns (steps: seq<Step>, s': Sys)
    requires Linked(s) && Alive(s, slot) && s.cells[slot].code == code && s.cells[slot].gen == gen
    requires s.cells[slot].retry < MAX_RETRIES && p !in s.procs && |InFlight(s.procs, slot)| < k
    ensures Leads(s, steps, s', slot, gen, code, 1, k) && Linked(s')
    ensures s'.now == s.now && s'.cells == s.cells[slot := s.cells[slot].(retry := s.cells[slot].retry + 1)]
    ensures s'.procs == if s.cells[slot].retry + 1 < MAX_RETRIES then s.procs else s.procs[p := Discarding(slot, gen)]
  {
    var s1 := MissIsRead(s, p, slot, code, gen, k);
    OneSparingStep(s1, Raise(p, false), slot, gen, code, k);
    s' := Apply(s1, Raise(p, false), k);
    LinkedAfter(s1, Raise(p, false), k);
    LeadsOn(s, [Read(p, slot, code + "x")], s1, [Raise(p, false)], s', slot, gen, code, 1, 0, k);
    steps := [Read(p, slot, code + "x")] + [Raise(p, false)];
    assert s1.procs - {p} == s.procs;
  }

  lemma DiscardLands(s: Sys, p: nat, slot: Slot, code: string, gen: nat, k: nat) returns (s': Sys)
    requires Linked(s) && p in s.procs && s.procs[p].slot == slot
    requires !s.procs[p].Raising? && s.procs[p] != Accepting(slot, gen)
    ensures Leads(s, [Delete(p, false)], s', slot, gen, code, 0, k) && Gone(s, s', p, slot)
  {
    OneSparingStep(s, Delete(p, false), slot, gen, code, k);
    s' := Apply(s, Delete(p, false), k);
  }

  /** Wrong guesses by p, one after the other, until the code is used up and deleted. */
  lemma {:induction false} WearOut(s: Sys, p: nat, slot: Slot, code: string, gen: nat, k: nat)
    returns (steps: seq<Step>, s': Sys)
    requires Linked(s) && Alive(s, slot) && s.cells[slot].code == code && s.cells[slot].gen == gen
    requires s.cells[slot].retry < MAX_RETRIES && p !in s.procs && |InFlight(s.procs, slot)| < k
    ensures Leads(s, steps, s', slot, gen, code, MAX_RETRIES - s.cells[slot].retry, k) && Gone(s, s', p, slot)
    decreases MAX_RETRIES - s.cells[slot].retry
  {
    var first, s1 := MissLands(s, p, slot, code, gen, k);
    var rest: seq<Step>;
    if s1.cells[slot].retry == MAX_RETRIES {
      s' := DiscardLands(s1, p, slot, code, gen, k);
      rest := [Delete(p, false)];
      LeadsOn(s, first, s1, rest, s', slot, gen, code, 1, 0, k);
      assert s'.procs == s.procs == s.procs - {p};
    } else {
      rest, s' := WearOut(s1, p, slot, code, gen, k);
      LeadsOn(s, first, s1, rest, s', slot, gen, code, 1, MAX_RETRIES - s1.cells[slot].retry, k);
    }
    steps := first + rest;
  }

  /** A verifier that compared a wrong guess with an earlier code raises the counter of the new one. */
  lemma StaleRaise(s: Sys, p: nat, slot: Slot, code: string, k: nat) returns (s1: Sys)
    requires Linked(s) && p in s.procs && s.procs[p].slot == slot && s.procs[p].Raising?
    ensures Leads(Apply(s, Send(slot, code), k), [Raise(p, false)], s1, slot, |s.codes|, code, 0, k) && Linked(s1)
    ensures Alive(s1, slot) && s1.cells[slot].code == code && s1.cells[slot].retry == 1
    ensures s1.cells[slot].gen == |s.codes| && s1.now == s.now
    ensures s1.procs == if s.procs[p].seen + 1 < MAX_RETRIES then s.procs - {p}
                        else s.procs[p := Discarding(slot, s.procs[p].gen)]
  {
    LinkedAfter(s, Send(slot, code), k);
    var sent := Apply(s, Send(slot, code), k);
    OneSparingStep(sent, Raise(p, false), slot, |s.codes|, code, k);
    s1 := Apply(sent, Raise(p, false), k);
    LinkedAfter(sent, Raise(p, false), k);
    assert Alive(sent, slot);
  }

  lemma StaleRaiser(s: Sys, p: nat, slot: Slot, code: string, k: nat) returns (steps: seq<Step>, s': Sys, m: nat)
    requires Linked(s) && p in s.procs && s.procs[p].slot == slot && |InFlight(s.procs, slot)| <= k
    requires s.procs[p].Raising?
    ensures m <= 4 && Gone(s, s', p, slot)
    ensures Leads(Apply(s, Send(slot, code), k), steps, s', slot, |s.codes|, code, m, k)
  {
    var gen := |s.codes|;
    var s1 := StaleRaise(s, p, slot, code, k);
    var rest: seq<Step>;
    if s.procs[p].seen + 1 >= MAX_RETRIES {
      assert Names(s.codes, s.procs[p].gen, slot);
      s' := DiscardLands(s1, p, slot, code, gen, k);
      rest, m := [Delete(p, false)], 0;
    } else {
      assert InFlight(s1.procs, slot) == InFlight(s.procs, slot) - {p} && p in InFlight(s.procs, slot);
      rest, s' := WearOut(s1, p, slot, code, gen, k);
      m := 4;
    }
    assert s'.procs == s.procs - {p};
    LeadsOn(Apply(s, Send(slot, code), k), [Raise(p, false)], s1, rest, s', slot, gen, code, 0, m, k);
    steps := [Raise(p, false)] + rest;
  }

  /** A verifier under way when the code is sent can delete it, or make it unable to bear four wrong guesses. */
  lemma StaleVerifier(s: Sys, p: nat, slot: Slot, code: string, k: nat) returns (steps: seq<Step>, s': Sys, m: nat)
    requires Linked(s) && p in s.procs && s.procs[p].slot == slot && |InFlight(s.procs, slot)| <= k
    ensures m <= 4 && Gone(s, s', p, slot)
    ensures Leads(Apply(s, Send(slot, code), k), steps, s', slot, |s.codes|, code, m, k)
  {
    if s.procs[p].Raising? {
      steps, s', m := StaleRaiser(s, p, slot, code, k);
    } else {
      LinkedAfter(s, Send(slot, code), k);
      assert Names(s.codes, s.procs[p].gen, slot);
      s' := DiscardLands(Apply(s, Send(slot, code), k), p, slot, code, |s.codes|, k);
      steps, m := [Delete(p, false)], 0;
    }
  }

  lemma NotGoodWithSomebodyUnderWay(s: Sys, p: nat, slot: Slot, code: string, k: nat)
    requires Linked(s) && p in s.procs && s.procs[p].slot == slot && |InFlight(s.procs, slot)| <= k
    ensures !StaysGood(s, slot, code, k)
  {
    var steps, s', m := StaleVerifier(s, p, slot, code, k);
    LinkedAfter(s, Send(slot, code), k);
    assert InFlight(s'.procs, slot) == InFlight(s.procs, slot) - {p} && p in InFlight(s.procs, slot);
    assert Enabled(s', Read(p, slot, code), k) && !Passes(s', p, slot, code, |s.codes|, k);
  }

  // ---------- Together ----------

  lemma {:induction false} FewUnderWay(s: Sys, steps: seq<Step>, slot: Slot, k: nat)
    requires Linked(s) && Possible(s, steps, k) && |InFlight(s.procs, slot)| <= k
    ensures |InFlight(Exec(s, steps, k).procs, slot)| <= k
    decreases |steps|
  {
    if steps != [] {
      LinkedAfter(s, steps[0], k);
      StepLeavesFew(s, steps[0], slot, k);
      FewUnderWay(Apply(s, steps[0], k), steps[1..], slot, k);
    }
  }

  lemma StepLeavesFew(s: Sys, step: Step, slot: Slot, k: nat)
    requires Linked(s) && Enabled(s, step, k) && |InFlight(s.procs, slot)| <= k
    ensures |InFlight(Apply(s, step, k).procs, slot)| <= k
  {
    var a, b := InFlight(s.procs, slot), InFlight(Apply(s, step, k).procs, slot);
    if step.Read? && step.slot == slot {
      assert b <= a + {step.pid};
      Sets.SmallerSet(b, a + {step.pid});
    } else {
      assert b <= a;
      Sets.SmallerSet(b, a);
    }
  }

  /** In every run: a code sent now stays good in every continuation with at most four wrong guesses at it, until
      it expires, is replaced or is redeemed, if and only if no verifier of its slot is under way. */
  lemma StaysGoodExactly(now: int, steps: seq<Step>, slot: Slot, code: string, k: nat)
    requires Possible(Start(now), steps, k)
    ensures var s := Exec(Start(now), steps, k); StaysGood(s, slot, code, k) <==> InFlight(s.procs, slot) == {}
  {
    var s := Exec(Start(now), steps, k);
    if InFlight(s.procs, slot) == {} {
      GoodWithNobodyUnderWay(s, slot, code, k);
    } else {
      FewUnderWay(Start(now), steps, slot, k);
      var p :| p in InFlight(s.procs, slot);
      NotGoodWithSomebodyUnderWay(s, p, slot, code, k);
    }
  }

  /** A code is sent and accepted, and its deletion is due. */
  function FirstAccepted(now: int, slot: Slot, first: string): Sys {
    Sys(now, map[slot := Cell(first, 0, now + TtlForPurpose(slot.purpose), 0)], map[0 := Accepting(slot, 0)],
        [Tally(slot, 0, 0, 0, 1, 0)])
  }

  lemma FirstIsAccepted(now: int, slot: Slot, first: string, k: nat)
    requires k >= 1
    ensures var steps := [Send(slot, first), Read(0, slot, first)];
            Possible(Start(now), steps, k) && Exec(Start(now), steps, k) == FirstAccepted(now, slot, first)
  {
    var s1 := Apply(Start(now), Send(slot, first), k);
    assert InFlight(s1.procs, slot) == {};
    TwoSteps(Start(now), Send(slot, first), Read(0, slot, first), k);
    assert Apply(s1, Read(0, slot, first), k).codes == [Tally(slot, 0, 0, 0, 1, 0)];
  }

  /** So the deletion after an acceptance can remove a code nobody has presented: the first code is accepted,
      a second one is sent, and the deletion due for the first takes the second. */
  lemma DeletionTakesFreshCode(now: int, slot: Slot, first: string, second: string, k: nat)
    requires k >= 1
    ensures var steps := [Send(slot, first), Read(0, slot, first)] + [Send(slot, second), Delete(0, false)];
            Possible(Start(now), steps, k) &&
            var s := Exec(Start(now), steps, k);
            slot !in s.cells && s.codes == [Tally(slot, 0, 0, 0, 1, 0), Tally(slot, 0, 0, 0, 0, 0)]
  {
    FirstIsAccepted(now, slot, first, k);
    var s2 := FirstAccepted(now, slot, first);
    LinkedAfter(s2, Send(slot, second), k);
    TwoSteps(s2, Send(slot, second), Delete(0, false), k);
    RunsCompose(Start(now), [Send(slot, first), Read(0, slot, first)], [Send(slot, second), Delete(0, false)], k);
  }
}
