/** Code checks with their cache operations interleaved: any number of senders and verifiers, one
    cache operation per step, any operation may fail. */
module InterleavedChecks {
  import Sets
  import opened Keys
  import opened TypedStore

  // ---------- The system ----------

  /** A stored code; `gen` is its number in the order of storing. */
  datatype Cell = Cell(code: string, retry: int, expiry: int, gen: nat)

  /** What a verifier that has read code `gen` does next. */
  datatype Stage =
    | Raising(slot: Slot, gen: nat, seen: int)   // compared wrong: raise the counter
    | Discarding(slot: Slot, gen: nat)           // budget used up: delete
    | Accepting(slot: Slot, gen: nat)            // compared right: delete

  /** What has happened to one stored code so far. */
  datatype Tally = Tally(
    slot: Slot,
    wrong: nat,      // wrong guesses compared with it
    lost: nat,       // of these, how many failed to raise the counter
    raised: nat,     // increments that landed on it
    accepted: nat,   // verifiers that found it to match
    kept: nat)       // of these, how many failed to delete

  datatype Sys = Sys(now: int, cells: map<Slot, Cell>, procs: map<nat, Stage>, codes: seq<Tally>)

  datatype Step =
    | Wait(d: nat)
    | Send(slot: Slot, code: string)
    | Read(pid: nat, slot: Slot, guess: string)
    | Raise(pid: nat, fails: bool)
    | Delete(pid: nat, fails: bool)

  function Start(now: int): Sys {
    Sys(now, map[], map[], [])
  }

  function InFlight(procs: map<nat, Stage>, slot: Slot): set<nat> {
    set p | p in procs && procs[p].slot == slot
  }

  /** At most `k` verifiers of one slot are under way. */
  predicate Enabled(s: Sys, step: Step, k: nat) {
    match step
    case Wait(_) => true
    case Send(_, _) => true
    case Read(pid, slot, _) => pid !in s.procs && |InFlight(s.procs, slot)| < k
    case Raise(pid, _) => pid in s.procs && s.procs[pid].Raising?
    case Delete(pid, _) => pid in s.procs && !s.procs[pid].Raising?
  }

  predicate Alive(s: Sys, slot: Slot) {
    slot in s.cells && s.now < s.cells[slot].expiry
  }

  predicate Names(codes: seq<Tally>, gen: nat, slot: Slot) {
    gen < |codes| && codes[gen].slot == slot
  }

  /** Every cell and every stage belongs to a stored code of its slot. */
  predicate Linked(s: Sys) {
    && (forall slot :: slot in s.cells ==> Names(s.codes, s.cells[slot].gen, slot))
    && (forall p :: p in s.procs ==> Names(s.codes, s.procs[p].gen, s.procs[p].slot))
  }

  function Apply(s: Sys, step: Step, k: nat): Sys
    requires Linked(s) && Enabled(s, step, k)
  {
    match step
    case Wait(d) => s.(now := s.now + d)
    case Send(slot, code) =>
      s.(cells := s.cells[slot := Cell(code, 0, s.now + TtlForPurpose(slot.purpose), |s.codes|)],
         codes := s.codes + [Tally(slot, 0, 0, 0, 0, 0)])
    case Read(pid, slot, guess) =>
      if !Alive(s, slot) then s
      else
        var c := s.cells[slot];
        var t := s.codes[c.gen];
        if c.retry >= MAX_RETRIES then s.(procs := s.procs[pid := Discarding(slot, c.gen)])
        else if c.code != guess then
          s.(procs := s.procs[pid := Raising(slot, c.gen, c.retry)],
             codes := s.codes[c.gen := t.(wrong := t.wrong + 1)])
        else
          s.(procs := s.procs[pid := Accepting(slot, c.gen)],
             codes := s.codes[c.gen := t.(accepted := t.accepted + 1)])
    case Raise(pid, fails) =>
      var p := s.procs[pid];
      var procs := if p.seen + 1 >= MAX_RETRIES then s.procs[pid := Discarding(p.slot, p.gen)] else s.procs - {pid};
      if fails then
        var t := s.codes[p.gen];
        s.(procs := procs, codes := s.codes[p.gen := t.(lost := t.lost + 1)])
      else if !Alive(s, p.slot) then s.(procs := procs)
      else
        var c := s.cells[p.slot];
        var t := s.codes[c.gen];
        s.(procs := procs, cells := s.cells[p.slot := c.(retry := c.retry + 1)],
           codes := s.codes[c.gen := t.(raised := t.raised + 1)])
    case Delete(pid, fails) =>
      var p := s.procs[pid];
      var t := s.codes[p.gen];
      s.(procs := s.procs - {pid}, cells := if fails then s.cells else s.cells - {p.slot},
         codes := if fails && p.Accepting? then s.codes[p.gen := t.(kept := t.kept + 1)] else s.codes)
  }

  // ---------- The invariant ----------

  function RaisingOf(procs: map<nat, Stage>, gen: nat): set<nat> {
    set p | p in procs && procs[p].Raising? && procs[p].gen == gen
  }

  function AcceptingOf(procs: map<nat, Stage>, gen: nat): set<nat> {
    set p | p in procs && procs[p].Accepting? && procs[p].gen == gen
  }

  /** While a code can still be read, each wrong guess has raised its counter, is about to, or failed to;
      while it is still stored, each acceptance is about to delete it or failed to. */
  ghost predicate Accounted(now: int, c: Cell, t: Tally, procs: map<nat, Stage>) {
    && c.retry == t.raised
    && (now < c.expiry ==> t.wrong <= t.raised + |RaisingOf(procs, c.gen)| + t.lost)
    && t.accepted <= |AcceptingOf(procs, c.gen)| + t.kept
  }

  ghost predicate AccountedAt(s: Sys, slot: Slot) {
    slot in s.cells ==>
      var c := s.cells[slot];
      Names(s.codes, c.gen, slot) && Accounted(s.now, c, s.codes[c.gen], s.procs)
  }

  predicate Bounded(t: Tally, k: nat) {
    t.wrong <= MAX_RETRIES - 1 + k + t.lost && t.accepted <= k + t.kept
  }

  ghost predicate Inv(s: Sys, k: nat) {
    && Linked(s)
    && (forall slot :: AccountedAt(s, slot))
    && (forall g :: 0 <= g < |s.codes| ==> Bounded(s.codes[g], k))
  }

  /** The verifiers of one code are among those of its slot. */
  lemma StagesAreInFlight(s: Sys, slot: Slot)
    requires Linked(s) && slot in s.cells
    ensures |RaisingOf(s.procs, s.cells[slot].gen)| <= |InFlight(s.procs, slot)|
    ensures |AcceptingOf(s.procs, s.cells[slot].gen)| <= |InFlight(s.procs, slot)|
  {
    Sets.SmallerSet(RaisingOf(s.procs, s.cells[slot].gen), InFlight(s.procs, slot));
    Sets.SmallerSet(AcceptingOf(s.procs, s.cells[slot].gen), InFlight(s.procs, slot));
  }

  /** Setting one verifier's stage, or removing it, moves it between the sets and nobody else. */
  lemma StageSet(procs: map<nat, Stage>, pid: nat, stage: Stage, g: nat)
    ensures RaisingOf(procs[pid := stage], g) ==
            if stage.Raising? && stage.gen == g then RaisingOf(procs, g) + {pid} else RaisingOf(procs, g) - {pid}
    ensures AcceptingOf(procs[pid := stage], g) ==
            if stage.Accepting? && stage.gen == g then AcceptingOf(procs, g) + {pid} else AcceptingOf(procs, g) - {pid}
  {
  }

  lemma StageGone(procs: map<nat, Stage>, pid: nat, g: nat)
    ensures RaisingOf(procs - {pid}, g) == RaisingOf(procs, g) - {pid}
    ensures AcceptingOf(procs - {pid}, g) == AcceptingOf(procs, g) - {pid}
  {
  }

  lemma LinkedAfter(s: Sys, step: Step, k: nat)
    requires Linked(s) && Enabled(s, step, k)
    ensures Linked(Apply(s, step, k))
  {
    var s' := Apply(s, step, k);
    forall slot | slot in s'.cells
      ensures Names(s'.codes, s'.cells[slot].gen, slot)
    {
      CellStaysLinked(s, step, k, slot);
    }
    forall p | p in s'.procs
      ensures Names(s'.codes, s'.procs[p].gen, s'.procs[p].slot)
    {
      StageStaysLinked(s, step, k, p);
    }
  }

  lemma CellStaysLinked(s: Sys, step: Step, k: nat, slot: Slot)
    requires Linked(s) && Enabled(s, step, k)
    ensures var s' := Apply(s, step, k);
            slot in s'.cells ==> Names(s'.codes, s'.cells[slot].gen, slot)
  {
    CodesKeepTheirSlots(s, step, k);
    assert slot in s.cells ==> Names(s.codes, s.cells[slot].gen, slot);
  }

  lemma StageStaysLinked(s: Sys, step: Step, k: nat, p: nat)
    requires Linked(s) && Enabled(s, step, k)
    ensures var s' := Apply(s, step, k);
            p in s'.procs ==> Names(s'.codes, s'.procs[p].gen, s'.procs[p].slot)
  {
    CodesKeepTheirSlots(s, step, k);
    assert p in s.procs ==> Names(s.codes, s.procs[p].gen, s.procs[p].slot);
  }

  lemma CodesKeepTheirSlots(s: Sys, step: Step, k: nat)
    requires Linked(s) && Enabled(s, step, k)
    ensures forall g, slot :: Names(s.codes, g, slot) ==> Names(Apply(s, step, k).codes, g, slot)
  {
  }

  /** A stage of another code joining, moving or leaving does not matter. */
  lemma ElsewhereAccounted(now: int, c: Cell, t: Tally, procs: map<nat, Stage>, pid: nat, stage: Stage)
    requires Accounted(now, c, t, procs)
    requires pid in procs ==> procs[pid].gen != c.gen
    ensures stage.gen != c.gen || stage.Discarding? ==> Accounted(now, c, t, procs[pid := stage])
    ensures Accounted(now, c, t, procs - {pid})
  {
    StageSet(procs, pid, stage, c.gen);
    StageGone(procs, pid, c.gen);
    assert RaisingOf(procs, c.gen) - {pid} == RaisingOf(procs, c.gen);
    assert AcceptingOf(procs, c.gen) - {pid} == AcceptingOf(procs, c.gen);
  }

  /** A verifier that just compared a wrong guess, or the right one, joins. */
  lemma JoinAccounted(now: int, c: Cell, t: Tally, procs: map<nat, Stage>, pid: nat, slot: Slot, seen: int)
    requires Accounted(now, c, t, procs) && pid !in procs
    ensures Accounted(now, c, t.(wrong := t.wrong + 1), procs[pid := Raising(slot, c.gen, seen)])
    ensures Accounted(now, c, t.(accepted := t.accepted + 1), procs[pid := Accepting(slot, c.gen)])
  {
    StageSet(procs, pid, Raising(slot, c.gen, seen), c.gen);
    StageSet(procs, pid, Accepting(slot, c.gen), c.gen);
    assert pid !in RaisingOf(procs, c.gen) && pid !in AcceptingOf(procs, c.gen);
    assert RaisingOf(procs, c.gen) - {pid} == RaisingOf(procs, c.gen);
    assert AcceptingOf(procs, c.gen) - {pid} == AcceptingOf(procs, c.gen);
  }

  /** A verifier of this code raises its counter or fails to, and goes on to delete or is done. */
  lemma RaiseAccounted(now: int, c: Cell, t: Tally, procs: map<nat, Stage>, pid: nat, slot: Slot,
                       after: map<nat, Stage>)
    requires Accounted(now, c, t, procs) && pid in procs && procs[pid].Raising? && procs[pid].gen == c.gen
    requires after == procs[pid := Discarding(slot, c.gen)] || after == procs - {pid}
    ensures Accounted(now, c, t.(lost := t.lost + 1), after)
    ensures Accounted(now, c.(retry := c.retry + 1), t.(raised := t.raised + 1), after)
  {
    StageSet(procs, pid, Discarding(slot, c.gen), c.gen);
    StageGone(procs, pid, c.gen);
    assert pid in RaisingOf(procs, c.gen) && pid !in AcceptingOf(procs, c.gen);
    assert AcceptingOf(procs, c.gen) - {pid} == AcceptingOf(procs, c.gen);
  }

  lemma ReadAccounts(s: Sys, pid: nat, slot: Slot, guess: string, k: nat, q: Slot)
    requires Linked(s) && AccountedAt(s, q) && Enabled(s, Read(pid, slot, guess), k)
    ensures AccountedAt(Apply(s, Read(pid, slot, guess), k), q)
  {
    var s' := Apply(s, Read(pid, slot, guess), k);
    if Alive(s, slot) && q in s.cells {
      var c := s.cells[q];
      assert Names(s.codes, s.cells[slot].gen, slot);
      ElsewhereAccounted(s.now, c, s.codes[c.gen], s.procs, pid, s'.procs[pid]);
      JoinAccounted(s.now, c, s.codes[c.gen], s.procs, pid, slot, c.retry);
    }
  }

  lemma ReadBounds(s: Sys, pid: nat, slot: Slot, guess: string, k: nat, g: nat)
    requires Inv(s, k) && Enabled(s, Read(pid, slot, guess), k) && g < |s.codes|
    ensures Bounded(Apply(s, Read(pid, slot, guess), k).codes[g], k)
  {
    assert Bounded(s.codes[g], k);
    if Alive(s, slot) {
      StagesAreInFlight(s, slot);
      assert AccountedAt(s, slot);
    }
  }

  lemma RaiseAccounts(s: Sys, pid: nat, fails: bool, k: nat, q: Slot)
    requires Linked(s) && AccountedAt(s, q) && Enabled(s, Raise(pid, fails), k)
    ensures AccountedAt(Apply(s, Raise(pid, fails), k), q)
  {
    if q in s.cells {
      var p, c := s.procs[pid], s.cells[q];
      assert Names(s.codes, p.gen, p.slot);
      assert p.slot in s.cells ==> Names(s.codes, s.cells[p.slot].gen, p.slot);
      if p.gen == c.gen {
        RaiseAccounted(s.now, c, s.codes[c.gen], s.procs, pid, p.slot, Apply(s, Raise(pid, fails), k).procs);
      } else {
        ElsewhereAccounted(s.now, c, s.codes[c.gen], s.procs, pid, Discarding(p.slot, p.gen));
      }
    }
  }

  lemma DeleteAccounts(s: Sys, pid: nat, fails: bool, k: nat, q: Slot)
    requires Linked(s) && AccountedAt(s, q) && Enabled(s, Delete(pid, fails), k)
    ensures AccountedAt(Apply(s, Delete(pid, fails), k), q)
  {
    assert AccountedAt(s, q);
    if q in s.cells {
      StageGone(s.procs, pid, s.cells[q].gen);
      assert s.procs[pid].gen == s.cells[q].gen ==> s.procs[pid].slot == q;
    }
  }

  lemma SendAccounts(s: Sys, slot: Slot, code: string, k: nat, q: Slot)
    requires Linked(s) && AccountedAt(s, q)
    ensures AccountedAt(Apply(s, Send(slot, code), k), q)
  {
    assert AccountedAt(s, q);
  }

  lemma StepKeepsInv(s: Sys, step: Step, k: nat)
    requires Inv(s, k) && Enabled(s, step, k)
    ensures Inv(Apply(s, step, k), k)
  {
    var s' := Apply(s, step, k);
    LinkedAfter(s, step, k);
    forall q
      ensures AccountedAt(s', q)
    {
      match step
      case Wait(d) => assert AccountedAt(s, q);
      case Send(slot, code) => SendAccounts(s, slot, code, k, q);
      case Read(pid, slot, guess) => ReadAccounts(s, pid, slot, guess, k, q);
      case Raise(pid, fails) => RaiseAccounts(s, pid, fails, k, q);
      case Delete(pid, fails) => DeleteAccounts(s, pid, fails, k, q);
    }
    forall g | 0 <= g < |s'.codes|
      ensures Bounded(s'.codes[g], k)
    {
      if step.Read? {
        ReadBounds(s, step.pid, step.slot, step.guess, k, g);
      } else if g < |s.codes| {
        assert Bounded(s.codes[g], k);
      }
    }
  }

  // ---------- Runs ----------

  /** Every step is enabled where it is taken. */
  predicate Possible(s: Sys, steps: seq<Step>, k: nat)
    requires Linked(s)
    decreases |steps|
  {
    steps == [] ||
    (Enabled(s, steps[0], k) && (LinkedAfter(s, steps[0], k); Possible(Apply(s, steps[0], k), steps[1..], k)))
  }

  function Exec(s: Sys, steps: seq<Step>, k: nat): (s': Sys)
    requires Linked(s) && Possible(s, steps, k)
    ensures Linked(s')
    decreases |steps|
  {
    if steps == [] then s
    else
      LinkedAfter(s, steps[0], k);
      Exec(Apply(s, steps[0], k), steps[1..], k)
  }

  lemma {:induction false} ExecKeepsInv(s: Sys, steps: seq<Step>, k: nat)
    requires Inv(s, k) && Possible(s, steps, k)
    ensures Inv(Exec(s, steps, k), k)
    decreases |steps|
  {
    if steps != [] {
      StepKeepsInv(s, steps[0], k);
      ExecKeepsInv(Apply(s, steps[0], k), steps[1..], k);
    }
  }

  /** With at most `k` checks of one slot under way, however they, re-sends and failures interleave, each
      stored code is compared with at most 4 + k wrong guesses, plus one for each of them that failed
      to raise the counter; and it is accepted at most k times, plus one for each acceptance that failed
      to delete it. Failed deletions of used-up codes cost nothing. */
  lemma GuessAndUseBound(now: int, steps: seq<Step>, k: nat, g: nat)
    requires Possible(Start(now), steps, k) && g < |Exec(Start(now), steps, k).codes|
    ensures var t := Exec(Start(now), steps, k).codes[g];
            t.wrong <= 4 + k + t.lost && t.accepted <= k + t.kept
  {
    ExecKeepsInv(Start(now), steps, k);
  }

  /** The guard before the comparison fires exactly when five increments have landed: in every run, a read of
      a live code goes on to delete it unseen if and only if its counter was raised five times, whoever
      raised it and whether or not a deletion was ever due. */
  lemma GuardFiresExactly(now: int, steps: seq<Step>, k: nat, pid: nat, slot: Slot, guess: string)
    requires Possible(Start(now), steps, k)
    requires var s := Exec(Start(now), steps, k); Enabled(s, Read(pid, slot, guess), k) && Alive(s, slot)
    ensures var s := Exec(Start(now), steps, k);
            Apply(s, Read(pid, slot, guess), k).procs[pid].Discarding? <==>
            s.codes[s.cells[slot].gen].raised >= MAX_RETRIES
  {
    ExecKeepsInv(Start(now), steps, k);
    assert AccountedAt(Exec(Start(now), steps, k), slot);
  }

  /** Once five increments have landed on a code, no read of it that begins afterwards compares anything. */
  lemma NoComparisonAfterFive(now: int, steps: seq<Step>, k: nat, pid: nat, slot: Slot, guess: string)
    requires Possible(Start(now), steps, k)
    requires var s := Exec(Start(now), steps, k);
             Enabled(s, Read(pid, slot, guess), k) && Alive(s, slot) && s.codes[s.cells[slot].gen].raised >= MAX_RETRIES
    ensures var s := Exec(Start(now), steps, k); var s' := Apply(s, Read(pid, slot, guess), k);
            s'.codes == s.codes && s'.procs[pid].Discarding?
  {
    ExecKeepsInv(Start(now), steps, k);
    assert AccountedAt(Exec(Start(now), steps, k), slot);
  }

  lemma {:induction false} RunsCompose(s: Sys, a: seq<Step>, b: seq<Step>, k: nat)
    requires Linked(s) && Possible(s, a, k) && Possible(Exec(s, a, k), b, k)
    ensures Possible(s, a + b, k) && Exec(s, a + b, k) == Exec(Exec(s, a, k), b, k)
    decreases |a|
  {
    if a == [] {
      assert a + b == b;
    } else {
      LinkedAfter(s, a[0], k);
      RunsCompose(Apply(s, a[0], k), a[1..], b, k);
      assert (a + b)[1..] == a[1..] + b;
    }
  }

  lemma OneStep(s: Sys, a: Step, k: nat)
    requires Linked(s) && Enabled(s, a, k)
    ensures Possible(s, [a], k) && Exec(s, [a], k) == Apply(s, a, k)
  {
    LinkedAfter(s, a, k);
    assert [a][1..] == [];
    assert Possible(Apply(s, a, k), [], k);
  }

  lemma TwoSteps(s: Sys, a: Step, b: Step, k: nat)
    requires Linked(s) && Enabled(s, a, k) && Linked(Apply(s, a, k)) && Enabled(Apply(s, a, k), b, k)
    ensures Possible(s, [a, b], k) && Exec(s, [a, b], k) == Apply(Apply(s, a, k), b, k)
  {
    OneStep(s, a, k);
    OneStep(Apply(s, a, k), b, k);
    RunsCompose(s, [a], [b], k);
    assert [a] + [b] == [a, b];
  }
}
