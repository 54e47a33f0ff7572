/** When the guard before the comparison refuses a code that no failed deletion left behind: only if checks
    of the slot overlap, and then for every number of them. */
module LockoutUnderOverlap {
  import Sets
  import opened Keys
  import opened TypedStore
  import opened InterleavedChecks
  import opened BoundsAttained

  // ---------- With checks that overlap ----------

  /** Of k readers that compared a wrong guess the first `i` have raised the counter and gone. */
  function Drained(b: Sys, slot: Slot, i: nat, k: nat): Sys
    requires slot in b.cells && |b.codes| == 1
  {
    var c, t := b.cells[slot], b.codes[0];
    b.(cells := b.cells[slot := c.(retry := c.retry + i)],
       procs := map p | p in Sets.Below(k) - Sets.Below(i) :: Raising(slot, 0, c.retry),
       codes := [t.(wrong := t.wrong + k, raised := t.raised + i)])
  }

  function Raises(i: nat, k: nat): (steps: seq<Step>)
    requires i <= k
    ensures Smooth(steps)
    decreases k - i
  {
    if i == k then [] else [Raise(i, false)] + Raises(i + 1, k)
  }

  lemma DrainedLinked(b: Sys, slot: Slot, i: nat, k: nat)
    requires Ready(b, slot)
    ensures Linked(Drained(b, slot, i, k))
  {
  }

  lemma NextRaiserLeaves(b: Sys, slot: Slot, i: nat, k: nat)
    requires Ready(b, slot) && i < k
    ensures var s := Drained(b, slot, i, k);
            i in s.procs && s.procs[i] == Raising(slot, 0, b.cells[slot].retry) &&
            Drained(b, slot, i + 1, k).procs == s.procs - {i}
  {
    assert Sets.Below(k) - Sets.Below(i + 1) == Sets.Below(k) - Sets.Below(i) - {i};
  }

  lemma NextRaiserCounts(b: Sys, slot: Slot, i: nat, k: nat)
    requires Ready(b, slot)
    ensures var s, s' := Drained(b, slot, i, k), Drained(b, slot, i + 1, k);
            && s'.cells == s.cells[slot := s.cells[slot].(retry := s.cells[slot].retry + 1)]
            && s'.codes == s.codes[0 := s.codes[0].(raised := s.codes[0].raised + 1)]
            && Alive(s, slot) && s.cells[slot].gen == 0
  {
  }

  lemma RaiseDrains(b: Sys, slot: Slot, i: nat, k: nat)
    requires Ready(b, slot) && b.cells[slot].retry < MAX_RETRIES - 1 && i < k && Linked(Drained(b, slot, i, k))
    ensures var s := Drained(b, slot, i, k);
            Enabled(s, Raise(i, false), k) && Apply(s, Raise(i, false), k) == Drained(b, slot, i + 1, k)
  {
    NextRaiserLeaves(b, slot, i, k);
    NextRaiserCounts(b, slot, i, k);
  }

  lemma {:induction false} RaisesRun(b: Sys, slot: Slot, i: nat, k: nat)
    requires Ready(b, slot) && b.cells[slot].retry < MAX_RETRIES - 1 && i <= k
    ensures var s := Drained(b, slot, i, k);
            Linked(s) && Possible(s, Raises(i, k), k) && Exec(s, Raises(i, k), k) == Drained(b, slot, k, k)
    decreases k - i
  {
    DrainedLinked(b, slot, i, k);
    if i < k {
      RaiseDrains(b, slot, i, k);
      OneStep(Drained(b, slot, i, k), Raise(i, false), k);
      RaisesRun(b, slot, i + 1, k);
      RunsCompose(Drained(b, slot, i, k), [Raise(i, false)], Raises(i + 1, k), k);
    }
  }

  lemma BurstIsFull(b: Sys, slot: Slot, guess: string, k: nat)
    requires Ready(b, slot) && b.cells[slot].code != guess
    ensures Burst(b, slot, guess, k) == Drained(b, slot, 0, k)
  {
    var full, start := Burst(b, slot, guess, k), Drained(b, slot, 0, k);
    assert full.procs == start.procs && full.cells == start.cells && full.codes == start.codes;
  }

  /** A burst of wrong guesses none of which sees the last one, then all their increments. */
  lemma BurstThenRaises(b: Sys, slot: Slot, guess: string, k: nat)
    requires Ready(b, slot) && b.procs == map[] && b.cells[slot].code != guess
    requires b.cells[slot].retry < MAX_RETRIES - 1
    ensures var steps := Reads(slot, guess, 0, k) + Raises(0, k);
            Linked(b) && Possible(b, steps, k) && Exec(b, steps, k) == Drained(b, slot, k, k)
  {
    BurstRuns(b, slot, guess, 0, k);
    RaisesRun(b, slot, 0, k);
    BurstStarts(b, slot, guess);
    BurstIsFull(b, slot, guess, k);
    RunsCompose(b, Reads(slot, guess, 0, k), Raises(0, k), k);
  }

  /** Without a failure and without any deletion having been due: for every number k >= 2 of checks under way
      some run leaves a live code with its counter at 3 + k and nobody under way, and the next check is refused
      before the comparison, the right code included. */
  lemma LockoutWithoutEviction(now: int, slot: Slot, code: string, guess: string, k: nat)
    requires code != guess && k >= 2
    ensures exists steps :: Smooth(steps) && Possible(Start(now), steps, k) &&
                            RefusesRightCode(Exec(Start(now), steps, k), slot, code, k)
  {
    var r := MAX_RETRIES - 2;
    var before := QuietRun(now, slot, code, guess, r, 0, 0, k);
    var b := Quiet(now, slot, code, r, 0, 0);
    BurstThenRaises(b, slot, guess, k);
    var rest := Reads(slot, guess, 0, k) + Raises(0, k);
    RunsCompose(Start(now), before, rest, k);
    var steps := before + rest;
    DrainedLocksOut(now, slot, code, k);
    assert Smooth(steps) && Possible(Start(now), steps, k);
  }

  lemma DrainedLocksOut(now: int, slot: Slot, code: string, k: nat)
    requires k >= 2
    ensures var s := Drained(Quiet(now, slot, code, MAX_RETRIES - 2, 0, 0), slot, k, k);
            Linked(s) && RefusesRightCode(s, slot, code, k)
  {
    var s := Drained(Quiet(now, slot, code, MAX_RETRIES - 2, 0, 0), slot, k, k);
    assert s.procs == map[] && InFlight(s.procs, slot) == {};
  }

  /** The code is live, nobody is under way, its counter is at 3 + k, and the right code is refused. */
  predicate RefusesRightCode(s: Sys, slot: Slot, code: string, k: nat)
    requires Linked(s)
  {
    && s.procs == map[] && Alive(s, slot) && s.cells[slot].code == code && s.cells[slot].gen == 0
    && s.codes == [Tally(slot, 3 + k, 0, 3 + k, 0, 0)]
    && Enabled(s, Read(0, slot, code), k) && Apply(s, Read(0, slot, code), k).procs[0] == Discarding(slot, 0)
  }

  // ---------- With one check of a slot at a time ----------

  predicate NoDeletionFails(steps: seq<Step>) {
    forall i :: 0 <= i < |steps| ==> (steps[i].Delete? ==> !steps[i].fails)
  }

  /** A slot has one verifier at most. */
  ghost predicate OneEach(s: Sys) {
    forall p, q :: p in s.procs && q in s.procs && s.procs[p].slot == s.procs[q].slot ==> p == q
  }

  /** A verifier about to raise a counter has seen at least what it says. */
  predicate SeenEnough(s: Sys, p: nat)
    requires p in s.procs
  {
    var v := s.procs[p];
    v.Raising? ==> 0 <= v.seen < MAX_RETRIES && (v.slot in s.cells ==> s.cells[v.slot].retry <= v.seen)
  }

  /** A counter past 4 belongs to a code about to be deleted. */
  ghost predicate Spent(s: Sys, slot: Slot)
    requires slot in s.cells
  {
    0 <= s.cells[slot].retry &&
    (s.cells[slot].retry >= MAX_RETRIES ==> exists p :: p in s.procs && s.procs[p] == Discarding(slot, s.procs[p].gen))
  }

  ghost predicate OneAtATime(s: Sys) {
    && OneEach(s)
    && (forall p :: p in s.procs ==> SeenEnough(s, p))
    && (forall slot :: slot in s.cells ==> Spent(s, slot))
  }

  lemma StepKeepsOneEach(s: Sys, step: Step)
    requires Linked(s) && Enabled(s, step, 1) && OneEach(s)
    ensures OneEach(Apply(s, step, 1))
    ensures step.Read? ==> forall p :: p in s.procs ==> s.procs[p].slot != step.slot
  {
    if step.Read? {
      assert forall p :: p in s.procs && s.procs[p].slot == step.slot ==> p in InFlight(s.procs, step.slot);
    }
  }

  lemma StepKeepsSeen(s: Sys, step: Step, p: nat)
    requires Linked(s) && Enabled(s, step, 1) && OneAtATime(s) && p in Apply(s, step, 1).procs
    ensures SeenEnough(Apply(s, step, 1), p)
  {
    StepKeepsOneEach(s, step);
    assert p in s.procs ==> SeenEnough(s, p);
    if step.Read? && Alive(s, step.slot) {
      assert Spent(s, step.slot);
    }
  }

  lemma StepKeepsSpent(s: Sys, step: Step, slot: Slot)
    requires Linked(s) && Enabled(s, step, 1) && OneAtATime(s) && slot in Apply(s, step, 1).cells
    requires step.Delete? ==> !step.fails
    ensures Spent(Apply(s, step, 1), slot)
  {
    var s' := Apply(s, step, 1);
    StepKeepsOneEach(s, step);
    assert slot in s.cells ==> Spent(s, slot);
    if step.Raise? {
      assert SeenEnough(s, step.pid);
    }
    if s'.cells[slot].retry >= MAX_RETRIES {
      if slot in s.cells && s.cells[slot].retry >= MAX_RETRIES {
        var p :| p in s.procs && s.procs[p] == Discarding(slot, s.procs[p].gen);
        assert p in s'.procs && s'.procs[p] == s.procs[p];
      } else {
        assert s'.procs[step.pid].Discarding? && s'.procs[step.pid].slot == slot;
      }
    }
  }

  lemma StepKeepsOneAtATime(s: Sys, step: Step)
    requires Linked(s) && Enabled(s, step, 1) && OneAtATime(s) && (step.Delete? ==> !step.fails)
    ensures OneAtATime(Apply(s, step, 1))
  {
    var s' := Apply(s, step, 1);
    StepKeepsOneEach(s, step);
    forall p | p in s'.procs
      ensures SeenEnough(s', p)
    {
      StepKeepsSeen(s, step, p);
    }
    forall slot | slot in s'.cells
      ensures Spent(s', slot)
    {
      StepKeepsSpent(s, step, slot);
    }
  }

  lemma {:induction false} RunKeepsOneAtATime(s: Sys, steps: seq<Step>)
    requires Linked(s) && OneAtATime(s) && Possible(s, steps, 1) && NoDeletionFails(steps)
    ensures OneAtATime(Exec(s, steps, 1))
    decreases |steps|
  {
    if steps != [] {
      LinkedAfter(s, steps[0], 1);
      StepKeepsOneAtATime(s, steps[0]);
      RunKeepsOneAtATime(Apply(s, steps[0], 1), steps[1..]);
    }
  }

  // ---------- Together ----------

  /** A run in which no deletion fails, after which a check of a live code is refused before the comparison. */
  predicate LocksOut(now: int, steps: seq<Step>, slot: Slot, pid: nat, guess: string, k: nat) {
    NoDeletionFails(steps) && Possible(Start(now), steps, k) &&
    var s := Exec(Start(now), steps, k);
    Enabled(s, Read(pid, slot, guess), k) && Alive(s, slot) &&
    Apply(s, Read(pid, slot, guess), k).procs[pid].Discarding?
  }

  lemma NoLockoutAlone(now: int, steps: seq<Step>, slot: Slot, pid: nat, guess: string)
    ensures !LocksOut(now, steps, slot, pid, guess, 1)
  {
    if LocksOut(now, steps, slot, pid, guess, 1) {
      RunKeepsOneAtATime(Start(now), steps);
      var s := Exec(Start(now), steps, 1);
      StepKeepsOneEach(s, Read(pid, slot, guess));
    }
  }

  /** Without a failed deletion the guard before the comparison can fire if and only if checks of one slot may
      overlap; then it also fires without any other failure, and against the right code. */
  lemma LockoutNeedsOverlap(now: int, slot: Slot, k: nat)
    ensures (exists steps, pid, guess :: LocksOut(now, steps, slot, pid, guess, k)) <==> k >= 2
  {
    if k >= 2 {
      LockoutWithoutEviction(now, slot, "", "x", k);
      var steps :| Smooth(steps) && Possible(Start(now), steps, k) &&
                   RefusesRightCode(Exec(Start(now), steps, k), slot, "", k);
      assert LocksOut(now, steps, slot, 0, "", k);
    } else if k == 1 {
      forall steps, pid, guess
        ensures !LocksOut(now, steps, slot, pid, guess, k)
      {
        NoLockoutAlone(now, steps, slot, pid, guess);
      }
    }
  }
}
