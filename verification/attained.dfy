/** The bounds on interleaved checks cannot be improved: for every number of checks under way and every
    number of failures there is a run that reaches them. */
module BoundsAttained {
  import Sets
  import opened Keys
  import opened TypedStore
  import opened InterleavedChecks

  /** One code, its counter at `r` after `l` further wrong guesses that failed to raise it and `d` acceptances
      that failed to delete it, one check after the other; nobody is under way. */
  function Quiet(now: int, slot: Slot, code: string, r: nat, l: nat, d: nat): Sys {
    Sys(now, map[slot := Cell(code, r, now + TtlForPurpose(slot.purpose), 0)], map[], [Tally(slot, r + l, l, r, d, d)])
  }

  /** One wrong guess, whose increment lands or fails. */
  lemma OneMiss(now: int, slot: Slot, code: string, guess: string, r: nat, l: nat, d: nat, fails: bool, k: nat)
    requires r < MAX_RETRIES - 1 && code != guess && k >= 1
    ensures var s := Quiet(now, slot, code, r, l, d); var steps := [Read(0, slot, guess), Raise(0, fails)];
            Possible(s, steps, k) &&
            Exec(s, steps, k) ==
            if fails then Quiet(now, slot, code, r, l + 1, d) else Quiet(now, slot, code, r + 1, l, d)
  {
    var s := Quiet(now, slot, code, r, l, d);
    assert InFlight(s.procs, slot) == {};
    var s1 := Apply(s, Read(0, slot, guess), k);
    LinkedAfter(s, Read(0, slot, guess), k);
    assert s1.procs == map[0 := Raising(slot, 0, r)] && s1.codes == [Tally(slot, r + l + 1, l, r, d, d)];
    var s2 := Apply(s1, Raise(0, fails), k);
    assert s2.procs == map[];
    assert fails ==> s2.cells == s.cells && s2.codes == Quiet(now, slot, code, r, l + 1, d).codes;
    assert !fails ==> s2.cells == Quiet(now, slot, code, r + 1, l, d).cells;
    assert !fails ==> s2.codes == Quiet(now, slot, code, r + 1, l, d).codes;
    TwoSteps(s, Read(0, slot, guess), Raise(0, fails), k);
  }

  /** One acceptance whose deletion fails. */
  lemma OneKept(now: int, slot: Slot, code: string, r: nat, l: nat, d: nat, k: nat)
    requires r < MAX_RETRIES && k >= 1
    ensures var s := Quiet(now, slot, code, r, l, d); var steps := [Read(0, slot, code), Delete(0, true)];
            Possible(s, steps, k) && Exec(s, steps, k) == Quiet(now, slot, code, r, l, d + 1)
  {
    var s := Quiet(now, slot, code, r, l, d);
    assert InFlight(s.procs, slot) == {};
    var s1 := Apply(s, Read(0, slot, code), k);
    LinkedAfter(s, Read(0, slot, code), k);
    assert s1.procs == map[0 := Accepting(slot, 0)] && s1.codes == [Tally(slot, r + l, l, r, d + 1, d)];
    var s2 := Apply(s1, Delete(0, true), k);
    assert s2.procs == map[] && s2.codes == Quiet(now, slot, code, r, l, d + 1).codes;
    TwoSteps(s, Read(0, slot, code), Delete(0, true), k);
  }

  /** Neither a deletion nor a failure. */
  predicate Smooth(steps: seq<Step>) {
    forall i :: 0 <= i < |steps| ==> !steps[i].Delete? && (steps[i].Raise? ==> !steps[i].fails)
  }

  /** The state after `i` of the readers have read and nobody has moved on. */
  function Burst(b: Sys, slot: Slot, guess: string, i: nat): Sys
    requires slot in b.cells && |b.codes| == 1
  {
    var c, t := b.cells[slot], b.codes[0];
    if c.code == guess then
      b.(procs := map p | p in Sets.Below(i) :: Accepting(slot, 0), codes := [t.(accepted := t.accepted + i)])
    else
      b.(procs := map p | p in Sets.Below(i) :: Raising(slot, 0, c.retry), codes := [t.(wrong := t.wrong + i)])
  }

  function Reads(slot: Slot, guess: string, i: nat, k: nat): (steps: seq<Step>)
    requires i <= k
    ensures Smooth(steps)
    decreases k - i
  {
    if i == k then [] else [Read(i, slot, guess)] + Reads(slot, guess, i + 1, k)
  }

  /** One stored code, fit to be compared with any number of guesses. */
  predicate Ready(b: Sys, slot: Slot) {
    b.cells.Keys == {slot} && |b.codes| == 1 && b.codes[0].slot == slot &&
    b.cells[slot].gen == 0 && Alive(b, slot) && b.cells[slot].retry < MAX_RETRIES
  }

  lemma BurstLinked(b: Sys, slot: Slot, guess: string, i: nat)
    requires Ready(b, slot)
    ensures var s := Burst(b, slot, guess, i);
            Linked(s) && InFlight(s.procs, slot) == Sets.Below(i) && i !in s.procs
  {
    assert InFlight(Burst(b, slot, guess, i).procs, slot) == Sets.Below(i);
  }

  lemma NextReader(b: Sys, slot: Slot, guess: string, i: nat)
    requires Ready(b, slot)
    ensures var s, s', c := Burst(b, slot, guess, i), Burst(b, slot, guess, i + 1), b.cells[slot];
            s'.procs == s.procs[i := if c.code == guess then Accepting(slot, 0) else Raising(slot, 0, c.retry)]
  {
  }

  lemma BurstGrows(b: Sys, slot: Slot, guess: string, i: nat, k: nat)
    requires Ready(b, slot) && i < k
    requires var s := Burst(b, slot, guess, i); Linked(s) && InFlight(s.procs, slot) == Sets.Below(i) && i !in s.procs
    ensures var s := Burst(b, slot, guess, i);
            Enabled(s, Read(i, slot, guess), k) && Apply(s, Read(i, slot, guess), k) == Burst(b, slot, guess, i + 1)
  {
    var s, s' := Burst(b, slot, guess, i), Burst(b, slot, guess, i + 1);
    NextReader(b, slot, guess, i);
    assert s'.codes == s.codes[0 := s'.codes[0]];
  }

  lemma BurstStep(b: Sys, slot: Slot, guess: string, i: nat, k: nat)
    requires Ready(b, slot) && i < k
    ensures Linked(Burst(b, slot, guess, i)) && Linked(Burst(b, slot, guess, i + 1))
    ensures Possible(Burst(b, slot, guess, i), [Read(i, slot, guess)], k)
    ensures Exec(Burst(b, slot, guess, i), [Read(i, slot, guess)], k) == Burst(b, slot, guess, i + 1)
  {
    BurstLinked(b, slot, guess, i);
    BurstLinked(b, slot, guess, i + 1);
    BurstGrows(b, slot, guess, i, k);
    OneStep(Burst(b, slot, guess, i), Read(i, slot, guess), k);
  }

  lemma {:induction false} BurstRuns(b: Sys, slot: Slot, guess: string, i: nat, k: nat)
    requires Ready(b, slot) && i <= k
    ensures var s := Burst(b, slot, guess, i);
            Linked(s) && Possible(s, Reads(slot, guess, i, k), k) &&
            Exec(s, Reads(slot, guess, i, k), k) == Burst(b, slot, guess, k)
    decreases k - i
  {
    BurstLinked(b, slot, guess, i);
    if i < k {
      BurstStep(b, slot, guess, i, k);
      BurstRuns(b, slot, guess, i + 1, k);
      RunsCompose(Burst(b, slot, guess, i), [Read(i, slot, guess)], Reads(slot, guess, i + 1, k), k);
    }
  }

  /** Every quiet state but the first comes from one with one check less. */
  lemma QuietBefore(now: int, slot: Slot, code: string, guess: string, r: nat, l: nat, d: nat, k: nat)
    returns (r': nat, l': nat, d': nat, last: seq<Step>)
    requires r < MAX_RETRIES && code != guess && k >= 1 && r + l + d > 0
    ensures r' < MAX_RETRIES && r' + l' + d' < r + l + d
    ensures l == d == 0 ==> l' == d' == 0 && Smooth(last)
    ensures var s := Quiet(now, slot, code, r', l', d');
            Possible(s, last, k) && Exec(s, last, k) == Quiet(now, slot, code, r, l, d)
  {
    r', l', d' := r, l, d;
    if r > 0 {
      r', last := r - 1, [Read(0, slot, guess), Raise(0, false)];
      OneMiss(now, slot, code, guess, r', l, d, false, k);
    } else if l > 0 {
      l', last := l - 1, [Read(0, slot, guess), Raise(0, true)];
      OneMiss(now, slot, code, guess, r, l', d, true, k);
    } else {
      d', last := d - 1, [Read(0, slot, code), Delete(0, true)];
      OneKept(now, slot, code, r, l, d', k);
    }
  }

  /** A run that leaves the code in any quiet state. */
  lemma {:induction false} QuietRun(now: int, slot: Slot, code: string, guess: string, r: nat, l: nat, d: nat, k: nat)
    returns (steps: seq<Step>)
    requires r < MAX_RETRIES && code != guess && k >= 1
    ensures Possible(Start(now), steps, k) && Exec(Start(now), steps, k) == Quiet(now, slot, code, r, l, d)
    ensures l == d == 0 ==> Smooth(steps)
    decreases r + l + d
  {
    if r + l + d == 0 {
      steps := [Send(slot, code)];
      assert Apply(Start(now), Send(slot, code), k) == Quiet(now, slot, code, 0, 0, 0);
    } else {
      var r', l', d', last := QuietBefore(now, slot, code, guess, r, l, d, k);
      var before := QuietRun(now, slot, code, guess, r', l', d', k);
      RunsCompose(Start(now), before, last, k);
      steps := before + last;
    }
  }

  lemma BurstStarts(b: Sys, slot: Slot, guess: string)
    requires Ready(b, slot) && b.procs == map[]
    ensures Burst(b, slot, guess, 0) == b
  {
    assert Burst(b, slot, guess, 0).procs == b.procs && Burst(b, slot, guess, 0).codes == b.codes;
  }

  /** From a quiet state k verifiers read before any of them moves on. */
  lemma BurstFrom(now: int, before: seq<Step>, b: Sys, slot: Slot, guess: string, k: nat)
    requires Possible(Start(now), before, k) && Exec(Start(now), before, k) == b
    requires Ready(b, slot) && b.procs == map[]
    ensures var steps := before + Reads(slot, guess, 0, k);
            Possible(Start(now), steps, k) && Exec(Start(now), steps, k) == Burst(b, slot, guess, k)
  {
    BurstRuns(b, slot, guess, 0, k);
    BurstStarts(b, slot, guess);
    RunsCompose(Start(now), before, Reads(slot, guess, 0, k), k);
  }

  /** For every number k of checks under way and every number l of failed increments, some run has a code
      compared with exactly 4 + k + l wrong guesses; one check at a time without failures gives exactly
      five. */
  lemma GuessBoundIsMet(now: int, slot: Slot, code: string, guess: string, k: nat, l: nat)
    requires code != guess && k >= 1
    ensures exists steps :: Possible(Start(now), steps, k) &&
                            Exec(Start(now), steps, k).codes == [Tally(slot, 4 + k + l, l, 4, 0, 0)]
  {
    var before := QuietRun(now, slot, code, guess, MAX_RETRIES - 1, l, 0, k);
    BurstFrom(now, before, Quiet(now, slot, code, MAX_RETRIES - 1, l, 0), slot, guess, k);
    var steps := before + Reads(slot, guess, 0, k);
    assert Possible(Start(now), steps, k);
  }

  /** Likewise some run with d failed deletions has a code accepted exactly k + d times. */
  lemma UseBoundIsMet(now: int, slot: Slot, code: string, k: nat, d: nat)
    requires k >= 1
    ensures exists steps :: Possible(Start(now), steps, k) &&
                            Exec(Start(now), steps, k).codes == [Tally(slot, 0, 0, 0, k + d, d)]
  {
    var before := QuietRun(now, slot, code, code + "x", 0, 0, d, k);
    BurstFrom(now, before, Quiet(now, slot, code, 0, 0, d), slot, code, k);
    var steps := before + Reads(slot, code, 0, k);
    assert Possible(Start(now), steps, k);
  }
}
