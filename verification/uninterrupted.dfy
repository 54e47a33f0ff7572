/** The interleaved system and the atomic calls agree: a verifier that nobody interrupts does what the
    atomic check does. */
module UninterruptedCheck {
  import opened Keys
  import opened TypedStore
  import opened InterleavedChecks
  import Protocol

  /** The stored codes without their numbers. */
  function CodesOf(s: Sys): map<Slot, Timed<OtpData>> {
    map slot | slot in s.cells :: Timed(OtpData(s.cells[slot].code, s.cells[slot].retry), s.cells[slot].expiry)
  }

  /** The operations one verifier goes through when it is alone. */
  function Alone(s: Sys, pid: nat, slot: Slot, guess: string, f: Faults): seq<Step> {
    var db := EMPTY.(otps := CodesOf(s));
    match Judge(db, s.now, slot, guess, f)
    case Unreadable => []
    case Missing => [Read(pid, slot, guess)]
    case WrongGuess => [Read(pid, slot, guess), Raise(pid, f.increment)]
    case LastGuess => [Read(pid, slot, guess), Raise(pid, f.increment), Delete(pid, f.delete)]
    case LockedOut => [Read(pid, slot, guess), Delete(pid, f.delete)]
    case Accepted => [Read(pid, slot, guess), Delete(pid, f.delete)]
  }

  /** The verifier `pid` has come and gone; the store is as after an atomic check, and one more acceptance
      is on record for the code of the slot if and only if the check accepted. */
  ghost predicate Atomically(s: Sys, s': Sys, slot: Slot, guess: string, f: Faults) {
    var db := EMPTY.(otps := CodesOf(s));
    && s'.now == s.now && s'.procs == s.procs && |s'.codes| == |s.codes|
    && CodesOf(s') == Protocol.Check(Protocol.World(s.now, db, []), slot, guess, f).0.db.otps
    && forall g :: 0 <= g < |s.codes| ==>
         s'.codes[g].accepted == s.codes[g].accepted +
           if Judge(db, s.now, slot, guess, f).Accepted? && g == s.cells[slot].gen then 1 else 0
  }

  lemma AloneAccepts(s: Sys, pid: nat, slot: Slot, guess: string, f: Faults, k: nat)
    requires Linked(s) && Enabled(s, Read(pid, slot, guess), k)
    requires Judge(EMPTY.(otps := CodesOf(s)), s.now, slot, guess, f).Accepted?
    ensures var steps := Alone(s, pid, slot, guess, f);
            Possible(s, steps, k) && Atomically(s, Exec(s, steps, k), slot, guess, f)
  {
    var read, delete := Read(pid, slot, guess), Delete(pid, f.delete);
    LinkedAfter(s, read, k);
    TwoSteps(s, read, delete, k);
    var s' := Apply(Apply(s, read, k), delete, k);
    assert s'.procs == s.procs;
    assert CodesOf(s') == if f.delete then CodesOf(s) else CodesOf(s) - {slot};
  }

  lemma AloneLockedOut(s: Sys, pid: nat, slot: Slot, guess: string, f: Faults, k: nat)
    requires Linked(s) && Enabled(s, Read(pid, slot, guess), k)
    requires Judge(EMPTY.(otps := CodesOf(s)), s.now, slot, guess, f).LockedOut?
    ensures var steps := Alone(s, pid, slot, guess, f);
            Possible(s, steps, k) && Atomically(s, Exec(s, steps, k), slot, guess, f)
  {
    var read, delete := Read(pid, slot, guess), Delete(pid, f.delete);
    LinkedAfter(s, read, k);
    TwoSteps(s, read, delete, k);
    var s' := Apply(Apply(s, read, k), delete, k);
    assert s'.procs == s.procs;
    assert CodesOf(s') == if f.delete then CodesOf(s) else CodesOf(s) - {slot};
  }

  /** The acceptance counts did not change. */
  ghost predicate NoneAccepted(s: Sys, s': Sys) {
    |s'.codes| == |s.codes| && forall g :: 0 <= g < |s.codes| ==> s'.codes[g].accepted == s.codes[g].accepted
  }

  /** A wrong guess has been read and its increment is due. */
  lemma MissIsRead(s: Sys, pid: nat, slot: Slot, guess: string, k: nat)
    requires Linked(s) && Enabled(s, Read(pid, slot, guess), k) && Alive(s, slot)
    requires s.cells[slot].retry < MAX_RETRIES && s.cells[slot].code != guess
    ensures var s1 := Apply(s, Read(pid, slot, guess), k); var c := s.cells[slot];
            Linked(s1) && s1.now == s.now && s1.cells == s.cells && NoneAccepted(s, s1) &&
            s1.procs == s.procs[pid := Raising(slot, c.gen, c.retry)]
  {
    LinkedAfter(s, Read(pid, slot, guess), k);
  }

  /** Raising is the atomic increment. */
  lemma RaiseIncrements(s: Sys, pid: nat, fails: bool, k: nat)
    requires Linked(s) && Enabled(s, Raise(pid, fails), k)
    ensures CodesOf(Apply(s, Raise(pid, fails), k)) ==
            IncrementRetry(EMPTY.(otps := CodesOf(s)), s.now, s.procs[pid].slot, fails).otps
  {
    var s', p := Apply(s, Raise(pid, fails), k), s.procs[pid];
    if !fails && Alive(s, p.slot) {
      var c := s.cells[p.slot];
      assert s'.cells == s.cells[p.slot := c.(retry := c.retry + 1)];
      UpdatedCodes(s, s', p.slot);
    } else {
      assert s'.cells == s.cells;
    }
  }

  /** It leaves the verifier done, or about to delete. */
  lemma RaiseMovesOn(s: Sys, pid: nat, fails: bool, k: nat)
    requires Linked(s) && Enabled(s, Raise(pid, fails), k)
    ensures var s' := Apply(s, Raise(pid, fails), k); var p := s.procs[pid];
            s'.now == s.now &&
            s'.procs == if p.seen + 1 >= MAX_RETRIES then s.procs[pid := Discarding(p.slot, p.gen)] else s.procs - {pid}
  {
  }

  lemma RaiseAcceptsNone(s: Sys, pid: nat, fails: bool, k: nat)
    requires Linked(s) && Enabled(s, Raise(pid, fails), k)
    ensures NoneAccepted(s, Apply(s, Raise(pid, fails), k))
  {
    assert Names(s.codes, s.procs[pid].gen, s.procs[pid].slot);
  }

  lemma UpdatedCodes(s: Sys, s': Sys, slot: Slot)
    requires slot in s.cells && s'.cells == s.cells[slot := s.cells[slot].(retry := s.cells[slot].retry + 1)]
    ensures var c := s.cells[slot]; CodesOf(s') == CodesOf(s)[slot := Timed(OtpData(c.code, c.retry + 1), c.expiry)]
  {
  }

  /** Deleting after the budget is used up. */
  lemma DiscardDeletes(s: Sys, pid: nat, fails: bool, k: nat)
    requires Linked(s) && pid in s.procs && s.procs[pid].Discarding?
    ensures var s' := Apply(s, Delete(pid, fails), k);
            s'.now == s.now && NoneAccepted(s, s') && s'.procs == s.procs - {pid} &&
            CodesOf(s') == if fails then CodesOf(s) else CodesOf(s) - {s.procs[pid].slot}
  {
  }

  /** A wrong guess has been read and the counter raised, or not. */
  ghost predicate Raised(s: Sys, s2: Sys, pid: nat, slot: Slot, fails: bool)
    requires Alive(s, slot)
  {
    && Linked(s2) && s2.now == s.now && NoneAccepted(s, s2)
    && CodesOf(s2) == IncrementRetry(EMPTY.(otps := CodesOf(s)), s.now, slot, fails).otps
    && s2.procs == if s.cells[slot].retry + 1 >= MAX_RETRIES then s.procs[pid := Discarding(slot, s.cells[slot].gen)]
                   else s.procs
  }

  lemma Transient(procs: map<nat, Stage>, pid: nat, first: Stage, second: Stage)
    requires pid !in procs
    ensures procs[pid := first] - {pid} == procs
    ensures procs[pid := first][pid := second] == procs[pid := second]
  {
  }

  lemma RaiseAfterMiss(s: Sys, s1: Sys, pid: nat, slot: Slot, fails: bool, k: nat)
    requires Alive(s, slot) && pid !in s.procs && Linked(s1)
    requires s1.now == s.now && s1.cells == s.cells && NoneAccepted(s, s1)
    requires s1.procs == s.procs[pid := Raising(slot, s.cells[slot].gen, s.cells[slot].retry)]
    ensures Raised(s, Apply(s1, Raise(pid, fails), k), pid, slot, fails)
  {
    LinkedAfter(s1, Raise(pid, fails), k);
    RaiseAcceptsNone(s1, pid, fails, k);
    RaiseMovesOn(s1, pid, fails, k);
    Transient(s.procs, pid, s1.procs[pid], Discarding(slot, s.cells[slot].gen));
    RaiseIncrements(s1, pid, fails, k);
    assert CodesOf(s1) == CodesOf(s);
  }

  lemma MissThenRaise(s: Sys, pid: nat, slot: Slot, guess: string, fails: bool, k: nat) returns (s2: Sys)
    requires Linked(s) && Enabled(s, Read(pid, slot, guess), k) && Alive(s, slot)
    requires s.cells[slot].retry < MAX_RETRIES && s.cells[slot].code != guess
    ensures var steps := [Read(pid, slot, guess), Raise(pid, fails)];
            Possible(s, steps, k) && s2 == Exec(s, steps, k) && Raised(s, s2, pid, slot, fails)
  {
    MissIsRead(s, pid, slot, guess, k);
    var s1 := Apply(s, Read(pid, slot, guess), k);
    s2 := Apply(s1, Raise(pid, fails), k);
    RaiseAfterMiss(s, s1, pid, slot, fails, k);
    TwoSteps(s, Read(pid, slot, guess), Raise(pid, fails), k);
  }

  lemma JudgedWrong(s: Sys, slot: Slot, guess: string, f: Faults)
    requires var v := Judge(EMPTY.(otps := CodesOf(s)), s.now, slot, guess, f); v.WrongGuess? || v.LastGuess?
    ensures Alive(s, slot) && s.cells[slot].retry < MAX_RETRIES && s.cells[slot].code != guess
    ensures Judge(EMPTY.(otps := CodesOf(s)), s.now, slot, guess, f).LastGuess? <==>
            s.cells[slot].retry == MAX_RETRIES - 1
  {
  }

  lemma AloneWrong(s: Sys, pid: nat, slot: Slot, guess: string, f: Faults, k: nat)
    requires Linked(s) && Enabled(s, Read(pid, slot, guess), k)
    requires Judge(EMPTY.(otps := CodesOf(s)), s.now, slot, guess, f).WrongGuess?
    ensures var steps := Alone(s, pid, slot, guess, f);
            Possible(s, steps, k) && Atomically(s, Exec(s, steps, k), slot, guess, f)
  {
    JudgedWrong(s, slot, guess, f);
    var _ := MissThenRaise(s, pid, slot, guess, f.increment, k);
  }

  lemma DiscardAfterRaise(s: Sys, s2: Sys, pid: nat, slot: Slot, f: Faults, k: nat)
    requires Alive(s, slot) && s.cells[slot].retry == MAX_RETRIES - 1 && pid !in s.procs
    requires Raised(s, s2, pid, slot, f.increment)
    ensures var s' := Apply(s2, Delete(pid, f.delete), k);
            var raised := IncrementRetry(EMPTY.(otps := CodesOf(s)), s.now, slot, f.increment).otps;
            s'.now == s.now && s'.procs == s.procs && NoneAccepted(s, s') &&
            CodesOf(s') == if f.delete then raised else raised - {slot}
  {
    DiscardDeletes(s2, pid, f.delete, k);
    Transient(s.procs, pid, Discarding(slot, s.cells[slot].gen), Discarding(slot, s.cells[slot].gen));
  }

  lemma MissThenDiscard(s: Sys, pid: nat, slot: Slot, guess: string, f: Faults, k: nat)
    requires Linked(s) && Enabled(s, Read(pid, slot, guess), k) && Alive(s, slot)
    requires s.cells[slot].retry == MAX_RETRIES - 1 && s.cells[slot].code != guess
    ensures var steps := [Read(pid, slot, guess), Raise(pid, f.increment), Delete(pid, f.delete)];
            Possible(s, steps, k) &&
            var s' := Exec(s, steps, k);
            var raised := IncrementRetry(EMPTY.(otps := CodesOf(s)), s.now, slot, f.increment).otps;
            s'.now == s.now && s'.procs == s.procs && NoneAccepted(s, s') &&
            CodesOf(s') == if f.delete then raised else raised - {slot}
  {
    var first, delete := [Read(pid, slot, guess), Raise(pid, f.increment)], Delete(pid, f.delete);
    var s2 := MissThenRaise(s, pid, slot, guess, f.increment, k);
    DiscardAfterRaise(s, s2, pid, slot, f, k);
    OneStep(s2, delete, k);
    RunsCompose(s, first, [delete], k);
    assert first + [delete] == [Read(pid, slot, guess), Raise(pid, f.increment), delete];
  }

  lemma AloneLast(s: Sys, pid: nat, slot: Slot, guess: string, f: Faults, k: nat)
    requires Linked(s) && Enabled(s, Read(pid, slot, guess), k)
    requires Judge(EMPTY.(otps := CodesOf(s)), s.now, slot, guess, f).LastGuess?
    ensures var steps := Alone(s, pid, slot, guess, f);
            Possible(s, steps, k) && Atomically(s, Exec(s, steps, k), slot, guess, f)
  {
    JudgedWrong(s, slot, guess, f);
    MissThenDiscard(s, pid, slot, guess, f, k);
  }

  /** Sending is one operation here too: it stores what the atomic send stores. */
  lemma SendIsAtomic(s: Sys, slot: Slot, code: string, k: nat)
    requires Linked(s)
    ensures CodesOf(Apply(s, Send(slot, code), k)) ==
            StoreOTP(EMPTY.(otps := CodesOf(s)), s.now, slot, code).otps
  {
    var s' := Apply(s, Send(slot, code), k);
    assert forall q :: q != slot ==> (q in s'.cells <==> q in s.cells);
  }

  /** Run without interruption, the cache operations of one verifier have exactly the effect of the
      atomic check. */
  lemma AloneIsAtomic(s: Sys, pid: nat, slot: Slot, guess: string, f: Faults, k: nat)
    requires Linked(s) && Enabled(s, Read(pid, slot, guess), k)
    ensures var steps := Alone(s, pid, slot, guess, f);
            Possible(s, steps, k) && Atomically(s, Exec(s, steps, k), slot, guess, f)
  {
    match Judge(EMPTY.(otps := CodesOf(s)), s.now, slot, guess, f)
    case Unreadable =>
    case Missing => OneStep(s, Read(pid, slot, guess), k);
    case WrongGuess => AloneWrong(s, pid, slot, guess, f, k);
    case LastGuess => AloneLast(s, pid, slot, guess, f, k);
    case LockedOut => AloneLockedOut(s, pid, slot, guess, f, k);
    case Accepted => AloneAccepts(s, pid, slot, guess, f, k);
  }
}
