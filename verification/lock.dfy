/** The registration lock: a lock with a time limit, released by deleting its key without looking
    whose it is. */
module RegistrationLock {
  import Text
  import opened Wrappers
  import opened TypedStore
  import Protocol

  /** Who holds the lock of an address, and until when. */
  datatype Lock = Lock(owner: nat, expiry: int)

  /** A registration that won its lock at `since`; once failed it only has its lock left to delete. */
  datatype Registration = Registration(email: string, since: int, failed: bool)

  datatype Sys = Sys(now: int, locks: map<string, Lock>, procs: map<nat, Registration>, next: nat)

  datatype Step =
    | Wait(d: nat)
    | Begin(email: string)             // set the lock if nobody has it, and go on to register
    | Orphan(email: string)            // set the lock if nobody has it, get an error, and give up
    | Succeed(pid: nat)                // registered; the lock is left to expire
    | Fail(pid: nat)
    | Unlock(pid: nat, fails: bool)    // delete the lock key after a failure

  function Start(now: int): Sys {
    Sys(now, map[], map[], 0)
  }

  predicate Enabled(s: Sys, step: Step) {
    match step
    case Wait(_) => true
    case Begin(_) => true
    case Orphan(_) => true
    case Succeed(pid) => pid in s.procs && !s.procs[pid].failed
    case Fail(pid) => pid in s.procs && !s.procs[pid].failed
    case Unlock(pid, _) => pid in s.procs && s.procs[pid].failed
  }

  /** Somebody's lock for the address has not run out. */
  predicate Held(s: Sys, email: string) {
    email in s.locks && s.now < s.locks[email].expiry
  }

  function Apply(s: Sys, step: Step): Sys
    requires Enabled(s, step)
  {
    match step
    case Wait(d) => s.(now := s.now + d)
    case Begin(email) =>
      if Held(s, email) then s
      else
        s.(locks := s.locks[email := Lock(s.next, s.now + REGISTER_LOCK_TTL)],
           procs := s.procs[s.next := Registration(email, s.now, false)], next := s.next + 1)
    case Orphan(email) =>
      if Held(s, email) then s
      else s.(locks := s.locks[email := Lock(s.next, s.now + REGISTER_LOCK_TTL)], next := s.next + 1)
    case Succeed(pid) => s.(procs := s.procs - {pid})
    case Fail(pid) => s.(procs := s.procs[pid := s.procs[pid].(failed := true)])
    case Unlock(pid, fails) =>
      s.(procs := s.procs - {pid}, locks := if fails then s.locks else s.locks - {s.procs[pid].email})
  }

  /** No registration under way is older than the lock's lifetime. */
  ghost predicate Timely(s: Sys) {
    forall p :: p in s.procs ==> s.now < s.procs[p].since + 30 * SECOND
  }

  /** At most one registration per address is under way. */
  ghost predicate Exclusive(s: Sys) {
    forall p, q :: p in s.procs && q in s.procs && s.procs[p].email == s.procs[q].email ==> p == q
  }

  /** The registration under way owns the lock of its address. */
  predicate Holds(s: Sys, p: nat)
    requires p in s.procs
  {
    var r := s.procs[p];
    p < s.next && r.email in s.locks && s.locks[r.email] == Lock(p, r.since + REGISTER_LOCK_TTL)
  }

  ghost predicate Inv(s: Sys) {
    forall p :: p in s.procs ==> Holds(s, p)
  }

  lemma StepKeepsInv(s: Sys, step: Step)
    requires Inv(s) && Timely(s) && Enabled(s, step)
    ensures Inv(Apply(s, step))
  {
    var s' := Apply(s, step);
    forall p | p in s'.procs
      ensures Holds(s', p)
    {
      assert p in s.procs ==> Holds(s, p);
      if step.Unlock? {
        assert Holds(s, step.pid);
      }
    }
  }

  /** Every step is taken while no registration has outlived its lock; the last state may be late. */
  ghost predicate TimelyRun(s: Sys, steps: seq<Step>)
    decreases |steps|
  {
    steps == [] || (Timely(s) && Enabled(s, steps[0]) && TimelyRun(Apply(s, steps[0]), steps[1..]))
  }

  ghost function Exec(s: Sys, steps: seq<Step>): Sys
    requires TimelyRun(s, steps)
    decreases |steps|
  {
    if steps == [] then s else Exec(Apply(s, steps[0]), steps[1..])
  }

  lemma {:induction false} RunKeepsInv(s: Sys, steps: seq<Step>)
    requires Inv(s) && TimelyRun(s, steps)
    ensures Inv(Exec(s, steps))
    decreases |steps|
  {
    if steps != [] {
      StepKeepsInv(s, steps[0]);
      RunKeepsInv(Apply(s, steps[0]), steps[1..]);
    }
  }

  /** If every registration, its clean-up included, ends within the lifetime of its lock, then at every
      moment at most one registration per address is under way, and each still owns its lock; so the
      deletion after a failure removes nobody else's lock. */
  lemma MutualExclusion(now: int, steps: seq<Step>)
    requires TimelyRun(Start(now), steps)
    ensures var s := Exec(Start(now), steps);
            Exclusive(s) &&
            forall p :: p in s.procs ==> s.procs[p].email in s.locks && s.locks[s.procs[p].email].owner == p
  {
    RunKeepsInv(Start(now), steps);
    var s := Exec(Start(now), steps);
    forall p | p in s.procs
      ensures Holds(s, p)
    {
    }
  }

  /** The time limit is exactly what exclusion rests on: whatever request comes next, exclusion
      survives it if and only if no registration has outlived its lock. */
  lemma ExclusionExactlyWhileTimely(now: int, steps: seq<Step>)
    requires TimelyRun(Start(now), steps)
    ensures var s := Exec(Start(now), steps);
            (forall email :: Exclusive(Apply(s, Begin(email)))) <==> Timely(s)
  {
    var s := Exec(Start(now), steps);
    RunKeepsInv(Start(now), steps);
    if Timely(s) {
      forall email
        ensures Exclusive(Apply(s, Begin(email)))
      {
        StepKeepsInv(s, Begin(email));
        var s' := Apply(s, Begin(email));
        assert forall p :: p in s'.procs ==> Holds(s', p);
      }
    } else {
      var p :| p in s.procs && s.now >= s.procs[p].since + REGISTER_LOCK_TTL;
      assert Holds(s, p);
      var s' := Apply(s, Begin(s.procs[p].email));
      assert p in s'.procs && s.next in s'.procs;
      assert !Exclusive(s');
    }
  }

  /** Once a registration is late, a second one can begin, and the first one's clean-up then deletes
      the second one's lock while that is still under way. */
  lemma LateCleanUpRemovesForeignLock(now: int, steps: seq<Step>, p: nat)
    requires TimelyRun(Start(now), steps)
    requires var s := Exec(Start(now), steps);
             p in s.procs && s.now >= s.procs[p].since + REGISTER_LOCK_TTL && s.procs[p].failed
    ensures var s := Exec(Start(now), steps); var email := s.procs[p].email;
            var second := Apply(s, Begin(email));
            second.locks[email].owner == s.next && Enabled(second, Unlock(p, false)) &&
            var third := Apply(second, Unlock(p, false));
            s.next in third.procs && email !in third.locks
  {
    RunKeepsInv(Start(now), steps);
    assert Holds(Exec(Start(now), steps), p);
  }

  lemma FirstStep(s: Sys, step: Step, rest: seq<Step>)
    requires Timely(s) && Enabled(s, step) && TimelyRun(Apply(s, step), rest)
    ensures TimelyRun(s, [step] + rest) && Exec(s, [step] + rest) == Exec(Apply(s, step), rest)
  {
    assert ([step] + rest)[1..] == rest;
  }

  /** The time limit can be missed: a registration that fails and has not deleted its lock after 30 seconds
      is late. A second one for the address then begins beside it, and the clean-up of the first deletes the
      lock of the second. */
  lemma LateRunExists(now: int, email: string)
    ensures var steps := [Begin(email), Fail(0), Wait(30 * SECOND)];
            TimelyRun(Start(now), steps) &&
            var late := Exec(Start(now), steps);
            && 0 in late.procs && late.procs[0] == Registration(email, now, true) && !Timely(late)
            && var second := Apply(late, Begin(email));
               1 in second.procs && !Exclusive(second) && second.locks[email].owner == 1 &&
               Enabled(second, Unlock(0, false)) &&
               var third := Apply(second, Unlock(0, false));
               1 in third.procs && !third.procs[1].failed && email !in third.locks
  {
    var s := Start(now);
    var s1 := Apply(s, Begin(email));
    var s2 := Apply(s1, Fail(0));
    var late := Apply(s2, Wait(30 * SECOND));
    FirstStep(s2, Wait(30 * SECOND), []);
    FirstStep(s1, Fail(0), [Wait(30 * SECOND)]);
    FirstStep(s, Begin(email), [Fail(0), Wait(30 * SECOND)]);
    var steps := [Begin(email), Fail(0), Wait(30 * SECOND)];
    assert steps == [Begin(email)] + ([Fail(0)] + ([Wait(30 * SECOND)] + []));
    assert Exec(s, steps) == late && late.next == 1;
    LateCleanUpRemovesForeignLock(now, steps, 0);
    var second := Apply(late, Begin(email));
    assert 0 in second.procs && 1 in second.procs;
  }

  // ---------- A registration nobody interrupts ----------

  /** The typed store has the same locks, without their owners. */
  ghost predicate SameLocks(locks: map<string, Timed<string>>, s: Sys) {
    forall e :: (e in locks <==> e in s.locks) && (e in locks ==> locks[e].expiry == s.locks[e].expiry)
  }

  /** The steps of one registration that nobody interrupts. */
  function Alone(s: Sys, email: string, e: Protocol.VerifyEnv): seq<Step> {
    if e.lock.Lost? then []
    else if e.lock.Unanswered? then [Orphan(email)]
    else if Held(s, email) then [Begin(email)]
    else if e.registration.Registered? then [Begin(email), Succeed(s.next)]
    else [Begin(email), Fail(s.next), Unlock(s.next, e.unlockFails)]
  }

  function After(s: Sys, steps: seq<Step>): Option<Sys>
    decreases |steps|
  {
    if steps == [] then Some(s)
    else if !Enabled(s, steps[0]) then None
    else After(Apply(s, steps[0]), steps[1..])
  }

  lemma BeginRefused(s: Sys, email: string)
    requires Held(s, email)
    ensures After(s, [Begin(email)]) == Some(s)
  {
    assert [Begin(email)][1..] == [];
    assert After(s, []) == Some(s);
  }

  /** The lock won stays after a success; after a failure its key goes, unless the deletion fails. */
  lemma BeginWon(s: Sys, email: string, fails: bool)
    requires !Held(s, email) && s.next !in s.procs
    ensures var won := s.(locks := s.locks[email := Lock(s.next, s.now + REGISTER_LOCK_TTL)], next := s.next + 1);
            && After(s, [Begin(email), Succeed(s.next)]) == Some(won)
            && After(s, [Begin(email), Fail(s.next), Unlock(s.next, fails)]) ==
               Some(if fails then won else won.(locks := s.locks - {email}))
  {
    var s1 := Apply(s, Begin(email));
    assert s1.procs - {s.next} == s.procs;
    assert [Begin(email), Succeed(s.next)][1..] == [Succeed(s.next)] && [Succeed(s.next)][1..] == [];
    assert After(s1, [Succeed(s.next)]) == After(Apply(s1, Succeed(s.next)), []);
    FailAndUnlock(s1, s.next, fails);
    assert [Begin(email), Fail(s.next), Unlock(s.next, fails)][1..] == [Fail(s.next), Unlock(s.next, fails)];
    assert s1.locks - {email} == s.locks - {email};
  }

  lemma FailAndUnlock(s: Sys, p: nat, fails: bool)
    requires p in s.procs && !s.procs[p].failed
    ensures After(s, [Fail(p), Unlock(p, fails)]) ==
            Some(s.(procs := s.procs - {p}, locks := if fails then s.locks else s.locks - {s.procs[p].email}))
  {
    var s2 := Apply(s, Fail(p));
    assert s2.procs - {p} == s.procs - {p};
    assert [Fail(p), Unlock(p, fails)][1..] == [Unlock(p, fails)] && [Unlock(p, fails)][1..] == [];
    assert After(s2, [Unlock(p, fails)]) == After(Apply(s2, Unlock(p, fails)), []);
  }

  lemma OrphanAlone(s: Sys, email: string)
    ensures After(s, []) == Some(s) && After(s, [Orphan(email)]) == Some(Apply(s, Orphan(email)))
  {
    assert [Orphan(email)][1..] == [];
    assert After(Apply(s, Orphan(email)), []) == Some(Apply(s, Orphan(email)));
  }

  lemma AtomicLocks(w: Protocol.World, id: string, req: Protocol.VerifyRequest, e: Protocol.VerifyEnv)
    requires Text.TrimSpace(req.username) != "" && |req.password| >= 8
    ensures var (w', out) := Protocol.AfterRegister(w, id, req, e);
            (out.LockUnavailable? <==> !e.lock.Acknowledged?) &&
            if e.lock.Lost? then w'.db.locks == w.db.locks
            else if Live(w.db.locks, id, w.now).Some? then
              (out.InProgress? <==> e.lock.Acknowledged?) && w'.db.locks == w.db.locks
            else
              var won := w.db.locks[id := Timed("1", w.now + REGISTER_LOCK_TTL)];
              !out.InProgress? &&
              w'.db.locks ==
              if e.lock.Unanswered? || e.registration.Registered? || e.unlockFails then won else won - {id}
  {
  }

  /** The atomic registration does to the locks what its steps do when nothing comes between them; it
      is refused exactly when it does not win the lock. */
  lemma AloneIsAtomic(w: Protocol.World, id: string, req: Protocol.VerifyRequest, e: Protocol.VerifyEnv, s: Sys)
    requires s.now == w.now && SameLocks(w.db.locks, s) && s.next !in s.procs
    requires Text.TrimSpace(req.username) != "" && |req.password| >= 8
    ensures var (w', out) := Protocol.AfterRegister(w, id, req, e); var s' := After(s, Alone(s, id, e));
            s'.Some? && SameLocks(w'.db.locks, s'.value) && s'.value.procs == s.procs &&
            (out.InProgress? <==> e.lock.Acknowledged? && s'.value.next == s.next)
  {
    AtomicLocks(w, id, req, e);
    assert Held(s, id) <==> Live(w.db.locks, id, w.now).Some?;
    if !e.lock.Acknowledged? {
      OrphanAlone(s, id);
    } else if Held(s, id) {
      BeginRefused(s, id);
    } else {
      BeginWon(s, id, e.unlockFails);
    }
  }
}
