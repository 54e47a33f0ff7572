/** Redeeming a reset token or a social-login state with the read and the delete interleaved among any
    number of callers. */
module InterleavedRedemption {
  import opened Wrappers
  import opened Keys
  import opened TypedStore
  import opened SharedCache
  import Protocol

  /** What is put under a key; `gen` is its number in the order of putting. */
  datatype Item = Item(value: Doc, expiry: int, gen: nat)

  /** A caller that was handed `value`, as read from item `gen`, and has not deleted the key yet. */
  datatype Redeeming = Redeeming(key: Key, value: Doc, gen: nat)

  /** What was put, how often it was handed out, and how often the deletion after that failed. */
  datatype Tally = Tally(key: Key, value: Doc, read: nat, kept: nat)

  datatype Sys = Sys(now: int, items: map<Key, Item>, procs: map<nat, Redeeming>, puts: seq<Tally>)

  datatype Step =
    | Wait(d: nat)
    | Put(key: Key, value: Doc, ttl: int)
    | Read(pid: nat, key: Key, fails: bool)
    | Delete(pid: nat, fails: bool)

  function Start(now: int): Sys {
    Sys(now, map[], map[], [])
  }

  function InFlight(procs: map<nat, Redeeming>, key: Key): set<nat> {
    set p | p in procs && procs[p].key == key
  }

  predicate Enabled(s: Sys, step: Step, k: nat) {
    match step
    case Wait(_) => true
    case Put(_, _, _) => true
    case Read(pid, key, _) => pid !in s.procs && |InFlight(s.procs, key)| < k
    case Delete(pid, _) => pid in s.procs
  }

  /** Put number `gen` put that value under that key. */
  predicate Names(puts: seq<Tally>, gen: nat, key: Key, value: Doc) {
    gen < |puts| && puts[gen].key == key && puts[gen].value == value
  }

  predicate Linked(s: Sys) {
    && (forall key :: key in s.items ==> Names(s.puts, s.items[key].gen, key, s.items[key].value))
    && (forall p :: p in s.procs ==> Names(s.puts, s.procs[p].gen, s.procs[p].key, s.procs[p].value))
  }

  /** What a reader of the key is handed. */
  function Handed(s: Sys, key: Key, fails: bool): Option<Doc> {
    if !fails && key in s.items && s.now < s.items[key].expiry then Some(s.items[key].value) else None
  }

  function Apply(s: Sys, step: Step, k: nat): Sys
    requires Linked(s) && Enabled(s, step, k)
  {
    match step
    case Wait(d) => s.(now := s.now + d)
    case Put(key, value, ttl) =>
      s.(items := s.items[key := Item(value, s.now + ttl, |s.puts|)], puts := s.puts + [Tally(key, value, 0, 0)])
    case Read(pid, key, fails) =>
      if Handed(s, key, fails).Some? then
        var g := s.items[key].gen;
        var t := s.puts[g];
        s.(procs := s.procs[pid := Redeeming(key, s.items[key].value, g)], puts := s.puts[g := t.(read := t.read + 1)])
      else s
    case Delete(pid, fails) =>
      var p := s.procs[pid];
      var t := s.puts[p.gen];
      if fails then s.(procs := s.procs - {pid}, puts := s.puts[p.gen := t.(kept := t.kept + 1)])
      else s.(procs := s.procs - {pid}, items := s.items - {p.key})
  }

  function Of(procs: map<nat, Redeeming>, gen: nat): set<nat> {
    set p | p in procs && procs[p].gen == gen
  }

  /** While an item is there, each read of it is about to delete it or failed to. */
  ghost predicate AccountedAt(s: Sys, key: Key) {
    key in s.items ==>
      var g := s.items[key].gen;
      Names(s.puts, g, key, s.items[key].value) && s.puts[g].read <= |Of(s.procs, g)| + s.puts[g].kept
  }

  ghost predicate Inv(s: Sys, k: nat) {
    && Linked(s)
    && (forall key :: AccountedAt(s, key))
    && (forall g :: 0 <= g < |s.puts| ==> s.puts[g].read <= k + s.puts[g].kept)
  }

  lemma LinkedAfter(s: Sys, step: Step, k: nat)
    requires Linked(s) && Enabled(s, step, k)
    ensures Linked(Apply(s, step, k))
  {
    var s' := Apply(s, step, k);
    assert forall g, key, value :: Names(s.puts, g, key, value) ==> Names(s'.puts, g, key, value);
    forall key | key in s'.items
      ensures Names(s'.puts, s'.items[key].gen, key, s'.items[key].value)
    {
      assert key in s.items ==> Names(s.puts, s.items[key].gen, key, s.items[key].value);
    }
    forall p | p in s'.procs
      ensures Names(s'.puts, s'.procs[p].gen, s'.procs[p].key, s'.procs[p].value)
    {
      assert p in s.procs ==> Names(s.puts, s.procs[p].gen, s.procs[p].key, s.procs[p].value);
    }
  }

  lemma CallerJoins(procs: map<nat, Redeeming>, pid: nat, r: Redeeming, g: nat)
    requires pid !in procs
    ensures |Of(procs[pid := r], g)| == |Of(procs, g)| + if r.gen == g then 1 else 0
  {
    assert Of(procs[pid := r], g) == if r.gen == g then Of(procs, g) + {pid} else Of(procs, g);
  }

  lemma CallerLeaves(procs: map<nat, Redeeming>, pid: nat, g: nat)
    requires pid in procs
    ensures |Of(procs - {pid}, g)| == |Of(procs, g)| - if procs[pid].gen == g then 1 else 0
  {
    assert Of(procs - {pid}, g) == Of(procs, g) - {pid};
    assert pid in Of(procs, g) <==> procs[pid].gen == g;
  }

  lemma ReadAccounts(s: Sys, pid: nat, key: Key, fails: bool, k: nat, q: Key)
    requires Linked(s) && AccountedAt(s, q) && Enabled(s, Read(pid, key, fails), k)
    ensures AccountedAt(Apply(s, Read(pid, key, fails), k), q)
  {
    var s' := Apply(s, Read(pid, key, fails), k);
    if q in s.items && pid in s'.procs {
      assert Names(s.puts, s.items[key].gen, key, s.items[key].value);
      CallerJoins(s.procs, pid, s'.procs[pid], s.items[q].gen);
    }
  }

  lemma DeleteAccounts(s: Sys, pid: nat, fails: bool, k: nat, q: Key)
    requires Linked(s) && AccountedAt(s, q) && Enabled(s, Delete(pid, fails), k)
    ensures AccountedAt(Apply(s, Delete(pid, fails), k), q)
  {
    if q in s.items {
      assert Names(s.puts, s.procs[pid].gen, s.procs[pid].key, s.procs[pid].value);
      CallerLeaves(s.procs, pid, s.items[q].gen);
    }
  }

  lemma StepAccounts(s: Sys, step: Step, k: nat, q: Key)
    requires Linked(s) && AccountedAt(s, q) && Enabled(s, step, k)
    ensures AccountedAt(Apply(s, step, k), q)
  {
    match step
    case Read(pid, key, fails) => ReadAccounts(s, pid, key, fails, k, q);
    case Delete(pid, fails) => DeleteAccounts(s, pid, fails, k, q);
    case _ =>
  }

  lemma ReadBounds(s: Sys, pid: nat, key: Key, fails: bool, k: nat)
    requires Inv(s, k) && Enabled(s, Read(pid, key, fails), k) && key in s.items
    ensures var t := s.puts[s.items[key].gen]; t.read + 1 <= k + t.kept
  {
    assert AccountedAt(s, key);
    var g := s.items[key].gen;
    var others := InFlight(s.procs, key) - Of(s.procs, g);
    assert InFlight(s.procs, key) == Of(s.procs, g) + others;
  }

  lemma StepKeepsInv(s: Sys, step: Step, k: nat)
    requires Inv(s, k) && Enabled(s, step, k)
    ensures Inv(Apply(s, step, k), k)
  {
    LinkedAfter(s, step, k);
    forall q
      ensures AccountedAt(Apply(s, step, k), q)
    {
      assert AccountedAt(s, q);
      StepAccounts(s, step, k, q);
    }
    if step.Read? && step.key in s.items {
      ReadBounds(s, step.pid, step.key, step.fails, k);
    }
  }

  predicate Possible(s: Sys, steps: seq<Step>, k: nat)
    requires Linked(s)
    decreases |steps|
  {
    steps == [] ||
    (Enabled(s, steps[0], k) && (LinkedAfter(s, steps[0], k); Possible(Apply(s, steps[0], k), steps[1..], k)))
  }

  function Exec(s: Sys, steps: seq<Step>, k: nat): (s': Sys)
    requires Linked(s) && Possible(s, steps, k)
    ensures Linked(s')
    decreases |steps|
  {
    if steps == [] then s
    else
      LinkedAfter(s, steps[0], k);
      Exec(Apply(s, steps[0], k), steps[1..], k)
  }

  lemma {:induction false} ExecKeepsInv(s: Sys, steps: seq<Step>, k: nat)
    requires Inv(s, k) && Possible(s, steps, k)
    ensures Inv(Exec(s, steps, k), k)
    decreases |steps|
  {
    if steps != [] {
      StepKeepsInv(s, steps[0], k);
      ExecKeepsInv(Apply(s, steps[0], k), steps[1..], k);
    }
  }

  lemma {:induction false} RunsCompose(s: Sys, a: seq<Step>, b: seq<Step>, k: nat)
    requires Linked(s) && Possible(s, a, k) && Possible(Exec(s, a, k), b, k)
    ensures Possible(s, a + b, k) && Exec(s, a + b, k) == Exec(Exec(s, a, k), b, k)
    decreases |a|
  {
    if a == [] {
      assert a + b == b;
    } else {
      LinkedAfter(s, a[0], k);
      RunsCompose(Apply(s, a[0], k), a[1..], b, k);
      assert (a + b)[1..] == a[1..] + b;
    }
  }

  lemma OneStep(s: Sys, a: Step, k: nat)
    requires Linked(s) && Enabled(s, a, k)
    ensures Possible(s, [a], k) && Exec(s, [a], k) == Apply(s, a, k)
  {
    LinkedAfter(s, a, k);
    assert [a][1..] == [];
    assert Possible(Apply(s, a, k), [], k);
  }

  /** With at most `k` callers under way per key, what was put once is handed out at most k times, plus
      once for each of its deletions that failed; one caller at a time without failures gets it once. What
      each caller was handed is what was put under its key. */
  lemma RedemptionBound(now: int, steps: seq<Step>, k: nat)
    requires Possible(Start(now), steps, k)
    ensures var s := Exec(Start(now), steps, k);
            && (forall g :: 0 <= g < |s.puts| ==> s.puts[g].read <= k + s.puts[g].kept)
            && (forall p :: p in s.procs ==> Names(s.puts, s.procs[p].gen, s.procs[p].key, s.procs[p].value))
  {
    ExecKeepsInv(Start(now), steps, k);
  }

  // ---------- A redemption nobody interrupts ----------

  /** Reads, and deletes if that handed something out. */
  function Alone(s: Sys, pid: nat, key: Key, readFails: bool, deleteFails: bool): seq<Step> {
    [Read(pid, key, readFails)] + if Handed(s, key, readFails).Some? then [Delete(pid, deleteFails)] else []
  }

  lemma AloneRuns(s: Sys, pid: nat, key: Key, readFails: bool, deleteFails: bool, k: nat)
    requires Linked(s) && Enabled(s, Read(pid, key, readFails), k)
    ensures var steps := Alone(s, pid, key, readFails, deleteFails);
            Possible(s, steps, k) &&
            var s' := Exec(s, steps, k);
            s'.procs == s.procs && s'.now == s.now &&
            s'.items == if Handed(s, key, readFails).Some? && !deleteFails then s.items - {key} else s.items
  {
    var read, delete := Read(pid, key, readFails), Delete(pid, deleteFails);
    LinkedAfter(s, read, k);
    OneStep(s, read, k);
    if Handed(s, key, readFails).Some? {
      var s1 := Apply(s, read, k);
      OneStep(s1, delete, k);
      RunsCompose(s, [read], [delete], k);
      assert Apply(s1, delete, k).procs == s.procs;
    } else {
      assert Alone(s, pid, key, readFails, deleteFails) == [read];
    }
  }

  /** The typed store has the same tokens and states, with their data and expiries. */
  ghost predicate SameStore(db: Store, items: map<Key, Item>) {
    (forall t :: SameToken(db, items, t)) && (forall t :: SameState(db, items, t))
  }

  predicate SameToken(db: Store, items: map<Key, Item>, t: string) {
    (t in db.resets <==> ResetKey(t) in items) &&
    (t in db.resets ==>
       items[ResetKey(t)].value == ResetDoc(db.resets[t].value) && items[ResetKey(t)].expiry == db.resets[t].expiry)
  }

  predicate SameState(db: Store, items: map<Key, Item>, t: string) {
    (t in db.states <==> StateKey(t) in items) &&
    (t in db.states ==>
       items[StateKey(t)].value == StateDoc(db.states[t].value) && items[StateKey(t)].expiry == db.states[t].expiry)
  }

  lemma SameAfterDeletion(db: Store, items: map<Key, Item>, t: string)
    requires SameStore(db, items)
    ensures SameStore(DeleteResetToken(db, t, false), items - {ResetKey(t)})
    ensures SameStore(DeleteState(db, t, false), items - {StateKey(t)})
  {
    forall q
      ensures SameToken(DeleteResetToken(db, t, false), items - {ResetKey(t)}, q)
      ensures SameToken(DeleteState(db, t, false), items - {StateKey(t)}, q)
    {
      assert SameToken(db, items, q);
    }
    forall q
      ensures SameState(DeleteResetToken(db, t, false), items - {ResetKey(t)}, q)
      ensures SameState(DeleteState(db, t, false), items - {StateKey(t)}, q)
    {
      assert SameState(db, items, q);
    }
  }

  /** The atomic reset takes the token as an uninterrupted reader and deleter does: it calls the token
      invalid exactly when nothing is handed out, spends exactly the data handed out, and leaves the same
      tokens and states. */
  lemma ResetAlone(w: Protocol.World, token: string, e: Protocol.ResetEnv, s: Sys, pid: nat, k: nat)
    requires Linked(s) && s.now == w.now && SameStore(w.db, s.items)
    requires Enabled(s, Read(pid, ResetKey(token), e.readFails), k)
    ensures var (w', out) := Protocol.Reset(w, token, e); var handed := Handed(s, ResetKey(token), e.readFails);
            var steps := Alone(s, pid, ResetKey(token), e.readFails, e.deleteFails);
            && Possible(s, steps, k) && SameStore(w'.db, Exec(s, steps, k).items) && Exec(s, steps, k).procs == s.procs
            && (out.TokenInvalid? <==> handed.None?)
            && (handed.Some? ==>
                  handed.value.ResetDoc? && |w'.log| > |w.log| &&
                  w'.log[|w.log|] == Protocol.TokenSpent(token, handed.value.reset, w.now, !e.deleteFails))
  {
    AloneRuns(s, pid, ResetKey(token), e.readFails, e.deleteFails, k);
    SameAfterDeletion(w.db, s.items, token);
    assert SameToken(w.db, s.items, token);
  }

  /** Likewise the atomic exchange takes the social-login state. */
  lemma ExchangeAlone(w: Protocol.World, state: string, e: Protocol.ExchangeEnv, s: Sys, pid: nat, k: nat)
    requires Linked(s) && s.now == w.now && SameStore(w.db, s.items) && state != ""
    requires Enabled(s, Read(pid, StateKey(state), e.readFails), k)
    ensures var (w', out) := Protocol.Exchange(w, state, e); var handed := Handed(s, StateKey(state), e.readFails);
            var steps := Alone(s, pid, StateKey(state), e.readFails, e.deleteFails);
            && Possible(s, steps, k) && SameStore(w'.db, Exec(s, steps, k).items) && Exec(s, steps, k).procs == s.procs
            && (out.StateInvalid? <==> handed.None?)
            && (handed.Some? ==>
                  handed.value.StateDoc? && |w'.log| > |w.log| &&
                  w'.log[|w.log|] == Protocol.StateSpent(state, handed.value.provider, w.now, !e.deleteFails))
  {
    AloneRuns(s, pid, StateKey(state), e.readFails, e.deleteFails, k);
    SameAfterDeletion(w.db, s.items, state);
    assert SameState(w.db, s.items, state);
  }
}
