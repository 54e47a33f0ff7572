/** The bound on interleaved redemption cannot be improved either. */
module RedemptionBoundAttained {
  import Sets
  import opened Keys
  import opened SharedCache
  import opened InterleavedRedemption

  /** One item, handed out `d` times with the deletion failing each time; of the next readers the first `i` have
      read and nobody has moved on. */
  function HandedOut(now: int, key: Key, value: Doc, ttl: int, d: nat, i: nat): Sys {
    Sys(now, map[key := Item(value, now + ttl, 0)], map p | p in Sets.Below(i) :: Redeeming(key, value, 0),
        [Tally(key, value, d + i, d)])
  }

  lemma ReadersLinked(now: int, key: Key, value: Doc, ttl: int, d: nat, i: nat)
    ensures var s := HandedOut(now, key, value, ttl, d, i);
            Linked(s) && InFlight(s.procs, key) == Sets.Below(i) && i !in s.procs
  {
    assert InFlight(HandedOut(now, key, value, ttl, d, i).procs, key) == Sets.Below(i);
  }

  lemma NextReader(now: int, key: Key, value: Doc, ttl: int, d: nat, i: nat)
    ensures HandedOut(now, key, value, ttl, d, i + 1).procs ==
            HandedOut(now, key, value, ttl, d, i).procs[i := Redeeming(key, value, 0)]
  {
  }

  lemma ReadStep(now: int, key: Key, value: Doc, ttl: int, d: nat, i: nat, k: nat)
    requires ttl > 0 && i < k
    ensures var s, read := HandedOut(now, key, value, ttl, d, i), Read(i, key, false);
            Linked(s) && Enabled(s, read, k) && Apply(s, read, k) == HandedOut(now, key, value, ttl, d, i + 1) &&
            Possible(s, [read], k) && Exec(s, [read], k) == HandedOut(now, key, value, ttl, d, i + 1)
  {
    ReadersLinked(now, key, value, ttl, d, i);
    NextReader(now, key, value, ttl, d, i);
    OneStep(HandedOut(now, key, value, ttl, d, i), Read(i, key, false), k);
  }

  function Reads(key: Key, i: nat, k: nat): seq<Step>
    requires i <= k
    decreases k - i
  {
    if i == k then [] else [Read(i, key, false)] + Reads(key, i + 1, k)
  }

  lemma {:induction false} ReadsRun(now: int, key: Key, value: Doc, ttl: int, d: nat, i: nat, k: nat)
    requires ttl > 0 && i <= k
    ensures var s := HandedOut(now, key, value, ttl, d, i);
            Linked(s) && Possible(s, Reads(key, i, k), k) &&
            Exec(s, Reads(key, i, k), k) == HandedOut(now, key, value, ttl, d, k)
    decreases k - i
  {
    ReadersLinked(now, key, value, ttl, d, i);
    if i < k {
      ReadStep(now, key, value, ttl, d, i, k);
      ReadsRun(now, key, value, ttl, d, i + 1, k);
      RunsCompose(HandedOut(now, key, value, ttl, d, i), [Read(i, key, false)], Reads(key, i + 1, k), k);
    }
  }

  lemma OneKept(now: int, key: Key, value: Doc, ttl: int, d: nat, k: nat)
    requires ttl > 0 && k >= 1
    ensures var s, steps := HandedOut(now, key, value, ttl, d, 0), [Read(0, key, false)] + [Delete(0, true)];
            Linked(s) && Possible(s, steps, k) && Exec(s, steps, k) == HandedOut(now, key, value, ttl, d + 1, 0)
  {
    var s, s1 := HandedOut(now, key, value, ttl, d, 0), HandedOut(now, key, value, ttl, d, 1);
    ReadStep(now, key, value, ttl, d, 0, k);
    LinkedAfter(s, Read(0, key, false), k);
    assert s1.procs == map[0 := Redeeming(key, value, 0)];
    OneStep(s1, Delete(0, true), k);
    assert Apply(s1, Delete(0, true), k).procs == map[] == HandedOut(now, key, value, ttl, d + 1, 0).procs;
    RunsCompose(s, [Read(0, key, false)], [Delete(0, true)], k);
  }

  lemma {:induction false} KeptRun(now: int, key: Key, value: Doc, ttl: int, d: nat, k: nat) returns (steps: seq<Step>)
    requires ttl > 0 && k >= 1
    ensures Possible(Start(now), steps, k) && Exec(Start(now), steps, k) == HandedOut(now, key, value, ttl, d, 0)
    decreases d
  {
    if d == 0 {
      steps := [Put(key, value, ttl)];
      OneStep(Start(now), Put(key, value, ttl), k);
      assert Apply(Start(now), Put(key, value, ttl), k).procs == HandedOut(now, key, value, ttl, 0, 0).procs;
    } else {
      var before := KeptRun(now, key, value, ttl, d - 1, k);
      OneKept(now, key, value, ttl, d - 1, k);
      RunsCompose(Start(now), before, [Read(0, key, false)] + [Delete(0, true)], k);
      steps := before + ([Read(0, key, false)] + [Delete(0, true)]);
    }
  }

  /** For every number k of callers under way and every number d of failed deletions some run hands out what
      was put once exactly k + d times. */
  lemma RedemptionBoundIsMet(now: int, key: Key, value: Doc, ttl: int, k: nat, d: nat)
    requires ttl > 0 && k >= 1
    ensures exists steps :: Possible(Start(now), steps, k) &&
                            Exec(Start(now), steps, k).puts == [Tally(key, value, k + d, d)]
  {
    var before := KeptRun(now, key, value, ttl, d, k);
    ReadsRun(now, key, value, ttl, d, 0, k);
    RunsCompose(Start(now), before, Reads(key, 0, k), k);
    var steps := before + Reads(key, 0, k);
    assert Possible(Start(now), steps, k);
  }
}
