/** The shared cache client, a mutable map from strings to documents with expiries, and the
    typed store it stands for. */
module SharedCache {
  import opened Wrappers
  import opened Keys
  import opened TypedStore

  datatype Doc =
    | OtpDoc(otp: OtpData)
    | ResetDoc(reset: ResetTokenData)
    | StateDoc(provider: string)
    | LockDoc(mark: string)

  type Entries = map<string, Timed<Doc>>

  /** The document kind each family of keys holds. */
  predicate Fits(k: Key, d: Doc) {
    match k
    case OtpKey(_) => d.OtpDoc?
    case ResetKey(_) => d.ResetDoc?
    case LockKey(_) => d.LockDoc?
    case StateKey(_) => d.StateDoc?
  }

  /** What the typed store has under a key, as a document. */
  ghost function Find(db: Store, k: Key): (r: Option<Timed<Doc>>)
    ensures r.Some? ==> Fits(k, r.value.value)
  {
    match k
    case OtpKey(slot) =>
      if slot in db.otps then Some(Timed(OtpDoc(db.otps[slot].value), db.otps[slot].expiry)) else None
    case ResetKey(token) =>
      if token in db.resets then Some(Timed(ResetDoc(db.resets[token].value), db.resets[token].expiry)) else None
    case LockKey(email) =>
      if email in db.locks then Some(Timed(LockDoc(db.locks[email].value), db.locks[email].expiry)) else None
    case StateKey(state) =>
      if state in db.states then Some(Timed(StateDoc(db.states[state].value), db.states[state].expiry)) else None
  }

  /** The typed store with one more document, filed by family. */
  ghost function Put(db: Store, k: Key, t: Timed<Doc>): Store
    requires Fits(k, t.value)
  {
    match k
    case OtpKey(slot) => db.(otps := db.otps[slot := Timed(t.value.otp, t.expiry)])
    case ResetKey(token) => db.(resets := db.resets[token := Timed(t.value.reset, t.expiry)])
    case LockKey(email) => db.(locks := db.locks[email := Timed(t.value.mark, t.expiry)])
    case StateKey(state) => db.(states := db.states[state := Timed(t.value.provider, t.expiry)])
  }

  ghost function Drop(db: Store, k: Key): Store {
    match k
    case OtpKey(slot) => db.(otps := db.otps - {slot})
    case ResetKey(token) => db.(resets := db.resets - {token})
    case LockKey(email) => db.(locks := db.locks - {email})
    case StateKey(state) => db.(states := db.states - {state})
  }

  /** What the flat map has under the rendering of a key. */
  ghost function At(es: Entries, k: Key): Option<Timed<Doc>> {
    if Render(k) in es then Some(es[Render(k)]) else None
  }

  /** The flat map stands for the typed store: they agree under every key. */
  ghost predicate Represents(es: Entries, db: Store) {
    forall k :: Find(db, k) == At(es, k)
  }

  /** A flat map stands for one typed store only. */
  lemma RepresentsOneStore(es: Entries, a: Store, b: Store)
    requires Represents(es, a) && Represents(es, b)
    ensures a == b
  {
    forall slot
      ensures slot in a.otps <==> slot in b.otps
      ensures slot in a.otps ==> a.otps[slot] == b.otps[slot]
    {
      assert Find(a, OtpKey(slot)) == Find(b, OtpKey(slot));
    }
    forall t
      ensures t in a.resets <==> t in b.resets
      ensures t in a.resets ==> a.resets[t] == b.resets[t]
    {
      assert Find(a, ResetKey(t)) == Find(b, ResetKey(t));
    }
    forall e
      ensures e in a.locks <==> e in b.locks
      ensures e in a.locks ==> a.locks[e] == b.locks[e]
    {
      assert Find(a, LockKey(e)) == Find(b, LockKey(e));
    }
    forall s
      ensures s in a.states <==> s in b.states
      ensures s in a.states ==> a.states[s] == b.states[s]
    {
      assert Find(a, StateKey(s)) == Find(b, StateKey(s));
    }
    assert a.otps == b.otps && a.resets == b.resets && a.locks == b.locks && a.states == b.states;
  }

  /** Writing under a rendered key is writing to that key of that family and to nothing else. */
  lemma PutSimulates(es: Entries, db: Store, k: Key, t: Timed<Doc>)
    requires Represents(es, db) && Fits(k, t.value)
    ensures Represents(es[Render(k) := t], Put(db, k, t))
  {
    forall q
      ensures Find(Put(db, k, t), q) == At(es[Render(k) := t], q)
    {
      RenderInjective(k, q);
      assert Find(db, q) == At(es, q);
    }
  }

  lemma DropSimulates(es: Entries, db: Store, k: Key)
    requires Represents(es, db)
    ensures Represents(es - {Render(k)}, Drop(db, k))
  {
    forall q
      ensures Find(Drop(db, k), q) == At(es - {Render(k)}, q)
    {
      RenderInjective(k, q);
      assert Find(db, q) == At(es, q);
    }
  }

  // ---------- The client ----------

  datatype Reply = Failed | Miss | Hit(doc: Doc)

  /** `end` says how a write ends whose error is looked at. `fails` says that a read errs, or that an
      increment or a deletion has no effect; whether those report an error is never looked at. The clock
      only moves between operations. */
  class Cache {
    var clock: int
    var entries: Entries
    ghost var db: Store

    ghost predicate Valid()
      reads this
    {
      Represents(entries, db)
    }

    constructor (now: int)
      ensures Valid() && clock == now && db == EMPTY
    {
      clock, entries, db := now, map[], EMPTY;
    }

    method SetJSON(key: string, doc: Doc, ttl: int, end: Write, ghost k: Key) returns (ok: bool)
      requires Valid() && key == Render(k) && Fits(k, doc)
      modifies this`entries, this`db
      ensures Valid() && ok == end.Acknowledged?
      ensures db == if end.Lost? then old(db) else Put(old(db), k, Timed(doc, clock + ttl))
    {
      if !end.Lost? {
        PutSimulates(entries, db, k, Timed(doc, clock + ttl));
        entries := entries[key := Timed(doc, clock + ttl)];
        db := Put(db, k, Timed(doc, clock + ttl));
      }
      ok := end.Acknowledged?;
    }

    method GetJSON(key: string, fails: bool, ghost k: Key) returns (r: Reply)
      requires Valid() && key == Render(k)
      ensures r.Failed? <==> fails
      ensures r.Hit? <==> !fails && Find(db, k).Some? && clock < Find(db, k).value.expiry
      ensures r.Hit? ==> r.doc == Find(db, k).value.value
    {
      assert Find(db, k) == At(entries, k);
      if fails {
        r := Failed;
      } else if key in entries && clock < entries[key].expiry {
        r := Hit(entries[key].value);
      } else {
        r := Miss;
      }
    }

    /** Adds one to the retry field of a live code document; the expiry stays. */
    method JSONIncrementField(key: string, fails: bool, ghost slot: Slot)
      requires Valid() && key == Render(OtpKey(slot))
      modifies this`entries, this`db
      ensures Valid() && db == IncrementRetry(old(db), clock, slot, fails)
    {
      assert Find(db, OtpKey(slot)) == At(entries, OtpKey(slot));
      if !fails && key in entries && clock < entries[key].expiry {
        var t := entries[key];
        var t' := Timed(OtpDoc(t.value.otp.(retry := t.value.otp.retry + 1)), t.expiry);
        PutSimulates(entries, db, OtpKey(slot), t');
        entries := entries[key := t'];
        db := Put(db, OtpKey(slot), t');
      }
    }

    method Delete(key: string, fails: bool, ghost k: Key)
      requires Valid() && key == Render(k)
      modifies this`entries, this`db
      ensures Valid() && db == if fails then old(db) else Drop(old(db), k)
    {
      if !fails {
        DropSimulates(entries, db, k);
        entries := entries - {key};
        db := Drop(db, k);
      }
    }

    /** Takes the lock unless somebody holds it. */
    method SetNX(key: string, mark: string, ttl: int, end: Write, ghost email: string) returns (ok: bool, won: bool)
      requires Valid() && key == Render(LockKey(email))
      modifies this`entries, this`db
      ensures Valid() && ok == end.Acknowledged?
      ensures won == (!end.Lost? && Live(old(db).locks, email, clock).None?)
      ensures db == if won then Put(old(db), LockKey(email), Timed(LockDoc(mark), clock + ttl)) else old(db)
    {
      assert Find(db, LockKey(email)) == At(entries, LockKey(email));
      ok := end.Acknowledged?;
      won := !end.Lost? && !(key in entries && clock < entries[key].expiry);
      if won {
        PutSimulates(entries, db, LockKey(email), Timed(LockDoc(mark), clock + ttl));
        entries := entries[key := Timed(LockDoc(mark), clock + ttl)];
        db := Put(db, LockKey(email), Timed(LockDoc(mark), clock + ttl));
      }
    }

    method Advance(d: nat)
      requires Valid()
      modifies this`clock
      ensures Valid() && clock == old(clock) + d
    {
      clock := clock + d;
    }
  }
}
