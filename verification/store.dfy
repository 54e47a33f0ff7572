/** The cache as the protocol means it: four separate typed maps, and what one call of the
    code and token services does to them. Times are in nanoseconds. */
module TypedStore {
  import opened Wrappers
  import opened Keys

  const SECOND := 1_000_000_000
  const MINUTE := 60 * SECOND

  const MAX_RETRIES := 5
  const RESET_TOKEN_TTL := 10 * MINUTE
  const REGISTER_LOCK_TTL := 30 * SECOND
  const SOCIAL_STATE_TTL := 10 * MINUTE

  datatype OtpData = OtpData(code: string, retry: int)
  datatype ResetTokenData = ResetTokenData(email: string, userID: string)

  /** A value together with the instant from which it is gone. */
  datatype Timed<+T> = Timed(value: T, expiry: int)

  datatype Store = Store(
    otps: map<Slot, Timed<OtpData>>,
    resets: map<string, Timed<ResetTokenData>>,
    locks: map<string, Timed<string>>,
    states: map<string, Timed<string>>)

  const EMPTY := Store(map[], map[], map[], map[])

  /** What a read at `now` sees: nothing at or after the expiry. */
  function Live<K, T>(m: map<K, Timed<T>>, k: K, now: int): Option<T> {
    if k in m && now < m[k].expiry then Some(m[k].value) else None
  }

  function TtlForPurpose(p: Purpose): int {
    if p.Register? then 60 * SECOND else 10 * MINUTE
  }

  /** How a write ends: acknowledged; done although an error is reported; or not done, with an error. */
  datatype Write = Acknowledged | Unanswered | Lost

  // ---------- Code service ----------

  function StoreOTP(db: Store, now: int, slot: Slot, code: string): Store {
    db.(otps := db.otps[slot := Timed(OtpData(code, 0), now + TtlForPurpose(slot.purpose))])
  }

  function DeleteOTP(db: Store, slot: Slot, fails: bool): Store {
    if fails then db else db.(otps := db.otps - {slot})
  }

  function IncrementRetry(db: Store, now: int, slot: Slot, fails: bool): Store {
    if fails || Live(db.otps, slot, now).None? then db
    else
      var t := db.otps[slot];
      db.(otps := db.otps[slot := t.(value := t.value.(retry := t.value.retry + 1))])
  }

  /** Whether the read of one code check fails, and whether its increment and its deletion have no effect;
      what those two report is ignored. */
  datatype Faults = Faults(read: bool, increment: bool, delete: bool)

  /** The ways a code check ends. The two exhausted cases give the caller the same error. */
  datatype Verdict =
    | Accepted
    | Missing        // not stored, or expired
    | Unreadable     // the read itself failed
    | LockedOut      // refused before the codes are compared
    | LastGuess      // a wrong code that uses up the budget
    | WrongGuess     // a wrong code that leaves some budget

  function Judge(db: Store, now: int, slot: Slot, guess: string, f: Faults): Verdict {
    if f.read then Unreadable
    else
      match Live(db.otps, slot, now)
      case None => Missing
      case Some(data) =>
        if data.retry >= MAX_RETRIES then LockedOut
        else if data.code == guess then Accepted
        else if data.retry + 1 >= MAX_RETRIES then LastGuess
        else WrongGuess
  }

  /** The store after a code check that ended in `v`. */
  function AfterJudgement(db: Store, now: int, slot: Slot, v: Verdict, f: Faults): Store {
    match v
    case Accepted => db
    case Missing => db
    case Unreadable => db
    case LockedOut => DeleteOTP(db, slot, f.delete)
    case LastGuess => DeleteOTP(IncrementRetry(db, now, slot, f.increment), slot, f.delete)
    case WrongGuess => IncrementRetry(db, now, slot, f.increment)
  }

  // ---------- Reset-token service ----------

  function StoreResetToken(db: Store, now: int, token: string, data: ResetTokenData): Store {
    db.(resets := db.resets[token := Timed(data, now + RESET_TOKEN_TTL)])
  }

  function DeleteResetToken(db: Store, token: string, fails: bool): Store {
    if fails then db else db.(resets := db.resets - {token})
  }

  // ---------- Registration lock and social-login state ----------

  function TakeLock(db: Store, now: int, email: string): Store {
    db.(locks := db.locks[email := Timed("1", now + REGISTER_LOCK_TTL)])
  }

  function ReleaseLock(db: Store, email: string, fails: bool): Store {
    if fails then db else db.(locks := db.locks - {email})
  }

  function StoreState(db: Store, now: int, state: string, provider: string): Store {
    db.(states := db.states[state := Timed(provider, now + SOCIAL_STATE_TTL)])
  }

  function DeleteState(db: Store, state: string, fails: bool): Store {
    if fails then db else db.(states := db.states - {state})
  }
}
