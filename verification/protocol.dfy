/** The use cases as steps on the typed store, each call instantaneous, with a log of what
    happened. Everything the outside world decides (the random source, the directory, the mail
    server, failing operations) is an argument of the call. */
module Protocol {
  import Text
  import opened Wrappers
  import opened Keys
  import opened TypedStore

  // ---------- The log ----------

  datatype Event =
    | CodeStored(slot: Slot, code: string, at: int)
    | CodeAccepted(slot: Slot, code: string, at: int, deleted: bool)
      // a code compared and found wrong: was the counter raised, was it the last guess, was the code deleted
    | CodeRefused(slot: Slot, at: int, counted: bool, last: bool, deleted: bool)
      // refused unseen because the counter had reached its limit
    | CodeLocked(slot: Slot, at: int, deleted: bool)
    | UserFound(email: string, userID: string, at: int)
    | TokenIssued(token: string, data: ResetTokenData, at: int)
    | TokenSpent(token: string, data: ResetTokenData, at: int, deleted: bool)
    | PasswordSet(userID: string, at: int, ok: bool)
      // created with the verified flag set
    | UserCreated(email: string, at: int)
    | EmailUpdated(userID: string, email: string, at: int, ok: bool)
    | StateIssued(state: string, provider: string, at: int)
    | StateSpent(state: string, provider: string, at: int, deleted: bool)
    | CodeExchanged(state: string, at: int)
    | LoginAnnounced(state: string, provider: string, at: int)

  type Log = seq<Event>

  datatype World = World(now: int, db: Store, log: Log)

  function Fresh(now: int): World {
    World(now, EMPTY, [])
  }

  // ---------- Requests and what the world answers ----------

  datatype SendEnv = SendEnv(
    lookup: Option<string>, draw: Text.Draw, generateFails: bool, store: Write, mailFails: bool)

  datatype VerifyRequest = VerifyRequest(
    purpose: Purpose, email: string, otp: string, username: string, password: string)

  /** How far a registration in the directory gets; a creation may be done although an error is reported. */
  datatype Registration = NoAdminToken | CreateFailed | CreateUnanswered | PasswordFailed | LoginFailed | Registered {
    predicate Creates() {
      CreateUnanswered? || PasswordFailed? || LoginFailed? || Registered?
    }
  }

  /** How far an update of a directory entry gets; only the last two reach the write itself. */
  datatype Update = Unreachable | UserMissing | WriteFailed | Written {
    predicate Writes() {
      WriteFailed? || Written?
    }
  }

  datatype VerifyEnv = VerifyEnv(
    faults: Faults, cause: string, lock: Write, registration: Registration, unlockFails: bool,
    lookup: Option<string>, token: string, store: Write, update: Update)

  datatype ResetEnv = ResetEnv(readFails: bool, deleteFails: bool, adminFails: bool, writeFails: bool)

  datatype Post = NoConnection | BadBody | Denied | BadJson | Tokens

  datatype ExchangeEnv = ExchangeEnv(readFails: bool, deleteFails: bool, post: Post, producer: bool)

  datatype Call =
    | Wait(d: nat)
    | SendOTP(purpose: Purpose, email: string, send: SendEnv)
    | VerifyOTP(req: VerifyRequest, userID: string, verify: VerifyEnv)
    | ResetPassword(token: string, reset: ResetEnv)
    | SocialLoginURL(provider: string, state: string, stored: Write)
    | ExchangeCode(state: string, exchange: ExchangeEnv)

  datatype Outcome =
    | Done
    | AddressRefused | CannotGenerate | CannotStore | CannotMail
    | CodeFailed(verdict: Verdict)
    | UsernameRequired | PasswordTooShort | LockUnavailable | InProgress | NotRegistered(registration: Registration)
    | EmailUnknown | NoToken | Issued(token: string)
    | Unauthorised | NotUpdated(update: Update)
    | TokenInvalid | PasswordNotSet
    | ProviderRefused | StateNotStored | StateMissing | StateInvalid | NotExchanged(post: Post)

  // ---------- Sending a code ----------

  /** The check before a code is sent: a lookup that errs counts as `not found`. */
  predicate Blocked(p: Purpose, lookup: Option<string>) {
    if p.Forgot? then lookup.None? else lookup.Some?
  }

  function Send(w: World, p: Purpose, email: string, e: SendEnv): (World, Outcome) {
    var slot := Slot(p, Text.Normalise(email));
    if Blocked(p, e.lookup) then (w, AddressRefused)
    else if e.generateFails then (w, CannotGenerate)
    else if e.store.Lost? then (w, CannotStore)
    else
      var w' := w.(db := StoreOTP(w.db, w.now, slot, Text.CodeOf(e.draw)),
                   log := w.log + [CodeStored(slot, Text.CodeOf(e.draw), w.now)]);
      (w', if e.store.Unanswered? then CannotStore else if e.mailFails then CannotMail else Done)
  }

  // ---------- Checking a code ----------

  function CheckEvents(slot: Slot, guess: string, now: int, v: Verdict, f: Faults): Log {
    match v
    case Accepted => [CodeAccepted(slot, guess, now, !f.delete)]
    case Missing => []
    case Unreadable => []
    case LockedOut => [CodeLocked(slot, now, !f.delete)]
    case LastGuess => [CodeRefused(slot, now, !f.increment, true, !f.delete)]
    case WrongGuess => [CodeRefused(slot, now, !f.increment, false, false)]
  }

  /** Validate, and delete on acceptance. */
  function Check(w: World, slot: Slot, guess: string, f: Faults): (World, Verdict) {
    var v := Judge(w.db, w.now, slot, guess, f);
    var db := AfterJudgement(w.db, w.now, slot, v, f);
    (w.(db := if v.Accepted? then DeleteOTP(db, slot, f.delete) else db,
        log := w.log + CheckEvents(slot, guess, w.now, v, f)), v)
  }

  function SlotOf(req: VerifyRequest): Slot {
    Slot(req.purpose, Text.Normalise(req.email))
  }

  function Verify(w: World, req: VerifyRequest, userID: string, e: VerifyEnv): (World, Outcome) {
    var id := Text.Normalise(req.email);
    var (w1, v) := Check(w, SlotOf(req), Text.TrimSpace(req.otp), e.faults);
    if !v.Accepted? then (w1, CodeFailed(v))
    else
      match req.purpose
      case Register => AfterRegister(w1, id, req, e)
      case Forgot => AfterForgot(w1, id, e)
      case ChangeEmail => AfterChangeEmail(w1, userID, id, e)
  }

  function AfterRegister(w: World, id: string, req: VerifyRequest, e: VerifyEnv): (World, Outcome) {
    if Text.TrimSpace(req.username) == "" then (w, UsernameRequired)
    else if |req.password| < 8 then (w, PasswordTooShort)
    else if e.lock.Lost? then (w, LockUnavailable)
    else if Live(w.db.locks, id, w.now).Some? then (w, if e.lock.Unanswered? then LockUnavailable else InProgress)
    else if e.lock.Unanswered? then (w.(db := TakeLock(w.db, w.now, id)), LockUnavailable)
    else
      var w1 := w.(db := TakeLock(w.db, w.now, id),
                   log := w.log + if e.registration.Creates() then [UserCreated(id, w.now)] else []);
      if e.registration.Registered? then (w1, Done)
      else (w1.(db := ReleaseLock(w1.db, id, e.unlockFails)), NotRegistered(e.registration))
  }

  function AfterForgot(w: World, id: string, e: VerifyEnv): (World, Outcome) {
    if e.lookup.None? then (w, EmailUnknown)
    else
      var data := ResetTokenData(id, e.lookup.value);
      var w1 := w.(log := w.log + [UserFound(id, data.userID, w.now)]);
      if e.store.Lost? then (w1, NoToken)
      else
        (w1.(db := StoreResetToken(w1.db, w1.now, e.token, data),
             log := w1.log + [TokenIssued(e.token, data, w1.now)]),
         if e.store.Unanswered? then NoToken else Issued(e.token))
  }

  function AfterChangeEmail(w: World, userID: string, id: string, e: VerifyEnv): (World, Outcome) {
    if userID == "" then (w, Unauthorised)
    else
      (w.(log := w.log + if e.update.Writes() then [EmailUpdated(userID, id, w.now, e.update.Written?)] else []),
       if e.update.Written? then Done else NotUpdated(e.update))
  }

  // ---------- Resetting a password ----------

  function Reset(w: World, token: string, e: ResetEnv): (World, Outcome) {
    var read := if e.readFails then None else Live(w.db.resets, token, w.now);
    if read.None? then (w, TokenInvalid)
    else
      var data := read.value;
      var w1 := w.(db := DeleteResetToken(w.db, token, e.deleteFails),
                   log := w.log + [TokenSpent(token, data, w.now, !e.deleteFails)]);
      (w1.(log := w1.log + if e.adminFails then [] else [PasswordSet(data.userID, w.now, !e.writeFails)]),
       if e.adminFails || e.writeFails then PasswordNotSet else Done)
  }

  // ---------- Social login ----------

  const ALLOWED_PROVIDERS: set<string> := {"google", "facebook", "github"}

  function LoginURL(w: World, provider: string, state: string, stored: Write): (World, Outcome) {
    if provider !in ALLOWED_PROVIDERS then (w, ProviderRefused)
    else if stored.Lost? then (w, StateNotStored)
    else
      (w.(db := StoreState(w.db, w.now, state, provider),
          log := w.log + [StateIssued(state, provider, w.now)]),
       if stored.Unanswered? then StateNotStored else Done)
  }

  function Exchange(w: World, state: string, e: ExchangeEnv): (World, Outcome) {
    if state == "" then (w, StateMissing)
    else
      var read := if e.readFails then None else Live(w.db.states, state, w.now);
      if read.None? then (w, StateInvalid)
      else
        var events := [StateSpent(state, read.value, w.now, !e.deleteFails), CodeExchanged(state, w.now)] +
                      if e.post.Tokens? && e.producer then [LoginAnnounced(state, read.value, w.now)] else [];
        (w.(db := DeleteState(w.db, state, e.deleteFails), log := w.log + events),
         if e.post.Tokens? then Done else NotExchanged(e.post))
  }

  // ---------- Runs ----------

  function Step(w: World, c: Call): (World, Outcome) {
    match c
    case Wait(d) => (w.(now := w.now + d), Done)
    case SendOTP(p, email, e) => Send(w, p, email, e)
    case VerifyOTP(req, userID, e) => Verify(w, req, userID, e)
    case ResetPassword(token, e) => Reset(w, token, e)
    case SocialLoginURL(provider, state, stored) => LoginURL(w, provider, state, stored)
    case ExchangeCode(state, e) => Exchange(w, state, e)
  }

  function Run(w: World, calls: seq<Call>): World
    decreases |calls|
  {
    if calls == [] then w else Run(Step(w, calls[0]).0, calls[1..])
  }

  /** What the callers of a run are told, in order. */
  function Outcomes(w: World, calls: seq<Call>): (outcomes: seq<Outcome>)
    ensures |outcomes| == |calls|
    decreases |calls|
  {
    if calls == [] then [] else [Step(w, calls[0]).1] + Outcomes(Step(w, calls[0]).0, calls[1..])
  }
}
