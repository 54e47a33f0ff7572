/** The use-case objects, as they run over the shared cache. Each method is shown to take
    exactly the step of the protocol that its name says. */
module UseCases {
  import Text
  import opened Wrappers
  import opened Keys
  import opened TypedStore
  import opened SharedCache
  import opened Services
  import CheckErrors
  import opened Protocol

  /** What has happened so far, for the proofs only. */
  class Journal {
    ghost var log: Log

    constructor ()
      ensures log == []
    {
      log := [];
    }
  }

  class AuthKeycloakUseCase {
    const cache: Cache
    const journal: Journal

    constructor (cache: Cache, journal: Journal)
      ensures this.cache == cache && this.journal == journal
    {
      this.cache, this.journal := cache, journal;
    }

    ghost function World(): World
      reads cache, journal
    {
      Protocol.World(cache.clock, cache.db, journal.log)
    }

    /** `state` is the random identifier drawn for this request. */
    method SocialLoginURL(provider: string, state: string, stored: Write) returns (out: Outcome)
      requires cache.Valid()
      modifies cache`entries, cache`db, journal
      ensures cache.Valid() && (World(), out) == LoginURL(old(World()), provider, state, stored)
    {
      if provider !in ALLOWED_PROVIDERS {
        return ProviderRefused;
      }
      var ok := cache.SetJSON(STATE_PREFIX + state, StateDoc(provider), SOCIAL_STATE_TTL, stored, StateKey(state));
      if !stored.Lost? {
        journal.log := journal.log + [StateIssued(state, provider, cache.clock)];
      }
      if !ok {
        return StateNotStored;
      }
      return Done;
    }

    method ExchangeCode(state: string, e: ExchangeEnv) returns (out: Outcome)
      requires cache.Valid()
      modifies cache`entries, cache`db, journal
      ensures cache.Valid() && (World(), out) == Exchange(old(World()), state, e)
    {
      if state == "" {
        return StateMissing;
      }
      var reply := cache.GetJSON(STATE_PREFIX + state, e.readFails, StateKey(state));
      if !reply.Hit? {
        return StateInvalid;
      }
      var provider := reply.doc.provider;
      cache.Delete(STATE_PREFIX + state, e.deleteFails, StateKey(state));
      ghost var before := journal.log;
      journal.log := before + [StateSpent(state, provider, cache.clock, !e.deleteFails)];
      // the token endpoint is called here
      journal.log := journal.log + [CodeExchanged(state, cache.clock)];
      if !e.post.Tokens? {
        assert journal.log == before + ([StateSpent(state, provider, cache.clock, !e.deleteFails),
                                         CodeExchanged(state, cache.clock)] + []);
        return NotExchanged(e.post);
      }
      if e.producer {
        journal.log := journal.log + [LoginAnnounced(state, provider, cache.clock)];
      }
      assert journal.log == before + ([StateSpent(state, provider, cache.clock, !e.deleteFails),
                                       CodeExchanged(state, cache.clock)] +
                                      if e.producer then [LoginAnnounced(state, provider, cache.clock)] else []);
      return Done;
    }

    /** Creates the user with the verified flag, then sets the password, then logs in. */
    method RegisterWithVerifiedEmail(email: string, r: Registration) returns (ok: bool)
      modifies journal
      ensures journal.log == old(journal.log) + if r.Creates() then [UserCreated(email, cache.clock)] else []
      ensures ok == r.Registered?
    {
      if r.NoAdminToken? || r.CreateFailed? {
        return false;
      }
      journal.log := journal.log + [UserCreated(email, cache.clock)];
      ok := !r.CreateUnanswered? && !r.PasswordFailed? && !r.LoginFailed?;
    }

    method SetPasswordByUserID(userID: string, adminFails: bool, writeFails: bool) returns (ok: bool)
      modifies journal
      ensures journal.log ==
              old(journal.log) + if adminFails then [] else [PasswordSet(userID, cache.clock, !writeFails)]
      ensures ok == (!adminFails && !writeFails)
    {
      if adminFails {
        return false;
      }
      journal.log := journal.log + [PasswordSet(userID, cache.clock, !writeFails)];
      ok := !writeFails;
    }

    method UpdateUserEmail(userID: string, newEmail: string, u: Update) returns (ok: bool)
      modifies journal
      ensures journal.log ==
              old(journal.log) + if u.Writes() then [EmailUpdated(userID, newEmail, cache.clock, u.Written?)] else []
      ensures ok == u.Written?
    {
      if u.Unreachable? || u.UserMissing? {
        return false;
      }
      journal.log := journal.log + [EmailUpdated(userID, newEmail, cache.clock, u.Written?)];
      ok := u.Written?;
    }
  }

  class OTPUseCase {
    const otpService: OTPService
    const resetTokenService: ResetTokenService
    const authKC: AuthKeycloakUseCase
    const cache: Cache

    ghost predicate Valid()
      reads cache
    {
      cache == otpService.cache == resetTokenService.cache == authKC.cache && cache.Valid()
    }

    ghost function World(): World
      reads cache, authKC.journal
    {
      Protocol.World(cache.clock, cache.db, authKC.journal.log)
    }

    constructor (otpService: OTPService, resetTokenService: ResetTokenService, authKC: AuthKeycloakUseCase,
                 cache: Cache)
      requires cache == otpService.cache == resetTokenService.cache == authKC.cache && cache.Valid()
      ensures Valid() && this.cache == cache && this.authKC == authKC
    {
      this.otpService, this.resetTokenService := otpService, resetTokenService;
      this.authKC, this.cache := authKC, cache;
    }

    method SendOTP(purpose: Purpose, email: string, e: SendEnv) returns (out: Outcome)
      requires Valid()
      modifies cache`entries, cache`db, authKC.journal
      ensures Valid() && (World(), out) == Send(old(World()), purpose, email, e)
    {
      var emailAddr := Text.Normalise(email);
      match purpose {
        case Register =>
          if e.lookup.Some? {
            return AddressRefused;
          }
        case Forgot =>
          if e.lookup.None? {
            return AddressRefused;
          }
        case ChangeEmail =>
          if e.lookup.Some? {
            return AddressRefused;
          }
      }
      var otp := otpService.GenerateOTP(e.draw, e.generateFails);
      if otp.None? {
        return CannotGenerate;
      }
      OneCodePerDraw(otp.value, e.draw);
      var ok := otpService.StoreOTP(Slot(purpose, emailAddr), otp.value, e.store);
      if !e.store.Lost? {
        authKC.journal.log := authKC.journal.log + [CodeStored(Slot(purpose, emailAddr), otp.value, cache.clock)];
      }
      if !ok {
        return CannotStore;
      }
      return if e.mailFails then CannotMail else Done;
    }

    static lemma OneCodePerDraw(code: string, draw: Text.Draw)
      requires |code| == Text.OTP_LENGTH && Text.AllDigits(code) && Text.ParseDecimal(code) == draw
      ensures code == Text.CodeOf(draw)
    {
      Text.FormatAfterParse(code);
    }

    /** `cause` is the text of the cache's error if the read fails. The user is told what was found, unless
        that text misleads. */
    method VerifyAndDeleteOTP(slot: Slot, code: string, f: Faults, cause: string)
      returns (v: Verdict, report: Option<CheckErrors.Report>)
      requires Valid()
      modifies cache`entries, cache`db, authKC.journal
      ensures Valid() && (World(), v) == Check(old(World()), slot, code, f)
      ensures report.None? <==> v.Accepted?
      ensures report.Some? ==>
                (report.value == CheckErrors.Meant(v, cause) <==> !(v.Unreadable? && CheckErrors.Misleading(cause)))
      ensures v.LockedOut? || v.LastGuess? ==> report == Some(CheckErrors.TooManyTries)
      ensures v.Missing? ==> report == Some(CheckErrors.Expired)
      ensures v.WrongGuess? ==> report == Some(CheckErrors.WrongCode)
      ensures v.Unreadable? ==> report == Some(CheckErrors.ReadReport(cause))
    {
      v := otpService.ValidateOTP(slot, code, f);
      authKC.journal.log := authKC.journal.log + CheckEvents(slot, code, cache.clock, v, f);
      if !v.Accepted? {
        CheckErrors.ClassifiedExactly(v, cause);
        return v, Some(CheckErrors.Classify(CheckErrors.ErrorText(v, cause)));
      }
      otpService.DeleteOTP(slot, f.delete);
      return v, None;
    }

    method VerifyOTP(req: VerifyRequest, userID: string, e: VerifyEnv) returns (out: Outcome)
      requires Valid()
      modifies cache`entries, cache`db, authKC.journal
      ensures Valid() && (World(), out) == Verify(old(World()), req, userID, e)
    {
      var emailAddr := Text.Normalise(req.email);
      var v, _ := VerifyAndDeleteOTP(Slot(req.purpose, emailAddr), Text.TrimSpace(req.otp), e.faults, e.cause);
      if !v.Accepted? {
        return CodeFailed(v);
      }
      match req.purpose {
        case Register => out := AfterVerifyRegister(emailAddr, req, e);
        case Forgot => out := AfterVerifyForgot(emailAddr, e);
        case ChangeEmail => out := AfterVerifyChangeEmail(userID, emailAddr, e);
      }
    }

    method ResetPassword(resetToken: string, e: ResetEnv) returns (out: Outcome)
      requires Valid()
      modifies cache`entries, cache`db, authKC.journal
      ensures Valid() && (World(), out) == Reset(old(World()), resetToken, e)
    {
      var data := resetTokenService.Validate(resetToken, e.readFails, e.deleteFails);
      if data.None? {
        return TokenInvalid;
      }
      authKC.journal.log := authKC.journal.log + [TokenSpent(resetToken, data.value, cache.clock, !e.deleteFails)];
      var ok := authKC.SetPasswordByUserID(data.value.userID, e.adminFails, e.writeFails);
      return if ok then Done else PasswordNotSet;
    }

    method AfterVerifyRegister(emailAddr: string, req: VerifyRequest, e: VerifyEnv) returns (out: Outcome)
      requires Valid()
      modifies cache`entries, cache`db, authKC.journal
      ensures Valid() && (World(), out) == AfterRegister(old(World()), emailAddr, req, e)
    {
      if Text.TrimSpace(req.username) == "" {
        return UsernameRequired;
      }
      if |req.password| < 8 {
        return PasswordTooShort;
      }
      var lockKey := LOCK_PREFIX + emailAddr;
      var executed, won := cache.SetNX(lockKey, "1", REGISTER_LOCK_TTL, e.lock, emailAddr);
      if !executed {
        return LockUnavailable;
      }
      if !won {
        return InProgress;
      }
      var ok := authKC.RegisterWithVerifiedEmail(emailAddr, e.registration);
      if !ok {
        cache.Delete(lockKey, e.unlockFails, LockKey(emailAddr));
        return NotRegistered(e.registration);
      }
      return Done;
    }

    method AfterVerifyForgot(emailAddr: string, e: VerifyEnv) returns (out: Outcome)
      requires Valid()
      modifies cache`entries, cache`db, authKC.journal
      ensures Valid() && (World(), out) == AfterForgot(old(World()), emailAddr, e)
    {
      if e.lookup.None? {
        return EmailUnknown;
      }
      var userID := e.lookup.value;
      authKC.journal.log := authKC.journal.log + [UserFound(emailAddr, userID, cache.clock)];
      var ok := resetTokenService.Generate(e.token, emailAddr, userID, e.store);
      if !e.store.Lost? {
        var issued := TokenIssued(e.token, ResetTokenData(emailAddr, userID), cache.clock);
        authKC.journal.log := authKC.journal.log + [issued];
      }
      if !ok {
        return NoToken;
      }
      return Issued(e.token);
    }

    method AfterVerifyChangeEmail(userID: string, newEmail: string, e: VerifyEnv) returns (out: Outcome)
      requires Valid()
      modifies authKC.journal
      ensures Valid() && (World(), out) == AfterChangeEmail(old(World()), userID, newEmail, e)
    {
      if userID == "" {
        return Unauthorised;
      }
      var ok := authKC.UpdateUserEmail(userID, newEmail, e.update);
      return if ok then Done else NotUpdated(e.update);
    }

    /** One request, or the passing of time. */
    method Serve(c: Call) returns (out: Outcome)
      requires Valid()
      modifies cache, authKC.journal
      ensures Valid() && (World(), out) == Step(old(World()), c)
    {
      match c {
        case Wait(d) =>
          cache.Advance(d);
          out := Done;
        case SendOTP(purpose, email, e) => out := SendOTP(purpose, email, e);
        case VerifyOTP(req, userID, e) => out := VerifyOTP(req, userID, e);
        case ResetPassword(token, e) => out := ResetPassword(token, e);
        case SocialLoginURL(provider, state, stored) => out := authKC.SocialLoginURL(provider, state, stored);
        case ExchangeCode(state, e) => out := authKC.ExchangeCode(state, e);
      }
    }

    /** Any sequence of requests over the string-keyed cache gets the outcomes of the same run of the
        protocol on the typed store, and ends where that ends. */
    method ServeAll(calls: seq<Call>) returns (outcomes: seq<Outcome>)
      requires Valid()
      modifies cache, authKC.journal
      ensures Valid() && World() == Run(old(World()), calls)
      ensures outcomes == Outcomes(old(World()), calls)
    {
      outcomes := [];
      var rest := calls;
      while rest != []
        invariant Valid() && Run(World(), rest) == Run(old(World()), calls)
        invariant outcomes + Outcomes(World(), rest) == Outcomes(old(World()), calls)
        decreases |rest|
      {
        Regroup(outcomes, [Step(World(), rest[0]).1], Outcomes(Step(World(), rest[0]).0, rest[1..]));
        var outcome := Serve(rest[0]);
        outcomes := outcomes + [outcome];
        rest := rest[1..];
      }
      assert outcomes + [] == outcomes;
    }

    static lemma Regroup(a: seq<Outcome>, b: seq<Outcome>, c: seq<Outcome>)
      ensures a + (b + c) == a + b + c
    {
    }
  }
}
