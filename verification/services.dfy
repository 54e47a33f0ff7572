/** The one-time-code and reset-token services over the shared cache. */
module Services {
  import Text
  import opened Wrappers
  import opened Keys
  import opened TypedStore
  import opened SharedCache

  class OTPService {
    const cache: Cache

    constructor (cache: Cache)
      ensures this.cache == cache
    {
      this.cache := cache;
    }

    /** `draw` is what the random source yields, `fails` that it errs. */
    method GenerateOTP(draw: Text.Draw, fails: bool) returns (code: Option<string>)
      ensures fails <==> code.None?
      ensures code.Some? ==> |code.value| == Text.OTP_LENGTH && Text.AllDigits(code.value)
      ensures code.Some? ==> Text.TrimSpace(code.value) == code.value && Text.ParseDecimal(code.value) == draw
    {
      if fails {
        return None;
      }
      Text.CodesAreSixDigits(draw);
      Text.SixDigits();
      Text.ParseAfterFormat(draw, Text.OTP_LENGTH);
      return Some(Text.CodeOf(draw));
    }

    method StoreOTP(slot: Slot, code: string, end: Write) returns (ok: bool)
      requires cache.Valid()
      modifies cache`entries, cache`db
      ensures cache.Valid() && ok == end.Acknowledged?
      ensures cache.db ==
              if end.Lost? then old(cache.db) else TypedStore.StoreOTP(old(cache.db), cache.clock, slot, code)
    {
      var key := BuildKey(slot);
      ok := cache.SetJSON(key, OtpDoc(OtpData(code, 0)), TtlForPurpose(slot.purpose), end, OtpKey(slot));
    }

    method ValidateOTP(slot: Slot, code: string, f: Faults) returns (v: Verdict)
      requires cache.Valid()
      modifies cache`entries, cache`db
      ensures cache.Valid()
      ensures v == Judge(old(cache.db), cache.clock, slot, code, f)
      ensures cache.db == AfterJudgement(old(cache.db), cache.clock, slot, v, f)
    {
      var key := BuildKey(slot);
      var reply := cache.GetJSON(key, f.read, OtpKey(slot));
      if reply.Miss? {
        return Missing;
      }
      if reply.Failed? {
        return Unreadable;
      }
      var data := reply.doc.otp;
      if data.retry >= MAX_RETRIES {
        cache.Delete(key, f.delete, OtpKey(slot));
        return LockedOut;
      }
      if data.code != code {
        cache.JSONIncrementField(key, f.increment, slot);
        if data.retry + 1 >= MAX_RETRIES {
          cache.Delete(key, f.delete, OtpKey(slot));
          return LastGuess;
        }
        return WrongGuess;
      }
      return Accepted;
    }

    method DeleteOTP(slot: Slot, fails: bool)
      requires cache.Valid()
      modifies cache`entries, cache`db
      ensures cache.Valid() && cache.db == TypedStore.DeleteOTP(old(cache.db), slot, fails)
    {
      cache.Delete(BuildKey(slot), fails, OtpKey(slot));
    }
  }

  class ResetTokenService {
    const cache: Cache

    constructor (cache: Cache)
      ensures this.cache == cache
    {
      this.cache := cache;
    }

    /** `token` is the random identifier drawn for this request. */
    method Generate(token: string, email: string, userID: string, end: Write) returns (ok: bool)
      requires cache.Valid()
      modifies cache`entries, cache`db
      ensures cache.Valid() && ok == end.Acknowledged?
      ensures cache.db == if end.Lost? then old(cache.db)
                          else StoreResetToken(old(cache.db), cache.clock, token, ResetTokenData(email, userID))
    {
      ok := cache.SetJSON(RESET_PREFIX + token, ResetDoc(ResetTokenData(email, userID)), RESET_TOKEN_TTL,
                          end, ResetKey(token));
    }

    /** Reads and deletes: the token's data if it was live, and then it is gone unless the delete fails. */
    method Validate(token: string, readFails: bool, deleteFails: bool) returns (data: Option<ResetTokenData>)
      requires cache.Valid()
      modifies cache`entries, cache`db
      ensures cache.Valid()
      ensures data == if readFails then None else Live(old(cache.db).resets, token, cache.clock)
      ensures cache.db == if data.None? then old(cache.db) else DeleteResetToken(old(cache.db), token, deleteFails)
    {
      var key := RESET_PREFIX + token;
      var reply := cache.GetJSON(key, readFails, ResetKey(token));
      if !reply.Hit? {
        return None;
      }
      data := Some(reply.doc.reset);
      cache.Delete(key, deleteFails, ResetKey(token));
    }
  }
}
