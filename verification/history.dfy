/** What a log means: which codes, tokens and states are standing, and when an event is
    justified by what precedes it. None of this looks at the store. */
module History {
  import opened Keys
  import opened TypedStore
  import opened Protocol

  /** The event put something under the key. */
  predicate Writes(e: Event, k: Key) {
    match e
    case CodeStored(slot, _, _) => k == OtpKey(slot)
    case TokenIssued(token, _, _) => k == ResetKey(token)
    case StateIssued(state, _, _) => k == StateKey(state)
    case _ => false
  }

  /** The event took what was under the key away. */
  predicate Removes(e: Event, k: Key) {
    match e
    case CodeAccepted(slot, _, _, deleted) => deleted && k == OtpKey(slot)
    case CodeRefused(slot, _, _, _, deleted) => deleted && k == OtpKey(slot)
    case CodeLocked(slot, _, deleted) => deleted && k == OtpKey(slot)
    case TokenSpent(token, _, _, deleted) => deleted && k == ResetKey(token)
    case StateSpent(state, _, _, deleted) => deleted && k == StateKey(state)
    case _ => false
  }

  /** The event honoured what was under the key: a code accepted, a token or a state redeemed. */
  predicate Uses(e: Event, k: Key) {
    match e
    case CodeAccepted(slot, _, _, _) => k == OtpKey(slot)
    case TokenSpent(token, _, _, _) => k == ResetKey(token)
    case StateSpent(state, _, _, _) => k == StateKey(state)
    case _ => false
  }

  /** Position of the latest write under the key, or -1. */
  function LastWrite(log: Log, k: Key): (i: int)
    ensures -1 <= i < |log|
    ensures i >= 0 ==> Writes(log[i], k)
    ensures forall j :: i < j < |log| ==> !Writes(log[j], k)
  {
    if log == [] then -1
    else if Writes(log[|log| - 1], k) then |log| - 1
    else LastWrite(log[..|log| - 1], k)
  }

  /** Written and not taken away since. */
  ghost predicate Standing(log: Log, k: Key) {
    LastWrite(log, k) >= 0 && forall j :: LastWrite(log, k) < j < |log| ==> !Removes(log[j], k)
  }

  predicate CountedRefusal(e: Event, slot: Slot) {
    e.CodeRefused? && e.slot == slot && e.counted
  }

  /** Wrong guesses since the latest code, as far as they raised the counter. */
  function Counted(log: Log, slot: Slot): nat {
    if log == [] then 0
    else
      var e := log[|log| - 1];
      if Writes(e, OtpKey(slot)) then 0
      else Counted(log[..|log| - 1], slot) + if CountedRefusal(e, slot) then 1 else 0
  }

  /** The latest code stored for the slot, with the time it was stored. */
  function LatestCode(log: Log, slot: Slot): Event
    requires LastWrite(log, OtpKey(slot)) >= 0
  {
    log[LastWrite(log, OtpKey(slot))]
  }

  /** The event happened while the code stored last was standing and unexpired. */
  ghost predicate DuringCode(log: Log, slot: Slot, at: int) {
    Standing(log, OtpKey(slot)) &&
    var stored := LatestCode(log, slot);
    stored.at <= at < stored.at + TtlForPurpose(slot.purpose)
  }

  predicate EndsWithAcceptance(log: Log, slot: Slot, at: int) {
    log != [] && var e := log[|log| - 1]; e.CodeAccepted? && e.slot == slot && e.at == at
  }

  /** The event is one the service may add to a log. */
  ghost predicate Justified(log: Log, e: Event) {
    match e
    case CodeStored(_, _, _) => true
    case CodeAccepted(slot, code, at, _) =>
      DuringCode(log, slot, at) && LatestCode(log, slot).code == code && Counted(log, slot) < MAX_RETRIES
    case CodeRefused(slot, at, _, last, deleted) =>
      DuringCode(log, slot, at) && Counted(log, slot) < MAX_RETRIES &&
      (last <==> Counted(log, slot) == MAX_RETRIES - 1) && (deleted ==> last)
    case CodeLocked(slot, at, _) => DuringCode(log, slot, at) && Counted(log, slot) >= MAX_RETRIES
    case UserFound(email, _, at) => EndsWithAcceptance(log, Slot(Forgot, email), at)
    case TokenIssued(_, data, at) => log != [] && log[|log| - 1] == UserFound(data.email, data.userID, at)
    case TokenSpent(token, data, at, _) =>
      Standing(log, ResetKey(token)) &&
      var issued := log[LastWrite(log, ResetKey(token))];
      issued.data == data && issued.at <= at < issued.at + RESET_TOKEN_TTL
    case PasswordSet(userID, at, _) =>
      log != [] && var s := log[|log| - 1]; s.TokenSpent? && s.data.userID == userID && s.at == at
    case UserCreated(email, at) => EndsWithAcceptance(log, Slot(Register, email), at)
    case EmailUpdated(_, email, at, _) => EndsWithAcceptance(log, Slot(ChangeEmail, email), at)
    case StateIssued(_, provider, _) => provider in ALLOWED_PROVIDERS
    case StateSpent(state, provider, at, _) =>
      Standing(log, StateKey(state)) &&
      var issued := log[LastWrite(log, StateKey(state))];
      issued.provider == provider && issued.at <= at < issued.at + SOCIAL_STATE_TTL
    case CodeExchanged(state, at) =>
      log != [] && var s := log[|log| - 1]; s.StateSpent? && s.state == state && s.at == at
    case LoginAnnounced(state, provider, at) =>
      |log| >= 2 && log[|log| - 1] == CodeExchanged(state, at) &&
      var s := log[|log| - 2]; s.StateSpent? && s.state == state && s.provider == provider && s.at == at
  }

  ghost predicate JustifiedAt(log: Log, i: nat)
    requires i < |log|
  {
    Justified(log[..i], log[i])
  }

  ghost predicate Sound(log: Log) {
    forall i :: 0 <= i < |log| ==> JustifiedAt(log, i)
  }

  lemma SoundAppend(log: Log, e: Event)
    requires Sound(log) && Justified(log, e)
    ensures Sound(log + [e])
  {
    var log' := log + [e];
    forall i | 0 <= i < |log'|
      ensures JustifiedAt(log', i)
    {
      assert log'[..i] == log[..i];
      assert log[..|log|] == log;
      assert i < |log| ==> JustifiedAt(log, i);
    }
  }

  lemma SoundPrefix(log: Log, n: nat)
    requires Sound(log) && n <= |log|
    ensures Sound(log[..n])
  {
    var init := log[..n];
    forall i | 0 <= i < n
      ensures JustifiedAt(init, i)
    {
      assert init[..i] == log[..i];
      assert JustifiedAt(log, i);
    }
  }

  lemma LastWriteAppend(log: Log, e: Event, k: Key)
    ensures LastWrite(log + [e], k) == if Writes(e, k) then |log| else LastWrite(log, k)
  {
    assert (log + [e])[..|log|] == log;
  }

  lemma StandingAppend(log: Log, e: Event, k: Key)
    ensures Standing(log + [e], k) <==> Writes(e, k) || (Standing(log, k) && !Removes(e, k))
  {
    LastWriteAppend(log, e, k);
    var log' := log + [e];
    assert log'[|log|] == e;
    if Standing(log', k) && !Writes(e, k) {
      forall j | LastWrite(log, k) < j < |log|
        ensures !Removes(log[j], k)
      {
        assert log'[j] == log[j];
      }
    }
  }

  lemma CountedAppend(log: Log, e: Event, slot: Slot)
    ensures Counted(log + [e], slot) ==
            if Writes(e, OtpKey(slot)) then 0
            else Counted(log, slot) + if CountedRefusal(e, slot) then 1 else 0
  {
    assert (log + [e])[..|log|] == log;
  }
}
