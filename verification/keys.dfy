/** The names of everything the service keeps in the shared cache. One flat space of
    strings carries four families, told apart by their prefixes alone. */
module Keys {
  import opened Wrappers

  datatype Purpose = Register | Forgot | ChangeEmail

  /** One pending code: a purpose and a normalised address. */
  datatype Slot = Slot(purpose: Purpose, id: string)

  datatype Key =
    | OtpKey(slot: Slot)
    | ResetKey(token: string)
    | LockKey(email: string)
    | StateKey(state: string)

  function PurposeName(p: Purpose): string {
    match p
    case Register => "register"
    case Forgot => "forgot"
    case ChangeEmail => "change-email"
  }

  function BuildKey(s: Slot): string {
    "otp:" + PurposeName(s.purpose) + ":" + s.id
  }

  const RESET_PREFIX := "reset:"
  const LOCK_PREFIX := "register:lock:"
  const STATE_PREFIX := "social:state:"

  function Render(k: Key): string {
    match k
    case OtpKey(s) => BuildKey(s)
    case ResetKey(t) => RESET_PREFIX + t
    case LockKey(e) => LOCK_PREFIX + e
    case StateKey(s) => STATE_PREFIX + s
  }

  function OtpPrefix(p: Purpose): string {
    "otp:" + PurposeName(p) + ":"
  }

  function PrefixOf(k: Key): string {
    match k
    case OtpKey(s) => OtpPrefix(s.purpose)
    case ResetKey(_) => RESET_PREFIX
    case LockKey(_) => LOCK_PREFIX
    case StateKey(_) => STATE_PREFIX
  }

  function Payload(k: Key): string {
    match k
    case OtpKey(s) => s.id
    case ResetKey(t) => t
    case LockKey(e) => e
    case StateKey(s) => s
  }

  /** The rest of the string after the prefix, if it has that prefix. */
  function Strip(s: string, p: string): Option<string> {
    if |p| <= |s| && s[..|p|] == p then Some(s[|p|..]) else None
  }

  /** The key a string of the cache belongs to, or None for a foreign string. */
  function Parse(s: string): Option<Key> {
    if Strip(s, OtpPrefix(Register)).Some? then Some(OtpKey(Slot(Register, Strip(s, OtpPrefix(Register)).value)))
    else if Strip(s, OtpPrefix(Forgot)).Some? then Some(OtpKey(Slot(Forgot, Strip(s, OtpPrefix(Forgot)).value)))
    else if Strip(s, OtpPrefix(ChangeEmail)).Some? then
      Some(OtpKey(Slot(ChangeEmail, Strip(s, OtpPrefix(ChangeEmail)).value)))
    else if Strip(s, RESET_PREFIX).Some? then Some(ResetKey(Strip(s, RESET_PREFIX).value))
    else if Strip(s, LOCK_PREFIX).Some? then Some(LockKey(Strip(s, LOCK_PREFIX).value))
    else if Strip(s, STATE_PREFIX).Some? then Some(StateKey(Strip(s, STATE_PREFIX).value))
    else None
  }

  /** No family's prefix begins another's, so no string belongs to two families. */
  lemma PrefixesDisjoint(a: Key, b: Key, s: string)
    requires Strip(s, PrefixOf(a)).Some? && Strip(s, PrefixOf(b)).Some?
    ensures PrefixOf(a) == PrefixOf(b)
  {
    var p, q := PrefixOf(a), PrefixOf(b);
    assert s[0] == p[0] == q[0] && s[2] == p[2] == q[2] && s[4] == p[4] == q[4];
  }

  /** The strings of the four families. */
  lemma KeyStrings(id: string)
    ensures Render(OtpKey(Slot(Register, id))) == "otp:register:" + id
    ensures Render(OtpKey(Slot(Forgot, id))) == "otp:forgot:" + id
    ensures Render(OtpKey(Slot(ChangeEmail, id))) == "otp:change-email:" + id
    ensures Render(ResetKey(id)) == "reset:" + id
    ensures Render(LockKey(id)) == "register:lock:" + id
    ensures Render(StateKey(id)) == "social:state:" + id
  {
    assert "otp:register:" == "otp:" + "register" + ":" && "otp:forgot:" == "otp:" + "forgot" + ":";
    assert "otp:change-email:" == "otp:" + "change-email" + ":";
  }

  /** Of all prefixes a rendered key has its own family's and no other. */
  lemma StripRendered(k: Key, q: Key)
    ensures Strip(Render(k), PrefixOf(q)) == if PrefixOf(q) == PrefixOf(k) then Some(Payload(k)) else None
  {
    assert Render(k) == PrefixOf(k) + Payload(k);
    if Strip(Render(k), PrefixOf(q)).Some? {
      PrefixesDisjoint(k, q, Render(k));
    }
  }

  lemma PrefixesDiffer()
    ensures OtpPrefix(Register) != OtpPrefix(Forgot) && OtpPrefix(Register) != OtpPrefix(ChangeEmail)
    ensures OtpPrefix(Forgot) != OtpPrefix(ChangeEmail)
    ensures forall p :: OtpPrefix(p) != RESET_PREFIX && OtpPrefix(p) != LOCK_PREFIX && OtpPrefix(p) != STATE_PREFIX
    ensures RESET_PREFIX != LOCK_PREFIX && RESET_PREFIX != STATE_PREFIX && LOCK_PREFIX != STATE_PREFIX
  {
    assert OtpPrefix(Register)[4] == 'r' && OtpPrefix(Forgot)[4] == 'f' && OtpPrefix(ChangeEmail)[4] == 'c';
    assert RESET_PREFIX[2] == 's' && LOCK_PREFIX[2] == 'g' && STATE_PREFIX[2] == 'c';
    assert forall p :: OtpPrefix(p)[2] == 'p';
  }

  /** Every key is recovered from its rendering, whatever characters (colons included) its
      payload holds. */
  lemma ParseAfterRender(k: Key)
    ensures Parse(Render(k)) == Some(k)
  {
    PrefixesDiffer();
    StripRendered(k, OtpKey(Slot(Register, "")));
    StripRendered(k, OtpKey(Slot(Forgot, "")));
    StripRendered(k, OtpKey(Slot(ChangeEmail, "")));
    StripRendered(k, ResetKey(""));
    StripRendered(k, LockKey(""));
    StripRendered(k, StateKey(""));
  }

  lemma StripInverts(s: string, p: string)
    requires Strip(s, p).Some?
    ensures p + Strip(s, p).value == s
  {
    assert s == s[..|p|] + s[|p|..];
  }

  /** A string of one of the families is the rendering of exactly the key it parses to. */
  lemma RenderAfterParse(s: string)
    requires Parse(s).Some?
    ensures Render(Parse(s).value) == s
  {
    match Parse(s).value
    case OtpKey(slot) => StripInverts(s, OtpPrefix(slot.purpose));
    case ResetKey(_) => StripInverts(s, RESET_PREFIX);
    case LockKey(_) => StripInverts(s, LOCK_PREFIX);
    case StateKey(_) => StripInverts(s, STATE_PREFIX);
  }

  /** So parsing inverts rendering: a string parses to a key if and only if it is the key's rendering. */
  lemma ParseInverts(s: string, k: Key)
    ensures Parse(s) == Some(k) <==> s == Render(k)
  {
    ParseAfterRender(k);
    if Parse(s) == Some(k) {
      RenderAfterParse(s);
    }
  }

  lemma RenderInjective(a: Key, b: Key)
    ensures Render(a) == Render(b) <==> a == b
  {
    ParseAfterRender(a);
    ParseAfterRender(b);
  }

  // ---------- Purposes as request strings ----------

  /** What the use case makes of the purpose string of a request, its default branch included. */
  function PurposeFromString(s: string): string {
    if s == "register" then PurposeName(Register)
    else if s == "forgot-password" then PurposeName(Forgot)
    else if s == "change-email" then PurposeName(ChangeEmail)
    else s
  }

  /** Two different request strings share a purpose in one case only; that case uses a string the
      request validator refuses, so the three accepted strings are kept apart. */
  lemma PurposeStringsCollide(a: string, b: string)
    requires a != b
    ensures PurposeFromString(a) == PurposeFromString(b) <==> {a, b} == {"forgot", "forgot-password"}
  {
  }

  const ACCEPTED_PURPOSES: set<string> := {"register", "forgot-password", "change-email"}

  /** The key string for a purpose string of a request. */
  function RequestKey(purpose: string, id: string): string {
    "otp:" + PurposeFromString(purpose) + ":" + id
  }

  /** The three strings the request validator accepts give different keys to different requests, whatever
      the identifiers. */
  lemma AcceptedPurposesKeepKeysApart(a: string, i: string, b: string, j: string)
    requires a in ACCEPTED_PURPOSES && b in ACCEPTED_PURPOSES
    ensures RequestKey(a, i) == RequestKey(b, j) <==> a == b && i == j
    ensures a == "register" ==> RequestKey(a, i) == "otp:register:" + i
    ensures a == "forgot-password" ==> RequestKey(a, i) == "otp:forgot:" + i
    ensures a == "change-email" ==> RequestKey(a, i) == "otp:change-email:" + i
  {
    var p, q := AcceptedPurpose(a), AcceptedPurpose(b);
    assert RequestKey(a, i) == Render(OtpKey(Slot(p, i))) && RequestKey(b, j) == Render(OtpKey(Slot(q, j)));
    RenderInjective(OtpKey(Slot(p, i)), OtpKey(Slot(q, j)));
  }

  function AcceptedPurpose(s: string): (p: Purpose)
    requires s in ACCEPTED_PURPOSES
    ensures PurposeFromString(s) == PurposeName(p)
    ensures p == Register <==> s == "register"
    ensures p == Forgot <==> s == "forgot-password"
  {
    if s == "register" then Register else if s == "forgot-password" then Forgot else ChangeEmail
  }

  /** The identifier of the shorter purpose starts with what the longer purpose has beyond it. */
  predicate Moves(p: string, i: string, q: string, j: string) {
    p + ":" <= q && i == q[|p| + 1..] + ":" + j
  }

  lemma MovesCollide(p: string, i: string, q: string, j: string)
    requires Moves(p, i, q, j)
    ensures p + ":" + i == q + ":" + j
  {
    assert q == p + ":" + q[|p| + 1..];
  }

  lemma CollisionMoves(p: string, i: string, q: string, j: string)
    requires p + ":" + i == q + ":" + j && |p| < |q|
    ensures Moves(p, i, q, j)
  {
    var s := p + ":" + i;
    assert s[..|p| + 1] == p + ":" && s[..|q|] == q;
    assert q[..|p| + 1] == s[..|q|][..|p| + 1] == s[..|p| + 1];
    assert s[|p| + 1..] == i && s[|q|..] == ":" + j;
    assert q[|p| + 1..] + ":" + j == s[|p| + 1..|q|] + s[|q|..];
  }

  /** Whatever the two purpose strings, two requests share a key in these cases only: same purpose and same
      identifier, or a colon moved between purpose and identifier. */
  lemma SharedKeys(a: string, i: string, b: string, j: string)
    ensures var p, q := PurposeFromString(a), PurposeFromString(b);
            RequestKey(a, i) == RequestKey(b, j) <==> (p == q && i == j) || Moves(p, i, q, j) || Moves(q, j, p, i)
  {
    var p, q := PurposeFromString(a), PurposeFromString(b);
    if Moves(p, i, q, j) {
      MovesCollide(p, i, q, j);
    }
    if Moves(q, j, p, i) {
      MovesCollide(q, j, p, i);
    }
    KeyTail(a, i);
    KeyTail(b, j);
    if RequestKey(a, i) == RequestKey(b, j) {
      assert p + ":" + i == RequestKey(a, i)[4..] == q + ":" + j;
      SameTail(p, i, q, j);
    }
  }

  lemma KeyTail(purpose: string, id: string)
    ensures RequestKey(purpose, id) == "otp:" + (PurposeFromString(purpose) + ":" + id)
  {
  }

  lemma SameTail(p: string, i: string, q: string, j: string)
    requires p + ":" + i == q + ":" + j
    ensures (p == q && i == j) || Moves(p, i, q, j) || Moves(q, j, p, i)
  {
    var s := p + ":" + i;
    if |p| < |q| {
      CollisionMoves(p, i, q, j);
    } else if |q| < |p| {
      CollisionMoves(q, j, p, i);
    } else {
      assert p == s[..|p|] == q && i == s[|p| + 1..] == j;
    }
  }

  /** So two different purpose strings can share a key, for some identifiers, if and only if they are `forgot`
      and `forgot-password`, or one purpose followed by a colon begins the other. */
  lemma PurposesCollideExactly(a: string, b: string)
    requires a != b
    ensures var p, q := PurposeFromString(a), PurposeFromString(b);
            (exists i, j :: RequestKey(a, i) == RequestKey(b, j)) <==>
            {a, b} == {"forgot", "forgot-password"} || p + ":" <= q || q + ":" <= p
  {
    var p, q := PurposeFromString(a), PurposeFromString(b);
    PurposeStringsCollide(a, b);
    if p == q {
      assert RequestKey(a, "") == RequestKey(b, "");
    } else if p + ":" <= q {
      SharedKeys(a, q[|p| + 1..] + ":" + "", b, "");
    } else if q + ":" <= p {
      SharedKeys(a, "", b, p[|q| + 1..] + ":" + "");
    }
    forall i, j | RequestKey(a, i) == RequestKey(b, j)
      ensures p == q || p + ":" <= q || q + ":" <= p
    {
      SharedKeys(a, i, b, j);
    }
  }
}
