// JWT key rotation: promote a new key, wait for the old tokens to expire, retire the old
// key. The zero-downtime claim is a safety property of whole schedules of operations.
module KeyRotation {
  import opened Wrappers
  import opened JwtValidation

  // ---------- The service ----------

  datatype Keys = Keys(current: string, previous: Option<string>)

  datatype Op = Promote(at: real, key: string) | Retire(at: real)

  /** promote_new_key raises on an empty key and changes nothing. */
  predicate Effective(op: Op) {
    op.Promote? && op.key != ""
  }

  function Apply(keys: Keys, op: Op): Keys {
    if Effective(op) then Keys(op.key, Some(keys.current))
    else if op.Retire? then Keys(keys.current, None)
    else keys
  }

  /** The keys validate_token tries, in order. */
  function Retained(keys: Keys): seq<string> {
    [keys.current] + if keys.previous.Some? then [keys.previous.value] else []
  }

  datatype RotationError = EmptyKey

  class KeyRotationService {
    var current: string
    var previous: Option<string>

    constructor (keys: Keys)
      ensures View() == keys
    {
      current, previous := keys.current, keys.previous;
    }

    /** The service's own construction, which raises on an empty current key. */
    static method Create(currentKey: string, previousKey: Option<string>)
      returns (result: Result<KeyRotationService, RotationError>)
      ensures currentKey == "" ==> result == Err(EmptyKey)
      ensures currentKey != "" ==>
                result.Ok? && fresh(result.value) && result.value.View() == Keys(currentKey, previousKey)
    {
      if currentKey == "" {
        return Err(EmptyKey);
      }
      var service := new KeyRotationService(Keys(currentKey, previousKey));
      return Ok(service);
    }

    function View(): Keys
      reads this
    {
      Keys(current, previous)
    }

    method PromoteNewKey(newKey: string, ghost now: real) returns (result: Result<(), RotationError>)
      modifies this
      ensures View() == if newKey == "" then old(View()) else Keys(newKey, Some(old(current)))
      ensures View() == Apply(old(View()), Promote(now, newKey))
      ensures result == if newKey == "" then Err(EmptyKey) else Ok(())
    {
      if newKey == "" {
        return Err(EmptyKey);
      }
      previous := Some(current);
      current := newKey;
      return Ok(());
    }

    method RetireOldKey(ghost now: real)
      modifies this
      ensures View() == Keys(old(current), None)
      ensures View() == Apply(old(View()), Retire(now))
    {
      if previous.None? {
        return;
      }
      previous := None;
    }

    method ValidateToken(settings: Settings, token: Token, now: real)
      returns (result: Result<VerifiedClaims, TokenError>)
      ensures result == Verdict(settings, Retained(View()), token, now)
    {
      var keys := [current];
      if previous.Some? {
        keys := keys + [previous.value];
      }
      result := TryKeys(settings, keys, token, now);
    }
  }

  // ---------- Schedules ----------

  /** The keys after the first n operations. */
  function State(init: Keys, ops: seq<Op>, n: nat): Keys
    requires n <= |ops|
  {
    if n == 0 then init else Apply(State(init, ops, n - 1), ops[n - 1])
  }

  ghost predicate Timed(ops: seq<Op>) {
    forall i, j :: 0 <= i < j < |ops| ==> ops[i].at <= ops[j].at
  }

  /** At time t exactly the first n operations have been carried out. */
  ghost predicate Instant(ops: seq<Op>, n: nat, t: real) {
    n <= |ops| && (n > 0 ==> ops[n - 1].at <= t) && (n < |ops| ==> t <= ops[n].at)
  }

  /** A token issued at t under a key: valid from t on, for at most `life`, with the right
      issuer, audience and identifiers. */
  ghost predicate IssuedUnder(settings: Settings, key: string, life: real, t: real, token: Token) {
    && token.Token? && token.signedWith == key
    && token.claims.iat == Some(t) && token.claims.exp.Some? && token.claims.exp.value <= t + life
    && (token.claims.nbf.Some? ==> token.claims.nbf.value <= t)
    && token.claims.iss == Some(settings.issuer)
    && token.claims.aud.Some? && settings.audience in token.claims.aud.value
    && token.claims.sub.Some? && settings.uuid(token.claims.sub.value).Some?
    && token.claims.tenantId.Some? && settings.uuid(token.claims.tenantId.value).Some?
  }

  /** A token the service issues at (n, t), under the then-current key. */
  ghost predicate Issued(settings: Settings, init: Keys, ops: seq<Op>, life: real, n: nat, t: real, token: Token)
    requires n <= |ops|
  {
    IssuedUnder(settings, State(init, ops, n).current, life, t, token)
  }

  ghost predicate AcceptedAt(settings: Settings, init: Keys, ops: seq<Op>, m: nat, token: Token, now: real)
    requires m <= |ops|
  {
    Verdict(settings, Retained(State(init, ops, m)), token, now).Ok?
  }

  /** Zero downtime: every issued token is accepted at every later moment before its expiry. */
  ghost predicate ZeroDowntime(settings: Settings, init: Keys, ops: seq<Op>, life: real) {
    forall n: nat, t: real, m: nat, now: real, token: Token
      {:trigger Issued(settings, init, ops, life, n, t, token), AcceptedAt(settings, init, ops, m, token, now)} ::
      Instant(ops, n, t) && Instant(ops, m, now) && n <= m && t <= now
      && Issued(settings, init, ops, life, n, t, token) && now < token.claims.exp.value
      ==> AcceptedAt(settings, init, ops, m, token, now)
  }

  function LastPromotion(ops: seq<Op>, n: nat): (p: Option<nat>)
    requires n <= |ops|
    ensures p.Some? ==> p.value < n && Effective(ops[p.value])
    ensures forall k :: (if p.Some? then p.value + 1 else 0) <= k < n ==> !Effective(ops[k])
  {
    if n == 0 then None else if Effective(ops[n - 1]) then Some(n - 1) else LastPromotion(ops, n - 1)
  }

  /** When the key that is the previous one before operation m was replaced, if the one
      held at the start was replaced at `replacedAt`. */
  function ReplacedAt(ops: seq<Op>, m: nat, replacedAt: real): real
    requires m <= |ops|
  {
    match LastPromotion(ops, m)
    case Some(p) => ops[p].at
    case None => replacedAt
  }

  /** Operation m makes the service forget its previous key. */
  ghost predicate Forgets(init: Keys, ops: seq<Op>, m: nat)
    requires m < |ops|
  {
    var before := State(init, ops, m);
    before.previous.Some? && before.previous.value !in Retained(State(init, ops, m + 1))
  }

  /** No key is forgotten sooner than `life` after the promotion that replaced it. */
  ghost predicate Disciplined(init: Keys, ops: seq<Op>, life: real) {
    forall m :: 0 <= m < |ops| && Forgets(init, ops, m) && LastPromotion(ops, m).Some? ==>
                  ops[m].at >= ops[LastPromotion(ops, m).value].at + life
  }

  /** The documented protocol: after each promotion wait at least `life`, then retire, before
      anything else. */
  ghost predicate FollowsProtocol(ops: seq<Op>, life: real) {
    forall m :: 0 <= m < |ops| - 1 && ops[m].Promote? ==>
                  ops[m + 1].Retire? && ops[m + 1].at >= ops[m].at + life
  }

  // ---------- What the fields hold ----------

  lemma {:induction false} CurrentUnchanged(init: Keys, ops: seq<Op>, i: nat, j: nat)
    requires i <= j <= |ops|
    requires forall k :: i <= k < j ==> !Effective(ops[k])
    ensures State(init, ops, i).current == State(init, ops, j).current
  {
    if i < j {
      CurrentUnchanged(init, ops, i, j - 1);
    }
  }

  /** The previous key, if one is retained, is the key the last promotion replaced. */
  lemma {:induction false} PreviousIsTheReplacedKey(init: Keys, ops: seq<Op>, n: nat)
    requires n <= |ops| && LastPromotion(ops, n).Some? && State(init, ops, n).previous.Some?
    ensures State(init, ops, n).previous.value == State(init, ops, LastPromotion(ops, n).value).current
  {
    if !Effective(ops[n - 1]) {
      PreviousIsTheReplacedKey(init, ops, n - 1);
    }
  }

  lemma ForgottenKeyWasPrevious(init: Keys, ops: seq<Op>, m: nat, key: string)
    requires m < |ops|
    requires key in Retained(State(init, ops, m)) && key !in Retained(State(init, ops, m + 1))
    ensures Forgets(init, ops, m)
    ensures State(init, ops, m).previous == Some(key) && State(init, ops, m).current != key
  {
    var after := State(init, ops, m + 1);
    assert after.current in Retained(after);
    assert after.previous.Some? ==> after.previous.value in Retained(after);
  }

  /** The key of the last promotion among the first n operations, else the starting one. */
  function InForce(init: Keys, ops: seq<Op>, n: nat): string
    requires n <= |ops|
  {
    match LastPromotion(ops, n)
    case Some(p) => ops[p].key
    case None => init.current
  }

  /** The key that was in force just before that promotion, else the starting previous key. */
  function Replaced(init: Keys, ops: seq<Op>, n: nat): Option<string>
    requires n <= |ops|
  {
    match LastPromotion(ops, n)
    case Some(p) => Some(InForce(init, ops, p))
    case None => init.previous
  }

  ghost predicate RetiredSince(ops: seq<Op>, n: nat)
    requires n <= |ops|
  {
    exists k :: 0 <= k < n && ops[k].Retire? && forall j :: k < j < n ==> !(ops[j].Promote? && ops[j].key != "")
  }

  lemma RetiredSinceStep(ops: seq<Op>, n: nat)
    requires n < |ops|
    ensures RetiredSince(ops, n + 1) <==> ops[n].Retire? || (RetiredSince(ops, n) && !Effective(ops[n]))
  {
    if RetiredSince(ops, n + 1) {
      var k :| 0 <= k < n + 1 && ops[k].Retire? &&
               forall j :: k < j < n + 1 ==> !(ops[j].Promote? && ops[j].key != "");
      assert k < n ==> !Effective(ops[n]);
    }
    if ops[n].Retire? {
      assert RetiredSince(ops, n + 1);
    }
    if RetiredSince(ops, n) && !Effective(ops[n]) {
      var k :| 0 <= k < n && ops[k].Retire? &&
               forall j :: k < j < n ==> !(ops[j].Promote? && ops[j].key != "");
      assert forall j :: k < j < n + 1 ==> !(ops[j].Promote? && ops[j].key != "");
    }
  }

  lemma {:induction false} FieldsAre(init: Keys, ops: seq<Op>, n: nat)
    requires n <= |ops|
    ensures State(init, ops, n).current == InForce(init, ops, n)
    ensures State(init, ops, n).previous == if RetiredSince(ops, n) then None else Replaced(init, ops, n)
  {
    if n > 0 {
      FieldsAre(init, ops, n - 1);
      RetiredSinceStep(ops, n - 1);
      hide RetiredSince;
    }
  }

  /** Which keys a schedule leaves in use: the one last promoted, and the one it replaced as
      long as nothing has been retired since. */
  lemma RetainedIff(init: Keys, ops: seq<Op>, n: nat, key: string)
    requires n <= |ops|
    ensures key in Retained(State(init, ops, n)) <==>
            key == InForce(init, ops, n) || (Replaced(init, ops, n) == Some(key) && !RetiredSince(ops, n))
  {
    FieldsAre(init, ops, n);
  }

  /** After a retirement and before the next promotion only tokens signed with the key in force
      are accepted. */
  lemma RetiredKeyIsRejected(settings: Settings, init: Keys, ops: seq<Op>, n: nat, token: Token, now: real)
    requires n <= |ops| && RetiredSince(ops, n)
    ensures Verdict(settings, Retained(State(init, ops, n)), token, now).Ok? ==>
              token.Token? && token.signedWith == InForce(init, ops, n)
  {
    AcceptedIff(settings, Retained(State(init, ops, n)), token, now);
    if token.Token? {
      RetainedIff(init, ops, n, token.signedWith);
    }
  }

  // ---------- Discipline is exactly what zero downtime needs ----------

  /** Under discipline a signing key is retained until every token it signed has expired. */
  lemma {:induction false} KeyOutlivesItsTokens(init: Keys, ops: seq<Op>, life: real, n: nat, t: real,
                                                m: nat, now: real)
    requires Timed(ops) && Disciplined(init, ops, life)
    requires Instant(ops, n, t) && Instant(ops, m, now) && n <= m && t <= now < t + life
    ensures State(init, ops, n).current in Retained(State(init, ops, m))
    decreases m
  {
    var key := State(init, ops, n).current;
    if n < m {
      var op := ops[m - 1];
      assert t <= ops[n].at <= op.at;
      KeyOutlivesItsTokens(init, ops, life, n, t, m - 1, op.at);
      var p := LastPromotion(ops, m - 1);
      if p.Some? && n <= p.value {
        assert t <= ops[n].at <= ops[p.value].at;
      } else {
        CurrentUnchanged(init, ops, n, m - 1);
      }
      if key !in Retained(State(init, ops, m)) {
        ForgottenKeyWasPrevious(init, ops, m - 1, key);
      }
    }
  }

  lemma DisciplineGivesZeroDowntime(settings: Settings, init: Keys, ops: seq<Op>, life: real)
    requires Timed(ops) && Disciplined(init, ops, life)
    ensures ZeroDowntime(settings, init, ops, life)
  {
    forall n: nat, t: real, m: nat, now: real, token: Token
      | Instant(ops, n, t) && Instant(ops, m, now) && n <= m && t <= now
        && Issued(settings, init, ops, life, n, t, token) && now < token.claims.exp.value
      ensures AcceptedAt(settings, init, ops, m, token, now)
    {
      KeyOutlivesItsTokens(init, ops, life, n, t, m, now);
      AcceptedIff(settings, Retained(State(init, ops, m)), token, now);
    }
  }

  /** A token that lives as long as one may. */
  function LongestToken(settings: Settings, key: string, life: real, t: real, id: string): Token {
    Token(key, Claims(Some(t + life), Some(t), None, Some(id), Some(settings.issuer), Some([settings.audience]),
                      Some(id), None, None))
  }

  /** Forgetting a key too early loses the last token it signed. */
  lemma EarlyForgettingLosesAToken(settings: Settings, init: Keys, ops: seq<Op>, life: real, m: nat, id: string)
    requires Timed(ops) && m < |ops| && settings.uuid(id).Some?
    requires Forgets(init, ops, m) && LastPromotion(ops, m).Some?
    requires ops[m].at < ops[LastPromotion(ops, m).value].at + life
    ensures !ZeroDowntime(settings, init, ops, life)
  {
    var p := LastPromotion(ops, m).value;
    var t := ops[p].at;
    var key := State(init, ops, p).current;
    var token := LongestToken(settings, key, life, t, id);
    PreviousIsTheReplacedKey(init, ops, m);
    assert Instant(ops, p, t) && Instant(ops, m + 1, ops[m].at);
    assert Issued(settings, init, ops, life, p, t, token);
    assert !AcceptedAt(settings, init, ops, m + 1, token, ops[m].at);
  }

  /** A schedule of promotions and retirements has zero downtime if and only if no key is
      forgotten sooner than one token lifetime after the promotion that replaced it. */
  lemma ZeroDowntimeIffDisciplined(settings: Settings, init: Keys, ops: seq<Op>, life: real, id: string)
    requires Timed(ops) && settings.uuid(id).Some?
    ensures ZeroDowntime(settings, init, ops, life) <==> Disciplined(init, ops, life)
  {
    if Disciplined(init, ops, life) {
      DisciplineGivesZeroDowntime(settings, init, ops, life);
    } else {
      var m :| 0 <= m < |ops| && Forgets(init, ops, m) && LastPromotion(ops, m).Some? &&
               ops[m].at < ops[LastPromotion(ops, m).value].at + life;
      EarlyForgettingLosesAToken(settings, init, ops, life, m, id);
    }
  }

  lemma ProtocolIsDisciplined(ops: seq<Op>, life: real, m: nat, replacedAt: real)
    requires Timed(ops) && FollowsProtocol(ops, life) && m < |ops|
    requires LastPromotion(ops, m).None? ==> replacedAt + life <= ops[0].at
    ensures ops[m].at >= ReplacedAt(ops, m, replacedAt) + life
  {
    assert m > 0 ==> ops[0].at <= ops[m].at;
    if LastPromotion(ops, m).Some? {
      var p := LastPromotion(ops, m).value;
      assert ops[p + 1].Retire? && ops[p + 1].at >= ops[p].at + life;
      assert p + 1 < m ==> ops[p + 1].at <= ops[m].at;
    }
  }

  /** The documented protocol is disciplined, so it has zero downtime. */
  lemma ProtocolHasZeroDowntime(settings: Settings, init: Keys, ops: seq<Op>, life: real)
    requires Timed(ops) && FollowsProtocol(ops, life)
    ensures ZeroDowntime(settings, init, ops, life)
  {
    forall m | 0 <= m < |ops| && Forgets(init, ops, m) && LastPromotion(ops, m).Some?
      ensures ops[m].at >= ops[LastPromotion(ops, m).value].at + life
    {
      ProtocolIsDisciplined(ops, life, m, 0.0);
    }
    DisciplineGivesZeroDowntime(settings, init, ops, life);
  }

  /** Promoting alone does not keep outstanding tokens alive: a second promotion within one
      token lifetime already rejects tokens of the first key, with no retirement at all. */
  lemma SecondPromotionTooSoonLosesTokens(settings: Settings, a: string, b: string, c: string,
                                          first: real, second: real, life: real, id: string)
    requires a != b && b != c && a != c && a != "" && b != "" && c != ""
    requires first <= second < first + life && settings.uuid(id).Some?
    ensures !ZeroDowntime(settings, Keys(a, None), [Promote(first, b), Promote(second, c)], life)
  {
    var init, ops := Keys(a, None), [Promote(first, b), Promote(second, c)];
    assert State(init, ops, 1) == Keys(b, Some(a));
    assert State(init, ops, 2) == Keys(c, Some(b));
    assert Forgets(init, ops, 1) && LastPromotion(ops, 1) == Some(0);
    EarlyForgettingLosesAToken(settings, init, ops, life, 1, id);
  }

  // ---------- A previous key held from the start ----------

  /** Tokens signed with the previous key the service starts with, issued until that key was
      replaced, are accepted at every moment of the schedule before their expiry. */
  ghost predicate HonoursHeldTokens(settings: Settings, init: Keys, ops: seq<Op>, life: real, replacedAt: real)
    requires init.previous.Some?
  {
    forall t: real, m: nat, now: real, token: Token
      {:trigger IssuedUnder(settings, init.previous.value, life, t, token),
                AcceptedAt(settings, init, ops, m, token, now)} ::
      t <= replacedAt <= now && Instant(ops, m, now)
      && IssuedUnder(settings, init.previous.value, life, t, token) && now < token.claims.exp.value
      ==> AcceptedAt(settings, init, ops, m, token, now)
  }

  ghost predicate DisciplinedFrom(init: Keys, ops: seq<Op>, life: real, replacedAt: real) {
    forall m :: 0 <= m < |ops| && Forgets(init, ops, m) ==> ops[m].at >= ReplacedAt(ops, m, replacedAt) + life
  }

  lemma {:induction false} PreviousIsTheHeldKey(init: Keys, ops: seq<Op>, n: nat)
    requires n <= |ops| && LastPromotion(ops, n).None? && State(init, ops, n).previous.Some?
    ensures State(init, ops, n).previous == init.previous
  {
    if n > 0 {
      PreviousIsTheHeldKey(init, ops, n - 1);
    }
  }

  lemma {:induction false} HeldKeyOutlivesItsTokens(init: Keys, ops: seq<Op>, life: real, replacedAt: real,
                                                    m: nat, now: real)
    requires Timed(ops) && DisciplinedFrom(init, ops, life, replacedAt) && init.previous.Some?
    requires ops != [] ==> replacedAt <= ops[0].at
    requires Instant(ops, m, now) && now < replacedAt + life
    ensures init.previous.value in Retained(State(init, ops, m))
    decreases m
  {
    if m > 0 {
      var key, op := init.previous.value, ops[m - 1];
      HeldKeyOutlivesItsTokens(init, ops, life, replacedAt, m - 1, op.at);
      var p := LastPromotion(ops, m - 1);
      assert p.Some? ==> ops[0].at <= ops[p.value].at;
      if key !in Retained(State(init, ops, m)) {
        ForgottenKeyWasPrevious(init, ops, m - 1, key);
      }
    }
  }

  lemma EarlyForgettingLosesAHeldToken(settings: Settings, init: Keys, ops: seq<Op>, life: real, replacedAt: real,
                                       m: nat, id: string)
    requires Timed(ops) && init.previous.Some? && settings.uuid(id).Some?
    requires m < |ops| && replacedAt <= ops[0].at
    requires Forgets(init, ops, m) && LastPromotion(ops, m).None? && ops[m].at < replacedAt + life
    ensures !HonoursHeldTokens(settings, init, ops, life, replacedAt)
  {
    var token := LongestToken(settings, init.previous.value, life, replacedAt, id);
    PreviousIsTheHeldKey(init, ops, m);
    assert replacedAt <= ops[0].at <= ops[m].at;
    assert Instant(ops, m + 1, ops[m].at);
    assert IssuedUnder(settings, init.previous.value, life, replacedAt, token);
    assert !AcceptedAt(settings, init, ops, m + 1, token, ops[m].at);
  }

  /** A service started with a previous key loses no token, its own or one of that key, if and
      only if no key is forgotten sooner than one token lifetime after it was replaced. */
  lemma HeldKeyZeroDowntimeIff(settings: Settings, init: Keys, ops: seq<Op>, life: real, replacedAt: real, id: string)
    requires Timed(ops) && init.previous.Some? && settings.uuid(id).Some?
    requires ops != [] ==> replacedAt <= ops[0].at
    ensures ZeroDowntime(settings, init, ops, life) && HonoursHeldTokens(settings, init, ops, life, replacedAt)
            <==> DisciplinedFrom(init, ops, life, replacedAt)
  {
    hide ZeroDowntime, Forgets, Retained;
    ZeroDowntimeIffDisciplined(settings, init, ops, life, id);
    if DisciplinedFrom(init, ops, life, replacedAt) {
      DisciplineHonoursHeldTokens(settings, init, ops, life, replacedAt);
    } else {
      var m :| 0 <= m < |ops| && Forgets(init, ops, m) && ops[m].at < ReplacedAt(ops, m, replacedAt) + life;
      if LastPromotion(ops, m).None? {
        EarlyForgettingLosesAHeldToken(settings, init, ops, life, replacedAt, m, id);
      }
    }
  }

  lemma DisciplineHonoursHeldTokens(settings: Settings, init: Keys, ops: seq<Op>, life: real, replacedAt: real)
    requires Timed(ops) && init.previous.Some? && DisciplinedFrom(init, ops, life, replacedAt)
    requires ops != [] ==> replacedAt <= ops[0].at
    ensures HonoursHeldTokens(settings, init, ops, life, replacedAt)
  {
    hide DisciplinedFrom, Timed;
    forall t: real, m: nat, now: real, token: Token
      | t <= replacedAt <= now && Instant(ops, m, now)
        && IssuedUnder(settings, init.previous.value, life, t, token) && now < token.claims.exp.value
      ensures AcceptedAt(settings, init, ops, m, token, now)
    {
      HeldKeyOutlivesItsTokens(init, ops, life, replacedAt, m, now);
      AcceptedIff(settings, Retained(State(init, ops, m)), token, now);
    }
  }

  /** The documented protocol keeps such tokens too, if it starts one lifetime after that key
      was replaced. */
  lemma ProtocolHonoursHeldTokens(settings: Settings, init: Keys, ops: seq<Op>, life: real, replacedAt: real)
    requires Timed(ops) && FollowsProtocol(ops, life) && init.previous.Some? && life >= 0.0
    requires ops != [] ==> replacedAt + life <= ops[0].at
    ensures ZeroDowntime(settings, init, ops, life) && HonoursHeldTokens(settings, init, ops, life, replacedAt)
  {
    ProtocolHasZeroDowntime(settings, init, ops, life);
    forall m | 0 <= m < |ops| && Forgets(init, ops, m)
      ensures ops[m].at >= ReplacedAt(ops, m, replacedAt) + life
    {
      ProtocolIsDisciplined(ops, life, m, replacedAt);
    }
    DisciplineHonoursHeldTokens(settings, init, ops, life, replacedAt);
  }
}
