/**
 The token-exchange cache: which token a hit returns, and how close to its expiry.
 A token's `exp` claim is peeked from its text when it is a JWT; the inner exchange
 and the digest are arbitrary.
 */
module TokenCache {
  import opened Wrappers
  import opened TtlCache

  datatype Pair = Pair(subjectToken: string, audience: string)

  /** A credential. A JWT's `exp` is the integer its claims carry. An opaque token,
      or one whose claims do not decode, dies at some time of its own that the cache
      cannot see. */
  datatype Token = Jwt(text: string, exp: int) | Opaque(text: string, diesAt: real)

  /** The token's real expiry. */
  function Expiry(token: Token): real {
    match token
    case Jwt(_, exp) => exp as real
    case Opaque(_, diesAt) => diesAt
  }

  function TextOf(token: Token): string { token.text }

  datatype Config = Config(
    sha: string -> string, maxTtl: int, margin: int,
    inner: (Pair, Token, real) -> bool, maxDelay: real)

  const KEY_PREFIX := "oac:token-exchange:"

  function KeyText(q: Pair): string { q.subjectToken + ":" + q.audience }

  function CacheKey(sha: string -> string, q: Pair): string { KEY_PREFIX + sha(KeyText(q)) }

  function TtlFromToken(token: Token, now: real, maxTtl: int, margin: int): int {
    match token
    case Opaque(_, _) => margin
    case Jwt(_, exp) =>
      var remaining := exp - now.Floor - margin;
      var capped := if remaining < maxTtl then remaining else maxTtl;
      if capped < 0 then 0 else capped
  }

  function CacheDesign(c: Config): Design<Pair, string, Token> {
    Design(
      (q: Pair) => CacheKey(c.sha, q),
      (token: Token, now: real) => TtlFromToken(token, now, c.maxTtl, c.margin),
      c.inner,
      c.maxDelay)
  }

  /** The state after a run from an empty cache, if the run is one. */
  function After(c: Config, start: real, es: seq<Event<Pair, string, Token>>): Option<State<Pair, string, Token>> {
    Run(CacheDesign(c), Initial(start), es)
  }

  /** The `i`-th lookup of the run was served from the cache. */
  predicate Serves(c: Config, start: real, es: seq<Event<Pair, string, Token>>, i: nat) {
    var r := After(c, start, es);
    r.Some? && i < |r.value.returned| && r.value.returned[i].hit
  }

  function Served(c: Config, start: real, es: seq<Event<Pair, string, Token>>, i: nat): Token
    requires Serves(c, start, es, i)
  {
    After(c, start, es).value.returned[i].answer.value
  }

  /** How long the token it returned had left. */
  function SecondsLeft(c: Config, start: real, es: seq<Event<Pair, string, Token>>, i: nat): real
    requires Serves(c, start, es, i)
  {
    Expiry(Served(c, start, es, i)) - After(c, start, es).value.returned[i].at
  }

  /* ---- Expiry ---- */

  /** Across every interleaving of fills and hits, a JWT served from the cache has
      more than `margin - 1 - maxDelay` seconds left. */
  lemma HitsLeaveTheMargin(c: Config, start: real, es: seq<Event<Pair, string, Token>>, i: nat)
    requires Serves(c, start, es, i) && Served(c, start, es, i).Jwt?
    ensures SecondsLeft(c, start, es, i) > c.margin as real - 1.0 - c.maxDelay
  {
    hide Run;
    EveryAnswerIsBounded(CacheDesign(c), start, es);
    var s := After(c, start, es).value;
    assert ReturnedOk(CacheDesign(c), s, s.returned[i]);
  }

  /** And no hit is older than the cap on its time to live, plus the delay. */
  lemma HitsAreRecent(c: Config, start: real, es: seq<Event<Pair, string, Token>>, i: nat)
    requires Serves(c, start, es, i)
    ensures var r := After(c, start, es).value.returned[i];
      && c.inner(r.answer.query, r.answer.value, r.answer.at)
      && r.at - r.answer.at < c.maxDelay + (if r.answer.value.Jwt? then c.maxTtl else c.margin) as real
  {
    hide Run;
    EveryAnswerIsBounded(CacheDesign(c), start, es);
    var s := After(c, start, es).value;
    assert ReturnedOk(CacheDesign(c), s, s.returned[i]);
  }

  /** The time to live of a JWT is the longest, within the maximum, that leaves the
      margin before its expiry by the truncated clock; none when no second does. An
      opaque token's is the margin. */
  lemma TtlIsLongest(token: Token, now: real, maxTtl: int, margin: int, seconds: int)
    ensures var ttl := TtlFromToken(token, now, maxTtl, margin);
      && (token.Opaque? ==> ttl == margin)
      && (token.Jwt? ==>
            && 0 <= ttl
            && (ttl > 0 ==> ttl <= maxTtl && now.Floor + ttl + margin <= token.exp)
            && (0 < seconds <= maxTtl && now.Floor + seconds + margin <= token.exp ==> seconds <= ttl))
  {
  }

  /** No run that starts at `since` or later serves a token from the cache at or after
      its real expiry. */
  ghost predicate NeverServesExpired(c: Config, since: int) {
    forall start: real, es: seq<Event<Pair, string, Token>>, i: nat
      | since as real <= start && Serves(c, start, es, i) ::
      SecondsLeft(c, start, es, i) > 0.0
  }

  /** The inner exchange may answer any JWT that has not expired yet, and exactly the
      opaque tokens with at least `life` to live. */
  ghost predicate AnswersWithLife(c: Config, life: real) {
    forall q: Pair, token: Token, now: real ::
      match token
      case Jwt(_, exp) => now < exp as real ==> c.inner(q, token, now)
      case Opaque(_, diesAt) => c.inner(q, token, now) <==> now + life <= diesAt
  }

  /** A fill as slow as allowed, then a hit once the token has expired. */
  lemma ExpiredHit(c: Config, since: int, token: Token, start: real)
    requires since as real <= start && 0.0 <= c.maxDelay && c.inner(Pair("subject", "audience"), token, start)
    requires 0 < TtlFromToken(token, start, c.maxTtl, c.margin)
    requires Expiry(token) < start + c.maxDelay + TtlFromToken(token, start, c.maxTtl, c.margin) as real
    ensures !NeverServesExpired(c, since)
  {
    hide Run, TtlFromToken;
    var q := Pair("subject", "audience");
    var written := start + c.maxDelay;
    var wait := if Expiry(token) < written then 0.0 else Expiry(token) - written;
    SlowFillIsServedLate(CacheDesign(c), q, token, start, wait);
    var es := SlowFillThenHit(CacheDesign(c), q, token, wait);
    assert Serves(c, start, es, 1);
    assert SecondsLeft(c, start, es, 1) <= 0.0;
  }

  /** A margin short by however little lets some run serve an expired JWT, from
      whatever second on: one fetched at the end of that second and written as
      slowly as allowed. */
  lemma ShortMarginServesExpired(c: Config, since: int, life: real)
    requires AnswersWithLife(c, life) && 1 <= c.maxTtl && 0.0 <= c.maxDelay
    requires (c.margin as real) < 1.0 + c.maxDelay
    ensures !NeverServesExpired(c, since)
  {
    var short := 1.0 + c.maxDelay - c.margin as real;
    var early := if short < 1.0 then short / 2.0 else 0.5;
    var start := since as real + 1.0 - early;
    assert start.Floor == since;
    var token := Jwt("jwt", since + if 0 <= c.margin then c.margin + 1 else 1);
    assert c.inner(Pair("subject", "audience"), token, start);
    ExpiredHit(c, since, token, start);
  }

  /** A margin that outlasts what an opaque token may have left, for the delay, lets
      some run serve an expired opaque token: the code keeps it for the margin. */
  lemma LongMarginServesExpired(c: Config, since: int, life: real)
    requires AnswersWithLife(c, life) && 0.0 <= c.maxDelay && 0 < c.margin
    requires life - c.maxDelay < c.margin as real
    ensures !NeverServesExpired(c, since)
  {
    var token := Opaque("opaque", since as real + life);
    assert c.inner(Pair("subject", "audience"), token, since as real);
    ExpiredHit(c, since, token, since as real);
  }

  /** "Never past a token's real expiry" holds exactly when the margin covers the
      truncated clock and the delay of the write, and opaque tokens outlive both. */
  lemma NeverPastExpiryIff(c: Config, since: int, life: real)
    requires AnswersWithLife(c, life) && 1 <= c.maxTtl && 0.0 <= c.maxDelay
    ensures NeverServesExpired(c, since) <==> 1.0 + c.maxDelay <= c.margin as real <= life - c.maxDelay
  {
    if c.margin as real < 1.0 + c.maxDelay {
      ShortMarginServesExpired(c, since, life);
    } else if life - c.maxDelay < c.margin as real {
      LongMarginServesExpired(c, since, life);
    } else {
      forall start: real, es: seq<Event<Pair, string, Token>>, i: nat
        | since as real <= start && Serves(c, start, es, i)
        ensures SecondsLeft(c, start, es, i) > 0.0
      {
        if Served(c, start, es, i).Jwt? {
          HitsLeaveTheMargin(c, start, es, i);
        } else {
          HitsAreRecent(c, start, es, i);
        }
      }
    }
  }

  /** The default margin of 30 seconds, a write that takes no time, and an exchange
      that answers opaque tokens with 10 seconds left: some run serves a dead one. */
  lemma DefaultMarginServesDeadOpaque(c: Config, since: int)
    requires AnswersWithLife(c, 10.0) && c.maxDelay == 0.0 && c.margin == 30
    ensures !NeverServesExpired(c, since)
  {
    LongMarginServesExpired(c, since, 10.0);
  }

  /* ---- Transparency ---- */

  ghost predicate Collides(sha: string -> string, a: string, b: string) {
    a != b && sha(a) == sha(b)
  }

  /** The text under a key splits at its first colon. */
  lemma {:induction false} KeyTextSplits(p: Pair, q: Pair)
    requires KeyText(p) == KeyText(q)
    requires ':' !in p.subjectToken && ':' !in q.subjectToken
    ensures p == q
  {
    FirstColonIsNoEarlier(p, q);
    FirstColonIsNoEarlier(q, p);
    var m := |p.subjectToken|;
    assert KeyText(p)[..m] == p.subjectToken && KeyText(q)[..m] == q.subjectToken;
    assert KeyText(p)[m + 1..] == p.audience && KeyText(q)[m + 1..] == q.audience;
  }

  lemma FirstColonIsNoEarlier(p: Pair, q: Pair)
    requires KeyText(p) == KeyText(q)
    requires ':' !in q.subjectToken
    ensures |q.subjectToken| <= |p.subjectToken|
  {
    var text := KeyText(p);
    assert text[|p.subjectToken|] == ':';
    assert forall k :: 0 <= k < |q.subjectToken| ==> text[k] == q.subjectToken[k] != ':';
  }

  /** Audience `b` is some text, a colon, and audience `a`. */
  ghost predicate Nests(b: string, a: string) {
    exists x: string :: b == x + ":" + a
  }

  /** A test of the configured audiences alone. */
  ghost predicate NoneNests(audiences: set<string>) {
    forall a, b :: a in audiences && b in audiences ==> !Nests(b, a)
  }

  ghost predicate Over(audiences: set<string>, q: Pair) {
    q.audience in audiences
  }

  /** Two pairs of one text: the same pair, or one audience nests in the other. */
  lemma SharedTextNests(p: Pair, q: Pair)
    requires KeyText(p) == KeyText(q) && |p.audience| <= |q.audience|
    ensures p == q || Nests(q.audience, p.audience)
  {
    var text := KeyText(p);
    var m, n := |p.subjectToken|, |q.subjectToken|;
    assert text[m + 1..] == p.audience && text[n + 1..] == q.audience;
    assert text[..m] == p.subjectToken && text[..n] == q.subjectToken;
    if n < m {
      var x := text[n + 1..m];
      assert text[n + 1..] == x + [text[m]] + text[m + 1..];
      assert q.audience == x + ":" + p.audience;
    }
  }

  /** Key texts determine the pair, colons in subject tokens or not, exactly when no
      audience nests in another. */
  lemma KeyTextsUniqueIff(audiences: set<string>)
    ensures (forall p, q :: Over(audiences, p) && Over(audiences, q) && KeyText(p) == KeyText(q) ==> p == q)
            <==> NoneNests(audiences)
  {
    if NoneNests(audiences) {
      forall p, q | Over(audiences, p) && Over(audiences, q) && KeyText(p) == KeyText(q)
        ensures p == q
      {
        if |p.audience| <= |q.audience| {
          SharedTextNests(p, q);
        } else {
          SharedTextNests(q, p);
        }
      }
    } else {
      var a, b :| a in audiences && b in audiences && Nests(b, a);
      var x: string :| b == x + ":" + a;
      var p, q := NestedPair("", x, a), Pair("", b);
      NestedTextsAgree("", x, a, b);
      assert Over(audiences, p) && Over(audiences, q) && p != q;
    }
  }

  function NestedPair(subject: string, x: string, a: string): Pair {
    Pair(subject + ":" + x, a)
  }

  lemma NestedTextsAgree(subject: string, x: string, a: string, b: string)
    requires b == x + ":" + a
    ensures KeyText(NestedPair(subject, x, a)) == KeyText(Pair(subject, b))
        && NestedPair(subject, x, a) != Pair(subject, b)
  {
    assert subject + ":" + x + ":" + a == subject + ":" + (x + ":" + a);
  }

  /** As the gateway is deployed: one audience never nests in itself. */
  lemma OneAudienceNeverNests(audience: string)
    ensures NoneNests({audience})
  {
  }

  /** The lookup returned what the inner exchange answered, in this run, to that very
      pair; or two texts share a digest. */
  ghost predicate Transparent(c: Config, s: State<Pair, string, Token>, r: Returned<Pair, Token>) {
    && r.answer in s.answered
    && (r.answer.query == r.query || Collides(c.sha, KeyText(r.answer.query), KeyText(r.query)))
  }

  /** Every lookup is transparent, over any run whose subject tokens carry no colon,
      or whose audiences do not nest. */
  lemma HitsAreTransparent(c: Config, audiences: set<string>, start: real, es: seq<Event<Pair, string, Token>>, i: nat)
    requires After(c, start, es).Some? && i < |After(c, start, es).value.returned|
    requires var asked := After(c, start, es).value.asked;
      || (forall q :: q in asked ==> ':' !in q.subjectToken)
      || (NoneNests(audiences) && forall q :: q in asked ==> Over(audiences, q))
    ensures var s := After(c, start, es).value; Transparent(c, s, s.returned[i])
  {
    hide Run;
    EveryAnswerIsBounded(CacheDesign(c), start, es);
    var s := After(c, start, es).value;
    var r := s.returned[i];
    assert ReturnedOk(CacheDesign(c), s, r);
    var k := CacheKey(c.sha, r.query);
    assert k == CacheKey(c.sha, r.answer.query);
    assert k[|KEY_PREFIX|..] == c.sha(KeyText(r.query)) == c.sha(KeyText(r.answer.query));
    if KeyText(r.answer.query) == KeyText(r.query) {
      if forall q :: q in s.asked ==> ':' !in q.subjectToken {
        KeyTextSplits(r.answer.query, r.query);
      } else {
        KeyTextsUniqueIff(audiences);
      }
    }
  }

  /** When audience `b` nests `a`, then for every digest and every subject, some run
      serves that subject, for `b`, the token exchanged for another subject and `a`. */
  lemma NestedAudiencesShareAKey(c: Config, subject: string, x: string, a: string, b: string, token: Token, start: real)
    returns (es: seq<Event<Pair, string, Token>>)
    requires b == x + ":" + a && 0.0 <= c.maxDelay
    requires c.inner(NestedPair(subject, x, a), token, start) && TtlFromToken(token, start, c.maxTtl, c.margin) > 0
    ensures var r := After(c, start, es);
      && r.Some? && |r.value.returned| == 2
      && r.value.asked == [NestedPair(subject, x, a), Pair(subject, b)]
      && r.value.returned[1].hit
      && r.value.returned[1].query == Pair(subject, b)
      && r.value.returned[1].answer.query == NestedPair(subject, x, a)
  {
    hide Run, TtlFromToken;
    var p, q := NestedPair(subject, x, a), Pair(subject, b);
    var d := CacheDesign(c);
    NestedTextsAgree(subject, x, a, b);
    var s := Initial<Pair, string, Token>(start);
    var fill := Miss<Pair, string, Token>(0, p, token, 0.0);
    MissRuns(d, s, 0, p, token, 0.0);
    RunThen(d, s, fill, Start(1, q));
    es := fill + [Start(1, q)];
  }

  /** Every lookup of every run over these audiences is transparent. */
  ghost predicate AlwaysTransparent(c: Config, audiences: set<string>) {
    forall start: real, es: seq<Event<Pair, string, Token>>, i: nat | RunsOver(c, audiences, start, es, i) ::
      Transparent(c, After(c, start, es).value, After(c, start, es).value.returned[i])
  }

  ghost predicate RunsOver(c: Config, audiences: set<string>, start: real, es: seq<Event<Pair, string, Token>>,
                           i: nat) {
    && After(c, start, es).Some? && i < |After(c, start, es).value.returned|
    && forall q :: q in After(c, start, es).value.asked ==> Over(audiences, q)
  }

  /** The cache is transparent for all subject tokens exactly when no audience nests
      in another, provided that for every pair some answer can be cached at some time. */
  lemma TransparentIff(c: Config, audiences: set<string>)
    requires 0.0 <= c.maxDelay
    requires forall q :: SomeIsCacheable(c, q)
    ensures AlwaysTransparent(c, audiences) <==> NoneNests(audiences)
  {
    hide After, TtlFromToken;
    if NoneNests(audiences) {
      forall begin: real, es: seq<Event<Pair, string, Token>>, i: nat | RunsOver(c, audiences, begin, es, i)
        ensures Transparent(c, After(c, begin, es).value, After(c, begin, es).value.returned[i])
      {
        HitsAreTransparent(c, audiences, begin, es, i);
      }
    } else {
      var a, b :| a in audiences && b in audiences && Nests(b, a);
      var x: string :| b == x + ":" + a;
      NestedTextsAgree("", x, a, b);
      assert SomeIsCacheable(c, NestedPair("", x, a));
      var token, start :| Cacheable(c, NestedPair("", x, a), token, start);
      var es := NestedAudiencesShareAKey(c, "", x, a, b, token, start);
      assert RunsOver(c, audiences, start, es, 1);
      assert !Transparent(c, After(c, start, es).value, After(c, start, es).value.returned[1]);
    }
  }

  /** The inner exchange may answer this token, and it would be stored. */
  predicate Cacheable(c: Config, q: Pair, token: Token, start: real) {
    c.inner(q, token, start) && TtlFromToken(token, start, c.maxTtl, c.margin) > 0
  }

  ghost predicate SomeIsCacheable(c: Config, q: Pair) {
    exists token: Token, start: real :: Cacheable(c, q, token, start)
  }

  /* ---- The decorator ---- */

  class CachingTokenExchange {
    const config: Config
    var redis: map<string, Entry>
    ghost var model: State<Pair, string, Token>

    /** `model` is the state of the runs above; Redis holds its store as text. */
    ghost predicate Valid()
      reads this
    {
      model.lookups == map[] && Mirrors(redis, model.store, TextOf)
    }

    constructor (config: Config, now: real)
      ensures Valid() && this.config == config && model == Initial(now)
    {
      this.config := config;
      redis := map[];
      model := Initial(now);
    }

    /** One exchange at time `now`; `answer` is what the inner exchange would answer,
        and the write takes `delay`. */
    method Exchange(q: Pair, now: real, answer: Token, delay: real) returns (text: string)
      requires Valid() && model.now <= now
      requires config.inner(q, answer, now) && 0.0 <= delay <= config.maxDelay
      modifies this
      ensures Valid()
      ensures var key := CacheKey(config.sha, q);
        if key in old(redis) && now < old(redis)[key].expiresAt then
          && text == old(redis)[key].text && redis == old(redis)
          && Run(CacheDesign(config), old(model).(now := now), [Start(0, q)]) == Some(model)
        else
          && text == answer.text
          && redis == Stores(old(redis), key, answer.text,
                             TtlFromToken(answer, now, config.maxTtl, config.margin), now + delay)
          && Run(CacheDesign(config), old(model).(now := now), Miss(0, q, answer, delay)) == Some(model)
      ensures |model.returned| == |old(model).returned| + 1
      ensures var r := model.returned[|old(model).returned|]; r.query == q && r.answer.value.text == text
    {
      hide Run, Step, Mirrors, TtlFromToken;
      var key := CacheKey(config.sha, q);
      ghost var s := model.(now := now);
      if key in redis && now < redis[key].expiresAt {
        model := HitRuns(CacheDesign(config), redis, s, TextOf, 0, q);
        return redis[key].text;
      }
      model := MissStores(CacheDesign(config), redis, s, TextOf, 0, q, answer, delay);
      var ttl := TtlFromToken(answer, now, config.maxTtl, config.margin);
      if ttl > 0 {
        redis := redis[key := Entry(answer.text, now + delay + ttl as real)];
      }
      return answer.text;
    }
  }
}
