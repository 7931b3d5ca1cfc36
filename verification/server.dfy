/**
 * The request pipeline of the relay: `express.json()` body parsing, the
 * rate-limit middleware, then one of the routes.  The completion provider is
 * not modelled; each request carries the reply the provider would give if it
 * were called (`ProviderReply`), and every outcome records whether it was.
 */
module Server {
  import opened Wrappers
  import opened JsValues
  import opened ClientIds
  import opened RateLimit
  import opened Validation
  import opened Cache

  /** The routes the app registers; any other method and path pair is `Unrouted`. */
  datatype Route = Health | Chat | Clues | Facts | Unrouted

  /** The body as `express.json()` leaves it: a JSON syntax error, or the parsed value. */
  datatype RequestBody = Malformed | Json(value: JsValue)

  datatype Request = Request(
    route: Route,
    forwardedFor: Option<string>,  // the `x-forwarded-for` header
    peerIp: Option<string>,        // `req.ip`
    body: RequestBody)

  /**
   * What the provider call gives back: it throws, or it returns a completion
   * whose first message content is `content` (absent when there is no first
   * choice or no content) and whose `JSON.parse` yields `parsed` (absent when
   * parsing throws).
   */
  datatype ProviderReply = CallFailed | Replied(content: Option<string>, parsed: Option<JsValue>)

  datatype Response = Response(status: nat, payload: JsValue)

  /** A route's answer and whether it called the provider. */
  datatype Outcome = Outcome(response: Response, providerCalled: bool)

  /** A whole request: the answer, the provider flag and both shared maps afterwards. */
  datatype Step = Step(
    response: Response,
    providerCalled: bool,
    buckets: map<string, seq<int>>,
    cache: map<string, Entry>)

  function ErrorResponse(status: nat, message: string): Response {
    Response(status, Obj(map["error" := Str(message)]))
  }

  function Field(name: string, value: JsValue): JsValue {
    Obj(map[name := value])
  }

  /** Express's default handler for a body `express.json()` cannot parse; its page is not modelled. */
  const BadJson: Response := Response(400, Str("Bad Request"))
  /** Express's default 404 for a method and path no route matches; its page is not modelled. */
  const NotFound: Response := Response(404, Str("Not Found"))
  const TooManyRequests: Response := ErrorResponse(429, "Rate limit exceeded")
  const CluesFailed: Response := ErrorResponse(500, "Failed to generate clues")
  const FactsFailed: Response := ErrorResponse(500, "Failed to generate facts")

  /**
   * The reply `/clues` and `/facts` can use: the call returned a first choice
   * with a message content, and `JSON.parse` of that content gave a value
   * other than `null`.  Without a first choice the unguarded
   * `choices[0].message` throws; a `null` content parses to `null`, and a
   * member access on `null` throws.
   */
  predicate Usable(reply: ProviderReply) {
    reply.Replied? && reply.content.Some? && reply.parsed.Some?
    && !reply.parsed.value.Undefined? && !reply.parsed.value.Null?
  }

  /**
   * `json.<name>` of the parsed provider reply; absent when the call or the
   * member access throws.  A parsed value that lacks the member gives
   * `undefined`.
   */
  function ReplyField(reply: ProviderReply, name: string): (r: Option<JsValue>)
    ensures r.Some? <==> Usable(reply)
    ensures r.Some? ==> r.value == Property(reply.parsed.value, name)
  {
    if Usable(reply) then Some(Property(reply.parsed.value, name)) else None
  }

  /** `POST /chat`. */
  function ChatEndpoint(body: JsValue, reply: ProviderReply): Outcome {
    match ParseChatRequest(body)
    case NoBody => Outcome(ErrorResponse(500, "OpenAI call failed"), false)
    case NotAnArray => Outcome(ErrorResponse(400, MessagesRequired), false)
    case Messages(_) =>
      match reply
      case CallFailed => Outcome(ErrorResponse(500, "OpenAI call failed"), true)
      case Replied(content, _) => Outcome(Response(200, Field("text", Str(content.GetOr("")))), true)
  }

  /**
   * `POST /clues`: the answer, the provider flag and the cache afterwards.
   * Building the key throws before the lookup, and building the prompt
   * throws after a miss but before the call; both end in the catch.
   */
  function CluesEndpoint(cache: map<string, Entry>, body: JsValue, now: int, reply: ProviderReply): (Outcome, map<string, Entry>) {
    match ParseAnimalRequest(body)
    case Err(message) => (Outcome(ErrorResponse(400, message), false), cache)
    case Ok(req) =>
      match CacheKeyOf(req)
      case None => (Outcome(CluesFailed, false), cache)
      case Some(key) =>
        match Lookup(cache, key, now)
        case Some(clues) => (Outcome(Response(200, Field("clues", clues)), false), cache)
        case None =>
          if PromptThrows(req) then (Outcome(CluesFailed, false), cache)
          else
            match ReplyField(reply, "clues")
            case None => (Outcome(CluesFailed, true), cache)
            case Some(clues) => (Outcome(Response(200, Field("clues", clues)), true), Store(cache, key, clues, now))
  }

  /** `POST /facts`: it has no access to the cache at all; building the prompt may throw before the call. */
  function FactsEndpoint(body: JsValue, reply: ProviderReply): Outcome {
    match ParseAnimalRequest(body)
    case Err(message) => Outcome(ErrorResponse(400, message), false)
    case Ok(req) =>
      if PromptThrows(req) then Outcome(FactsFailed, false)
      else
        match ReplyField(reply, "facts")
        case None => Outcome(FactsFailed, true)
        case Some(facts) => Outcome(Response(200, Field("facts", facts)), true)
  }

  /** A route's outcome together with the cache it leaves. */
  datatype Routed = Routed(outcome: Outcome, cache: map<string, Entry>)

  /**
   * The route handlers behind the limiter.  None of them answers 429, and
   * only `/clues` can change the cache.
   */
  function Dispatch(cache: map<string, Entry>, route: Route, body: JsValue, now: int, reply: ProviderReply): (r: Routed)
    ensures r.outcome.response.status != 429
    ensures !route.Clues? ==> r.cache == cache
  {
    match route
    case Health => Routed(Outcome(Response(200, Field("status", Str("OK"))), false), cache)
    case Chat => Routed(ChatEndpoint(body, reply), cache)
    case Clues =>
      var (o, cache') := CluesEndpoint(cache, body, now, reply);
      Routed(o, cache')
    case Facts => Routed(FactsEndpoint(body, reply), cache)
    case Unrouted => Routed(Outcome(NotFound, false), cache)
  }

  /** The client id the middleware charges a request to. */
  function ClientOf(req: Request): string {
    ClientIdOf(req.forwardedFor, req.peerIp)
  }

  /** One request through the whole app, from the shared maps before it to the maps after it. */
  function Serve(buckets: map<string, seq<int>>, cache: map<string, Entry>, req: Request, now: int, reply: ProviderReply): Step {
    match req.body
    case Malformed => Step(BadJson, false, buckets, cache)
    case Json(body) =>
      var admission := Check(buckets, ClientOf(req), now);
      if !admission.allowed then Step(TooManyRequests, false, buckets, cache)
      else
        var r := Dispatch(cache, req.route, body, now, reply);
        Step(r.outcome.response, r.outcome.providerCalled, admission.buckets, r.cache)
  }

  /** A body `express.json()` rejects is answered before the limiter and charges no bucket. */
  lemma MalformedBodySkipsLimiter(buckets: map<string, seq<int>>, cache: map<string, Entry>, req: Request, now: int, reply: ProviderReply)
    requires req.body.Malformed?
    ensures var s := Serve(buckets, cache, req, now, reply);
      s.response.status == 400 && !s.providerCalled && s.buckets == buckets && s.cache == cache
  {
  }

  /**
   * The limiter runs before every route; a refused request is answered 429
   * and reaches neither validation, the cache nor the provider, and changes
   * neither map.  An admitted one leaves the buckets as the check left them.
   */
  lemma RefusedRequestGoesNoFurther(buckets: map<string, seq<int>>, cache: map<string, Entry>, req: Request, now: int, reply: ProviderReply)
    requires req.body.Json?
    ensures var s := Serve(buckets, cache, req, now, reply);
      var a := Check(buckets, ClientOf(req), now);
      && (!a.allowed ==> s == Step(ErrorResponse(429, "Rate limit exceeded"), false, buckets, cache))
      && (a.allowed ==> s.buckets == a.buckets && s.response.status != 429)
  {
  }

  /** `/clues` and `/facts` answer 400 "animalName required" unless `animalName` is a non-empty string, without touching cache or provider. */
  lemma MissingAnimalNameRefused(buckets: map<string, seq<int>>, cache: map<string, Entry>, req: Request, now: int, reply: ProviderReply)
    requires req.body.Json? && (req.route.Clues? || req.route.Facts?)
    requires Check(buckets, ClientOf(req), now).allowed
    requires var name := AnimalNameField(req.body.value); !name.Str? || name.s == ""
    ensures var s := Serve(buckets, cache, req, now, reply);
      s.response == ErrorResponse(400, "animalName required") && !s.providerCalled && s.cache == cache
  {
  }

  /** `/chat` answers 400 unless `messages` is an array, and 500 without a body, calling the provider only for an array. */
  lemma ChatNeedsMessageArray(buckets: map<string, seq<int>>, cache: map<string, Entry>, req: Request, now: int, reply: ProviderReply)
    requires req.body.Json? && req.route.Chat?
    requires Check(buckets, ClientOf(req), now).allowed
    ensures var s := Serve(buckets, cache, req, now, reply);
      var body := req.body.value;
      && s.cache == cache
      && (s.providerCalled <==> body.Obj? && "messages" in body.fields && body.fields["messages"].Arr?)
      && ((body.Undefined? || body.Null?) ==> s.response == ErrorResponse(500, "OpenAI call failed"))
      && (!body.Undefined? && !body.Null? && !Property(body, "messages").Arr? ==> s.response == ErrorResponse(400, "messages[] required"))
  {
  }

  /**
   * `/health` and unrouted requests sit behind the limiter too: when admitted
   * they use up a slot of the client's window like any other request.
   */
  lemma HealthAndUnroutedAreCharged(buckets: map<string, seq<int>>, cache: map<string, Entry>, req: Request, now: int, reply: ProviderReply)
    requires req.body.Json? && (req.route.Health? || req.route.Unrouted?)
    ensures var s := Serve(buckets, cache, req, now, reply);
      var a := Check(buckets, ClientOf(req), now);
      && !s.providerCalled && s.cache == cache && s.buckets == a.buckets
      && (a.allowed && req.route.Health? ==> s.response == Response(200, Field("status", Str("OK"))))
      && (a.allowed && req.route.Unrouted? ==> s.response.status == 404)
      && (!a.allowed ==> s.response.status == 429)
  {
  }

  /** An admitted `/chat` with a message array relays the first choice's content, `""` when there is none, or answers 500 when the call throws. */
  lemma ChatRelaysContent(buckets: map<string, seq<int>>, cache: map<string, Entry>, req: Request, now: int, reply: ProviderReply)
    requires req.body.Json? && req.route.Chat?
    requires Check(buckets, ClientOf(req), now).allowed
    requires ParseChatRequest(req.body.value).Messages?
    ensures var s := Serve(buckets, cache, req, now, reply);
      && s.providerCalled
      && (reply.CallFailed? ==> s.response == ErrorResponse(500, "OpenAI call failed"))
      && (reply.Replied? && reply.content.Some? ==> s.response == Response(200, Field("text", Str(reply.content.value))))
      && (reply.Replied? && reply.content.None? ==> s.response == Response(200, Field("text", Str(""))))
  {
  }

  /**
   * An admitted, valid `/facts` request answers 500 without calling the
   * provider when its prompt throws.  Otherwise it calls the provider and
   * answers the reply's `facts` member (possibly `undefined`) when the reply
   * is usable, and 500 when it is not.
   */
  lemma FactsAnswersFromReply(buckets: map<string, seq<int>>, cache: map<string, Entry>, req: Request, now: int, reply: ProviderReply)
    requires req.body.Json? && req.route.Facts?
    requires Check(buckets, ClientOf(req), now).allowed
    requires ParseAnimalRequest(req.body.value).Ok?
    ensures var s := Serve(buckets, cache, req, now, reply);
      var throws := PromptThrows(ParseAnimalRequest(req.body.value).value);
      && (s.providerCalled <==> !throws)
      && (throws ==> s.response == FactsFailed)
      && (!throws && Usable(reply) ==> s.response == Response(200, Field("facts", Property(reply.parsed.value, "facts"))))
      && (!throws && !Usable(reply) ==> s.response == FactsFailed)
  {
  }

  /**
   * A `/clues` request whose scientific name cannot be converted to text
   * fails while its key is built: 500 before the cache is consulted and
   * without a provider call.
   */
  lemma ThrowingKeyFails(buckets: map<string, seq<int>>, cache: map<string, Entry>, req: Request, now: int, reply: ProviderReply)
    requires req.body.Json? && req.route.Clues?
    requires Check(buckets, ClientOf(req), now).allowed
    requires ParseAnimalRequest(req.body.value).Ok?
    requires ToStringThrows(ParseAnimalRequest(req.body.value).value.scientificName)
    ensures var s := Serve(buckets, cache, req, now, reply);
      s.response == CluesFailed && !s.providerCalled && s.cache == cache
  {
  }

  /** A `/clues` hit answers the stored value without calling the provider and leaves the cache as it was. */
  lemma CluesHitServesCache(buckets: map<string, seq<int>>, cache: map<string, Entry>, req: Request, now: int, reply: ProviderReply)
    requires req.body.Json? && req.route.Clues?
    requires Check(buckets, ClientOf(req), now).allowed
    requires ParseAnimalRequest(req.body.value).Ok?
    requires var key := CacheKeyOf(ParseAnimalRequest(req.body.value).value);
      key.Some? && key.value in cache && now < cache[key.value].expiresAt
    ensures var s := Serve(buckets, cache, req, now, reply);
      var key := CacheKeyOf(ParseAnimalRequest(req.body.value).value).value;
      s.response == Response(200, Field("clues", cache[key].value)) && !s.providerCalled && s.cache == cache
  {
  }

  /**
   * A `/clues` miss fails with 500 and no call when its prompt throws.
   * Otherwise it calls the provider.  The cache is written only when the
   * reply is usable; then the entry, the reply's `clues` member (possibly
   * `undefined`), expires one hour later.  Otherwise the answer is 500 and
   * the cache is unchanged.
   */
  lemma CluesMissCallsProvider(buckets: map<string, seq<int>>, cache: map<string, Entry>, req: Request, now: int, reply: ProviderReply)
    requires req.body.Json? && req.route.Clues?
    requires Check(buckets, ClientOf(req), now).allowed
    requires ParseAnimalRequest(req.body.value).Ok?
    requires var key := CacheKeyOf(ParseAnimalRequest(req.body.value).value);
      key.Some? && (key.value !in cache || now >= cache[key.value].expiresAt)
    ensures var s := Serve(buckets, cache, req, now, reply);
      var r := ParseAnimalRequest(req.body.value).value;
      var key := CacheKeyOf(r).value;
      && (s.providerCalled <==> !PromptThrows(r))
      && (PromptThrows(r) ==> s.response == CluesFailed && s.cache == cache)
      && (!PromptThrows(r) && Usable(reply) ==>
            var clues := Property(reply.parsed.value, "clues");
            s.response == Response(200, Field("clues", clues))
            && s.cache == cache[key := Entry(clues, now + 3_600_000)])
      && (!PromptThrows(r) && !Usable(reply) ==> s.response == CluesFailed && s.cache == cache)
  {
  }

  /** `/facts` never writes the cache, answers the same whatever the cache holds, and calls the provider exactly for an admitted valid request whose prompt can be built. */
  lemma FactsBypassCache(buckets: map<string, seq<int>>, cache: map<string, Entry>, otherCache: map<string, Entry>, req: Request, now: int, reply: ProviderReply)
    requires req.route.Facts?
    ensures var s := Serve(buckets, cache, req, now, reply);
      && s.cache == cache
      && Serve(buckets, otherCache, req, now, reply).response == s.response
      && (s.providerCalled <==>
            req.body.Json? && Check(buckets, ClientOf(req), now).allowed
            && ParseAnimalRequest(req.body.value).Ok? && !PromptThrows(ParseAnimalRequest(req.body.value).value))
  {
    if req.body.Json? && Check(buckets, ClientOf(req), now).allowed {
      var o := FactsEndpoint(req.body.value, reply);
      assert Dispatch(cache, Facts, req.body.value, now, reply) == Routed(o, cache);
      assert Dispatch(otherCache, Facts, req.body.value, now, reply) == Routed(o, otherCache);
    }
  }

  /**
   * Two `/clues` requests for the same (animal, scientific name, language)
   * triple within the hour, from any clients, the first one missing the
   * cache.  The first is answered 200 exactly when its key and prompt can be
   * built and the reply is usable; then it called the provider, and the
   * second is answered the same from the cache without calling it.
   */
  lemma RepeatedCluesServedFromCache(
    buckets: map<string, seq<int>>, cache: map<string, Entry>,
    first: Request, t1: int, reply1: ProviderReply,
    second: Request, t2: int, reply2: ProviderReply)
    requires first.route.Clues? && second.route.Clues? && first.body.Json? && second.body.Json?
    requires ParseAnimalRequest(first.body.value).Ok? && ParseAnimalRequest(second.body.value).Ok?
    requires var r1 := ParseAnimalRequest(first.body.value).value;
      var r2 := ParseAnimalRequest(second.body.value).value;
      && r1.animalName == r2.animalName
      && SecondaryText(r1.scientificName) == SecondaryText(r2.scientificName)
      && Truthy(r1.isEnglish) == Truthy(r2.isEnglish)
    requires var key := CacheKeyOf(ParseAnimalRequest(first.body.value).value);
      key.None? || key.value !in cache || t1 >= cache[key.value].expiresAt
    requires t1 <= t2 < t1 + TtlMs
    requires Check(buckets, ClientOf(first), t1).allowed
    requires Check(Check(buckets, ClientOf(first), t1).buckets, ClientOf(second), t2).allowed
    ensures var s1 := Serve(buckets, cache, first, t1, reply1);
      var s2 := Serve(s1.buckets, s1.cache, second, t2, reply2);
      var r1 := ParseAnimalRequest(first.body.value).value;
      && (s1.response.status == 200 <==> CacheKeyOf(r1).Some? && !PromptThrows(r1) && Usable(reply1))
      && (s1.response.status == 200 ==>
            s1.providerCalled && !s2.providerCalled && s2.response == s1.response && s2.cache == s1.cache)
  {
    var r1 := ParseAnimalRequest(first.body.value).value;
    var r2 := ParseAnimalRequest(second.body.value).value;
    if CacheKeyOf(r1).None? {
      ThrowingKeyFails(buckets, cache, first, t1, reply1);
    } else {
      KeyDependsOnTriple(r1, r2);
      var key := CacheKeyOf(r1).value;
      CluesMissCallsProvider(buckets, cache, first, t1, reply1);
      if !PromptThrows(r1) && Usable(reply1) {
        var clues := Property(reply1.parsed.value, "clues");
        var s1 := Serve(buckets, cache, first, t1, reply1);
        assert s1.cache == Store(cache, key, clues, t1);
        StoreThenLookup(cache, key, clues, t1, t2);
        CluesHitServesCache(s1.buckets, s1.cache, second, t2, reply2);
      }
    }
  }

  const LoRequest: Request := Request(Clues, None, None, Json(Obj(map["animalName" := Str("lo"), "isEnglish" := Bool(false)])))
  const LoClues: JsValue := Arr([Str("a"), Str("b"), Str("c"), Str("d"), Str("e")])
  const LoReply: ProviderReply := Replied(Some("{\"clues\":[\"a\",\"b\",\"c\",\"d\",\"e\"]}"), Some(Obj(map["clues" := LoClues])))

  /**
   * The `animalName: "lo"` exchange on a fresh app: the stubbed reply is
   * answered and stored under "lo::::Swedish", and an immediate repeat is
   * answered the same from the cache without a second provider call.
   */
  lemma LoScenario(t: int)
    ensures var s1 := Serve(map[], map[], LoRequest, t, LoReply);
      var s2 := Serve(s1.buckets, s1.cache, LoRequest, t, LoReply);
      && s1.response == Response(200, Field("clues", LoClues)) && s1.providerCalled
      && s1.cache == map["lo::::Swedish" := Entry(LoClues, t + TtlMs)]
      && s2.response == s1.response && !s2.providerCalled
  {
    var s1 := LoFirstRequest(t);
    var id := ClientOf(LoRequest);
    assert |Recent(BucketOf(s1.buckets, id), t)| <= 1;
    assert Check(s1.buckets, id, t).allowed;
    CluesHitServesCache(s1.buckets, s1.cache, LoRequest, t, LoReply);
    var s2 := Serve(s1.buckets, s1.cache, LoRequest, t, LoReply);
    assert s2.response == Response(200, Field("clues", LoClues));
  }

  lemma LoFirstRequest(t: int) returns (s1: Step)
    ensures s1 == Serve(map[], map[], LoRequest, t, LoReply)
    ensures s1.response == Response(200, Field("clues", LoClues)) && s1.providerCalled
    ensures s1.cache == map["lo::::Swedish" := Entry(LoClues, t + TtlMs)]
    ensures BucketOf(s1.buckets, ClientOf(LoRequest)) == [t]
    ensures ParseAnimalRequest(LoRequest.body.value).Ok?
    ensures CacheKeyOf(ParseAnimalRequest(LoRequest.body.value).value) == Some("lo::::Swedish")
  {
    LoRequestKey();
    WindowResets(map[], ClientOf(LoRequest), t);
    CluesMissCallsProvider(map[], map[], LoRequest, t, LoReply);
    s1 := Serve(map[], map[], LoRequest, t, LoReply);
  }

  /** The "lo" body is accepted, asks for Swedish, has the key "lo::::Swedish" and a prompt that can be built. */
  lemma LoRequestKey()
    ensures ParseAnimalRequest(LoRequest.body.value) == Ok(AnimalRequest("lo", Undefined, Undefined, Bool(false)))
    ensures CacheKeyOf(ParseAnimalRequest(LoRequest.body.value).value) == Some("lo::::Swedish")
    ensures !PromptThrows(ParseAnimalRequest(LoRequest.body.value).value)
  {
    var req := AnimalRequest("lo", Undefined, Undefined, Bool(false));
    assert SecondaryText(Undefined) == Some("");
    assert Key("lo", "", Swedish) == "lo::::Swedish";
    assert CacheKeyOf(req) == Some("lo::::Swedish");
  }

  /** The Express app: the shared rate-limit and clue-cache maps and the request pipeline over them. */
  class App {
    const limiter: RateLimiter
    const cache: ClueCache

    ghost predicate Valid()
      reads this, limiter
    {
      limiter.Valid()
    }

    constructor ()
      ensures Valid() && fresh(limiter) && fresh(cache)
      ensures limiter.buckets == map[] && cache.entries == map[]
    {
      limiter := new RateLimiter();
      cache := new ClueCache();
    }

    /** Handle one request at time `now`; `reply` is what the provider answers if it is called. */
    method Handle(req: Request, now: int, reply: ProviderReply) returns (response: Response, providerCalled: bool)
      requires Valid()
      modifies limiter, cache
      ensures Valid()
      ensures Serve(old(limiter.buckets), old(cache.entries), req, now, reply)
           == Step(response, providerCalled, limiter.buckets, cache.entries)
    {
      if req.body.Malformed? {
        return BadJson, false;
      }
      var body := req.body.value;
      var clientId := ClientIdOf(req.forwardedFor, req.peerIp);
      var allowed := limiter.Admit(clientId, now);
      if !allowed {
        return TooManyRequests, false;
      }
      match req.route
      case Health =>
        response, providerCalled := Response(200, Field("status", Str("OK"))), false;
      case Chat =>
        var o := ChatEndpoint(body, reply);
        response, providerCalled := o.response, o.providerCalled;
      case Clues =>
        response, providerCalled := HandleClues(body, now, reply);
      case Facts =>
        var o := FactsEndpoint(body, reply);
        response, providerCalled := o.response, o.providerCalled;
      case Unrouted =>
        response, providerCalled := NotFound, false;
    }

    /** The `/clues` handler against the shared cache: validate, look up, and on a miss call, parse and store. */
    method HandleClues(body: JsValue, now: int, reply: ProviderReply) returns (response: Response, providerCalled: bool)
      modifies cache
      ensures CluesEndpoint(old(cache.entries), body, now, reply) == (Outcome(response, providerCalled), cache.entries)
    {
      var parsed := ParseAnimalRequest(body);
      if parsed.Err? {
        return ErrorResponse(400, parsed.error), false;
      }
      var key := CacheKeyOf(parsed.value);
      if key.None? {
        return CluesFailed, false;
      }
      var present := cache.Has(key.value, now);
      if present {
        var clues := cache.Get(key.value, now);
        return Response(200, Field("clues", clues)), false;
      }
      if PromptThrows(parsed.value) {
        return CluesFailed, false;
      }
      providerCalled := true;
      var clues := ReplyField(reply, "clues");
      if clues.None? {
        return CluesFailed, true;
      }
      cache.Set(key.value, clues.value, now);
      response := Response(200, Field("clues", clues.value));
    }
  }
}
