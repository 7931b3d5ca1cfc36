# A verified model of the ai-clue-server relay

`ai-clue-server/server.mjs` is a small Express app that sits between the
guessing-game front end and a chat-completion provider. Every request passes
the following layers, in order:

1. **JSON body parsing.** `express.json()` answers 400 for a body that is not
   valid JSON.
2. **A sliding-window rate limiter.** Each client id, taken from the first
   `x-forwarded-for` field or else the peer address, may make 10 admitted
   requests per 60 000 ms. Request 11 inside the window gets 429.
3. **One of four routes.**
   - `GET /health`
   - `POST /chat`: relays a message list to the provider.
   - `POST /clues`: validates an animal request, looks up an in-process cache
     keyed by `animalName::scientificName::language`, and on a miss calls the
     provider, parses its JSON reply and caches the `clues` member for one
     hour.
   - `POST /facts`: the same validation and provider call, but with no cache
     at all.

The Dafny project models that pipeline in seven modules.

| module | file | what it holds |
|---|---|---|
| `Wrappers` | `wrappers.dfy` | `Option` and `Result` |
| `JsValues` | `js_values.dfy` | JavaScript values as they reach the handlers, plus the pieces of JavaScript semantics the code relies on: truthiness, destructuring property access, `body \|\| {}`, template-literal string conversion |
| `ClientIds` | `client_ids.dfy` | the client id: `split(',')[0]`, the `\|\|` fallbacks, `String.prototype.trim` with its full white-space set |
| `RateLimit` | `rate_limit.dfy` | the bucket filter and the admission check, replays of many checks, and the `RateLimiter` class whose `buckets` map is the shared `RATE_LIMIT` |
| `Validation` | `validation.dfy` | the `/chat` and `/clues`/`/facts` body checks, the language choice and the cache key |
| `Cache` | `cache.dfy` | cache entries stamped with the instant their deletion timer fires, lookup and store, and the `ClueCache` class over the shared `clueCache` map |
| `Server` | `server.dfy` | routes, the whole request `Serve`, the `App` class, and the end-to-end lemmas |

The model is not pure.
- The two shared maps are fields of classes (`RateLimiter.buckets`,
  `ClueCache.entries`). Their methods (`Admit`, `Has`, `Get`, `Set`, `Delete`)
  and `App.Handle` update them in place.
- Each method is proved equal to a pure specification function (`Check`,
  `Lookup`, `Store`, `Serve`). The properties are then proved about those
  functions.

The provider is not modelled. Each request carries the reply the provider
would give if it were called (`ProviderReply`: the call throws, or it returns a
message content and the value `JSON.parse` makes of it). Every outcome records
whether the provider was called, so "served from cache" reads as "the provider
was not called".

### Behaviour of the code worth noting

- **Missing `clues` member.** A provider reply that parses but has no `clues`
  member is answered `{ clues: undefined }` and that `undefined` is cached for
  the hour (`server.mjs:121-125`). The model does the same, and
  `CluesMissCallsProvider` states it.
- **Bucket size.** A bucket never holds more than `RATE_LIMIT_MAX_REQUESTS`
  timestamps, because a refused request stores nothing. A refused request
  also does not write back the filtered bucket, so stale timestamps stay
  until the next admitted request (`RejectedLeavesStateAlone`). Buckets are
  never evicted.
- **`/chat` without a body.** The destructuring `const { messages } = req.body`
  throws when the body is `undefined` or `null`. The catch then answers
  500 "OpenAI call failed" without calling the provider. The error text for a
  non-array `messages` is "messages[] required".
- **Malformed JSON.** `express.json()` runs before the limiter, so malformed
  JSON is answered 400 without charging the client's bucket.
- **`isEnglish`.** It is read by truthiness: the string `"false"` asks for
  English. The `= false` default applies only when the field is `undefined`.
- **Template literals can throw.** `${v}` throws a TypeError when `v` is an
  object with its own `toString` member, such as `{"toString": 1}` from a JSON
  body, or an array holding one. A throwing `scientificName` makes `/clues`
  fail with 500 while the cache key is built, before the lookup
  (`server.mjs:69`). A throwing `scientificName` or `description` makes
  `/facts`, and `/clues` after a miss, fail with 500 while the prompt is built,
  before the provider call (`server.mjs:86-90`, `153-157`).
- **Replies without content.** `/clues` and `/facts` read
  `choices[0].message.content` without optional chaining. A reply with no
  first choice, or with a `null` content, therefore ends in the 500 of the
  catch. `/chat` instead answers `""` for it.

## Model

| member | source | states |
|---|---|---|
| `JsValues.Property` | ai-clue-server/server.mjs:65 | destructuring reads an object's own member when it has one, and `undefined` for a missing member or a non-object |
| `JsValues.OrEmptyObject` | ai-clue-server/server.mjs:65 | `req.body \|\| {}` keeps every truthy body as it is and turns every falsy one into `{}` |
| `JsValues.ToJsString` | ai-clue-server/server.mjs:69 | a template literal's `${v}` throws exactly when `v` is an object with its own `toString` member or an array holding such a value at any depth |
| `JsValues.JoinItems` | ai-clue-server/server.mjs:69 | joining array items throws exactly when converting one of the items throws |
| `ClientIds.LeadingSpaces` | ai-clue-server/server.mjs:31 | the count of leading white-space characters: all of them white space, and the next one not |
| `ClientIds.TrailingSpaces` | ai-clue-server/server.mjs:31 | the same at the end of the string |
| `ClientIds.Trim` | ai-clue-server/server.mjs:31 | `trim()` returns an unpadded substring, with only white space cut off on either side |
| `ClientIds.TrimStripsPadding` | ai-clue-server/server.mjs:31 | trim is fully determined: white space around an unpadded core trims to exactly that core |
| `ClientIds.TrimIdempotent` | ai-clue-server/server.mjs:31 | trimming twice is trimming once |
| `ClientIds.FirstField` | ai-clue-server/server.mjs:31 | `split(',')[0]` is the longest comma-free prefix, followed by a comma or the end |
| `ClientIds.FirstFieldOf` | ai-clue-server/server.mjs:31 | a comma-free field followed by a comma-led rest splits back to that field |
| `ClientIds.ClientIdOf` | ai-clue-server/server.mjs:31 | every client id is unpadded |
| `ClientIds.ClientIdFromForwardedFor` | ai-clue-server/server.mjs:31 | a non-empty first forwarded-for field is the client, trimmed; it holds no comma, and the peer address is ignored |
| `ClientIds.ClientIdFromPeer` | ai-clue-server/server.mjs:31 | with no usable forwarded-for field, a non-empty peer address is the client, trimmed |
| `ClientIds.ClientIdUnknown` | ai-clue-server/server.mjs:31 | with neither, every such request shares the bucket "unknown" |
| `ClientIds.BlankFirstFieldGivesEmptyId` | ai-clue-server/server.mjs:31 | a blank first field is truthy before trimming, so the id is "" and the peer address is not consulted |
| `RateLimit.Recent` | ai-clue-server/server.mjs:33 | the window filter never lengthens a bucket |
| `RateLimit.RecentCounts` | ai-clue-server/server.mjs:33 | the filter keeps each timestamp younger than 60 000 ms as often as it occurs, and drops every other one |
| `RateLimit.RecentAppend` | ai-clue-server/server.mjs:33 | the filter distributes over concatenation, so it keeps order |
| `RateLimit.RecentKeepsFresh` | ai-clue-server/server.mjs:33 | a bucket wholly inside the window is kept whole |
| `RateLimit.RecentDropsStale` | ai-clue-server/server.mjs:33 | a bucket wholly a window old is emptied |
| `RateLimit.AdmittedBucket` | ai-clue-server/server.mjs:33-35 | an admitted check stores the in-window timestamps followed by `now`: at most 10 of them, all inside the window |
| `RateLimit.RejectedLeavesStateAlone` | ai-clue-server/server.mjs:34 | a check is refused exactly when 10 or more timestamps are in the window, and then every bucket is left as it was |
| `RateLimit.OtherBucketsUnchanged` | ai-clue-server/server.mjs:35 | a check changes no other client's bucket and forgets no client |
| `RateLimit.CheckKeepsBounded` | ai-clue-server/server.mjs:33-35 | checks preserve the invariant that every bucket holds at most 10 timestamps |
| `RateLimit.Replay` | ai-clue-server/server.mjs:30-37 | replaying n checks yields n verdicts |
| `RateLimit.ReplayFirst` | ai-clue-server/server.mjs:30-37 | the first k checks of a replay yield k verdicts |
| `RateLimit.FirstAdmitted` | ai-clue-server/server.mjs:27 | the reference verdicts of a burst: request i (from 0) is admitted exactly when i < 10 |
| `RateLimit.ReplayPrefix` | ai-clue-server/server.mjs:30-37 | later checks never change earlier verdicts: the first j verdicts of a longer replay are those of the first j checks |
| `RateLimit.ReplayVerdict` | ai-clue-server/server.mjs:30-37 | the i-th verdict of a replay is the check of the i-th time against the buckets the earlier checks left |
| `RateLimit.BurstAdmitsFirstMax` | ai-clue-server/server.mjs:26-37 | for one new client and requests all within one window, the first 10 are admitted and every later one refused; the bucket then holds exactly the admitted times |
| `RateLimit.BurstPrefix` | ai-clue-server/server.mjs:26-37 | the same for every prefix of the burst, by induction |
| `RateLimit.PrefixInsideWindow` | ai-clue-server/server.mjs:33 | the stored prefix of a burst lies inside the window of its next request |
| `RateLimit.ReplayStepFresh` | ai-clue-server/server.mjs:33-35 | one more check against a bucket wholly inside the window admits exactly when fewer than 10 are stored, and appends the new time |
| `RateLimit.CheckFreshBucket` | ai-clue-server/server.mjs:33-35 | a check whose stored timestamps are all in the window counts the whole bucket |
| `RateLimit.EleventhRequestRefused` | ai-clue-server/server.mjs:26-34 | eleven requests inside one window: ten admitted, the eleventh refused |
| `RateLimit.WindowResets` | ai-clue-server/server.mjs:33-35 | once every stored timestamp is a full window old, the next request is admitted and the bucket restarts with it alone |
| `RateLimit.RateLimiter.constructor` | ai-clue-server/server.mjs:25 | the limiter starts with no buckets |
| `RateLimit.RateLimiter.Admit` | ai-clue-server/server.mjs:30-37 | the middleware's update of `RATE_LIMIT` equals `Check`: it admits exactly when fewer than 10 timestamps are in the window, then writes the filtered bucket plus `now`; otherwise it changes nothing; the bucket bound is kept |
| `Validation.ParseAnimalRequest` | ai-clue-server/server.mjs:65-66 | a `/clues` or `/facts` body is accepted exactly when `animalName` is a non-empty string, else "animalName required"; `scientificName` and `description` are the body's members, and `isEnglish` is its member, or `false` when that is `undefined` |
| `Validation.ParseChatRequest` | ai-clue-server/server.mjs:46-47 | `/chat` has no body exactly when it is `undefined` or `null`; its messages are accepted exactly when `messages` is an array, which is handed on as it is |
| `Validation.LanguageChoice` | ai-clue-server/server.mjs:68 | the language is English exactly when `isEnglish` is truthy, Swedish exactly when it is not |
| `Validation.LanguageDefaultsToSwedish` | ai-clue-server/server.mjs:65-68 | an accepted body without `isEnglish` gets the default `false`, hence Swedish |
| `Validation.LanguageIsTruthiness` | ai-clue-server/server.mjs:68 | the strings "false" and "0" ask for English; the number 0 and "" ask for Swedish |
| `Validation.SecondaryText` | ai-clue-server/server.mjs:69 | `${scientificName \|\| ''}` throws exactly when the scientific name's conversion throws |
| `Validation.CacheKeyOf` | ai-clue-server/server.mjs:69 | building the cache key throws exactly when the scientific name's conversion throws |
| `Validation.ScientificNameText` | ai-clue-server/server.mjs:69 | a non-empty string scientific name enters the key verbatim; every falsy one as nothing |
| `Validation.NumericScientificName` | ai-clue-server/server.mjs:69 | a numeric scientific name enters the key in decimal |
| `Validation.ArrayScientificName` | ai-clue-server/server.mjs:69 | an array scientific name enters the key joined by commas, with `null` items empty |
| `Validation.ThrowingScientificName` | ai-clue-server/server.mjs:69 | a scientific name with its own `toString` member, even nested in an array, makes the key throw; one with its own `valueOf` member reads "[object Object]" |
| `Validation.KeyDependsOnTriple` | ai-clue-server/server.mjs:69 | requests agreeing on name, scientific-name text and language share a key, whatever their descriptions |
| `Validation.KeyInjective` | ai-clue-server/server.mjs:69 | for colon-free animal names, equal keys come from equal (name, scientific-name text, language) triples |
| `Validation.ColonFreePrefix` | ai-clue-server/server.mjs:69 | the key's first "::" ends a colon-free animal name |
| `Validation.SuffixSplit` | ai-clue-server/server.mjs:69 | two concatenations with equally long ends split the same way; the seven-character language ends the key |
| `Validation.KeyParts` | ai-clue-server/server.mjs:69 | a key is the animal name followed by a colon-led rest, and past its "::" that rest is the remainder of the key |
| `Validation.KeyCollidesOnSeparator` | ai-clue-server/server.mjs:69 | an animal name containing "::" can share a key with a different animal |
| `Cache.Lookup` | ai-clue-server/server.mjs:70 | a lookup hits exactly for an entry whose hour has not run out, and then returns the stored value |
| `Cache.StoreThenLookup` | ai-clue-server/server.mjs:124-125 | a stored value is served for exactly one hour after the write, and not from then on |
| `Cache.StoreKeepsOtherKeys` | ai-clue-server/server.mjs:124 | a write affects no other key |
| `Cache.DeleteOfDueEntryUnobservable` | ai-clue-server/server.mjs:125 | the timer's delete, run once the entry is due, changes no later lookup, so lazy expiry matches the timer |
| `Cache.ClueCache.constructor` | ai-clue-server/server.mjs:24 | the cache starts empty |
| `Cache.ClueCache.Has` | ai-clue-server/server.mjs:70 | `has` is true exactly for an entry not yet due |
| `Cache.ClueCache.Get` | ai-clue-server/server.mjs:70 | `get` returns the live entry's value, and `undefined` otherwise |
| `Cache.ClueCache.Set` | ai-clue-server/server.mjs:124-125 | `set` plus the timer equals `Store`; the value is then served for the whole hour |
| `Cache.ClueCache.Delete` | ai-clue-server/server.mjs:125 | `delete` removes exactly that key |
| `Server.Dispatch` | ai-clue-server/server.mjs:41-182 | no route handler answers 429, and only `/clues` can change the cache |
| `Server.MalformedBodySkipsLimiter` | ai-clue-server/server.mjs:21 | an unparsable body gets 400 before the limiter, charging no bucket and calling nothing |
| `Server.RefusedRequestGoesNoFurther` | ai-clue-server/server.mjs:30-37 | a refused request gets 429 "Rate limit exceeded" and changes neither map; an admitted one is never answered 429 |
| `Server.HealthAndUnroutedAreCharged` | ai-clue-server/server.mjs:30-41 | `/health` and unmatched paths use up a rate-limit slot; health answers `{status: "OK"}`, unmatched paths 404 |
| `Server.MissingAnimalNameRefused` | ai-clue-server/server.mjs:65-66 | `/clues` and `/facts` answer 400 "animalName required" without calling the provider or touching the cache |
| `Server.ChatNeedsMessageArray` | ai-clue-server/server.mjs:44-60 | `/chat` calls the provider exactly when `messages` is an array; otherwise it answers 400, or 500 with no body |
| `Server.ChatRelaysContent` | ai-clue-server/server.mjs:49-58 | an accepted `/chat` relays the reply content (`""` when absent), or answers 500 when the call throws |
| `Server.ReplyField` | ai-clue-server/server.mjs:120-121 | `json.clues` (or `json.facts`) is available exactly for a usable reply (a first choice with content that parses to a non-`null` value), and is then that value's member |
| `Server.ThrowingKeyFails` | ai-clue-server/server.mjs:69 | a `/clues` request whose scientific name makes the key throw gets 500 "Failed to generate clues" before any lookup, with no provider call and no cache write |
| `Server.CluesHitServesCache` | ai-clue-server/server.mjs:69-70 | when the key can be built and holds a live entry, that entry is answered without calling the provider and without changing the cache |
| `Server.CluesMissCallsProvider` | ai-clue-server/server.mjs:70-130 | on a miss a throwing prompt gives 500 without a call; otherwise the provider is called, and a usable reply's `clues` member, `undefined` included, is answered and cached for 3 600 000 ms, while any other reply gives 500 "Failed to generate clues" and no write |
| `Server.RepeatedCluesServedFromCache` | ai-clue-server/server.mjs:69-127 | a first `/clues` miss is answered 200 exactly when its key and prompt can be built and the reply is usable; then a second `/clues` for the same triple within the hour, from any client, gets the same answer from the cache without a provider call |
| `Server.FactsBypassCache` | ai-clue-server/server.mjs:134-182 | `/facts` never writes the cache, answers the same whatever the cache holds, and calls the provider exactly for an admitted valid request whose prompt can be built |
| `Server.FactsAnswersFromReply` | ai-clue-server/server.mjs:153-180 | `/facts` answers 500 without a call when its prompt throws; otherwise it calls the provider and answers the usable reply's `facts` member, or 500 "Failed to generate facts" |
| `Server.LoFirstRequest` | ai-clue-server/server.mjs:63-127 | on a fresh app, `{animalName: "lo"}` calls the provider, stores the clues under "lo::::Swedish" and charges one slot |
| `Server.LoRequestKey` | ai-clue-server/server.mjs:65-69 | the body `{animalName: "lo", isEnglish: false}` is accepted, keyed "lo::::Swedish", and its prompt can be built |
| `Server.LoScenario` | ai-clue-server/server.mjs:63-127 | an immediate repeat of that request is answered the same from the cache, with no second call |
| `Server.App.constructor` | ai-clue-server/server.mjs:24-25 | the app starts with an empty limiter and an empty cache |
| `Server.App.Handle` | ai-clue-server/server.mjs:21-182 | handling a request updates the shared maps and answers exactly as `Serve` says, keeping the bucket bound |
| `Server.App.HandleClues` | ai-clue-server/server.mjs:63-132 | the `/clues` handler against the shared cache answers and updates exactly as `CluesEndpoint` says |

## Left out

- Process setup (`dotenv`, the port, `app.listen`, console logging): none of it affects a response.
- CORS (`server.mjs:17-20`): the origin check and preflight `OPTIONS` handling are left to the `cors` package. `OPTIONS` preflights are not modelled.
- `trust proxy` and how Express computes `req.ip`: the peer address is an input (`Request.peerIp`).
- The provider client and the prompt texts (`server.mjs:39`, `72-117`, `142-171`): the call is an oracle input (`ProviderReply`). Model names, temperatures and the prompt texts are not modelled, nor is what the provider does with them. Only whether building a prompt throws is modelled (`PromptThrows`).
- `JSON.parse`: its result is part of the oracle reply (`ProviderReply.parsed`), not computed from the content text.
- `Date.now()` and `setTimeout`: the clock is a parameter `now`, and the timer is the entry's `expiresAt` read lazily. `DeleteOfDueEntryUnobservable` shows this matches running the delete once it is due, for requests handled one at a time.
- Interleaving of concurrent requests across `await`: two concurrent misses on one key arm two timers. The older timer can then delete the newer entry early. This is not modelled.
- Express's default page bodies for a JSON syntax error and for an unmatched path: only the status codes (400, 404) are modelled.
- `JsValues.JsValue`: numbers are unbounded integers. Fractional numbers, infinities and `-0` are left out. So are the precision loss of integers above 2^53 and the exponent form (such as "1e+21") that `String` gives numbers of magnitude 10^21 or more; `ToJsString` prints every digit instead. `NaN` is kept as its own falsy value.
- `Server.Request`: routes are reduced to the four registered routes and "unrouted". A wrong method on a known path counts as unrouted. `HEAD` requests are left out: Express also answers `HEAD /health` from the `app.get` route, which the model would count as unrouted.
- One instant per request: `Serve` takes a single `now`. The limiter and the cache lookup do run at arrival, but the source writes the cache and arms the `setTimeout` only after the awaited provider call (`server.mjs:108-125`). The model stamps the entry with the arrival time, so "one hour after the write" in `StoreThenLookup` and `CluesMissCallsProvider` means one hour after the request arrived. The provider's latency is not modelled.
- Memory growth of the two maps: buckets are never evicted, in the code as in the model. The model states this (`OtherBucketsUnchanged` forgets no client) but proves no bound on the number of clients.
