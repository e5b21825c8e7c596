# A verified model of the LLM gateway

The gateway accepts OpenAI-style chat requests, picks a provider, relays the provider's answer and
meters it; a command line client reads the relayed stream. This project models the parts of it that
hold state or do arithmetic, in the form the code has (classes and loops where the code updates things
in place, functions where it computes), and proves what these parts promise over all inputs, all runs
and all interleavings.

`dafny verify dfyconfig.toml` checks everything. One file holds one component:

| file | component |
|---|---|
| `StreamEvents.dfy`, `Translator.dfy` | the Anthropic stream translator: what a stream means, read at once, and the incremental parser that refines it |
| `Proxy.dfy` | relaying one upstream body, and the fallback chain |
| `ClientParser.dfy` | the client's event-stream parser |
| `EndToEnd.dfy`, `FallbackPath.dfy`, `StreamFraming.dfy`, `Buffered.dfy`, `SampleCodec.dfy` | the whole path, over one relay and over a fallback chain from provider to client, its agreement with the buffered answer, and a concrete JSON codec that meets the assumed contract |
| `RateLimiter.dfy`, `LimiterHypotheses.dfy` | the Redis sliding window against its full admission history, and exactly what its bound rests on |
| `AuthCache.dfy`, `CacheInterleaving.dfy` | the auth cache: its code, and all interleavings of Get and Invalidate |
| `Registry.dfy` | breaker registry and client pool: their code, and double-checked creation as a step protocol |
| `Billing.dfy` | pricing, the metering use case, the card top-up, and concurrent credit transactions |
| `CreditBalance.dfy` | the reserve and settle machine |
| `Routing.dfy` | stable ranking, the gateway's in-place orderings, and model resolution in the backend |
| `ByteReader.dfy`, `DeviceLogin.dfy`, `Guardrails.dfy` | the async byte reader, the device-code polling loop, the guard chain |
| `EventStreamStandard.dfy` | what section 9.2.6 of the WHATWG HTML Standard reads off the lines of an event |
| `Text.dfy`, `Wrappers.dfy` | sequence, text and result helpers |

## How the model is built

Bytes and characters are both Dafny characters; a byte is the character with the same code. JSON, the
text decoder and the clock are parameters: encoding a chunk that is sent gives a one-line object that
decodes back to it, the decoder only ever adds text and is exact on whole streams of frames, and the n-th clock
reading is arbitrary. Nothing is asked of the decoder on other bytes, so it may drop a byte order mark. `SampleCodec` gives a
codec and a decoder that meet these contracts, and `StreamFraming.WholePathHappens` a run that meets all
hypotheses of the end-to-end theorem. Decimal and float quantities are reals. Redis, the
database, providers and timers are what they answer: each call takes the answers as arguments.

A method is proved equal to a specification function of the old state; the main results are lemmas
about those functions and about runs of step machines built from them. Concurrency is a step machine
with one step per lock operation, map access, load or SQL statement, and the results hold for every
sequence of steps.

Stable sorting is specified once (`Ranking.StableSort`). `Ranking.StableSortUnique` shows that sorted
order and stability leave one result only, so it stands for whatever the sort libraries do inside.

## What turned out to be false, and where the line is

- A stream that fails behind its status line leaves its frames in front of the fallback's answer
  (`Proxy.BrokenStreamStaysVisible`). The client gets the winner's bytes alone exactly when no earlier
  attempt streams a body from which a chunk is translated, or any byte passed through
  (`Proxy.OnlyTheWinnersBytes`), and its status exactly when the first attempt that reaches a body has
  that status (`Proxy.WinnersStatusIff`).
- An event's payload is the one of section 9.2.6 of the WHATWG HTML Standard exactly when the standard
  sees one data value at most, or no line is just `data` and the first value is not empty
  (`StreamEvents.DataAgreesWithStandard`); the client's is exactly when no line is just `data` or there
  is one value at most (`ClientParser.PayloadAgreesWithStandard`); the event name is unless a bare
  `event` line takes a name back (`StreamEvents.NameAgreesWithStandard`).
- Streamed and buffered answers have the same finish reason exactly when the upstream gives a stop
  reason: the buffered answer says "stop" for an empty one, the stream says nothing
  (`Buffered.StreamedAgreesWithBuffered`).
- Invalidating a key keeps later Gets from older answers exactly when no Get of it already holds an
  answer that is still young (`CacheInterleaving.InvalidateIff`).
- The breaker key is shared by two pairs exactly when a colon can move between provider and model
  (`Registry.KeyCollidesIff`).
- Under one steady clock the limiter keeps its bound, for every window and limit and however the run
  goes on, exactly when the members are distinct (`LimiterHypotheses.SafeIffDistinct`); with one member for
  all, any number of requests is admitted (`LimiterHypotheses.SharedMemberOverAdmits`).
- With gateway clocks up to `lag` behind the server's and up to `lead` ahead of it, the bound holds on
  intervals of a length exactly when the length is at most the window less lag and lead
  (`LimiterHypotheses.SkewCostsExactlyItself`).
- A device code is polled for behind its deadline exactly when no poll sent in time ends the loop
  (`DeviceLogin.LatePollIff`).
- The resolved chain is a prefix of the ranking exactly for a non-negative `fallback_max`
  (`AutoRouting.ChainIsPrefixIff`).
- Settling keeps `usable` defined exactly when the actual cost fits in the reservation and what else is
  usable (`CreditBalance.SettleKeepsUsableIff`).
- A top-up equals the amount asked for exactly for whole cents (`Pricing.CreditedAmount`).
- Splitting a guard chain in two gives the same report exactly when the second half neither restores
  the original text nor leaves the first half's rewriting alone (`Guardrails.ReportsAgreeIff`).

Where code and comments disagree the model follows the code: after `Close` a `Translate` still
translates (anthropic.go:140 calls it a no-op); `Close` does not flush a buffered event (adapter.go:41);
a lone CR CR is not an event boundary (api-client.ts:402 says it is tolerated); negative answers live
as long as positive ones and eviction takes any entry (cache.go:62 and :119); a soft cap refuses like a
hard one, with another error (entities.py:113); a redelivered payment event is credited again
(stripe_client.py:63).

## Model

| member | source | states |
|---|---|---|
| Translator.AnthropicStreamTranslator.Translate | gateway-go/internal/repository/adapters/anthropic.go:145-171 | One call turns the carried-over state and the new bytes into the specified state, error and frames, in place, and writes nothing else |
| Translator.AnthropicStreamTranslator.ConsumeFieldLine | gateway-go/internal/repository/adapters/anthropic.go:174-187 | A field line sets the event name or extends the payload; every other line is ignored |
| Translator.AnthropicStreamTranslator.Dispatch | gateway-go/internal/repository/adapters/anthropic.go:206-224 | A finished event has exactly its specified meaning: chunks written, an error chunk included, identity set, error returned |
| Translator.AnthropicStreamTranslator.HandleMessageStart | gateway-go/internal/repository/adapters/anthropic.go:226-235 | The start event sets id, model and one fresh clock reading and emits the role chunk; an undecodable one changes nothing |
| Translator.AnthropicStreamTranslator.HandleContentBlockDelta | gateway-go/internal/repository/adapters/anthropic.go:237-247 | Only a non-empty text delta emits a chunk, with its text |
| Translator.AnthropicStreamTranslator.HandleMessageDelta | gateway-go/internal/repository/adapters/anthropic.go:249-258 | Only a stop reason emits a chunk, with the mapped finish reason |
| Translator.AnthropicStreamTranslator.WriteChunk | gateway-go/internal/repository/adapters/anthropic.go:261-290 | Appends exactly one frame holding the encoded chunk and marks the role as emitted |
| Translator.AnthropicStreamTranslator.Close | gateway-go/internal/repository/adapters/anthropic.go:196-203 | The first Close writes one [DONE] frame, later ones nothing; parse state is untouched |
| Translator.DrainLeavesNoLine | gateway-go/internal/repository/adapters/anthropic.go:148-154 | Between successful calls the carry-over is exactly what follows the last line feed |
| Translator.DrainAppend | gateway-go/internal/repository/adapters/anthropic.go:149-170 | Bytes appended to a buffer are looked at only after the buffer is drained: draining commutes with appending |
| Translator.TranslateIgnoresCuts | gateway-go/internal/repository/adapters/anthropic.go:145-171 | For every split of the input the calls together give the chunks and error of one call on the whole, and its state when there is no error |
| Translator.DrainIsOneShot | gateway-go/internal/repository/adapters/anthropic.go:145-187 | The incremental parser with any open event agrees with splitting lines, grouping at blank lines and folding the events |
| Translator.TranslateIsOneShot | gateway-go/internal/repository/adapters/anthropic.go:145-224 | However a stream is cut, output and error are the one-shot translation's, and the state is the unfinished line and event |
| StreamEvents.FoldSucceedsIff | gateway-go/internal/repository/adapters/anthropic.go:226-258 | A translation succeeds if and only if every payload it needs decodes |
| StreamEvents.ContentIsDeltaText | gateway-go/internal/repository/adapters/anthropic.go:237-247 | The content of the emitted chunks is the concatenated text of the text deltas |
| StreamEvents.StopReasons | gateway-go/internal/repository/adapters/anthropic.go:418-429 | max_tokens finishes with "length", tool_use with "tool_calls", everything else with "stop" |
| StreamEvents.ErrorEvent | gateway-go/internal/repository/adapters/anthropic.go:217-218 | Behind any events that decode, an error event that has a payload, decodable or not, adds exactly one chunk, whose finish reason is "error" |
| StreamEvents.SilentChangesNothing | gateway-go/internal/repository/adapters/anthropic.go:206-224 | Empty and unknown events can be taken out of a stream anywhere without changing its translation |
| StreamEvents.FailsAtFirst | gateway-go/internal/repository/adapters/anthropic.go:226-258 | A translation fails with the name of the first event whose payload does not decode, behind the chunks of those in front of it |
| StreamEvents.DecodesIff | gateway-go/internal/repository/adapters/anthropic.go:226-258 | Exactly the start, delta and stop events that have a payload have to decode, each as its own kind |
| StreamEvents.DataAgreesWithStandard | gateway-go/internal/repository/adapters/anthropic.go:179-185 | An event's payload is the WHATWG one if and only if the standard sees one data value at most, or no line is just `data` and the first value is not empty |
| StreamEvents.NameAgreesWithStandard | gateway-go/internal/repository/adapters/anthropic.go:175-178 | The event name is the WHATWG one if and only if the last event field is not a bare `event`, or the last line that gives a name gives an empty one |
| StreamEvents.StandardDiffers | gateway-go/internal/repository/adapters/anthropic.go:179-185 | A trailing bare `data` line and a leading empty value are lost |
| StreamFraming.FramingRoundTrip | gateway-go/internal/repository/adapters/anthropic.go:145-187 | Events framed with LF or CR LF are read back unchanged |
| StreamFraming.WholePath | cli/src/repository/api-client.ts:389-430 | A framed message, read in any pieces, relayed, received in any pieces and parsed has the buffered answer's content, and its finish reason exactly when there is a stop reason |
| StreamFraming.WholePathHappens | gateway-go/internal/service/proxy/proxy.go:132-149 | A framed sample message, read in one piece at either end, meets every hypothesis of the whole path |
| Buffered.ContentTextLoop | gateway-go/internal/repository/adapters/anthropic.go:408-416 | The loop concatenates the text blocks in order and skips all others |
| Buffered.NormalizeResponse | gateway-go/internal/repository/adapters/anthropic.go:69-94 | The completion carries id, model, time, content, the finish reason by its three cases and a token total that adds up |
| Buffered.StreamedAgreesWithBuffered | gateway-go/internal/repository/adapters/anthropic.go:226-258 | For any blocks cut into any deltas the stream succeeds and has the buffered content; finish reasons agree if and only if the stop reason is not empty |
| Buffered.StreamedChunks | gateway-go/internal/repository/adapters/anthropic.go:226-290 | A message is streamed as exactly its role chunk, one chunk per non-empty text delta in order, and one finish chunk when there is a stop reason |
| Buffered.StreamedIdentity | gateway-go/internal/repository/adapters/anthropic.go:226-273 | Only the first chunk announces the assistant; every chunk carries the message's id and model and one clock reading |
| Proxy.StreamResponse | gateway-go/internal/service/proxy/proxy.go:132-149 | On any sequence of reads, empty ones and data with EOF included, the client gets the one-shot translation's frames, then [DONE] exactly when EOF is reached without error |
| Proxy.WriteChunk | gateway-go/internal/service/proxy/proxy.go:151-162 | An empty read changes nothing; any other is one translator call |
| Proxy.FinishStream | gateway-go/internal/service/proxy/proxy.go:164-172 | Finishing writes the [DONE] frame once |
| Proxy.RelayStops | gateway-go/internal/service/proxy/proxy.go:136-148 | Where the read loop stops, what it wrote and returns is the relay of the whole body |
| Proxy.LaterReadsUnseen | gateway-go/internal/service/proxy/proxy.go:138-140 | A translation error on the reads so far is the error of the whole body: later reads cannot matter |
| Proxy.ReceivedIsReads | gateway-go/internal/service/proxy/proxy.go:132-149 | What is received is the data of the reads up to the first that ends the body, in order |
| Proxy.RelaySucceedsIff | gateway-go/internal/service/proxy/proxy.go:132-149 | A relay has no error if and only if the body ends with EOF and all events in it decode |
| Proxy.Gateway.ChatCompletion | gateway-go/internal/service/proxy/proxy.go:59-85 | The breakers called are those of the targets up to the first success, in order, each once, targets without an adapter skipped; bytes, status and error are those of these targets |
| Proxy.Gateway.Execute | gateway-go/internal/service/proxy/proxy.go:74-77 | One call of the target's breaker: it rejects without a byte written, or its result is the call's |
| Proxy.Gateway.Send | gateway-go/internal/service/proxy/proxy.go:87-127 | One attempt: which error wins, that 429 and statuses from 500 up are retried, and that nothing reaches the client before the status line |
| Proxy.Gateway.Forward | gateway-go/internal/service/proxy/proxy.go:174-185 | Buffered bodies are written whole or not at all; streamed ones are relayed |
| Proxy.OnlyTheWinnersBytes | gateway-go/internal/service/proxy/proxy.go:67-84 | The client's bytes are the winner's alone if and only if no earlier attempt streams a body of which something is translated or passed on |
| Proxy.FailedLeavesBytesIff | gateway-go/internal/service/proxy/proxy.go:87-127 | A failing target has written something if and only if its attempt streams a body of which something is translated or passed on |
| Proxy.StatusDecides | gateway-go/internal/service/proxy/proxy.go:116-118 | Behind a connection, 429 and every status from 500 up fails without a status line or a byte; every other status is the one sent |
| Proxy.EarlyFailures | gateway-go/internal/service/proxy/proxy.go:68-115 | Which of the five earlier failures occurs, in order of precedence, and that nothing is sent then |
| Proxy.WinnerAnswered | gateway-go/internal/service/proxy/proxy.go:67-127 | A winner has an adapter and a configuration, was let through by its breaker, and was answered with a status below 500 other than 429 |
| Proxy.BufferedAnswer | gateway-go/internal/service/proxy/proxy.go:174-185 | A buffered answer is the normalised body for Anthropic and the body itself otherwise; a body that cannot be read or normalised sends no byte |
| Proxy.PassedThrough | gateway-go/internal/service/proxy/proxy.go:132-149 | A streamed body of any other provider reaches the client byte for byte, up to where it breaks off |
| Proxy.CleanFallback | gateway-go/internal/service/proxy/proxy.go:67-127 | If every failing send fails before the status line, status and bytes are the first success's |
| Proxy.WinnersStatusIff | gateway-go/internal/service/proxy/proxy.go:67-127 | The client's status is that of the first attempt that reaches a body; it is the winner's if and only if these two are equal |
| Proxy.BrokenStreamStaysVisible | gateway-go/internal/service/proxy/proxy.go:120-126 | A stream that breaks off leaves its frames in front of the fallback's answer |
| ClientParser.IndexOfEventBoundary | cli/src/repository/api-client.ts:432-438 | The index is the first blank line in either spelling, -1 exactly when there is none |
| ClientParser.StripAtBoundary | cli/src/repository/api-client.ts:406 | At a boundary the stripping pattern removes that boundary and nothing behind it |
| ClientParser.BoundaryStays | cli/src/repository/api-client.ts:432-438 | Appending text never moves the first boundary nor changes its length |
| ClientParser.ExtractDataPayload | cli/src/repository/api-client.ts:440-451 | The loop joins the values of all data lines with line feeds; no data line gives no payload |
| ClientParser.PayloadAgreesWithStandard | cli/src/repository/api-client.ts:440-451 | The payload is the WHATWG one if and only if no line is just `data` or there is one value at most |
| ClientParser.DrainAppend | cli/src/repository/api-client.ts:404-417 | Draining a longer buffer is draining the shorter one and then its rest with the new text |
| ClientParser.DrainThenFlush | cli/src/repository/api-client.ts:403-429 | Draining and flushing the rest reads the blocks of the whole text in order up to [DONE] |
| ClientParser.StopsAtDone | cli/src/repository/api-client.ts:410 | Nothing behind the [DONE] event is parsed |
| ClientParser.BlankHasNoPayload | cli/src/repository/api-client.ts:420 | The trim guard loses nothing: blank text has no payload |
| ClientParser.ConsumeEvents | cli/src/repository/api-client.ts:404-417 | The inner loop ends, and yields exactly the complete events of the buffer |
| ClientParser.ParseSseChunks | cli/src/repository/api-client.ts:389-430 | What is yielded depends on the concatenated chunks only: it is the one-shot parse of the whole text |
| EndToEnd.DecodedConcat | cli/src/repository/api-client.ts:395-400 | Decoding a byte stream piece by piece gives the text of the whole, however it is cut |
| EndToEnd.ParseFrames | cli/src/repository/api-client.ts:404-417 | Parsing written frames yields exactly their chunks, in order, before whatever follows |
| EndToEnd.EndToEnd | cli/src/repository/api-client.ts:389-430 | Any upstream body in any reads, relayed and re-cut in any way: the client yields exactly the translator's chunks, and ignores what follows [DONE] |
| EndToEnd.EndToEndText | gateway-go/internal/service/proxy/proxy.go:132-172 | When all payloads decode, the client's content is the upstream's text-delta text |
| EndToEnd.ErrorReachesClient | gateway-go/internal/repository/adapters/anthropic.go:217-218 | When the upstream ends by reporting an error, the last finish reason the client reads is "error" |
| EndToEnd.MalformedIsSkipped | cli/src/repository/api-client.ts:412-416 | An event whose payload does not parse is skipped, and what follows it is still read |
| EndToEnd.UnterminatedIsRead | cli/src/repository/api-client.ts:419-429 | An event that the text ends behind, without a blank line, is still read |
| EndToEnd.CrLfIsRead | cli/src/repository/api-client.ts:432-438 | An event whose lines end in CR LF is read as one whose lines end in LF |
| EndToEnd.NoDataIsSkipped | cli/src/repository/api-client.ts:440-451 | A line of any other field, or a comment, yields nothing, and what follows it is still read |
| FallbackPath.ChainEndToEnd | gateway-go/internal/service/proxy/proxy.go:59-85 | A streamed request over Anthropic targets, falling back in any way: the client reads the chunks of every tried body, in order, and ignores what follows a success |
| FallbackPath.ChainBytes | gateway-go/internal/service/proxy/proxy.go:67-84 | The bytes of all tried targets are the frames of their chunks, with [DONE] exactly behind a success |
| SampleCodec.ParseEncode | gateway-go/internal/repository/adapters/anthropic.go:275-285 | The sample encoding of every chunk decodes back to it |
| SampleCodec.ContractsCanBeMet | gateway-go/internal/repository/adapters/anthropic.go:275-285 | The contracts assumed of encoder, decoder and client have an instance |
| RateLimiter.RedisLimiter.Eval | gateway-go/internal/service/ratelimit/limiter.go:70-77 | The script run in place replies and leaves the bucket as specified, and touches no other key |
| RateLimiter.RedisLimiter.Check | gateway-go/internal/service/ratelimit/limiter.go:80-109 | Without a policy nothing is counted; with one the reply is the script's and Remaining lies in [0, limit) |
| RateLimiter.ExpiryIsUnseen | gateway-go/internal/service/ratelimit/limiter.go:74 | The key is expired only when every member has left the window |
| RateLimiter.PruningIsTheWindow | gateway-go/internal/service/ratelimit/limiter.go:70-71 | After expiry and pruning the set's size is the number of admissions in the window of the full history |
| RateLimiter.ScriptRefines | gateway-go/internal/service/ratelimit/limiter.go:70-77 | One script run decides as the full history does and keeps the set in step with it |
| RateLimiter.SameDecisions | gateway-go/internal/service/ratelimit/limiter.go:63-78 | Over every orderly run, pruning and expiry cannot be observed |
| RateLimiter.AtMostLimitPerWindow | gateway-go/internal/service/ratelimit/limiter.go:63-78 | Whatever the instant t, at most limit requests of a run are admitted in (t-window, t], by the script as by the full history |
| RateLimiter.RefusedExactlyWhenFull | gateway-go/internal/service/ratelimit/limiter.go:71-77 | Each request is refused exactly when limit earlier admissions lie in its window; else Remaining is what is left |
| RateLimiter.ResetAtIsHonoured | gateway-go/internal/service/ratelimit/limiter.go:75-77 | At or after ResetAt with no admission in between, a request is allowed with Remaining = limit-1 |
| RateLimiter.CountsHalfOpen | gateway-go/internal/service/ratelimit/limiter.go:70 | The window is half open: an admission exactly one window old no longer counts, one at the present instant does |
| LimiterHypotheses.SharedMemberOverAdmits | gateway-go/internal/service/ratelimit/limiter.go:91 | Of n requests that share a member all n are admitted, in one window, under any limit of two or more |
| LimiterHypotheses.SkewedClockOverAdmits | gateway-go/internal/service/ratelimit/limiter.go:90 | With clocks of this lag and lead a run has three admissions in an interval longer than the window less both, under a limit of two |
| LimiterHypotheses.SafeIffDistinct | gateway-go/internal/service/ratelimit/limiter.go:63-78 | Under one steady clock the bound holds for every window, limit and continuation with new members if and only if the members are distinct |
| LimiterHypotheses.SkewCostsExactlyItself | gateway-go/internal/service/ratelimit/limiter.go:63-78 | With clocks of this lag and lead the bound holds over all runs and limits on intervals of a length if and only if it is at most the window less both |
| AuthCache.Cache.NewCache | gateway-go/internal/repository/auth/cache.go:74-91 | A cache is refused exactly for a non-positive size or no loader, and starts empty |
| AuthCache.Cache.Get | gateway-go/internal/repository/auth/cache.go:94-125 | An entry younger than the ttl is served and nothing changes; otherwise the first non-miss decides, an all-miss is answered and stored as invalid metadata, a hard error stores nothing |
| AuthCache.Cache.Invalidate | gateway-go/internal/repository/auth/cache.go:128-132 | Removes that key and nothing else |
| AuthCache.Cache.PutEntry | gateway-go/internal/repository/auth/cache.go:142-154 | Stores the entry, evicting at most one other, and never exceeds the capacity |
| AuthCache.PutBounded | gateway-go/internal/repository/auth/cache.go:147-153 | Storing into a map within capacity stays within capacity, whichever entry is evicted |
| AuthCache.PutStores | gateway-go/internal/repository/auth/cache.go:142-154 | The entry is stored; no other entry changes, and none but the evicted one disappears, that one only at capacity |
| AuthCache.ResolveIsFirstAnswer | gateway-go/internal/repository/auth/cache.go:104-124 | The loaders amount to a miss if and only if all of them miss, otherwise to the first answer that is not a miss |
| CacheInterleaving.InvStep | gateway-go/internal/repository/auth/cache.go:94-154 | Every step of every thread keeps entries sound, in-flight answers sound and the map bounded |
| CacheInterleaving.ServedIsFreshAndLoaded | gateway-go/internal/repository/auth/cache.go:94-125 | In every interleaving an answer is what the chain gave for that key, and one from the map is younger than the ttl |
| CacheInterleaving.ValidWasAHit | gateway-go/internal/repository/auth/cache.go:94-125 | In every interleaving an answer with valid metadata was given by some loader as a hit for that key |
| CacheInterleaving.ChainIsFirstHit | gateway-go/internal/repository/auth/cache.go:104-124 | The answer of the chain is that of its first loader with a hit, and invalid when there is none |
| CacheInterleaving.InvalidateIff | gateway-go/internal/repository/auth/cache.go:128-132 | After Invalidate, later Gets are served only newer loads in every continuation if and only if no Get of the key already holds a young answer |
| CacheInterleaving.CacheIsTransparent | gateway-go/internal/repository/auth/cache.go:94-154 | With fixed loaders every reachable state holds and has served only what the uncached chain returns |
| CacheInterleaving.EveryGetIsTheChain | gateway-go/internal/repository/auth/cache.go:94-154 | Over any history of expiry, eviction, negative entries and invalidation, each Get returns the uncached chain's answer and the map stays within capacity |
| CacheInterleaving.AloneIsGet | gateway-go/internal/repository/auth/cache.go:94-125 | A Get that runs alone has the sequential Get's effect: hit, hard error, or the chain's answer stored and returned |
| Registry.Breakers.For | gateway-go/internal/service/circuitbreaker/registry.go:37-56 | Returns the key's breaker, creating one only when missing, and changes no other entry |
| Registry.ClientPool.For | gateway-go/internal/service/proxy/pool.go:29-60 | Returns the provider's client, built from its configuration or from none, creating one only when missing, and changes no other entry |
| Registry.Client.constructor | gateway-go/internal/service/proxy/pool.go:41-67 | Limits are the configured ones where positive and otherwise 60 seconds, 100 and 50 connections, so always positive |
| Registry.KeyCollidesIff | gateway-go/internal/service/circuitbreaker/registry.go:38 | Two pairs share a key if and only if they are equal or a colon moved between provider and model |
| Registry.KeyInjective | gateway-go/internal/service/circuitbreaker/registry.go:38 | For providers without a colon the key determines the pair |
| Registry.ColonsCollide | gateway-go/internal/service/circuitbreaker/registry.go:38 | Two different pairs with one key |
| DoubleCheckedCreation.InvStep | gateway-go/internal/service/circuitbreaker/registry.go:39-55 | Every step of every thread keeps the lock discipline, the map and the created objects in step |
| DoubleCheckedCreation.CreatedOnce | gateway-go/internal/service/circuitbreaker/registry.go:45-55 | In every interleaving at most one object is created per key |
| DoubleCheckedCreation.SameObjectForSameKey | gateway-go/internal/service/proxy/pool.go:30-60 | All calls with one key return one object |
| DoubleCheckedCreation.EntriesStay | gateway-go/internal/service/circuitbreaker/registry.go:48-55 | Entries are never overwritten or removed |
| DoubleCheckedCreation.MutualExclusion | gateway-go/internal/service/circuitbreaker/registry.go:45-46 | A writer is alone with the map |
| DoubleCheckedCreation.AloneIsFor | gateway-go/internal/service/circuitbreaker/registry.go:37-56 | A call that runs alone returns the registered object and changes nothing, or creates, registers and returns one |
| Pricing.CostIsLinear | backend-python/app/service/domain/value_objects.py:55-65 | Metering a list of requests costs the price of their summed token counts, whichever tiers are set |
| Pricing.ExactPrice | backend-python/app/service/domain/value_objects.py:55-65 | A million times the price is the input and output counts times their prices plus those of each tier that is set; a negative price is an error |
| Pricing.PerMillion | backend-python/app/service/domain/value_objects.py:55-65 | A million tokens of one kind cost exactly that kind's price; a kind without a price costs nothing |
| Pricing.CountsNeverRaise | backend-python/app/service/domain/value_objects.py:14-19 | Non-negative prices and counts never make an invalid amount |
| Pricing.CreditedAmount | backend-python/app/repository/billing/stripe_client.py:38 | What is charged and credited is within half a cent of the amount asked for, and equal to it if and only if it is whole cents |
| Metering.SqlUnitOfWork.DeductAtomic | backend-python/app/repository/credits.py:43-52 | Deducts exactly when the row exists and covers the amount; otherwise the view is unchanged |
| Metering.SqlUnitOfWork.Exit | backend-python/app/repository/uow.py:35-47 | Leaving the block closes the session and publishes nothing |
| Metering.SqlUnitOfWork.Commit | backend-python/app/repository/uow.py:49-51 | Publishes the session's view |
| Metering.BillingService.Meter | backend-python/app/service/billing_service.py:31-54 | Success deducts the cost by the price list, nothing on a cache hit, and records the usage, together; every failure, of any of the three statements or of the guard, leaves both tables as they were; which outcome occurs, and when |
| TopUps.StripeClient.CreditOrg | backend-python/app/repository/billing/stripe_client.py:81-98 | A payment event raises the named organisation's balance by its cents and touches nothing else |
| CreditTransactions.InvStep | backend-python/app/repository/credits.py:43-52 | Every statement of every transaction keeps balances non-negative and accounted for |
| CreditTransactions.CreditsAreConserved | backend-python/app/service/billing_service.py:31-54 | In every interleaving a balance is its start plus top-ups minus recorded costs, and never negative |
| CreditTransactions.EveryRunIsSerial | backend-python/app/service/billing_service.py:31-54 | Every interleaving commits what its committed transactions do one at a time in commit order, each metering affordable where it is applied; one that fails leaves no balance change and no record, whatever runs beside it |
| CreditTransactions.AbortedLeavesNothing | backend-python/app/repository/uow.py:35-47 | A metering that is aborted behind any of its statements, with no other between them, leaves the whole state as it was, row lock included |
| CreditTransactions.AloneIsMeter | backend-python/app/service/billing_service.py:31-54 | A transaction that runs alone has the sequential use case's effect |
| CreditTransactions.NoOverspend | backend-python/app/repository/credits.py:43-52 | Recorded costs never exceed what was there plus what was topped up |
| CreditBalance.CreditBalance.AssertCanSpend | backend-python/app/service/domain/entities.py:107-113 | Passes exactly when what is not reserved covers the amount; which error is raised otherwise |
| CreditBalance.CreditBalance.Reserve | backend-python/app/service/domain/entities.py:115-119 | Moves the amount to reserved, or raises and changes nothing |
| CreditBalance.CreditBalance.Settle | backend-python/app/service/domain/entities.py:121-125 | Releases the reservation and takes the actual cost |
| CreditBalance.SettleKeepsUsableIff | backend-python/app/service/domain/entities.py:103-125 | Usable stays defined if and only if the cost fits in the reservation and what else is usable |
| CreditBalance.ReservationsNeverOverspend | backend-python/app/service/domain/entities.py:103-125 | In every interleaving reserved is the sum of the outstanding reservations and within available, and charges stay within the starting balance |
| Ranking.SortIsStable | backend-python/app/service/routing/strategies.py:37-42 | Elements of equal key keep their order |
| Ranking.StableSortUnique | gateway-go/internal/service/strategies/cost.go:28-31 | A sorted arrangement that keeps the order of equal keys is the only one |
| Ranking.SortFilterCommute | backend-python/app/service/routing/config.py:64-82 | Filtering a stable ranking is ranking the filtered list |
| GatewayStrategies.SliceStable | gateway-go/internal/service/strategies/cost.go:28-31 | The in-place sort leaves the array stably sorted |
| GatewayStrategies.CostOrder | gateway-go/internal/service/strategies/cost.go:25-33 | A new array in ascending cost, equal costs in the argument's order; the argument is not touched |
| GatewayStrategies.LatencyOrder | gateway-go/internal/service/strategies/latency.go:25-33 | A new array in descending score, equal scores in the argument's order; the argument is not touched |
| AutoRouting.FilterPool | backend-python/app/service/routing/config.py:51-82 | The loop returns exactly the entries that survive, in pool order, each within both floors |
| AutoRouting.SurvivesIff | backend-python/app/service/routing/config.py:65-81 | An entry survives if and only if it meets each hint, the quality floor and the latency cap |
| AutoRouting.ResolveModel | backend-python/app/repository/grpc/routing_servicer.py:42-90 | The sentinel exactly for an empty pool, an error exactly for a strategy other than the three, else the best candidate by the strategy's own field and the truncated rest, in that order |
| AutoRouting.ChainIsPrefixIff | backend-python/app/repository/grpc/routing_servicer.py:69-71 | The chain is the first 1+fallback_max of the ranking if and only if fallback_max is not negative |
| AutoRouting.RankingCommutesWithFiltering | backend-python/app/service/routing/config.py:64-82 | Ranking the survivors is keeping the survivors of the ranked pool |
| AutoRouting.PrimaryIsOptimal | backend-python/app/service/routing/strategies.py:37-58 | The primary has the least key, and is the first such in pool order |
| AutoRouting.StrategiesPrefer | backend-python/app/service/routing/strategies.py:37-58 | "cost" prefers the lowest price, "latency" the lowest latency, "quality" the highest quality, for the primary and along the chain |
| AutoRouting.NegativeSlice | backend-python/app/repository/grpc/routing_servicer.py:71 | A negative fallback_max drops that many candidates from the end of the chain |
| AutoRouting.StricterIsNoBetter | backend-python/app/service/routing/config.py:65-81 | Asking for more flags, a geo or fewer residencies never gives a better-ranked primary |
| ByteReader.AsyncIterReader.Read | backend-python/app/repository/storage/s3_client.py:77-90 | A read answers what a file of the unread bytes would, however they are chunked, and leaves exactly the unneeded chunks unpulled |
| ByteReader.PullsOnlyWhatItNeeds | backend-python/app/repository/storage/s3_client.py:84-88 | The number of chunks pulled is the least that will do |
| ByteReader.ReadsConserveBytes | backend-python/app/repository/storage/s3_client.py:77-90 | Over any series of reads, answers and rest are the original bytes |
| ByteReader.ReadsAreExact | backend-python/app/repository/storage/s3_client.py:77-90 | A read of n answers n bytes unless the answers so far are then the whole source; a negative size gives all the rest |
| DeviceLogin.Login | cli/src/api/login.ts:74-99 | The loop ends, makes exactly the polls its schedule says, each an interval behind the last answer; the outcome is that of the last one, and no earlier one was final |
| DeviceLogin.PollingIsPaced | cli/src/api/login.ts:87-98 | The interval is the first one plus 5000 ms per slow_down, never shrinks, and separates every two polls |
| DeviceLogin.PollsAreFew | cli/src/api/login.ts:75-98 | n polls need (n-1)*I within the lifetime, and (n-1)*I + 2500*(n-1)*(n-2) when all but the last are told to slow down |
| DeviceLogin.OnlyTheLastPollCanBeLate | cli/src/api/login.ts:81-88 | Every poll but the last is sent before the code expires |
| DeviceLogin.LatePollIff | cli/src/api/login.ts:81-97 | A poll is sent behind the deadline if and only if the loop is entered in time and no poll sent by the deadline gets a final reply or an answer behind it |
| DeviceLogin.LatePollIffUnanswered | cli/src/api/login.ts:81-97 | With immediate answers: if and only if no poll sent by the deadline gets a final reply |
| DeviceLogin.ExpiredMeansAnsweredLate | cli/src/api/login.ts:81-84 | The login expires if and only if the lifetime is negative, or the last answer came behind the deadline and was not final |
| DeviceLogin.ALatePollIsSent | cli/src/api/login.ts:81-88 | A code that lives shorter than the first sleep is polled for behind its deadline, and can still log in there |
| Guardrails.Run | backend-python/app/service/guardrails/pipeline.py:46-57 | A block is the first blocking guard's, on the text as rewritten before it; otherwise the report carries the rewritten text, and says whether it was changed |
| Guardrails.RedactionIsPassedOn | backend-python/app/service/guardrails/pipeline.py:50-54 | A guard that redacts without blocking hands its text to the rest of the chain |
| Guardrails.ThroughConcat | backend-python/app/service/guardrails/pipeline.py:49-54 | Running g1 + g2 is running g1 and then g2 on the rewritten text |
| Guardrails.PipelinesCompose | backend-python/app/service/guardrails/pipeline.py:46-57 | Two pipelines in a row block alike, for the same reason, and leave the same text as one |
| Guardrails.ReportsAgreeIff | backend-python/app/service/guardrails/pipeline.py:55-57 | Their reports are equal if and only if g1 changed nothing, or g2 changed the text to something other than the original |

## Left out

- HTTP, gRPC, Redis, Postgres and Stripe transports: each is an atomic step or an argument.
- Failing or partial writes to the client, and flushing: a write always succeeds, so the error returns for it are not modelled.
- Go's JSON package and the client's text decoder: parameters with the contracts above; a multi-byte character split between chunks is covered by the decoder contract only.
- The bytes of an upstream body that never ends: a run of `Proxy.StreamResponse` is over a body that ends.
- The reuse of the read buffer and the buffer pool: a read is a value.
- Of the WHATWG HTML Standard: a lone CR as a line end, the fields `id` and `retry`, and the dispatch of events without a name or with an empty payload, none of which the code handles.
- The request side of the adapters, tool-use streaming and the Google adapter.
- The breaker's own state machine: it rejects, or calls and returns the result.
- Decimal precision and the database's rounding: amounts are exact reals.
- Two first top-ups of one organisation at once, which both find no row, and malformed organisation ids in payment events.
- A ledger of payment events: the code has none, each delivery is its own top-up.
- Mixing `deduct_atomic` with reservations: the guard looks at `available` alone, so the two are separate machines.
- Monthly and daily caps: the modelled methods do not read them.
- Lock fairness and the liveness of the step machines: the results are about safety.
- The inside of the sort libraries: the in-place sort is an insertion sort, and its result is the only stable one.
- Not-a-number prices, scores and latencies.
- Timers that fire early, a wall clock that steps back while polling, and a fractional polling interval.
- Persisting the token after a login, and the rendering around the loop.
- Regular expressions and phrase lists inside the guards: a guard is any function of the text.
- Key allow and deny lists, prefix stripping and configuration parsing: one-branch facts.
