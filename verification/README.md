# Verification model of the clickstream event router

The router consumes clickstream messages from Kafka, looks up the integrations of the message's
application in a cache that reads through to Houston, and hands one copy per integration to the Kafka
producer. A copy whose delivery fails goes to the dead letter queue, which uploads batches to S3. This
project models those pieces in Dafny and proves what they keep: over single calls, over every run, over
every interleaving of their goroutines, and end to end for the router as one transition system.

## Two builds

In several places the code does something other than what its comments, its tests or the repository's
README say. The model follows the code; to say something about the design too, every such line is
modelled twice, chosen by `Build`:

* `AsTyped`: each line does what its text says. Where a main property of the design is false of it, there
  is a lemma with a failing run and one that says exactly when it holds.
* `Repaired`: the departing lines, and nothing else, do what the comment, test or README says. Here the
  design's property is proved.

The departing lines:

| where | as typed | repaired, and why |
|---|---|---|
| `deadletterqueue/client.go:150-162` | uploads `data`, the slice the buffer was made from, which stays empty | uploads the buffer ("create a buffer to add all the messages too") |
| `deadletterqueue/client.go:161,170` | clears the entry named like the uploaded object | clears the flushed key (length 0 after a flush, `client_test.go:49,72`) |
| `kafka/clickstream/clickstream_producer.go:107` | value and presence are swapped, so no opt-out is ever respected | skips exactly on present and false (lines 105-106) |
| `kafka/clickstream/clickstream_producer.go:112` | all copies of a message point to the one loop variable (Go 1.9, `.circleci/config.yml:5`), which the producer's goroutine reads when it takes a copy from the channel | each copy has its own topic |
| `kafka/clickstream/clickstream_producer.go:158` | the dead letter key formats a pointer | the key is `appId/topic` (`deadletterqueue/client.go:90`) |
| `integrations/integrations.go:115-124` | a miss fills the cache and still returns nil | returns what was fetched (`README.md:5`) |
| `integrations/integrations.go:91-98` | the TTL timer fires once | it recurs (`README.md:7`) |

The comment at `clickstream_producer.go:106` also says "If there is no value, don't send", which neither
the condition nor the design follows; the repaired build sends.

Some weaknesses are not single lines and are the same in both builds. Each has its failing run and its
exact condition:

* An object's name carries the second of its upload, so an upload replaces an earlier one of the same key in
  the same second, if only with the emptied batch: `Bucket.SameSecondLoses`, `Bucket.KeptExactly`.
* An add that reaches the lock after `Close` has flushed stays queued: `DeadLetterClose.LateAdd`,
  `DeadLetterClose.CloseOffersAll`, `DeadLetterClose.ItemOffered`.
* A reset that falls between an update's `Get` and its `Unlock`: `CacheLocks.WindowCrashes`,
  `CacheLocks.ResetHarmless`.
* Two overlapping updates of one application: `CacheRaces.OverlapGoesStale`, `CacheRaces.NeverOlder`.
* A call to Houston that a reset overtakes: `CacheAge.StraddlingGoesStale`, `CacheAge.ReadAfterResetAsks`,
  `CacheAge.StalenessNeedsCondition`.
* A reader that fetched the table before a reset and looks into it afterwards:
  `CacheRaces.OvertakenReadIsStale`, `CacheRaces.ReadsFreshExactly`, `CacheFreshness.ReadServesCurrent`, and in
  time `CacheAge.OvertakenGoesStale` and the same two lemmas of `CacheAge`.

## Layout

* `Text`, `Framing`: names, decimals, newline framing.
* `DeadLetter` is the queue as a value, with its history; `DeadLetterFlush` what one flush does,
  `DeadLetterBound` how long batches get, `DeadLetterOffers` which items were ever handed to S3,
  `DeadLetterMetrics` what uploads report, `Bucket` what S3 still holds. `DeadLetterClient` is the class that mutates the queue, `DeadLetterLocks` the machine of its
  goroutines, lock and wait group, `DeadLetterClose` what Close guarantees, and `DeadLetterEnds` which runs end.
* `Lexer`, `MessageCodec`: the JSON lexer at token level and the generated codec, as classes and loops and
  as functions. `MessageGrammar`, `MessageLanguage`, `MessageLaws`: a grammar that knows nothing of the
  lexer, the proof that the decoder accepts and means exactly that, and what follows.
* `Houston`: the nested loop that flattens an answer. `IntegrationCache`: the cache; `CacheAge`: its timer and
  the age of what it serves. `CacheLocks`: its goroutines and two levels of locks while Houston changes;
  `CacheCoherence`, `CacheFreshness`, `CacheRaces`: whose answers it serves and how old they can be;
  `CacheRefinement`: it behaves like the sequential one; `CacheEnds`: its runs end. `PublishedMaps`: the answers as
  maps in memory.
* `Routing`, `Producer`: the fan-out, its race with the channel, the producer's class. `OptOuts`: opt-outs, told
  from a message's text.
* `Pipeline`, `PipelineLaws`, `PipelineTopics`, `Router`: the whole router as a transition system and its
  invariant; `PipelineRefinement`: its small steps are the producer's `HandleMessage`, and its cache is
  the cache. `RouterMisses`: messages that miss the cache. `RouterReports`: what delivery reports do.

What S3, Kafka and Houston do, the clock, the order in which Go ranges over a map, and the addresses that
pointers print as are parameters: every lemma holds for all of them. S3 either stores an object or returns
an error; Houston answers or fails; a copy is delivered or reported as failed.

## Model

| member | source | states |
|---|---|---|
| Text.ObjectNameInjective | deadletterqueue/client.go:160-162 | two uploads get the same object name exactly when they are of the same key in the same second, for arbitrary keys |
| Text.LabelsRecoverKey | deadletterqueue/client.go:166-168 | the two metric labels always exist, and are the application and topic exactly when neither contains a slash |
| Text.NameReadsBack | deadletterqueue/client.go:160-161 | the parts of an object's name are those of its key and then the second of its upload, which reads back, in digits without a leading zero |
| Text.DecimalInjective | deadletterqueue/client.go:160 | different times print differently, negative ones included |
| Text.NoLeadingZero | deadletterqueue/client.go:160 | only zero is printed with a leading zero |
| Framing.FrameSize | deadletterqueue/client.go:152-159 | the reported size is the length of the framed body: item lengths plus one a newline |
| Framing.LinesRecoverBatch | deadletterqueue/client.go:153-159 | the lines of a framed body are the batch again exactly when no item contains a newline |
| DeadLetterClient.Client.constructor | deadletterqueue/client.go:62-75 | a new client is empty |
| DeadLetterClient.Client.AddToQueue | deadletterqueue/client.go:79-107 | the whole new state, exactly when an add is rejected, ignored or returns a flush error, and what is uploaded when it reaches the queue size |
| DeadLetterClient.Client.FlushBatch | deadletterqueue/client.go:146-172 | the buffer loop computes the framed batch; the upload has the key, the second, the number of items and of bytes, and, repaired, that body; a failed upload changes nothing |
| DeadLetterClient.Client.Flush | deadletterqueue/client.go:128-144 | the state after the loop over the map, and the errors are exactly the failed visits in order |
| DeadLetterClient.Client.Length | deadletterqueue/client.go:186-188 | the number of items held for a key |
| DeadLetter.Errors | deadletterqueue/client.go:133-143 | Flush returns no error exactly when every visit was stored, and the errors name exactly the keys whose upload failed |
| DeadLetter.History | deadletterqueue/client.go:98-104 | repaired, in every run and for every key the items S3 took followed by the queued ones are the accepted ones, in order |
| DeadLetter.HistoryBytes | deadletterqueue/client.go:150-170 | the same law on the bytes S3 took |
| DeadLetter.TypedStoresNothing | deadletterqueue/client.go:150-162 | as typed no run ever stores a byte |
| DeadLetter.TypedLosesItem | deadletterqueue/client.go:161-170 | as typed a run that loses an accepted item, for every key that can be an object's name |
| DeadLetter.TypedHistory | deadletterqueue/client.go:161-170 | as typed the history law holds of a key in every run exactly when the key cannot be an object's name |
| DeadLetter.BatchKeyIsNoObjectName | deadletterqueue/client.go:161 | a key of slash-free application and topic cannot |
| DeadLetterMetrics.ReportsAddUp | deadletterqueue/client.go:153-168 | repaired, in every run the items reported to the metrics for a key are as many as have left the queue, and the bytes as many as S3 took |
| DeadLetterMetrics.FlushReportsHeld | deadletterqueue/client.go:153-168 | a stored flush reports the number of the held items and the sum of their lengths and their number, in either build |
| DeadLetterMetrics.EveryUploadReports | deadletterqueue/client.go:153-168 | in every run each upload reports the items and bytes of some batch, and, repaired, has that batch as its body |
| Bucket.KeptExactly | deadletterqueue/client.go:160-170 | repaired, in every run the items of a key that left the queue are all in the bucket, in order, exactly when no non-empty upload of the key was followed by another of it in the same second; otherwise it holds strictly fewer bytes |
| Bucket.SameSecondLoses | deadletterqueue/client.go:160-162 | a run that loses an item for every queue size, key, item and second: the emptied batch is uploaded over it |
| Bucket.ReadBack | deadletterqueue/client.go:160-162 | the same exact condition for any list of uploads |
| Bucket.NamesForObjects | deadletterqueue/client.go:161 | what is read back for a key are exactly the objects named after it |
| Bucket.NamesForDistinct | deadletterqueue/client.go:161 | each of them once |
| Bucket.TypedObjectsEmpty | deadletterqueue/client.go:150-162 | as typed every object in the bucket is empty |
| DeadLetterBound.QueueBound | deadletterqueue/client.go:98-104 | repaired, in every run a key is above queueSize-1 by exactly its size-triggered flushes that failed since its last stored one |
| DeadLetterBound.NeverFull | deadletterqueue/client.go:100-103 | repaired, when none of those fails every key stays below the queue size |
| DeadLetterBound.TypedQueueBound | deadletterqueue/client.go:100-103 | as typed a key that cannot be an object's name stays below the queue size exactly until that many items were ever accepted for it |
| DeadLetterBound.TypedNeverFull | deadletterqueue/client.go:100-103 | as typed a key stays below the queue size in every run without failed size-triggered flushes exactly when it is a key that cannot be queued at all |
| DeadLetterBound.TypedBound | deadletterqueue/client.go:98-104 | as typed the same exact condition for the bound by counted failures |
| DeadLetterFlush.FlushAllMeaning | deadletterqueue/client.go:134-139 | one Flush empties exactly the entries that a stored visit clears, and leaves all other data and the accepted log alone, in either build |
| DeadLetterFlush.FlushEmptiesStoredKeys | deadletterqueue/client.go:134-139 | repaired, each visited key is emptied if its upload succeeded and otherwise keeps its data |
| DeadLetterFlush.RepairedRangeVisitsKeys | deadletterqueue/client.go:134 | repaired, the loop attempts every key present at its start and no other |
| DeadLetterFlush.TypedRangeVisitsKeys | deadletterqueue/client.go:134-170 | as typed the loop is bound to attempt exactly those keys only when there are none, because a stored flush makes a new entry it may go on to |
| DeadLetterFlush.FlushOrderIrrelevant | deadletterqueue/client.go:134-139 | the queue after Flush, and the failures counted, do not depend on the map's iteration order, in either build |
| DeadLetterFlush.UploadsOrderIrrelevant | deadletterqueue/client.go:134-139 | repaired, neither do the objects uploaded |
| DeadLetterFlush.TypedFlushKeepsBatch | deadletterqueue/client.go:170 | the tests' expectation of length 0 after a stored flush holds repaired, and as typed only of keys that were empty |
| DeadLetterLocks.Refinement | deadletterqueue/client.go:93-104 | every interleaving of adders, flushers and closers is a sequence of atomic operations in the order of their unlocks, each goroutine's own exactly once; the state with the lock free is the state after them |
| DeadLetterLocks.NoDeadlock | deadletterqueue/client.go:94-96 | in every schedule, while a goroutine has not returned some goroutine can step |
| DeadLetterLocks.WaitSeesNoAdd | deadletterqueue/client.go:94-95 | under every schedule a closer passes the wait group exactly when no add stands between its count and its Done |
| DeadLetterLocks.CloserWaited | deadletterqueue/client.go:178-180 | a closer that has gone on has passed the wait group at some step before |
| DeadLetterEnds.RunsEnd | deadletterqueue/client.go:134-171 | the runs of a configuration are bounded in length exactly when it is the repaired build, or nothing flushes, or nothing is added |
| DeadLetterEnds.StuckHasReturned | deadletterqueue/client.go:93-104 | in a schedule that cannot be extended every goroutine has returned |
| DeadLetterEnds.RepairedRangeEnds | deadletterqueue/client.go:134-139 | repaired, Flush's loop has at most as many steps as the map has entries |
| DeadLetterEnds.TypedRangeUnbounded | deadletterqueue/client.go:134-171 | as typed it can have any number of steps exactly when the map is not empty |
| DeadLetterEnds.RunsAway | deadletterqueue/client.go:134-171 | as typed a schedule of any length for every configuration with an add and a flush |
| DeadLetterOffers.OfferedExactly | deadletterqueue/client.go:98-104 | repaired, in every run an accepted item was handed to S3, stored or not, exactly when a flush comes after its add, or it or a later item of its key makes the batch reach the queue size |
| DeadLetterOffers.HandedIsUploaded | deadletterqueue/client.go:153-162 | what is handed over is what S3 gets if it takes it |
| DeadLetterClose.AcceptedAreItems | deadletterqueue/client.go:82-98 | the items accepted are exactly those of the valid adds, in order |
| DeadLetterClose.CloseDrains | deadletterqueue/client.go:175-184 | repaired, when Close has returned its flush stands in the log right after what the log was at its Lock step; every item added before that was taken by S3, or is still queued after a failed upload of its key; what was taken is still in the bucket exactly when no non-empty upload of the key was followed by another in the same second |
| DeadLetterClose.TypedFlushDrains | deadletterqueue/client.go:150-170 | as typed a flush drains a key exactly when nothing was ever added for it, or its upload failed and no other upload emptied its entry |
| DeadLetterClose.ItemOffered | deadletterqueue/client.go:93-104 | repaired, the exact condition for an item to have been handed to S3, under every schedule and by its place in the log |
| DeadLetterClose.LateAdd | deadletterqueue/client.go:178-179 | for every closer and adder of every configuration a schedule in which the add appends after Close's flush and stays queued |
| DeadLetterClose.CloseOffersAll | deadletterqueue/client.go:175-184 | repaired, every schedule in which a closer has returned has handed every accepted item to S3 exactly when nothing is added or the queue size lets every add flush |
| Lexer.TokenLexer.constructor | kafka/clickstream/clickstream_producer_easyjson.go:128 | a new lexer stands at the start without error |
| Lexer.TokenLexer.FetchToken | vendor/github.com/mailru/easyjson/jlexer/lexer.go:57-157 | the scanning loop passes the separator that is wanted and takes one token, or fails |
| Lexer.TokenLexer.ReadDelim | vendor/github.com/mailru/easyjson/jlexer/lexer.go:463-474 | consumes the expected delimiter or fails |
| Lexer.TokenLexer.IsDelim | vendor/github.com/mailru/easyjson/jlexer/lexer.go:477-482 | tests for a delimiter, and is true after any error |
| Lexer.TokenLexer.IsNull | vendor/github.com/mailru/easyjson/jlexer/lexer.go:496-501 | tests for null, false after any error |
| Lexer.TokenLexer.SkipToken | vendor/github.com/mailru/easyjson/jlexer/lexer.go:504-509 | skips one token |
| Lexer.TokenLexer.ReadString | vendor/github.com/mailru/easyjson/jlexer/lexer.go:599-640 | the text of a string token, or a failure |
| Lexer.TokenLexer.ReadBool | vendor/github.com/mailru/easyjson/jlexer/lexer.go:665-676 | the value of a boolean token, or a failure |
| Lexer.TokenLexer.SkipRecursive | vendor/github.com/mailru/easyjson/jlexer/lexer.go:515-560 | skips one token, or a bracket up to the one that closes it, counting brackets of its kind only |
| Lexer.TokenLexer.SetWant | vendor/github.com/mailru/easyjson/jlexer/lexer.go:1132-1141 | the separator that must come next |
| Lexer.TokenLexer.ReadEnd | vendor/github.com/mailru/easyjson/jlexer/lexer.go:579-597 | fails when input is left |
| Lexer.Fetch | vendor/github.com/mailru/easyjson/jlexer/lexer.go:57-157 | a scan always uses up input or fails: the measure by which both decode loops end on every input |
| MessageCodec.ReadFlags | kafka/clickstream/clickstream_producer_easyjson.go:54-61 | the inner decode loop terminates on every input and computes its specification |
| MessageCodec.ReadIntegrations | kafka/clickstream/clickstream_producer_easyjson.go:48-62 | an empty object gives a nil map, entries a fresh one |
| MessageCodec.ReadFields | kafka/clickstream/clickstream_producer_easyjson.go:31-68 | the outer decode loop terminates on every input and computes its specification |
| MessageCodec.Unmarshal | kafka/clickstream/clickstream_producer_easyjson.go:127-131 | UnmarshalJSON on any tokens computes the decoder's specification, which Language characterises |
| MessageGrammar.DecodePrint | kafka/clickstream/clickstream_producer_easyjson.go:30-69 | the decoder accepts every text of the grammar, with its meaning |
| MessageLanguage.DecodeInverted | kafka/clickstream/clickstream_producer_easyjson.go:30-69 | whatever it accepts is a bare null or a text of the grammar |
| MessageLanguage.Language | kafka/clickstream/clickstream_producer_easyjson.go:21-73 | it accepts exactly these, and yields exactly their meaning |
| MessageLaws.MarshalFlags | kafka/clickstream/clickstream_producer_easyjson.go:98-109 | the encoder's loop prints the map's entries in the order ranged over, separated by commas |
| MessageLaws.Marshal | kafka/clickstream/clickstream_producer_easyjson.go:74-112 | the encoder's output is the grammar's text of the message's three fields |
| MessageLaws.EncodedTokens | kafka/clickstream/clickstream_producer_easyjson.go:74-112 | what the encoder prints, token by token: the three fields, in this order, null for a nil map |
| MessageLaws.FlagTokensAre | kafka/clickstream/clickstream_producer_easyjson.go:98-109 | and its loop: each name, a colon, its value, and commas between |
| MessageLaws.RoundTrip | kafka/clickstream/clickstream_producer_easyjson.go:30-112 | for every message and every iteration order decoding the encoding succeeds, and gives the message back exactly when its integrations are not an empty map that is not nil |
| MessageLaws.IgnoredFieldsIgnored | kafka/clickstream/clickstream_producer_easyjson.go:34-38 | a null or unknown field anywhere in an object changes nothing |
| MessageLaws.LastDuplicateWins | kafka/clickstream/clickstream_producer_easyjson.go:39-66 | a field that is repeated later might as well not be there: integrations are replaced, not merged |
| MessageLaws.JsonBalanced | vendor/github.com/mailru/easyjson/jlexer/lexer.go:515-560 | every JSON value leaves the level of either kind of bracket as it was |
| MessageLaws.JsonFieldIgnored | kafka/clickstream/clickstream_producer_easyjson.go:64-65 | so a JSON value of any nesting under an unknown key is an ignored field |
| MessageLaws.NothingDecodesFromNothing | kafka/clickstream/clickstream_producer_easyjson.go:127-131 | empty input never decodes |
| Houston.Flatten | houston/client.go:167-174 | the nested loops compute the map of all sources: its names, and for each name the first topic |
| Houston.FlattenedSources | houston/client.go:167-174 | on the sources themselves: a name is in the map exactly when some source has it enabled, and its topic is that of the first such entry, source by source, that has one, or empty |
| Houston.Flattened | houston/client.go:167-174 | its names are exactly those of enabled entries, its topics the first non-empty one of the name, or empty if there is none |
| IntegrationCache.AnsweredExactlyOnHit | integrations/integrations.go:114-125 | when Houston answers, a caller gets integrations exactly on a hit or in the repaired build; the cache is filled either way |
| IntegrationCache.Client.constructor | integrations/integrations.go:19-24 | the cache starts empty |
| IntegrationCache.Client.Get | integrations/integrations.go:44-56 | a lookup makes sure its application has a lock and changes nothing else |
| IntegrationCache.Client.UpdateIntegrationsForApp | integrations/integrations.go:136-148 | replaces the entry, or leaves the cache alone when Houston fails |
| IntegrationCache.Client.GetIntegrations | integrations/integrations.go:114-125 | the result and the new cache, and every cached application keeps a lock |
| IntegrationCache.Client.ResetCache | integrations/integrations.go:104-112 | empties the cache and its locks |
| CacheAge.ReadAfterResetAsks | integrations/integrations.go:104-125 | in either build and wherever a run has come when the timer fires, whatever is served after that reset was asked for after it, in every continuation, exactly when no call to Houston was under way and no reader had yet to look into a fetched table that has its application |
| CacheAge.BoundedStaleness | integrations/integrations.go:88-125 | repaired, in every run in which no reset falls into a call to Houston or overtakes such a reader, every answer served was asked for within the last TTL, however long calls take and readers wait |
| CacheAge.StalenessNeedsCondition | integrations/integrations.go:88-125 | for no positive TTL can either half of that condition be dropped |
| CacheAge.StraddlingGoesStale | integrations/integrations.go:104-148 | for every positive TTL a run in which a call that a reset overtakes brings an answer served when it is older |
| CacheAge.OvertakenGoesStale | integrations/integrations.go:104-116 | for every positive TTL and in either build a run in which a reader that a reset overtakes is served an older answer, though no call was under way |
| CacheAge.StaleRead | integrations/integrations.go:91-98 | as typed, for every time beyond twice the TTL a run that serves an older answer then |
| CacheAge.TypedStaleness | integrations/integrations.go:91-98 | as typed, in the runs of the same kind, the bound holds at a time exactly while that is at most twice the TTL |
| CacheAge.ReadIsLookup | integrations/integrations.go:114-125 | undisturbed, a read of the timed cache serves what the cache's lookup answers and leaves the table it leaves |
| CacheAge.RefreshIsUpdate | integrations/integrations.go:136-148 | and a refresh is the cache's update |
| CacheLocks.CleanSchedulesSafe | integrations/integrations.go:44-60 | while no reset falls between an update's Get and its Unlock, no missing lock is used, no unheld lock is released, and every cached application has a lock |
| CacheLocks.NoDeadlock | integrations/integrations.go:44-56 | in every such schedule, while a goroutine has not returned some goroutine can step |
| CacheEnds.RunsEnd | integrations/integrations.go:44-148 | for every configuration the number of steps in a run is bounded, however often Houston changes |
| CacheEnds.StuckHasReturned | integrations/integrations.go:44-148 | in a clean schedule that cannot be cleanly extended every goroutine has returned |
| CacheLocks.ResetHarmless | integrations/integrations.go:104-147 | a reset leaves no way to a crash exactly when it falls into no update's window |
| CacheCoherence.EveryAnswerGenuine | integrations/integrations.go:136-148 | in every schedule whatever, each cached, carried and served answer is one Houston gave for the same application, no earlier than the update that brought it began |
| CacheCoherence.EveryoneWritesOnce | integrations/integrations.go:143-146 | in every clean schedule each entry was put by a goroutine that reads or updates its application, and no two tables hold entries by the same one |
| CacheFreshness.ReadsAfterUpdates | integrations/integrations.go:44-60 | without overlapping updates of an application and resets in windows, a read of any table is a hit no older than the last update completed while that table was in use, and what Houston would say now if nothing changed since |
| CacheFreshness.ReadServesCurrent | integrations/integrations.go:104-115 | a read is served the entry of the table in use exactly when no reset fell between the reader's start and its lookup |
| CacheFreshness.CompletedReadIsServed | integrations/integrations.go:115-124 | repaired, a reader that missed and whose update completes is served the entry it has put; as typed it is served nothing |
| CacheRaces.OverlapGoesStale | integrations/integrations.go:136-148 | any two goroutines that read or update one application can leave the cache with an answer older than a completed update |
| CacheRaces.NeverOlder | integrations/integrations.go:136-148 | every clean schedule keeps every entry at least as new as the completed updates exactly when no two goroutines read or update the same application |
| CacheRaces.OvertakenReadIsStale | integrations/integrations.go:104-115 | a clean schedule without overlapping updates in which a reader that started before a reset is served an answer older than an update completed since, for every configuration that allows it |
| CacheRaces.ReadsFreshExactly | integrations/integrations.go:104-125 | without overlapping updates a reader's hits are as new as the updates since the last reset in every schedule exactly when nothing resets the cache or no two other goroutines read or update its application |
| CacheRefinement.CacheIsSequential | integrations/integrations.go:44-60 | under every schedule the tables are what the sequential cache makes of the puts and resets in the order they happened |
| CacheRefinement.LookupIsSequential | integrations/integrations.go:114-124 | a lookup in whatever table the reader fetched hits exactly when the sequential cache's table has the application, and is served its entry |
| CacheRefinement.FailedAskChangesNothing | integrations/integrations.go:138-141 | when Houston fails nothing is put and no lock is touched |
| PublishedMaps.NeverMutated | houston/client.go:167-176 | under every schedule a map in memory is the same ever after its pointer was published |
| PublishedMaps.LoopSeesOneAnswer | kafka/clickstream/clickstream_producer.go:104 | everything a loop finds behind its pointer, visit by visit and whatever is published meanwhile, is the flattened answer of one call to Houston for its application |
| Routing.TypedIgnoresOptOut | kafka/clickstream/clickstream_producer.go:105-109 | as typed opt-outs are respected exactly when there are none; repaired always |
| Routing.FanOutCopies | kafka/clickstream/clickstream_producer.go:104-126 | the loop adds one copy per routed name, in order, with key and value unchanged, and nothing else |
| Routing.FanOutTopics | kafka/clickstream/clickstream_producer.go:104-117 | repaired each copy refers to its integration's topic; as typed all refer to the loop variable, which the last iteration has set |
| OptOuts.CopiesUnlessOff | kafka/clickstream/clickstream_producer.go:104-109 | for a message decoded from any text, repaired, the loop gives a name no copy exactly when the last entry of that name in the last integrations that are not null is false; as typed it gives every name one |
| OptOuts.FanOutByText | kafka/clickstream/clickstream_producer.go:104-126 | the same in every run of the router, by the text of the message and the integrations of its answer |
| Routing.RoutedOnce | kafka/clickstream/clickstream_producer.go:104-126 | no name is routed twice |
| Routing.Routed | kafka/clickstream/clickstream_producer.go:104-109 | the routed names are exactly those ranged over and not skipped |
| Routing.CopiesReachTheirTopics | kafka/clickstream/clickstream_producer.go:110-117 | as typed every interleaving of the loop with the channel sends every copy to its own topic exactly when all topics are equal; repaired always |
| Routing.LateTransmit | kafka/clickstream/clickstream_producer.go:112 | an interleaving that sends a copy to another integration's topic, for any two different topics |
| Producer.FailureKeyAccepted | kafka/clickstream/clickstream_producer.go:157-160 | a dead letter key is never refused by the queue |
| Producer.FailureKeysDiffer | kafka/clickstream/clickstream_producer.go:157-160 | for slash-free applications two failures share a batch exactly when application and topic, or as typed the address, are equal |
| Producer.FailureNameParts | deadletterqueue/client.go:160-168 | the first part of the name under which failures are uploaded is the application and, repaired, the second the topic |
| Producer.FailureKeyFiled | kafka/clickstream/clickstream_producer.go:157-160 | a failure is filed under application and topic, and the queue accepts it |
| Producer.TypedFailureKeySafe | kafka/clickstream/clickstream_producer.go:158 | as typed no dead letter key can be an object's name, so nothing queued under one is overwritten |
| Producer.TypedBatchesByAddress | kafka/clickstream/clickstream_producer.go:158 | as typed failures share a batch exactly when their topics' addresses print alike; repaired exactly when the topics are equal |
| Producer.ClickstreamProducer.constructor | kafka/clickstream/clickstream_producer.go:62-66 | a new producer has sent nothing |
| Producer.ClickstreamProducer.HandleMessage | kafka/clickstream/clickstream_producer.go:73-128 | copies, variables, counts and result for every input: a message that does not parse changes nothing, one that Houston fails for goes to the retry topic, one without integrations nowhere |
| Producer.ClickstreamProducer.SendCopies | kafka/clickstream/clickstream_producer.go:104-126 | the loop's copies: one for each name ranged over and not skipped, with key and value, repaired each on its own topic |
| Producer.ClickstreamProducer.HandleReport | kafka/clickstream/clickstream_producer.go:144-162 | the event loop ends exactly on a failed report that does not parse; otherwise a failed copy is queued exactly when retry is on, filed under its application and topic |
| Pipeline.CopiesAccounted | kafka/clickstream/clickstream_producer.go:85-126 | in every run the copies produced are, as a multiset, those in the channel, in flight, delivered, dropped and dead |
| Pipeline.CopyAtOnePlace | kafka/clickstream/clickstream_producer.go:143-162 | in every run each copy is at exactly one of these places, once |
| RouterReports.DeliveredToTopics | vendor/github.com/confluentinc/confluent-kafka-go/kafka/producer.go:80-83 | in every run a delivered copy was sent to a topic that is not empty; one without a topic is only ever reported as failed |
| Pipeline.SentInOrder | kafka/clickstream/clickstream_producer.go:88-117 | in every run copies leave the channel in the order in which they were produced |
| PipelineLaws.ReportParses | kafka/clickstream/clickstream_producer.go:149-153 | a report of a copy in flight parses, under the application it was routed under |
| PipelineRefinement.HandledInSteps | kafka/clickstream/clickstream_producer.go:73-128 | undisturbed, the small steps on one message end with the copies, variables and counts of HandleMessage |
| PipelineRefinement.UnparsedChangesNothing | kafka/clickstream/clickstream_producer.go:77-81 | a message that does not parse changes nothing in the transition system either |
| PipelineRefinement.CacheRefined | integrations/integrations.go:114-125 | undisturbed, the transition system reads and fills its cache exactly as the cache's lookup does, an answer's place in the order of publication standing for its time |
| PipelineRefinement.PublishIsUpdate | integrations/integrations.go:136-148 | and refreshes it as the cache's update does |
| PipelineRefinement.RefreshAndReset | integrations/integrations.go:104-112 | a refresh does to the cache what an update does, a reset empties it, and neither touches anything else |
| PipelineRefinement.FetchedTableRoutes | integrations/integrations.go:115 | a message that has fetched the table is routed by it, whatever becomes of the cache before it looks |
| PipelineRefinement.FansAreTheLoop | kafka/clickstream/clickstream_producer.go:104-126 | one small step an iteration is the loop |
| Router.EventLoopStaysOn | kafka/clickstream/clickstream_producer.go:149-160 | in every run the event loop's early exit is unreachable, and whatever may still fail has a key and data the dead letter queue accepts |
| RouterReports.ReportsDecide | kafka/clickstream/clickstream_producer.go:143-162 | in every run the delivered copies are those reported as delivered, and those reported as failed are dead if retry is on, and dropped, with nothing queued, if it is off |
| RouterReports.FailIsHandled | kafka/clickstream/clickstream_producer.go:146-162 | one failed report does to the event loop and the queue what HandleReport does |
| RouterReports.FlushIsHandled | deadletterqueue/client.go:128-144 | one flush of the dead letters is the queue's Flush and moves no copy |
| RouterReports.DeadLettersFiled | kafka/clickstream/clickstream_producer.go:157-160 | in every run each dead copy's value is among the accepted items, filed under its application and, repaired, the topic it was sent to |
| RouterReports.DeadLettersShare | kafka/clickstream/clickstream_producer.go:157-160 | and two dead copies share a batch exactly when they are of one application and one topic, as typed one address |
| Router.CopiesRoutedByOneAnswer | kafka/clickstream/clickstream_producer.go:85-126 | all copies of a message come from one answer Houston gave for its application, whatever updates and resets happen between the fetch of the table and the lookup, while Houston is asked and during the loop, and each is sent to a topic of it, or the retry topic |
| Router.FanOutExact | kafka/clickstream/clickstream_producer.go:104-126 | when a message's loop is done each integration of its answer has exactly one copy unless the message skips it, and nothing else has one |
| Router.MessagesCounted | kafka/clickstream/clickstream_producer.go:82-127 | in every run messages consumed are those routed, retried, without integrations, and the one being handled |
| RouterMisses.TypedMissesUnrouted | integrations/integrations.go:115-124 | as typed, in every run no message whose application was not in the table is ever routed |
| RouterMisses.TypedFirstAfterReset | integrations/integrations.go:104-124 | as typed the first message of an application after a reset, if nothing has put the application into the cache since, is never routed, whatever happens afterwards |
| Router.EndToEnd | deadletterqueue/client.go:79-172 | repaired, in every run every copy is at one place; of the copies that died under a key S3 took the first, framed and in order, and the rest are queued in order; what S3 took is all still in the bucket exactly when no non-empty upload of the key was followed by another in the same second |
| Router.TypedEndToEnd | deadletterqueue/client.go:146-172 | as typed the dead copies stay queued, whole and in order, under keys made of addresses, and S3 receives nothing |

## Left out

- Kafka, S3, Cassandra, HTTP and SSE transport: outcomes of their calls are parameters.
- Tokens, authorization and the GraphQL query (`houston/client.go:179-244`): remote calls.
- `sse/client.go`, the consumer's loop and its restart, `cmd`, `config`, `api`: wiring and web handlers. An SSE event appears as an update of one application.
- Metrics but for the message counters and the upload's count and size; logging; error texts.
- Cassandra inserts (`clickstream_producer.go:120-125`): they only log.
- Characters and bytes of JSON: escaping, numbers, white space. A text is a list of tokens, and text that starts no token is one that fails; how bytes become tokens is a parameter of the pipeline. SkipRecursive's failure on an unterminated string inside a skipped value is therefore not modelled.
- The token a lexer holds after an error, which no operation reads.
- The decoder on a Message that is not fresh: both callers make one.
- The dead letter timer as time (`deadletterqueue/client.go:64,115`), which like the TTL timer fires once: a flush may happen at any moment of a run, or never.
- Message loss after the shutdown of the producer, when its flush times out.
- A producer configured without a dead letter client while retry is switched on.
- The race detector's view: reads of `integrationsMap`, `syncMap` and `queue` outside their locks are atomic steps, and the receiver of `Put` is evaluated with the write (`integrations.go:145`). `Length` without the lock is one.
- Resuming waits of `sync.WaitGroup` that race with an `Add` from zero; the machine lets a closer pass whenever the count is zero.
- Waiting of `Map.Get` for an application's lock blocks the holder of the global lock in the machine as in the code; writer preference of `sync.RWMutex` is not modelled, and a read lock is taken and released in one step.
- The address of a published map, but in `PublishedMaps`: elsewhere answers are values.
- A timer goroutine that runs late: the reset happens at the deadline. A TTL of zero, at which the model's clock would not move.
- Versions of objects in S3: an upload replaces the object that has its name.
- DeadLetterFlush.UploadsOrderIrrelevant: repaired build only; as typed an entry named like an uploaded object may be emptied before or after the loop comes to it, and the reported counts differ.
- DeadLetterLocks.NoDeadlock: does not say that a given goroutine gets its turn; Go's mutex is not modelled as fair.
- CacheLocks.NoDeadlock: the same.
