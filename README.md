# events-planner-sst, modelled in Dafny

This project models the core of events-planner-sst, a serverless events pipeline. It
crawls event listings, stores them in DynamoDB tables, indexes them in OpenSearch,
scores them and posts the best ones to Bluesky. Its Step Functions workflows are
built with a small builder library, `lib/sst-sfn`.

The model covers two parts:

- **The workflow builder.** This is the `LambdaInvoke`, `Success` and `Fail` states
  and the `StateMachine` component. JavaScript objects are modelled as
  insertion-ordered association lists, so spread, `delete` and assignment keep
  JavaScript's key order. The role and policy resources the builder declares are
  appended to a `Registry`.
- **The services and handlers.** This covers:
  - the DynamoDB item encoders and decoders of the three storage modules;
  - the stream-record filter shared by the stream handlers;
  - the crawler payload validation and normalisation;
  - the enqueue counting;
  - the 25-item delete batching;
  - the post publisher's paged selection loop and composite score;
  - the Lambda authorizer's ARN parsing and prefix-match policy check;
  - the Bluesky post text budget and layout;
  - the OpenSearch cursor handling.

Every cloud call is a parameter or a field:

- A DynamoDB table is a `Table` object holding a map from url to item. Its response
  status is an argument.
- An SQS queue, a Step Functions client, an OpenSearch index and a Bluesky feed are
  objects that record what was sent to them.
- The current time and date parsing form a `Clock` value.

One Dafny module corresponds to each source file. Shared modules hold the common
pieces:
- `Common` has Option, Result and Clock.
- `JsText` has the JavaScript string and array built-ins the core uses.
- `AslJson` has JavaScript objects.
- `DynamoDb` has attribute values, items and the table.
- `Events` has the event records.
- `Iam` has the resource registry.

## Model

| member | source | states |
|---|---|---|
| AslJson.Keys | lib/sst-sfn/states/tasks/lambda-invoke.ts:23-26 | the key list of an object has one entry per field, in field order |
| AslJson.Get | lib/sst-sfn/states/tasks/lambda-invoke.ts:18 | reading a key gives undefined exactly when the key is absent, and otherwise a value stored under that key |
| AslJson.Put | lib/sst-sfn/states/tasks/lambda-invoke.ts:20 | assignment keeps an existing key in its position and appends a new key last |
| AslJson.PutGet | lib/sst-sfn/states/tasks/lambda-invoke.ts:20 | after assignment the key reads as the new value and every other key reads as before |
| AslJson.PutWellFormed | lib/sst-sfn/states/tasks/lambda-invoke.ts:20 | assignment never duplicates a key |
| AslJson.PutNew | lib/sst-sfn/states/tasks/lambda-invoke.ts:20 | assigning an absent key appends exactly one field |
| AslJson.Delete | lib/sst-sfn/states/tasks/lambda-invoke.ts:19 | `delete` removes the key and keeps exactly the other keys |
| AslJson.DeleteGet | lib/sst-sfn/states/tasks/lambda-invoke.ts:19 | `delete` leaves the value of every other key unchanged |
| AslJson.DeleteWellFormed | lib/sst-sfn/states/tasks/lambda-invoke.ts:19 | `delete` never duplicates a key |
| AslJson.SpreadGet | lib/sst-sfn/states/tasks/lambda-invoke.ts:23-26 | in `{...a, ...b}` every key of `b` has b's value and every other key has a's value |
| AslJson.SpreadKeys | lib/sst-sfn/states/success.ts:16-20 | the keys of `a` stay at the front of `{...a, ...b}` in their order, and the result's keys are exactly those of `a` and `b` |
| AslJson.SpreadWellFormed | lib/sst-sfn/states/success.ts:16-20 | spreading onto a well-formed object never duplicates a key |
| AslJson.SpreadIntoEmpty | lib/sst-sfn/states/tasks/lambda-invoke.ts:50-54 | `{...o}` is a copy of `o` |
| AslJson.SpreadOntoPrefix | lib/sst-sfn/states/tasks/lambda-invoke.ts:50-54 | spreading the rest of an object onto its own prefix rebuilds the object |
| Iam.Registry.constructor | lib/sst-sfn/statemachine.ts:42-55 | a new registry has declared nothing |
| Iam.Registry.Declare | lib/sst-sfn/statemachine.ts:57-71 | declaring resources appends them in order and changes nothing else |
| LambdaInvokeTask.ObjectRef.constructor | lib/sst-sfn/states/tasks/lambda-invoke.ts:14-17 | the caller's params object holds the given fields |
| LambdaInvokeTask.RewritePayloadSpec | lib/sst-sfn/states/tasks/lambda-invoke.ts:18-21 | a payload of exactly `"$"` loses `Payload` and gains `"Payload.$": "$"` with every other key unchanged; any other payload leaves the parameters as they are |
| LambdaInvokeTask.RewritePayloadIdempotent | lib/sst-sfn/states/tasks/lambda-invoke.ts:18-21 | rewriting the payload twice has the effect of rewriting it once |
| LambdaInvokeTask.TaskParamsSpec | lib/sst-sfn/states/tasks/lambda-invoke.ts:23-26 | `Resource` is the first key; it defaults to the lambda-invoke ARN, a caller's `Resource` wins, and every other key has the caller's value |
| LambdaInvokeTask.PolicyNamesDistinct | lib/sst-sfn/states/tasks/lambda-invoke.ts:29-42 | two states with different names get different policy names, so two policies for the same function are both kept |
| LambdaInvokeTask.LambdaInvoke.constructor | lib/sst-sfn/states/tasks/lambda-invoke.ts:16-27 | the caller's params object is rewritten in place, and the state stores the rewritten params behind the default `Resource` |
| LambdaInvokeTask.LambdaInvoke.InvokePolicy | lib/sst-sfn/states/tasks/lambda-invoke.ts:29-43 | the policy is `${prefix}${name}SfnRolePolicy` on the machine's role, with one Allow `lambda:InvokeFunction` statement on `Parameters.FunctionName` |
| LambdaInvokeTask.LambdaInvoke.CreatePermissions | lib/sst-sfn/states/tasks/lambda-invoke.ts:45-48 | the base task's permissions are declared first, then exactly one invoke policy |
| LambdaInvokeTask.LambdaInvoke.ToJson | lib/sst-sfn/states/tasks/lambda-invoke.ts:50-54 | the serialisation is exactly the base task serialisation, with no added key |
| LambdaInvokeTask.FunctionNameKept | lib/sst-sfn/states/tasks/lambda-invoke.ts:16-43 | the stored `Parameters` are the rewritten ones, and the rewrite never changes `FunctionName`, so the policy names the caller's function |
| TerminalStates.ToJsonGet | lib/sst-sfn/states/success.ts:15-21 | every params key has the caller's value; otherwise `Type` is `Succeed` or `Fail`, and every other key comes from the base serialisation requested with the terminal flag `true` |
| TerminalStates.ToJsonKeys | lib/sst-sfn/states/fail.ts:15-21 | the document starts with the terminal base keys in order, then `Type` if the base lacks it; it holds no other keys than base, `Type` and params keys, and none twice |
| TerminalStates.DefaultParams | lib/sst-sfn/states/success.ts:9-21 | with the default `{}` params, `Success` and `Fail` serialise to the terminal base fields with `Type` set and nothing else |
| StateMachines.ChooseRole | lib/sst-sfn/statemachine.ts:45-52 | a given non-empty role ARN is reused; otherwise a role named `${app}-${stage}-${name}` trusting `states.<region>.amazonaws.com` is created |
| StateMachines.DeclaredSpec | lib/sst-sfn/statemachine.ts:54-91 | the constructor declares the role only when it creates one, then the machine with the chain's definition under that role, then an Allow `events:*` on `"*"` policy, then the chain's permissions exactly once with the machine name as prefix |
| StateMachines.ExecutionsArnSpec | lib/sst-sfn/statemachine.ts:105 | the executions pattern replaces the first `stateMachine` of the ARN by `execution` and appends `:*`; an ARN without one is only suffixed |
| StateMachines.StateMachine.constructor | lib/sst-sfn/statemachine.ts:42-93 | the machine runs under the chosen role with the chain's definition, and the registry gains exactly the declared resources |
| StateMachines.StateMachine.Link | lib/sst-sfn/statemachine.ts:96-123 | the link exposes the machine's id and ARN and grants `states:*` on exactly the machine and its executions |
| Events.MergeRichEventInverse | src/types/event.ts:51-89 | the merged record gives back the event, the scores and the highlights (`tags` becomes `genTags`, the event keeps its own `tags`), and every rich event is such a merge |
| Conversion.StrOr | src/types/convertion.ts:6-9 | a text field is the attribute's S value, or `""` when the attribute is absent |
| Conversion.SetOr | src/types/convertion.ts:10 | a list field is the attribute's SS value, or `[]` when the attribute is absent |
| Conversion.BoolOr | src/types/convertion.ts:19 | a flag is true exactly when the attribute holds BOOL true, and false otherwise (never null) |
| Conversion.RealOrNull | src/types/convertion.ts:21-23 | a price is null exactly when the attribute has no N, and otherwise the N value |
| Conversion.IntOrNull | src/types/convertion.ts:14-24 | a count is null exactly when the attribute has no N, and otherwise the N value truncated toward zero |
| Conversion.StrListOr | src/types/convertion.ts:20 | series dates are `[]` when the attribute or its L is absent |
| Conversion.StrListOfStrings | src/types/convertion.ts:20 | a list of S entries decodes to those strings in order |
| Conversion.EmptyImage | src/types/convertion.ts:4-28 | an image with no attributes decodes to empty texts and lists, 0 attendees, offline, null prices and `false` flags |
| Conversion.ConvertFlagsNeverNull | src/types/convertion.ts:25-26 | `waitlist` and `registrationClosed` are never null, and are true exactly when the attribute holds BOOL true |
| DynamoDb.Trunc | src/types/convertion.ts:14 | `parseInt` of a number's decimal form is its integer part, truncated toward zero |
| DynamoDb.FirstWithoutUrl | src/storage/all-events.ts:141-142 | the delete loop reads `item.url.S` safely up to the first item with no `url` attribute, where it throws |
| DynamoDb.ScannedUrlsSpec | src/storage/all-events.ts:141-145 | a url is deleted exactly when some scanned item carries it as a non-empty string |
| DynamoDb.Table.constructor | src/storage/all-events.ts:14-21 | a table starts with the given items |
| DynamoDb.Table.GetItem | src/storage/all-events.ts:32-40 | an empty key is refused with `ValidationException`; otherwise a status other than 200 is an error, and an answered lookup gives the item under the url, or none when absent |
| DynamoDb.Table.PutItem | src/storage/all-events.ts:104-116 | an item with a non-empty url and no empty string set replaces whatever was stored under its url; any other item is rejected and nothing changes |
| DynamoDb.Table.DeleteItem | src/storage/all-events.ts:119-130 | the item under a non-empty url is removed and nothing else changes; an empty key is rejected |
| DynamoDb.Table.DeleteScanned | src/storage/all-events.ts:132-146 | a bad scan status throws with nothing deleted; otherwise every scanned url before the first item without `url` is deleted, and the loop ends normally exactly when there is no such item |
| Streams.NewEventsSingle | src/functions/search-index.ts:22-26 | a record yields its converted new image exactly when it is not a REMOVE and has a new image |
| Streams.NewEventsAppend | src/functions/search-index.ts:22-26 | the filter works record by record and keeps record order |
| Streams.OnlyRemovals | src/functions/search-index.ts:24 | a batch of REMOVE records yields no event |
| Streams.NewEvents | src/functions/search-index.ts:22-33 | a batch yields at most one event per record |
| AllEventsStorage.RemoveUndefined | src/storage/all-events.ts:97-102 | the cleanup loop deletes exactly the undefined attributes and empty string sets |
| AllEventsStorage.CleanedDraft | src/storage/all-events.ts:73-102 | cleaning the item literal gives the encoded item |
| AllEventsStorage.EncodedAttr | src/storage/all-events.ts:73-102 | an attribute is written exactly when the literal names it with a value that is neither undefined nor an empty set, and then it holds that value |
| AllEventsStorage.KeptAreNamed | src/storage/all-events.ts:73-102 | only attributes named in the item literal can survive the cleanup |
| AllEventsStorage.DraftKeysComplete | src/storage/all-events.ts:73-98 | the cleanup loop visits every attribute the item literal names |
| AllEventsStorage.EncodeAlwaysWritten | src/storage/all-events.ts:74-87 | url, dates and title are always S, attendees always N and online always BOOL, with the event's values |
| AllEventsStorage.EncodeTexts | src/storage/all-events.ts:79-86 | group, address, description, cover and venue are written exactly when truthy and not `"undefined"` |
| AllEventsStorage.EncodeLists | src/storage/all-events.ts:78-88 | hosts, guests, tags and series dates are written exactly when non-empty |
| AllEventsStorage.EncodeNullables | src/storage/all-events.ts:89-94 | waitlist, registrationClosed, price and spotsLeft are written exactly when not null, and no `ttl` is written |
| AllEventsStorage.EncodeStorable | src/storage/all-events.ts:97-111 | no empty string set survives the cleanup, so the put is accepted exactly when the event has a url |
| AllEventsStorage.ReadRequiredText | src/storage/all-events.ts:43-46 | a text written unconditionally reads back unchanged |
| AllEventsStorage.ReadOptionalText | src/storage/all-events.ts:48-55 | an optional text reads back as itself when meaningful and as `""` otherwise |
| AllEventsStorage.ReadSet | src/storage/all-events.ts:47-54 | a written list reads back unchanged, an omitted empty one as `[]` |
| AllEventsStorage.ReadFlag | src/storage/all-events.ts:62-63 | a nullable flag reads back as its value, and a null one as `false` |
| AllEventsStorage.ReadReal | src/storage/all-events.ts:58-60 | a price reads back as itself, null included |
| AllEventsStorage.ReadInt | src/storage/all-events.ts:51-61 | an integer count reads back as itself, null included |
| AllEventsStorage.ReadOnline | src/storage/all-events.ts:56 | `online` reads back unchanged |
| AllEventsStorage.ReadSeriesDates | src/storage/all-events.ts:57-88 | series dates read back unchanged, in order |
| AllEventsStorage.DecodeFromReads | src/storage/all-events.ts:42-64 | an item whose attributes read as the fields of an event decodes to that event |
| AllEventsStorage.ReadBackRequired | src/storage/all-events.ts:43-77 | url, dates and title survive a save and a read |
| AllEventsStorage.ReadBackOptional | src/storage/all-events.ts:48-83 | group, address and description read back as themselves when meaningful and as `""` otherwise |
| AllEventsStorage.ReadBackCoverVenue | src/storage/all-events.ts:53-86 | cover and venue read back as themselves when meaningful and as `""` otherwise |
| AllEventsStorage.ReadBackSets | src/storage/all-events.ts:47-85 | hosts, guests and tags survive a save and a read |
| AllEventsStorage.ReadBackNumbers | src/storage/all-events.ts:58-93 | prices survive a save and a read, null included |
| AllEventsStorage.ReadBackCounts | src/storage/all-events.ts:51-94 | attendees and spotsLeft survive a save and a read |
| AllEventsStorage.ReadBackFlags | src/storage/all-events.ts:56-90 | online survives; a null waitlist or registrationClosed comes back `false` |
| AllEventsStorage.RoundTrip | src/storage/all-events.ts:42-102 | reading back what `saveEvent` wrote gives the event with deduped lists, `"undefined"` texts as `""` and null flags as `false` |
| AllEventsStorage.StoredIdempotent | src/storage/all-events.ts:42-102 | a second save and read changes nothing more |
| AllEventsStorage.GetEvent | src/storage/all-events.ts:23-65 | an empty url throws `ValidationException`; otherwise a bad status throws; a missing item gives undefined; otherwise the item decoded with the shared conversion |
| AllEventsStorage.SaveEvent | src/storage/all-events.ts:67-117 | the caller's lists are deduped in place, and the encoded event replaces the item under its url |
| AllEventsStorage.DeleteEvent | src/storage/all-events.ts:119-130 | the item under the url is removed and nothing else changes |
| AllEventsStorage.DeleteAllEvents | src/storage/all-events.ts:132-146 | a bad scan status throws with nothing deleted; otherwise each scanned item with a url is deleted, up to the first item without one |
| UpcomingStorage.TtlAsWritten | src/storage/upcoming-events.ts:97-99 | the `ttl` as written is the whole seconds from now until the start, truncated toward zero |
| UpcomingStorage.TtlAsWrittenAlreadyExpired | src/storage/upcoming-events.ts:97-99 | read as an epoch second, the `ttl` as written lies before the save time for every event starting less than the current epoch time from now |
| UpcomingStorage.TtlAsWrittenExample | src/storage/upcoming-events.ts:97-99 | an event saved in November 2023 to start a day later gets `ttl` 86400, which is 2 January 1970 |
| UpcomingStorage.ExpiryAt | src/storage/upcoming-events.ts:97-99 | the corrected `ttl` is the epoch second in which the event starts |
| UpcomingStorage.TtlForCountsDown | src/storage/upcoming-events.ts:97-100 | for an event that has not started, the `ttl` written is present and is the whole seconds from now until the start, so it is never negative |
| UpcomingStorage.ExpiryNotBeforeSave | src/storage/upcoming-events.ts:55-100 | with the corrected `ttl`, an event that has not started never has an expiry before the save, and it expires in the second it starts |
| UpcomingStorage.EncodedUpcomingAttr | src/storage/upcoming-events.ts:80-100 | an attribute is written exactly when the item literal or the `ttl` gives it a value, and then it holds that value |
| UpcomingStorage.EncodeTtl | src/storage/upcoming-events.ts:97-100 | `ttl` is written as N exactly when one is computed, that is, when past events are not kept |
| UpcomingStorage.EncodeUpcomingStorable | src/storage/upcoming-events.ts:80-95 | all eleven attributes are written unconditionally, so the put is accepted exactly when url, hosts and guests are all non-empty |
| UpcomingStorage.FirstMissing | src/storage/upcoming-events.ts:36-48 | the read fails at the first of the eleven attributes the item lacks, and at none when it has them all |
| UpcomingStorage.DecodeUpcoming | src/storage/upcoming-events.ts:36-48 | decoding throws exactly when one of the eleven attributes is absent (the read has no optional chaining) |
| UpcomingStorage.ReadBackStrings | src/storage/upcoming-events.ts:37-86 | url, dates and title survive a save and a read |
| UpcomingStorage.ReadBackDetails | src/storage/upcoming-events.ts:42-93 | group, address, description and cover survive a save and a read |
| UpcomingStorage.ReadBackPeople | src/storage/upcoming-events.ts:41-91 | hosts, guests and attendees survive a save and a read |
| UpcomingStorage.EncodeHasReadOrder | src/storage/upcoming-events.ts:36-95 | a written item has every attribute the read dereferences |
| UpcomingStorage.UpcomingRoundTrip | src/storage/upcoming-events.ts:36-100 | reading back a written item gives its eleven fields, with or without `ttl` |
| UpcomingStorage.DecodeMissing | src/storage/upcoming-events.ts:36-48 | an item missing any of the eleven attributes makes the read throw |
| UpcomingStorage.Lookup | src/storage/upcoming-events.ts:18-49 | an empty url throws `ValidationException`; otherwise a bad status throws; a missing item gives undefined; otherwise the decoded item, or the error its read throws |
| UpcomingStorage.SaveThenLookup | src/storage/upcoming-events.ts:18-104 | reading an event just written gives back its eleven fields; an empty url cannot be read back |
| UpcomingStorage.SaveEvent | src/storage/upcoming-events.ts:51-104 | an event that has started, when past events are not kept, is deleted and nothing is written; any other event is written with hosts and guests deduped in place and, when past events are not kept, a `ttl` of the whole seconds from now until the start, never negative; when they are kept, no `ttl` |
| UpcomingStorage.DeleteEvent | src/storage/upcoming-events.ts:106-116 | the item under the url is removed and nothing else changes |
| UpcomingStorage.DeleteAllEvents | src/storage/upcoming-events.ts:118-132 | a bad scan status throws with nothing deleted; otherwise each scanned item with a url is deleted, up to the first item without one |
| UpcomingStorage.DecodeAll | src/storage/upcoming-events.ts:142-155 | the page decodes exactly when every item does, to one event per item in scan order |
| UpcomingStorage.GetAllEvents | src/storage/upcoming-events.ts:134-156 | a bad status throws; otherwise every scanned item is decoded with the same mapping, in scan order |
| UpcomingStorage.DecodeAllOk | src/storage/upcoming-events.ts:142-155 | a page whose every item decodes gives exactly those events |
| UpcomingStorage.DecodeAllOfSaved | src/storage/upcoming-events.ts:80-155 | a page of written items decodes to the events written, in order |
| PostStatusStorage.EncodedPostAttr | src/storage/post-status.ts:70-86 | an attribute is written exactly when the item literal gives it a non-null value, and then it holds that value |
| PostStatusStorage.EncodePostedDates | src/storage/post-status.ts:74-75 | a posting date is stored as S exactly when it is truthy; a null one is not stored |
| PostStatusStorage.EncodePostStatusStorable | src/storage/post-status.ts:70-94 | the item holds no string set, so the put is accepted exactly when the url is non-empty |
| PostStatusStorage.ReadBackKeys | src/storage/post-status.ts:51-73 | url and dates are always written as S and read back unchanged |
| PostStatusStorage.ReadBackDates | src/storage/post-status.ts:54-75 | a truthy posting date reads back unchanged, any other as `undefined` |
| PostStatusStorage.ReadBackScore | src/storage/post-status.ts:56-85 | a score written as N reads back unchanged |
| PostStatusStorage.ReadBackPublicScores | src/storage/post-status.ts:56-78 | the non-commercial, popularity and free-admission scores survive a save and a read |
| PostStatusStorage.ReadBackCostScores | src/storage/post-status.ts:59-80 | the expenses and drinks scores survive a save and a read |
| PostStatusStorage.ReadBackPlaceScores | src/storage/post-status.ts:61-83 | the food, venue and quietness scores survive a save and a read |
| PostStatusStorage.ReadBackOtherScores | src/storage/post-status.ts:64-85 | the uniqueness and proximity scores survive a save and a read |
| PostStatusStorage.PostStatusRoundTrip | src/storage/post-status.ts:50-86 | reading back a saved status gives it unchanged, except that a posting date that was not truthy comes back `undefined` |
| PostStatusStorage.Lookup | src/storage/post-status.ts:32-67 | an empty url throws `ValidationException`; otherwise a bad status throws; a missing item gives undefined; otherwise the decoded item, with absent scores as 0 |
| PostStatusStorage.SaveThenLookup | src/storage/post-status.ts:32-96 | the status just saved is the one read back, up to untruthy posting dates; an empty url cannot be read back |
| PostStatusStorage.SavePostStatus | src/storage/post-status.ts:69-96 | the encoded status replaces the item under its url; an empty url is rejected |
| PostStatusStorage.DeletePostStatus | src/storage/post-status.ts:98-108 | the item under the url is removed and nothing else changes |
| PostStatusStorage.DeleteAllPostStatuses | src/storage/post-status.ts:110-124 | a bad scan status throws with nothing deleted; otherwise each scanned item with a url is deleted, up to the first item without one |
| AllEventsHandler.StoredEvent | src/functions/all-events.ts:18 | the lookup finds an event exactly when one is stored under the url |
| AllEventsHandler.Decide | src/functions/all-events.ts:18-29 | a new event is saved; a stored event is updated exactly when its stored start is not before now and skipped exactly when it is, judged from the stored copy and not the incoming one |
| AllEventsHandler.SaveToAll | src/functions/all-events.ts:12-39 | an empty url or a bad lookup status throws, with nothing written; a skipped event leaves the table as it was; otherwise the event is written under its url; the reply is `success` with `saved`, `updated` or `skipped` |
| AllEventsHandler.DecideAfterSave | src/functions/all-events.ts:18-31 | once an event is saved, its next delivery is updated while its own start is not past and skipped afterwards |
| Crawler.FirstMatchFrom | src/functions/events-processor.ts:36 | the regular expression search finds the leftmost position where `events-crawler-` is followed by at least one character and no line break up to the end |
| Crawler.CrawlerName | src/functions/events-processor.ts:36-41 | a crawler name exists exactly when the actor name matches `/events-crawler-(.+)$/`, and it is never empty |
| Crawler.CrawlerNameExample | src/functions/events-processor.ts:35-41 | the actor `iliazlobin/events-crawler-meetup` has crawler name `meetup` |
| Crawler.CrawlerNameEmptySuffix | src/functions/events-processor.ts:36-39 | an actor name ending right after `events-crawler-` does not match |
| Crawler.ValidateRun | src/functions/events-processor.ts:24-41 | a run passes exactly when the exit code is 0, the actor is known and its name matches; otherwise the first failing check's message, checked in that order; the result is the crawler name |
| Crawler.StripTrailingSlash | src/functions/events-processor.ts:60 | at most one trailing `/` is removed, and one is removed exactly when the url ends in `/` |
| Crawler.NormalizeSpec | src/functions/events-processor.ts:59-81 | the url loses one trailing slash; absent or null lists become `[]`; a falsy venue becomes `""`; `online` is true only when it was true; a nullable field is null only when absent or null; the other fields pass through |
| Crawler.NormalizeAgain | src/functions/events-processor.ts:59-81 | normalising a normalised event again changes at most the url, and changes nothing exactly when the url does not end in `/` |
| Crawler.DoubleSlashExample | src/functions/events-processor.ts:60 | a url ending in two slashes keeps one after a single normalisation |
| Crawler.NormalizeAll | src/functions/events-processor.ts:55-82 | one normalised event per dataset item, in item order |
| EventsProcessor.RetrieveFromApify | src/functions/events-processor.ts:18-53 | a run that fails validation throws with that check's message; a valid run returns `success` with one normalised event per dataset item, in order |
| EventsProcessorQueue.Queue.constructor | src/functions/events-processor-queue.ts:81-86 | the queue starts empty |
| EventsProcessorQueue.SentUpTo | src/functions/events-processor-queue.ts:78-94 | the events whose send succeeded are a subsequence of the events, no longer than them |
| EventsProcessorQueue.NothingSent | src/functions/events-processor-queue.ts:78-98 | nothing is enqueued exactly when every send failed |
| EventsProcessorQueue.AllSent | src/functions/events-processor-queue.ts:78-94 | when every send succeeds, the queue receives all events in order |
| EventsProcessorQueue.Intake | src/functions/events-processor-queue.ts:44-68 | an absent or empty body throws before parsing; a body that does not parse throws; then the run checks apply in order |
| EventsProcessorQueue.SendAll | src/functions/events-processor-queue.ts:78-94 | each event is sent once in order, a failed send is passed over, and the count is the number of successful sends |
| EventsProcessorQueue.Enqueue | src/functions/events-processor-queue.ts:37-108 | both clients are created at most once and reused; a failed intake throws with nothing sent; otherwise the successful sends are enqueued, and the handler throws exactly when there were events and none was sent, returning both counts otherwise |
| EventsProcessorQueue.SaveToAllQueued | src/functions/events-processor-queue.ts:140-165 | the table ends as the record-by-record save rule leaves it, in record order, and the reply is `success` unless a lookup failed, an empty url being refused at its lookup |
| EventsProcessorQueue.StartedEventsKept | src/functions/events-processor-queue.ts:148-155 | a stored event that has started is never overwritten by any record of the batch |
| EventsProcessorQueue.BatchSucceeds | src/functions/events-processor-queue.ts:144-160 | with every lookup answered and every url non-empty, the batch succeeds and every record's url is stored |
| EventsProcessorQueue.KeysKept | src/functions/events-processor-queue.ts:144-160 | no stored url disappears during a batch |
| Clients.ClientSlot.constructor | src/functions/events-processor-queue.ts:17-18 | a slot starts with no client |
| Clients.ClientSlot.Get | src/functions/events-processor-queue.ts:20-34 | the first call creates and stores a client, and every later call returns that same client without creating another |
| UpdatesProcessor.StepFunctions.constructor | src/functions/updates-processor.ts:19 | no execution has been started |
| UpdatesProcessor.ArnsUpTo | src/functions/updates-processor.ts:54-66 | at most one ARN per start is collected, and none of them is empty |
| UpdatesProcessor.AnsweredUpTo | src/functions/updates-processor.ts:60-65 | the starts that returned an ARN, in increasing start order |
| UpdatesProcessor.ArnsInOrder | src/functions/updates-processor.ts:55-66 | the collected ARNs are the returned ARNs of the answered starts, in start order: an in-order subsequence of the replies |
| UpdatesProcessor.AllAnswered | src/functions/updates-processor.ts:60-65 | when every start returns an ARN, there is one ARN per kept event |
| UpdatesProcessor.StartExecution | src/functions/updates-processor.ts:30-72 | exactly one execution is started per kept record, in order, with its converted new image as input; missing ARNs are skipped without failing, and the reply is always `success` |
| UpdatesProcessor.StartExecution2 | src/functions/updates-processor.ts:21-28 | the placeholder handler always reports `success` |
| UpdatesProcessor.ProcessFeatures | src/functions/updates-processor.ts:148-159 | the index receives exactly the event merged with its scores and highlights, under the event's url, and the reply is `success` |
| UpdatesProcessor.ProcessedDocRecovers | src/functions/updates-processor.ts:153-154 | the indexed document gives back the event, its scores and its highlights |
| UpcomingHandlers.SaveUpcoming | src/functions/upcoming-events.ts:40 | a save touches only the event's own url: the event is stored afterwards exactly when it has not started, and a failed save changes nothing |
| UpcomingHandlers.UpdateUpcoming | src/functions/upcoming-events.ts:17-46 | the new image of every kept record is saved once, in record order; the handler returns `debug` unless a save fails |
| UpcomingHandlers.OtherItemsUntouched | src/functions/upcoming-events.ts:38-41 | a url that no saved event carries keeps its stored item, or stays absent |
| UpcomingHandlers.UpdateSucceeds | src/functions/upcoming-events.ts:38-41 | every save succeeds when each event has a url and, unless it has started, hosts and guests |
| UpcomingHandlers.ConcatSnoc | src/functions/upcoming-events.ts:82-85 | appending a batch appends its items to the flattened batches |
| UpcomingHandlers.Batch | src/functions/upcoming-events.ts:82-85 | the loop consumes every item; together the batches are the scanned items in order, each holds 1 to 25 items, and all but the last hold exactly 25 |
| UpcomingHandlers.BatchCount | src/functions/upcoming-events.ts:82-85 | n items make ceil(n / 25) batches |
| UpcomingHandlers.FullBatchesLength | src/functions/upcoming-events.ts:82-85 | full batches hold 25 items each |
| UpcomingHandlers.DeleteRequests | src/functions/upcoming-events.ts:87-105 | one BatchWriteItem per batch, holding one delete request per item keyed by that item's url |
| UpcomingHandlers.Keys | src/functions/upcoming-events.ts:88-96 | each delete request carries its own item's url, in batch order |
| UpcomingHandlers.CutoffIsDate | src/functions/upcoming-events.ts:58-59 | the cutoff is the date part of now's ISO timestamp, before the `T` |
| UpcomingHandlers.CleanupUpcoming | src/functions/upcoming-events.ts:54-108 | a scan response without Items sends no delete; otherwise the requests are the delete requests of a batching of the scanned items |
| UpcomingHandlers.RequestsFollowItems | src/functions/upcoming-events.ts:82-105 | the requests, flattened, hold one key per scanned item in scan order: batching loses, adds and reorders nothing |
| SearchIngest.IndexAllLastWins | src/functions/search-index.ts:37-40 | each indexed url ends up holding the last event indexed under it |
| SearchIngest.IndexAllKeepsOthers | src/functions/search-index.ts:37-40 | a url no event carries keeps its document, or stays absent |
| SearchIngest.IngestSearch | src/functions/search-index.ts:16-45 | each kept record's new image is indexed once, in record order, and the status is always `success` |
| EventUpdates.SendToEventUpdates | src/functions/event-updates.ts:13-50 | the status is always `success`, and the events walked over are the converted new images of the non-REMOVE records that have one, in record order |
| EventUpdates.RemovalsIgnored | src/functions/event-updates.ts:23-25 | appending REMOVE records leaves the selection unchanged |
| OpenSearch.SearchIndex.constructor | src/services/opensearch.ts:49-65 | the index starts with no document |
| OpenSearch.SearchIndex.IndexEvent | src/services/opensearch.ts:49-56 | the event is stored under its url as document id, replacing any earlier document, and nothing else changes |
| OpenSearch.SearchIndex.IndexRichEvent | src/services/opensearch.ts:58-65 | the rich event is stored under its url, replacing any earlier document, and nothing else changes |
| OpenSearch.GetClient | src/services/opensearch.ts:13-33 | the first call creates and stores the client, and every later call returns the same instance without creating another |
| OpenSearch.PageSize | src/services/opensearch.ts:67-70 | the page size is the `size` argument, 10 when none is passed |
| OpenSearch.BuildSearchRequest | src/services/opensearch.ts:67-130 | hits are sorted by `_score` descending then `_id` ascending; `search_after` is set exactly when a non-empty cursor is given, to parts that join back to the cursor |
| OpenSearch.Sources | src/services/opensearch.ts:136 | the events are the hits' `_source` values, in hit order |
| OpenSearch.NewCursor | src/services/opensearch.ts:137-140 | there is no new cursor exactly when there are no hits or the last hit has no sort values; otherwise it is those values joined by `,` |
| OpenSearch.GetAllEvents | src/services/opensearch.ts:67-143 | the page is the hits' sources with the cursor of the last hit, for the request built from the size and the cursor |
| OpenSearch.CursorRoundTrip | src/services/opensearch.ts:128-140 | the next request resumes right after the last hit: splitting the cursor gives back its sort values when none contains a comma |
| OpenSearch.EmptySortRestarts | src/services/opensearch.ts:128-140 | a last hit with an empty sort list yields the empty cursor, which the next request ignores, so it starts again from the first page |
| PostPublisher.Clamp | src/functions/post-publisher.ts:140-141 | the clamped sum lies in [0, 1] and a sum already in [0, 1] is unchanged |
| PostPublisher.CalculateCompositeScore | src/functions/post-publisher.ts:127-146 | the accumulation loop yields the weighted sum clamped to [0, 1] and mapped to `1 + (c - 0.5) * 2`, which lies in [0, 2] |
| PostPublisher.CompositeOfUnitScores | src/functions/post-publisher.ts:128-145 | with every score in [0, 1] the clamp never applies, and a uniform score x gives the factor 2x, because the weights add up to 1 |
| PostPublisher.CompositeMonotone | src/functions/post-publisher.ts:128-145 | raising any one of the ten scores never lowers the composite, since every weight is positive |
| PostPublisher.Known | src/functions/post-publisher.ts:34 | the decoded post-status table has exactly the stored urls |
| PostPublisher.StatusOfIsLookup | src/functions/post-publisher.ts:34 | for a non-empty url, looking it up in the decoded table is what a successful `getPostStatus` returns; an empty url is refused |
| PostPublisher.Keep | src/functions/post-publisher.ts:31-44 | the filtered events are no more than the page's events |
| PostPublisher.KeepAppend | src/functions/post-publisher.ts:31-44 | filtering two pages in sequence is filtering each page in turn |
| PostPublisher.KeepSnoc | src/functions/post-publisher.ts:31-44 | looking at one more event adds it exactly when it is eligible |
| PostPublisher.KeepMembers | src/functions/post-publisher.ts:31-44 | an event is selected by the filter exactly when it occurs and is eligible |
| PostPublisher.UnchangedNotReposted | src/functions/post-publisher.ts:35-40 | an event whose scores have not changed since its last post is never chosen again, since no composite score beats itself by 5% |
| PostPublisher.Take | src/functions/post-publisher.ts:44-47 | the first `maxPosts` events, or all of them when fewer |
| PostPublisher.TakeStable | src/functions/post-publisher.ts:44-47 | once `maxPosts` events are chosen, what follows is ignored |
| PostPublisher.TakeTwice | src/functions/post-publisher.ts:25-47 | cutting the list back after each page gives the same as cutting once at the end |
| PostPublisher.LastPage | src/functions/post-publisher.ts:50-52 | the first page without a truthy cursor, with every earlier page having one |
| PostPublisher.IsEligible | src/functions/post-publisher.ts:32-41 | an event is selected when it was never posted, or when its new composite beats the stored one times 1.05 |
| PostPublisher.SelectFromPage | src/functions/post-publisher.ts:31-48 | the inner loop appends the page's eligible events, in order, and stops once `maxPosts` events are chosen |
| PostPublisher.FilledUp | src/functions/post-publisher.ts:45-47 | after the break, the rest of the page's events are not looked at |
| PostPublisher.RetrieveRelevantEvents | src/functions/post-publisher.ts:17-59 | pages are fetched until one has no cursor or `maxPosts` events are chosen, each call passing the previous page's cursor; the result is `success` with at most `maxPosts` eligible events in page order |
| PostPublisher.CursorsUpTo | src/functions/post-publisher.ts:23-28 | one cursor per fetch made |
| PostPublisher.CursorsFollowPages | src/functions/post-publisher.ts:23-52 | the first fetch has no cursor and every later fetch passes the truthy cursor of the page before it |
| PostPublisher.Chosen | src/functions/post-publisher.ts:25-48 | never more than `maxPosts` events are chosen |
| PostPublisher.ChosenIsFlat | src/functions/post-publisher.ts:25-53 | the chosen events are the first `maxPosts` eligible events of all fetched pages together, in page order |
| PostPublisher.Saturated | src/functions/post-publisher.ts:25-47 | once `maxPosts` events are chosen, later pages change nothing |
| PostPublisher.GenerateTweetEvent | src/functions/post-publisher.ts:65-81 | the tweet event is the event with its tweet replaced by the generated one, and nothing else changed |
| PostPublisher.BskyInput | src/functions/post-publisher.ts:92-101 | the post uses the event's url, the generated tweet as description and the event's attendees; a date is given exactly when the event has one |
| PostPublisher.PostedStatus | src/functions/post-publisher.ts:104-120 | the saved status copies the url and the ten scores, records the Bluesky post time and sets `twitterPostedDate` to null |
| PostPublisher.PostTweetEvent | src/functions/post-publisher.ts:83-125 | the feed gains exactly one post built from the event, then the post status is saved under the event's url, and the reply is `success` |
| PostPublisher.PostedNotReselected | src/functions/post-publisher.ts:34-120 | right after posting, the same event is not chosen again until its composite score improves by more than 5% |
| Bsky.CharUnits | src/services/bsky.ts:37-49 | a character counts as one UTF-16 code unit below U+10000 and as two above |
| Bsky.Utf16 | src/services/bsky.ts:37-49 | a string's `length` is at least its number of characters |
| Bsky.Bmp | src/services/bsky.ts:46-48 | a string of characters below U+10000 has one code unit per character |
| Bsky.BmpIsUtf16 | src/services/bsky.ts:46-48 | for such a string the two encodings agree |
| Bsky.MarkersAreUtf16 | src/services/bsky.ts:61-64 | the pin, calendar and people line prefixes are a newline, one emoji as a surrogate pair, and a space |
| Bsky.RemoveAll | src/services/bsky.ts:40-43 | a global case-insensitive removal never lengthens the text and keeps only units of it |
| Bsky.RemoveAllDropsMatch | src/services/bsky.ts:40-43 | a match at the front, in any letter case, is removed and the scan resumes after it |
| Bsky.RemoveAllKeepsNonMatch | src/services/bsky.ts:40-43 | a unit where no match starts is kept in front of the rest of the result |
| Bsky.RemoveAllNoMatch | src/services/bsky.ts:40-43 | a text without a match is left unchanged |
| Bsky.RemoveCommas | src/services/bsky.ts:43 | removing every comma leaves none |
| Bsky.TrimUnits | src/services/bsky.ts:44 | `trim` keeps a part of the text with no whitespace at either end |
| Bsky.CleanAddressSpec | src/services/bsky.ts:38-45 | the cleaned address has no comma and no surrounding whitespace, is no longer than the address, and is `""` for an absent or empty one |
| Bsky.ShortenSpec | src/services/bsky.ts:51-53 | a description that fits is kept; one that does not is cut to its first `available - 3` units plus `...`, exactly `available` long when `available >= 3` |
| Bsky.AddressLine | src/services/bsky.ts:60-62 | the address line is present exactly when the cleaned address is non-empty, and is 4 units longer than it |
| Bsky.DateLine | src/services/bsky.ts:63 | the date line is present exactly when a start date is given, and is 4 units longer than the formatted date |
| Bsky.AttendeesLine | src/services/bsky.ts:64 | the attendees line is present exactly when the count is positive, and is 14 units longer than its digits |
| Bsky.ComposeText | src/services/bsky.ts:59-65 | appending the lines in turn builds the post text: description, optional address, date and attendees lines, then the url |
| Bsky.PostTextEndsWithUrl | src/services/bsky.ts:65 | the text always ends with a newline and the url |
| Bsky.PostTextBudget | src/services/bsky.ts:36-65 | with room for at least the dots and a formatted date of at most 27 units, the post is at most 300 units long |
| Bsky.NegativeAttendeesReserveOnly | src/services/bsky.ts:48-64 | a negative count reserves room for its digits but prints no line |
| Bsky.PostRecordFor | src/services/bsky.ts:73-114 | the record is an `app.bsky.feed.post` with the composed text, and has an image embed exactly when an image is given, holding the uploaded blob at 1000 by 500 |
| Bsky.Feed.constructor | src/services/bsky.ts:25-34 | a feed starts with no post |
| Bsky.Feed.SendTweet | src/services/bsky.ts:24-121 | exactly one record is posted, and nothing else changes |
| Bsky.Bytes | src/services/bsky.ts:125-130 | one byte per character code |
| Bsky.BytesOfBinary | src/services/bsky.ts:127-129 | for a binary string, byte i equals character code i |
| Bsky.EncodedPartOfDataUri | src/services/bsky.ts:124 | for a data URI whose header and payload hold no comma, the part decoded is the payload |
| Bsky.DataUriToBytes | src/services/bsky.ts:123-131 | the decode error of `atob` is passed on; otherwise a fresh array holds one byte per decoded character, byte i being character code i |
| LambdaAuthorizer.TokenOf | src/functions/lambda-authorizer.ts:19-20 | the token holds no space, and is undefined when the headers or the authorization header are missing |
| LambdaAuthorizer.BearerToken | src/functions/lambda-authorizer.ts:19-20 | `Bearer <token>` yields the token: the second space-separated part |
| LambdaAuthorizer.NoSpaceNoToken | src/functions/lambda-authorizer.ts:19-20 | a header without a space carries no token |
| LambdaAuthorizer.SearchSpec | src/functions/lambda-authorizer.ts:25 | a lazy group ends at the first position from which the rest of the pattern can match, and the match starts at the first position where it can |
| LambdaAuthorizer.RestEnd | src/functions/lambda-authorizer.ts:25 | the greedy last group runs to the first line break or the end |
| LambdaAuthorizer.Groups | src/functions/lambda-authorizer.ts:25 | the lazy groups are found in order, each at least one character long, and all within the ARN |
| LambdaAuthorizer.LocateGroups | src/functions/lambda-authorizer.ts:25 | once the fixed prefix is found, a match has non-empty region, account, API id and method, in order |
| LambdaAuthorizer.Locate | src/functions/lambda-authorizer.ts:25-28 | the leftmost match of the pattern has non-empty groups in order |
| LambdaAuthorizer.ParseRouteArn | src/functions/lambda-authorizer.ts:25-32 | an ARN that does not match throws `Invalid routeArn`; a match gives non-empty region, account and method, and a path that starts with `/` |
| LambdaAuthorizer.SearchAt | src/functions/lambda-authorizer.ts:25 | a lazy group ends at the first place where it can end, when its closing character does not occur before |
| LambdaAuthorizer.BuiltLayout | src/functions/lambda-authorizer.ts:23 | in a route ARN built from its parts, each part sits where the pattern's groups expect it |
| LambdaAuthorizer.LocateLaid | src/functions/lambda-authorizer.ts:25 | the pattern's groups in a route ARN laid out from well-formed parts are exactly those parts' places |
| LambdaAuthorizer.ParseLocated | src/functions/lambda-authorizer.ts:25-32 | a located match is what parsing returns |
| LambdaAuthorizer.CutLaid | src/functions/lambda-authorizer.ts:29-32 | the groups of a laid-out route ARN read back as its region, account, method and `/` plus the rest |
| LambdaAuthorizer.ParseBuiltRouteArn | src/functions/lambda-authorizer.ts:23-32 | parsing a route ARN built from well-formed parts gives the parts back, the path being `/` followed by everything after the method |
| LambdaAuthorizer.RuleParts | src/functions/lambda-authorizer.ts:78 | neither the rule's method part nor its path part holds a `:` |
| LambdaAuthorizer.EvaluatePolicy | src/functions/lambda-authorizer.ts:69-84 | the loop passes exactly when the policy is empty or some rule's method and path parts prefix the request's method and path |
| LambdaAuthorizer.RuleMatchesIff | src/functions/lambda-authorizer.ts:78-80 | a rule `M:P` matches exactly the requests whose method starts with M and whose path starts with P |
| LambdaAuthorizer.RulePathStopsAtColon | src/functions/lambda-authorizer.ts:78 | only the text up to a second `:` counts as the rule's path |
| LambdaAuthorizer.RuleWithoutColonMatchesNothing | src/functions/lambda-authorizer.ts:78-80 | a rule without `:` compares the path with `undefined`, so it matches no path starting with `/` |
| LambdaAuthorizer.GrantOf | src/functions/lambda-authorizer.ts:52-71 | an item grants access exactly when it has a non-empty token and a non-empty principal; the grant carries that principal |
| LambdaAuthorizer.AuthorizeRequest | src/functions/lambda-authorizer.ts:16-115 | errors come in order: a bad ARN, missing headers, an absent token or one the lookup refuses as an empty key, a bad lookup status. Otherwise the context carries the route and the user agent, and the request is authorized exactly when the item grants access and its policy passes. A principal and `policyPassed` appear exactly when the item grants access, with `policyPassed` equal to `isAuthorized` |
| JsText.Split | src/functions/lambda-authorizer.ts:20 | `split` on one character gives at least one part, and no part contains the separator |
| JsText.JoinSplit | src/services/opensearch.ts:129-139 | joining the parts of a split gives back the string |
| JsText.SplitJoin | src/services/opensearch.ts:129-139 | splitting a join gives back the parts when none contains the separator |
| JsText.SplitNoSeparator | src/functions/lambda-authorizer.ts:78 | a string without the separator splits into itself alone |
| JsText.SplitPrefix | src/functions/upcoming-events.ts:59 | a separator-free prefix followed by the separator is the first part |
| JsText.IndexOf | lib/sst-sfn/statemachine.ts:105 | the first index at which the pattern occurs, or none when it never does |
| JsText.ReplaceFirstSpec | lib/sst-sfn/statemachine.ts:105 | `replace` with a string pattern replaces only the first occurrence, keeping the text around it, and changes nothing when there is none |
| JsText.SliceTo | src/services/bsky.ts:53 | `slice(0, end)` is a prefix, of length `end` when in range, counting back from the end for a negative `end` |
| JsText.NatToString | src/services/bsky.ts:48 | a natural number's decimal form is digits without a leading zero, a single digit exactly below 10 |
| JsText.NatToStringValue | src/services/bsky.ts:48 | the decimal form of `n` denotes `n` |
| JsText.IntToString | src/services/bsky.ts:48 | an integer's decimal form is non-empty and starts with `-` exactly when it is negative |
| JsText.IntToStringValue | src/services/bsky.ts:48 | `n.toString()` is the canonical spelling of `n`: an optional `-`, then digits without a leading zero that denote its magnitude |
| JsText.Dedup | src/storage/all-events.ts:69-71 | `Array.from(new Set(xs))` is no longer than `xs` |
| JsText.DedupSpec | src/storage/all-events.ts:69-71 | the result has no duplicates and the same elements as the input |
| JsText.FirstIndex | src/storage/all-events.ts:69-71 | the index found holds the element, and no earlier index does |
| JsText.DedupFirstOccurrenceOrder | src/storage/all-events.ts:69-71 | the result keeps the elements in the order of their first occurrences in the input |
| JsText.DedupOfDistinct | src/storage/upcoming-events.ts:61-62 | a list without duplicates is unchanged |
| JsText.DedupIdempotent | src/storage/upcoming-events.ts:61-62 | deduplicating twice is deduplicating once |
| Common.Somes | src/functions/search-index.ts:33 | `filter(e => e !== undefined)` keeps at most every entry |
| Common.SomesFromInput | src/functions/search-index.ts:33 | every kept value comes from the input |
| Common.SomesAppend | src/functions/search-index.ts:33 | the filter distributes over concatenation, so it keeps the input's order |

## Left out

- The builder's base classes (`state.ts`, `task-base.ts`, `map.ts`, `pass.ts`) are not part of this model. The base `toJSON`, the base `createPermissions` and the chain's `serializeToDefinition` are parameters. Graph checks, retries and name collisions live in them and are not modelled.
- Pulumi and SST resource creation (`aws.iam.Role`, `RolePolicy`, `sfn.StateMachine`, `transform`, `$interpolate`, `Output`) is modelled only as records appended to a `Registry`. The trigger helpers `addCronTrigger` and `addApiGatewayV2*` are pure wiring and are left out.
- The infrastructure files, `sst.config.ts`, the tests, the scripts and the types-only files are provisioning, configuration or fixtures, with no behaviour of the core.
- `openai.ts` and the LLM calls inside `extractFeatures` are foreign calls. The scores and highlights they produce are inputs.
- Network clients (DynamoDB, SQS, Step Functions, OpenSearch, Apify, the Bluesky agent, axios), `sharp` compression, image fetching, the Bluesky login and rich-text facet detection are left out. They are objects that record requests, or parameters. `atob` is a parameter of `Bsky.DataUriToBytes`.
- Wall-clock time and date libraries are a `Clock` value: the current instant and date parsing. Invalid dates (NaN) are not modelled. `formatDate` is a parameter. One `Clock` serves a whole batch in `saveToAll` over a queue batch and in `updateUpcoming`, although the source reads the time afresh for each record; the instants between records are taken to be equal.
- JSON `stringify` and `parse`, and the string form of numbers, are not modelled. A DynamoDB `N` holds a `real`, and `parseInt` of it is truncation toward zero. `parseFloat(x.toString())` is taken to give `x` back.
- Floating-point arithmetic is modelled on reals. Score weights and the 1.05 factor are exact, so IEEE rounding is not captured.
- JSON `null` inside a list cannot occur in the model: lists of strings hold strings only. The all-events decoder's null filter is therefore the identity here.
- A falsy post-status date is written as a `null` attribute value, which the SDK's marshaller drops. The model writes no attribute for it, which is what the table receives; the `null` in the request itself is not modelled.
- A DynamoDB scan is one page: `LastEvaluatedKey` pagination is not followed, as in the source.
- The deletion of expired items by the table's time-to-live process happens outside the code and is not modelled; only the `ttl` written is.
- `Promise.all` in `cleanupUpcoming` runs the batch writes concurrently. Only the batching and the requests are modelled, not the deletions they cause.
- UpcomingHandlers.Batch: `splice` on the scanned array is modelled on a sequence value, so the in-place shrinking of the array is not captured.
- PostPublisher.RetrieveRelevantEvents requires that some page comes without a cursor. The source loop ends only when the index runs out, and the pages are a finite input. `maxPosts` is `Number(POST_PUBLISHER_BATCH_SIZE)` and is modelled as a whole number. A fractional value ("5.5" lets six events in) and NaN (no event is ever enough) are not modelled.
- PostPublisher.Known: the publisher's status lookups read the decoded status table. A failing lookup status is not modelled, nor the `ValidationException` that `getPostStatus` throws for an event with an empty url: such an event is treated as never posted.
- OpenSearch sort values are strings, as the cursor joins them with `,`. Numeric sort values are not modelled.
- Crawler: a dataset item without a `url`, or with fields of the wrong JSON type, is not representable.
- LambdaAuthorizer.AuthorizeRequest: the token lookup reuses the url-keyed `Table`, keyed by the token. A `GetItem` with an empty key is the `ValidationException` path.
- LambdaInvokeTask.LambdaInvoke.ToJson: the spread copy equals the base serialisation only when that has no repeated key.
- Strings are sequences of UTF-16 code units (`JsString`) where length matters: in the Bluesky post budget. Elsewhere one `char` is one code unit.
- AllEventsStorage.ReadBackSets: string sets are modelled as lists that DynamoDB reads back in insertion order, with duplicates kept. DynamoDB promises neither, so with more than one element the order read back is not guaranteed.
- AllEventsStorage.RoundTrip: rests on string sets read back in insertion order, as above.
- AllEventsStorage.StoredIdempotent: rests on string sets read back in insertion order, as above.
- UpcomingStorage.ReadBackPeople: rests on string sets read back in insertion order, as above.
- UpcomingStorage.UpcomingRoundTrip: rests on string sets read back in insertion order, as above.
- UpcomingStorage.SaveThenLookup: rests on string sets read back in insertion order, as above.
- UpcomingStorage.DecodeAllOfSaved: rests on string sets read back in insertion order, as above.
- StateMachines.StateMachine.constructor: the machine's name is passed through unchanged. The `physicalName(256, name)` suffixing and truncation is not modelled.
- OpenSearch.BuildSearchRequest: the query's `dateStart` range, from now to the end of the fourteenth day ahead, is a fixed part of the request. The filtering it causes belongs to the search function, which is a parameter.
- LambdaAuthorizer.AuthorizeRequest: an absent token yields `ValidationException` without a lookup. The source sends `{S: undefined}` as the key, which fails with an error from the SDK or the service whose text is not modelled.
- Logging (`log.silly`, `log.debug`, `console.log`) has no effect on results and is left out.

## Findings

| source | as written | input that shows it | evidently intended | confidence | as-written member | corrected member |
|---|---|---|---|---|---|---|
| src/storage/upcoming-events.ts:97-99 | `ttl` is `dateStart.diff(now, "seconds")`, a duration, but the table's time-to-live reads it as an epoch second | saved at 1 700 000 000 000 ms for an event one day later: `ttl` is 86 400, which is 2 January 1970, decades before the event. DynamoDB ignores expiry times more than five years in the past, so such items are likely never deleted, rather than deleted at the start | `ttl` is the epoch second at which the event starts | not executed | UpcomingStorage.TtlAsWrittenAlreadyExpired | UpcomingStorage.ExpiryNotBeforeSave |
