# Verification of the CRM mirror, lead capture, booking and Trade services

This project models the stateful core of the backend in Dafny and proves properties of it that
hold for every input, every run or every interleaving. `dafny verify dfyconfig.toml` checks it.

| file | models |
|---|---|
| `RateLimiter.dfy`, `FreshsalesClient.dfy` | the token bucket, the retried `get`/`post`, the four paginators |
| `CaptureRace.dfy` | lead capture as a race: any number of requests, one database turn at a time, in any order |
| `Leads.dfy`, `LeadService.dfy`, `PackDelivery.dfy`, `LeadCrmSync.dfy`, `LeadLifecycle.dfy` | lead capture, pack and viewing emails, the CRM push, and runs of all of them |
| `EmailEventIngest.dfy`, `LeadScoring.dfy` | the SendGrid event log with its rollup columns, and the engagement score |
| `DealsRepo.dfy`, `WebhookIngest.dfy`, `DealSync.dfy` | the deal snapshot, the event log beside it, and the batched bulk sync |
| `Bookings.dfy` | room bookings as an allocator of half-open intervals with cancellation |
| `Counterexamples.dfy` | concrete runs in which a promise of the documentation fails |
| `TradeRepo.dfy`, `TradeCapture.dfy`, `TradeCrmSync.dfy`, `TradeEligibility.dfy`, `TradeLifecycle.dfy` | two-row registrations, the approval-gated push, document replacement, and runs of all of them |

## How the model is built

Tables are fields of classes, and the source's services are methods that reassign them. Each
method is proved to change the state exactly as a specification function of the old state says;
lemmas then prove what the source promises about that function, one call at a time, and `After`
folds it over every sequence of calls, so that the lemmas about runs reach every reachable state.

Whatever the code cannot decide is a parameter: `accepts`, `takesPack`, `dbUp`, `draw`, `server`
and the like are arbitrary functions giving the answer of the CRM, the mail transport, the
database, the code generator or the HTTP server, and `now` is the clock. An instant is a number of
microseconds. Emails and the timing answer are taken after `strip().lower()`. The two capture methods take a `rival`: a
competing submission that commits between their lookup and their insert. Reading an attribute of an
object that a rollback has expired raises.

## What the proofs turned up

Where the code and its own documentation part, the model follows the code. Each point has its exact
condition, and `Counterexamples.dfy` has a concrete run for those that take one.

- A pack marked `skipped` is documented as retried once the transport is configured
  (app/services/pack_delivery.py:108). The sweep only lists `pending` and `failed`, so it never is:
  `SkippedIsNotRetried`, `SkippedPackIsPassedOver`. `NextEndsSkipIff` says which calls do end it.
- A Trade submission whose email is another registration's second participant, and which names a
  second participant whose own email is free, overwrites the very row it matched. The submitted email
  is then in no row of the program and sending the form again registers afresh, against the
  idempotency the docstring promises (app/services/trade_capture.py:107-111). `SubmittedEmailKeptIff`
  and `ResubmitIsIdempotentIff` say that this is the only way it happens; `SecondParticipantRegisters`
  shows one.
- A second participant's email already used in the program makes the call fail after the primary
  row was stored: `EmailInUseIff`, `SecondEmailIsTaken`.
- The race recovery of a Trade registration is documented as re-fetch and merge
  (app/services/trade_capture.py:110-111). The rollback before it expires the loaded program, and
  reading `program.id` for the re-fetch (line 137) raises in this async session; the lead service
  re-fetches its campaign for that very reason (app/services/lead_service.py:155-156). So a call whose
  email a rival took fails: `CaptureRegistration`, `RivalTakesEmailIff`, `SameFormTwiceAtOnce`.
- In the same way a booking whose first insert fails and whose retry is stored is saved, but the call
  fails: the confirmation reads the room's name (app/services/booking_service.py:144), which the
  rollback expired: `CreateBooking`, `CodeCollides`.
- A webhook carrying an owner without a reference row records that the owner is gone but leaves the
  old one in the snapshot. The log stops replaying to the snapshot in an unbroken chain exactly when
  the deal had an owner, no later delivery repairs it, and redelivery adds events: `IngestReplaysIff`,
  `RedeliveryIff`, `RunReplaysIff`, `UnknownOwner`.
- The bulk sync writes no events, so the log still replays after it exactly when every active deal
  was found as stored: `SyncKeepsReplayIff`, `SyncMovesDeal`.
- A staff resend that ends a sent lead's `sent` status does not re-queue the CRM push. Over any run a
  synced nog-2026 lead is out of date exactly when such a resend came after its last push: `StaleIff`,
  `ResendStaysFreshIff`, `ResendLeavesStale`.
- A Trade participant passed over for want of approval stays `skipped` after being approved:
  `SweepLeavesSettledRows`, `ApprovedTooLate`. `SweptIsSyncedIff` says which rows a sweep does sync.
- One Trade form sent twice at once can leave two second rows in one registration, because only the
  index on emails guards them: exactly when the second participant gave no email, `RacingSecondsIff`.
- An upload may name any program for any registration (app/services/trade_eligibility.py:73-84), and
  the status follows the program named last. It takes a submitted participant back exactly when that
  program requires more than is there: `StepClimbsIff`, `OtherProgramTakesBack`.
- A webhook batch is documented as never dropped for one bad row
  (app/services/email_event_ingest.py:84-85). An insert the database refuses leaves the session without
  a rollback, so every later entry of the batch fails too: `IngestEvents`, `BatchIsCutIff`,
  `RefusalCutsTheBatch`.
- The IntegrityError that capture re-raises, like any failure of a racing capture, needs a row with
  the request's key deleted between two of its turns, of which the read-back after the commit is one:
  `FailsIff`, `FailureNeedsDelete`, `DeleteCanFailARequest`, `DeleteCanFailACreation`.

## Model

| member | source | states |
|---|---|---|
| RateLimiter.SlidingWindowBound | app/freshsales/client.py:25-43 | For any readings of a non-decreasing clock and any instants s <= t, the requests let through in [s, t] are at most capacity + rate * (t - s). |
| RateLimiter.RateLimiter.LetThroughAtMost | app/freshsales/client.py:22-43 | The sliding-window bound holds of every limiter object at every moment, for the readings it has taken. |
| RateLimiter.LevelIsTightestHeadroom | app/freshsales/client.py:36-41 | The token level is exactly the least headroom over all windows: no window allows less, some window allows just that. |
| RateLimiter.GrantedIffEveryWindowAllows | app/freshsales/client.py:36-41 | A reading takes a token if and only if letting it through keeps the bound of every window ending there: nothing allowed is refused and nothing refused is allowed. |
| RateLimiter.WindowBound | app/freshsales/client.py:34-43 | Grants from one reading to another never exceed the capacity plus what was earned in between. |
| RateLimiter.TokensStayInRange | app/freshsales/client.py:37-40 | Tokens stay between 0 and the capacity after any run of readings. |
| RateLimiter.BurstIsTight | app/freshsales/client.py:26-41 | A full bucket lets exactly max_per_hour requests through at one instant and refuses the next, so the bound is reached. |
| RateLimiter.SleepRefills | app/freshsales/client.py:42-43 | Sleeping for the computed wait leaves a whole token at the next reading. |
| RateLimiter.WaitIsShortest | app/freshsales/client.py:42-43 | The computed wait is the shortest after which a whole token is there. |
| RateLimiter.RateLimiter.constructor | app/freshsales/client.py:25-30 | A new limiter is full, earns max_per_hour / 3600 tokens a second and has taken no reading that counts. |
| RateLimiter.RateLimiter.Acquire | app/freshsales/client.py:32-43 | Takes at most two readings, the last one granted and an earlier one refused; earlier decisions stand and one request more is let through. |
| RateLimiter.RateLimiter.Refill | app/freshsales/client.py:35-38 | A turn adds one reading to the run, refills by the time passed up to the capacity, and is granted exactly when a whole token is there. |
| FreshsalesClient.ThrottleIsHonoured | app/freshsales/client.py:58-78 | A throttle that is retried at all is waited out in full; no wait passes 30 s; without Retry-After it is at least 1 s. |
| FreshsalesClient.BackoffBound | app/freshsales/client.py:71-111 | However the server answers, one call sleeps at most 90 s between its attempts, and at most 7 s when no Retry-After is sent. |
| FreshsalesClient.WaitsAre | app/freshsales/client.py:71-78 | The waits of one call: what Retry-After says up to 30 s, and without it 1, 2 and 4 s. |
| FreshsalesClient.Call | app/freshsales/client.py:106-128 | At most four attempts: the next one is made exactly when the last met a transport error, a 5xx, or a 429 without a readable Retry-After or with one of at most 30 s; anything else is returned at once. Each attempt took exactly one token of the limiter and every wait was slept. |
| FreshsalesClient.PaginateView | app/freshsales/client.py:205-215 | Terminates at the first empty page and yields the items of the pages up to it in order. |
| FreshsalesClient.ViewIsCompleteIff | app/freshsales/client.py:205-215 | The view is read in full exactly when no non-empty page follows the first empty one; for a list cut into non-empty pages it always is, in one request more than there are pages. |
| FreshsalesClient.PaginateTotal | app/freshsales/client.py:225-238 | Terminates at the first page that is empty or brings the items seen up to its total, and yields the items so far in order. |
| FreshsalesClient.TotalIsCompleteIff | app/freshsales/client.py:267-284 | The list is read in full exactly when no page before the last reports a total already reached; with right totals it always is. |
| FreshsalesClient.PaginateTimeline | app/freshsales/client.py:288-299 | Terminates at the first page without has_next and yields the items up to and including it. |
| FreshsalesClient.TimelineRoundTrip | app/freshsales/client.py:288-299 | With has_next set on every page but the last the generator yields exactly the list, in as many requests as there are pages. |
| CaptureRace.OneRowPerKey | app/models/lead.py:46 | In every interleaving, with or without deletes, there is at most one row per (campaign, email). |
| CaptureRace.StepKeepsInv | app/services/lead_service.py:138-170 | Every database turn of every request keeps the race invariant: existing rows stay, every id a request holds is a row with its key, a created row has one creator. |
| CaptureRace.ExecKeepsInv | app/services/lead_service.py:138-170 | The race invariant holds after every interleaving without deletes, and no request changes its key. |
| CaptureRace.RequestsShareOneRow | app/services/lead_service.py:138-170 | Without deletes no request fails, and all finished requests for one key return the one row that has it. |
| CaptureRace.ExactlyOneCreates | app/services/lead_service.py:149-170 | Once a request for a key is finished, exactly one request has created the row, and reports it when it is finished itself, when the row did not exist before; none has when it did. |
| CaptureRace.FiveTurnsFinish | app/services/lead_service.py:138-170 | No request waits for another: whatever the others do and delete, five database turns of its own finish it, the read-back after the commit included. |
| CaptureRace.FailsIff | app/services/lead_service.py:138-170 | In every interleaving, deletes included, a request fails if and only if at one of its turns - second lookup, update or read-back after the commit - the row it needs is gone. |
| CaptureRace.FailureNeedsDelete | app/services/lead_service.py:157-160 | A failed request lost its row to a delete of a row with its key that came between two consecutive turns of its own. |
| CaptureRace.DeleteCanFailACreation | app/repositories/leads_repo.py:25-29 | A concrete interleaving with one delete, between the commit of a new row and its read-back, in which the request that created it fails. |
| CaptureRace.DeleteCanFailARequest | app/services/lead_service.py:157-160 | A concrete interleaving with one delete, between the conflict and the second lookup, in which a request fails. |
| Bookings.BookingService.constructor | app/services/booking_service.py:58-66 | The empty table is allocated. |
| Bookings.BookingService.CreateBooking | app/services/booking_service.py:73-112 | Returns the booking exactly when the times are valid, the room is active, the slot is free and the first insert goes through; when only a later attempt does, the booking is stored and the call fails; otherwise it says which check failed first and leaves the table alone. What is stored is one row with the room, booker, start and end asked for, confirmed, with the code drawn at the first attempt that stores, behind the rows there were. |
| Bookings.BookingService.CancelBookingById | app/services/booking_service.py:122-133 | Sets the booking with that id to cancelled if there is one, reports not-found otherwise, changes nothing else, and keeps the allocation. |
| Bookings.BookingService.CancelBooking | app/services/booking_service.py:115-133 | Succeeds exactly when some booking has the code, sets that one to cancelled and changes nothing else of the table. |
| Bookings.BookingService.Cancel | app/services/booking_service.py:129-133 | The status of that row becomes cancelled whatever it was; its room, booker, interval and code, and every other row, stay. |
| Bookings.BookingService.CountActiveNow | app/repositories/bookings_repo.py:60-71 | Returns the number of confirmed rows that have started and not ended, which is at most the number of rooms. |
| Bookings.OverlapIffSharedInstant | app/repositories/bookings_repo.py:80-97 | The SQL overlap test holds exactly when some instant lies in both intervals. |
| Bookings.RunStaysAllocated | app/services/booking_service.py:73-133 | After every serial run of bookings, cancellations and room changes, confirmed bookings of a room are pairwise disjoint, codes are unique and every booking has a known room and a positive length. |
| Bookings.NoDoubleBooking | app/services/booking_service.py:85-87 | An instant of a room covered by one booking is covered by no other. |
| Bookings.BusyIffBooked | app/repositories/bookings_repo.py:80-97 | A request is in conflict with what is stored if and only if some instant it asks for is booked in the room. |
| Bookings.CreateBooks | app/services/booking_service.py:85-98 | A stored booking makes exactly the instants asked for, in the room asked for, booked, beside those that were. |
| Bookings.BookedIsRefused | app/services/booking_service.py:85-133 | Along any run: after a booking and until its cancellation, every request for the room that meets the interval asked for is refused and changes nothing. |
| Bookings.TimeCountsInstants | app/services/booking_service.py:85-87 | Adding up the bookings' shares of a window counts its booked instants with multiplicity. |
| Bookings.BookedTimeFitsWindow | app/services/booking_service.py:85-87 | The confirmed time of a room inside any window never exceeds the window. |
| Bookings.ActiveIsRoomsInUse | app/repositories/bookings_repo.py:60-71 | The number of bookings in progress is the number of rooms in use. |
| Bookings.ActiveAtMostRooms | app/repositories/bookings_repo.py:60-71 | count_active_now never exceeds the number of rooms. |
| Bookings.CancelUndoesCreate | app/services/booking_service.py:89-133 | Booking and cancelling what was booked leaves every room booked at exactly the instants it was before. |
| Bookings.CancelFreesExactly | app/services/booking_service.py:129-133 | In any allocated state, cancelling any booking frees exactly its own interval in its own room and nothing else. |
| Bookings.InsertKeepsOrder | app/repositories/bookings_repo.py:114-114 | Placing a disjoint booking by its start time keeps the list one after another. |
| Bookings.AvailabilityIsExact | app/repositories/bookings_repo.py:100-116 | The availability list is in order without overlaps, holds exactly the confirmed bookings meeting the window, and inside the window a slot is free exactly when it meets none of them. |
| DealsRepo.UpsertColumn | app/repositories/deals_repo.py:17-38 | An upsert changes exactly the columns it carries, of exactly the deal it names, and creates the row if it is missing. |
| WebhookIngest.DealMirror.IngestWebhook | app/services/webhook_ingest.py:53-134 | Appends the detected events in order and merges the non-null columns, as the specification of one delivery says. |
| WebhookIngest.ChangesLead | app/services/change_detection.py:24-68 | The events detected lead from the stored ids to the new ones: each starts where the one before it ended, moves something, and together they end at the new ids. |
| WebhookIngest.ChangesReplay | app/services/change_detection.py:24-68 | Appending the detected events to a log that replays takes that deal's fold to the new ids, leaves every other deal's fold, and keeps the chain of old ids. |
| WebhookIngest.IngestStores | app/services/webhook_ingest.py:111-133 | A delivery leaves the new pipeline and stage in the snapshot, the new owner unless it is null, and every other deal as it was. |
| WebhookIngest.IngestWrites | app/services/webhook_ingest.py:53-133 | Column by column: the deal named has the pipeline and stage its names resolve to, the owner carried if it has a reference row, the payload's time or else the clock as stage_updated_at, and every other value carried; a column nothing is carried for keeps its value, and so does every other deal. |
| WebhookIngest.EventsCarryTime | app/services/webhook_ingest.py:94-120 | Every event a delivery appends is about its deal and has the instant that the snapshot then has as stage_updated_at: the payload's time or else the clock. Older events stay. |
| WebhookIngest.ColumnIsLastCarried | app/services/webhook_ingest.py:53-133 | After any webhook-only run each column of each deal is the last value carried for it, and null exactly when none was. |
| WebhookIngest.IngestReplaysIff | app/services/webhook_ingest.py:54-133 | A delivery keeps the log replaying to the snapshot if and only if it does not drop an owner the deal has; it keeps the chain of old ids either way. |
| WebhookIngest.RedeliveryIff | app/services/webhook_ingest.py:54-133 | A second delivery adds no event if and only if the first dropped no owner; if the payload carries its time it then changes nothing. |
| WebhookIngest.AdriftStays | app/services/webhook_ingest.py:54-133 | An owner in the snapshot that the events do not know of stays so under every delivery that does not break the chain. |
| WebhookIngest.StepReplaysOrBreaks | app/services/webhook_ingest.py:54-133 | One delivery takes a log that replays to one that replays, or, exactly when it drops an owner, to one that is broken; a broken log stays broken. |
| WebhookIngest.RunReplaysIff | app/services/webhook_ingest.py:54-133 | Over any webhook-only run the log replays to the snapshot in an unbroken chain at a given point if and only if no delivery before it dropped an owner the deal had: what one drops no later one repairs. |
| WebhookIngest.StoredOwnersAreKnown | app/services/webhook_ingest.py:86-92 | While every owner carried is known, every stored owner is. |
| WebhookIngest.WebhookRunReplays | app/services/webhook_ingest.py:54-133 | With every owner carried known, the folded events equal the snapshot's pipeline, stage and owner for every deal, and each event's old ids are the fold before it. |
| DealSync.Session.Upsert | app/services/deal_sync.py:99-113 | One record: skipped exactly when its pipeline is not active, else upserted with unreferenced stage and owner dropped; all but fewer than 25 upserts are committed. |
| DealSync.SyncFeed | app/services/deal_sync.py:117-118 | Every record of a stream is handled once, in order. |
| DealSync.RunDealSync | app/services/deal_sync.py:89-127 | Wherever a stream breaks off, the committed upserts are a prefix of those performed, short by at most 24; a complete run commits all; synced and skipped add up to the records fetched. |
| DealSync.FetchedIff | app/services/deal_sync.py:115-127 | A record is fetched if and only if a view, or a pipeline that is not the default one, has it, and no such stream before it broke off. |
| DealSync.ParsedColumn | app/services/deal_sync.py:39-72 | Each column of the parsed record is the value the record has for it, zero counting as a missing deal_stage_id. |
| DealSync.SyncRefinesFold | app/services/deal_sync.py:99-113 | After a sync each column of each deal is the last storable value fetched for it in an active pipeline, or what it was; a deal exists if it did or was fetched. |
| DealSync.RerunChangesNothing | app/services/deal_sync.py:75-127 | Syncing an unchanged CRM again changes nothing. |
| DealSync.OverlapIsHarmless | app/services/deal_sync.py:116-119 | With identical records in overlapping views only which records are fetched matters, not how often or in what order. |
| DealSync.SyncKeepsReferences | app/services/deal_sync.py:104-109 | Every stored stage and owner id keeps having a reference row. |
| DealSync.SyncKeepsReplayIff | app/services/deal_sync.py:99-113 | The sync writes no events: the webhook log still replays to the snapshot exactly when every active deal fetched was found as stored. |
| EmailEventIngest.EngagementStore.IngestEvents | app/services/email_event_ingest.py:83-93 | Handles the entries in order up to the first one whose insert the database refuses, never raises, and returns exactly the number of events stored. |
| EmailEventIngest.EngagementStore.IngestEvent | app/services/email_event_ingest.py:96-147 | Stores an event if and only if the kind is open, click or another tracked one, the id is there and not in the log, the lead is there, the recipient is missing or the lead's own address, and the insert is not refused; the event stored is this entry's, and the lead is then bumped. After a refusal the session is unusable. |
| EmailEventIngest.LogGrowsIff | app/services/email_event_ingest.py:96-147 | The same of the state as a whole: under exactly that condition the log is the old one and this entry's event; otherwise nothing changes at all. |
| EmailEventIngest.EventsAreDelivered | app/services/email_event_ingest.py:96-147 | In every reachable state each event of the log came in a batch of the run, of a tracked kind, with its id, time, link and material, for a lead that is there, and was addressed to nobody or to that lead. |
| EmailEventIngest.HandledIs | app/services/email_event_ingest.py:83-93 | The entries handled are those before the first refused insert, all of them when there is none. |
| EmailEventIngest.BatchIsCutIff | app/services/email_event_ingest.py:83-93 | A refused insert costs more than its own row if and only if some later entry of the batch would be stored as things are at the refusal. |
| EmailEventIngest.ResolveMaterial | app/services/email_event_ingest.py:69-80 | Returns the label of the first asset, over the campaigns in order, that has the link. |
| EmailEventIngest.MaterialIsFirst | app/services/email_event_ingest.py:69-80 | A link gets a label if and only if it is not empty and some asset of some campaign has it, and then the label of the first such asset of the first such campaign. |
| EmailEventIngest.BumpLeadRollup | app/services/email_event_ingest.py:150-180 | Updates the latest open, the count and the clicked list, and recomputes the score exactly when one of them changed. |
| EmailEventIngest.ScoreFollowsSignals | app/services/email_event_ingest.py:150-180 | The stored score becomes that of the new signals at the clock exactly when opens, latest open or clicked list changed; the address and the other signals never change. |
| EmailEventIngest.StoreAgrees | app/services/email_event_ingest.py:145-180 | Storing an event and bumping the lead keeps every lead's rollup in agreement with the log. |
| EmailEventIngest.RunAgrees | app/services/email_event_ingest.py:104-180 | In every reachable state, with captures and deliveries in between: opens are the number of stored opens, the opened time is their maximum, clicked is the list of resolved labels in first-click order, and event ids are unique. |
| EmailEventIngest.ClickedIsExact | app/services/email_event_ingest.py:167-172 | The clicked list has no repeats and holds exactly the labels clicked. |
| EmailEventIngest.LogIsOldAndFresh | app/services/email_event_ingest.py:96-143 | After any batch the log holds the old events and exactly what the wanted, not yet recorded deliveries store. |
| EmailEventIngest.DeliveryOrderIndependence | app/services/email_event_ingest.py:83-181 | The same timestamped events, repeated, reordered or split in any way, leave the same stored events, open count, latest open and set of clicked materials on every lead. |
| EmailEventIngest.BatchesConcatenate | app/services/email_event_ingest.py:83-93 | Splitting a delivery into batches does not matter. |
| EmailEventIngest.IngestNeverLowersScore | app/services/email_event_ingest.py:157-180 | Ingesting an event never lowers any lead's score as of any instant, and a stored open leaves the stored score up to date. |
| LeadScoring.FirstIsBest | app/services/lead_scoring.py:91-95 | In a ranked tier table the first entry that applies is worth the most of those that do. |
| LeadScoring.Scan | app/services/lead_scoring.py:91-112 | A scan with an early return finds the most points any applying entry is worth. |
| LeadScoring.EngagementScore | app/services/lead_scoring.py:115-136 | The accumulated score is the capped sum of the best applying tier of each signal. |
| LeadScoring.ScoreIs | app/services/lead_scoring.py:115-136 | The whole score in points: opens, 12 a click up to 30, recency, 2 a material, 4 an interest, timing, 18 for an inspection, 5 for the opt-in, 3 for the pack, up to 100. |
| LeadScoring.OpenPointsAre | app/services/lead_scoring.py:29-95 | The points of the open count: 40 from 25 opens down to 8 for one and none for none. |
| LeadScoring.RecencyPointsAre | app/services/lead_scoring.py:45-112 | The points for the time since the last open: 15, 10, 5 and 2 up to exactly 7, 30, 60 and 90 days. |
| LeadScoring.TimingPointsAre | app/services/lead_scoring.py:64-88 | The points of the timing answer: those of the soonest of the listed wordings it contains. |
| LeadScoring.ScoreInRange | app/services/lead_scoring.py:115-136 | The score lies in 0..100. |
| LeadScoring.ScoreIsMonotone | app/services/lead_scoring.py:115-136 | At one instant the score never falls with more opens, clicks, materials, interests, flags or a later open. |
| LeadScoring.ScoreDecays | app/services/lead_scoring.py:102-112 | With nothing else changing the score only falls as time passes. |
| Leads.DistinctIsExact | app/services/lead_service.py:55-57 | De-duplication keeps exactly the kept elements, each once, at its first place, in order. |
| Common.OldestFirst | app/repositories/leads_repo.py:217-256 | The work lists are oldest first: a waiting lead that is left out comes after `limit` listed ones. |
| LeadService.ComputeTags | app/services/lead_service.py:42-57 | The tags are the configured and mapped ones in order, without blanks or repeats. |
| LeadService.TagsAreExact | app/services/lead_service.py:42-57 | A tag is given if and only if it is not empty and is a base tag, an interest as the campaign maps it, or the pack, inspection or newsletter tag under its own condition. |
| LeadService.CaptureLeadCreated | app/services/lead_service.py:132-170 | Stores or merges a submission as a serial capture would, also when a rival with the same email commits between lookup and insert: then as if the two had come one after the other. |
| LeadService.CaptureIsRefusedIff | app/services/lead_service.py:132-141 | Refused if and only if the campaign is missing or closed, and then nothing changes. |
| LeadService.CaptureWrites | app/services/lead_service.py:60-85 | The address's row, new exactly when it had none, holds the form's answers, second participant, request, inspection and tags, awaits the CRM, keeps what was delivered and a consent time it has, and gets one only from a form that consents; no other row changes. |
| LeadService.CaptureSetsPack | app/services/lead_service.py:95-113 | After a capture the pack is sent exactly when it was and everything asked for was in the stored request, else not requested for an empty request and pending for any other. |
| LeadService.UpdateLead | app/services/lead_service.py:162-170 | Merging into a stored lead keeps its consent time and judges the pack by the request stored before. |
| PackDelivery.CollectMaterials | app/services/pack_delivery.py:69-88 | Returns each requested, known material with a link once, in the order of the request, with its links. |
| PackDelivery.AssetUrlsAreLinks | app/services/pack_delivery.py:60-77 | The links of a material are the configured ones that are not blank, and there are none exactly when no such link is configured. |
| PackDelivery.DeliverPack | app/services/pack_delivery.py:98-151 | Every outcome of a pack delivery: sent with time and list, failed, skipped or not requested, and a synced lead re-queued only when it was sent. |
| PackDelivery.DeliveryOutcome | app/services/pack_delivery.py:98-151 | The four outcomes, each if and only if: not requested when the campaign lists nothing of the request; failed when it lists something but has no link for any of that, or has one and the configured transport does not take the email; skipped when it has one and no transport; sent otherwise, with time and list, a synced lead queued again. |
| PackDelivery.DeliverViewing | app/services/pack_delivery.py:154-184 | A viewing email that went out marks an unsent lead sent with the whole document set, and leaves any other lead alone. |
| PackDelivery.ViewingOutcome | app/services/pack_delivery.py:154-184 | An unsent lead is marked sent with all documents, and queued again if synced, if and only if the campaign has a material with a link and the configured transport takes the email; otherwise nothing changes. |
| PackDelivery.AllMaterialsAre | app/services/campaign_mailer.py:505-521 | All documents: exactly the campaign's materials that have a link, in the campaign's order. |
| PackDelivery.DeliverPending | app/services/pack_delivery.py:187-207 | Returns exactly the rise in sent leads. |
| PackDelivery.PackIdsOnlyListed | app/services/pack_delivery.py:197-206 | A sweep handles each listed lead exactly once, as it was when listed, and no other. |
| PackDelivery.SweepClearsPending | app/repositories/leads_repo.py:246-256 | With the backlog within the limit a sweep leaves no lead pending. |
| PackDelivery.SweepSendsWaiting | app/services/pack_delivery.py:187-207 | A covering sweep with a working transport sends every pending or failed lead that asks for something listed with a link. |
| PackDelivery.PackSendsSubList | app/services/pack_delivery.py:80-88 | The list recorded for a pack email is a duplicate-free sub-list of the request holding exactly the known materials with a link, and is not empty. |
| LeadCrmSync.UpsertWithStatusFallback | app/services/lead_crm_sync.py:140-156 | Retries once, exactly when the CRM rejects the status of a contact that has one. |
| LeadCrmSync.FallbackKeepsTheRest | app/services/lead_crm_sync.py:85-156 | The retry gives up the status field and nothing else; a nog-2026 contact is taken as built or not at all; only website contacts can be saved by it. |
| LeadCrmSync.ContactSays | app/services/lead_crm_sync.py:55-93 | The contact carries the lead's own email, request and tags; Yes and Nurturing or No and New by the delivery status for nog-2026 alone; a status for the website alone. |
| LeadCrmSync.SyncLead | app/services/lead_crm_sync.py:174-221 | Skipped, synced or failed by the two switches, the staff override and the CRM's answers; then the second participant's contact is pushed if there is one; what was taken is logged in that order. |
| LeadCrmSync.SyncOutcome | app/services/lead_crm_sync.py:174-221 | Skipped if and only if the service is off or the campaign is and staff do not force it; else synced or failed by the CRM's answers; what is logged is the contact taken and then the second participant's, pushed whatever became of the first; nothing else changes. |
| LeadCrmSync.SyncPending | app/services/lead_crm_sync.py:224-251 | Returns exactly the rise in synced leads; does nothing when switched off. |
| LeadCrmSync.SyncIdsHandleListed | app/services/lead_crm_sync.py:239-250 | A CRM sweep handles each listed lead exactly once, as it was when listed. |
| LeadCrmSync.SweptIsSyncedIff | app/services/lead_crm_sync.py:224-251 | With the backlog within the limit a lead is synced after a sweep if and only if it was, or the sync and its campaign's switch are on, it was pending or failed, and the CRM takes its contact, on the retry without status included. |
| LeadLifecycle.PostLead | app/api/v1/endpoints/campaigns.py:143-158 | Capture, then a due pack, then for a new lead the viewing email, in that order; fails exactly when the capture does and answers with the submitter's lead. |
| LeadLifecycle.ResendLeadPack | app/api/v1/endpoints/campaigns.py:307-315 | Staff resend: the viewing email for an inspection without materials, the pack otherwise, whatever the status. |
| LeadLifecycle.CaptureLeaves | app/services/lead_service.py:138-170 | A capture that asks for materials stores the request, keeps what was delivered, and leaves the pack pending unless all of it was asked for before a delivery. |
| LeadLifecycle.WorkingMailDelivers | app/api/v1/endpoints/campaigns.py:143-158 | With a working transport a submission asking for anything deliverable ends sent, and unless it was all covered before, with exactly the deliverable materials of this form. |
| LeadLifecycle.MergeGetsNoViewing | app/api/v1/endpoints/campaigns.py:143-158 | A resubmission is followed by a pack that is due and by nothing else. |
| LeadLifecycle.NewInspectionGetsDocuments | app/api/v1/endpoints/campaigns.py:143-158 | A new lead that asks only for an inspection, with a working transport, is sent exactly the campaign's materials that have a link. |
| LeadLifecycle.RunKeepsOneLeadPerAddress | app/services/lead_service.py:138-170 | Along every run a (campaign, email) has one row for good, its address never changes, and a consent keeps the time it was first given. |
| LeadLifecycle.ConsentIsFirstGiven | app/services/lead_service.py:78-79 | Over any run a lead has a consent time if and only if some form to its address at an open campaign consented, and it is that of the first such form: its own time or else the clock. |
| LeadLifecycle.RowHoldsLastForm | app/services/lead_service.py:60-85 | Over any run a lead's answers, second participant, request and inspection are those of the last form that reached its address. |
| LeadLifecycle.RunKeepsInv | app/services/lead_service.py:95-113 | Every run of the services keeps the invariant tying each lead to its history; without staff resends also the strict one. |
| LeadLifecycle.AtMostOncePack | app/services/lead_service.py:95-113 | Without staff resends, between two pack emails to one lead lies a submission whose materials the stored request did not cover, and that stored request is the one before it. |
| LeadLifecycle.IdenticalResubmissionsSendOnce | app/services/lead_service.py:95-113 | However often a form with the same materials is submitted and whatever fails in between, its lead gets at most one pack email. |
| LeadLifecycle.SentAndSyncedSaysYes | app/services/pack_delivery.py:142-183 | In every reachable state a sent lead has a delivery time and a non-empty list, and if it is a synced nog-2026 lead it was last pushed with Yes and Nurturing. |
| LeadLifecycle.SyncedIsFresh | app/services/lead_crm_sync.py:85-90 | Without staff resends no synced nog-2026 lead is out of date: it was last pushed with exactly what its delivery status says. |
| LeadLifecycle.ResendStaysFreshIff | app/api/v1/endpoints/campaigns.py:311-314 | A staff resend makes an up-to-date nog-2026 lead out of date if and only if it is synced and sent, is not one that gets the viewing email, and its pack does not go out this time. |
| LeadLifecycle.NextIsFresh | app/services/lead_crm_sync.py:85-93 | Every call keeps what the CRM was last told in step with the lead: only an unsending resend overtakes it, and only a push catches up. |
| LeadLifecycle.StaleIff | app/api/v1/endpoints/campaigns.py:297-315 | Over any run, resends included, a synced nog-2026 lead is out of date if and only if after its last push staff resent its pack while it was sent and synced, and the email did not go out. |
| LeadLifecycle.SkippedIsNotRetried | app/services/pack_delivery.py:107-110 | From any reachable state on, whatever runs and however the transport is configured, a skipped lead stays as it is but for its CRM status until a form is sent to its address or staff resend its pack. |
| LeadLifecycle.NextEndsSkipIff | app/api/v1/endpoints/campaigns.py:143-158 | A call takes a lead out of skipped if and only if it is a form to its address at an open campaign or a staff resend, with nothing to send or a transport to send it with - for a lead that gets the viewing email, one that goes out with documents. |
| LeadLifecycle.SkippedUntilIff | app/services/pack_delivery.py:187-207 | From any reachable state on a skipped lead is skipped at every moment of a run if and only if no such call comes. |
| LeadLifecycle.SweepClearsBacklog | app/services/pack_delivery.py:187-207 | In every reachable state a sweep whose limit covers the backlog leaves no lead pending. |
| LeadLifecycle.FailedPackIsRetried | app/services/pack_delivery.py:187-207 | In every reachable state: once staff save the link a failed lead lacked, the next covering sweep with a working transport sends it. |
| TradeRepo.FindEmail | app/repositories/trade_repo.py:51-64 | Finds a row of the program with the email, or none exactly when there is none or the email is empty. |
| TradeRepo.FindSecond | app/services/trade_capture.py:149-150 | Finds the registration's row that is not primary, or none exactly when there is none. |
| TradeCapture.TradeCaptureService.CaptureRegistration | app/services/trade_capture.py:112-182 | Stores or merges both participants as a serial capture would, after a rival that commits in between; if the rival took the email the call fails with the rival's rows stored and nothing else; an email in use fails after the primary row is stored. |
| TradeCapture.CaptureRefuses | app/services/trade_capture.py:112-116 | A missing or closed program is refused, each with its own error and nothing stored; nothing else gives those errors. |
| TradeCapture.FirstHalfWrites | app/services/trade_capture.py:118-136 | The first half: the row of the program with the submitted email, or a new primary one exactly when there is none, says what the form says of the first person; statuses stay or are those of a new row; no other row changes. |
| TradeCapture.CaptureWrites | app/services/trade_capture.py:56-182 | A successful capture, row by row: a second row exactly when the form gives a second participant a first or a last name, with dashes for a missing name and no email if it is the first one's; answers and tags of both; the statuses, review included, of a new or of the stored row; no other row changes. |
| TradeCapture.CaptureKeepsShape | app/services/trade_capture.py:118-182 | Every capture keeps one primary row (index 1) and at most one second row (index 2) per registration, one program per registration and unique non-empty emails per program, whichever row the email matches. |
| TradeCapture.RivalTakesEmailIff | app/services/trade_capture.py:131-142 | A rival takes an email nobody had if and only if its form gives that email to one of its two participants. |
| TradeCapture.SubmittedEmailKeptIff | app/services/trade_capture.py:118-182 | After a capture some row of the program has the submitted email, unless and only unless the email was a second participant's, the form names a second participant, and that one's email is free. |
| TradeCapture.EmailInUseIff | app/services/trade_capture.py:149-179 | A capture fails if and only if the second participant's email is, before the call, on a row of the program other than the matched registration's own second row; the primary half is then stored and nothing else. |
| TradeCapture.RacingSecondsIff | app/services/trade_capture.py:149-172 | One form sent twice at once, with both lookups of the second row before either write, leaves the registration two second rows if and only if the second participant gave no email; otherwise the second write fails on the index. |
| TradeCapture.RowsLeft | app/services/trade_capture.py:129-180 | A successful capture leaves rows that hold what the form says of both participants. |
| TradeCapture.ResubmitIsIdempotentIff | app/services/trade_capture.py:107-142 | Sending any form again, one that failed included, changes nothing and gets the same answer unless the first call lost its email; then, and only then, it registers again. |
| TradeCrmSync.TradeSyncService.SyncTradeLead | app/services/trade_crm_sync.py:95-136 | Skipped when switched off, unapproved in a gated program or without email; otherwise one push is attempted and its answer recorded. |
| TradeCrmSync.SyncOutcome | app/services/trade_crm_sync.py:95-136 | Skipped if and only if the service or the program is off, the gate asks for an approval the row lacks, or it has no email; otherwise one attempt with its email, and synced or failed by the answer; nothing else changes. |
| TradeCrmSync.TradeSyncService.SyncPendingTrade | app/services/trade_crm_sync.py:139-166 | Returns exactly the rise in synced rows; does nothing when switched off. |
| Common.ListIsListed | app/repositories/trade_repo.py:172-182 | The work lists hold distinct rows, all waiting. |
| TradeCrmSync.SyncIdsHandleListed | app/services/trade_crm_sync.py:154-165 | A sweep handles each listed row exactly once, as it was when listed. |
| TradeCrmSync.SyncIdKeeps | app/services/trade_crm_sync.py:95-136 | One push keeps: a row was taken by the CRM once if it is synced and never otherwise, and every attempt had an email and any approval its program asks for. |
| TradeCrmSync.SweepKeeps | app/services/trade_crm_sync.py:139-166 | A sweep keeps that, changes no column of a row but its status, and leaves settled rows alone. |
| TradeCrmSync.SweepLeavesSettledRows | app/services/trade_crm_sync.py:145-147 | A synced or skipped row is neither changed nor pushed by any sweep, whatever its review has become. |
| TradeCrmSync.SweptIsSyncedIff | app/services/trade_crm_sync.py:95-166 | With the backlog within the limit, a row is synced after a sweep if and only if it was before, or the sync is on, the row was pending or failed, its program is known and syncs, it is approved if the program asks for that, it has an email, and the CRM takes it. |
| TradeEligibility.EligibilityService.SubmitDocument | app/services/trade_eligibility.py:61-122 | Refuses unknown keys, unknown registrations and failed uploads without changing a row; otherwise replaces the document and gives every participant of the registration the status its documents give. |
| TradeEligibility.RefusedIff | app/services/trade_eligibility.py:73-87 | The three refusals in order: no document of the program has the key; else no row is of the registration; else storage does not take the upload. |
| TradeEligibility.UploadWrites | app/services/trade_eligibility.py:89-122 | An accepted upload, row by row: the key names the new object and no other document changes; every participant of the registration is submitted if every required document is in and pending if not, with the time it was first submitted; no other row or column changes. |
| TradeEligibility.SubmittedIff | app/services/trade_eligibility.py:50-58 | Submitted means exactly that something is in and nothing required is missing. |
| TradeEligibility.StatusIs | app/services/trade_eligibility.py:50-58 | Not requested means exactly that nothing is in, pending that something is and something required is missing. |
| TradeEligibility.StatusClimbsWithKeys | app/services/trade_eligibility.py:50-58 | More documents never take a status back. |
| TradeEligibility.ReplaceKeepsAccount | app/services/trade_eligibility.py:89-110 | Every document row names its own live object, the objects no row names are exactly those whose deletion failed, and only the uploaded key is added. |
| TradeLifecycle.NextKeepsSound | app/services/trade_capture.py:112-182 | Every capture, review, sweep and upload keeps the Trade invariant, lets a row progress, and lets its status climb or stay exactly when it is not an upload that takes it back. |
| TradeLifecycle.RunIsSound | app/services/trade_crm_sync.py:95-136 | In every reachable state: registrations have their shape, each row was accepted by the CRM at most once, every attempt had an email and any approval its program asks for, every primary row's status is exactly what its stored documents give by the program last named, and a second row's is that or none as yet. |
| TradeLifecycle.RunProgresses | app/services/trade_eligibility.py:116-120 | Along any run a submission time never changes once set, and synced and skipped are final. |
| TradeLifecycle.StepClimbsIff | app/services/trade_eligibility.py:112-120 | One call lowers a participant's status if and only if it is an accepted upload for a submitted participant through a program that requires a document neither there nor uploaded now. |
| TradeLifecycle.RunClimbs | app/services/trade_eligibility.py:50-122 | Over any stretch of a run without such an upload a participant's status only climbs. |
| TradeLifecycle.OneProgramClimbs | app/services/trade_eligibility.py:50-122 | When a registration's documents always go to one program there is none, so statuses only climb. |
| TradeLifecycle.SubmitSettlesRegistration | app/services/trade_eligibility.py:112-120 | Right after an accepted upload the stored keys are those before and the new one, and every participant of the registration has exactly the status they give by the program named. |
| TradeLifecycle.ObjectsAreNamed | app/services/trade_eligibility.py:82-110 | While storage deletes what it is asked to, the live objects are exactly those the document rows name, each once. |
| LeadCounterexamples.SkippedPackIsPassedOver | app/services/pack_delivery.py:187-191 | A run in which a sweep with a working transport passes over a skipped pack that could be delivered. |
| LeadCounterexamples.ResendLeavesStale | app/api/v1/endpoints/campaigns.py:297-315 | A run in which a failed staff resend leaves a synced nog-2026 lead out of date. |
| TradeCounterexamples.SecondParticipantRegisters | app/services/trade_capture.py:118-182 | A second participant registers, loses the submitted email to his own second participant, and registers anew when he sends the form again. |
| TradeCounterexamples.SecondEmailIsTaken | app/services/trade_capture.py:149-172 | A form naming somebody who registered before fails with its own primary row stored. |
| TradeCounterexamples.SameFormTwiceAtOnce | app/services/trade_capture.py:118-142 | One form sent twice at once: missed by the lookup, the email is taken by the time of the insert, where the recovery raises. |
| TradeCounterexamples.ApprovedTooLate | app/services/trade_crm_sync.py:106-108 | A participant swept before the approval is approved and still not pushed by the next sweep. |
| TradeCounterexamples.OtherProgramTakesBack | app/services/trade_eligibility.py:61-122 | A submitted registration, and an upload through another program that takes it back to pending. |
| DealCounterexamples.UnknownOwner | app/services/webhook_ingest.py:86-133 | A webhook with an unknown owner ends the replay, and delivering it again adds an event. |
| DealCounterexamples.SyncMovesDeal | app/services/deal_sync.py:99-113 | A sync that finds a deal in another stage ends the replay. |
| EngagementCounterexamples.RefusalCutsTheBatch | app/services/email_event_ingest.py:83-93 | A batch of two opens whose first insert is refused: the second, which would be stored, is dropped. |
| BookingCounterexamples.CodeCollides | app/services/booking_service.py:100-112 | Two bookings that draw one code: the second is stored by its second attempt, after the rollback that makes the call fail. |

## Left out

- Bookings.BookingService.CreateBooking: stated for serial calls only, because the conflict check and the insert are not under a lock (app/services/booking_service.py:85-103).
- LeadService.CaptureLeadCreated: one rival commits between the lookup and the insert; finer interleavings, for the row's identity only, are in CaptureRace.
- TradeCapture.TradeCaptureService.CaptureRegistration: one rival commits between the lookup and the insert of the primary row; of the later interleavings only two calls racing for the second row are modelled, in RacingSecondsIff.
- EmailEventIngest.DeliveryOrderIndependence: asks that every event carries its time, since one without it is stamped with the clock, and leaves out the order of the clicked list, which does depend on the delivery order. It is about deliveries none of whose inserts is refused.
- EmailEventIngest.RunAgrees: an entry that raises does so before it touches the database; no crash between the commit of the event row and the rollup (app/services/email_event_ingest.py:131-146), and two webhook calls at once only as inserts that are refused.
- FreshsalesClient.PaginateView: servers have finitely many pages; against one that never stops answering with items the generators do not terminate.
- RateLimiter.SlidingWindowBound: arithmetic over the reals, so floating-point rounding is left out, and per limiter instance, at the instants readings are taken.
- TradeLifecycle.RunIsSound: registration ids and object keys are fresh.
- Deletes of leads and campaigns other than in CaptureRace; staff edits of a lead's own columns.
- Field-level last-write-wins when two sessions update one row, connection pooling, database failover.
- The stored engagement score after a delivery, which the code does not recompute (app/services/pack_delivery.py:142-147).
- Columns the properties do not reach: names, phone and company of a lead (one opaque `answers` value), error texts, CRM contact ids, the other fields of a second participant, a Trade row's source, captured_at and raw responses, created_at and updated_at columns. Lists ordered by created_at go by row id.
- A `materials_assets` entry that is neither a string nor a list of strings; a Retry-After of nan or inf.
- Timestamps, time zones, number and email parsing: instants are comparable numbers.
- Email texts, staff notifications and confirmations that carry no status.
- Booking titles, confirmation emails and the remaining booking counters: single queries.
- Reference sync, timeline backfill, daily snapshots, activity, triage and prospecting jobs, analytics queries, authentication, webhook signatures, migrations and scripts: thin wrappers over queries or foreign services.
