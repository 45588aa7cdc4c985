# superdesk-core: publish transmission, ingest helpers, activities, search providers and user commands

A Dafny model of five parts of superdesk-core, with proofs about each.

- **Publish transmission** (`publish_queue.dfy`, `locks.dfy`, `publish_content.dfy`). A batch run holds the
  global `Transmit:Articles` lock while it does three things:
  - it selects the due publish-queue records: pending, or retrying and due, and not a pull delivery;
  - it sorts them by `_created`, `subscriber_id` and `published_seq_num`, keeping at most
    `MAX_TRANSMIT_QUERY_LIMIT` records (default 500);
  - it dispatches one worker batch per subscriber.

  A subscriber worker holds the subscriber's lock and goes through its records in order. For each record it:
  - marks the record `in-progress`;
  - calls the transmitter;
  - on failure, either books another retry or marks the record `failed`.

  The queue collection is a class over a map keyed by `_id`. The lock service is a class over the set of
  held lock names. The worker is a method whose loop is proved against `ProcessBatch`, a fold over the batch.
- **Ingest provider helpers** (`ingest_provider.dfy`). These cover the scheduling predicates of the ingest
  update command:
  - registered service and parser;
  - due;
  - closed;
  - task TTL;
  - idle;
  - task id.
- **Ingest pipeline helpers** (`ingest_filter.dfy`, `ingest_item.dfy`, `ingest_items.dfy`):
  - the expiry and content-type filter;
  - IPTC subject expansion;
  - ANPA category normalisation;
  - category and subject derivation;
  - rule sets (the body's text replacements);
  - `ingest_items`, which ingests plain items first and then packages, rewriting each package's references.

  The mutable item is a class whose fields the steps update. `ingest_items` is a method proved against a
  fold. `ingest_item` is an oracle parameter.
- **Activities and audit** (`activity.dfy`):
  - the read-receipt validator `on_update`, with `is_recipient` and `is_read`;
  - the generic audit hooks, appending to an audit collection;
  - `add_activity` and `notify_and_add_activity`, appending to an activity collection. The activity email is
    returned rather than sent.
- **Search-provider registry** (`search_providers.dfy`). The module-level dict and allowed list become a class,
  with `register_search_provider` as a method. The allowed-providers listing is a function of its state.
- **User commands** (`user_commands.dfy`). `users:create`, `users:modify` and `users:hash_passwords` work on a
  class over the `users` collection. Password hashing and hash recognition are function parameters.

Times are integer seconds on one clock. Every `utcnow()` within one operation reads the same `now`.

Behaviour of the code that the model keeps as written, although a reader might expect otherwise:

- **This layer writes nothing after a successful transmit.** The worker patches the record to `in-progress`
  before the transmit (`superdesk/publish/publish_content.py:93-94`) and writes nothing itself once the
  transmit returns (lines 95-98); what the transmitter itself writes (it marks success) is not modelled
  (`PublishContent.StepOutcome`, `PublishContent.ThreeRecordRun`).
- **`MAX_TRANSMIT_RETRY_ATTEMPT` failures still book retries.** The stored count is compared with the maximum
  by `<` (line 106), so with a maximum of 3 the first three failures all book retries and only the fourth
  marks the record failed (`PublishContent.RetryExhaustion`).
- **A bad log line aborts the worker with the lock held.** The worker formats its log line from the record's
  fields (lines 88-89) before its `try` (line 90). A record missing `item_id`, `item_version` or `headline`
  ends the worker at that point, and the unlock at lines 118-120 is never reached
  (`PublishContent.TransmitSubscriberItems`).
- **`users:create` does not reset passwords.** Its docstring (`apps/auth/db/commands.py:27-29`) says an
  existing user's password is reset. The code only logs and returns the user data (lines 62-69,
  `UserCommands.UserStore.CreateUser`).
- **A registered parser admits any feeding service.** The docstring of `is_service_and_parser_registered`
  (`superdesk/io/commands/update_ingest.py:52-53`) promises that both are registered; the expression at lines
  56-57 parses as `(service registered and no parser) or parser registered` (see Findings).
- **A category without `qcode` is removed unless some vocabulary entry is active.** The loop tests
  `is_active` before it reads `qcode` (`superdesk/io/commands/update_ingest.py:258-259`), so the missing key
  raises only when an active entry is reached (`IngestItem.AnpaPassRaises`, `IngestItem.QcodeLessCategory`).

## Model

A row for a lemma named `…Spec`, or for a lemma about a specification function, also stands for the function
it is about; the third column names that function where its name differs from the lemma's.

| member | source | states |
|---|---|---|
| Locks.LockService.TryLock | superdesk/publish/publish_content.py:45-48 | a non-blocking acquire succeeds exactly when the name was not held; afterwards the name is held |
| Locks.LockService.Unlock | superdesk/publish/publish_content.py:58-59 | the released name is no longer held and every other lock is unaffected |
| PublishQueue.RowsOf | superdesk/publish/publish_content.py:76 | the collection read in storage order: one row per listed id, holding that id's record |
| PublishQueue.QueueStore.FindOne | superdesk/publish/publish_content.py:104 | `find_one(_id=…)` returns the stored record, or nothing for an unknown id |
| PublishQueue.QueueStore.Update | superdesk/publish/publish_content.py:94 | a patch succeeds exactly when the id is stored; it replaces only that record and keeps the store valid |
| PublishQueue.QueueStore.Rows | superdesk/publish/publish_content.py:76 | one row per listed id, in storage order, and row `i` is the record stored under the `i`-th id; every stored record appears |
| PublishContent.FilterEligible | superdesk/publish/publish_content.py:63-71 | with the predicate `Eligible`: keeps exactly the eligible records (pending, or retrying with `next_retry_attempt_at <= now`, and not pull), each with its multiplicity |
| PublishContent.SortByKeySpec | superdesk/publish/publish_content.py:75 | sorting by (`_created`, `subscriber_id`, `published_seq_num`) yields a sorted permutation |
| PublishContent.GetQueueItemsSpec | superdesk/publish/publish_content.py:62-76 | the selection holds only eligible records, in sort order, at most the limit; it takes all eligible records when fewer exist; no eligible record left out sorts before a selected one |
| PublishContent.ForSubscriberSpec | superdesk/publish/publish_content.py:128 | a subscriber's batch is exactly that subscriber's records, in input order |
| PublishContent.TransmitItems | superdesk/publish/publish_content.py:123-129 | exactly one batch per distinct subscriber, each holding that subscriber's records; as many batches as subscribers |
| PublishContent.BatchesPartition | superdesk/publish/publish_content.py:123-129 | the dispatched batches together hold every selected record exactly as often as the selection |
| PublishContent.RecordInOneBatch | superdesk/publish/publish_content.py:125-128 | each selected record is in its own subscriber's batch and in no other |
| PublishContent.LoggablePrefix | superdesk/publish/publish_content.py:88-89 | the worker gets through the longest prefix of records whose log line can be formatted, and stops at the first that cannot (a field present as `None` counts as missing; see Left out) |
| PublishContent.TransmitCallsInBatchOrder | superdesk/publish/publish_content.py:86-97 | the transmitter is called in batch order, for exactly the records whose in-progress patch went through |
| PublishContent.ProcessBatchKeys | superdesk/publish/publish_content.py:86-116 | `ProcessBatch`, the fold of `Step` over a batch: a worker neither adds nor removes records, nor changes an `_id` |
| PublishContent.ProcessBatchFrame | superdesk/publish/publish_content.py:86-116 | a record outside the batch is left exactly as it was |
| PublishContent.ProcessBatchRetryBound | superdesk/publish/publish_content.py:101-112 | `retry_attempt` never exceeds the configured maximum if it did not before |
| PublishContent.ProcessBatchTouchedStates | superdesk/publish/publish_content.py:93-114 | every record a worker changes is left by this layer `in-progress`, `retrying` or `failed` |
| PublishContent.StepOutcome | superdesk/publish/publish_content.py:93-114 | `Step` and `AfterFailure`, one record's fate: `in-progress` stamped before transmit; nothing more on success; on a recorded failure, `retrying` with count+1 due `delay` minutes later while below the maximum, else `failed` |
| PublishContent.RetryExhaustion | superdesk/publish/publish_content.py:101-112 | from zero retries, the first `max` consecutive failures each book one retry; every later failure marks the record failed with the count at `max` |
| PublishContent.ThreeRecordRun | superdesk/publish/publish_content.py:86-116 | records 1, 2, 3 with a failure on 2: the transmitter sees 1, 2, 3 in order; 2 ends retrying with one attempt; this layer writes nothing to 1 and 3 after their in-progress patch (the transmitter's own write marking success is not modelled) |
| PublishContent.TransmitSubscriberItems | superdesk/publish/publish_content.py:79-120 | without the subscriber lock nothing changes; with it the store becomes `ProcessBatch` of the loggable prefix; the lock is released unless a log line aborted the loop |
| PublishContent.TransmitBatch | superdesk/publish/publish_content.py:86-116 | the loop handles the records in batch order up to the first one whose log line cannot be built; the store becomes `ProcessBatch` of that prefix and the transmitter calls are `TransmitCalls` of it |
| PublishContent.TransmitOne | superdesk/publish/publish_content.py:90-116 | one record: the store becomes `Step` of it; it reports a transmitter call exactly when the in-progress patch goes through on a stored record |
| PublishContent.Publish | superdesk/publish/publish_content.py:39-59 | without the global lock nothing runs; with it, one batch per subscriber of the selection is dispatched and the lock is released |
| IngestProvider.ServiceAndParserRegistered | superdesk/io/commands/update_ingest.py:48-57 | as written: with a parser, registration of the parser alone decides; without one, registration of the feeding service decides |
| IngestProvider.ParserAloneAdmits | superdesk/io/commands/update_ingest.py:48-57 | see Findings: an unregistered feeding service with a registered parser is admitted by the check as written and refused by `BothRegistered` |
| IngestProvider.BothRegisteredSpec | superdesk/io/commands/update_ingest.py:48-57 | the corrected `BothRegistered`, as the docstring promises: the feeding service is registered and the parser, if any, is registered; it holds exactly when the check as written holds and the feeding service is registered |
| IngestProvider.IsScheduled | superdesk/io/commands/update_ingest.py:60-68 | a provider never updated is due exactly when its schedule (default five minutes) is shorter than 100 days |
| IngestProvider.IsScheduledMonotone | superdesk/io/commands/update_ingest.py:60-68 | a due provider stays due as time passes |
| IngestProvider.ShouldUpdate | superdesk/io/commands/update_ingest.py:196 | a provider is updated exactly when it is not closed, its service and parser pass the registration check, and it is due (last update plus schedule before now; never updated: schedule shorter than 100 days) |
| IngestProvider.NeverUpdatedRunsNow | superdesk/io/commands/update_ingest.py:65 | an open, registered provider never updated and with the default schedule is updated now |
| IngestProvider.GetTaskTtl | superdesk/io/commands/update_ingest.py:155-163 | the TTL is the schedule's minutes, hours and seconds (days not counted), and never below 15 seconds |
| IngestProvider.DefaultTaskTtl | superdesk/io/commands/update_ingest.py:155-163 | with the default schedule the TTL is 300 seconds |
| IngestProvider.GetIsIdle | superdesk/io/commands/update_ingest.py:166-181 | raises exactly when `idle_time` lacks `hours` or `minutes`; otherwise idle exactly when an item was seen, the idle time is non-zero, and more than that much time has passed since |
| IngestProvider.NeverIdleByDefault | superdesk/io/commands/update_ingest.py:166-181 | with the default idle time a provider is never idle |
| IngestProvider.IdleMonotone | superdesk/io/commands/update_ingest.py:166-181 | an idle provider stays idle as time passes |
| IngestProvider.GetTaskId | superdesk/io/commands/update_ingest.py:184-185 | task ids start with `update-ingest-` |
| IngestProvider.TaskIdSeparatesProviders | superdesk/io/commands/update_ingest.py:184-185 | for one provider name, task ids are equal exactly when the printed `_id`s are |
| IngestFilter.KeptItemsSubsequence | superdesk/io/commands/update_ingest.py:102-103 | the kept items are the input items, in input order |
| IngestFilter.KeptItemsAll | superdesk/io/commands/update_ingest.py:102-105 | nothing is dropped exactly when every item is unexpired and of an accepted type |
| IngestFilter.FilterExpiredItemsSpec | superdesk/io/commands/update_ingest.py:79-111 | `FilterExpiredItems` fails exactly when some item's expiry cannot be computed, or items were dropped and the provider has no name; otherwise returns the kept items in order |
| IngestFilter.UndatedItemsDropped | superdesk/io/commands/update_ingest.py:91-98 | an item with neither `expiry` nor `versioncreated` never passes |
| IngestItem.ParentCodes | superdesk/io/commands/update_ingest.py:310-317 | the top- and mid-level codes are IPTC codes whose own parents are already among them |
| IngestItem.Item.IptcAlreadyExists | superdesk/io/commands/update_ingest.py:303-307 | true exactly when some subject entry has the code |
| IngestItem.Item.AddParent | superdesk/io/commands/update_ingest.py:311-317 | appends one entry with the code when the code is absent and known; leaves the list as it was when the code is present; fails when the code is unknown |
| IngestItem.Item.ProcessIptcCodes | superdesk/io/commands/update_ingest.py:293-319 | the list only grows; each appended code is new, named from the table, and the top- or mid-level code of an earlier IPTC subject; on success every IPTC subject has its top- and mid-level codes present; a missing `subject` raises |
| IngestItem.Item.ExpandAt | superdesk/io/commands/update_ingest.py:310-318 | one subject: after it, every subject up to it has its top- and mid-level codes; an IPTC code whose parent the table lacks raises; visiting an entry the loop itself appended changes nothing |
| IngestItem.Matching | superdesk/io/commands/update_ingest.py:258-259 | exactly the active vocabulary entries whose qcode matches, ignoring case |
| IngestItem.RemoveFirst | superdesk/io/commands/update_ingest.py:262 | `list.remove` drops exactly one occurrence |
| IngestItem.HasActive | superdesk/io/commands/update_ingest.py:258-259 | true exactly when some vocabulary entry is active, the condition under which the loop reads a category's `qcode` |
| IngestItem.NormaliseCategoriesAppend | superdesk/io/commands/update_ingest.py:257-266 | the corrected normalisation keeps order: a concatenation is normalised part by part, and one category becomes its normalised self when known and nothing otherwise |
| IngestItem.AnpaPassAllKnown | superdesk/io/commands/update_ingest.py:257-266 | `AnpaPass`, the loop as written: when every category is known, it normalises every one of them |
| IngestItem.AnpaPassRaises | superdesk/io/commands/update_ingest.py:257-262 | the loop as written raises only when some vocabulary entry is active and a category without `qcode` is reached |
| IngestItem.QcodeLessCategory | superdesk/io/commands/update_ingest.py:257-262 | a category without `qcode` is removed when the vocabulary is empty or has no active entry, and raises when an entry is active |
| IngestItem.AnpaPassSkipsAfterRemoval | superdesk/io/commands/update_ingest.py:257-262 | see Findings: an unknown category hides the next one from the loop |
| IngestItem.NormaliseCategoriesSpec | superdesk/io/commands/update_ingest.py:257-266 | the corrected normalisation: every remaining category carries a vocabulary qcode and name, and every known one is kept |
| IngestItem.Item.ProcessAnpaCategory | superdesk/io/commands/update_ingest.py:253-268 | without the vocabulary nothing changes; without `anpa_category` it raises; otherwise the categories become the result of the loop as written, which raises on a category without `qcode` only when some vocabulary entry is active and otherwise removes it |
| IngestItem.ScanSubjectsSpec | superdesk/io/commands/update_ingest.py:282-285 | raises exactly when a subject lacks `qcode`; otherwise the entry's category is collected once when some subject matches |
| IngestItem.DerivedCategoriesSpec | superdesk/io/commands/update_ingest.py:278-285 | `DerivedCategories` fails exactly when an active entry exists and a subject lacks `qcode`; otherwise collects the categories of active matching entries, without repeats |
| IngestItem.DerivedCategoriesPrefix | superdesk/io/commands/update_ingest.py:281-285 | map order: the categories collected from the first `n` map entries are a prefix of the whole result, so a category first met on an earlier entry comes first |
| IngestItem.AsCategories | superdesk/io/commands/update_ingest.py:285 | each derived category is stored with only its qcode |
| IngestItem.Item.DeriveCategory | superdesk/io/commands/update_ingest.py:271-290 | without a map nothing changes; with derived categories, they become the item's categories and are then normalised |
| IngestItem.FirstActiveSpec | superdesk/io/commands/update_ingest.py:332-334 | `FirstActive` raises exactly on a category without qcode and a non-empty vocabulary; otherwise it finds nothing exactly when no active entry has that qcode, and else the entry it finds is active, has that qcode, and no earlier entry is active with it |
| IngestItem.DeriveSubjectStoppedPersists | superdesk/io/commands/update_ingest.py:328-339 | once the loop has raised, later categories change nothing |
| IngestItem.DeriveSubjectFoldSpec | superdesk/io/commands/update_ingest.py:328-339 | the subject is the item's own, or a single entry from a matching category's `subject` code with its name |
| IngestItem.LastCategoryWins | superdesk/io/commands/update_ingest.py:331-337 | a later category that yields a subject replaces an earlier one |
| IngestItem.Item.DeriveSubject | superdesk/io/commands/update_ingest.py:322-339 | without the vocabulary or categories nothing changes; otherwise the subject is the fold's result |
| IngestItem.ReplaceAllSplitJoin | superdesk/io/commands/update_ingest.py:359-360 | `ReplaceAll`, Python's `str.replace`, replaces every occurrence of a non-empty pattern: the text splits at the pattern (`Split`, found from the left) into pieces holding no occurrence; joining them with the pattern gives the text back, and joining them with the replacement gives the result |
| IngestItem.ReplaceAbsent | superdesk/io/commands/update_ingest.py:360 | replacing a pattern that does not occur leaves the body unchanged |
| IngestItem.ReplaceByItself | superdesk/io/commands/update_ingest.py:360 | replacing a pattern by itself leaves the body unchanged |
| IngestItem.ApplyRulesConcat | superdesk/io/commands/update_ingest.py:359-360 | applying two rule lists in turn equals applying their concatenation |
| IngestItem.ApplyRulesNoMatch | superdesk/io/commands/update_ingest.py:359-362 | rules whose patterns do not occur leave the body unchanged |
| IngestItem.Item.ApplyRuleSet | superdesk/io/commands/update_ingest.py:342-366 | the rule set handed in, else the provider's stored one, is applied rule by rule to the body when both exist; otherwise nothing changes |
| IngestItems.ResidRefs | superdesk/io/commands/update_ingest.py:404-405 | exactly the `residRef`s of a package's references |
| IngestItems.Lookup | superdesk/io/commands/update_ingest.py:388 | `items_dict.get(guid)` finds the last received document with that guid (no later one has it), or none when there is none |
| IngestItems.RewriteRef | superdesk/io/commands/update_ingest.py:410-416 | the reference gets `guid := residRef` and a default `location` of `ingest`; its own renditions are kept, and without any it takes the target's renditions when the target has non-empty ones, else stays without; `residRef` becomes the target's `_id` when the target was received |
| IngestItems.RewriteRefsSpec | superdesk/io/commands/update_ingest.py:404-416 | the reference loop rewrites only visited references; it fails the package exactly when a visited reference names a failed item |
| IngestItems.PlainPhaseSpec | superdesk/io/commands/update_ingest.py:396-402 | the plain loop keeps every document's guid and type; its calls of `ingest_item` are exactly the plain documents, in order, each as received, with the routing scheme unless the package list names the document |
| IngestItems.PackagePhaseSpec | superdesk/io/commands/update_ingest.py:403-423 | the package loop keeps every document's guid and type; it calls `ingest_item` only on packages, always with the routing scheme |
| IngestItems.IngestItems | superdesk/io/commands/update_ingest.py:386-431 | the loops compute `IngestItemsRun`: filter, plain items, then packages |
| IngestItems.IngestPlainItems | superdesk/io/commands/update_ingest.py:396-402 | the plain loop computes `PlainPhase` over the whole batch |
| IngestItems.IngestPackages | superdesk/io/commands/update_ingest.py:403-423 | the package loop computes `PackagePhase` over the whole batch |
| IngestItems.RewritePackageRefs | superdesk/io/commands/update_ingest.py:404-416 | the reference loop of one package computes `RewriteRefs` over all its references |
| IngestItems.PlainItemsFirst | superdesk/io/commands/update_ingest.py:392-423 | the first calls of `ingest_item` are exactly the plain items of the filtered batch, in order, so every plain item reaches it, and before any package does |
| IngestItems.PackageStepSpec | superdesk/io/commands/update_ingest.py:403-423 | one package step keeps guids and types; a package its reference loop put in `failed_items` gets no call, any other gets exactly one, with its rewritten references and the routing scheme |
| IngestItems.FailedReferenceFailsPackage | superdesk/io/commands/update_ingest.py:406-408 | a package that refers to a failed item joins `failed_items` and is not ingested |
| IngestItems.ReferencesRewritten | superdesk/io/commands/update_ingest.py:409-416 | a reference to a successful item is rewritten before the package is ingested |
| IngestItems.NothingEverFails | superdesk/io/commands/update_ingest.py:397-402 | see Findings: a run that finishes has an empty `failed_items` |
| IngestItems.FailedIngestAborts | superdesk/io/commands/update_ingest.py:397 | see Findings: one failing plain item aborts the whole run |
| IngestItems.TolerantNeverUnpackFails | superdesk/io/commands/update_ingest.py:397-402 | with failures read as `(False, [])`, a run never aborts on unpacking |
| IngestItems.TolerantPlainPhase | superdesk/io/commands/update_ingest.py:396-402 | read that way, every plain item whose ingest fails lands in `failed_items` |
| Activity.RecipientLookupSpec | superdesk/activity.py:181-191 | `IsRecipient` and `IsRead`: `is_recipient` and `is_read` fail together; a user is a recipient exactly when some entry has their id; `is_read` is the first such entry's flag |
| Activity.OthersUnchangedSpec | superdesk/activity.py:172-175 | the loop passes exactly when no other recipient's read flag differs from the original |
| Activity.DeskRecipientBlocksUpdate | superdesk/activity.py:172-173 | a recipient without `user_id` makes the loop raise |
| Activity.OnUpdateSpec | superdesk/activity.py:151-179 | `OnUpdate`: a PATCH is accepted exactly when: there is a user; they are a recipient; their flag does not go from read to unread; no other flag changes; the body has two keys |
| Activity.DeskRecipientsNeverMarkedRead | superdesk/activity.py:172-173 | see Findings: an activity with a desk recipient can never be patched |
| Activity.IntendedOnUpdateSpec | superdesk/activity.py:151-179 | see Findings: the corrected validator ignores recipients without `user_id`; it accepts a PATCH exactly when there is a user, they are a user recipient, their flag does not go from read to unread, no other user recipient's flag changes, and the body has two keys |
| Activity.DeskActivityMarkedRead | superdesk/activity.py:172-173 | a user and a desk were notified and the user marks the activity read: refused as written, accepted by the corrected validator |
| Activity.AuditForSpec | superdesk/activity.py:55-105 | a hook writes one record with the user, resource, action and document, except for excluded resources, no user, or no inserted document |
| Activity.AuditService.OnGenericInserted | superdesk/activity.py:55-73 | appends the `created` record for the first document, if any, and keeps excluded resources out of the audit |
| Activity.AuditService.OnGenericUpdated | superdesk/activity.py:75-89 | appends the `updated` record and keeps excluded resources out |
| Activity.AuditService.OnGenericDeleted | superdesk/activity.py:91-105 | appends the `deleted` record and keeps excluded resources out |
| Activity.UserRecipients | superdesk/activity.py:223 | one unread user entry per notified id, in order |
| Activity.DeskRecipients | superdesk/activity.py:226 | one unread desk entry per notified desk, in order |
| Activity.BuildActivitySpec | superdesk/activity.py:209-231 | `BuildActivity`: users then desks, all unread; the item is named by its guid, else its `_id` |
| Activity.NotifiedUsersAreUnreadRecipients | superdesk/activity.py:220-226 | every notified user is a recipient of the new activity and has not read it |
| Activity.ActivityLog.AddActivity | superdesk/activity.py:201-233 | appends exactly the built activity |
| Activity.EmailRecipientsSpec | superdesk/activity.py:247-251 | exactly the addresses of enabled, active users with email notification on |
| Activity.EmailMessageSpec | superdesk/activity.py:253-267 | `EmailMessage`: the message is `System <msg>` for an error, else prefixed with the current user's display name; it always ends with `msg` |
| Activity.Ids | superdesk/activity.py:246 | the `_id` of each user, in order |
| Activity.ActivityLog.NotifyAndAddActivity | superdesk/activity.py:237-270 | an error without users goes to the administrators; the activity is posted; the email goes to the mailable users, or none; a missing display name raises after posting |
| SearchProviders.OwnerOf | apps/search_providers/registry.py:28 | the name holding a given endpoint, or none when no name holds it |
| SearchProviders.EndpointClashRaisesKeyError | apps/search_providers/registry.py:28-30 | see Findings: a taken endpoint reports the new name as a missing key |
| SearchProviders.IntendedRejectionSpec | apps/search_providers/registry.py:23-30 | the corrected check refuses the same registrations as `Rejection`, the check as written, and reports a taken endpoint with the name that holds it |
| SearchProviders.Registry.Register | apps/search_providers/registry.py:11-37 | a rejection changes nothing; otherwise the name and value are stored; the name is allowed exactly when the value is truthy, else `ValueError` is raised and the name stays taken |
| SearchProviders.Registry.Get | apps/search_providers/registry.py:47-57 | one entry per registered name, in registration order; a class value is labelled with its `label` attribute, or with the name when it has none; any other value is labelled with the name |
| SearchProviders.EntriesOf | apps/search_providers/registry.py:55-56 | the listing pairs each name with its label |
| UserCommands.FindByUsername | apps/auth/db/commands.py:60 | the first user with that username, or none when no user has it |
| UserCommands.BuildUserDataSpec | apps/auth/db/commands.py:40-58 | the flags follow `--admin` and `--support`; the password is hashed exactly when it is non-empty and not already a hash |
| UserCommands.PostedUserIsFound | apps/auth/db/commands.py:60-66 | after a post the username is found, so a repeat run posts nothing |
| UserCommands.UserStore.CreateUser | apps/auth/db/commands.py:40-69 | returns the built data; posts it only when the username is new; the username is then present and usernames stay unique |
| UserCommands.StrToBool | apps/auth/db/commands.py:93-94 | `strtobool`, ignoring case: true and false word lists, otherwise `ValueError` |
| UserCommands.ManageUpdatesSpec | apps/auth/db/commands.py:98-141 | `ManageResult` on success: a key is set exactly for each option given with a value; flags hold its truth value; the role is the named role's id; the display name is always set |
| UserCommands.ManageErrorsSpec | apps/auth/db/commands.py:109-137 | `ManageResult` fails exactly on a bad flag, then an unknown role, then an unknown user |
| UserCommands.AdminFalseStillPromotes | apps/auth/db/commands.py:106-107 | see Findings: `--admin false` makes an administrator |
| UserCommands.IntendedUserTypeSpec | apps/auth/db/commands.py:80-81 | the corrected `--admin`: a true word gives administrator and a false word gives user |
| UserCommands.UserStore.ManageUser | apps/auth/db/commands.py:91-147 | an error changes nothing; otherwise only the found user changes, with the updates applied |
| UserCommands.HashedUserSpec | apps/auth/db/commands.py:157-164 | `HashedUser`: only the password changes, only when it was not a hash; a second run changes nothing |
| UserCommands.UserStore.HashUserPasswords | apps/auth/db/commands.py:155-164 | every user is patched as `HashedUser` describes; the number of users is unchanged |

## Left out

- **Celery.** Scheduling, `apply_async`, soft time limits and task expiry are left out. A dispatch is returned as a value. The TTL is computed, but its expiry is not modelled.
- **Lock service.** Lock expiry and races between processes are left out. A lock is a name in a set, and acquiring one never waits.
- **Transmitters, the store and the failure paths.** These become an oracle (`Attempt`) with three answers:
  - whether the in-progress patch went through;
  - whether the transmit returned;
  - whether the failure bookkeeping was written.

  What a transmitter writes to the store itself (it marks the record a success) is not modelled.

  An unknown delivery type, a missing `destination`, and a store error all go down the transmitter's failure path.
- **Exceptions caught in `publish`.** The selection and partitioning are total here, so nothing in them raises.
- **Logging and notifications.** Logging, `push_notification` and stats are left out. `send_activity_emails` is left out too: the email is returned instead.
- **Time.** Time zones and naive versus aware datetimes are left out. There is one integer clock in seconds, and `datetime.now()` and `utcnow()` give the same value.
- **`ingest_item`.** It is an oracle that returns the outcome and the `_id` and `renditions` it assigns. Its internals are not part of this model:
  - versioning;
  - how `update_renditions` obtains the renditions (download, generation, reuse of stored ones);
  - routing;
  - `set_ingest_provider_sequence`.

  Also left out are `ingest_cancel`, `update_provider`, the `UpdateIngest.run` loop (its guard is `IngestProvider.ShouldUpdate`) and the final `bulk_insert` into the search backend.
- **Errors raised by the ingest helpers.** The `ProviderError` wrappers become `ok == false` or an `Err` value. Exceptions that are logged and swallowed leave the item as the step left it.
- **`None` values.** A key present with the value `None` (for example `residRef`, `expiry` or `first_name`) is modelled as a missing key. The one exception is a recipient's `user_id`, which can be modelled as present with the value `None`.
- **`PublishContent.LoggablePrefix`:** a publish-queue record whose `item_id`, `item_version` or `headline` is present but `None` counts as unloggable, so the model stops the worker there; Python's `format` prints `None` and carries on.
- **Character sets.** `lower()` and `isdigit()` are ASCII-only here. Python also folds non-ASCII letters and accepts non-ASCII digits.
- **Aliasing.** Python dicts shared between `all_items` and `items_dict` are modelled as a single list of documents that the run updates. Of what `ingest_item` writes into the shared dict, only the `_id` and the `renditions` it assigns flow back (`IngestItems.Assigned`); its other writes (`item.update(old_item)`, the mimetype and file metadata) are not modelled.
- **Mongo `find_one`.** It is taken to return the first matching document in storage order.
- **Outside calls as parameters.**
  - `email_notification_is_enabled` becomes a field on each user.
  - The administrators query becomes a list parameter.
  - `ObjectId` conversion of a desk id is left out.
- **`add_activity` with an empty `item` dict.** Python treats the empty dict as no item; the model always records the item.
- **`GetAuthTokenCommand`.** Not part of this model.
- **Password hashing.** bcrypt's `get_hash` and `is_hashed` are function parameters. A user without a password in `users:hash_passwords` is not modelled: the password is a string.
- **Hooks of the `users` service.** The hooks that `post` and `system_update` trigger are not part of this model.
- **`PublishContent.TransmitItems`.** Python visits set elements in an order it does not specify, so no dispatch order is stated here.
- **`Activity.OnUpdateSpec`.** The iff is stated only when every recipient has a `user_id`. An update holding a desk recipient is always refused; `Activity.DeskRecipientsNeverMarkedRead` proves that case separately, and Findings records it.
- **`IngestItems.PackageRefs`.** `items_in_package` keeps only the references of the last package. This is modelled as written. Plain items referred to by earlier packages are still routed.

## Findings

| source | as written | input that shows it | evidently intended | confidence | as-written member | corrected member |
|---|---|---|---|---|---|---|
| superdesk/io/commands/update_ingest.py:397-402 | `ingest_item` returns a bare `False` on failure (line 502), so unpacking `ingested, ids` raises `TypeError` and `failed_items` is never filled | one plain item whose ingest raises | a failure is recorded in `failed_items` and the run goes on | not executed | IngestItems.FailedIngestAborts | IngestItems.TolerantNeverUnpackFails |
| superdesk/io/commands/update_ingest.py:257-262 | removing an unknown category from `item['anpa_category']` while iterating over it skips the next category | categories `[x, y]` with a vocabulary that knows neither: the result is `[y]` | every unknown category is removed | not executed | IngestItem.AnpaPassSkipsAfterRemoval | IngestItem.NormaliseCategoriesSpec |
| superdesk/io/commands/update_ingest.py:48-57 | `a and b or c` parses as `(service registered and no parser) or parser registered`, so a registered parser admits any feeding service | `feeding_service` `ftp` unregistered (services `{rss}`), `feed_parser` `nitf` registered | both the feeding service and the parser (when given) are registered, as the docstring at lines 52-53 says | not executed | IngestProvider.ParserAloneAdmits | IngestProvider.BothRegisteredSpec |
| superdesk/activity.py:172-173 | the loop reads `recipient['user_id']`, which desk recipients (added without it at line 226) lack, so `KeyError` refuses every PATCH of an activity that notified a desk | recipients `[{user_id: u, read: False}, {desk_id: d, read: False}]`, user `u` marks the activity read | the user can mark the activity read; desk recipients take no part in the check | not executed | Activity.DeskRecipientsNeverMarkedRead | Activity.IntendedOnUpdateSpec |
| apps/search_providers/registry.py:28-30 | the message for a taken endpoint looks up `registered_search_providers[name]`, and the new name is never stored, so `KeyError` is raised instead of `AlreadyExistsError` | register `other` with the endpoint `search_providers_proxy` already held by `superdesk` | `AlreadyExistsError` naming the provider that holds the endpoint | not executed | SearchProviders.EndpointClashRaisesKeyError | SearchProviders.IntendedRejectionSpec |
| apps/auth/db/commands.py:106-107 | any non-empty `--admin` value makes an administrator, so the `'user'` branch is dead | `users:modify -u jane --admin false` | the truth value chooses between administrator and user, as the option's help says (lines 80-81) | not executed | UserCommands.AdminFalseStillPromotes | UserCommands.IntendedUserTypeSpec |
