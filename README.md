# transmissions — a Dafny model of the notification lifecycle

This project models the core of `transmissions`, a Django app that sends notifications to users. The model covers:

- **Registry** (`registry.dfy`): the `message` decorator registers a message class under a trigger name, with a coerced behaviour. Later registrations win.
- **Trigger** (`trigger.dfy`): `Cls.trigger(...)` takes a dedup lock, except for the lock-free behaviours. It then applies the class's dedup policy (`SEND_ONCE`, `SEND_ONCE_PER_CONTENT`, `TRIGGER_ONCE`, `TRIGGER_ONCE_PER_CONTENT`, or none). Finally it creates a CREATED notification or rejects the call, either silently or with `DuplicateNotification`.
- **Models** (`models.dfy`, `channels.dfy`): the `Notification` model with its lazily cached `data`, `save`, `cancel`, and the `send` state machine. `send` drives the channel facade, which resolves the registered class, builds the message, asks `check_validity` and sends. An attempt ends in one of four ways:
  - CANCELLED;
  - SUCCESSFULLY_SENT;
  - FAILED, for a `ChannelSendException`, which is swallowed;
  - BROKEN, for any other exception, which is re-raised.

  A `DELETE_AFTER_PROCESSING` class deletes the row instead of stamping it.
- **Tasks** (`tasks.dfy`, `queries.dfy`): `process_notification` locks the id, reloads the row and sends it only if it is still CREATED. `process_all_notifications` hands every due, unprocessed row to it in scheduled order and returns how many it handed over.
- **Retry** (`retry.dfy`): the `retry_failed_notifications` command resends the FAILED rows scheduled within the last `days` days, each under the lock on its id.
- **Lock** (`lock.dfy`): the `lock` context manager. It does add-if-absent on the cache, polls in 10 ms hops, fails once the waited time exceeds the timeout, and deletes the key on exit.

The parts that are not code of this repository come in as parameters:

- **Store**: the notification table is a `map<int, Row>` with ids handed out from 1, held in a `Database` object.
- **Cache**: a set of keys. Whether another process holds a key at a given poll is an oracle `Contention`.
- **Time**: an integer `now` in seconds.
- **Message class code**: per attempt, a `HandlerRun` says whether the constructor, `check_validity` and `send` return or raise.
- **Codec**: the pickle/base64 codec is an abstract pair of functions. Lemmas that need its round trip take it as a precondition (`RoundTrips`).
- **Celery**: tasks run eagerly, as in the repository's tests. An exception that escapes a task therefore ends the sweep.

Two behaviours of the code shape the model:

- `Notification.cancel` sets status CANCELLED and saves, but it does **not** stamp `datetime_processed` (`transmissions/models.py:122-124`). Consequence: `Tasks.NextSweepSelectsFewer` shows that after any sweep the next one at the same time selects only rows the first left unchanged, and `Tasks.NextSweepSelects` that after a sweep without errors the next sweep at the same time selects exactly the rows that were due, unprocessed and already not CREATED; `Tasks.SweepKeepsSettled` and `Tasks.CancelledStaysDue` show that a sweep, whether or not a task raised, leaves such a row unchanged, so a sweep at that time or any later time selects and counts it again.
- Tasks run synchronously, as the repository's tests configure Celery (`tests/test/tests/test_tasks.py:241-242` expects the sweep itself to raise). `process_all_notifications` therefore runs each `process_notification` in turn, and the first exception ends the sweep.

## Model

| member | source | states |
|---|---|---|
| Types.BehaviorOf | transmissions/models.py:138-144 | an integer names a declared TriggerBehavior exactly when some behaviour carries that value, and then it is that behaviour |
| Types.ReadBlob | transmissions/models.py:83-87 | an empty stored blob reads as the empty mapping; any other blob is decoded |
| Text.ParseDecimalInvertsDecimal | transmissions/tasks.py:16 | the decimal rendering of an id (as `'{0}'.format(id)` gives it) holds only digits and '-' and parses back to the id |
| Text.DecimalInjective | transmissions/tasks.py:16 | distinct ids render as distinct decimal strings, so distinct notifications lock distinct keys |
| Lock.LockId | transmissions/lock.py:13 | the cache key is "lock-transmission-" followed by the caller's key, unchanged |
| Lock.Attempts | transmissions/lock.py:17-22 | the poll loop makes timeout/10 + 1 attempts, each made at a waited time not above the timeout, and the next would exceed it |
| Lock.GiveUpWait | transmissions/lock.py:20-22 | the waited time reported on failure is a multiple of 10 above the timeout, and the least such one |
| Lock.GiveUpAfterHundred | tests/test/tests/test_lock.py:26-27 | with timeout 100 the lock gives up after 11 attempts, reporting 110 ms |
| Lock.Cache.Add | transmissions/lock.py:14 | cache.add succeeds exactly when the key is absent and not held elsewhere, and only then inserts it |
| Lock.Cache.Delete | transmissions/lock.py:15 | cache.delete removes exactly that key |
| Lock.Acquire | transmissions/lock.py:17-22 | acquisition succeeds iff the key is free and some poll within the timeout finds it unheld; it then holds the key, having waited 10 ms per earlier busy poll; otherwise the cache is unchanged and the error carries the give-up wait |
| Lock.Release | transmissions/lock.py:26-27 | releasing removes exactly the lock key |
| Registry.Coerce | transmissions/trigger.py:17-20 | a declared behaviour value is kept; no value or an undeclared one becomes DEFAULT |
| Registry.CoerceKeepsDeclared | transmissions/trigger.py:17-18 | every declared behaviour survives registration under its own value |
| Registry.Registry.constructor | transmissions/trigger.py:8 | the registry starts empty |
| Registry.Registry.Message | transmissions/trigger.py:16-29 | registration stores the class under its name, replacing an earlier one, and leaves every other name's entry as it was |
| Channels.GetTemplate | transmissions/channels/__init__.py:30-37 | the class registered under the trigger name when there is one, UnknownTriggerException otherwise |
| Channels.Open | transmissions/channels/__init__.py:20-24 | a channel opens iff the name is registered and the constructor returns; its message is built from the registered class; constructor errors propagate unchanged |
| Channels.CheckValidity | transmissions/channels/__init__.py:39-44 | valid when the message defines no check_validity, otherwise the message's answer or its error |
| Channels.Send | transmissions/channels/__init__.py:47-58 | succeeds iff the message's send returns; any error becomes ChannelSendException |
| Models.Caught | transmissions/models.py:112-116 | ChannelSendException gives FAILED and is swallowed; any other error gives BROKEN and is re-raised |
| Models.Finish | transmissions/models.py:110-111 | a DELETE_AFTER_PROCESSING class deletes the row after CANCELLED or SUCCESSFULLY_SENT; deleting an instance without id is itself an error (BROKEN) |
| Models.Decide | transmissions/models.py:98-116 | an attempt never leaves CREATED; exactly the BROKEN outcomes raise; ChannelSendException never escapes; a row is deleted only for a registered DELETE_AFTER_PROCESSING class on a clean CANCELLED or SUCCESSFULLY_SENT attempt |
| Models.InvalidIsCancelledUnsent | transmissions/models.py:105-106 | an invalid notification is CANCELLED and the outcome does not depend on what the message's send would do |
| Models.DeliveredIsSent | transmissions/models.py:107-109 | a send that returns gives SUCCESSFULLY_SENT (and no deletion for other behaviours) |
| Models.DeliveryErrorIsFailed | transmissions/models.py:112-113 | a send that raises gives FAILED, the row kept and nothing propagated |
| Models.OtherErrorsAreBroken | transmissions/models.py:112-116 | an unknown trigger gives BROKEN with UnknownTriggerException re-raised; a failing constructor or check_validity gives BROKEN with its error re-raised, unless that error is ChannelSendException, which gives FAILED and is swallowed |
| Models.Notification.GetData | transmissions/models.py:83-87 | the first read decodes the blob (empty blob as `{}`) and caches it; later reads return the cached value |
| Models.Notification.SetData | transmissions/models.py:89-91 | assigning data replaces the cached value |
| Models.Notification.Save | transmissions/models.py:126-132 | save re-encodes the current data into the blob, then updates the row under its id or inserts it under a new id |
| Models.Notification.Cancel | transmissions/models.py:122-124 | cancel stores status CANCELLED with the data re-encoded and leaves datetime_processed as it was; `data` reads as before; a stored instance keeps its id, an unsaved one is inserted under the next id |
| Models.Notification.Send | transmissions/models.py:98-120 | send raises exactly what the classification re-raises; a clean DELETE_AFTER_PROCESSING attempt deletes the row and clears the id; otherwise a stored instance is saved with the outcome status and processed at now; an unsaved instance stores nothing; in every case `data` reads as before |
| Models.Load | transmissions/tasks.py:18 | reloading by id gives the stored row iff the id exists, DoesNotExist otherwise |
| Models.Create | transmissions/trigger.py:119-124 | creation inserts exactly one row under the next id, with the given data (or `{}`) encoded |
| Models.SavedDataReloads | transmissions/models.py:126-132 | with a round-tripping codec, data saved and read back is the data saved |
| Queries.Select | transmissions/tasks.py:28-30 | a selection lists every row the filter accepts and only those, each once, in ascending scheduled order |
| Queries.DueIds | transmissions/tasks.py:28-30 | the sweep selects exactly the rows with scheduled <= now and processed unset, each once, in scheduled order |
| Queries.FailedIds | transmissions/management/commands/retry_failed_notifications.py:20-22 | retry selects exactly the FAILED rows with since <= scheduled <= now, each once, in scheduled order |
| Trigger.DedupKey | transmissions/trigger.py:49-52 | the lock key is name@user, extended with +Type.id exactly for the per-content behaviours, which fail without content |
| Trigger.ScopeKeyInjective | transmissions/trigger.py:49-52 | different (name, user, content) scopes lock different keys, for names without '@' and type names without '.' |
| Trigger.Dedup | transmissions/trigger.py:66-94 | the per-content policies fail without content; DEFAULT and DELETE_AFTER_PROCESSING never reject; a rejection always has a stored row of the same name and user behind it |
| Trigger.Rejection | transmissions/trigger.py:104-108 | a rejected silent call returns None, a rejected non-silent one raises DuplicateNotification |
| Trigger.NewRow | transmissions/trigger.py:110-124 | an accepted trigger stores a CREATED, unprocessed row for the class's name and the user, scheduled as asked or now, with the given content and data (or `{}`) |
| Trigger.WithinLock | transmissions/trigger.py:63-125 | on rejection or error the store is unchanged and the result is the rejection or error; on acceptance exactly one fresh row is added under the next id |
| Trigger.Trigger | transmissions/trigger.py:31-61 | lock-free behaviours evaluate directly; the others fail without content, time out without touching the store, or evaluate under the lock; the cache keys are as before in every case |
| Trigger.SendOnceIgnoresStatus | transmissions/trigger.py:67-71 | SEND_ONCE keeps rejecting once a row of the scope exists, whatever its status and processed time become |
| Trigger.SendOncePerContentScopes | transmissions/trigger.py:73-79 | after a row for one content, SEND_ONCE_PER_CONTENT rejects that content and answers for any other content as before |
| Trigger.TriggerOnceRejectsPending | transmissions/trigger.py:81-94 | TRIGGER_ONCE rejects while any row of the scope is unprocessed, whatever the new content (even none); TRIGGER_ONCE_PER_CONTENT rejects while a row of the scope with the same content is unprocessed, whatever the other rows are |
| Trigger.TriggerOnceReopens | transmissions/trigger.py:81-94 | once the pending row is stamped processed, TRIGGER_ONCE(_PER_CONTENT) accepts the next trigger unless another compared row is pending; under TRIGGER_ONCE_PER_CONTENT pending rows of another content do not block |
| Trigger.LockFreeAcceptsTwice | transmissions/trigger.py:38-45 | two triggers of a lock-free behaviour both succeed and store two rows under different ids |
| Tasks.Attempt | transmissions/models.py:98-120 | a send on a stored instance deletes the row only for a clean DELETE_AFTER_PROCESSING attempt; otherwise it stores the row with a non-CREATED status, processed at now, raising exactly when BROKEN |
| Tasks.AttemptKeepsData | transmissions/models.py:131 | re-saving during send keeps the notification's data |
| Tasks.TaskKey | transmissions/tasks.py:16 | the per-notification lock key is the id in decimal, which never holds '@' |
| Tasks.TaskLocksAreNotTriggerLocks | transmissions/tasks.py:16 | a per-notification lock never collides with a dedup lock of `trigger` |
| Tasks.ProcessNotification | transmissions/tasks.py:14-22 | under the id's lock: a timeout or a missing row raises, a row no longer CREATED is left alone, a CREATED row is sent; the cache keys are as before |
| Tasks.ProcessEach | transmissions/tasks.py:32-33 | the dispatch loop hands each id to process_notification in order and stops at the first task that raises; the cache keys are as before |
| Tasks.ProcessAllNotifications | transmissions/tasks.py:26-35 | the selected due rows are processed in order, stopping at the first task that raises; the result is the number of ids selected |
| Tasks.SweepPointwise | transmissions/tasks.py:32-33 | each task of a sweep changes only its own row; rows outside the selection are untouched |
| Tasks.NextSweepSelects | transmissions/tasks.py:28-35 | after a sweep without errors the next one selects exactly the due rows that were already not CREATED, so an immediate second sweep after sending everything returns 0 |
| Tasks.NextSweepSelectsFewer | transmissions/tasks.py:28-35 | after any sweep, also one a task ended by raising, the next sweep at the same time selects only rows the first one selected and left unchanged |
| Tasks.SweepLeavesPendingUntouched | transmissions/tasks.py:20-22 | any sweep, raising or not, leaves every row it leaves unprocessed exactly as it was |
| Tasks.BrokenIsNotRetried | transmissions/models.py:112-120 | a due CREATED notification whose message class raises while being built makes the sweep raise that error, is stored BROKEN and processed at now, and the next sweep selects nothing (returns 0) |
| Tasks.TaskStepOnce | transmissions/tasks.py:14-22 | after a task that got the lock and found the row, whether its attempt raised (BROKEN) or not, a second task for the same id (any cache, contention, class behaviour, time) leaves the row as it is; it raises only a lock timeout, or DoesNotExist when the row was deleted, so a notification is sent at most once |
| Tasks.SweepKeepsSettled | transmissions/tasks.py:20-22 | any sweep, even one a task ends by raising, leaves every row that is not CREATED exactly as it was |
| Tasks.CancelledStaysDue | transmissions/tasks.py:28-35 | a due, unprocessed row that is not CREATED is counted by a sweep, comes out unchanged, and is selected again by a sweep at the same or any later time |
| Tasks.SweepSkipsUndue | transmissions/tasks.py:28-30 | a row scheduled in the future, or already processed, is neither selected nor modified by a sweep |
| Retry.Since | transmissions/management/commands/retry_failed_notifications.py:18 | the window starts `days` days of 86400 s before now |
| Retry.RetryOne | transmissions/management/commands/retry_failed_notifications.py:26-27 | under the id's lock the row read at selection time is sent; a timeout raises and changes nothing |
| Retry.RetryEach | transmissions/management/commands/retry_failed_notifications.py:24-27 | the loop resends the given ids in order from the rows read before it, stopping at the first error; the cache keys are as before |
| Retry.RetryFailedNotifications | transmissions/management/commands/retry_failed_notifications.py:12-27 | `days` defaults to 7; the FAILED rows scheduled within the window are resent in order from the rows read before the loop, stopping at the first error; the cache keys are as before |
| Retry.RetryPointwise | transmissions/management/commands/retry_failed_notifications.py:24-27 | each resend changes only its own row; rows outside the selection are untouched |
| Retry.RetryLeavesOthers | transmissions/management/commands/retry_failed_notifications.py:20-22 | a row that is not FAILED, or was scheduled outside the window, is unchanged by the command |
| Retry.RetryResends | transmissions/management/commands/retry_failed_notifications.py:24-27 | a FAILED row in the window whose message now goes out ends SUCCESSFULLY_SENT and processed at now |

## Left out

- Email and SMS message classes: a message class is modelled only by what its constructor, `check_validity` and `send` do on an attempt.
- Channels.Send: the value the message's `send` returns is not modelled (a returning send is `Returns(())`); the channel facade passes it on (`transmissions/channels/__init__.py:55`), but its only caller discards it (`transmissions/models.py:108`).
- The notification payload is narrowed to string-to-string maps (`Types.Data`). The source pickles any value (an int and a date at `tests/test/tests/test_models.py:73`); the core never looks inside the payload.
- The registry stores the class itself instead of its dotted path. `import_by_path` is not modelled.
- The pickle/base64 codec is abstract. Corrupt blobs are out of scope, so the model has no failing decode.
- The Django ORM: a map of rows. `ContentType` is reduced to the content's class name, used both as the key text and as the stored type tag.
- Model fields nobody in the core reads are left out: uuid, datetime_created, datetime_seen and datetime_consumed.
- Time zones: times are integers in seconds.
- Separate clock reads within one operation are taken as one instant `now`: the sweep's filter (`transmissions/tasks.py:28`) and each send's processed stamp (`transmissions/models.py:119`); the retry window's start (`transmissions/management/commands/retry_failed_notifications.py:18`) and its upper bound (`:20`). The model does not capture the clock advancing between these reads.
- Trigger.WithinLock: the `LAST_ONLY` test at `transmissions/trigger.py:96` is taken as false. `TriggerBehavior` (`transmissions/models.py:138-144`) declares no `LAST_ONLY`, so as written the attribute access raises AttributeError on every call that passes the four dedup checks, and the handler at `transmissions/trigger.py:104` catches only DuplicateNotification. The model follows the repository's tests instead, which expect such calls to store a row (`tests/test/tests/test_models.py:56`); the cancelling of waiting rows in that branch is therefore not modelled.
- Cache TTL and real concurrency: the cache never expires keys. Other processes appear only through the contention oracle.
- The sleeping between polls: `Lock.Acquire` reports the waited time but does not sleep.
- Logging and the command's stdout line for each resend.
- Celery: tasks run synchronously. Task time limits and result storage are not modelled.
- Exception subtleties of Python are out of scope. For example, the model does not capture that a bare `except:` also catches `BaseException`. Errors are one flat datatype.
- The TTL argument `lock.py` passes to `cache.add`: it is in milliseconds but read as seconds, and the model has no TTL.
- Queries.Precedes: rows with equal scheduled times are ordered by id. The source orders only by `datetime_scheduled` (`transmissions/tasks.py:29`), which leaves the order of ties to the database; the model fixes one such order.
- Trigger.Dedup: its contract states only that a rejection has a matching stored row. `Trigger.SendOnceIgnoresStatus`, `Trigger.SendOncePerContentScopes`, `Trigger.TriggerOnceRejectsPending` and `Trigger.TriggerOnceReopens` state the policies one at a time.
