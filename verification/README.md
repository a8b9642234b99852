# Xevos: delivery, scheduling, organization, pages, edits, tasks

Xevos runs an organization of language-model agents. Agents talk over a durable
event bus, call models through a rate-limited pool of keys, spawn subordinates,
hand each other tasks, keep a working memory and edit files; a browser shows the
conversation live. This project models the parts of it where many small steps
have to add up to a guarantee, and proves the guarantee over every run.

Each stateful source file is a class whose methods are proved to change their
fields exactly as a plain function says; run modules then take those functions as
the atomic steps of a state machine and prove what every reachable state, or every
run, satisfies. A run is a list of actions; awaits, crashes and failing model calls
are places where another action can come in between.

| files | about |
|---|---|
| `delivery.dfy`, `event_bus.dfy`, `delivery_runs.dfy`, `answers.dfy` | the event bus, its mailboxes and tables, over runs with crashes; what its consumers are answered |
| `key_pool.dfy`, `model_calls.dfy` | reservation of API keys, the cap on open calls |
| `agent_ids.dfy`, `organization.dfy`, `organization_runs.dfy`, `report_lists.dfy` | agent ids, creation, suspension, termination, the tree, the lists of direct reports |
| `tasks.dfy`, `memory.dfy`, `task_service.dfy`, `task_runs.dfy`, `task_verdicts.dfy` | task statuses, who may complete a task, working memory and its archive; which transitions are allowed and which tasks are archived |
| `pages.dfy`, `stream.dfy`, `stream_runs.dfy`, `task_list.dfy` | cursor pagination and the browser's live lists |
| `text.dfy`, `edits.dfy`, `replacements.dfy` | split, join and replace; edit_file, multi_edit and insert; what each of them writes |
| `page_text.dfy` | cleaning of fetched pages |

## What holds

- **Bus.** Whatever crashes, the events a target's consumers are answered with are,
  repeats dropped, a prefix of its inbox rows in id order, at most one ahead of what is
  consumed; each crash or unsubscription can repeat one hand-out and nothing else can; a
  consumer that keeps coming back gets every row; the log is numbered 1 to n over all
  restarts.
- **Key pool.** No key is given more starts in any minute than nine tenths of its
  cap, rounded up, whatever the clock reads, and the spacing is the least that ensures
  it: for caps up to 88 a busy key gets exactly that many. Bursts start in rounds and no
  schedule with the same spacing finishes starting earlier.
- **Organization.** However the parts of creates interleave, ids are never reused and
  are numbered without gaps, the caps on size and on each `manages` list hold and every
  agent sits one rung below the agent it was created under, a head in the department its
  create asked for and everyone below in their head's; without terminations the
  organization is a tree and the depth walk returns the role's rank, so the depth refusal
  can never occur.
- **Tasks.** A task is allowed exactly the transitions of the table, never returns to
  assigned, keeps its assignee, stays as it is once closed, has been in progress before it
  is completed, and is completed only by the party its assignee was created under. It is
  archived at most once, with its final status, and without terminations, crashes and
  failing learnings exactly when it is closed.
- **Memory.** With closes that are atomic for their agent, archive and working
  memory together are everything ever recorded, in order, learning failures included.
- **Pages and stream.** A walk over a growing table returns the first table exactly,
  and with the reducer the browser's list is one contiguous block of the conversation,
  which paging on extends to its beginning.
- **Edits and page text.** replace_all keeps the stretches between the occurrences and
  puts the new text at every one of them, and is undone by replacing back exactly if the
  new text neither lies in nor reaches into what is kept; multi_edit is edit_file repeated;
  insertions after an anchor are undone by one edit; cleaning a page is idempotent and
  loses visible characters exactly when a filter drops a line.

## Where the code does less than it seems to promise

Each point is a lemma with the exact condition or a family of concrete runs.

- A target that subscribes after the recovery (a resumed agent does) is served its
  new events before its pending rows: order survives exactly if nothing was pending
  (`LateSubscriptionKeepsOrderIff`).
- An event whose process dies between the log and the inbox row, or whose target has
  no mailbox when it is published, is in the log and is never delivered
  (`UnqueuedPublications`, `UnqueuedIsLostForGood`).
- `utils.ts` says each key is throttled to just under its cap. The reservations are;
  the calls are not, because they queue for a slot after the reservation. Whatever the
  pool and the clock, every minute of a key keeps its rate exactly if at most that many
  of its calls can find all slots taken, that is, are due when more calls are due than
  there are slots (`CallsKeepTheRateIff`): while the first calls stall, all of these wait
  and then fire at once (`QueueingUndoesTheSpacing`). On one key that allows as many calls
  as the cap and the rate together (`OneKeyKeepsTheRateIff`).
- Starts are in order for every pool exactly under clocks that never step back
  (`StartsRiseIff`).
- The second part of a create writes `manages` from a stale copy, and a process that
  dies before it never writes it. Of two overlapping creates one agent is lost from the
  list (`OverlapLosesOne`), and so is one whose create a crash falls into
  (`CrashesLoseAgents`). While none of an agent's reports has been terminated, its list is
  exact exactly if none of its creates overlapped and no crash fell inside one
  (`ManagesIsExactIff`). Over all runs the limit of eight direct reports is kept exactly if
  an agent's creates come one at a time and no crash falls inside one
  (`FanOutCapHoldsIff`); with one create at a time every such crash raises it by one
  (`CrashesRaiseTheFanOutIff`).
- An agent terminated during its create is launched and listed by its creator all the
  same, without a row (`TerminatedWhileBeingCreated`, `RowlessAgentIsReached`). Every
  launched agent has a row in runs that do not do this (`LaunchedHaveRows`), and a step
  breaks that exactly by such a launch (`StepKeepsHousedIff`).
- The executive can be terminated. Its counter row stays, so from then on every
  restart fails while inserting the default agent (`ExecutiveStaysGone`), and creates
  below a terminated agent throw in the depth walk (`CreateVerdicts`).
- A task whose assignee or whose assignee's manager is terminated can never be
  completed by any agent again (`OrphanedTaskIsNeverCompleted`).
- A closed task is never archived if its assignee is gone when it is closed, its learning
  fails, or the process dies while it closes (`StepSettlesIff`, `UnfiledForGood`).
- A turn recorded while the agent's task waits for its learning is lost when the
  close finishes; a close keeps the balance exactly if its copy is still current, and
  a process that dies between clear and archive loses the working memory unless it was
  empty (`StepBalanceIff`, `RecordedWhileClosingIsLost`, `ATurnIsLost`).
- A reconnecting browser is left with only the messages it had missed, because the
  initial page is filtered against the list it then replaces: the list is empty exactly
  if nothing was missed (`ReconnectEmptiesTheListIff`). The first delta after an initial
  page keeps the order exactly if the page reaches back to the opening of the socket
  (`ShortPageBreaksTheOrderIff`). The first connection has the same fault: a delta that
  comes before the initial page is taken off the list by it, and the list is the page
  exactly if no such delta came or the page shows none (`EarlyDeltasAreDroppedIff`).
- A change of a task that has not been paged in yet puts it at the front of the task
  list (`ChangeKeepsOrderIff`).
- A match count of one is taken for uniqueness. That is right for every file exactly
  for strings that cannot overlap themselves (`OneMatchMeansUniqueIff`).
- Replacement texts with `$$`, `$&`, `` $` `` or `$'` are not taken literally
  (`VerbatimIff`), so an insertion after its anchor is undone exactly without them
  (`InsertAfterIsUndoneIff`). An insertion before its anchor is undone exactly without them
  and unless the file before the anchor ends with a beginning of the inserted text behind
  which that text starts over (`InsertBeforeIsUndoneIff`, `InsertBeforeCanFailToUndo`).
- `docs/system-overview.md` describes an older system with other storage and ids; the
  model follows the code.

## Reading the model

- The three parts of publish (log, inbox row, push) are three actions; everything the
  source does without an await is one.
- `World` records carry history fields that the code does not have: hand-outs of
  mailboxes that are gone, ids returned, ids minted, transitions made, messages
  recorded. They are only ever written, never consulted by a step.
- A method's `false` or `None` stands for an exception the source throws at that point.
- The line filters of the page cleaner are arbitrary predicates in place of the two
  regular expressions, so its results hold for any filters.
- Assumptions on runs appear as predicates: `Disciplined` (subscribe, then recover
  once, then publish, as the main program does), `NoOverlap` and `CrashesSpare` (creates
  of one agent one at a time, and no crash between an insert and its `manages` write),
  `Undiminished` (none of an agent's reports terminated, as always without terminations:
  `NobodyIsMissed`), `SparingRun` (no termination inside a create),
  `AloneRun` (closes atomic for their agent), `Orderly` in `StreamRuns`
  (one initial load whose page arrives before the deltas and reaches back to the opening)
  and in `TaskLists` (changes of listed tasks only).
- `After` continues from a state and `Exec` is `After` from the empty database, so a
  statement about `After(Exec(run).value, more)` covers every continuation of every run.

## Model

| member | source | states |
|---|---|---|
| `Delivery.MaxSeq` | packages/core/src/core/event-bus/store.ts:42-48 | the least number at or above every logged one, attained by some event, 0 for an empty log |
| `EventBus.EventStore.HighestSeq` | packages/core/src/core/event-bus/store.ts:42-48 | returns that number for the stored log |
| `EventBus.EventStore.Append` | packages/core/src/core/event-bus/store.ts:50-63 | succeeds exactly if no logged event has the number, and then adds the event at the end; else changes nothing |
| `EventBus.EventStore.Enqueue` | packages/core/src/core/event-bus/store.ts:65-72 | adds one pending row under the next id and returns the id |
| `EventBus.EventStore.MarkConsumed` | packages/core/src/core/event-bus/store.ts:74-80 | what is pending afterwards is what was pending before without that row, in the same order; rows with other ids are untouched |
| `EventBus.EventStore.LoadPending` | packages/core/src/core/event-bus/store.ts:82-94 | a row is returned exactly if it is in the inbox and pending, and ids rise if the inbox's do |
| `Delivery.ConsumedIsNotLoaded` | packages/core/src/core/event-bus/store.ts:74-94 | loading after marking is loading before it with the marked row left out: consumed work is never replayed and no other work is lost |
| `Delivery.PendingRowsAre` | packages/core/src/core/event-bus/store.ts:82-94 | the pending rows are exactly the rows with that status, and keep the order of their ids |
| `EventBus.Mailbox.Push` | packages/core/src/core/event-bus/index.ts:39-50 | a parked consumer gets the event at once and holds it unacknowledged; otherwise it queues last |
| `Delivery.PushWakesIff` | packages/core/src/core/event-bus/index.ts:39-50 | a push wakes a parked consumer with an event if and only if that event is then in flight and newly handed out |
| `EventBus.Mailbox.TakeNext` | packages/core/src/core/event-bus/index.ts:52-72 | acknowledges what was in hand, then hands out the queue's head, parks, or is rejected when a consumer is parked already |
| `Delivery.TakeAnswersIff` | packages/core/src/core/event-bus/index.ts:52-72 | takeNext answers with an event if and only if that event is then in flight and newly handed out |
| `EventBus.Mailbox.AckInFlight` | packages/core/src/core/event-bus/index.ts:74-80 | marks the row in hand consumed, if it has one, and empties the hand |
| `EventBus.EventBus.constructor` | packages/core/src/core/event-bus/index.ts:102-104 | a new bus continues the numbering of its log and has no mailboxes |
| `EventBus.EventBus.Subscribe` | packages/core/src/core/event-bus/index.ts:118-126 | the target gets a fresh empty mailbox, replacing any other; nothing else changes |
| `EventBus.EventBus.Unsubscribe` | packages/core/src/core/event-bus/index.ts:128-130 | the target's mailbox is gone; nothing else changes |
| `EventBus.EventBus.Publish` | packages/core/src/core/event-bus/index.ts:148-177 | logs under the next number, then for a subscribed target writes an inbox row and pushes it; a refused append throws before anything is queued |
| `Delivery.PublishAlwaysCounts` | packages/core/src/core/event-bus/index.ts:148-177 | every publish uses up one number, a failing one included; it returns that number, or fails exactly if it is in the log already |
| `EventBus.EventBus.TakeNext` | packages/core/src/core/event-bus/index.ts:52-80 | a consumer's return changes its own mailbox and at most one row, and no other mailbox |
| `EventBus.EventBus.Recover` | packages/core/src/core/event-bus/index.ts:184-201 | every pending row with a mailbox is pushed there, in id order, and the count returned is the number of pushes |
| `Delivery.DeliverableIs` | packages/core/src/core/event-bus/index.ts:184-201 | the count that recovery returns is the number of pending rows whose target has a mailbox |
| `DeliveryRuns.PublishIsItsThreeActions` | packages/core/src/core/event-bus/index.ts:148-177 | an uninterrupted publish is its log, enqueue and push actions one after the other |
| `DeliveryRuns.EveryRunKeeps` | packages/core/src/core/event-bus/index.ts:25-201 | the protocol invariant holds after every run of subscribe, unsubscribe, publish parts, takeNext, crash, boot and recover |
| `DeliveryRuns.HandOutsFollowTheInbox` | packages/core/src/core/event-bus/index.ts:28-35 | at least once, in order: hand-outs with repeats dropped are a prefix of the target's rows in id order, at most one ahead of the consumed rows, which are a prefix too |
| `DeliveryRuns.RepeatsAreBounded` | packages/core/src/core/event-bus/index.ts:28-35 | hand-outs number at most consumed rows + crashes + unsubscriptions + 1 |
| `DeliveryRuns.MailboxHoldsThePendingRows` | packages/core/src/core/event-bus/index.ts:184-201 | after recovery the row in hand followed by the queue is exactly the target's pending rows in id order; a parked consumer means both are empty |
| `DeliveryRuns.LogIsNumberedWithoutGaps` | packages/core/src/core/event-bus/index.ts:93-108 | log numbers are 1 to n over any restarts, returned ids rise strictly and are in the log, every inbox event is in the log, and the log never refuses an event |
| `DeliveryRuns.RowsTurnConsumedOnce` | packages/core/src/core/event-bus/index.ts:74-80 | a step consumes a row only when its own consumer comes back with it in hand after it was handed out; no row goes back, disappears or changes |
| `DeliveryRuns.ReturningConsumerDrains` | packages/core/src/core/event-bus/index.ts:52-72 | a consumer that comes back once more than its queue is long has got the queue in order and every row of its target is consumed |
| `DeliveryRuns.UnqueuedPublications` | packages/core/src/core/event-bus/index.ts:154-164 | a crash right after the append leaves the event logged without a row, and an unbroken publish does exactly if the target has no mailbox |
| `DeliveryRuns.UnqueuedIsLostForGood` | packages/core/src/core/event-bus/index.ts:184-201 | such an event never gets a row and is never handed to anyone, through any restarts |
| `DeliveryRuns.MailboxIsFifo` | packages/core/src/core/event-bus/index.ts:25-85 | under any calls, what was handed out and then the queue is what was pushed; a call is rejected exactly if an earlier one is still unanswered, so a lone consumer loop never is |
| `Answers.MailboxAnswersInOrder` | packages/core/src/core/event-bus/index.ts:25-85 | under any calls, the events answered, by calls and to parked consumers, and then those queued are the events pushed, in order |
| `Answers.AnswersAreHanded` | packages/core/src/core/event-bus/index.ts:52-72 | in every run, what a target's consumers are answered with over all its mailboxes is, in order, what is recorded as handed out to them |
| `Answers.AnswersFollowTheInbox` | packages/core/src/core/event-bus/index.ts:28-35 | at least once, in order, for what consumers receive: repeats dropped, the answers are a prefix of the events of the target's inbox rows, at most one ahead of the consumed rows |
| `Answers.ReturningConsumerIsAnswered` | packages/core/src/core/event-bus/index.ts:52-72 | a consumer that keeps coming back is answered with each queued event in order and then parked |
| `DeliveryRuns.LateSubscriptionKeepsOrderIff` | packages/core/src/core/event-bus/index.ts:118-126 | a subscription after the recovery keeps the order of consumption exactly if nothing was pending for the target |
| `DeliveryRuns.PendingWithoutMailbox` | packages/core/src/core/event-bus/index.ts:128-164 | a run that reaches the failing side: a target unsubscribed with work queued has a pending row and no mailbox |
| `RateLimit.FewFitInAMinute` | packages/core/src/core/utils.ts:52-55 | starts whose span at the chosen interval is below a minute number at most nine tenths of the cap, rounded up |
| `RateLimit.IntervalIsLeast` | packages/core/src/core/utils.ts:52-55 | a gap is at least the interval if and only if it keeps a key at nine tenths of its cap, or at one request a minute |
| `KeyPool.FirstMin` | packages/core/src/core/utils.ts:69-72 | the first index whose next-free time is least |
| `KeyPool.Keys.constructor` | packages/core/src/core/utils.ts:52-58 | all keys start free, spaced by the interval of the cap |
| `KeyPool.Keys.ReserveKey` | packages/core/src/core/utils.ts:68-82 | reserves the first key that frees up soonest, from now or from then, pushes only that key's time on by an interval and returns the wait |
| `RateLimit.StartsAreSpaced` | packages/core/src/core/utils.ts:45-47 | on each key consecutive starts are at least an interval apart and the key stays busy an interval after the last, whatever the clock reads |
| `RateLimit.MinuteBound` | packages/core/src/core/utils.ts:36-47 | in any 60 000 ms window no key has more reserved starts than nine tenths of its requests per minute, rounded up |
| `RateLimit.BurstFillsTheMinute` | packages/core/src/core/utils.ts:36-47 | of a burst on N free keys a reservation starts within a minute if and only if it is among the first N times what one key can get |
| `RateLimit.CapacityIsNear` | packages/core/src/core/utils.ts:45-55 | what one key can get is at least one and at most nine tenths of the cap, rounded up, and more than nine tenths of the cap times 600 000 / (600 000 + 9 rpm), which is what rounding the interval up can cost |
| `RateLimit.SmallCapsAreFilled` | packages/core/src/core/utils.ts:45-55 | for caps up to 88 a busy key gets exactly nine tenths of its cap, rounded up; for 89 it gets one less |
| `RateLimit.GrantIsEarliest` | packages/core/src/core/utils.ts:63-67 | the start is the least any key could offer at that moment |
| `RateLimit.StartsNeverDecrease` | packages/core/src/core/utils.ts:68-82 | under a clock that never steps back starts never decrease, and no key is free before the last start |
| `RateLimit.StartsRiseIff` | packages/core/src/core/utils.ts:68-82 | for every interval and every sequence of clock readings: starts never decrease whatever the pool if and only if the clock never steps back |
| `RateLimit.ClockSetBack` | packages/core/src/core/utils.ts:74-76 | for any clock that steps back anywhere, some pool starts a later reservation before an earlier one |
| `RateLimit.BurstStarts` | packages/core/src/core/utils.ts:68-82 | reservation j of a burst on N free keys starts (j / N) intervals after it |
| `RateLimit.ScheduleCapacity` | packages/core/src/core/utils.ts:45-47 | any assignment with that spacing serves at most N requests per interval |
| `RateLimit.BurstIsOptimal` | packages/core/src/core/utils.ts:63-82 | the burst is itself such an assignment, and every other of the same size has a start at or after the burst's last |
| `ModelSlots.Semaphore.constructor` | packages/core/src/core/utils.ts:89-94 | the pool starts full, with at least one slot |
| `ModelSlots.Semaphore.Acquire` | packages/core/src/core/utils.ts:96-102 | takes a free slot or queues last |
| `ModelSlots.Semaphore.Release` | packages/core/src/core/utils.ts:104-110 | hands the slot to the first waiter, and only without one back to the pool |
| `ModelCalls.EveryRunKeeps` | packages/core/src/core/utils.ts:93-128 | the slot and time invariants hold after every interleaving of calls that ask, resume and end |
| `ModelCalls.SlotsAreConserved` | packages/core/src/core/utils.ts:89-110 | slots in use, handed over but not resumed included, plus free slots are the cap; a waiter means none is free |
| `ModelCalls.SlotsAreGrantedInOrder` | packages/core/src/core/utils.ts:94-110 | slots are granted in request order, once per call |
| `ModelCalls.PoolFillsUpAgain` | packages/core/src/core/utils.ts:116-128 | when no call holds a slot all calls have ended, returned or thrown, and the pool is full with nobody waiting |
| `ModelCalls.CallsKeepTheRate` | packages/core/src/core/utils.ts:116-128 | if no call ever waits for a slot, the calls fired on a key in any minute are bounded like its reservations |
| `ModelCalls.RateOfCalls` | packages/core/src/core/utils.ts:116-128 | for any pool, cap and on-time run: the calls of a key in a minute keep its rate, or are no more than those on it that got their slot after the first `cap` calls |
| `ModelCalls.CallsKeepTheRateIff` | packages/core/src/core/utils.ts:36-47 | for any number of keys, any cap and any clock readings: every minute of every on-time run keeps a key's rate if and only if no more calls than that on the key are due by their starts together with more than `cap` calls |
| `ModelCalls.OneKeyKeepsTheRateIff` | packages/core/src/core/utils.ts:36-47 | with one key: if and only if the reservations are no more than the cap and the rate together |
| `ModelCalls.QueueingUndoesTheSpacing` | packages/core/src/core/utils.ts:121-122 | for any cap and any grants that start apart on each key, some run asks on time throughout and fires every call on a key that can be late at one moment |
| `AgentIds.RenderInjective` | packages/core/src/core/schema/agent.schema.ts:35-60 | two report targets with the same text are the same; the principal is no agent |
| `AgentIds.DecimalReadsBack` | packages/core/src/repositories/agent/agent.repository.ts:111 | the digits of an id's number read back as the number, without leading zeros |
| `AgentIds.KeysAreSpelled` | packages/core/src/core/schema/agent.schema.ts:3-15 | the stored names of all roles and departments |
| `AgentIds.FirstExecutiveIs` | packages/core/src/repositories/agent/agent.repository.ts:40-57 | the id of the default executive as it is stored |
| `AgentIds.CounterKeyInjective` | packages/core/src/repositories/agent/agent.repository.ts:86-98 | counters of different roles or departments never share a key |
| `Organization.AgentRepository.SeedDefaults` | packages/core/src/repositories/agent/agent.repository.ts:28-58 | leaves a table with an executive alone; otherwise inserts it with its counter, or fails and changes nothing if the id or the counter is taken |
| `Organization.AgentRepository.Get` | packages/core/src/repositories/agent/agent.repository.ts:60-70 | the row of the id, or nothing for the exception |
| `Organization.AgentRepository.CreateAgent` | packages/core/src/repositories/agent/agent.repository.ts:86-121 | bumps the counter of the role and department and inserts the row under that number, both or neither |
| `Organization.AgentRepository.UpdateManages` | packages/core/src/repositories/agent/agent.repository.ts:123-134 | changes that one field of an existing row; else throws |
| `Organization.AgentRepository.UpdateStatus` | packages/core/src/repositories/agent/agent.repository.ts:123-134 | changes that one field of an existing row; else throws |
| `Organization.AgentRepository.Delete` | packages/core/src/repositories/agent/agent.repository.ts:136-144 | removes the row and nothing else, so references to it dangle; throws if there was none |
| `Organization.AgentService.constructor` | packages/core/src/core/services/agent.ts:150-165 | launches exactly the active agents |
| `Organization.AgentService.DepthOf` | packages/core/src/core/services/agent.ts:425-436 | the loop computes the recursive depth, or throws where an agent above is gone |
| `Organization.AgentService.BeginCreate` | packages/core/src/core/services/agent.ts:244-334 | the checks in order, then the insert: the whole of create before its await, with the creator's `manages` as read |
| `Organization.AgentService.EnlistChild` | packages/core/src/core/services/agent.ts:336-338 | writes the copy plus the new id over `manages`; throws if the creator is gone |
| `Organization.AgentService.Launch` | packages/core/src/core/services/agent.ts:187-202 | adds the agent to those running; one that runs already stays so |
| `Organization.AgentService.HandleSuspension` | packages/core/src/core/services/agent.ts:360-378 | sets the status only; the agent stays launched |
| `Organization.AgentService.HandleResume` | packages/core/src/core/services/agent.ts:380-398 | sets the status and launches the agent |
| `Organization.AgentService.HandleTermination` | packages/core/src/core/services/agent.ts:400-422 | forgets and stops the agent, then deletes its row; throws afterwards if there was none |
| `OrganizationRuns.DepthIsRank` | packages/core/src/core/services/agent.ts:424-436 | in every reachable state the walk returns the role's rank, or throws because an agent above is gone; its guard never cuts it short |
| `OrganizationRuns.CreateVerdicts` | packages/core/src/core/services/agent.ts:254-342 | in every reachable state, exactly when create gives each refusal, throws and starts, with the caps of 40 and 8; it is never refused for depth, and throws exactly if it gets to the depth walk and the reporting line is broken |
| `OrganizationRuns.ChildIsPlaced` | packages/core/src/core/services/agent.ts:264-319 | a new agent is one rung below its creator, in the department asked for under the executive and in its creator's own below that |
| `OrganizationRuns.HeadsAreAsRequested` | packages/core/src/core/services/agent.ts:301-319 | every head ever created was created by the executive's request for its department |
| `OrganizationRuns.EveryDepartmentIsReached` | packages/core/src/core/services/agent.ts:301-319 | for each department a run from an empty database that ends with a head there |
| `OrganizationRuns.EveryRunKeeps` | packages/core/src/core/services/agent.ts:244-422 | the organization invariant holds after every interleaving of boots, creates in their three parts, suspensions, resumptions, terminations and crashes |
| `OrganizationRuns.OrganizationIsATree` | packages/core/src/core/services/agent.ts:50-55 | without terminations: everyone reaches the executive one rung at a time, in one department below each head, at a depth equal to the rank |
| `OrganizationRuns.CapsAlwaysHold` | packages/core/src/core/services/agent.ts:139-141 | terminations included: at most 40 agents and 8 `manages` entries, each live one reporting there; nobody reports to itself or off the ladder |
| `OrganizationRuns.IdsAreNeverReused` | packages/core/src/repositories/agent/agent.repository.ts:86-121 | a new agent's id was never given out before, so no dangling reportsTo, `manages` or unfinished create names it |
| `OrganizationRuns.NumberedInOrder` | packages/core/src/repositories/agent/agent.repository.ts:86-121 | in every run, the ids given out so far in a new agent's role and department are exactly those numbered from 1 up to its own |
| `OrganizationRuns.TerminatedStaysGone` | packages/core/src/repositories/agent/agent.repository.ts:136-144 | a terminated id is never in the table again, through creates and restarts |
| `OrganizationRuns.RestartNeedsTheExecutive` | packages/core/src/repositories/agent/agent.repository.ts:28-58 | a restart succeeds exactly on an empty history or while the first executive is in the table |
| `OrganizationRuns.ExecutiveStaysGone` | packages/core/src/repositories/agent/agent.repository.ts:40-57 | once the executive is terminated every later restart fails |
| `OrganizationRuns.RestartLaunchesTheActive` | packages/core/src/core/services/agent.ts:158-165 | a restart from any reachable state changes no row, succeeds exactly if the executive is there, and then launches exactly the agents not suspended |
| `OrganizationRuns.SuspendedForGood` | packages/core/src/core/services/agent.ts:360-378 | over everything that follows without a resumption or termination of the agent: it stays suspended, goes on while the process lives, and never runs after the first crash |
| `OrganizationRuns.ResumedForGood` | packages/core/src/core/services/agent.ts:380-398 | over everything that follows without a suspension or termination of the agent: it stays active and is launched whenever the process is up |
| `OrganizationRuns.StepKeepsHousedIff` | packages/core/src/core/services/agent.ts:336-340 | if all launched agents have rows, a step keeps that so if and only if it is not the launch of a new agent whose row is gone |
| `OrganizationRuns.LaunchedHaveRows` | packages/core/src/core/services/agent.ts:336-340 | in runs that never terminate an agent whose create is unfinished, every launched agent has a row |
| `OrganizationRuns.TerminatedWhileBeingCreated` | packages/core/src/core/services/agent.ts:336-340 | from any reachable state, an agent terminated during its create ends up launched and listed without a row |
| `OrganizationRuns.RowlessAgentIsReached` | packages/core/src/core/services/agent.ts:336-340 | a run from an empty database that ends with a launched agent without a row |
| `ReportLists.UnfinishedIsUnlisted` | packages/core/src/core/services/agent.ts:321-338 | in every reachable state a new agent whose create is unfinished is in nobody's list and in no unfinished create's copy of a list |
| `ReportLists.OverlapLosesOne` | packages/core/src/core/services/agent.ts:336-338 | from any reachable state with two unfinished creates of one live creator, completing both in either order leaves exactly the later one's agent listed |
| `ReportLists.ManagesIsExactIff` | packages/core/src/core/services/agent.ts:285-338 | with all agents created under it still there and none of its creates under way, a list is exactly the agents reporting there if and only if none of the agent's creates ever overlapped and no crash ever fell inside one |
| `ReportLists.ManagesIsExact` | packages/core/src/core/services/agent.ts:285-291 | terminations included: without overlap or a crash inside a create the live entries of the list are exactly the agents reporting there, at most 8 |
| `ReportLists.CrashesLoseAgents` | packages/core/src/core/services/agent.ts:321-338 | crashes between insert and `manages` write give the executive any number of direct reports below the organization's size, none of them listed, with one create at a time and no overlap |
| `ReportLists.FanOutCapHoldsIff` | packages/core/src/core/services/agent.ts:140-141 | eight direct reports are never exceeded, over all runs with at most m unfinished creates of the agent at a time and at most k crashes inside them, if and only if m is zero, or m is one and k zero |
| `ReportLists.CrashesRaiseTheFanOutIff` | packages/core/src/core/services/agent.ts:321-338 | with one create at a time and at most k crashes inside creates, a limit on direct reports is never exceeded if and only if it is at least 8 + k or everyone else in a full organization |
| `ReportLists.OverlapsBreakTheFanOutCap` | packages/core/src/core/services/agent.ts:285-338 | overlapping creates give the executive any number of direct reports below the organization's size |
| `Tasks.TaskRepository.Get` | packages/core/src/repositories/task.repository.ts:26-30 | the row of the id, or nothing |
| `Tasks.TaskRepository.CreateTask` | packages/core/src/repositories/task.repository.ts:32-67 | bumps the counter and inserts an assigned task under that number, both or neither |
| `Tasks.TaskRepository.UpdateStatus` | packages/core/src/repositories/task.repository.ts:69-81 | changes the status of that task and nothing else; nothing if there is none |
| `Memory.AgentMemoryRepository.Append` | packages/core/src/repositories/memory/agent-memory.repository.ts:27-52 | adds the messages behind what the agent has, other agents untouched |
| `Memory.AgentMemoryRepository.Clear` | packages/core/src/repositories/memory/agent-memory.repository.ts:54-59 | forgets that agent's messages and no others |
| `Memory.MemoryWarehouseRepository.Archive` | packages/core/src/repositories/memory/memory-warehouse.repository.ts:55-87 | appends one row under the next number |
| `Memory.MemoryService.RecordTurn` | packages/core/src/core/services/memory.ts:110-112 | the turn goes behind the agent's working memory; the warehouse is untouched |
| `Memory.MemoryService.BeginCloseTask` | packages/core/src/core/services/memory.ts:121-141 | takes a copy of the working memory and changes nothing; throws if the task is missing |
| `Memory.MemoryService.FinishCloseTask` | packages/core/src/core/services/memory.ts:141-158 | with a learning clears the working memory and archives the copy; without one changes nothing |
| `TaskServices.TaskService.Create` | packages/core/src/core/services/task.ts:103-142 | creates a task exactly for an assignee that exists, else changes nothing |
| `TaskServices.TaskService.BeginTransition` | packages/core/src/core/services/task.ts:145-192 | verdicts in the source's order, the status written exactly when allowed, and a close started exactly for a terminal status with an assignee that exists |
| `TaskServices.TaskService.BeginArchive` | packages/core/src/core/services/task.ts:254-269 | skips tasks without assignee, with a missing agent or without row |
| `TaskRuns.EveryRunKeeps` | packages/core/src/core/services/task.ts:103-194 | the task, archive and organization invariants hold after every interleaving |
| `TaskRuns.TaskForLife` | packages/core/src/core/services/task.ts:28-37 | from any reachable state on: assignee kept, never backlog, never back to assigned, a closed task keeps its status |
| `TaskRuns.CompletedByTheManager` | packages/core/src/core/services/task.ts:163-183 | a completed task has been in progress and its last move was asked for by the party its assignee was created under, one rung up, never the assignee |
| `TaskRuns.CompletionVerdict` | packages/core/src/core/services/task.ts:157-183 | a completion is allowed exactly from in progress or in review, with the assignee alive, to the assignee's manager |
| `TaskVerdicts.TransitionVerdicts` | packages/core/src/core/services/task.ts:28-37 | for every status but completed, the exact statuses from which a transition to it is allowed |
| `TaskVerdicts.CompletionRefusals` | packages/core/src/core/services/task.ts:151-183 | which refusal a completion meets, and exactly when: no task, a status other than in progress or in review, or anyone but the assignee's manager asking |
| `TaskVerdicts.TaskIsCreatedIff` | packages/core/src/core/services/task.ts:103-142 | in every run a task is created exactly for an assignee that exists, born assigned to it, under the number that follows those of all tasks ever created |
| `TaskVerdicts.ReviewedAndCompleted` | packages/core/src/core/services/task.ts:28-37 | a run from an empty database in which a task goes through in progress and in review to completed |
| `TaskVerdicts.BlockedAndCompleted` | packages/core/src/core/services/task.ts:28-37 | a run in which a task is blocked, taken up and completed |
| `TaskRuns.OrphanedTaskIsNeverCompleted` | packages/core/src/core/services/task.ts:163-183 | with the assignee or its manager terminated, no agent now or later may complete the task |
| `TaskRuns.TasksAreArchivedOnce` | packages/core/src/core/services/task.ts:189-191 | each warehouse row has its number, belongs to a closed task with its final status and assignee, and no task has two |
| `TaskVerdicts.ClosesStart` | packages/core/src/core/services/task.ts:187-191 | a transition starts a close exactly if it is allowed, to a closed status, and the assignee is there; the close holds a copy of its memory |
| `TaskVerdicts.StepSettlesIff` | packages/core/src/core/services/task.ts:189-191 | a step keeps a closed task in the warehouse or on its way there if and only if it does not close it without its assignee, fail its learning, or kill the process under its close |
| `TaskVerdicts.ClosedTasksAreArchived` | packages/core/src/core/services/task.ts:189-191 | in runs without terminations, crashes and failing learnings, with no close under way, a task is completed, failed or cancelled if and only if it has a warehouse row |
| `TaskVerdicts.UnfiledForGood` | packages/core/src/core/services/memory.ts:121-158 | a closed task that is neither in the warehouse nor on its way there never gets there |
| `TaskRuns.StepBalanceIff` | packages/core/src/core/services/memory.ts:127-157 | a step keeps archive plus working memory equal to everything recorded exactly if a finishing close holds a current copy and a torn one an empty memory |
| `TaskRuns.MessagesAreConserved` | packages/core/src/core/services/memory.ts:110-158 | with closes atomic per agent, archived messages in archive order followed by working memory are everything recorded, learning failures included |
| `TaskRuns.RecordedWhileClosingIsLost` | packages/core/src/core/services/memory.ts:141-146 | messages recorded while a close waits for its learning are gone when it finishes |
| `TaskRuns.ATurnIsLost` | packages/core/src/core/services/memory.ts:141-146 | a run from an empty database in which every message of a turn is lost so |
| `Pages.PageFromCursor` | packages/core/src/observer/queries.ts:79-94 | a page with row j as cursor shows the rows just below j, newest first, however the table has grown, with the lowest one as next cursor if the page is full |
| `Pages.FirstPage` | packages/core/src/observer/queries.ts:107-127 | a page without cursor shows the newest rows in the same way |
| `Pages.WalkReturnsTheTable` | packages/core/src/observer/queries.ts:74-94 | from no cursor to no cursor, a walk returns exactly the rows of the first fetch, each once and newest first, in n / limit + 1 fetches, whatever is inserted meanwhile |
| `Pages.MessageWalk` | packages/core/src/observer/queries.ts:106-127 | the same out of a growing event log, for exactly its events of type message to or from the principal |
| `Stream.IndexOf` | apps/web/lib/use-xevos-stream.ts:68 | the first position of the id, or the length |
| `Stream.MessageHistory.OnMessage` | apps/web/lib/use-xevos-stream.ts:75-78 | a message not yet shown goes to the end; a shown one changes nothing |
| `Stream.MessageHistory.BeginLoad` | apps/web/lib/use-xevos-stream.ts:173-181 | a fetch goes out exactly if none is under way and there is a next page or it is the initial one, with the right cursor |
| `Stream.MessageHistory.FinishLoad` | apps/web/lib/use-xevos-stream.ts:182-195 | cursor, list and flags after a page: an initial page replaces the list, an older one goes in front, shown messages left out |
| `Stream.MessageHistory.FailLoad` | apps/web/lib/use-xevos-stream.ts:191-195 | a failed fetch lifts the guard and changes nothing else |
| `Stream.NothingIsListedTwice` | apps/web/lib/use-xevos-stream.ts:67-117 | after any deltas and pages in any order no message and no task is listed twice |
| `Stream.UpsertShowsTheTask` | apps/web/lib/use-xevos-stream.ts:67-73 | the task is shown in its new state, every other task as before, a new one at the front |
| `Stream.TaskPagesShowTheTable` | apps/web/lib/use-xevos-stream.ts:99-105 | paging to the end of a growing task table shows the tasks of the first fetch, each once, newest first |
| `TaskLists.TaskListIsOneBlock` | apps/web/lib/use-xevos-stream.ts:67-105 | with deltas of new and of listed tasks and pages of older ones in any order, the list is one block of the table, each task once and newest first, from the cursor up |
| `TaskLists.TasksAreReduced` | apps/web/lib/use-xevos-stream.ts:83-105 | the tasks shown are what the reducer makes of the pages and deltas dispatched |
| `TaskLists.ChangeKeepsOrderIff` | apps/web/lib/use-xevos-stream.ts:67-73 | a change keeps it so if and only if its task is listed already; an unlisted one jumps to the front |
| `TaskLists.EveryTaskIsListed` | apps/web/lib/use-xevos-stream.ts:148-171 | after the last page, with every new task announced, all tasks are listed once, newest first |
| `Stream.InitialPageShowsItselfIff` | apps/web/lib/use-xevos-stream.ts:106-113 | an initial page shows its own messages exactly if none of them was listed before |
| `StreamRuns.ListIsOneBlock` | apps/web/lib/use-xevos-stream.ts:106-113 | after the initial page the list is a contiguous ascending block of the conversation from the cursor on, past every delta received |
| `StreamRuns.EverythingIsShown` | apps/web/lib/use-xevos-stream.ts:173-196 | with no more pages and all deltas in, the list is the conversation |
| `StreamRuns.PagingReachesTheBeginning` | apps/web/lib/use-xevos-stream.ts:173-196 | from any reachable state with the initial page in, a known number of further loads ends with no more pages and the list reaching from the opening of the conversation to where it did before |
| `StreamRuns.MessagesAreReduced` | apps/web/lib/use-xevos-stream.ts:83-117 | the messages shown in a run are what the reducer makes of the deltas and pages dispatched in it |
| `StreamRuns.ReconnectShowsTheMissed` | apps/web/lib/use-xevos-stream.ts:106-113 | after a reconnect from any reachable state the list is exactly the part of the newest page that had been missed |
| `StreamRuns.ReconnectEmptiesTheListIff` | apps/web/lib/use-xevos-stream.ts:209-214 | so it is empty if and only if nothing was missed, and a whole page if and only if at least a page was |
| `StreamRuns.ReconnectLosesTheConversation` | apps/web/lib/use-xevos-stream.ts:209-214 | a run that shows a message and loses it to a reconnect |
| `StreamRuns.ShortPageBreaksTheOrderIff` | apps/web/lib/use-xevos-stream.ts:75-113 | from any reachable state with an initial page for an empty list, the first delta after it leaves the list ascending if and only if the page reaches back to what was there when the socket opened |
| `StreamRuns.ShortPageBreaksTheOrder` | apps/web/lib/use-xevos-stream.ts:75-113 | a run that reaches the failing side |
| `StreamRuns.EarlyDeltasAreDroppedIff` | apps/web/lib/use-xevos-stream.ts:106-113 | from any reachable state an initial page takes every delta received before it off the list, which is the page if and only if no delta had come, the page lies above them all, or it shows nothing published since the opening |
| `StreamRuns.FirstPageLosesADelta` | apps/web/lib/use-xevos-stream.ts:75-113 | a run in which the first page empties a list that showed the only message |
| `Text.JoinSplit` | packages/core/src/core/services/tool/definitions/code/edit-file.ts:46-47 | join(split(s, d), d) is s |
| `Text.MatchesIsTheMost` | packages/core/src/core/services/tool/definitions/code/edit-file.ts:30 | the match count is the largest number of occurrences that do not overlap |
| `Text.CutsAreLeftmost` | packages/core/src/core/services/tool/definitions/code/edit-file.ts:46-47 | an occurrence at which split does not cut is overlapped by a cut that begins before it |
| `Text.OneMatchMeansUniqueIff` | packages/core/src/core/services/tool/definitions/code/edit-file.ts:39-44 | a count of one means a unique occurrence in every file exactly if the string cannot overlap itself |
| `Text.OneMatchFirstIsAll` | packages/core/src/core/services/tool/definitions/code/edit-file.ts:46-48 | with one match and a literal replacement, first-occurrence replace is split and join |
| `Text.VerbatimIff` | packages/core/src/core/services/tool/definitions/code/edit-file.ts:48 | in a file without dollar signs a replacement goes in verbatim exactly if it has no pattern |
| `Text.PatternThatExpandsToItself` | packages/core/src/core/services/tool/definitions/code/edit-file.ts:48 | with dollar signs in the file a pattern can expand to itself |
| `Edits.Sandbox.EditFile` | packages/core/src/core/services/tool/definitions/code/edit-file.ts:26-56 | zero matches, several without replace_all, one or all replaced; a failing edit writes nothing |
| `Replacements.EditVerdicts` | packages/core/src/core/services/tool/definitions/code/edit-file.ts:30-44 | an edit fails exactly if its text does not occur, or occurs twice without overlap and is not to be replaced everywhere |
| `Replacements.EmptyTextVerdicts` | packages/core/src/core/services/tool/definitions/code/edit-file.ts:30-44 | the same for an empty text, by the length of the file |
| `Replacements.SingleEditIs` | packages/core/src/core/services/tool/definitions/code/edit-file.ts:46-48 | a single edit puts the filled-in new text in the place of the first occurrence and keeps what is around it |
| `Replacements.PatternsAreFilledIn` | packages/core/src/core/services/tool/definitions/code/edit-file.ts:48 | what each `$` pattern of a replacement text stands for; any other character after a dollar sign is kept |
| `Replacements.ReplaceAllIs` | packages/core/src/core/services/tool/definitions/code/edit-file.ts:46-48 | replace_all keeps the stretches between occurrences, taken from the left without overlap, in order, with the new text at each occurrence; the length changes by the difference at each |
| `Replacements.ReplaceAllIsUndoneIff` | packages/core/src/core/services/tool/definitions/code/edit-file.ts:46-48 | replacing all and then all back gives the file if and only if the new text is in none of the kept stretches and reaches into none from the occurrence behind it |
| `Edits.Sandbox.MultiEdit` | packages/core/src/core/services/tool/definitions/code/multi-edit.ts:32-65 | the loop is the edits in order on the file's content, written once; the first failing edit is reported by index and nothing is written |
| `Edits.Sandbox.Insert` | packages/core/src/core/services/tool/definitions/code/insert.ts:36-78 | before or after a unique anchor, or at an end of the file without one; otherwise nothing is written |
| `Replacements.InsertVerdicts` | packages/core/src/core/services/tool/definitions/code/insert.ts:53-67 | an insertion at an anchor fails exactly if the anchor does not occur or occurs twice without overlap |
| `Replacements.InsertAtAnEnd` | packages/core/src/core/services/tool/definitions/code/insert.ts:41-51 | without an anchor the file is kept whole and the content goes behind or before it |
| `Edits.MultiEditIsEditFileRepeated` | packages/core/src/core/services/tool/definitions/code/multi-edit.ts:32-65 | multi_edit is edit_file once per edit: same success, same content, same first failure |
| `Edits.MultiEditAppends` | packages/core/src/core/services/tool/definitions/code/multi-edit.ts:37-57 | two lists in one call are two calls one after the other, error indexes shifted |
| `Edits.ReplaceAllMakesNoDifference` | packages/core/src/core/services/tool/definitions/code/edit-file.ts:46-48 | a literal edit of a single match is the same with and without replace_all |
| `Edits.InsertAfterIsUndone` | packages/core/src/core/services/tool/definitions/code/insert.ts:53-72 | replacing anchor and content by the anchor gives back the file, even where the content contains or overlaps the anchor |
| `Edits.InsertAfterIsUndoneIff` | packages/core/src/core/services/tool/definitions/code/insert.ts:69-72 | in a file without dollar signs, or with a text without `$` patterns, exactly if anchor and content have no `$` pattern |
| `Edits.InsertBeforeIsUndoneIff` | packages/core/src/core/services/tool/definitions/code/insert.ts:69-72 | for insertions before, exactly if the text has no `$` pattern and for no p the file before the anchor ends with the text's first p characters while the text shifted by p fits on itself |
| `Edits.InsertBeforeCanFailToUndo` | packages/core/src/core/services/tool/definitions/code/insert.ts:69-72 | a file, anchor and content where it is |
| `PageText.BlocksAreTheKeptLines` | packages/core/src/core/services/tool/definitions/agent/web-search.ts:48-65 | the specification's blocks are the lines that pass, in order, with a gap exactly where a blank line lies before the next kept line |
| `PageText.KeepLines` | packages/core/src/core/services/tool/definitions/agent/web-search.ts:45-65 | the flag-driven loop, joined, lays out exactly those blocks |
| `PageText.LaidIsPresented` | packages/core/src/core/services/tool/definitions/agent/web-search.ts:67 | joining, collapsing and trimming the loop's output gives kept lines with one blank line at each gap |
| `PageText.CleanPageText` | packages/core/src/core/services/tool/definitions/agent/web-search.ts:36-68 | the whole function computes that page, for any line filters |
| `PageText.LinesAreTidy` | packages/core/src/core/services/tool/definitions/agent/web-search.ts:39-43 | every line handed to the loop is trimmed, squeezed and free of control characters and line breaks |
| `PageText.OneLinePage` | packages/core/src/core/services/tool/definitions/agent/web-search.ts:59-62 | a page of one tidy line goes exactly if it looks like code, is boilerplate of fewer than 40 characters, or has at most two |
| `PageText.TwoLinePages` | packages/core/src/core/services/tool/definitions/agent/web-search.ts:48-67 | two kept lines stay next to each other, or with the one blank line between them |
| `PageText.LineEndings` | packages/core/src/core/services/tool/definitions/agent/web-search.ts:39-40 | a carriage return with or without a line feed is one line feed, and nothing else changes |
| `PageText.CharacterBetweenWords` | packages/core/src/core/services/tool/definitions/agent/web-search.ts:28-43 | what becomes of every single character between two words: kept, dropped, a blank or a line feed |
| `PageText.CharacterBeforeAWord` | packages/core/src/core/services/tool/definitions/agent/web-search.ts:28-43 | a character in front of a word is removed exactly if it is white space, a control character or zero-width |
| `PageText.CleanedIsClean` | packages/core/src/core/services/tool/definitions/agent/web-search.ts:36-68 | cleaning a cleaned page changes nothing |
| `PageText.InkIsKeptIff` | packages/core/src/core/services/tool/definitions/agent/web-search.ts:30-35 | all visible characters survive, in order, exactly if the filters drop no line; otherwise there are fewer |

## Left out

- A bus without a store, and taps: the bus always has its tables, and observers see events without affecting delivery.
- A second `recover` with live traffic, and events that reach a mailbox object after it was unsubscribed or replaced: the run model recovers once per boot and drops such mailboxes.
- Failing statements of the database, other than a duplicate key; the database loses nothing that was written.
- Fractions of a requests-per-minute setting: the cap is a whole number of at least one, and nine tenths of it is taken exactly rather than in floating point.
- Timers that fire late: what is said about the rate of calls is about calls that ask for their slot at their reserved start.
- Static texts of agents, their tools, prompts and KPIs; `launch` is recorded as membership in a set.
- A suspended agent goes on with the configuration it was launched with; what it then does with its events is not modelled.
- Requests that arrive over the bus and the responses published for them, including the delegation that wakes an assignee.
- `task_update_request`, which writes any status without checking transitions, and transitions of one task that overlap between reading and writing it.
- Descriptions, priorities, reviews, deadlines and dates of tasks; the content of learnings, embeddings and their search.
- Agent, task and warehouse ids other than agent ids are numbers here; agent ids are also rendered as text.
- The feed of tasks changed since a watermark, organization statistics and the observer's framing.
- Page limits below one.
- A delta of a new task that arrives before the initial page of tasks does; task contents in pages that lag behind a delta.
- The await inside a resumption, between its status write and its launch: only parts of creates can come between, and these touch neither the status nor which agents have rows.
- A browser view that is closed while a fetch is under way.
- Characters outside the basic plane: a text is a sequence of characters that each count one, as in UTF-16 only those inside it do.
- InsertAfterIsUndoneIff: files that themselves have dollar signs, when the inserted text has a pattern, because a pattern can then expand to itself (`PatternThatExpandsToItself`).
- InsertBeforeIsUndoneIff: the same files and texts, for the same reason.
- ReplaceAllIsUndoneIff: deletions, because an empty text to look for matches between all characters instead of nowhere.
- Replacement texts with `$1` or `$<`: without captures they stay as they are, as ECMA-262 defines replace.
- Regular expressions of the page cleaner beyond their line-wise effect, and the cap on the number of characters after cleaning.
- Language-model calls, sandboxes, HTTP, WebSockets and rendering: where an outcome matters it is an action's parameter.
