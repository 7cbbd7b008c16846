# Verified model of the Departify control logic

Departify puts a conversation with the CEO of a company in front of departments of
agents. Most of the code calls language models and business providers. This project
models the parts that decide something on their own, and proves what they guarantee:

| file | what it models |
|---|---|
| `EditDistance.dfy` | the one-row Levenshtein loop, against edit scripts and the laws of a metric |
| `OperationalLanguage.dfy` | correction of near-miss spellings in the operational vocabulary |
| `TurnLock.dfy` | the promise chain that serializes the turns of a session, interleaved step by step |
| `Summary.dfy` | the digest of old messages and the character budget of the running summary |
| `Compaction.dfy`, `CompactionRuns.dfy` | incremental compaction of the message log; its reads and writes interleaved, without the turn lock and under it |
| `ConversationStore.dfy`, `ConversationRaces.dfy`, `ConversationPages.dfy`, `ConversationLifecycle.dfy` | the in-memory conversation store, its calls interleaved, its cursor pagination, and the `/compact` and `/new` commands |
| `SessionCache.dfy` | the single-flight cache of MCP sessions |
| `Redaction.dfy` | redaction of secret-shaped keys in JSON trees |
| `Publication.dfy` | publication to Facebook Pages behind an approval: decisions under the turn lock, preparations with or without it |
| `DepartmentWork.dfy`, `DashboardCap.dfy` | department tasks, recovery of expired ones, and the cap on dashboards with runs in flight |
| `CompanyDna.dfy`, `CompanyDnaRaces.dfy` | company facts, confirmation by the CEO, provenance and readiness, over whole runs of updates; the updates interleaved |
| `StepByStep.dfy`, `Wrappers.dfy`, `Unicode.dfy` | from single steps to whole runs; optional values; UTF-16 and UTF-8 |
| `WorkflowExecution.dfy` | the workflow interpreter |

Code that updates state is a class or a loop, proved against a function of the inputs
or of the old state; what the code promises is then proved about that function. Each
protocol is a state machine whose actions are the stretches between two awaits; any
list of actions is an interleaving, and an action that is not enabled changes nothing.
What a port answers, when a promise settles and what the clock shows are parameters.

## Where the code does not do what it is said to do

The model follows the code. Each of these is proved as an if-and-only-if: the promise
is kept exactly when the stated condition holds.

- Recovery and the timeout check disagree on an active task whose start date cannot be
  read: the check reports it as fine, recovery fails it. They agree on every task iff
  every active task has a readable date (`DepartmentWork.RecoveryAgreesIffDated`).
- A failed run returns no result, yet it leaves a counted dashboard iff its result was
  stored and reporting it threw (`DepartmentWork.FailedWithDashboardIff`).
- The limit of five dashboards holds over all runs iff at most one run of the
  organization is in flight (`DashboardCap.LimitHoldsIffOneInFlight`).
- Redaction loses a field called `__proto__`, so without secrets it is the identity iff
  there is no such field (`Redaction.IdentityWithoutSecrets`).
- Pages of messages skip a message that has the same time as the first message of the
  page after it. A walk is complete iff no such tie lies at a cut between two full
  pages, and every limit is complete iff all times differ
  (`ConversationPages.WalkIsCompleteIff`, `EveryLimitIsCompleteIff`).
- `ensureCanonical` is documented as atomic. Of any number of interleaved calls, at most
  one conversation stays active iff one was active at the start or no two calls listed
  before the first create (`ConversationRaces.EnsuresLeaveOneIff`).
- `archive`, `rename` and `saveCompaction` write back a copy read one await earlier. An
  archived conversation stays archived iff no active copy of it is written back after the
  archiving, and an organization has at most one active conversation throughout iff no call creates
  or revives one while another is active (`ConversationRaces.ArchivedForGoodIff`,
  `OneActiveThroughoutIff`).
- The compacted prefix never gets shorter iff no job writes after another compaction, of
  a longer prefix than its own, has saved since it read
  (`CompactionRuns.NeverShrinksIffNoneOvertaken`). Under the turn lock none does. The automatic
  compaction after a turn (server/routes/conversations.ts:408 and :744 under
  apps/backend/src) and the archive route (:876) do not take the lock.
- `canonicalSummary` says it returns a summary within the budget, but the first digest
  is not compared with it. For a given previous summary and budget all results fit iff
  there is a previous summary or the budget has room for the longest digest of an array,
  which is 1319 units with the application's phrases (`Summary.Phrases.BudgetIsKeptIff`). The
  default of 4000 is always kept (`Summary.DefaultSummaryFits`).
- "The confirmation is current" means that the last change of the facts was a
  confirmation iff no unconfirmed last change carries a time that is not later than the
  last confirmation's (`CompanyDna.CurrentIsHonestIff`).
- Updates of a company read the whole record and write it back one await later. A field
  holds what was last written of it iff no write that leaves it alone uses a copy read
  before something else was brought for it, and "current" means what it says iff no
  milestone is written from a copy on whose last change that differs
  (`CompanyDnaRaces.FactsAreHonestIff`, `CurrencyIsHonestIff`).
- A draft of a publication can be lost without anybody deciding on it. The engine's tool
  route prepares without the turn lock, and a decision writes back the work it took up. A
  mid-course approval or cancellation loses the pending draft with a write iff a
  preparation outside the lock finished since that turn began or since its own last write
  (`Publication.LosesADraftIff`).
- A confirmation makes complete facts incomplete in exactly one case
  (`CompanyDna.ConfirmationStaysCompleteIff`).
- Two pairs of organization and user share an MCP session iff they are equal or one
  organization's id continues the other's by a colon and the rest matches
  (`SessionCache.SameKeyIff`).

## What the turn lock is for

Every approval and cancellation of a publication is made under the lock. Two approvals
that were not would call the publisher twice
(`Publication.WithoutLockPublishesTwice`). Preparations outside the lock can lose a draft
(above), but nothing is published twice for them, or without approval.

## Model

| member | source | states |
|---|---|---|
| `EditDistance.EditDistance` | apps/backend/src/customer-zero/command-center.ts:1248-1262 | The in-place one-row loop returns the reference distance, in which a match never has to consider anything but the diagonal |
| `EditDistance.CellStep` | apps/backend/src/customer-zero/command-center.ts:1255-1257 | Taking the diagonal unconditionally on a match is the minimum over all three neighbours |
| `EditDistance.ShortestScript` | apps/backend/src/customer-zero/command-center.ts:1248-1262 | The distance is the length of some script of insertions, deletions and substitutions, and of no shorter one |
| `EditDistance.ZeroIffEqual` | apps/backend/src/customer-zero/command-center.ts:1248-1262 | The distance is zero exactly for equal texts |
| `EditDistance.Symmetric` | apps/backend/src/customer-zero/command-center.ts:1248-1262 | The distance does not depend on the order of the texts |
| `EditDistance.Triangle` | apps/backend/src/customer-zero/command-center.ts:1248-1262 | The triangle inequality |
| `EditDistance.AtLeastLengthDifference` | apps/backend/src/customer-zero/command-center.ts:1277 | The distance is at least the difference of the lengths |
| `OperationalLanguage.PreFilterIsRedundant` | apps/backend/src/customer-zero/command-center.ts:1276-1279 | The length pre-filter never changes which terms are candidates |
| `OperationalLanguage.TokenRewriting` | apps/backend/src/customer-zero/command-center.ts:1270-1280 | A token of three or more units is replaced exactly when one and only one term is within one edit of it, and then by that term; a shorter one stays |
| `OperationalLanguage.UnitsSpellTheText` | apps/backend/src/customer-zero/command-center.ts:1276-1277 | The units compared are the UTF-16 spelling of the text: read back they are its code points |
| `OperationalLanguage.KeepsSegments` | apps/backend/src/customer-zero/command-center.ts:1269-1282 | Token boundaries and all characters between tokens stay as they are |
| `OperationalLanguage.Idempotent` | apps/backend/src/customer-zero/command-center.ts:1269-1282 | Normalizing a second time changes nothing |
| `OperationalLanguage.OperationalTermsAreValid` | apps/backend/src/customer-zero/command-center.ts:1218-1242 | The application's vocabulary meets the conditions of these results |
| `TurnLock.Serialized` | apps/backend/src/customer-zero/conversation-lifecycle.ts:23-39 | In every interleaving at most one action runs, actions begin in order of arrival, none overtakes a waiting one, and the mutex is deleted exactly when everyone has left |
| `TurnLock.RunKeepsTails` | apps/backend/src/customer-zero/conversation-lifecycle.ts:28-34 | In every run tails resolve in the order of the chain, and no action begins before the tail it waited for |
| `TurnLock.SomeStepEnabled` | apps/backend/src/customer-zero/conversation-lifecycle.ts:27-38 | While someone has not left, a step other than an arrival is enabled |
| `TurnLock.MeasureDecreases` | apps/backend/src/customer-zero/conversation-lifecycle.ts:27-38 | Every step but an arrival makes a measure smaller |
| `TurnLock.EveryoneLeaves` | apps/backend/src/customer-zero/conversation-lifecycle.ts:27-38 | From every reachable state, a bounded number of steps without arrivals lets every caller enter and leave |
| `TurnLock.TurnQueue.Arrive` | apps/backend/src/customer-zero/conversation-lifecycle.ts:27-31 | The synchronous start waits for what the mutex held and puts the own tail in its place |
| `TurnLock.TurnQueue.Enter` | apps/backend/src/customer-zero/conversation-lifecycle.ts:32-34 | When the awaited promise is resolved the action begins and nobody else is running |
| `TurnLock.TurnQueue.Finish` | apps/backend/src/customer-zero/conversation-lifecycle.ts:35-38 | The action's end, by return or throw, releases the lock and deletes the mutex only if it is still the own tail |
| `Summary.FirstIsLastIff` | apps/backend/src/customer-zero/conversation-store.ts:199-225 | The first and the last user message found are the same message exactly when there is one |
| `Summary.Phrases.TurnsLineTellsTheCounts` | apps/backend/src/customer-zero/conversation-store.ts:197-219 | From the line of turns one can read back the number of user messages and, after it, the number of all others |
| `Summary.Phrases.TopicPerUserUpToTwo` | apps/backend/src/customer-zero/conversation-store.ts:220-225 | The digest has one topic line per user message, up to two |
| `Summary.Phrases.RuleIsQuotedIff` | apps/backend/src/customer-zero/conversation-store.ts:202-229 | A message stating a rule is quoted, cut to 160 units, exactly when fewer than five were stated before it |
| `Summary.Phrases.DigestSays` | apps/backend/src/customer-zero/conversation-store.ts:192-232 | The digest, line by line: the header, the counts, the first and last user message, and a quotation of the first five of exactly those messages that state a rule in words, in order; a message that states none adds no line |
| `Summary.Phrases.DigestIsBounded` | apps/backend/src/customer-zero/conversation-store.ts:192-232 | Up to counts of twenty digits a digest has at most 1339 units and no line of more than 195 |
| `Summary.Phrases.HeadIsBounded` | apps/backend/src/customer-zero/conversation-store.ts:279-303 | What is kept of a summary with bounded lines has at most 1860 units |
| `Summary.Phrases.DigestIsWholeIff` | apps/backend/src/customer-zero/conversation-store.ts:301-307 | Compression keeps the whole new digest exactly when the room left exceeds 100 and the digest fits in it |
| `Summary.Phrases.HeadSays` | apps/backend/src/customer-zero/conversation-store.ts:279-299 | What is kept of a summary: the header, its last line of turns, and its first ten key lines, in order, each cut to 160 units |
| `Summary.Phrases.CanonicalSays` | apps/backend/src/customer-zero/conversation-store.ts:244-308 | Which of the results a folding step has: the old summary, the digest, both as paragraphs when they fit, or else what is kept of the summary with as much of the digest as there is room for |
| `Summary.Phrases.BudgetIsKeptIff` | apps/backend/src/customer-zero/conversation-store.ts:244-271 | Given a previous summary and a budget, the results for all arrays of messages are within the budget exactly when there is a previous summary or the budget has room for the longest digest of an array |
| `Summary.Phrases.LongestIsReached` | apps/backend/src/customer-zero/conversation-store.ts:192-232 | An array of messages whose digest is the longest there is, so that a smaller budget is exceeded |
| `Summary.SpanishLongestDigest` | apps/backend/src/customer-zero/conversation-store.ts:217-229 | With the application's phrases the longest digest of an array has 1319 units, its counts taking ten digits each |
| `Summary.Phrases.StepKeepsTheDigest` | apps/backend/src/customer-zero/conversation-store.ts:244-308 | A folding step ends with the whole new digest, and keeps of the previous summary all lines or exactly its last line of turns and first ten key lines |
| `Summary.Phrases.KeyLinesSurvive` | apps/backend/src/customer-zero/conversation-store.ts:284-299 | While there are at most ten, no key line of the previous summary is lost, but for what is beyond 160 units |
| `Summary.Phrases.KeyLineSurvivesIff` | apps/backend/src/customer-zero/conversation-store.ts:284-299 | When summary and digest do not fit together, a key line is kept exactly when it is, cut to 160 units, among the first ten key facts or spells a heading, so the newest facts go first |
| `Summary.Phrases.EverySummaryFits` | apps/backend/src/customer-zero/conversation-store.ts:244-308 | Every summary reachable by folding any batches fits a budget of 3201 or more, with bounded lines, and ends with the whole last digest |
| `Summary.DefaultSummaryFits` | apps/backend/src/customer-zero/conversation-store.ts:164-308 | With the application's phrases every reachable summary has at most 4000 units and ends with the whole last digest |
| `Compaction.PlanDescribes` | apps/backend/src/customer-zero/conversation-lifecycle.ts:64-97 | There is something to fold exactly when more than ten messages are not folded; the saved mark then describes a longer prefix, longer by the number reported |
| `Compaction.UnknownMarkFoldsAll` | apps/backend/src/customer-zero/conversation-lifecycle.ts:66-97 | When the last folded id is no message of the log, or absent, everything but the last ten is folded, again if it was |
| `Compaction.SecondCompactionFoldsNothing` | apps/backend/src/customer-zero/conversation-lifecycle.ts:64-83 | Compacting again right away folds nothing |
| `Compaction.SplitForCompaction` | apps/backend/src/customer-zero/conversation-store.ts:309-323 | The halves make up the messages, and the recent one has the last ten, or all when there are fewer |
| `Compaction.DescribingSummaryFits` | apps/backend/src/customer-zero/conversation-store.ts:244-308 | A summary that describes a prefix of a log keeps to the budget of 4000 |
| `CompactionRuns.EveryRunDescribesAPrefix` | apps/backend/src/customer-zero/conversation-lifecycle.ts:55-108 | In every interleaving of new messages, compactions, renames and archivings, with stale copies, summary, last folded id and count describe one prefix of the log, each message folded once |
| `CompactionRuns.CompactionAlone` | apps/backend/src/customer-zero/conversation-lifecycle.ts:55-108 | Uninterrupted, a compaction fails for an archived record, changes nothing without a plan, and else writes the fields of its plan and no other |
| `CompactionRuns.EditAlone` | apps/backend/src/customer-zero/conversation-store.ts:414-441 | Uninterrupted, a renaming or archiving writes what the operation of the store writes |
| `CompactionRuns.PostIsNoted` | apps/backend/src/customer-zero/conversation-store.ts:443-472 | A message is appended, and its time is the activity of the record |
| `CompactionRuns.UpToTellsThePrefix` | apps/backend/src/customer-zero/conversation-lifecycle.ts:66-69 | The last folded id determines which prefix it is |
| `CompactionRuns.StepShrinksIff` | apps/backend/src/customer-zero/conversation-store.ts:414-538 | Of all steps exactly those shorten the prefix that write a plan, or a renamed or archived copy, covering less than what is stored by then |
| `CompactionRuns.NeverShrinksIff` | apps/backend/src/customer-zero/conversation-lifecycle.ts:55-108 | Over every interleaving the prefix never gets shorter exactly when no write is behind |
| `CompactionRuns.NeverShrinksIffNoneOvertaken` | apps/backend/src/customer-zero/conversation-lifecycle.ts:55-108 | Over every interleaving from a record nobody is at work on, that is exactly when no job writes after another compaction, of a longer prefix than its own, has saved since it read |
| `CompactionRuns.NoneBehindUnderLock` | apps/backend/src/customer-zero/conversation-lifecycle.ts:23-39 | While every job holds the turn lock no write is behind |
| `CompactionRuns.PrefixGrowsUnderLock` | apps/backend/src/customer-zero/conversation-lifecycle.ts:23-108 | Hence under the turn lock the prefix only grows, and the numbers of folded messages reported add up to its length |
| `CompactionRuns.StaleCompactionShrinksThePrefix` | apps/backend/src/customer-zero/conversation-lifecycle.ts:55-108 | An input: a compaction that read the log before another one saves brings back its shorter prefix |
| `CompactionRuns.StaleEditUndoesACompaction` | apps/backend/src/customer-zero/conversation-store.ts:414-441 | An input: a renaming or archiving that read the record before an uninterrupted compaction undoes it |
| `ConversationLifecycle.Session.CompactConversation` | apps/backend/src/customer-zero/conversation-lifecycle.ts:55-108 | Fails exactly when there is no such active conversation; otherwise writes the planned mark to that record only and reports what it folded and how many bytes the context has |
| `ConversationLifecycle.CarriedWrites` | apps/backend/src/customer-zero/conversation-lifecycle.ts:89-98 | A plan carried out writes summary, last folded id, count and time to the record, and nothing else |
| `ConversationLifecycle.ContextIsSummaryAndLastTen` | apps/backend/src/customer-zero/conversation-lifecycle.ts:74-75 | The bytes reported are those of the summary and of the last ten messages |
| `ConversationLifecycle.TotalBytesIsASum` | apps/backend/src/customer-zero/conversation-lifecycle.ts:99-100 | The bytes of messages are the sum of what each takes in UTF-8 |
| `ConversationLifecycle.ByteLengthIsUtf8` | apps/backend/src/customer-zero/conversation-lifecycle.ts:74 | The byte length of a text of 16-bit units is that of its code points in UTF-8 |
| `Unicode.UnitsAreRead` | apps/backend/src/customer-zero/conversation-lifecycle.ts:74 | These code points are the text, but for the replacement of surrogates without a partner |
| `ConversationLifecycle.Session.IndexMessages` | apps/backend/src/customer-zero/conversation-lifecycle.ts:66 | The index built in one pass, a later message replacing an earlier one with the same id |
| `ConversationLifecycle.Session.StartNewConversation` | apps/backend/src/customer-zero/conversation-lifecycle.ts:115-150 | The new conversation is current and the only active one of the organization, no log and no other organization changes, the session's thread is cleared, and the old thread's three kinds of work are cancelled |
| `ConversationLifecycle.EachKindIsCancelledOnce` | apps/backend/src/customer-zero/conversation-lifecycle.ts:125-138 | Pending work of each kind is cancelled exactly once, for the previous conversation only |
| `ConversationStore.RunKeepsOneActive` | apps/backend/src/customer-zero/conversation-store.ts:349-373 | Over every sequential run of operations an organization has at most one active conversation |
| `ConversationStore.ExactlyOneAfterStartNew` | apps/backend/src/customer-zero/conversation-store.ts:358-373 | After `startNew` exactly the new one is active, however many were before |
| `ConversationStore.CreateKeepsOneActiveIff` | apps/backend/src/customer-zero/conversation-store.ts:330-347 | `create` alone keeps to one active conversation exactly when there was none |
| `ConversationRaces.EnsuresLeaveOneIff` | apps/backend/src/customer-zero/conversation-store.ts:349-356 | Any number of interleaved calls, once none is between list and create, leave at most one active conversation exactly when one was active at the start or no two listed before the first create |
| `ConversationRaces.CallAlone` | apps/backend/src/customer-zero/conversation-store.ts:349-538 | A call that nothing comes between does what the operation of the store does |
| `ConversationRaces.TwoCallsRace` | apps/backend/src/customer-zero/conversation-store.ts:349-356 | An input: two calls that both list before either creates |
| `ConversationRaces.ArchivedForGoodIff` | apps/backend/src/customer-zero/conversation-store.ts:414-441 | With reads and writes as separate steps, archived conversations stay archived exactly when no write uses an active copy of a conversation archived since it was read |
| `ConversationRaces.OneActiveThroughoutIff` | apps/backend/src/customer-zero/conversation-store.ts:349-441 | With reads and writes as separate steps, an organization has at most one active conversation throughout exactly when no call creates or revives one while another is active |
| `ConversationRaces.RenameAcrossStartNew` | apps/backend/src/customer-zero/conversation-store.ts:358-441 | An input: a conversation renamed across a `startNew` is active again beside its successor |
| `ConversationStore.OthersUntouched` | apps/backend/src/customer-zero/conversation-store.ts:349-472 | A sequential run that does not concern an organization leaves its conversations and logs as they were and adds none |
| `ConversationStore.LogsOnlyGrow` | apps/backend/src/customer-zero/conversation-store.ts:414-472 | Over every sequential run each log is extended at its end only, no conversation changes hands, and an archived one stays archived |
| `ConversationStore.LogGainsWhatWasPosted` | apps/backend/src/customer-zero/conversation-store.ts:443-472 | Over every sequential run a log gains exactly the messages posted to it, in order |
| `ConversationStore.StepWrites` | apps/backend/src/customer-zero/conversation-store.ts:358-538 | Which fields of a record each operation writes, with what, and that it leaves the others |
| `ConversationStore.StepCreates` | apps/backend/src/customer-zero/conversation-store.ts:330-373 | Which operations add a conversation, at most one, and with which fields |
| `ConversationStore.TitleIsLastGiven` | apps/backend/src/customer-zero/conversation-store.ts:428-441 | Over every sequential run a conversation bears the last title its own organization gave it |
| `ConversationStore.RunKeepsActivity` | apps/backend/src/customer-zero/conversation-store.ts:443-472 | Over every sequential run the activity that orders the list is the time of the last message, or of the creation |
| `ConversationStore.InMemoryConversationStore.EnsureCanonical` | apps/backend/src/customer-zero/conversation-store.ts:349-385 | Returns the active conversation with the latest activity, the first created among equals, or creates one when there is none |
| `ConversationStore.InMemoryConversationStore.StartNew` | apps/backend/src/customer-zero/conversation-store.ts:358-373 | The loop archives every active conversation of the organization and no other record, then creates the new one |
| `ConversationStore.InMemoryConversationStore.Archive` | apps/backend/src/customer-zero/conversation-store.ts:414-426 | Archives the record of the organization's own conversation, or changes nothing and says so |
| `ConversationStore.InMemoryConversationStore.Rename` | apps/backend/src/customer-zero/conversation-store.ts:428-441 | Replaces the title only, or changes nothing and says so |
| `ConversationStore.InMemoryConversationStore.AddMessage` | apps/backend/src/customer-zero/conversation-store.ts:443-472 | Appends the message to the log and notes the activity, or fails for an unknown conversation |
| `ConversationStore.InMemoryConversationStore.SaveCompaction` | apps/backend/src/customer-zero/conversation-store.ts:520-538 | Replaces the compaction fields of the record and leaves the log alone |
| `ConversationStore.InMemoryConversationStore.CountActiveForOrg` | apps/backend/src/customer-zero/conversation-store.ts:397-403 | The loop counts the organization's active conversations |
| `ConversationStore.OneActiveIffCount` | apps/backend/src/customer-zero/conversation-store.ts:397-403 | The single-thread property holds exactly when that count is at most one |
| `ConversationPages.ListMessagesPage` | apps/backend/src/customer-zero/conversation-store.ts:485-503 | The page holds the last `k` of the messages created before the cursor, or all of fewer, says there are more exactly when there are, and leads on from its first message; `k` is 40 when absent, the limit cut to a whole number, 1 below one, 1000 from 1000 on, and everything when it is no number. Another organization gets an empty page |
| `ConversationPages.PageHolds` | apps/backend/src/customer-zero/conversation-store.ts:492-502 | The same of the page specified, for every log, cursor and limit |
| `ConversationPages.AtMostOnePageEach` | apps/backend/src/customer-zero/conversation-store.ts:485-503 | For any log and limit the walk terminates, after at most one page more than there are visible messages |
| `ConversationPages.WalkShows` | apps/backend/src/customer-zero/conversation-store.ts:485-503 | On a log in order of time, ties or not, a walk shows messages at strictly increasing positions, so no message twice |
| `ConversationPages.WalkIsCompleteIff` | apps/backend/src/customer-zero/conversation-store.ts:485-503 | The pages, oldest first, are the log exactly when no cut between full pages parts two messages of equal time |
| `ConversationPages.EveryLimitIsCompleteIff` | apps/backend/src/customer-zero/conversation-store.ts:485-503 | Every limit gives the whole log exactly when all times differ |
| `ConversationPages.AppendsDoNotDisturb` | apps/backend/src/customer-zero/conversation-store.ts:493-498 | Messages added meanwhile do not change an older page |
| `SessionCache.SingleFlight` | packages/connector-runtime/src/mcp.ts:187-197 | In every run at most one session per key is being opened or open, and the map holds a promise exactly while it is pending or fulfilled |
| `SessionCache.HandlerRemovesItself` | packages/connector-runtime/src/mcp.ts:191-194 | The failure handler, though it deletes by key, removes its own promise and no other |
| `SessionCache.RequestOpensIffAllFailed` | packages/connector-runtime/src/mcp.ts:187-197 | A request opens a session exactly when every earlier one of its key failed; otherwise it gets the promise in the map |
| `SessionCache.OneOpeningPerFailure` | packages/connector-runtime/src/mcp.ts:187-218 | The sessions opened for a key are those that failed and at most one more |
| `SessionCache.OpensIffAnsweredWell` | packages/connector-runtime/src/mcp.ts:199-218 | In every run a session is open exactly when the first call was answered with a result and no error, the second did not throw and the third listed a tool and no error, and it fails at the first answer that was not so |
| `SessionCache.SameKeyIff` | packages/connector-runtime/src/mcp.ts:188 | Two requests share a key exactly when they agree on organization and user, or one organization's id continues the other's by a colon and the rest matches |
| `SessionCache.McpConnectorRuntime.GetSession` | packages/connector-runtime/src/mcp.ts:187-197 | Hands out a pending or fulfilled promise of the caller's key |
| `SessionCache.McpConnectorRuntime.Catch` | packages/connector-runtime/src/mcp.ts:191-194 | Removes from the map exactly the entries that hold the rejected promise |
| `Redaction.ShapeIsKept` | packages/connector-runtime/src/mcp.ts:283-289 | Outside redacted subtrees every node is still there, of the same kind and with the same keys |
| `Redaction.SecretsAreMarked` | packages/connector-runtime/src/mcp.ts:287 | Whatever is under a secret-shaped key of the result, at any depth, is the marker |
| `Redaction.IdentityIffClean` | packages/connector-runtime/src/mcp.ts:283-289 | Redaction changes nothing exactly when every secret-shaped key already holds the marker and no key is lost |
| `Redaction.Idempotent` | packages/connector-runtime/src/mcp.ts:283-289 | Redacting twice is redacting once |
| `Redaction.SecretKeyIffPath` | packages/connector-runtime/src/mcp.ts:277-281 | `hasSecretKey` holds exactly when some path leads to a secret-shaped key |
| `Redaction.IdentityWithoutSecrets` | packages/connector-runtime/src/mcp.ts:277-289 | Without secrets redaction is the identity exactly when there is no `__proto__` field |
| `Redaction.ProtoFieldIsLost` | packages/connector-runtime/src/mcp.ts:286-287 | A tree without secrets that redaction changes |
| `Publication.PublishedAtMostOnce` | apps/backend/src/customer-zero/facebook-pages-publishing.ts:63-232 | Over every interleaving of turns under the lock with preparations outside it, the publisher is called at most once per prepared work, and only for an approved draft already marked as publishing |
| `Publication.PublishedIffSucceeded` | apps/backend/src/customer-zero/facebook-pages-publishing.ts:175-232 | A pending work says "published" exactly when its call succeeded |
| `Publication.RunKeepsInv` | apps/backend/src/customer-zero/conversation-lifecycle.ts:23-39 | The lock's invariant and the discipline of the publication hold after every run, whatever the preparations outside the lock do |
| `Publication.OvertakenIff` | apps/backend/src/customer-zero/facebook-pages-publishing.ts:105-225 | In every run the pending draft is no longer the one a mid-course approval or cancellation took up exactly when a preparation outside the lock finished since that turn began or since its own last write |
| `Publication.LosesADraftIff` | apps/backend/src/customer-zero/facebook-pages-publishing.ts:143-225 | In every run such a turn loses a draft awaiting approval with a step exactly when that has happened and the step writes |
| `Publication.NeverOvertakenUnderLock` | apps/backend/src/customer-zero/conversation-lifecycle.ts:23-39 | While all preparations hold the lock no decision is overtaken |
| `Publication.DraftIsOverwritten` | apps/backend/src/customer-zero/facebook-pages-publishing.ts:201-225 | An input: a draft prepared while an approval is at the publisher is gone afterwards |
| `Publication.WithoutLockPublishesTwice` | apps/backend/src/customer-zero/facebook-pages-publishing.ts:115-232 | Two approvals that are not serialized call the publisher twice for one work |
| `Publication.Session.PrepareFacebookPagesPublication` | apps/backend/src/customer-zero/facebook-pages-publishing.ts:63-113 | A preparation ends with one new draft awaiting approval exactly when the text is not empty, the connection is verified and the approval was requested; otherwise nothing changes |
| `Publication.Session.ResolvePendingFacebookPagesPublication` | apps/backend/src/customer-zero/facebook-pages-publishing.ts:115-232 | The outcome and the new state of one decision taken alone: published exactly when an approved, verified, leased call succeeded, then with exactly its four events in the log; and for every other ending which status, error and events there are |
| `Publication.DecisionEndsSo` | apps/backend/src/customer-zero/facebook-pages-publishing.ts:115-232 | The same of the step machine: every answer of the ports, ending by ending, with the pending work, its error and the events gained |
| `Publication.DecisionEndsOneWay` | apps/backend/src/customer-zero/facebook-pages-publishing.ts:115-232 | Those endings determine the state after a decision |
| `Publication.PreparationEndsSo` | apps/backend/src/customer-zero/facebook-pages-publishing.ts:63-113 | A preparation of the step machine, ending by ending |
| `Publication.ResetEndsSo` | apps/backend/src/customer-zero/conversation-lifecycle.ts:140-149 | A reset forgets the pending work and nothing else |
| `DepartmentWork.ReportedIffExpired` | apps/backend/src/customer-zero/department-work.ts:407-428 | The checker reports exactly the active tasks with a readable date that are past their timeout |
| `DepartmentWork.CheckIs` | apps/backend/src/customer-zero/department-work.ts:407-428 | What is reported of one task, counted from its start or else from its creation |
| `DepartmentWork.ChecksAreInOrder` | apps/backend/src/customer-zero/department-work.ts:407-428 | Every task is checked on its own, in the order of the tasks |
| `DepartmentWork.RecoveredIff` | apps/backend/src/customer-zero/department-work.ts:359-378 | Recovery fails a queued or running task exactly when its time, from its start or else from its creation, is over or cannot be read, and writes five fields of it |
| `DepartmentWork.RecoveryAgreesIffDated` | apps/backend/src/customer-zero/department-work.ts:359-378 | Recovery changes exactly the tasks the checker reports as expired iff every active task has a readable date |
| `DepartmentWork.RecoveredCount` | apps/backend/src/customer-zero/department-work.ts:359-428 | Recovery counts the tasks reported as expired and those without a readable date |
| `DepartmentWork.SecondRecoveryIsIdle` | apps/backend/src/customer-zero/department-work.ts:359-378 | After recovery nothing is reported as expired, and a second recovery returns 0 and changes nothing |
| `DepartmentWork.UndatedTaskIsRecoveredUnreported` | apps/backend/src/customer-zero/department-work.ts:365-367 | A task on which checker and recovery disagree |
| `DepartmentWork.InMemoryDepartmentWorkStore.RecoverExpiredTasks` | apps/backend/src/customer-zero/department-work.ts:359-378 | The loop fails every expired task, leaves the others and all ids as they were, and returns how many it failed |
| `DepartmentWork.InMemoryDepartmentWorkStore.CountDashboardsForOrg` | apps/backend/src/customer-zero/department-work.ts:353-357 | Counts the charted results of the organization |
| `DepartmentWork.InMemoryDepartmentWorkStore.UpdateTask` | apps/backend/src/customer-zero/department-work.ts:303-310 | Patches the one task with the id, in place, or finds none |
| `DepartmentWork.PatchOverlays` | apps/backend/src/customer-zero/department-work.ts:303-310 | A field named by the patch takes its value, every other one stays |
| `DepartmentWork.DepartmentWorkExecutor.Run` | apps/backend/src/customer-zero/department-work-executor.ts:433-570 | A run adds one task, failed for the first obstacle in the code's order or completed, with one charted result iff one was built; it rejects exactly when a failure could not be reported |
| `DepartmentWork.FirstObstacleDecides` | apps/backend/src/customer-zero/department-work-executor.ts:433-570 | Which obstacle gives the error code, in the code's order, and when there is a result |
| `DepartmentWork.DepartmentWorkExecutor.Execute` | apps/backend/src/customer-zero/department-work-executor.ts:492-570 | The running task is closed in place, with the provider's outcome; a report that throws fails the task and leaves its result |
| `DepartmentWork.FailedWithDashboardIff` | apps/backend/src/customer-zero/department-work-executor.ts:531-569 | A failed task keeps a dashboard exactly when everything up to the result went well and reporting it threw |
| `DepartmentWork.RunKeepsTheLimit` | apps/backend/src/customer-zero/department-work-executor.ts:433-442 | A run on its own never takes its organization beyond five dashboards, and does not change another's count |
| `DashboardCap.NeverMoreThanFourPlus` | apps/backend/src/customer-zero/department-work-executor.ts:433-570 | With at most K runs of an organization in flight at any time it never has more than 4 + K dashboards |
| `DashboardCap.BoundIsReached` | apps/backend/src/customer-zero/department-work-executor.ts:433-570 | For every K there is a run that reaches 4 + K |
| `DashboardCap.LimitHoldsIffOneInFlight` | apps/backend/src/customer-zero/department-work.ts:111 | The limit of five holds over all runs exactly when K is at most one |
| `DashboardCap.StepKeepsBound` | apps/backend/src/customer-zero/department-work-executor.ts:433-442 | Dashboards and runs past the check together never exceed 4 + K |
| `DashboardCap.RunAlone` | apps/backend/src/customer-zero/department-work-executor.ts:433-570 | Uninterrupted, a run is refused or stores its one result exactly as the executor does |
| `CompanyDna.CurrentIffLastChangeNotLater` | apps/backend/src/customer-zero/company-dna.ts:166-172 | Whatever the clock does, a confirmation is current exactly when the last change of the facts carries a time no later than the last confirmation's |
| `CompanyDna.CurrentIsHonestIff` | apps/backend/src/customer-zero/company-dna.ts:166-172 | "Current" agrees with "the last change was a confirmation" exactly when no unconfirmed last change carries a time no later than the last confirmation's |
| `CompanyDna.CurrentIffLastChangeConfirms` | apps/backend/src/customer-zero/company-dna.ts:166-172 | When changes of the facts carry strictly increasing times, a confirmation is current exactly when the last of them was a confirmation |
| `CompanyDna.CurrentAfterUpdateIff` | apps/backend/src/customer-zero/company-readiness.ts:231-426 | For any record, which single updates leave its confirmation current |
| `CompanyDna.SameInstantKeepsConfirmation` | apps/backend/src/customer-zero/company-dna.ts:166-172 | An input: an intake in the very millisecond of a confirmation |
| `CompanyDnaRaces.FactsAreHonestIff` | apps/backend/src/customer-zero/company-readiness.ts:231-426 | With reads and writes as separate steps, a field holds throughout what was last written of it, under its origin, exactly when no write that leaves it alone uses a copy read before something else was brought for it |
| `CompanyDnaRaces.UpdateAlone` | apps/backend/src/customer-zero/company-readiness.ts:231-426 | Uninterrupted, an update does to the record what it does without interleaving |
| `CompanyDnaRaces.CurrencyIsHonestIff` | apps/backend/src/customer-zero/company-readiness.ts:231-426 | With reads and writes as separate steps and changes in order of time, "current" means throughout that the last change written was a confirmation exactly when no milestone is written from a copy on whose last change that differs |
| `CompanyDnaRaces.UpToDateIsHarmless` | apps/backend/src/customer-zero/company-readiness.ts:231-242 | A write before which nothing was written since its read does neither |
| `CompanyDnaRaces.MilestoneUndoesAConfirmation` | apps/backend/src/customer-zero/company-readiness.ts:231-242 | An input: a milestone read before a confirmation and written after it takes the confirmation away |
| `CompanyDna.ReadyIffStageAndDepartment` | apps/backend/src/customer-zero/company-readiness.ts:79-143 | The gate is ready exactly at the last stage with a department provisioned |
| `CompanyDna.ReadyIffFields` | apps/backend/src/customer-zero/company-readiness.ts:116-143 | The gate is ready exactly when name, website or description, description or products, objective, and geography or country are told, research, discovery and department have their times, and the confirmation is no older than the facts |
| `CompanyDna.StageIffFields` | apps/backend/src/customer-zero/company-readiness.ts:79-88 | For each of the five stages the condition on the fields under which it is the stage |
| `CompanyDna.GapsIffFields` | apps/backend/src/customer-zero/company-dna.ts:139-158 | For each of the four gaps the condition on the fields under which it is reported |
| `CompanyDna.NeedsAre` | apps/backend/src/customer-zero/context-readiness.ts:66-77 | Each of the five needs is reported exactly when its fact is false |
| `CompanyDna.HasTextIffTold` | apps/backend/src/customer-zero/company-dna.ts:117-119 | A text counts exactly when some character of it is no space |
| `CompanyDna.MilestoneIsLastReached` | apps/backend/src/customer-zero/company-readiness.ts:231-350 | Over every run each milestone carries the time of the last update that reached it, and is absent without one |
| `CompanyDna.ReadyMeansConfirmedLast` | apps/backend/src/customer-zero/context-readiness.ts:66-77 | A ready gate means the last stage, and a confirmation after which there were only milestones |
| `CompanyDna.ProvenanceIsHonest` | apps/backend/src/customer-zero/company-readiness.ts:250-426 | Over every run each field holds what its last writer brought and names that writer's origin; a field never written is empty and, but for a blank goal, unnamed |
| `CompanyDna.PopulatedNamesItsWriter` | apps/backend/src/customer-zero/company-readiness.ts:250-426 | Every populated field has a last writer, holds its value and names its origin |
| `CompanyDna.UpdateWritesOrKeeps` | apps/backend/src/customer-zero/company-readiness.ts:250-426 | An update whose assignment conditions hold writes its value under its own origin; otherwise field and origin stay, but for the stamp of a blank goal |
| `CompanyDna.SizeIsLastGiven` | apps/backend/src/customer-zero/company-readiness.ts:250-287 | Over every run the company's size is that of the last intake that gave one |
| `CompanyDna.FirstLocationIsTaken` | apps/backend/src/customer-zero/company-readiness.ts:311-313 | The geography found is the first location with text, and none exactly when none has any |
| `CompanyDna.NonBlankFilters` | apps/backend/src/customer-zero/company-readiness.ts:304-310 | The lists found keep exactly the texts that say something, in their order |
| `CompanyDna.UncertainIff` | apps/backend/src/customer-zero/company-readiness.ts:326-329 | Products, customers and geography are uncertain, each once, exactly when nothing found tells them, nor a country the last |
| `CompanyDna.RecordIsTheOrganizations` | apps/backend/src/customer-zero/company-readiness.ts:273 | Over every run the record is that of its organization |
| `CompanyDna.ObjectiveIsCeos` | apps/backend/src/customer-zero/company-readiness.ts:250-426 | Over every run the objective is attributed to the CEO |
| `CompanyDna.StaysComplete` | apps/backend/src/customer-zero/company-readiness.ts:231-350 | Research never replaces a description with text, and neither research nor a milestone makes complete facts incomplete |
| `CompanyDna.ConfirmationStaysCompleteIff` | apps/backend/src/customer-zero/company-readiness.ts:369-426 | The only way a confirmation makes complete facts incomplete |
| `CompanyDna.InMemoryCompanyDnaStore.MarkMilestone` | apps/backend/src/customer-zero/company-readiness.ts:231-242 | Sets the milestone of an existing record only, and never changes whether its confirmation is current |
| `WorkflowExecution.WorkflowExecution.Run` | packages/workflows/src/workflow-execution.ts:68-158 | From what the port answered: which steps ran, their status, output, action id and error, that the run is completed exactly when every step was not aborted and succeeded, and then returns, and saves iff a repository is wired, the output of the last answer; it rejects iff that save throws |
| `WorkflowExecution.RunConcludes` | packages/workflows/src/workflow-execution.ts:68-381 | The same of the specified run, for every definition and every list of answers |
| `WorkflowExecution.ExecutedAnswers` | packages/workflows/src/workflow-execution.ts:208-329 | Each step's result from its own answer: status, output, action id, error code, message and phase |
| `WorkflowExecution.WorkflowExecution.RunSteps` | packages/workflows/src/workflow-execution.ts:73-128 | The loop and its three exits give the results, the status, the error and the actions of the specified run |
| `WorkflowExecution.ResultsAreARun` | packages/workflows/src/workflow-execution.ts:73-123 | The results are those of a prefix of the steps, all but the last completed |
| `WorkflowExecution.RunIsSummarised` | packages/workflows/src/workflow-execution.ts:361-381 | Completed exactly when every step completed; error and status are the last step's; a non-null final output is the last step's |
| `WorkflowExecution.StepsFitInTheRun` | packages/workflows/src/workflow-execution.ts:208-381 | With a clock that never goes back no duration is negative, and the steps together take no longer than the run |
| `WorkflowExecution.MetadataOverlays` | packages/workflows/src/workflow-execution.ts:331-359 | For every key but `__proto__`, which never gets a value, the predecessor's fields win over static metadata, which wins over the workflow's |
| `WorkflowExecution.SendsThreadResults` | packages/workflows/src/workflow-execution.ts:160-206 | Each action has the agent, tool and arguments of its step, and the metadata made from its immediate predecessor's result |
| `WorkflowExecution.SendsMatchResults` | packages/workflows/src/workflow-execution.ts:73-123 | Every result but that of a step aborted before it began has its action |
| `WorkflowExecution.StopsAt` | packages/workflows/src/workflow-execution.ts:74-116 | A step that does not complete is the last executed, and nothing is sent after it |
| `WorkflowExecution.ComposeMetadata` | packages/workflows/src/workflow-execution.ts:331-359 | The two loops and three assignments give the specified metadata |
| `WorkflowExecution.WorkflowExecution.Finish` | packages/workflows/src/workflow-execution.ts:130-158 | Saves exactly once when completed and wired, and never otherwise |

## Left out

- Supabase stores, HTTP, mail, OAuth, provider probes, server hooks and environment loading: calls into code that is not shown.
- Intent routing and reply texts outside lines 1218-1282 of `command-center.ts`: keyword lists without a deeper property.
- Regular expressions, Unicode folding and the pattern of secret keys are function parameters; only the facts the code relies on are assumed of them. Lone surrogates are not modelled in the typo correction.
- Texts shown to people (status and error messages) are constructors of a datatype or are left out. So are the builders of charts and tables from provider data.
- Generated ids are parameters and assumed fresh. Clocks are integers; a `now` that is not a number is not modelled.
- `hydrateSessionFromCompanyDna` and other session wiring: copies fields and decides nothing.
- `searchMessages`, `listForOrgIncludingArchived` and titles derived from messages: filters whose contracts would repeat their bodies.
- `SessionCache.McpConnectorRuntime.GetSession`: the abort signal is one more way for a call to throw; timeouts are not timed.
- The store's `updatedAt` map of tasks and results: written and never read.
- `DepartmentWork.InMemoryDepartmentWorkStore.UpdateTask`: a patch that names the id is not modelled: it would leave the record under its old key.
- `Publication.Session.ResolvePendingFacebookPagesPublication`: the durable copy of the pending work and its recovery are not shown; persisting is one awaited call that may throw.
