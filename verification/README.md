# Sieve Tube, verified protocols

This project models the protocols inside the Sieve Tube edge whose safety depends on the order of
steps, on crashes and on stale participants, and proves what they promise over every run. Each Dafny
module follows one component:

- `DnsPlan`, `Cloudflare`, `CloudflareResume`, `Reconciler`, `DnsWriters`: DNS reconciliation. The decision that
  compares configured, observed and managed records; providers that change a record set atomically and
  conditionally (in memory, or Route 53 with its tickets); and the Cloudflare adapter, whose changes are
  lists of single API calls that may be cut off anywhere; and what the writer lease keeps apart.
- `TxtSolver`, `TxtQuoting`: DNS-01 challenge values (section 8.4 of RFC 8555) added and removed by
  concurrent solvers through the Cloudflare adapter, call by call, with the journal that survives
  crashes; and the quoting of TXT values into character strings (section 3.3 of RFC 1035).
- `Leases`, `Ownership`, `RouteStore`, `CertStore`, `AcmeIssue`: the control plane. Leases with fencing
  generations, the all-or-nothing hostname claim with its cache for outages, the route replacement, the
  certificate generations, and the order in which Edges combine lease and store. A Lua script is one
  atomic step; expiry is a step of the environment; any number of Edges takes steps.
- `Registry`, `Advertiser`, `Permits`, `UdpReplies`: concurrency inside an Edge. The two indexes of the
  connector registry with lock-free readers, coalesced route advertisement, stream budgets whose
  semaphores a sweep removes, and the path of UDP datagrams and their replies across Edges.
- `Policy`, `Datagrams`: token buckets with a sweep that must not be observable, and the datagram headers.

Pure code is functions and lemmas. Code that changes state in place is a class (or a method with loops)
whose contract ties the new state to a specification function, and the theorems are about that function.
Protocols are state machines: `Next` is one step, `Inv` what every step keeps, and the main theorems are
about `Run`, for every sequence of enabled steps.

Beside what must never happen, the project proves what does happen: a Cloudflare change that is carried out
leaves exactly its target (`AllCallsReachTarget`), a reply in time reaches its client (`TimelyReplyIsDelivered`),
an advertise request publishes exactly what is live (`RequestPublishesLive`), a released lease is granted to the
next Edge (`ReleaseFrees`, `FreedLeaseIsGranted`), an undisturbed store makes its certificate the current one
(`UndisturbedStore`, `UndisturbedIssueStores`), and free hostnames come to be served (`FreeHostnamesAreServed`).

Some promises do not hold in every case. Each such case is shown on a concrete input or run, and the
exact condition under which the promise holds is proved for all:

- An interrupted CNAME change forgets a proxy flag the configuration leaves open, exactly when it was on
  and a pass stopped between the DELETE and the POST (`InterruptedCnameKeepsProxyExactly`,
  `InterruptedCnameLosesFlag`).
- The documentation of the conditional `replace` says that a conflict means nothing was modified. At
  Cloudflare a refusal leaves the calls already made, drops the intent, and the next pass takes the own
  record for a changed or foreign one, exactly when a call was made since the last completed change and the
  entry cannot be imported again (`RefusalIsHarmlessExactly`, `LateRefusalOrphansRecord`). The model follows
  the code.
- A submitted change that is not in sync is waited for exactly unless its ticket was lost with the answer or
  with a process that ended before saving it (`WaitsUnlessLost`, `NothingIsResubmitted`,
  `LostTicketIsNotAwaited`).
- Data that is replaced can differ from what was applied in an edited proxy flag, exactly when the flag
  was not reported in between (`ReplacedMatchesApplied`, `EditedFlagSlipsThrough`).
- An acquired generation can be below the requested minimum, exactly when the caller still holds an older
  one (`MinimumBindsNewHoldings`); the certificate store then refuses it (`LostReleaseIsRefused`,
  `LostReleaseHappens`).
- A route change can go without a notification, exactly when a remembered set is published again of which
  part is gone (`UnannouncedChangeExactly`, `SilentReturnExactly`, `ExpiredRouteReturnsSilently`,
  `LostAnswerReturnsSilently`).
- A reader of the registry can miss a hostname that is served before and after a replacement, exactly
  between its removal and its insertion (`ReaderSeesOldNewOrNothing`, `ReconnectIsMissed`).
- A pair of permits dropped one after the other lets a tenant exceed its share by the pairs half dropped
  (`BudgetsHold`, `HalfReleasedPairAddsOne`).
- A Connector datagram header comes back exactly when the hostname has fewer than 65536 bytes
  (`HeaderComesBackExactly`, `LongHostnameIsLost`).
- A writer that lost the DNS lease can still do what its last renewal allowed, once and no more
  (`WritersTakeTurns`, `OverrunHappens`).
- A transferred or released hostname can be served for its former owner, exactly when some Edge still serves,
  admits or remembers it (`TransferIsSafeExactly`, `ReleaseIsSafeExactly`, `UsedIsServed`).
- A swept bucket table is unlike one that keeps everything for takes older than the drop of their bucket
  (`SweepIsUnobservable`, `LateTakeFindsFullBucket`).
- A removal of a challenge value is safe exactly when no add of it is under way (`RemovalIsSafeExactly`,
  `EarlyCleanupLosesJournal`).

`dafny verify dfyconfig.toml` checks the whole project.

## Model

| member | source | states |
|---|---|---|
| `DnsPlan.ApplyExactly` | sievetube-edge/src/dns/plan.rs:372-476 | A write is planned if and only if the record is supported, differs from the configuration and may be replaced: nothing is there, it is imported, it lies between the endpoints of an own unfinished change, or it matches what was last applied (and is not deleted without being managed). Its expected set is what was just observed, its target what the configuration asks for, and the target then counts as done |
| `DnsPlan.ReachedIsAsConfigured` | sievetube-edge/src/dns/plan.rs:372-476 | The record counts as done if and only if, field by field, it is gone when it should be, or it has the configured name, type, TTL and values, and no flag other than a configured one |
| `DnsPlan.BetweenMeansOwnValues` | sievetube-edge/src/dns/plan.rs:344-370 | The intermediate-state test holds if and only if every value comes from one end of the change, no value of both ends is missing, and the TTL is that of one end |
| `DnsPlan.UnfinishedChangeDecision` | sievetube-edge/src/dns/plan.rs:389-421 | A managed record that is not as configured while a change is unfinished: a write if and only if it holds only values of that change; otherwise it waits if and only if the settle time since the change started is not over, and is a conflict if and only if it is |
| `DnsPlan.SettledRecordDecision` | sievetube-edge/src/dns/plan.rs:389-421 | The same with no unfinished change, measured against what was last applied and the time of the last update |
| `DnsPlan.StrangeSetIsLeftAlone` | sievetube-edge/src/dns/plan.rs:344-407 | An observed set with a value of neither end, without a value of both ends, or with a TTL of neither is never planned for a write unless it is as configured |
| `DnsPlan.ConvergedDecision` | sievetube-edge/src/dns/plan.rs:372-476 | A managed record that is as configured gets no write, and is forgotten exactly when it is to be absent |
| `DnsPlan.UnmanagedDecision` | sievetube-edge/src/dns/plan.rs:422-476 | A record without an entry is created when missing, never deleted, adopted when it is imported and as configured, replaced only when it is imported, and a conflict otherwise |
| `DnsPlan.ConvergedIsNoted` | sievetube-edge/src/dns/reconciler.rs:418-431 | A record found as configured closes the entry's unfinished change and has its data recorded as applied; an entry that already says so is not rewritten |
| `DnsPlan.SameDataSymmetric` | sievetube-edge/src/dns/mod.rs:179-187 | Comparing record data is reflexive and symmetric |
| `DnsPlan.SameDataChains` | sievetube-edge/src/dns/mod.rs:179-197 | It is not transitive: two comparisons compose if and only if the middle set does not leave the proxy flag open between two different explicit flags |
| `Cloudflare.CountDetectsDuplicates` | sievetube-edge/src/dns/cloudflare.rs:259-289 | The number of distinct values equals the number of records if and only if every record has a value and no value occurs twice, which is how unsupported sets are found |
| `Cloudflare.UniformIsSupported` | sievetube-edge/src/dns/cloudflare.rs:259-289 | Records of one TTL and one proxy setting with distinct values are observed as one supported set with exactly these values |
| `Cloudflare.SupportedIsUniform` | sievetube-edge/src/dns/cloudflare.rs:259-289 | Conversely a supported, non-empty observation comes only from such records |
| `Cloudflare.DifferenceShrinks` | sievetube-edge/src/dns/plan.rs:344-370 | Adding a missing value or dropping an unwanted one keeps what both ends share, adds nothing neither end has, and takes one element off the symmetric difference |
| `Cloudflare.OneCall` | sievetube-edge/src/dns/cloudflare.rs:300-385 | Each helpful POST or DELETE keeps the set uniform and moves it exactly one step towards the goal |
| `Cloudflare.PrefixAdvances` | sievetube-edge/src/dns/cloudflare.rs:300-385 | After every prefix of such a call list the set is uniform, lies between the endpoints, and its distance to the goal shrank by the number of calls |
| `Cloudflare.CallsAdvance` | sievetube-edge/src/dns/cloudflare.rs:300-385 | A change that keeps TTL and proxy setting, delete-first for a CNAME and add-first otherwise, consists of helpful POST and DELETE calls only, as many as values differ, and ends at exactly the target values |
| `Cloudflare.WritesArePosts` | sievetube-edge/src/dns/cloudflare.rs:335-370 | When no record needs another TTL or flag, the writing loop issues exactly the POSTs of the missing values, in order |
| `Cloudflare.NeverEmptyAnswer` | sievetube-edge/src/dns/cloudflare.rs:300-385 | Except for a CNAME, no prefix of a change between two non-empty sets leaves the name without a record |
| `Cloudflare.WriteOneSettles` | sievetube-edge/src/dns/cloudflare.rs:335-370 | Writing one value leaves exactly one record of it, with the TTL and the flag asked for, and every other record as it was |
| `Cloudflare.WritesSettle` | sievetube-edge/src/dns/cloudflare.rs:335-370 | The writing loop does this for all values of the target, patching, posting or skipping each as the listed records require, and touches nothing else |
| `Cloudflare.DeletesRemove` | sievetube-edge/src/dns/cloudflare.rs:378-385 | Deleting by id removes exactly the records with those ids and keeps the rest in place |
| `Cloudflare.AllCallsReachTarget` | sievetube-edge/src/dns/cloudflare.rs:300-385 | For every supported set of records and every target, whatever TTL and proxy flag it asks for: after all the planned calls the records have exactly the target's values, one record each, all with the target's TTL and, where the type has one, its flag (the configured one, else the one the records had, else unproxied), and are supported |
| `Cloudflare.TargetIsObserved` | sievetube-edge/src/dns/cloudflare.rs:259-385 | Read back, they compare equal to the target |
| `Cloudflare.Adapter.DeleteRecords` | sievetube-edge/src/dns/cloudflare.rs:378-385 | The loop issues the deletions of the given records in order, and an interruption leaves exactly a prefix of them done |
| `Cloudflare.Adapter.WriteValues` | sievetube-edge/src/dns/cloudflare.rs:335-370 | The loop issues a POST for each missing value and a PATCH for each existing one with another TTL or flag, in order, and an interruption leaves exactly a prefix; run to its end it gives every value of the target the TTL and flag and changes no other record |
| `Cloudflare.Adapter.WriteTarget` | sievetube-edge/src/dns/cloudflare.rs:330-371 | With a target the loop runs, without one nothing is written |
| `Cloudflare.Adapter.DeleteThenWrite` | sievetube-edge/src/dns/cloudflare.rs:325-371 | The CNAME order: all deletions before the first write, cut off after any number of calls |
| `Cloudflare.Adapter.WriteThenDelete` | sievetube-edge/src/dns/cloudflare.rs:325-374 | The order for the other types: all writes before the first deletion, cut off after any number of calls |
| `Cloudflare.Adapter.Replace` | sievetube-edge/src/dns/cloudflare.rs:300-376 | Stopped after any number of calls by an interruption or by a refusal of the next call, the records are those after exactly that prefix of the planned list; they are sure to be untouched only when the check before the first call refuses, which is exactly when the set is unsupported or not the expected one. When it reports the change as made, the records are supported and hold exactly the target's values, each with its TTL and flag |
| `CloudflareResume.PassProceeds` | sievetube-edge/src/dns/plan.rs:372-476 | In a resumable state the decision is never a conflict and never waits: it finds the record done, or plans the change from what is observed to the configured values |
| `CloudflareResume.WritingPassIs` | sievetube-edge/src/dns/reconciler.rs:453-542 | A pass that plans a write makes the planned calls or as many as it got to; the entry is closed, with what was there as previous and the target as applied, if and only if all of them were made and the result was saved, and otherwise keeps the intent |
| `CloudflareResume.QuietPassIs` | sievetube-edge/src/dns/reconciler.rs:418-451 | A pass that plans none touches no record and leaves the entry as it was unless it is saved |
| `CloudflareResume.ChangeAdvances` | sievetube-edge/src/dns/cloudflare.rs:300-385 | The configured change cut off after any k calls leaves a supported set between the pending endpoints, k steps nearer to the goal, and equal to the target data after the last call |
| `CloudflareResume.ChangePassIs` | sievetube-edge/src/dns/reconciler.rs:453-542 | What a cut-off pass leaves: the records after a prefix of the planned calls and either the saved intent with the endpoints of this change or, only when all calls were made, the completed entry |
| `CloudflareResume.PassResumes` | sievetube-edge/src/dns/reconciler.rs:402-556 | One interrupted or completed pass reports no conflict, keeps the state resumable, and shortens the distance to the configured values by exactly the number of calls it made |
| `CloudflareResume.InterruptionsConverge` | sievetube-edge/src/dns/reconciler.rs:402-556 | Any number of passes cut off anywhere ends at the configured set if and only if together they were allowed at least as many calls as values differed at the start |
| `CloudflareResume.InterruptionsKeepProxy` | sievetube-edge/src/dns/cloudflare.rs:300-385 | Except for a CNAME, every run of interrupted passes over an existing record keeps the name answered and its proxy flag |
| `CloudflareResume.InterruptedCnameKeepsProxyExactly` | sievetube-edge/src/dns/plan.rs:335-342 | Over every run of interrupted passes that completes the change of a CNAME with an open proxy flag, from any resumable entry: the flag is kept if and only if it was off or no passes of the run stopped between the DELETE and the POST |
| `CloudflareResume.InterruptedCnameLosesFlag` | sievetube-edge/src/dns/cloudflare.rs:325-371 | Such a loss on a concrete run: two passes that each make one of the two calls |
| `CloudflareResume.RefusedPassIs` | sievetube-edge/src/dns/reconciler.rs:529-542 | A pass refused at call k leaves the records as they were if and only if k is the first call, k steps nearer to the goal otherwise; the entry keeps what was applied without its intent, and is dropped if and only if nothing was applied or previous |
| `CloudflareResume.ProceedsAfterRefusalExactly` | sievetube-edge/src/dns/reconciler.rs:529-542 | From every resumable state, the pass after a refusal goes on if and only if the records left match what was applied (or nothing is there and nothing was applied), or the entry is gone and the configuration imports |
| `CloudflareResume.UnfinishedPasses` | sievetube-edge/src/dns/reconciler.rs:402-556 | Passes that do not complete the change keep the applied and previous sets of the last completed one, and stay on their way to the goal |
| `CloudflareResume.RefusalIsHarmlessExactly` | sievetube-edge/src/dns/reconciler.rs:529-542 | After a completed change and any number of interrupted passes, a refusal at any call is harmless if and only if not a single call was made since that change, or the dropped entry may be imported again; a refusal by the check before the first call is no exception |
| `CloudflareResume.HarmfulRefusalIsFinal` | sievetube-edge/src/dns/reconciler.rs:402-556 | After a harmful refusal no later pass changes the records or the entry |
| `CloudflareResume.LateRefusalOrphansRecord` | sievetube-edge/src/dns/reconciler.rs:529-542 | A harmful refusal on a concrete run: the first of two POSTs is made, the second is refused, and the next pass reports the own record as unmanaged, with and without the value another tool posted |
| `TxtSolver.AddPlansOnePost` | sievetube-edge/src/dns/txt.rs:167-211 | Adding a value to the set just read makes the adapter plan exactly one call, the POST of that value |
| `TxtSolver.RemovePlansOneDelete` | sievetube-edge/src/dns/txt.rs:262-299 | Removing a value from the set just read makes the adapter plan exactly one call, the DELETE of the record that holds it |
| `TxtSolver.EffectOnRecords` | sievetube-edge/src/dns/cloudflare.rs:300-385 | What one call does to the records of a name: every record afterwards was there before (perhaps with another TTL or flag) or was just posted, a POST removes nothing, a DELETE removes one id |
| `TxtSolver.StepKeepsInv` | sievetube-edge/src/dns/txt.rs:167-299 | Every single step of every solver (journal write, read, check, API call, journal removal), every crash and every operator edit of other values keeps the invariant |
| `TxtSolver.JournalCoversPublished` | sievetube-edge/src/dns/txt.rs:167-299 | In every interleaving, call by call, every solver value still published is in the journal, and a solver is never about to send anything but a POST of its own value or a DELETE of a record that holds it |
| `TxtSolver.UnsupportedSetEndsSolver` | sievetube-edge/src/dns/txt.rs:167-299 | A set that cannot be managed ends the solver that reads it, without a call and with the journal as it was |
| `TxtSolver.OtherValuesSurvive` | sievetube-edge/src/dns/txt.rs:167-299 | Over every run, a record that no operator edits and whose value no removal names is still there at the end |
| `TxtSolver.CleanupRemoves` | sievetube-edge/src/dns/txt.rs:304-330 | After a crash, removing a journaled value takes its record and its journal entry away and leaves every other record alone |
| `TxtSolver.EarlyCleanupLosesJournal` | sievetube-edge/src/acme.rs:673-706 | Such a loss on a concrete run from an empty zone |
| `TxtSolver.EarlyRemovalOrphans` | sievetube-edge/src/acme.rs:673-706 | From every reachable state with a live add of a value, in whatever phase, a removal of that value has a continuation that leaves it published and in no journal; no operator takes part when the records are manageable and do not hold the value |
| `TxtSolver.RemovalIsSafeExactly` | sievetube-edge/src/acme.rs:673-706 | Starting a removal is safe, whatever happens then, if and only if no add of its value is under way |
| `TxtSolver.InitIsInv` | sievetube-edge/src/dns/txt.rs:108-126 | The state before the first challenge satisfies the invariant |
| `Reconciler.WriteIsWarranted` | sievetube-edge/src/dns/reconciler.rs:453-542 | A write that the conditional provider carries out is justified by the decision it came from, whatever was edited since |
| `Reconciler.EveryWriteIsWarranted` | sievetube-edge/src/dns/reconciler.rs:345-600 | Over every run with crashes, lost answers, failed saves and external edits between any two steps, and with any number of other reconcilers at the same provider and state file: every write carried out replaced nothing, an imported record, data between the endpoints of an own unfinished change, or data matching what was applied; an unmanaged record is never deleted, and the change the entry waited for was in sync when the write was made |
| `Reconciler.WritesInPlainTerms` | sievetube-edge/src/dns/plan.rs:344-476 | Over every such run, in terms of values: a write after an unfinished change replaced only values of that change's two ends, missed none that both have, under the TTL of one of them; a write after a finished change replaced exactly the values and the TTL last applied; a write without an entry replaced nothing or imported; and each write was for a record not as configured and asked for exactly the configured values, TTL and flag |
| `Reconciler.StrangeValueIsNotPlanned` | sievetube-edge/src/dns/plan.rs:389-407 | In any state, a record that is not as configured and holds a value of neither end of its unfinished change is not planned for a write |
| `Reconciler.StepKeepsTickets` | sievetube-edge/src/dns/reconciler.rs:345-600 | Every step keeps: each submitted change is in sync, or its ticket was lost, or the entry of its record waits for it in memory and, unless still unsaved, in the state file |
| `Reconciler.NothingIsResubmitted` | sievetube-edge/src/dns/reconciler.rs:345-600 | Over every run, also with external edits, a record is written again only when every earlier change of it is in sync, except for changes whose ticket was lost with the answer or with a process that ended before saving it |
| `Reconciler.WaitsUnlessLost` | sievetube-edge/src/dns/reconciler.rs:362-385 | Over every run, the entry of a submitted change that is not in sync waits for it if and only if its ticket was not lost |
| `Reconciler.SyncedIsNotAwaited` | sievetube-edge/src/dns/reconciler.rs:362-404 | Once its change is in sync, a record that shows it is no longer waited for: it is written again if and only if it is not as configured, and its entry holds no ticket |
| `Reconciler.UntrackedHasNoTickets` | sievetube-edge/src/dns/memory.rs:122-174 | Over every run at a provider without tickets, no write has one and none is ever unsaved or lost |
| `Reconciler.InterruptionsLeave` | sievetube-edge/src/dns/reconciler.rs:345-600 | A crash leaves what was saved, a failed save the intent in memory and no write, a write that did not take effect nothing but the saved intent |
| `Reconciler.LostTicketIsNotAwaited` | sievetube-edge/src/dns/reconciler.rs:402-409 | The exception is real: a run, given as its list of steps, in which the answer is lost, the change is closed because the record looks as requested, and a new configuration is written while the first change is not in sync |
| `Reconciler.ReplacedMatchesApplied` | sievetube-edge/src/dns/mod.rs:276-292 | The replaced data matches what was applied if and only if the provider did not report an open flag between two different explicit ones; it always does when the flag is reported the same way both times |
| `Reconciler.EditedFlagSlipsThrough` | sievetube-edge/src/dns/mod.rs:179-197 | That gap is real: a run in which a flag edited between read and write is replaced although it differs from what was applied |
| `Reconciler.ExplainedProceeds` | sievetube-edge/src/dns/plan.rs:372-476 | When the saved entry explains the observed record, a write is planned if and only if the record is not as configured, and otherwise the pass finds it done or forgets it |
| `Reconciler.ForeignIsImported` | sievetube-edge/src/dns/plan.rs:372-476 | A record without an entry is a conflict if and only if it is unsupported, to be absent or not to be imported; otherwise it is adopted as it is or replaced by what the configuration asks for |
| `Reconciler.InspectStaysConsistent` | sievetube-edge/src/dns/reconciler.rs:345-452 | An inspection without external edits, next to any records of others, reports a conflict if and only if the record has no entry and may not be imported, and waits only for a submitted change that is not in sync |
| `Reconciler.WriteReaches` | sievetube-edge/src/dns/memory.rs:122-174 | The planned write is accepted, what is stored counts as the requested set and as configured (also where the provider fills in the flag), and no other record changes |
| `Reconciler.ReplaceIs` | sievetube-edge/src/dns/memory.rs:122-174 | A change is refused, and then nothing changes, if and only if the record cannot be managed or is not the expected one; otherwise exactly the requested set is kept, with only an open flag filled in, other records stay, and a new ticket is given out if and only if the provider has tickets |
| `Reconciler.NeverConflicts` | sievetube-edge/src/dns/reconciler.rs:345-600 | Without external edits, whatever crashes, lost answers, failed saves, restarts and configuration changes happen and whatever records others have: a conflict is reported if and only if the record has no entry and may not be imported, never for a record Sieve Tube wrote or accounted for at the start; no write is refused, and no wait except for a pending ticket |
| `Reconciler.WritesAtMostOnce` | sievetube-edge/src/dns/reconciler.rs:345-600 | With a fixed configuration the writes carried out for a record, imported ones included, plus the write it still needs are constant over every run: at most one write, none once it is as configured |
| `Reconciler.RecordPassConverges` | sievetube-edge/src/dns/reconciler.rs:345-556 | One uninterrupted pass leaves a record as configured or submitted with a pending ticket, or, if and only if it is a record of others that may not be imported, as it was |
| `Reconciler.RecordPassSparesOthers` | sievetube-edge/src/dns/reconciler.rs:345-556 | A pass over one record changes neither the provider data nor the entry of any other record |
| `Reconciler.PassIsNotRefused` | sievetube-edge/src/dns/reconciler.rs:345-556 | A pass that sees no external edit is never refused by the provider, and is in conflict if and only if the record is one of others that may not be imported |
| `Reconciler.FirstStart` | sievetube-edge/src/dns/reconciler.rs:562-570 | A process with an empty state file starts in the states of the theorems, whatever records the provider holds |
| `Reconciler.DnsReconciler.FinishTracked` | sievetube-edge/src/dns/reconciler.rs:362-385 | Waits if and only if the ticket is not in sync; otherwise a pending change with a ticket is completed |
| `Reconciler.DnsReconciler.ApplyChange` | sievetube-edge/src/dns/reconciler.rs:453-542 | Saves the intent, then calls the provider, then records completion, ticket or refusal: the whole new state is that of these steps in this order |
| `Reconciler.DnsReconciler.ReconcileRecord` | sievetube-edge/src/dns/reconciler.rs:345-556 | The imperative pass over a record is the composition of the steps of the state machine, and reports the planned action or the refusal |
| `Reconciler.DnsReconciler.ReconcileProvider` | sievetube-edge/src/dns/reconciler.rs:260-343 | A whole pass without external edits reports a conflict for exactly the records of others that may not be imported, leaves these and all unconfigured records untouched and every other one done or submitted, and saves a state from which the next pass resumes |
| `Leases.ParseFormat` | sievetube-edge/src/valkey.rs:54-75 | The pattern in the script recovers owner and generation from a lease value, even when the owner contains bars |
| `Leases.ParseExactly` | sievetube-edge/src/valkey.rs:54-75 | The pattern matches if and only if the value ends in a bar and at least one digit |
| `Leases.FormatInjective` | sievetube-edge/src/valkey.rs:77-85 | Comparing lease values as strings compares owner and generation |
| `Leases.StepKeepsInv` | sievetube-edge/src/valkey.rs:54-85 | Every script call and every expiry keeps a live lease at the generation of the counter, and the counter never decreases |
| `Leases.RunKeepsInv` | sievetube-edge/src/valkey.rs:54-85 | The same over every interleaving |
| `Leases.AcquireGrants` | sievetube-edge/src/valkey.rs:54-75 | An acquire succeeds if and only if the lease is free or already the caller's; a new holding gets a generation above all earlier ones and at least the minimum; an extension changes nothing |
| `Leases.OneHolder` | sievetube-edge/src/valkey.rs:77-79 | In every state at most one Edge passes a check, with one generation |
| `Leases.GoneStaysGone` | sievetube-edge/src/valkey.rs:54-85 | A holding that ended never passes a check again, in any run |
| `Leases.StaleReleaseIsHarmless` | sievetube-edge/src/valkey.rs:81-85 | Releasing a generation that is no longer held changes nothing, after any run |
| `Leases.ReleaseFrees` | sievetube-edge/src/valkey.rs:81-85 | A release by the holder leaves no lease and the same counter; the next acquire by any owner is granted a generation above the released one and at least its minimum; the released generation never passes a check again, after any run |
| `Leases.OthersCannotRelease` | sievetube-edge/src/valkey.rs:81-85 | A release under any other owner or generation leaves the lease as it is |
| `Leases.RenewsIffUnbroken` | sievetube-edge/src/dns/reconciler.rs:210-222 | Renewing succeeds if and only if the holding was never interrupted at any point of the run since it was granted |
| `Leases.LaterHoldingIsLarger` | sievetube-edge/src/valkey.rs:54-75 | Of two holdings in a run, the later has the larger generation |
| `Leases.MinimumBindsNewHoldings` | sievetube-edge/src/valkey.rs:54-75 | The answer is below the requested minimum if and only if the caller still held the lease at a generation below it |
| `Leases.FreeIsInv` | sievetube-edge/src/valkey.rs:54-75 | A free lease with any counter satisfies the invariant |
| `Leases.LeaseStore.constructor` | sievetube-edge/src/valkey.rs:48-54 | No lease and counter zero |
| `Leases.LeaseStore.AcquireScript` | sievetube-edge/src/valkey.rs:54-75 | The script, over keys and strings, computes the acquire step and answers the generation or -1 |
| `Leases.LeaseStore.CheckScript` | sievetube-edge/src/valkey.rs:77-79 | String equality decides whether this owner holds this generation |
| `Leases.LeaseStore.ReleaseScript` | sievetube-edge/src/valkey.rs:81-85 | Deletes the lease if and only if its value is the caller's, and leaves the counter alone |
| `DnsWriters.StepKeepsInv` | sievetube-edge/src/dns/reconciler.rs:183-258 | Starting, renewing, working, stopping and expiry keep the order of the work and what is known of overrun holdings |
| `DnsWriters.WritersTakeTurns` | sievetube-edge/src/dns/reconciler.rs:210-258 | Over every run of any number of writers that renew the lease before each save and exchange: work done while the lease is held comes in the order of the generations, one owner each, and a writer that lost the lease finishes at most the work its last renewal allowed |
| `DnsWriters.RenewalExactly` | sievetube-edge/src/dns/reconciler.rs:210-258 | A renewal lets the writer go on if and only if it holds the lease under its generation; one that finds the lease free takes it under a larger generation, and the writer ends |
| `DnsWriters.UndisturbedWriterWorks` | sievetube-edge/src/dns/reconciler.rs:183-258 | While nobody holds the lease, a writer that starts, renews and works does its work under the lease, once per renewal |
| `DnsWriters.OverrunHappens` | sievetube-edge/src/dns/reconciler.rs:227-258 | That one overrun is real: a run from a free lease in which the older generation works after the newer one |
| `DnsWriters.InitIsInv` | sievetube-edge/src/dns/reconciler.rs:183-205 | A free lease with any counter and no writers satisfies the invariant |
| `CertStore.StepKeepsInv` | sievetube-edge/src/certificate_store.rs:227-271 | Every step of interleaved stores (lock, compare, rename, switch of `current`, removals) and every crash keeps: `current` names a complete directory with what was stored, and only the lock holder is inside |
| `CertStore.StepGrows` | sievetube-edge/src/certificate_store.rs:227-323 | No step moves `current` back or changes what was stored under a number |
| `CertStore.ActiveGenerationIsStable` | sievetube-edge/src/certificate_store.rs:227-323 | Over every interleaving with crashes anywhere, the active generation never decreases, is complete, and holds exactly what was stored under its number; pruning never touches it |
| `CertStore.UndisturbedStore` | sievetube-edge/src/certificate_store.rs:227-323 | From every state with the lock free, an accepted store that nothing interrupts ends with its generation active and complete, exactly the given victims gone and the lock free |
| `CertStore.StoreCutShort` | sievetube-edge/src/certificate_store.rs:227-271 | A generation that is not accepted changes nothing; a store cut off before the switch of `current` leaves its directory behind and the active generation alone; the lock is free again either way |
| `CertStore.RemovalCutShort` | sievetube-edge/src/certificate_store.rs:311-323 | A removal that is cut off leaves one partial directory, of a victim, and the lock free |
| `CertStore.LoadFindsActive` | sievetube-edge/src/certificate_store.rs:273-300 | What loading finds was stored under its number, and is the active generation whenever that one is usable |
| `CertStore.DroppingTailPrunes` | sievetube-edge/src/certificate_store.rs:311-323 | Dropping all but the two newest older generations keeps the active one, everything newer and exactly those two |
| `CertStore.EmptyIsInv` | sievetube-edge/src/certificate_store.rs:167-172 | The empty store satisfies the invariant |
| `CertStore.Files.Generations` | sievetube-edge/src/certificate_store.rs:197-216 | All generations on disk, each once, newest first |
| `CertStore.Files.NextGeneration` | sievetube-edge/src/certificate_store.rs:218-225 | The smallest positive number above everything on disk and above `current` |
| `CertStore.Files.OlderThan` | sievetube-edge/src/certificate_store.rs:311-323 | Exactly the generations below the active one, newest first |
| `CertStore.Files.RemoveAll` | sievetube-edge/src/certificate_store.rs:311-323 | Removes exactly the given directories |
| `CertStore.Files.Prune` | sievetube-edge/src/certificate_store.rs:311-323 | Keeps the active generation and everything newer, removes nothing when there are at most two older ones, and otherwise leaves exactly the two newest of them |
| `CertStore.Files.StoreGeneration` | sievetube-edge/src/certificate_store.rs:227-269 | Stores if and only if the certificate is valid and the number is new and above the active one; a refusal changes nothing; afterwards `current` names the stored data and exactly the pruned generations are gone |
| `CertStore.Files.LoadCurrent` | sievetube-edge/src/certificate_store.rs:273-309 | Returns the newest complete and usable generation not above `current`, and none if and only if there is none |
| `AcmeIssue.StepKeepsInv` | sievetube-edge/src/acme.rs:343-374 | Every step of every Edge (ask for the next number, lease, check, store, crash between the rename and the switch of `current`, release) and every expiry keeps the invariant |
| `AcmeIssue.StepKeepsCounterAhead` | sievetube-edge/src/acme.rs:343-374 | A counter at or above everything stored stays so |
| `AcmeIssue.HolderIsAccepted` | sievetube-edge/src/acme.rs:523-565 | In every run no two Edges use one generation, and an Edge that still holds its lease is accepted by the store if its generation is at least the minimum it asked for; if the counter is ahead of the store, if and only if |
| `AcmeIssue.LostLeaseIsNotStored` | sievetube-edge/src/acme.rs:541-553 | In every continuation, an Edge that no longer holds the lease before its check never gets to store under that generation |
| `AcmeIssue.CrashedStoreIsPassedOver` | sievetube-edge/src/acme.rs:343-374 | After a store that was cut off the current certificate is as before, and whoever asks next reads a larger minimum; an attempt that is given up leaves nothing behind |
| `AcmeIssue.FreedLeaseIsGranted` | sievetube-edge/src/acme.rs:343-374 | In any state of any run, after the holder frees the lease the next Edge that asked gets it, with a generation above the freed one and at least its minimum |
| `AcmeIssue.UndisturbedIssueStores` | sievetube-edge/src/acme.rs:523-565 | Whatever happened before, while nobody holds the lease an Edge that asks, gets the lease, checks it and stores makes its certificate the current one under the generation it was granted |
| `AcmeIssue.LostReleaseIsRefused` | sievetube-edge/src/acme.rs:343-374 | The minimum can be missed: an Edge that still holds the lease under the generation it already stored is answered with that generation and is refused |
| `AcmeIssue.LostReleaseHappens` | sievetube-edge/src/acme.rs:343-374 | Such a run from an empty store: the Edge stores its first certificate, its release is lost, and its second attempt is refused |
| `AcmeIssue.InitIsInv` | sievetube-edge/src/acme.rs:343-374 | Any store and counter with no attempt under way satisfies the invariant |
| `Registry.StepKeepsInv` | sievetube-edge/src/connector_registry.rs:81-179 | Registering and removing keep the two indexes, the generations, the list of ended registrations and the gauge in agreement |
| `Registry.IndexesAgree` | sievetube-edge/src/connector_registry.rs:81-197 | After every run the hostname index is exactly the one derived from the tenant index, no hostname has two tenants, every registration ended exactly once or is current, and the gauge is the number of tenants |
| `Registry.StaleDisconnectIsIgnored` | sievetube-edge/src/connector_registry.rs:149-179 | Once a generation ended, its disconnect removes nothing, after any run |
| `Registry.LookupAfterRegister` | sievetube-edge/src/connector_registry.rs:81-147 | After a registration each hostname resolves to the new handle if it claims it, to nothing if only the replaced one did, and as before otherwise |
| `Registry.LookupAfterRemove` | sievetube-edge/src/connector_registry.rs:149-179 | Removing a tenant's current generation leaves the tenant without an entry, every hostname that resolved to that generation resolving to nothing and every other lookup as before; the generation has ended and the gauge is one less. Any other removal changes nothing |
| `Registry.RemovedThenRegistered` | sievetube-edge/src/connector_registry.rs:81-179 | A removed tenant can register the same hostnames again under a larger generation, and its old generation can no longer remove anything |
| `Registry.ReaderSeesOldNewOrNothing` | sievetube-edge/src/connector_registry.rs:81-147 | A lock-free reader between any two micro-steps sees the old handle, the new one or nothing, never another tenant; it misses a name served before and after if and only if that name is dropped and not yet put again |
| `Registry.ReconnectIsMissed` | sievetube-edge/src/connector_registry.rs:113-136 | That gap on a concrete run: a Connector reconnects, and between the two loops a reader finds nothing |
| `Registry.EmptyIsInv` | sievetube-edge/src/connector_registry.rs:75-79 | The empty registry satisfies the invariant |
| `Registry.ConnectorRegistry.constructor` | sievetube-edge/src/connector_registry.rs:75-79 | A new registry is empty |
| `Registry.ConnectorRegistry.RemoveHostnames` | sievetube-edge/src/connector_registry.rs:115-119 | Removes exactly the given hostnames that still point at this generation |
| `Registry.ConnectorRegistry.Register` | sievetube-edge/src/connector_registry.rs:81-147 | Refuses, changing nothing, if and only if another tenant serves one of the hostnames; otherwise the state is that of the register step, and the replaced handle is returned |
| `Registry.ConnectorRegistry.Remove` | sievetube-edge/src/connector_registry.rs:149-179 | Removes if and only if the generation is the current one: then exactly that tenant's entry and the hostnames that resolved to that generation go, the gauge drops by one and the generation has ended; otherwise nothing changes |
| `Ownership.ClaimedIs` | sievetube-edge/src/valkey.rs:17-32 | After a claim every old owner is unchanged and every unowned hostname of the claim belongs to the claimant |
| `Ownership.AuthenticationIs` | sievetube-edge/src/quic_server.rs:206-236 | A Connector is admitted if and only if Valkey answers that no hostname belongs to another tenant or, without an answer, the Edge remembers all of them for its tenant; a claim that ran takes all free hostnames or none, only an answered one is remembered, and nothing else changes |
| `Ownership.FreeHostnamesAreServed` | sievetube-edge/src/quic_server.rs:206-236 | A Connector whose hostnames are free or its own is admitted, and once registered every one of them leads to its tenant |
| `Ownership.EntersOnceAndForgets` | sievetube-edge/src/quic_server.rs:206-290 | Registering uses an admission up; a restarted Edge serves and remembers nothing, while the recorded owners stay |
| `Ownership.OwnerStore.ClaimScript` | sievetube-edge/src/valkey.rs:17-32 | Succeeds if and only if no hostname belongs to another tenant; a conflict names the first such hostname and changes no key |
| `Ownership.StepKeepsInv` | sievetube-edge/src/valkey.rs:295-349 | Claims with or without an answer, admissions from the cache, registrations, disconnects, cache expiry and restarts keep every Edge in agreement with the owner keys |
| `Ownership.EveryEdgeServesTheOwner` | sievetube-edge/src/quic_server.rs:206-253 | In every run without administrative changes, all Edges' registrations for a hostname belong to its one recorded owner, including those admitted from the confirmed cache while Valkey is down |
| `Ownership.TransferIsSafeExactly` | sievetube-edge/src/valkey.rs:42-46 | After an administrative transfer, in every continuation all Edges serve the recorded owner, if and only if no Edge serves, admits or remembers the hostname |
| `Ownership.ReleaseIsSafeExactly` | sievetube-edge/src/valkey.rs:36-40 | The same for an administrative release |
| `Ownership.AdministrationIs` | sievetube-edge/src/valkey.rs:36-46 | After a transfer exactly the new owner can claim the hostname, after a release anyone can; a change naming the wrong owner does nothing, and no other hostname is touched |
| `Ownership.UsedIsServed` | sievetube-edge/src/quic_server.rs:206-253 | Otherwise there is a continuation in which an Edge serves the hostname for its former owner: it does already, or it registers the Connector it admitted, or it admits one from its cache while Valkey is down |
| `Ownership.InitIsInv` | sievetube-edge/src/valkey.rs:295-349 | Any owner keys with no Edge running satisfy the invariant |
| `RouteStore.StepKeepsInv` | sievetube-edge/src/valkey.rs:99-127 | Publishing, withdrawing, expiry and passing time keep every unexpired route of the sorted set in its Edge's member set, with a later deadline |
| `RouteStore.PublishIsExact` | sievetube-edge/src/valkey.rs:99-127 | After a publish, whatever came before, the Edge's visible routes are exactly the published ones (none if the command arrives after they expired) |
| `RouteStore.PublishSparesOthers` | sievetube-edge/src/valkey.rs:99-127 | A publish keeps another Edge's route with its expiry if and only if that expiry is after the publisher's clock; a visible route stays visible under the same condition, so it is lost only at the very instant it expires |
| `RouteStore.WithdrawIsExact` | sievetube-edge/src/valkey.rs:760-780 | A withdrawal removes exactly the named routes |
| `RouteStore.RoutesFollowLastPublish` | sievetube-edge/src/valkey.rs:717-797 | Over every run of any Edges, an Edge's live routes are its last published set minus what it withdrew since, for exactly as long as that set lives |
| `RouteStore.UnannouncedChangeExactly` | sievetube-edge/src/valkey.rs:717-750 | A publish changes the Edge's live routes without a notification if and only if it repeats the set the Edge remembers, removes nothing, and part of that set is not alive |
| `RouteStore.NotifiesExactly` | sievetube-edge/src/valkey.rs:717-790 | Peers are told if and only if the script took a route of the Edge away or something other than the remembered set is published; only an answered publish is remembered, and an answered withdrawal or a restart makes the Edge forget |
| `RouteStore.SilentReturnExactly` | sievetube-edge/src/valkey.rs:717-779 | Over every run in which the Edge gets its answers, that happens if and only if it publishes the non-empty set it remembers again after that set has expired |
| `RouteStore.ExpiredRouteReturnsSilently` | sievetube-edge/src/valkey.rs:717-750 | Such a run from empty keys: publish, expire, publish again |
| `RouteStore.LostAnswerReturnsSilently` | sievetube-edge/src/valkey.rs:717-750 | The same after a lost answer: a smaller set is published without an answer, and the larger one comes back unannounced |
| `RouteStore.EmptyIsInv` | sievetube-edge/src/valkey.rs:99-127 | Empty keys satisfy the invariant |
| `RouteStore.RouteKeys.RemoveUnwanted` | sievetube-edge/src/valkey.rs:102-112 | Removes exactly the listed members that are not wanted, and counts whether any was in the sorted set |
| `RouteStore.RouteKeys.AddAll` | sievetube-edge/src/valkey.rs:114-117 | Gives every published member the new score |
| `RouteStore.RouteKeys.ReplaceScript` | sievetube-edge/src/valkey.rs:99-127 | The script's loops compute the replacement in one step and notify if and only if a route was removed or the caller saw a change |
| `RouteStore.RouteKeys.PublishRoutes` | sievetube-edge/src/valkey.rs:717-750 | Around the script: a notification is sent if and only if a route was removed or a non-empty set differs from the remembered one, and the set is remembered if and only if it was answered |
| `Advertiser.StepKeepsInv` | sievetube-edge/src/mesh/routes.rs:217-281 | Every step of concurrent advertisers (request number, lock, load of the covered number, reads of the registry, publish with any fate, abort), withdrawals, stop and expiry keeps the invariant |
| `Advertiser.RunKeepsInv` | sievetube-edge/src/mesh/routes.rs:217-281 | The same over every run |
| `Advertiser.CoveredMeansPublished` | sievetube-edge/src/mesh/routes.rs:217-238 | Whoever returns because the request is already covered: some successful publish carried every registration made before the request that has not ended since, and none that had ended before the request |
| `Advertiser.WaitingRequestsAreCoalesced` | sievetube-edge/src/mesh/routes.rs:212-236 | After such a publish every request that was already waiting returns without a publish of its own |
| `Advertiser.ChangesArePublished` | sievetube-edge/src/mesh/routes.rs:212-236 | A registration made before the request is in the publish in place of the tenant's former one, and a removed one is not |
| `Advertiser.FailedPublishCoversNothing` | sievetube-edge/src/mesh/routes.rs:226-236 | A publish that fails or is given up covers nothing and frees the lock; only one whose answer alone was lost shows its routes |
| `Advertiser.LockIsKeptExactly` | sievetube-edge/src/mesh/routes.rs:217-223 | Whoever gets the lock goes on to publish if and only if the Edge is not stopped and no publish covers the request yet; a command that does not reach Valkey takes no route away |
| `Advertiser.WithdrawnStaysWithdrawn` | sievetube-edge/src/mesh/routes.rs:240-257 | Once the withdrawal of an ended registration was carried out, no later publish carries it and its routes never appear again |
| `Advertiser.WithdrawalRemoves` | sievetube-edge/src/mesh/routes.rs:240-257 | A withdrawal that reaches Valkey removes exactly that registration's routes, and they stay away in every continuation |
| `Advertiser.StopRemoves` | sievetube-edge/src/mesh/routes.rs:272-283 | After a shutdown that reaches Valkey no route of a registration live at that time is shown again |
| `Advertiser.RequestPublishesLive` | sievetube-edge/src/mesh/routes.rs:212-236 | From every reachable state with the lock free, a request that is not overtaken ends with a publish of exactly the live registrations, and covers every request made so far |
| `Advertiser.NothingAfterStop` | sievetube-edge/src/mesh/routes.rs:273-281 | After the stop nothing is published and no route appears |
| `Advertiser.InitIsInv` | sievetube-edge/src/mesh/routes.rs:192-215 | The state before the first request satisfies the invariant |
| `Permits.HoldersAfter` | sievetube-edge/src/mesh/forward.rs:106-127 | When one task moves, the number of holders of a key changes by exactly its own permit |
| `Permits.StepKeepsInv` | sievetube-edge/src/mesh/forward.rs:106-186 | Cloning, waiting, taking, timing out, dropping and sweeping keep: every handle is on the semaphore in the map, and free permits plus holders are the limit |
| `Permits.SweepExactly` | sievetube-edge/src/mesh/forward.rs:106-186 | A sweep removes an entry if and only if no task waits for it or holds a permit of it; the next task then gets a new semaphore with all its permits |
| `Permits.BudgetsHold` | sievetube-edge/src/mesh/forward.rs:106-186 | Over every interleaving at most the limit of permits per tenant and per peer are live, and a tenant occupies at most its limit of a peer's slots, plus pairs half dropped |
| `Permits.TenantNeverExceedsItsShare` | sievetube-edge/src/mesh/forward.rs:150-174 | When pairs are released as one step, a tenant never occupies more of a peer's slots than its own limit |
| `Permits.HalfReleasedPairAddsOne` | sievetube-edge/src/mesh/forward.rs:150-174 | The exception is real: a run from the empty system after which the tenant occupies one slot more than its limit, until the pair is dropped completely |
| `Permits.ReleaseIsTwoDrops` | sievetube-edge/src/mesh/forward.rs:150-174 | Releasing a pair is the drop of the tenant permit followed by the drop of the peer permit |
| `Permits.InitIsInv` | sievetube-edge/src/mesh/forward.rs:106-112 | No entries and no tasks satisfy the invariant |
| `Policy.CompiledLimitsFit` | sievetube-edge/src/policy.rs:392-414 | Every limit that compiles has a positive rate and a burst of at least one; every byte limit that compiles admits any datagram up to 65535 bytes |
| `Policy.CompiledExactly` | sievetube-edge/src/policy.rs:392-414 | A limit is refused if and only if it has a burst without a rate, a rate that is not positive or a burst of zero; otherwise it has the configured rate and the configured burst, or else the least whole number not below the rate and at least one, up to 32 bits; a byte limit is refused in addition below 65535 |
| `Policy.TakeIsSound` | sievetube-edge/src/policy.rs:142-157 | Tokens stay between zero and the burst |
| `Policy.RetrySucceedsExactly` | sievetube-edge/src/policy.rs:142-157 | On a bucket nobody else uses, a refused amount is admitted later if and only if it fits the burst and the announced wait is over |
| `Policy.AnnouncedRetrySucceeds` | sievetube-edge/src/policy.rs:852-863 | Coming back after the announced whole seconds succeeds, for every amount that fits the burst |
| `Policy.RetryAfterIsLeast` | sievetube-edge/src/policy.rs:852-863 | The announced number of seconds is the least whole number, at least one, that covers the wait |
| `Policy.TokensAreConserved` | sievetube-edge/src/policy.rs:142-157 | Over every sequence of takes, what was admitted plus what is left is at most what was there plus rate times time |
| `Policy.WindowBound` | sievetube-edge/src/policy.rs:142-157 | In every window of every run, the admitted amount is at most the burst plus the rate times the length of the window |
| `Policy.IdleIsFull` | sievetube-edge/src/policy.rs:234-239 | A bucket idle for burst over rate has refilled to its burst |
| `Policy.FullActsNew` | sievetube-edge/src/policy.rs:206-239 | A full bucket answers like a new one and is left like a new one |
| `Policy.TakeAgrees` | sievetube-edge/src/policy.rs:206-232 | A take on the swept table answers as on the table that keeps everything, unless its key was dropped at a later clock; it is refused for capacity only for a new key when the table is full after sweeping |
| `Policy.SweepIsUnobservable` | sievetube-edge/src/policy.rs:206-239 | Over every run with sweeps at arbitrary times and the clocks of different keys in any order, each take is answered as if every bucket were kept forever, capacity refusals aside, as long as no take of a dropped key is older than its drop |
| `Policy.CapacityExactly` | sievetube-edge/src/policy.rs:189-245 | A new client is refused for lack of room if and only if the table is full and either the second since the last sweep is not over or as many buckets as fit are neither refilled nor idle long enough; a sweep drops only the others and is not repeated for a second |
| `Policy.NextSweep` | sievetube-edge/src/policy.rs:189-200 | A full table can be swept again once a second has passed since its last sweep, and not before all but the last millisecond of it has |
| `Policy.OrderIsTimely` | sievetube-edge/src/policy.rs:206-239 | Operations in clock order meet that condition |
| `Policy.LateTakeFindsFullBucket` | sievetube-edge/src/policy.rs:206-239 | The condition is needed, for every settings: a take older than the drop of its bucket is admitted by the table and refused by the reference |
| `Policy.TableWindowBound` | sievetube-edge/src/policy.rs:206-239 | Over every such run of the table, with sweeps, full tables and other keys: between any two instants a key whose own takes come in order is admitted at most its burst plus its rate times the time between them |
| `Policy.EmptyAgrees` | sievetube-edge/src/policy.rs:181-189 | A new table agrees with an empty one |
| `Policy.BucketTable.constructor` | sievetube-edge/src/policy.rs:181-189 | A new table is empty and may sweep at once |
| `Policy.BucketTable.TakeTokens` | sievetube-edge/src/policy.rs:206-232 | The take on the mutable table computes the specified table and answer |
| `UdpReplies.InsertIsBounded` | sievetube-edge/src/tunnel.rs:122-134 | A table never exceeds its maximum, and an insert is refused if and only if the table is full even after dropping expired entries |
| `UdpReplies.UdpReplyTable.constructor` | sievetube-edge/src/tunnel.rs:109-115 | A new table is empty |
| `UdpReplies.UdpReplyTable.PurgeExpired` | sievetube-edge/src/tunnel.rs:169-175 | Keeps exactly the entries whose ttl since creation is not over, and counts the others |
| `UdpReplies.UdpReplyTable.Insert` | sievetube-edge/src/tunnel.rs:122-134 | Inserts if and only if there is a free place or would be one without the expired entries; the entry is then there, no entry still within its ttl is lost, and the table stays within its maximum |
| `UdpReplies.UdpReplyTable.TakeIf` | sievetube-edge/src/tunnel.rs:136-156 | Removes the entry if and only if it is there and the sender is accepted, and returns it if and only if moreover its ttl is not over; an entry of another peer stays in place |
| `UdpReplies.StepKeepsInv` | sievetube-edge/src/mesh/forward.rs:546-709 | Every send, receipt, reply, forgery, purge and clock step of any number of Edges keeps: each entry, message and delivery agrees with what its id was issued for |
| `UdpReplies.RepliesReachTheirClient` | sievetube-edge/src/mesh/forward.rs:546-709 | Over every run with lost, repeated and reordered datagrams, each datagram delivered to a client belongs to a request of that client, came through the peer the request went to, answers that request unless that very peer made it up, and no request is answered twice; no table exceeds its maximum |
| `UdpReplies.EntryIsKept` | sievetube-edge/src/tunnel.rs:122-175 | Over every run that ends within its ttl and does not claim it, an entry stays in its table: other requests, other claims, replies of other peers and purges leave it alone |
| `UdpReplies.TimelyReplyIsDelivered` | sievetube-edge/src/mesh/forward.rs:575-709 | A request sent through a peer while the table has room: after any run without a claim of it, a reply from that peer is delivered to the client if and only if it comes within the ttl |
| `UdpReplies.TimelyLocalReplyIsDelivered` | sievetube-edge/src/tunnel.rs:385-500 | The same for a request that went to one of the Edge's own Connectors |
| `UdpReplies.TimelyReplyIsForwarded` | sievetube-edge/src/tunnel.rs:440-500 | The second Edge sends its Connector's answer to the ingress Edge under the ingress Edge's id if and only if it comes within the ttl |
| `UdpReplies.RequestIsSent` | sievetube-edge/src/mesh/forward.rs:575-680 | A request reaches the second Edge and its Connector, and the Connector's answer comes back under the id it was given |
| `UdpReplies.FailedSendLeavesNothing` | sievetube-edge/src/mesh/forward.rs:575-600 | A request that finds no room or cannot be sent leaves neither an entry nor a message |
| `UdpReplies.UnsentAnswerIsUsedUp` | sievetube-edge/src/tunnel.rs:440-500 | An answer that cannot be sent on leaves no message, but uses its entry up |
| `UdpReplies.PurgeStepIs` | sievetube-edge/src/tunnel.rs:169-175 | The periodic purge keeps exactly the entries whose ttl is not over |
| `UdpReplies.WrongPeerLeavesEntry` | sievetube-edge/src/mesh/forward.rs:676-700 | A reply from a peer the request did not go to leaves the entry and delivers nothing |
| `UdpReplies.InitIsInv` | sievetube-edge/src/tunnel.rs:109-115 | Empty tables and an empty network satisfy the invariant |
| `Datagrams.NumberComesBack` | sievetube-common/src/mesh_protocol.rs:250-254 | Every number that fits its width comes back from its big-endian bytes |
| `Datagrams.BytesComeBack` | sievetube-common/src/mesh_protocol.rs:275-276 | Every byte sequence is the big-endian form of the number it reads as |
| `Datagrams.TextIsEncodedScalars` | sievetube-common/src/mesh_protocol.rs:279-291 | The bytes accepted as a string are exactly the UTF-8 encodings of sequences of Unicode scalar values |
| `Datagrams.FieldComesBack` | sievetube-common/src/mesh_protocol.rs:252-256 | A field of at most 256 bytes comes back from its length-prefixed form |
| `Datagrams.FieldIsFramed` | sievetube-common/src/mesh_protocol.rs:279-291 | Whatever is read as a field is the length-prefixed form of it, and at most 256 bytes long |
| `Datagrams.DecodeUndoesEncode` | sievetube-common/src/mesh_protocol.rs:223-306 | Encoding succeeds if and only if no field exceeds 256 bytes, and then decoding returns the same header and payload; the length is the announced one |
| `Datagrams.EncodeUndoesDecode` | sievetube-common/src/mesh_protocol.rs:261-306 | Any accepted datagram re-encodes to itself |
| `Datagrams.CutDatagram` | sievetube-common/src/mesh_protocol.rs:261-306 | Every strict prefix of a header is refused; a datagram cut in its payload keeps its header and the rest of the payload |
| `Datagrams.Encode` | sievetube-common/src/mesh_protocol.rs:234-259 | The loops append exactly the specified bytes, and an error names the first field that is too long |
| `Datagrams.DecodeFields` | sievetube-common/src/mesh_protocol.rs:277-291 | The loop reads three length-prefixed fields one after the other, and stops at the first error |
| `Datagrams.Decode` | sievetube-common/src/mesh_protocol.rs:261-306 | Returns the header and payload, or the error of the first check that fails, in the order of the source |
| `Datagrams.HeaderComesBackExactly` | sievetube-common/src/protocol.rs:148-180 | The Connector header comes back if and only if the hostname has fewer than 65536 bytes, because its length is cut to 16 bits |
| `Datagrams.WrappedHostnameIsLost` | sievetube-common/src/protocol.rs:149-180 | Every hostname whose length is a multiple of 65536 is read as empty, and its bytes as payload |
| `Datagrams.LongHostnameIsLost` | sievetube-common/src/protocol.rs:149-180 | The failing case: a hostname of 65536 letters is announced with length zero and read as payload |
| `Datagrams.HeaderReencodes` | sievetube-common/src/protocol.rs:159-180 | Any accepted Connector datagram re-encodes to itself |
| `Datagrams.CutHeader` | sievetube-common/src/protocol.rs:159-180 | Every strict prefix of a Connector header is refused |
| `TxtQuoting.UnquoteTxt` | sievetube-edge/src/dns/mod.rs:119-143 | The nested loops compute what the quoted strings hold, or the trimmed text when it does not begin with a quote |
| `TxtQuoting.TrimIs` | sievetube-edge/src/dns/mod.rs:119-122 | Trimming removes whitespace from both ends and nothing else, until neither end is whitespace |
| `TxtQuoting.QuoteTxt` | sievetube-edge/src/dns/mod.rs:146-163 | The loop computes the quoted chunks, and unquoting the result gives the value back |
| `TxtQuoting.ChunksCutTheValue` | sievetube-edge/src/dns/mod.rs:146-157 | The chunks concatenate to the value, each has 1 to 255 bytes, and the empty value is one empty chunk |
| `TxtQuoting.ByteLengthIs` | sievetube-edge/src/dns/mod.rs:146-157 | The length the chunks are measured by is that of the text in UTF-8 |
| `TxtQuoting.EscapedIsOnePass` | sievetube-edge/src/dns/mod.rs:158-162 | Replacing backslashes and then quotes equals one pass that escapes each character once |
| `TxtQuoting.InsideEscaped` | sievetube-edge/src/dns/mod.rs:128-140 | Reading inside quotes undoes that pass, whatever follows |
| `TxtQuoting.OutsideJoin` | sievetube-edge/src/dns/mod.rs:119-163 | Quoted strings joined by spaces read back as their concatenation |
| `TxtQuoting.UnquoteUndoesQuote` | sievetube-edge/src/dns/mod.rs:119-163 | Every string, of any characters, comes back from its quoted form |
| `TxtQuoting.QuoteIsInjective` | sievetube-edge/src/dns/mod.rs:146-163 | Different values have different quoted forms |
| `TxtQuoting.UnquoteFixesExactly` | sievetube-edge/src/dns/mod.rs:119-143 | Unquoting leaves a text unchanged if and only if it is trimmed and does not begin with a quote |
| `TxtQuoting.ReadString` | sievetube-edge/src/dns/mod.rs:128-140 | The inner loop reads one quoted string and stops behind its closing quote |

## Left out

- CloudflareResume.InterruptionsConverge: does not cover changes of TTL or proxy flag on existing records, because their intermediate states are deliberately observed as unsupported.
- Cloudflare.Adapter.Replace: reads the listing in one step, and holds for every order of the target's values although the source visits them in sorted order; the pages of a long listing and calls that take effect after their timeout are not modelled.
- Cloudflare.AllCallsReachTarget: takes from the API that ids are unique and that all records of a type that cannot be proxied report the same flag.
- Cloudflare.TargetIsObserved: the target has a value, as every compiled configuration does; without one the records are gone.
- TxtSolver.StepKeepsInv: lets a removal start only when no add of the same value is under way, as cleanup does; `RemovalIsSafeExactly` shows that this is exactly when it is safe.
- Reconciler.DnsReconciler.ReconcileProvider: runs without external edits between its steps, because the interleavings are the subject of the state machine in the same module; the writer lease around it is in `Leases`.
- Reconciler.NothingIsResubmitted: follows one reconciler at work; a lease can expire between its renewal and the write or save it allows, so concurrent ones are kept apart only as far as `WritersTakeTurns` says.
- CertStore.Files.LoadCurrent: reads an unchanging directory; a load racing with a store is not modelled.
- CertStore.Files.StoreGeneration: takes the validity of a certificate as a parameter, because parsing and checking it is foreign code.
- Ownership.EveryEdgeServesTheOwner: excludes administrative release and transfer; `TransferIsSafeExactly` and `ReleaseIsSafeExactly` say when they are harmless.
- Policy.WindowBound: treats floating point numbers and durations as real numbers, and needs the clock readings of a key in order and a limit that does not change.
- Policy.SweepIsUnobservable: a take of a dropped key is not older than its drop; `LateTakeFindsFullBucket` shows why.
- Leases.LeaseStore.AcquireScript: does not model the formatting of numbers of fifteen and more digits by Lua.
- RouteStore.PublishSparesOthers: one clock for all Edges and Valkey; clock skew is not modelled.
- UdpReplies.RepliesReachTheirClient: registering a request and sending it are one step, request ids do not start over (no restart of an Edge), and payloads are identified by the request they carry or answer. A delivery is the datagram handed to the client's socket.
- Advertiser.WithdrawnStaysWithdrawn: a command to Valkey runs before its caller gives up on it; one that runs after its timeout and after a later withdrawal is not modelled.
- Permits.BudgetsHold: fairness of waiting and the deadline arithmetic are not modelled, waiting may end at any time.
- Counters wrapping around at 2^64, and hash collisions of bucket keys and route digests.
- QUIC, TLS, HTTP proxying, listeners, health servers, metrics and logging: plumbing over other libraries.
- JWT, mesh PKI and certificate parsing: foreign cryptography.
- WebAssembly plugins: their behaviour lives in the runtime.
- The ACME exchange with the CA, propagation checks and DNS lookups: network clients; only the order of lease, check and store is modelled.
- Route 53 calls, pagination and error mapping: Route 53 is the provider with tickets.
- Configuration loading and validation, except the bounds of rate limits; client address resolution and TCP connection counts: easy single-branch checks.
- Unreadable or corrupt state, journal and `current` files: the source stops with an error.
- JSON, and the choice of routes among peers: they would only add easy members.
