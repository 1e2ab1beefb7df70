# Saga territory contest: a Dafny model

Saga is a Minecraft server plugin. Its factions take land from each other in two ways:

- **Sieges.** A faction declares a siege on a bundle (a group of chunks). After a preparation time, every second it compares the attackers and defenders standing inside the bundle. It adds points to a progress value and hands the bundle to the attacker at +1, or ends the siege at −1.
- **Claims.** A single faction present on a bundle contests it. Its claim progress grows while it holds the bundle and decays minute by minute otherwise.

Around these the model covers three more pieces:

- the **town square** building: a spawn point with a per-second cooldown, and the rule that picks which square a player spawns at;
- the **x-ray indicator**: a bounded flood fill over the ore vein behind a broken block, and a per-material mined-block counter;
- the **kill award** of an entity death: experience, and a statistics entry whose name for player kills is a ten-level range label.

## How it is modelled

Each source class whose methods update fields in place is a Dafny `class` with those fields:

- `SiegeManager` (six hashtables);
- `FactionClaimManager` (three hashtables and the `claimActive` set);
- `TownSquare` (the cooldown fields);
- the mined-block counters.

Hashtables are `map` fields and sets are `set` fields. Every method states its whole new state in terms of a pure specification function on values, and the properties are proved about those functions:

- **SiegeRules**: one bundle's `SiegeView` and what a tick, a reminder or a conclusion does to it; tables as a value `Tables`; `TickAll` for a pass over all bundles; `Repair` for the load-time repair.
- **ClaimRules**: one bundle's `ClaimView`, `ProgressClaim`, `MinuteTick` and `PurgeFaction`.

Loops in the source are `while` loops with invariants:

- the presence scans of `getInitFacton` and `checkProgressClaim`;
- the spawn selection;
- the range label;
- the x-ray set walks and the counter flush;
- the hashtable walks.

A hashtable walk visits a snapshot of the keys taken on entry, in an order Dafny picks. Where the result depends on that order (message logs, `complete`), it is returned as a ghost `order` that is a permutation of the snapshot. `SiegeRules.TickAllOrderIndependent` proves that the tables after a tick do not depend on that order.

What the model takes as inputs:

- **Foreign lookups.** `FactionManager`, `BundleManager`, `ChunkBundleManager` and the players online are directory values: maps and sets.
- **Configuration curves.** Siege points per second, unclaim speed and the building level function are function-typed parameters.
- **The clock.** The time is a `now` parameter in milliseconds.
- **Messages.** Messages and broadcasts are appended to a notice log.
- **The world.** It is a function from block coordinates to material.

Java arithmetic is written out in `JavaInt`:

- 32-bit wrap-around;
- truncating `/` and `%`;
- the saturating `Double.intValue()`.

The source is followed where it differs from its own comments. `getSiegeRemainingMinutes` (SiegeManager.java:237-264) is documented as negative before the start, but it returns `prepareMinutes − passedMinutes`, which is positive before the start. The model returns what the code computes.

## Model

| member | source | states |
|---|---|---|
| JavaInt.Wrap | src/org/saga/factions/SiegeManager.java:172-184 | the `int` an operation leaves: in range, congruent to the exact value modulo 2^32, and the value itself when it fits |
| JavaInt.DivTruncates | src/org/saga/factions/SiegeManager.java:172-184 | Java's long division rounds toward zero: the remainder has the dividend's sign and is smaller than the divisor |
| JavaInt.RemOfDiv | src/org/saga/factions/SiegeManager.java:205-218 | Java's `%` is the remainder of the truncating division, between −b and b with the dividend's sign, and zero exactly when b divides a |
| JavaInt.WrapNegation | src/org/saga/factions/SiegeManager.java:205-207 | `-minutes` wrapping at `Integer.MIN_VALUE` does not change whether it is divisible by the interval |
| JavaInt.DoubleToInt | src/org/saga/buildings/TownSquare.java:172 | `Double.intValue()`: an `int`, rounded toward zero, saturating at both bounds |
| SiegeRules.PassedMinutes | src/org/saga/factions/SiegeManager.java:172-174 | an `int`, the whole minutes elapsed when the elapsed time is non-negative and fits, 0 for less than a minute either way |
| SiegeRules.PassedSeconds | src/org/saga/factions/SiegeManager.java:182-184 | an `int`, the whole seconds elapsed when the elapsed time is non-negative and fits |
| SiegeRules.RemainingMinutes | src/org/saga/factions/SiegeManager.java:261-262 | an `int`; equals the preparation minutes at the moment of declaration |
| SiegeRules.RemainingNonPositiveIffBegun | src/org/saga/factions/SiegeManager.java:261-262 | the remaining minutes are ≤ 0 exactly when the passed minutes reach the preparation time, so reminders and siege ticks agree on when the siege began |
| SiegeRules.RemainingNonIncreasing | src/org/saga/factions/SiegeManager.java:246-264 | as time goes on the remaining minutes never increase |
| SiegeRules.ReminderSecondAligned | src/org/saga/factions/SiegeManager.java:649-651 | `passedMinutes*60 == passedSeconds` holds exactly in the first second of each elapsed minute, so a declaration is reminded at most once a minute |
| SiegeRules.ShouldRemindRule | src/org/saga/factions/SiegeManager.java:204-218 | a reminder passes the interval test in exactly three regimes: in progress, every in-progress interval; soon, every short interval; earlier, every long interval |
| SiegeRules.Sieging | src/org/saga/factions/SiegeManager.java:313-346 | the members kept are exactly those standing in a non-border chunk of the bundle, no more of them than listed |
| SiegeRules.SiegingMultiplicity | src/org/saga/factions/SiegeManager.java:313-346 | each qualifying member is kept as often as it is listed, any other member not at all |
| SiegeRules.SiegingPositionsCount | src/org/saga/factions/SiegeManager.java:280-284 | the number of sieging members is the number of list positions holding a qualifying member |
| SiegeRules.SiegingCount | src/org/saga/factions/SiegeManager.java:280-284 | zero for a faction that does not resolve, otherwise the number of positions of its online list holding a member in a non-border chunk of the bundle (so at most its online members) |
| SiegeRules.Resolve | src/org/saga/factions/SiegeManager.java:592-618 | a faction ID resolves exactly when it is present and known to the faction manager |
| SiegeRules.Tables.View | src/org/saga/factions/SiegeManager.java:44-75 | a bundle has a declaration entry exactly when it is in `declaredSieges` |
| SiegeRules.ConclusionNotices | src/org/saga/factions/SiegeManager.java:511-571 | nothing is sent if the attacker does not resolve; otherwise the attacker hears first, and a resolvable defender hears the opposite outcome second |
| SiegeRules.Conclude | src/org/saga/factions/SiegeManager.java:511-571 | a concluded siege clears the declaration, date, progress and both counts; the attacker becomes owner on success, the owner stays on failure |
| SiegeRules.SiegeTickOutcome | src/org/saga/factions/SiegeManager.java:275-304 | progress becomes old progress (default 0) plus the points of attackers minus defenders (0 defenders when unowned); ≥ 1 is success, ≤ −1 failure, otherwise progress and counts are stored and nothing sent |
| SiegeRules.RemindOutcome | src/org/saga/factions/SiegeManager.java:194-236 | an undated declaration is dropped silently; otherwise the entries stay, and reminders go out exactly when the attacker and bundle resolve and the interval test passes: the attacker first, then the owner if it resolves |
| SiegeRules.SecondTickOutcome | src/org/saga/factions/SiegeManager.java:636-658 | one loop pass leaves the bundle with a dated declaration or none; an undated declaration is dropped; before the preparation ends nothing changes; after it the siege is ticked; reminders only on a reminder second |
| SiegeRules.SetViewViews | src/org/saga/factions/SiegeManager.java:44-75 | replacing one bundle's entries leaves every other bundle's entries as they were |
| SiegeRules.TablesExtensional | src/org/saga/factions/SiegeManager.java:44-75 | the six tables are determined by their per-bundle entries |
| SiegeRules.SetViewUnique | src/org/saga/factions/SiegeManager.java:44-75 | tables that differ only in one bundle's entries are that one replacement |
| SiegeRules.SetViewSame | src/org/saga/factions/SiegeManager.java:44-75 | putting back a bundle's own entries changes nothing |
| SiegeRules.SetViewDropDeclaration | src/org/saga/factions/SiegeManager.java:257 | dropping a bundle's declaration touches only `declaredSieges` |
| SiegeRules.SetViewTwice | src/org/saga/factions/SiegeManager.java:275-304 | of two successive replacements of one bundle's entries only the second counts |
| SiegeRules.TickAllView | src/org/saga/factions/SiegeManager.java:629-665 | after a pass over distinct bundles each bundle's entries are the step applied to its entries before the pass: bundles do not interfere |
| SiegeRules.TickAllStep | src/org/saga/factions/SiegeManager.java:636-658 | visiting one more declared bundle applies the step to the entries it had before the pass and appends its messages |
| SiegeRules.TickAllOrderIndependent | src/org/saga/factions/SiegeManager.java:633-636 | the tables after a second tick do not depend on the order the hashtable yields its keys in |
| SiegeRules.SecondStepSynced | src/org/saga/factions/SiegeManager.java:641-647 | a visited declaration is left dated or removed |
| SiegeRules.TickAllSynced | src/org/saga/factions/SiegeManager.java:629-665 | after a second tick over every declared bundle every remaining declaration has a date |
| SiegeRules.TicksAccumulate | src/org/saga/factions/SiegeManager.java:286-301 | in exact real arithmetic: under a fixed directory each tick adds the same points, so n ticks that stay inside (−1, 1) add n times them and keep the siege |
| SiegeRules.TicksSplit | src/org/saga/factions/SiegeManager.java:629-665 | n + 1 ticks are n ticks and one more while the siege goes on |
| SiegeRules.SiegeDecidedAfterTicks | src/org/saga/factions/SiegeManager.java:286-301 | in exact real arithmetic: a fresh siege is decided on the first tick where n times the points reach +1 (attacker owns) or −1 (owner stays), with its entries cleared |
| SiegeRules.RepairStepAsWritten | src/org/saga/factions/SiegeManager.java:120-146 | one pass of the source's repair only removes declarations and never changes one |
| SiegeRules.RepairAsWrittenShrinks | src/org/saga/factions/SiegeManager.java:120-146 | the source's repair only removes declarations |
| SiegeRules.RepairAsWrittenVisited | src/org/saga/factions/SiegeManager.java:136-141 | every visited declaration that survives is not both dated and self-owned |
| SiegeRules.RepairAsWrittenClearsDatedSelfOwned | src/org/saga/factions/SiegeManager.java:136-141 | after the source's repair no dated declaration is held by the bundle's owner |
| SiegeRules.RepairAsWrittenKeepsDatelessSelfOwned | src/org/saga/factions/SiegeManager.java:128-133 | counterexample: an undated self-owned declaration survives, because the removal uses the faction ID as key |
| SiegeRules.RepairAsWrittenOrphansDate | src/org/saga/factions/SiegeManager.java:136-141 | counterexample: a removed self-owned declaration leaves its date behind, because the date is only read |
| SiegeRules.RepairFilters | src/org/saga/factions/SiegeManager.java:120-146 | the corrected repair, in any order: of the visited bundles exactly the dated, not self-owned declarations remain, and a removed self-owned declaration takes its date with it |
| SiegeRules.RepairFiltersSieges | src/org/saga/factions/SiegeManager.java:120-146 | the declarations half of RepairFilters |
| SiegeRules.RepairFiltersDates | src/org/saga/factions/SiegeManager.java:120-146 | the dates half of RepairFilters |
| SiegeRules.RepairEstablishesPairing | src/org/saga/factions/SiegeManager.java:120-146 | after the corrected repair over all declared bundles every declaration is dated and none is held by the owner |
| Sieges.SiegeManager.constructor | src/org/saga/factions/SiegeManager.java:80-90 | all tables start empty |
| Sieges.SiegeManager.Complete | src/org/saga/factions/SiegeManager.java:96-152 | `complete` as written: declarations as the source's fold leaves them, no dated self-owned one left, other tables kept, counts emptied |
| Sieges.SiegeManager.CompleteRepaired | src/org/saga/factions/SiegeManager.java:96-152 | `complete` corrected: every declaration dated and none self-owned, dates of removed self-owned declarations removed, counts emptied |
| Sieges.SiegeManager.HandleDeclaration | src/org/saga/factions/SiegeManager.java:157-164 | attacker and date for that bundle are written together, replacing any earlier declaration; nothing else changes |
| Sieges.SiegeManager.GetSiegeRemainingMinutes | src/org/saga/factions/SiegeManager.java:246-264 | None without a declaration; None and the declaration removed without a date; otherwise the remaining minutes |
| Sieges.SiegeManager.HandleRemind | src/org/saga/factions/SiegeManager.java:194-236 | the tables and the log change exactly as RemindOutcome describes |
| Sieges.SiegeManager.HandleSiegeTick | src/org/saga/factions/SiegeManager.java:275-304 | the tables and the log change exactly as SiegeTickOutcome describes |
| Sieges.SiegeManager.CountAndProgress | src/org/saga/factions/SiegeManager.java:278-293 | both counts are stored and the returned progress is old progress plus the points of their difference |
| Sieges.SiegeManager.FindSiegingMembers | src/org/saga/factions/SiegeManager.java:313-346 | no one for an unresolved faction, otherwise exactly its members in a non-border chunk of the bundle |
| Sieges.SiegeManager.GetSiegeProgress | src/org/saga/factions/SiegeManager.java:354-358 | the stored progress, 0 when none |
| Sieges.SiegeManager.ModSiegeProgress | src/org/saga/factions/SiegeManager.java:367-374 | the returned sum is old progress plus the amount and is now stored; only the progress table changes |
| Sieges.SiegeManager.GetDeclaredSiegesAttackIDs | src/org/saga/factions/SiegeManager.java:383-394 | exactly the bundles the faction has declared on, each once |
| Sieges.SiegeManager.GetOwnedBundleIDs | src/org/saga/factions/SiegeManager.java:448-459 | exactly the bundles the faction owns, each once |
| Sieges.SiegeManager.GetDeclaredSiegesDefendIDs | src/org/saga/factions/SiegeManager.java:412-428 | exactly the faction's owned bundles that carry a declaration, each once |
| Sieges.SiegeManager.GetAttackerCount | src/org/saga/factions/SiegeManager.java:480-486 | the stored attacker count, 0 when none |
| Sieges.SiegeManager.GetDefenderCount | src/org/saga/factions/SiegeManager.java:494-500 | the stored defender count, 0 when none |
| Sieges.SiegeManager.HandleSiegeSuccess | src/org/saga/factions/SiegeManager.java:511-539 | the bundle's siege entries go, the attacker owns it, and the notices are those of ConclusionNotices |
| Sieges.SiegeManager.HandleSiegeFailure | src/org/saga/factions/SiegeManager.java:547-571 | the bundle's siege entries go, the owner stays, and the notices are those of ConclusionNotices |
| Sieges.SiegeManager.GetOwningID | src/org/saga/factions/SiegeManager.java:582-584 | the owner entry, present exactly when the bundle has one |
| Sieges.SiegeManager.GetOwningFaction | src/org/saga/factions/SiegeManager.java:592-596 | the owner, exactly when there is one and it resolves |
| Sieges.SiegeManager.GetAttackingID | src/org/saga/factions/SiegeManager.java:604-606 | the declaration entry, present exactly when there is one |
| Sieges.SiegeManager.GetAttackingFaction | src/org/saga/factions/SiegeManager.java:614-618 | the declaring faction, exactly when there is one and it resolves |
| Sieges.SiegeManager.TickDeclaration | src/org/saga/factions/SiegeManager.java:638-658 | one loop pass changes the tables and log exactly as SecondTick says |
| Sieges.SiegeManager.RemindIfDue | src/org/saga/factions/SiegeManager.java:649-651 | returns the passed minutes; reminds only on a reminder second and changes no table |
| Sieges.SiegeManager.TickNext | src/org/saga/factions/SiegeManager.java:636-658 | one more pass of the loop moves the state from TickAll over the visited bundles to TickAll over one more |
| Sieges.SiegeManager.ClockSecondTick | src/org/saga/factions/SiegeManager.java:629-665 | answers true; every bundle declared on entry is visited once and the tables and log end as TickAll says |
| ClaimRules.IdOf | src/org/saga/factions/FactionClaimManager.java:134 | a faction compared by its ID, none for none |
| ClaimRules.Candidates | src/org/saga/factions/FactionClaimManager.java:182-207 | only the length bound: no more candidate factions than players; which factions they are is the contract of CandidatesMembers |
| ClaimRules.CandidatesMembers | src/org/saga/factions/FactionClaimManager.java:188-200 | the candidates are exactly the factions of non-member players that have one |
| ClaimRules.CandidatesPrefix | src/org/saga/factions/FactionClaimManager.java:188-200 | the candidates of the first players are a prefix of all candidates |
| ClaimRules.ModifyProgressOutcome | src/org/saga/factions/FactionClaimManager.java:429-444 | the result is old progress (default 0) plus the amount; at or below 0 progress and contester go, otherwise the result is stored; owner and mark stay |
| ClaimRules.ModifyProgressPaired | src/org/saga/factions/FactionClaimManager.java:429-444 | progress stays paired with a contester exactly when the claim lapsed or had a contester |
| ClaimRules.ProgressClaimOutcome | src/org/saga/factions/FactionClaimManager.java:251-287 | at 1 or more contester and progress clear and a resolvable contester takes the bundle with one broadcast; any other result marks the bundle active |
| ClaimRules.ProgressClaimPaired | src/org/saga/factions/FactionClaimManager.java:251-287 | a contested claim keeps progress paired with a contester |
| ClaimRules.MinuteTickOutcome | src/org/saga/factions/FactionClaimManager.java:561-594 | an active bundle only loses its mark; an inactive resolved one decays by the unclaim speed of its settlement level (0 otherwise); an unresolved one is left alone |
| ClaimRules.MinuteTickPaired | src/org/saga/factions/FactionClaimManager.java:561-594 | the minute tick keeps a contested bundle paired |
| ClaimRules.PurgeView | src/org/saga/factions/FactionClaimManager.java:466-486 | after purging a faction a bundle has it neither as owner nor contester; a purged contest loses its progress; other entries stay |
| ClaimRules.ModifyAllSums | src/org/saga/factions/FactionClaimManager.java:429-444 | in exact real arithmetic: while every running total stays above 0, successive modifications keep the contest with old progress plus the sum |
| ClaimRules.ModifyAllLapses | src/org/saga/factions/FactionClaimManager.java:436-439 | once a running total reaches 0 the contester and progress are gone |
| ClaimRules.ClaimTables.View | src/org/saga/factions/FactionClaimManager.java:45-66 | a bundle has a contester entry exactly when it is in `contesters` |
| ClaimRules.SetViewViews | src/org/saga/factions/FactionClaimManager.java:45-66 | replacing one bundle's entries leaves the others as they were |
| ClaimRules.TablesExtensional | src/org/saga/factions/FactionClaimManager.java:45-66 | the tables are determined by their per-bundle entries |
| ClaimRules.PairedViews | src/org/saga/factions/FactionClaimManager.java:45-66 | the tables are paired exactly when every bundle is |
| ClaimRules.SetViewSame | src/org/saga/factions/FactionClaimManager.java:45-66 | putting back a bundle's own entries changes nothing |
| ClaimRules.PurgeFaction | src/org/saga/factions/FactionClaimManager.java:466-486 | every bundle's entries are purged of the faction |
| ClaimRules.PurgeFactionRemovesAll | src/org/saga/factions/FactionClaimManager.java:466-486 | afterwards no owner and no contester is the faction, and pairing is kept |
| ClaimRules.ProgressClaimKeepsPaired | src/org/saga/factions/FactionClaimManager.java:251-287 | progressing a contested claim keeps every bundle's progress paired with a contester |
| Claims.FactionClaimManager.constructor | src/org/saga/factions/FactionClaimManager.java:72-81 | all tables start empty |
| Claims.FactionClaimManager.Complete | src/org/saga/factions/FactionClaimManager.java:87-110 | the active marks start empty; the persisted tables stay |
| Claims.FactionClaimManager.GetInitFaction | src/org/saga/factions/FactionClaimManager.java:182-207 | a faction exactly when the non-member players with a faction all share one, and then it is theirs |
| Claims.FactionClaimManager.CheckInitiation | src/org/saga/factions/FactionClaimManager.java:121-161 | true exactly when there is one initiating faction, it is not the owner, the bundle is uncontested, and for an owned bundle both factions meet the member threshold |
| Claims.FactionClaimManager.Initiate | src/org/saga/factions/FactionClaimManager.java:169-173 | the faction becomes contester, nothing else changes, pairing kept |
| Claims.FactionClaimManager.CheckProgressClaim | src/org/saga/factions/FactionClaimManager.java:219-243 | true exactly when the bundle is contested, no player present belongs to another faction, and one belongs to the contester |
| Claims.FactionClaimManager.ProgressClaim | src/org/saga/factions/FactionClaimManager.java:251-287 | the tables and broadcasts change as ProgressClaimOutcome describes; pairing kept on a contested bundle |
| Claims.FactionClaimManager.GetOwningId | src/org/saga/factions/FactionClaimManager.java:298-300 | the owner entry, present exactly when there is one |
| Claims.FactionClaimManager.SetOwningId | src/org/saga/factions/FactionClaimManager.java:309-311 | the faction owns the bundle; nothing else changes |
| Claims.FactionClaimManager.GetOwningFaction | src/org/saga/factions/FactionClaimManager.java:319-326 | the owner, exactly when present and resolvable |
| Claims.FactionClaimManager.HasOwner | src/org/saga/factions/FactionClaimManager.java:334-336 | true exactly when there is an owner entry |
| Claims.FactionClaimManager.IsContested | src/org/saga/factions/FactionClaimManager.java:345-349 | true exactly when there is a contester entry |
| Claims.FactionClaimManager.GetContester | src/org/saga/factions/FactionClaimManager.java:357-364 | the contester, −1 when none |
| Claims.FactionClaimManager.GetContesterFaction | src/org/saga/factions/FactionClaimManager.java:372-379 | the faction of the contester ID (−1 included), exactly when it resolves |
| Claims.FactionClaimManager.SetContester | src/org/saga/factions/FactionClaimManager.java:388-392 | the faction becomes contester; the old one is returned; nothing else changes |
| Claims.FactionClaimManager.ClearContester | src/org/saga/factions/FactionClaimManager.java:400-404 | the contester is removed and returned; nothing else changes |
| Claims.FactionClaimManager.GetProgress | src/org/saga/factions/FactionClaimManager.java:413-420 | the progress, 0 when none |
| Claims.FactionClaimManager.ModifyProgress | src/org/saga/factions/FactionClaimManager.java:429-444 | the tables change and the sum is returned as ModifyProgressOutcome describes |
| Claims.FactionClaimManager.ClearProgress | src/org/saga/factions/FactionClaimManager.java:452-456 | the progress is removed and returned; nothing else changes |
| Claims.FactionClaimManager.RemoveFaction | src/org/saga/factions/FactionClaimManager.java:466-486 | the tables become PurgeFaction of the old ones |
| Claims.FactionClaimManager.RemoveOwnerEntries | src/org/saga/factions/FactionClaimManager.java:469-475 | exactly the owner entries of the faction go |
| Claims.FactionClaimManager.RemoveContests | src/org/saga/factions/FactionClaimManager.java:477-484 | exactly the contests of the faction go, each with its progress |
| Claims.FactionClaimManager.RemoveBundle | src/org/saga/factions/FactionClaimManager.java:493-499 | the owner, progress and contester of the bundle go; pairing kept |
| Claims.FactionClaimManager.FindSettlements | src/org/saga/factions/FactionClaimManager.java:508-530 | exactly the settlements among the faction's resolvable owned bundles, each once |
| Claims.FactionClaimManager.GetLevels | src/org/saga/factions/FactionClaimManager.java:538-550 | a new array of the same length holding each settlement's level in order |
| Claims.FactionClaimManager.ClockMinuteTick | src/org/saga/factions/FactionClaimManager.java:561-594 | answers true; each contested bundle gets MinuteTick, others are untouched; pairing kept |
| Claims.FactionClaimManager.MinuteTickBundle | src/org/saga/factions/FactionClaimManager.java:566-590 | one bundle gets MinuteTick and no other changes |
| TownSquares.TicksCountDown | src/org/saga/buildings/TownSquare.java:147-161 | a cooldown started at s seconds has s − k left after k < s ticks and has stopped after s |
| TownSquares.TicksStopped | src/org/saga/buildings/TownSquare.java:150-152 | a stopped cooldown stays stopped |
| TownSquares.TownSquare.constructor | src/org/saga/buildings/TownSquare.java:64-70 | spawning on, no cooldown, not subscribed |
| TownSquares.TownSquare.CompleteExtended | src/org/saga/buildings/TownSquare.java:78-98 | a missing `spawnEnabled` becomes true and the answer false; the cooldown starts stopped at 0 |
| TownSquares.TownSquare.Disable | src/org/saga/buildings/TownSquare.java:127-137 | leaves the second tick only when on cooldown; the cooldown fields stay |
| TownSquares.TownSquare.ClockSecondTick | src/org/saga/buildings/TownSquare.java:147-161 | the cooldown takes one Tick (a wrapping decrement, stopping at ≤ 0); stopping leaves the second tick |
| TownSquares.TownSquare.StartCooldown | src/org/saga/buildings/TownSquare.java:167-177 | on cooldown for the level function's value as an `int`, subscribed |
| TownSquares.TownSquare.StopCooldown | src/org/saga/buildings/TownSquare.java:183-193 | off cooldown at 0, unsubscribed |
| TownSquares.TownSquare.GetCooldown | src/org/saga/buildings/TownSquare.java:200-202 | the seconds left |
| TownSquares.TownSquare.IsOnCooldown | src/org/saga/buildings/TownSquare.java:209-211 | whether the cooldown runs |
| TownSquares.SelectSpawn | src/org/saga/buildings/TownSquare.java:391-403 | the first square not on cooldown, if any (all earlier ones are on cooldown); the smallest cooldown among those looked at, starting from `Integer.MAX_VALUE` |
| TownSquares.Spawn | src/org/saga/buildings/TownSquare.java:378-429 | refused as `NoPermission` exactly without permission, and as `NoTownSquare` exactly with permission and no square; all on cooldown reports the smallest cooldown; otherwise the first free square spawns the player when a location is found, starts its cooldown and is subscribed; no other square's cooldown or subscription changes, and no square's `spawnEnabled` or level |
| Xray.GetVein | src/org/saga/statistics/XrayIndicator.java:154-191 | the first neighbour in the order N, E, S, W, up, down that is an ore; none exactly when no neighbour is |
| Xray.GetRelative | src/org/saga/statistics/XrayIndicator.java:201-254 | nothing when the anchor was visited or depth < 1; otherwise the anchor is a target; the sets only grow; new targets are the anchor or ores less than `depth` steps away; new others are not ores; each new target's non-ore neighbours are others |
| Xray.Visit | src/org/saga/statistics/XrayIndicator.java:211-216 | one face: an ore neighbour is filled from with one less depth, any other joins the others |
| Xray.Vetoed | src/org/saga/statistics/XrayIndicator.java:129-131 | true exactly when some other block is air, water or stationary water |
| Xray.RecordVein | src/org/saga/statistics/XrayIndicator.java:134-143 | each distinct material among the targets is recorded exactly once |
| Xray.OnBlockBreak | src/org/saga/statistics/XrayIndicator.java:105-146 | only stone, dirt and gravel count; stone is recorded first; with no vein nothing more; a vein that touches air or water records nothing more; otherwise each of its materials, all ores, exactly once |
| Xray.MinedBlocks.Count | src/org/saga/statistics/XrayIndicator.java:59 | a material's counter, 0 when missing |
| Xray.MinedBlocks.Add | src/org/saga/statistics/XrayIndicator.java:49 | raises one counter and returns its new value |
| Xray.MinedBlocks.Clear | src/org/saga/statistics/XrayIndicator.java:60 | one counter returns to 0 |
| Xray.Flush | src/org/saga/statistics/XrayIndicator.java:54-62 | each of the given materials is reported once with its count and cleared; other counters stay |
| Xray.HandleMine | src/org/saga/statistics/XrayIndicator.java:38-68 | cancelled breaks and non-x-ray materials change nothing; otherwise the counter rises by 1, and stone at the threshold reports and clears every x-ray material |
| EntityDeath.NatToString | src/org/saga/listeners/events/SagaEntityDeathEvent.java:99 | non-empty decimal digits without a leading zero |
| EntityDeath.ParseNatToString | src/org/saga/listeners/events/SagaEntityDeathEvent.java:99 | reading the digits back gives the number |
| EntityDeath.IntToString | src/org/saga/listeners/events/SagaEntityDeathEvent.java:97-99 | Java's rendering of an `int`: digits, with a leading minus when negative |
| EntityDeath.IntToStringInjective | src/org/saga/listeners/events/SagaEntityDeathEvent.java:97-99 | different numbers render differently |
| EntityDeath.BucketTop | src/org/saga/listeners/events/SagaEntityDeathEvent.java:92-94 | the least multiple of 10 that is at least the level |
| EntityDeath.RangeLabel | src/org/saga/listeners/events/SagaEntityDeathEvent.java:90-105 | the loop with `break` gives LevelRange: "level 0" for 0, "levels (m−9)-m" for the bucket top m when m fits under the maximum, "" above the last bucket |
| EntityDeath.SameLabelSameBucket | src/org/saga/listeners/events/SagaEntityDeathEvent.java:92-101 | two labelled levels ≥ 1 share a label exactly when they lie in the same ten-level bucket |
| EntityDeath.BucketInjective | src/org/saga/listeners/events/SagaEntityDeathEvent.java:99 | different bucket tops give different labels |
| EntityDeath.LevelRangeEmpty | src/org/saga/listeners/events/SagaEntityDeathEvent.java:91-105 | a level ≥ 1 has no label exactly when it is above the last multiple of 10 not above the maximum |
| EntityDeath.Apply | src/org/saga/listeners/events/SagaEntityDeathEvent.java:47-111 | nothing without a damage event; award and statistics come together with the same amount; a creature kill takes precedence over a player kill; a spawner-tagged creature gives multiplied experience under "creature(spawner)" and rescales the dropped experience; a player kill is recorded as "player" with the range label |

## Left out

- Persistence: `load`, `save` and `unload` of both managers, the JSON reader, and the null-field repair at the top of each `complete`. These are file I/O, and the model's tables are never null.
- Clock registration: `Clock.registerSecondTick` and `unregisterSecondTick` are a `subscribed` flag on `TownSquare`. The managers' own clock registration is not modelled. `System.currentTimeMillis()` is the `now` parameter. `long` overflow of `now − declared` is ignored.
- Iteration order: hashtable and `HashSet` walks visit a snapshot of the keys taken on entry. Java's fail-fast iterators would throw `ConcurrentModificationException` at the next step after a removal from the walked table during the walk. The model instead lets those loops run to the end. The sites are:
  - `complete`: SiegeManager.java:139, and :132 when a bundle with the faction's ID as key exists. So Sieges.SiegeManager.Complete proves the reset of `attackers` and `defenders` (:148-149), which Java reaches only when no such removal happened.
  - `clockSecondTick`: the removal at SiegeManager.java:645, and the removals at :520-521 and :556-557, reached through :297 and :300.
  - `removeFaction`: FactionClaimManager.java:473 and :481.
  - `clockMinuteTick`: FactionClaimManager.java:436, reached through :586.
- Progress is a Java `double` (`Double` at SiegeManager.java:293 and :367-374, and at FactionClaimManager.java:432). The model takes progress, siege points and unclaim speeds as exact reals. The rounding of repeated `double` addition, and `NaN`, are not modelled.
- TicksAccumulate: the progress after n ticks is exactly n times the points only in real arithmetic. With `double` progress, ten ticks of 0.1 give 0.9999999999999999.
- SiegeDecidedAfterTicks: the deciding tick is the first n with n × points ≥ 1 or ≤ −1 in real arithmetic. The accumulated `double` of the source can decide a tick later.
- ModifyAllSums: the stored progress is old progress plus the exact sum of the amounts. The source's `double` additions round at each step.
- Clock reads: the source calls `System.currentTimeMillis()` separately in `calcPassedMinutes` (SiegeManager.java:173) and `calcPassedSeconds` (:183), also when `handleRemind` asks for the remaining minutes (:198, :261). The model uses one `now` for each pass of the second-tick loop, and for each single call.
- `Integer` identity: `removeFaction` compares `Integer` objects with `==` (FactionClaimManager.java:473, :479). It is modelled as value equality. The `Faction` reference comparisons at FactionClaimManager.java:134, :197 and :233-234 are modelled as equality of faction IDs, through `ClaimRules.IdOf`.
- Sieges.SiegeManager.HandleSiegeSuccess: when the attacker does not resolve, the source throws a `NullPointerException` at SiegeManager.java:535, after updating the tables and before sending messages. The model stops at the same point: tables updated, no messages. It does not model the exception propagating, so `clockSecondTick` goes on with the next bundle.
- Sieges.SiegeManager.HandleSiegeFailure: the same holds for an unresolved attacker at SiegeManager.java:568. Tables are updated, no messages are sent, and the exception out of `clockSecondTick` is not modelled.
- `getDeclaredSiegesAttack`, `getDeclaredSiegesDefend` and `getOwnedBundles`: they only map the modelled ID lists through `BundleManager`.
- Claims.FactionClaimManager.ModifyProgress: on an uncontested bundle the source stores progress without a contester. The model does the same, so the pairing of progress and contester is only preserved on contested bundles. `claimActive` marks also persist for bundles that are no longer contested, as in the source.
- Claims.FactionClaimManager.CheckProgressClaim: a player without a faction matches an unresolved contester (a null compared with null), as in the source.
- `getInitFacton` and `checkProgressClaim` take the players present as a list. The chunk lookup that produces them is not modelled.
- TownSquares.Spawn: argument parsing and the chunk-group lookup (TownSquare.java:354-376) are left out. The permission test is the `permitted` input. `prepareChunk`, the random spread of `getSpawnLocation` and teleporting are folded into the `located` input.
- `onMemberRespawn`, `onPvP` and `onPlayerDamagedByCreature` of `TownSquare`: these are event hooks outside the cooldown and spawn logic.
- `super.disable()` of `Building` is not part of this model.
- TownSquares.TownSquare.StartCooldown: the level function's value is taken as an exact real. Floating point, and `NaN` (which `intValue()` maps to 0), are not modelled.
- EntityDeath.RangeLabel: requires `maximumLevel ≤ Integer.MAX_VALUE − 10`. Above that, `maxi += 10` wraps and the loop may not end.
- EntityDeath.Apply: creature experience, player experience and the creature's statistics name are inputs. The lookups behind them (`getExp`, the class-name rewriting at SagaEntityDeathEvent.java:77) are not modelled. `TwoPointFunction.randomRound` is the `randomRound` parameter. The experience is an exact real, not a `Double`.
- The constructor of `SagaEntityDeathEvent` that wraps the damage cause: the damage event is the `damage` input, `None` when there is none.
- `SagaPlayer.java`, `StatisticsManager.java` and `ExperienceConfiguration.java` are not part of this model. `addMinedBlocks`, `getMinedBlocks` and `clearMinedBlocks` are modelled as a counter map with default 0 whose clear removes the entry. Statistics calls are returned as reports or recorded materials. `xrayUpdateInterval` is the `updateInterval` parameter.
- Xray: the world is a fixed function from coordinates to material during a break. A `null` broken block is the `None` input. Materials outside the sets the indicator names are one `OtherMaterial` case.

## Findings

| source | as written | input that shows it | evidently intended | confidence | as-written member | corrected member |
|---|---|---|---|---|---|---|
| src/org/saga/factions/SiegeManager.java:132 | an undated declaration is removed with `declaredSieges.remove(factionID)`, keyed by the faction ID | bundle 1 declared by faction 2, which owns it, with no date: key 2 is removed and the declaration on bundle 1 stays | `declaredSieges.remove(bundleID)`, as the log line "removing declaration" says | high; not executed | SiegeRules.RepairAsWrittenKeepsDatelessSelfOwned | Sieges.SiegeManager.CompleteRepaired |
| src/org/saga/factions/SiegeManager.java:140 | the date of a self-owned declaration is read with `declaredDates.get(bundleID)` and the result discarded | bundle 1 declared and dated by faction 2, which owns it: the declaration goes and the date stays behind | `declaredDates.remove(bundleID)`, removing the date with its declaration | high; not executed | SiegeRules.RepairAsWrittenOrphansDate | SiegeRules.RepairFilters |
