/**
 * `SiegeManager`: the siege engine's tables, keyed by bundle ID and updated in place, and
 * the operations on them. Every operation is proved against the rules of SiegeRules.
 */
module Sieges {
  import opened Options
  import JavaInt
  import opened SiegeRules

  class SiegeManager {
    /** Bundle ID to the ID of the faction that declared a siege on it. */
    var declaredSieges: map<int, int>
    /** Bundle ID to the declaration time, in milliseconds. */
    var declaredDates: map<int, int>
    /** Bundle ID to the siege progress, in (-1, +1) while the siege runs. */
    var siegeProgresses: map<int, real>
    /** Bundle ID to the ID of the faction that owns it. */
    var owningFaction: map<int, int>
    /** Bundle ID to the attackers present at the last tick (not persisted). */
    var attackers: map<int, int>
    /** Bundle ID to the defenders present at the last tick (not persisted). */
    var defenders: map<int, int>
    /** The messages sent to factions, oldest first. */
    var notices: seq<Notice>

    /** The six tables as one value. */
    function State(): Tables
      reads this
    {
      Tables(declaredSieges, declaredDates, siegeProgresses, owningFaction, attackers, defenders)
    }

    /** The entries of one bundle. */
    function View(bundle: int): SiegeView
      reads this
    {
      State().View(bundle)
    }

    /** The named constructor: all tables empty. */
    constructor ()
      ensures State() == Tables(map[], map[], map[], map[], map[], map[]) && notices == []
    {
      declaredSieges := map[];
      declaredDates := map[];
      siegeProgresses := map[];
      owningFaction := map[];
      attackers := map[];
      defenders := map[];
      notices := [];
    }

    // Load-time repair.

    /**
     * `complete`: drops declarations as the source's loop does (see RepairAsWritten) and
     * resets the transient counts. The bundles are visited in `order`, the hashtable's
     * order over the keys present on entry.
     */
    method Complete() returns (ghost order: seq<int>)
      modifies this
      ensures Distinct(order) && forall b :: b in order <==> b in old(declaredSieges)
      ensures declaredSieges == RepairAsWritten(old(declaredSieges), old(declaredDates), old(owningFaction), order)
      ensures forall b :: b in declaredSieges && b in declaredDates ==> !SelfOwned(declaredSieges, owningFaction, b)
      ensures declaredDates == old(declaredDates) && siegeProgresses == old(siegeProgresses)
      ensures owningFaction == old(owningFaction) && notices == old(notices)
      ensures attackers == map[] && defenders == map[]
    {
      ghost var d0 := declaredSieges;
      var todo := declaredSieges.Keys;
      order := [];
      while exists b :: b in todo
        invariant Distinct(order)
        invariant forall b :: b in order ==> b !in todo
        invariant forall b :: b in d0 <==> b in order || b in todo
        invariant declaredSieges == RepairAsWritten(d0, declaredDates, owningFaction, order)
        invariant declaredDates == old(declaredDates) && siegeProgresses == old(siegeProgresses)
        invariant owningFaction == old(owningFaction) && notices == old(notices)
        decreases |todo|
      {
        var b :| b in todo;
        if b in declaredSieges {
          var factionID := declaredSieges[b];
          if b !in declaredDates {
            declaredSieges := declaredSieges - {factionID};
          } else if b in owningFaction && owningFaction[b] == factionID {
            declaredSieges := declaredSieges - {b};
          }
        }
        assert (order + [b])[..|order|] == order;
        order := order + [b];
        todo := todo - {b};
      }
      attackers := map[];
      defenders := map[];
      RepairAsWrittenClearsDatedSelfOwned(d0, declaredDates, owningFaction, order);
    }

    /**
     * `complete` as its messages say it should behave: an undated declaration is removed
     * under its bundle ID, and a self-owned one is removed together with its date. Afterwards
     * every declaration is dated and none is held by the bundle's owner.
     */
    method CompleteRepaired() returns (ghost order: seq<int>)
      modifies this
      ensures Distinct(order) && forall b :: b in order <==> b in old(declaredSieges)
      ensures Declarations(declaredSieges, declaredDates) ==
        Repair(Declarations(old(declaredSieges), old(declaredDates)), old(owningFaction), order)
      ensures forall b :: b in declaredSieges ==> b in declaredDates && !SelfOwned(declaredSieges, owningFaction, b)
      ensures siegeProgresses == old(siegeProgresses) && owningFaction == old(owningFaction) && notices == old(notices)
      ensures attackers == map[] && defenders == map[]
    {
      ghost var d0 := Declarations(declaredSieges, declaredDates);
      var todo := declaredSieges.Keys;
      order := [];
      while exists b :: b in todo
        invariant Distinct(order)
        invariant forall b :: b in order ==> b !in todo
        invariant forall b :: b in d0.sieges <==> b in order || b in todo
        invariant Declarations(declaredSieges, declaredDates) == Repair(d0, owningFaction, order)
        invariant siegeProgresses == old(siegeProgresses)
        invariant owningFaction == old(owningFaction) && notices == old(notices)
        decreases |todo|
      {
        var b :| b in todo;
        if b in declaredSieges {
          var factionID := declaredSieges[b];
          if b !in declaredDates {
            declaredSieges := declaredSieges - {b};
          } else if b in owningFaction && owningFaction[b] == factionID {
            declaredSieges := declaredSieges - {b};
            declaredDates := declaredDates - {b};
          }
        }
        assert (order + [b])[..|order|] == order;
        order := order + [b];
        todo := todo - {b};
      }
      attackers := map[];
      defenders := map[];
      RepairEstablishesPairing(d0, owningFaction, order);
    }

    // Declaration and timing.

    /** `handleDeclaration`: records (or replaces) the declaration on `bundle` with the time `now`. */
    method HandleDeclaration(factionID: int, bundle: int, now: int)
      modifies this
      ensures declaredSieges == old(declaredSieges)[bundle := factionID]
      ensures declaredDates == old(declaredDates)[bundle := now]
      ensures siegeProgresses == old(siegeProgresses) && owningFaction == old(owningFaction)
      ensures attackers == old(attackers) && defenders == old(defenders) && notices == old(notices)
      ensures View(bundle).Synced()
    {
      declaredSieges := declaredSieges[bundle := factionID];
      declaredDates := declaredDates[bundle := now];
    }

    /**
     * `getSiegeRemainingMinutes`: None for an undeclared bundle; a declaration without a
     * date is removed and None returned; otherwise the remaining minutes.
     */
    method GetSiegeRemainingMinutes(bundle: int, now: int, cfg: SiegeConfig) returns (minutes: Option<int>)
      modifies this
      ensures bundle !in old(declaredSieges) ==> minutes.None? && declaredSieges == old(declaredSieges)
      ensures bundle in old(declaredSieges) && bundle !in declaredDates ==>
        minutes.None? && declaredSieges == old(declaredSieges) - {bundle}
      ensures bundle in old(declaredSieges) && bundle in declaredDates ==>
        minutes == Some(RemainingMinutes(cfg.prepareMinutes, declaredDates[bundle], now))
        && declaredSieges == old(declaredSieges)
      ensures declaredDates == old(declaredDates) && siegeProgresses == old(siegeProgresses)
      ensures owningFaction == old(owningFaction) && notices == old(notices)
      ensures attackers == old(attackers) && defenders == old(defenders)
    {
      if bundle !in declaredSieges {
        return None;
      }
      if bundle !in declaredDates {
        declaredSieges := declaredSieges - {bundle};
        return None;
      }
      minutes := Some(JavaInt.Wrap(cfg.prepareMinutes - PassedMinutes(declaredDates[bundle], now)));
    }

    /** `handleRemind`: the remaining minutes, the interval test, then the reminder messages. */
    method HandleRemind(bundle: int, now: int, dir: Directory, cfg: SiegeConfig)
      requires cfg.Valid()
      modifies this
      ensures State() == SetView(old(State()), bundle, Remind(old(View(bundle)), dir, bundle, now, cfg).0)
      ensures notices == old(notices) + Remind(old(View(bundle)), dir, bundle, now, cfg).1
    {
      ghost var t0 := State();
      ghost var r := Remind(t0.View(bundle), dir, bundle, now, cfg);
      var minutes := GetSiegeRemainingMinutes(bundle, now, cfg);
      if bundle in t0.declaredSieges && bundle !in t0.declaredDates {
        SetViewDropDeclaration(t0, bundle);
      } else {
        SetViewSame(t0, bundle);
      }
      assert State() == SetView(t0, bundle, r.0);
      // The source returns early at each failed test; the nested tests below are the same.
      if minutes.Some? && ShouldRemind(minutes.value, cfg) {
        var attacker := GetAttackingFaction(bundle, dir);
        var defender := GetOwningFaction(bundle, dir);
        if attacker.Some? && bundle in dir.bundles {
          notices := notices + [AttackReminder(attacker.value, bundle)];
          if defender.Some? {
            notices := notices + [DefendReminder(defender.value, bundle)];
          }
        }
      }
    }

    // Sieges.

    /**
     * `handleSiegeTick`: counts both sides, stores the counts, adds the points of their
     * difference to the progress and concludes the siege at +1 or -1.
     */
    method HandleSiegeTick(attackerID: int, bundle: int, dir: Directory, cfg: SiegeConfig)
      modifies this
      ensures State() == SetView(old(State()), bundle, SiegeTick(old(View(bundle)), dir, bundle, attackerID, cfg).0)
      ensures notices == old(notices) + SiegeTick(old(View(bundle)), dir, bundle, attackerID, cfg).1
    {
      ghost var t0 := State();
      ghost var v0 := View(bundle);
      var progress := CountAndProgress(attackerID, bundle, dir, cfg);
      ghost var v1 := View(bundle);
      ghost var ticked := SiegeTick(v0, dir, bundle, attackerID, cfg);
      if progress >= 1.0 {
        HandleSiegeSuccess(bundle, attackerID, dir);
        SetViewTwice(t0, bundle, v1, Conclude(v1, dir, bundle, attackerID, true).0);
        assert ticked.1 == Conclude(v1, dir, bundle, attackerID, true).1;
      } else if progress <= -1.0 {
        HandleSiegeFailure(bundle, attackerID, dir);
        SetViewTwice(t0, bundle, v1, Conclude(v1, dir, bundle, attackerID, false).0);
        assert ticked.1 == Conclude(v1, dir, bundle, attackerID, false).1;
      } else {
        assert ticked.1 == [];
      }
    }

    /**
     * The first half of `handleSiegeTick`: the counts of both sides are stored and the points
     * of their difference added to the progress, which is returned.
     */
    method CountAndProgress(attackerID: int, bundle: int, dir: Directory, cfg: SiegeConfig) returns (progress: real)
      modifies this
      ensures progress == old(View(bundle)).progress.GetOr(0.0) + TickPoints(old(View(bundle)), dir, bundle, attackerID, cfg)
      ensures State() == SetView(old(State()), bundle, old(View(bundle)).(progress := Some(progress),
        attackers := Some(SiegingCount(dir, attackerID, bundle)),
        defenders := Some(if old(View(bundle)).owner.Some? then SiegingCount(dir, old(View(bundle)).owner.value, bundle) else 0)))
      ensures notices == old(notices)
    {
      ghost var t0 := State();
      ghost var v0 := View(bundle);
      var defenderID := Lookup(owningFaction, bundle);
      var attackerMembers := FindSiegingMembers(attackerID, bundle, dir);
      var defenderMembers: seq<Member> := [];
      if defenderID.Some? {
        defenderMembers := FindSiegingMembers(defenderID.value, bundle, dir);
      }
      attackers := attackers[bundle := |attackerMembers|];
      defenders := defenders[bundle := |defenderMembers|];
      var difference := |attackerMembers| - |defenderMembers|;
      progress := ModSiegeProgress(bundle, cfg.ptsPerSecond(difference));
      StoreSame(t0.declaredSieges, bundle);
      StoreSame(t0.declaredDates, bundle);
      StoreSame(t0.owningFaction, bundle);
    }

    /**
     * `findSiegingMembers`: the online members of the faction standing inside the bundle
     * and off its border, in list order; none when the faction does not resolve.
     */
    method FindSiegingMembers(factionID: int, bundle: int, dir: Directory) returns (sieging: seq<Member>)
      ensures factionID !in dir.online ==> sieging == []
      ensures factionID in dir.online ==> sieging == Sieging(dir.online[factionID], bundle)
    {
      if factionID !in dir.online {
        return [];
      }
      var members := dir.online[factionID];
      sieging := [];
      var i := 0;
      while i < |members|
        invariant 0 <= i <= |members|
        invariant sieging == Sieging(members[..i], bundle)
      {
        SiegingStep(members, bundle, i);
        if IsSieging(members[i], bundle) {
          sieging := sieging + [members[i]];
        }
        i := i + 1;
      }
      assert members[..|members|] == members;
    }

    /** `getSiegeProgress`: the stored progress, 0 when there is none. */
    function GetSiegeProgress(bundle: int): (p: real)
      reads this
      ensures bundle in siegeProgresses ==> p == siegeProgresses[bundle]
      ensures bundle !in siegeProgresses ==> p == 0.0
    {
      View(bundle).progress.GetOr(0.0)
    }

    /** `modSiegeProgress`: adds `mod` to the progress and returns the sum, which is now stored. */
    method ModSiegeProgress(bundle: int, mod: real) returns (amount: real)
      modifies this
      ensures amount == old(GetSiegeProgress(bundle)) + mod
      ensures GetSiegeProgress(bundle) == amount
      ensures siegeProgresses == old(siegeProgresses)[bundle := amount]
      ensures declaredSieges == old(declaredSieges) && declaredDates == old(declaredDates)
      ensures owningFaction == old(owningFaction) && notices == old(notices)
      ensures attackers == old(attackers) && defenders == old(defenders)
    {
      amount := GetSiegeProgress(bundle) + mod;
      siegeProgresses := siegeProgresses[bundle := amount];
    }

    // Queries.

    /** `getDeclaredSiegesAttackIDs`: the bundles on which the faction has declared a siege. */
    method GetDeclaredSiegesAttackIDs(factionID: int) returns (ids: seq<int>)
      ensures Distinct(ids)
      ensures forall b :: b in ids <==> b in declaredSieges && declaredSieges[b] == factionID
    {
      var todo := declaredSieges.Keys;
      ids := [];
      while exists b :: b in todo
        invariant todo <= declaredSieges.Keys
        invariant Distinct(ids)
        invariant forall b :: b in ids <==> b !in todo && b in declaredSieges && declaredSieges[b] == factionID
        decreases |todo|
      {
        var b :| b in todo;
        if declaredSieges[b] == factionID {
          ids := ids + [b];
        }
        todo := todo - {b};
      }
    }

    /** `getOwnedBundleIDs`: the bundles the faction owns. */
    method GetOwnedBundleIDs(factionID: int) returns (ids: seq<int>)
      ensures Distinct(ids)
      ensures forall b :: b in ids <==> b in owningFaction && owningFaction[b] == factionID
    {
      var todo := owningFaction.Keys;
      ids := [];
      while exists b :: b in todo
        invariant todo <= owningFaction.Keys
        invariant Distinct(ids)
        invariant forall b :: b in ids <==> b !in todo && b in owningFaction && owningFaction[b] == factionID
        decreases |todo|
      {
        var b :| b in todo;
        if owningFaction[b] == factionID {
          ids := ids + [b];
        }
        todo := todo - {b};
      }
    }

    /** `getDeclaredSiegesDefendIDs`: the owned bundles on which some faction has declared a siege. */
    method GetDeclaredSiegesDefendIDs(factionID: int) returns (ids: seq<int>)
      ensures Distinct(ids)
      ensures forall b :: b in ids <==> b in owningFaction && owningFaction[b] == factionID && b in declaredSieges
    {
      var owned := GetOwnedBundleIDs(factionID);
      ids := [];
      var i := 0;
      while i < |owned|
        invariant 0 <= i <= |owned|
        invariant Distinct(ids)
        invariant forall b :: b in ids <==> b in owned[..i] && b in declaredSieges
      {
        if owned[i] in declaredSieges {
          assert owned[i] !in owned[..i];
          ids := ids + [owned[i]];
        }
        assert owned[..i + 1] == owned[..i] + [owned[i]];
        i := i + 1;
      }
      assert owned[..|owned|] == owned;
    }

    /** `getAttackerCount`: the attackers counted at the last tick, 0 when none is stored. */
    function GetAttackerCount(bundle: int): (n: int)
      reads this
      ensures bundle in attackers ==> n == attackers[bundle]
      ensures bundle !in attackers ==> n == 0
    {
      View(bundle).attackers.GetOr(0)
    }

    /** `getDefenderCount`: the defenders counted at the last tick, 0 when none is stored. */
    function GetDefenderCount(bundle: int): (n: int)
      reads this
      ensures bundle in defenders ==> n == defenders[bundle]
      ensures bundle !in defenders ==> n == 0
    {
      View(bundle).defenders.GetOr(0)
    }

    // Concluding.

    /**
     * `handleSiegeSucess`: clears the bundle's siege entries and makes the attacker the
     * owner, then tells the attacker and the previous owner.
     */
    method HandleSiegeSuccess(bundle: int, attackerID: int, dir: Directory)
      modifies this
      ensures State() == SetView(old(State()), bundle, Conclude(old(View(bundle)), dir, bundle, attackerID, true).0)
      ensures notices == old(notices) + Conclude(old(View(bundle)), dir, bundle, attackerID, true).1
    {
      ghost var t0 := State();
      var defenderID := Lookup(owningFaction, bundle);
      siegeProgresses := siegeProgresses - {bundle};
      declaredSieges := declaredSieges - {bundle};
      declaredDates := declaredDates - {bundle};
      attackers := attackers - {bundle};
      defenders := defenders - {bundle};
      owningFaction := owningFaction[bundle := attackerID];
      assert State() == SetView(t0, bundle, Conclude(t0.View(bundle), dir, bundle, attackerID, true).0);
      var attacker := Resolve(dir, Some(attackerID));
      var defender := Resolve(dir, defenderID);
      // The source dereferences the attacker here: an unresolved one stops before any message.
      if attacker.Some? {
        notices := notices + [AttackSuccess(attacker.value, bundle)];
        if defender.Some? {
          notices := notices + [DefendFailure(defender.value, bundle)];
        }
      }
    }

    /**
     * `handleSiegeFailure`: clears the bundle's siege entries, keeping the owner, then
     * tells the attacker and the owner.
     */
    method HandleSiegeFailure(bundle: int, attackerID: int, dir: Directory)
      modifies this
      ensures State() == SetView(old(State()), bundle, Conclude(old(View(bundle)), dir, bundle, attackerID, false).0)
      ensures notices == old(notices) + Conclude(old(View(bundle)), dir, bundle, attackerID, false).1
    {
      ghost var t0 := State();
      var defenderID := Lookup(owningFaction, bundle);
      siegeProgresses := siegeProgresses - {bundle};
      declaredSieges := declaredSieges - {bundle};
      declaredDates := declaredDates - {bundle};
      attackers := attackers - {bundle};
      defenders := defenders - {bundle};
      StoreSame(t0.owningFaction, bundle);
      assert State() == SetView(t0, bundle, Conclude(t0.View(bundle), dir, bundle, attackerID, false).0);
      ghost var expected := ConclusionNotices(dir, bundle, attackerID, defenderID, false);
      var attacker := Resolve(dir, Some(attackerID));
      var defender := Resolve(dir, defenderID);
      // As in HandleSiegeSuccess, an unresolved attacker stops before any message.
      if attacker.Some? {
        notices := notices + [AttackFailure(attacker.value, bundle)];
        if defender.Some? {
          notices := notices + [DefendSuccess(defender.value, bundle)];
        }
      }
      assert notices == old(notices) + expected;
    }

    // Attacker and defender.

    /** `getOwningID`: the owner entry of the bundle. */
    function GetOwningID(bundle: int): (id: Option<int>)
      reads this
      ensures id.Some? <==> bundle in owningFaction
      ensures id.Some? ==> id.value == owningFaction[bundle]
    {
      View(bundle).owner
    }

    /** `getAttackingID`: the declaration entry of the bundle. */
    function GetAttackingID(bundle: int): (id: Option<int>)
      reads this
      ensures id.Some? <==> bundle in declaredSieges
      ensures id.Some? ==> id.value == declaredSieges[bundle]
    {
      View(bundle).attacker
    }

    /** `getOwningFaction`: the owner of the bundle, when it has one and it resolves. */
    function GetOwningFaction(bundle: int, dir: Directory): (f: Option<int>)
      reads this
      ensures f.Some? <==> bundle in owningFaction && owningFaction[bundle] in dir.online
      ensures f.Some? ==> f.value == owningFaction[bundle]
    {
      Resolve(dir, GetOwningID(bundle))
    }

    /** `getAttackingFaction`: the declaring faction of the bundle, when there is one and it resolves. */
    function GetAttackingFaction(bundle: int, dir: Directory): (f: Option<int>)
      reads this
      ensures f.Some? <==> bundle in declaredSieges && declaredSieges[bundle] in dir.online
      ensures f.Some? ==> f.value == declaredSieges[bundle]
    {
      Resolve(dir, GetAttackingID(bundle))
    }

    // Timing.

    /** The body of `clockSecondTick`'s loop for one declared bundle. */
    method TickDeclaration(bundle: int, factionID: int, now: int, dir: Directory, cfg: SiegeConfig)
      requires cfg.Valid() && Lookup(declaredSieges, bundle) == Some(factionID)
      modifies this
      ensures State() == SetView(old(State()), bundle, SecondTick(old(View(bundle)), dir, bundle, now, cfg).0)
      ensures notices == old(notices) + SecondTick(old(View(bundle)), dir, bundle, now, cfg).1
    {
      ghost var t0 := State();
      ghost var v0 := View(bundle);
      if bundle !in declaredDates {
        declaredSieges := declaredSieges - {bundle};
        SetViewDropDeclaration(t0, bundle);
        return;
      }
      ghost var r := SecondTick(v0, dir, bundle, now, cfg);
      ghost var reminded := if IsReminderSecond(declaredDates[bundle], now) then Remind(v0, dir, bundle, now, cfg).1 else [];
      ghost var n0 := notices;
      var passedMinutes := RemindIfDue(bundle, now, dir, cfg);
      assert State() == t0 && notices == n0 + reminded;
      if passedMinutes < cfg.prepareMinutes {
        assert r == (v0, reminded);
        SetViewSame(t0, bundle);
        return;
      }
      ghost var ticked := SiegeTick(v0, dir, bundle, factionID, cfg);
      assert r == (ticked.0, reminded + ticked.1);
      HandleSiegeTick(factionID, bundle, dir, cfg);
      AppendAssociative(n0, reminded, ticked.1);
    }

    /**
     * The reminder part of `clockSecondTick`'s loop for a dated declaration: on a whole
     * minute since the declaration, `handleRemind`. Returns the minutes passed.
     */
    method RemindIfDue(bundle: int, now: int, dir: Directory, cfg: SiegeConfig) returns (passedMinutes: int)
      requires cfg.Valid() && bundle in declaredSieges && bundle in declaredDates
      modifies this
      ensures passedMinutes == PassedMinutes(old(declaredDates[bundle]), now)
      ensures State() == old(State())
      ensures notices == old(notices) +
        (if IsReminderSecond(old(declaredDates[bundle]), now) then Remind(old(View(bundle)), dir, bundle, now, cfg).1 else [])
    {
      ghost var t0 := State();
      ghost var v0 := View(bundle);
      var declared := declaredDates[bundle];
      passedMinutes := PassedMinutes(declared, now);
      var passedSeconds := PassedSeconds(declared, now);
      if JavaInt.Wrap(passedMinutes * 60) == passedSeconds {
        HandleRemind(bundle, now, dir, cfg);
        assert Remind(v0, dir, bundle, now, cfg).0 == v0;
        SetViewSame(t0, bundle);
      }
    }

    /**
     * One round of `clockSecondTick`'s loop, for any `step` that agrees with SecondTick on the
     * bundle visited: the tick moves on by that bundle.
     */
    method TickNext(b: int, now: int, dir: Directory, cfg: SiegeConfig, ghost step: BundleStep,
                    ghost t0: Tables, ghost n0: seq<Notice>, ghost order: seq<int>)
      requires cfg.Valid() && Distinct(order) && b !in order && b in t0.declaredSieges
      requires step(t0.View(b), b) == SecondTick(t0.View(b), dir, b, now, cfg)
      requires State() == TickAll(t0, order, step).0
      requires notices == n0 + TickAll(t0, order, step).1
      modifies this
      ensures State() == TickAll(t0, order + [b], step).0
      ensures notices == n0 + TickAll(t0, order + [b], step).1
    {
      TickAllStep(t0, order, b, step);
      ghost var prev := TickAll(t0, order, step);
      ghost var result := step(prev.0.View(b), b);
      var factionID := declaredSieges[b];
      ghost var n1 := notices;
      TickDeclaration(b, factionID, now, dir, cfg);
      AppendAssociative(n0, prev.1, result.1);
    }

    /**
     * `clockSecondTick`: every bundle declared on entry, visited in `order`, gets its
     * SecondTick. The tables end as TickAll says: bundle by bundle (TickAllView), not
     * depending on `order` (TickAllOrderIndependent), with every remaining declaration
     * dated (TickAllSynced).
     */
    method ClockSecondTick(now: int, dir: Directory, cfg: SiegeConfig) returns (ok: bool, ghost order: seq<int>)
      requires cfg.Valid()
      modifies this
      ensures ok
      ensures Distinct(order) && forall b :: b in order <==> b in old(declaredSieges)
      ensures State() == TickAll(old(State()), order, SecondStep(dir, now, cfg)).0
      ensures notices == old(notices) + TickAll(old(State()), order, SecondStep(dir, now, cfg)).1
    {
      ghost var t0 := State();
      ghost var n0 := notices;
      ghost var step := SecondStep(dir, now, cfg);
      var todo := declaredSieges.Keys;
      order := [];
      while exists b :: b in todo
        invariant Distinct(order)
        invariant forall b :: b in order ==> b !in todo
        invariant forall b :: b in t0.declaredSieges <==> b in order || b in todo
        invariant State() == TickAll(t0, order, step).0
        invariant notices == n0 + TickAll(t0, order, step).1
        decreases |todo|
      {
        var b :| b in todo;
        assert step(t0.View(b), b) == SecondTick(t0.View(b), dir, b, now, cfg);
        TickNext(b, now, dir, cfg, step, t0, n0, order);
        order := order + [b];
        todo := todo - {b};
      }
      ok := true;
    }
  }
}
