/**
 * `FactionClaimManager`: peaceful capture of bundles. Owners, contesters and progress are
 * hashtables keyed by bundle ID, updated in place; `claimActive` marks the bundles whose
 * claim progressed since the last minute tick.
 */
module Claims {
  import opened Options
  import opened ClaimRules

  class FactionClaimManager {
    var claims: map<int, int>
    var progress: map<int, real>
    var contesters: map<int, int>
    var claimActive: set<int>
    /** The capture broadcasts sent so far. */
    var broadcasts: seq<ClaimNotice>

    /** The four tables as one value. */
    function State(): ClaimTables
      reads this
    {
      ClaimTables(claims, progress, contesters, claimActive)
    }

    /** The entries of one bundle. */
    function View(bundle: int): ClaimView
      reads this
    {
      State().View(bundle)
    }

    /** The named constructor: all tables empty. */
    constructor ()
      ensures State() == ClaimTables(map[], map[], map[], {}) && broadcasts == []
    {
      claims := map[];
      progress := map[];
      contesters := map[];
      claimActive := {};
      broadcasts := [];
    }

    /** `complete`: the transient active marks start empty; the persisted tables stay. */
    method Complete()
      modifies this
      ensures State() == old(State()).(active := {}) && broadcasts == old(broadcasts)
    {
      claimActive := {};
    }

    // Initiation.

    /**
     * `getInitFacton`: over the players who are not members of the bundle and have a
     * faction, the faction when they all share one, otherwise none.
     */
    static method GetInitFaction(bundle: Bundle, players: seq<Player>) returns (init: Option<Faction>)
      ensures var c := Candidates(bundle.members, players);
        && (init.Some? <==> c != [] && OneFaction(c))
        && (init.Some? ==> init.value == c[|c| - 1])
    {
      init := None;
      var i := 0;
      while i < |players|
        invariant 0 <= i <= |players|
        invariant var c := Candidates(bundle.members, players[..i]);
          && OneFaction(c)
          && (init.None? <==> c == [])
          && (init.Some? ==> init.value == c[|c| - 1])
      {
        assert players[..i + 1][..i] == players[..i];
        var p := players[i];
        if p.name in bundle.members || p.faction.None? {
          i := i + 1;
          continue;
        }
        if init.Some? && p.faction.value.id != init.value.id {
          ghost var c := Candidates(bundle.members, players[..i + 1]);
          CandidatesPrefix(bundle.members, players, i + 1);
          assert !OneFaction(c) by {
            assert c[0].id == init.value.id && c[|c| - 1] == p.faction.value;
          }
          assert c == Candidates(bundle.members, players)[..|c|];
          return None;
        }
        init := p.faction;
        i := i + 1;
      }
      assert players[..i] == players;
    }

    /**
     * `checkInitiation`: a single initiating faction that is not the owner, on a bundle that
     * is not contested; an owned bundle also needs both factions at the member threshold.
     */
    method CheckInitiation(bundle: Bundle, players: seq<Player>, dir: ClaimDirectory, cfg: ClaimConfig) returns (ok: bool)
      ensures var c := Candidates(bundle.members, players);
        var owner := GetOwningFaction(bundle.id, dir);
        ok <==>
          && c != [] && OneFaction(c)
          && (owner.Some? ==> owner.value.id != c[|c| - 1].id)
          && bundle.id !in contesters
          && (owner.Some? ==> c[|c| - 1].registered >= cfg.toClaimMembers && owner.value.registered >= cfg.toClaimMembers)
    {
      var init := GetInitFaction(bundle, players);
      var owner := GetOwningFaction(bundle.id, dir);
      if init.None? {
        return false;
      }
      if owner.Some? && init.value.id == owner.value.id {
        return false;
      }
      if IsContested(bundle.id) {
        return false;
      }
      if owner.Some? {
        if init.value.registered < cfg.toClaimMembers {
          return false;
        }
        if owner.value.registered < cfg.toClaimMembers {
          return false;
        }
      }
      return true;
    }

    /** `initiate`: the faction becomes the contester; the progress is left as it is. */
    method Initiate(bundle: Bundle, faction: Faction)
      modifies this
      ensures State() == SetView(old(State()), bundle.id, old(View(bundle.id)).(contester := Some(faction.id)))
      ensures broadcasts == old(broadcasts)
      ensures old(State().Paired()) ==> State().Paired()
    {
      ghost var t0 := State();
      var previous := SetContester(bundle.id, faction.id);
      StoreSame(t0.claims, bundle.id);
      StoreSame(t0.progress, bundle.id);
    }

    // Claiming.

    /**
     * `checkProgressClaim`: the bundle is contested, no player present belongs to another
     * faction than the contester, and one of them belongs to the contester.
     */
    method CheckProgressClaim(bundle: Bundle, players: seq<Player>, dir: ClaimDirectory) returns (ok: bool)
      ensures ok <==> bundle.id in contesters && ContesterAlone(players, IdOf(GetContesterFaction(bundle.id, dir)))
    {
      var contFaction := IdOf(GetContesterFaction(bundle.id, dir));
      if !IsContested(bundle.id) {
        return false;
      }
      var contest := false;
      var i := 0;
      while i < |players|
        invariant 0 <= i <= |players|
        invariant forall k :: 0 <= k < i && players[k].faction.Some? ==> IdOf(players[k].faction) == contFaction
        invariant contest <==> exists k :: 0 <= k < i && IdOf(players[k].faction) == contFaction
      {
        var playerFaction := IdOf(players[i].faction);
        if playerFaction == contFaction {
          contest := true;
        }
        if playerFaction.Some? && playerFaction != contFaction {
          assert players[i] in players;
          return false;
        }
        i := i + 1;
      }
      if !contest {
        forall p | p in players
          ensures IdOf(p.faction) != contFaction
        {
          var k :| 0 <= k < |players| && players[k] == p;
        }
        return false;
      }
      ghost var k :| 0 <= k < i && IdOf(players[k].faction) == contFaction;
      assert players[k] in players;
      forall p | p in players && p.faction.Some?
        ensures IdOf(p.faction) == contFaction
      {
        var j :| 0 <= j < |players| && players[j] == p;
      }
      return true;
    }

    /**
     * `progressClaim`: adds the amount; at 1 or more the contest ends and the contester, if
     * it resolves, takes the bundle with a broadcast; below 1 the bundle is marked active.
     */
    method ProgressClaim(bundle: Bundle, amount: real, dir: ClaimDirectory)
      modifies this
      ensures State() == SetView(old(State()), bundle.id, ClaimRules.ProgressClaim(old(View(bundle.id)), dir.factions, bundle.id, amount).0)
      ensures broadcasts == old(broadcasts) + ClaimRules.ProgressClaim(old(View(bundle.id)), dir.factions, bundle.id, amount).1
      ensures old(State().Paired()) && bundle.id in old(contesters) ==> State().Paired()
    {
      ghost var t0 := State();
      ghost var v0 := View(bundle.id);
      ghost var r := ClaimRules.ProgressClaim(v0, dir.factions, bundle.id, amount);
      ghost var w := ClaimRules.ModifyProgress(v0, amount).0;
      var bundleId := bundle.id;
      var p := ModifyProgress(bundleId, amount);
      if p >= 1.0 {
        var faction := GetContesterFaction(bundleId, dir);
        assert faction == (if w.contester.GetOr(-1) in dir.factions then Some(dir.factions[w.contester.GetOr(-1)]) else None);
        var _ := ClearContester(bundleId);
        var _ := ClearProgress(bundleId);
        StoreTwice(t0.contesters, bundleId, w.contester, None);
        StoreTwice(t0.progress, bundleId, w.progress, None);
        if faction.None? {
          assert r.0 == w.(contester := None, progress := None);
          return;
        }
        SetOwningId(bundleId, faction.value.id);
        StoreTwice(t0.claims, bundleId, w.owner, Some(faction.value.id));
        broadcasts := broadcasts + [Claimed(bundleId, faction.value.id)];
      } else {
        claimActive := claimActive + {bundleId};
      }
      if old(State().Paired()) && bundleId in old(contesters) {
        ProgressClaimKeepsPaired(t0, bundleId, dir.factions, amount);
      }
    }

    // Fields.

    /** `getOwningId`: the owner entry of the bundle. */
    function GetOwningId(bundleId: int): (id: Option<int>)
      reads this
      ensures id.Some? <==> bundleId in claims
      ensures id.Some? ==> id.value == claims[bundleId]
    {
      Lookup(claims, bundleId)
    }

    /** `setOwningId`: the faction becomes the owner of the bundle. */
    method SetOwningId(bundleId: int, factionId: int)
      modifies this
      ensures claims == old(claims)[bundleId := factionId]
      ensures progress == old(progress) && contesters == old(contesters)
      ensures claimActive == old(claimActive) && broadcasts == old(broadcasts)
    {
      claims := claims[bundleId := factionId];
    }

    /** `getOwningFaction`: the owner, when there is one and it resolves. */
    function GetOwningFaction(bundleId: int, dir: ClaimDirectory): (f: Option<Faction>)
      reads this
      ensures f.Some? <==> bundleId in claims && claims[bundleId] in dir.factions
      ensures f.Some? ==> f.value == dir.factions[claims[bundleId]]
    {
      if bundleId in claims && claims[bundleId] in dir.factions then Some(dir.factions[claims[bundleId]]) else None
    }

    /** `hasOwner`: the bundle has an owner entry. */
    function HasOwner(bundle: Bundle): (b: bool)
      reads this
      ensures b <==> GetOwningId(bundle.id).Some?
    {
      bundle.id in claims
    }

    /** `isContested`: the bundle has a contester entry. */
    function IsContested(bundleId: int): (b: bool)
      reads this
      ensures b <==> View(bundleId).contester.Some?
    {
      bundleId in contesters
    }

    /** `getContester`: the contester of the bundle, -1 when it has none. */
    function GetContester(bundleId: int): (id: int)
      reads this
      ensures bundleId in contesters ==> id == contesters[bundleId]
      ensures bundleId !in contesters ==> id == -1
    {
      Lookup(contesters, bundleId).GetOr(-1)
    }

    /** `getContesterFaction`: the faction of `getContester`; faction -1 stands for none. */
    function GetContesterFaction(bundleId: int, dir: ClaimDirectory): (f: Option<Faction>)
      reads this
      ensures f.Some? <==> GetContester(bundleId) in dir.factions
      ensures f.Some? ==> f.value == dir.factions[GetContester(bundleId)]
    {
      var id := GetContester(bundleId);
      if id in dir.factions then Some(dir.factions[id]) else None
    }

    /** `setContester`: the faction becomes the contester; returns the contester replaced. */
    method SetContester(bundleId: int, factionId: int) returns (previous: Option<int>)
      modifies this
      ensures previous == Lookup(old(contesters), bundleId)
      ensures contesters == old(contesters)[bundleId := factionId]
      ensures claims == old(claims) && progress == old(progress)
      ensures claimActive == old(claimActive) && broadcasts == old(broadcasts)
    {
      previous := Lookup(contesters, bundleId);
      contesters := contesters[bundleId := factionId];
    }

    /** `clearContester`: removes the contester; returns the one removed. */
    method ClearContester(bundleId: int) returns (removed: Option<int>)
      modifies this
      ensures removed == Lookup(old(contesters), bundleId)
      ensures contesters == old(contesters) - {bundleId}
      ensures claims == old(claims) && progress == old(progress)
      ensures claimActive == old(claimActive) && broadcasts == old(broadcasts)
    {
      removed := Lookup(contesters, bundleId);
      contesters := contesters - {bundleId};
    }

    /** `getProgress`: the progress of the bundle, 0 when it has none. */
    function GetProgress(bundleId: int): (p: real)
      reads this
      ensures bundleId in progress ==> p == progress[bundleId]
      ensures bundleId !in progress ==> p == 0.0
    {
      Lookup(progress, bundleId).GetOr(0.0)
    }

    /** `modifyProgress`: adds the amount and returns the sum; at 0 or below the contest ends. */
    method ModifyProgress(bundleId: int, amount: real) returns (p: real)
      modifies this
      ensures p == ClaimRules.ModifyProgress(old(View(bundleId)), amount).1
      ensures State() == SetView(old(State()), bundleId, ClaimRules.ModifyProgress(old(View(bundleId)), amount).0)
      ensures broadcasts == old(broadcasts)
    {
      ghost var t0 := State();
      p := GetProgress(bundleId) + amount;
      if p <= 0.0 {
        progress := progress - {bundleId};
        contesters := contesters - {bundleId};
      } else {
        progress := progress[bundleId := p];
        StoreSame(t0.contesters, bundleId);
      }
      StoreSame(t0.claims, bundleId);
    }

    /** `clearProgress`: removes the progress; returns the value removed. */
    method ClearProgress(bundleId: int) returns (removed: Option<real>)
      modifies this
      ensures removed == Lookup(old(progress), bundleId)
      ensures progress == old(progress) - {bundleId}
      ensures claims == old(claims) && contesters == old(contesters)
      ensures claimActive == old(claimActive) && broadcasts == old(broadcasts)
    {
      removed := Lookup(progress, bundleId);
      progress := progress - {bundleId};
    }

    // Factions and settlements.

    /**
     * `removeFaction`: every owner entry of the faction goes, and every contest by it goes
     * with its progress. Both loops run over a snapshot of the keys.
     */
    method RemoveFaction(factionId: int)
      modifies this
      ensures State() == PurgeFaction(old(State()), factionId)
      ensures broadcasts == old(broadcasts)
    {
      RemoveOwnerEntries(factionId);
      RemoveContests(factionId);
    }

    /** The first loop of `removeFaction`: the owner entries of the faction go. */
    method RemoveOwnerEntries(factionId: int)
      modifies this
      ensures claims == map b | b in old(claims) && old(claims)[b] != factionId :: old(claims)[b]
      ensures progress == old(progress) && contesters == old(contesters)
      ensures claimActive == old(claimActive) && broadcasts == old(broadcasts)
    {
      var todo := claims.Keys;
      while exists b :: b in todo
        invariant claims.Keys <= old(claims).Keys
        invariant forall b :: b in claims ==> claims[b] == old(claims)[b]
        invariant forall b :: b in old(claims) ==> (b in claims <==> b in todo || old(claims)[b] != factionId)
        invariant progress == old(progress) && contesters == old(contesters)
        invariant claimActive == old(claimActive) && broadcasts == old(broadcasts)
        decreases |todo|
      {
        var b :| b in todo;
        if b in claims && claims[b] == factionId {
          claims := claims - {b};
        }
        todo := todo - {b};
      }
      assert forall b :: b !in todo;
      ghost var expected := map b | b in old(claims) && old(claims)[b] != factionId :: old(claims)[b];
      forall b
        ensures b in claims <==> b in expected
      {
        if b in claims {
          assert b in old(claims);
        }
      }
      assert claims.Keys == expected.Keys;
      assert forall b :: b in claims ==> claims[b] == expected[b];
      assert claims == expected;
    }

    /** The second loop of `removeFaction`: the contests of the faction go with their progress. */
    method RemoveContests(factionId: int)
      modifies this
      ensures contesters == map b | b in old(contesters) && old(contesters)[b] != factionId :: old(contesters)[b]
      ensures progress == map b | b in old(progress) && !(b in old(contesters) && old(contesters)[b] == factionId) :: old(progress)[b]
      ensures claims == old(claims)
      ensures claimActive == old(claimActive) && broadcasts == old(broadcasts)
    {
      var todo := contesters.Keys;
      while exists b :: b in todo
        invariant contesters.Keys <= old(contesters).Keys && progress.Keys <= old(progress).Keys
        invariant forall b :: b in contesters ==> contesters[b] == old(contesters)[b]
        invariant forall b :: b in progress ==> progress[b] == old(progress)[b]
        invariant forall b :: b in old(contesters) ==> (b in contesters <==> b in todo || old(contesters)[b] != factionId)
        invariant forall b :: b in old(progress) ==>
                    (b in progress <==> !(b in old(contesters) && b !in todo && old(contesters)[b] == factionId))
        invariant todo <= old(contesters).Keys
        invariant claims == old(claims)
        invariant claimActive == old(claimActive) && broadcasts == old(broadcasts)
        decreases |todo|
      {
        var b :| b in todo;
        if b in contesters && contesters[b] == factionId {
          progress := progress - {b};
          contesters := contesters - {b};
        }
        todo := todo - {b};
      }
      ghost var left := map b | b in old(contesters) && old(contesters)[b] != factionId :: old(contesters)[b];
      assert forall b :: b !in todo;
      forall b
        ensures b in contesters <==> b in left
      {
        if b in contesters {
          assert b in old(contesters);
        }
      }
      assert contesters.Keys == left.Keys;
      assert forall b :: b in contesters ==> contesters[b] == left[b];
      assert contesters == left;
      ghost var kept := map b | b in old(progress) && !(b in old(contesters) && old(contesters)[b] == factionId) :: old(progress)[b];
      forall b
        ensures b in progress <==> b in kept
      {
        if b in progress {
          assert b in old(progress);
        }
      }
      assert progress.Keys == kept.Keys;
      assert forall b :: b in progress ==> progress[b] == kept[b];
      assert progress == kept;
    }

    /** `removeBundle`: the owner, progress and contester entries of the bundle go. */
    method RemoveBundle(bundleId: int)
      modifies this
      ensures State() == SetView(old(State()), bundleId, ClaimView(None, None, None, old(View(bundleId)).active))
      ensures broadcasts == old(broadcasts)
      ensures old(State().Paired()) ==> State().Paired()
    {
      claims := claims - {bundleId};
      progress := progress - {bundleId};
      contesters := contesters - {bundleId};
    }

    /** `findSettlements`: the settlements among the bundles the faction owns. */
    method FindSettlements(factionId: int, dir: ClaimDirectory) returns (found: seq<Settlement>)
      ensures Distinct(found)
      ensures forall s :: s in found <==>
        && s.bundle in claims && claims[s.bundle] == factionId
        && s.bundle in dir.bundles && dir.bundles[s.bundle].settlementLevel == Some(s.level)
    {
      var todo := claims.Keys;
      found := [];
      while exists b :: b in todo
        invariant todo <= claims.Keys
        invariant Distinct(found)
        invariant forall s :: s in found ==> s.bundle !in todo
        invariant forall s :: s in found <==>
          && s.bundle in claims && s.bundle !in todo && claims[s.bundle] == factionId
          && s.bundle in dir.bundles && dir.bundles[s.bundle].settlementLevel == Some(s.level)
        decreases |todo|
      {
        var b :| b in todo;
        todo := todo - {b};
        if claims[b] != factionId {
          continue;
        }
        if b !in dir.bundles || dir.bundles[b].settlementLevel.None? {
          continue;
        }
        found := found + [Settlement(b, dir.bundles[b].settlementLevel.value)];
      }
    }

    /** `getLevels`: a new array with the level of each settlement, in the same order. */
    static method GetLevels(settlements: array<Settlement>) returns (levels: array<int>)
      ensures fresh(levels)
      ensures levels.Length == settlements.Length
      ensures forall i :: 0 <= i < levels.Length ==> levels[i] == settlements[i].level
    {
      levels := new int[settlements.Length];
      var i := 0;
      while i < levels.Length
        invariant 0 <= i <= levels.Length
        invariant forall k :: 0 <= k < i ==> levels[k] == settlements[k].level
      {
        levels[i] := settlements[i].level;
        i := i + 1;
      }
    }

    // Timing.

    /**
     * `clockMinuteTick`: every contested bundle (over a snapshot of the contesters) gets its
     * MinuteTick; the other bundles, and their active marks, are left alone.
     */
    method ClockMinuteTick(dir: ClaimDirectory, cfg: ClaimConfig) returns (ok: bool)
      modifies this
      ensures ok
      ensures forall b ::
                View(b) == if b in old(contesters) then MinuteTick(old(View(b)), Lookup(dir.bundles, b), cfg) else old(View(b))
      ensures broadcasts == old(broadcasts)
      ensures old(State().Paired()) ==> State().Paired()
    {
      ghost var t0 := State();
      var todo := contesters.Keys;
      while exists b :: b in todo
        invariant todo <= t0.contesters.Keys
        invariant forall b ::
                    View(b) == if b in t0.contesters && b !in todo then MinuteTick(t0.View(b), Lookup(dir.bundles, b), cfg) else t0.View(b)
        invariant broadcasts == old(broadcasts)
        decreases |todo|
      {
        var b :| b in todo;
        MinuteTickBundle(b, dir, cfg);
        todo := todo - {b};
      }
      assert forall b :: b !in todo;
      ok := true;
      if t0.Paired() {
        PairedViews(t0);
        forall b
          ensures State().View(b).Paired()
        {
          assert t0.View(b).Paired();
          if b in t0.contesters {
            MinuteTickPaired(t0.View(b), Lookup(dir.bundles, b), cfg);
            assert View(b) == MinuteTick(t0.View(b), Lookup(dir.bundles, b), cfg);
          } else {
            assert View(b) == t0.View(b);
          }
        }
        PairedViews(State());
      }
    }

    /** The body of `clockMinuteTick`'s loop for one contested bundle. */
    method MinuteTickBundle(b: int, dir: ClaimDirectory, cfg: ClaimConfig)
      modifies this
      ensures View(b) == MinuteTick(old(View(b)), Lookup(dir.bundles, b), cfg)
      ensures forall k :: k != b ==> View(k) == old(View(k))
      ensures broadcasts == old(broadcasts)
    {
      ghost var t0 := State();
      if b in claimActive {
        claimActive := claimActive - {b};
        return;
      }
      if b !in dir.bundles {
        return;
      }
      var bundle := dir.bundles[b];
      var level := 0;
      if bundle.settlementLevel.Some? {
        level := bundle.settlementLevel.value;
      }
      var decrease := cfg.unclaimSpeed(level);
      var _ := ModifyProgress(b, -decrease);
      SetViewViews(t0, b, ClaimRules.ModifyProgress(t0.View(b), -decrease).0);
    }
  }

}
