/**
 * The claim engine on values: the entries `FactionClaimManager` keeps for one bundle, what
 * each operation does to them, and the presence tests that gate a claim.
 */
module ClaimRules {
  import opened Options

  /** A faction as `FactionManager` hands it out: its ID and its registered member count. */
  datatype Faction = Faction(id: int, registered: int)

  /** A player on the bundle: the name and the faction `getFaction` returns, if any. */
  datatype Player = Player(name: string, faction: Option<Faction>)

  /** A chunk bundle: its ID, its members, and its level when it is a settlement. */
  datatype Bundle = Bundle(id: int, members: set<string>, settlementLevel: Option<int>)

  /** A settlement as `findSettlements` returns it: the bundle ID and the settlement level. */
  datatype Settlement = Settlement(bundle: int, level: int)

  /** The foreign lookups: `FactionManager.getFaction` and `ChunkBundleManager.getChunkBundle`. */
  datatype ClaimDirectory = ClaimDirectory(factions: map<int, Faction>, bundles: map<int, Bundle>)

  /** The claim settings: `getToClaimMembers` and the `getUnclaimSpeed` curve. */
  datatype ClaimConfig = ClaimConfig(toClaimMembers: int, unclaimSpeed: int -> real)

  /** The broadcast sent when a bundle is captured. */
  datatype ClaimNotice = Claimed(bundle: int, faction: int)

  /** The faction ID behind an optional faction: Java compares the faction objects. */
  function IdOf(f: Option<Faction>): (r: Option<int>)
    ensures r.Some? <==> f.Some?
    ensures f.Some? ==> r.value == f.value.id
  {
    if f.Some? then Some(f.value.id) else None
  }

  // Presence.

  /**
   * The factions of the players who are not members of the bundle, in list order, at most
   * one per player; CandidatesMembers states which factions they are.
   */
  function Candidates(members: set<string>, players: seq<Player>): (c: seq<Faction>)
    ensures |c| <= |players|
  {
    if players == [] then []
    else
      var init := Candidates(members, players[..|players| - 1]);
      var p := players[|players| - 1];
      if p.name !in members && p.faction.Some? then init + [p.faction.value] else init
  }

  /** The candidates are the factions of exactly the non-member players that have one. */
  lemma {:induction false} CandidatesMembers(members: set<string>, players: seq<Player>)
    ensures forall f :: f in Candidates(members, players) <==>
      exists p :: p in players && p.name !in members && p.faction == Some(f)
  {
    if players != [] {
      var init := players[..|players| - 1];
      assert players == init + [players[|players| - 1]];
      CandidatesMembers(members, init);
    }
  }

  /** The candidates of a prefix of the players are a prefix of the candidates of all of them. */
  lemma {:induction false} CandidatesPrefix(members: set<string>, players: seq<Player>, i: nat)
    requires i <= |players|
    ensures Candidates(members, players[..i]) <= Candidates(members, players)
    decreases |players|
  {
    if i < |players| {
      var init := players[..|players| - 1];
      assert init[..i] == players[..i];
      CandidatesPrefix(members, init, i);
    } else {
      assert players[..i] == players;
    }
  }

  /** All the factions of the sequence have one ID. */
  predicate OneFaction(c: seq<Faction>)
  {
    forall i :: 0 <= i < |c| ==> c[i].id == c[0].id
  }

  /**
   * The test of `checkProgressClaim` over the players present: no one belongs to a faction
   * other than the contester (as a faction object, `None` when it does not resolve) and
   * someone belongs to the contester. A player without a faction matches an unresolved
   * contester, as the source's reference comparison does.
   */
  predicate ContesterAlone(players: seq<Player>, contester: Option<int>)
  {
    && (forall p :: p in players && p.faction.Some? ==> IdOf(p.faction) == contester)
    && (exists p :: p in players && IdOf(p.faction) == contester)
  }

  // One bundle's entries.

  /** The entries of one bundle: owner, contester, progress and the `claimActive` mark. */
  datatype ClaimView = ClaimView(owner: Option<int>, contester: Option<int>, progress: Option<real>, active: bool)
  {
    /** Progress is kept only while a contester is set. */
    predicate Paired()
    {
      progress.Some? ==> contester.Some?
    }
  }

  /**
   * `modifyProgress` on one bundle: the old progress (default 0) plus `amount`; at 0 or below
   * the progress and the contester go, otherwise the sum is stored. Returns the sum.
   */
  function ModifyProgress(v: ClaimView, amount: real): (ClaimView, real)
  {
    var p := v.progress.GetOr(0.0) + amount;
    if p <= 0.0 then (v.(progress := None, contester := None), p)
    else (v.(progress := Some(p)), p)
  }

  /**
   * What `modifyProgress` does: the result is the old progress plus the amount; a result at
   * or below zero ends the claim, any other is the new progress; owner and mark stay.
   */
  lemma ModifyProgressOutcome(v: ClaimView, amount: real)
    ensures var (w, p) := ModifyProgress(v, amount);
      && p == v.progress.GetOr(0.0) + amount
      && w.owner == v.owner && w.active == v.active
      && (p <= 0.0 ==> w.progress.None? && w.contester.None?)
      && (p > 0.0 ==> w.progress == Some(p) && w.contester == v.contester)
  {
  }

  /** The pairing holds after `modifyProgress` exactly when the claim lapsed or had a contester. */
  lemma ModifyProgressPaired(v: ClaimView, amount: real)
    ensures ModifyProgress(v, amount).0.Paired() <==> ModifyProgress(v, amount).1 <= 0.0 || v.contester.Some?
  {
  }

  /**
   * `progressClaim` on one bundle: `modifyProgress`, then at 1 or more the contester and the
   * progress are cleared and the contester (or faction -1 when there is none) becomes the
   * owner if it resolves, with a broadcast; below 1 the bundle is marked active.
   */
  function ProgressClaim(v: ClaimView, factions: map<int, Faction>, bundle: int, amount: real): (ClaimView, seq<ClaimNotice>)
  {
    var (w, p) := ModifyProgress(v, amount);
    if p >= 1.0 then
      var id := w.contester.GetOr(-1);
      var cleared := w.(contester := None, progress := None);
      if id in factions then (cleared.(owner := Some(factions[id].id)), [Claimed(bundle, factions[id].id)])
      else (cleared, [])
    else (w.(active := true), [])
  }

  /**
   * What `progressClaim` does: a capture clears the contest and hands the bundle to the
   * contester when it resolves (the only case with a broadcast); any other result marks the
   * bundle active, whether the claim lapsed or goes on.
   */
  lemma ProgressClaimOutcome(v: ClaimView, factions: map<int, Faction>, bundle: int, amount: real)
    ensures var (w, notes) := ProgressClaim(v, factions, bundle, amount);
      var p := v.progress.GetOr(0.0) + amount;
      && (p >= 1.0 ==> w.contester.None? && w.progress.None? && w.active == v.active)
      && (p >= 1.0 && v.contester.Some? && v.contester.value in factions ==>
            w.owner == Some(factions[v.contester.value].id) && notes == [Claimed(bundle, factions[v.contester.value].id)])
      && (p >= 1.0 && v.contester.None? && -1 in factions ==>
            w.owner == Some(factions[-1].id) && notes == [Claimed(bundle, factions[-1].id)])
      && (p >= 1.0 && v.contester.GetOr(-1) !in factions ==> w.owner == v.owner && notes == [])
      && (p < 1.0 ==> w == ModifyProgress(v, amount).0.(active := true) && notes == [])
  {
    ModifyProgressOutcome(v, amount);
  }

  /** A claim in progress with a contester keeps the pairing of progress and contester. */
  lemma ProgressClaimPaired(v: ClaimView, factions: map<int, Faction>, bundle: int, amount: real)
    requires v.contester.Some?
    ensures ProgressClaim(v, factions, bundle, amount).0.Paired()
  {
    ModifyProgressPaired(v, amount);
  }

  /**
   * `clockMinuteTick` on one contested bundle: an active bundle loses its mark and keeps its
   * progress; an inactive one whose bundle resolves decays by the unclaim speed of its
   * settlement level (0 for a plain bundle); an unresolved one is left alone.
   */
  function MinuteTick(v: ClaimView, bundle: Option<Bundle>, cfg: ClaimConfig): ClaimView
  {
    if v.active then v.(active := false)
    else if bundle.None? then v
    else ModifyProgress(v, -cfg.unclaimSpeed(bundle.value.settlementLevel.GetOr(0))).0
  }

  /** What the minute tick does to one contested bundle, case by case. */
  lemma MinuteTickOutcome(v: ClaimView, bundle: Option<Bundle>, cfg: ClaimConfig)
    ensures v.active ==> MinuteTick(v, bundle, cfg) == v.(active := false)
    ensures !v.active && bundle.None? ==> MinuteTick(v, bundle, cfg) == v
    ensures !v.active && bundle.Some? ==>
      var decay := cfg.unclaimSpeed(if bundle.value.settlementLevel.Some? then bundle.value.settlementLevel.value else 0);
      var p := v.progress.GetOr(0.0) - decay;
      && MinuteTick(v, bundle, cfg).owner == v.owner && !MinuteTick(v, bundle, cfg).active
      && (p <= 0.0 ==> MinuteTick(v, bundle, cfg).contester.None? && MinuteTick(v, bundle, cfg).progress.None?)
      && (p > 0.0 ==> MinuteTick(v, bundle, cfg).progress == Some(p) && MinuteTick(v, bundle, cfg).contester == v.contester)
  {
    if !v.active && bundle.Some? {
      ModifyProgressOutcome(v, -cfg.unclaimSpeed(bundle.value.settlementLevel.GetOr(0)));
    }
  }

  /** The minute tick keeps the pairing on a contested bundle. */
  lemma MinuteTickPaired(v: ClaimView, bundle: Option<Bundle>, cfg: ClaimConfig)
    requires v.Paired() && v.contester.Some?
    ensures MinuteTick(v, bundle, cfg).Paired()
  {
    if !v.active && bundle.Some? {
      ModifyProgressPaired(v, -cfg.unclaimSpeed(bundle.value.settlementLevel.GetOr(0)));
    }
  }

  /** `removeFaction` on one bundle: an owner entry of `f` goes; a contest by `f` goes with its progress. */
  function PurgeView(v: ClaimView, f: int): (w: ClaimView)
    ensures w.owner != Some(f) && w.contester != Some(f)
    ensures w.active == v.active
    ensures v.owner != Some(f) ==> w.owner == v.owner
    ensures v.contester != Some(f) ==> w.contester == v.contester && w.progress == v.progress
    ensures v.contester == Some(f) ==> w.progress.None?
  {
    var owned := if v.owner == Some(f) then v.(owner := None) else v;
    if v.contester == Some(f) then owned.(contester := None, progress := None) else owned
  }

  // Successive progress.

  /** The sum of a sequence of amounts. */
  function Sum(amounts: seq<real>): real
  {
    if amounts == [] then 0.0 else Sum(amounts[..|amounts| - 1]) + amounts[|amounts| - 1]
  }

  /** `modifyProgress` applied with each amount in turn. */
  function ModifyAll(v: ClaimView, amounts: seq<real>): ClaimView
  {
    if amounts == [] then v else ModifyProgress(ModifyAll(v, amounts[..|amounts| - 1]), amounts[|amounts| - 1]).0
  }

  /**
   * While every running total stays above zero, successive `modifyProgress` calls leave the
   * contest in place with the old progress plus the sum of the amounts.
   */
  lemma {:induction false} ModifyAllSums(v: ClaimView, amounts: seq<real>)
    requires amounts != []
    requires forall k :: 1 <= k <= |amounts| ==> v.progress.GetOr(0.0) + Sum(amounts[..k]) > 0.0
    ensures ModifyAll(v, amounts) == v.(progress := Some(v.progress.GetOr(0.0) + Sum(amounts)))
  {
    var init := amounts[..|amounts| - 1];
    assert amounts[..|amounts|] == amounts;
    if init == [] {
      assert Sum(amounts) == amounts[0];
    } else {
      forall k | 1 <= k <= |init|
        ensures v.progress.GetOr(0.0) + Sum(init[..k]) > 0.0
      {
        assert init[..k] == amounts[..k];
      }
      ModifyAllSums(v, init);
    }
  }

  /** Once a running total reaches zero or below, the contester is gone. */
  lemma ModifyAllLapses(v: ClaimView, amounts: seq<real>)
    requires amounts != []
    requires ModifyAll(v, amounts[..|amounts| - 1]).progress.GetOr(0.0) + amounts[|amounts| - 1] <= 0.0
    ensures ModifyAll(v, amounts).contester.None? && ModifyAll(v, amounts).progress.None?
  {
  }

  // The tables.

  /** The four tables of the manager. */
  datatype ClaimTables = ClaimTables(claims: map<int, int>, progress: map<int, real>, contesters: map<int, int>, active: set<int>)
  {
    function View(bundle: int): (v: ClaimView)
      ensures v.contester.Some? <==> bundle in contesters
    {
      ClaimView(Lookup(claims, bundle), Lookup(contesters, bundle), Lookup(progress, bundle), bundle in active)
    }

    /** Every bundle with progress has a contester. */
    predicate Paired()
    {
      progress.Keys <= contesters.Keys
    }
  }

  /** The tables with one bundle's entries replaced by `v`. */
  function SetView(t: ClaimTables, bundle: int, v: ClaimView): ClaimTables
  {
    ClaimTables(
      Store(t.claims, bundle, v.owner), Store(t.progress, bundle, v.progress),
      Store(t.contesters, bundle, v.contester),
      if v.active then t.active + {bundle} else t.active - {bundle})
  }

  /** SetView changes the entries of that bundle to `v` and no others. */
  lemma SetViewViews(t: ClaimTables, bundle: int, v: ClaimView)
    ensures SetView(t, bundle, v).View(bundle) == v
    ensures forall k :: k != bundle ==> SetView(t, bundle, v).View(k) == t.View(k)
  {
    StoreOthers(t.claims, bundle, v.owner);
    StoreOthers(t.progress, bundle, v.progress);
    StoreOthers(t.contesters, bundle, v.contester);
  }

  /** Tables are determined by their views. */
  lemma TablesExtensional(t1: ClaimTables, t2: ClaimTables)
    requires forall k :: t1.View(k) == t2.View(k)
    ensures t1 == t2
  {
    forall k
      ensures Lookup(t1.claims, k) == Lookup(t2.claims, k)
      ensures Lookup(t1.progress, k) == Lookup(t2.progress, k)
      ensures Lookup(t1.contesters, k) == Lookup(t2.contesters, k)
      ensures k in t1.active <==> k in t2.active
    {
      assert t1.View(k) == t2.View(k);
    }
    LookupExtensional(t1.claims, t2.claims);
    LookupExtensional(t1.progress, t2.progress);
    LookupExtensional(t1.contesters, t2.contesters);
  }

  /** The tables are paired exactly when every view is. */
  lemma PairedViews(t: ClaimTables)
    ensures t.Paired() <==> forall k :: t.View(k).Paired()
  {
    if forall k :: t.View(k).Paired() {
      forall k | k in t.progress
        ensures k in t.contesters
      {
        assert t.View(k).Paired();
      }
    }
  }

  /** Putting back a bundle's own entries changes nothing. */
  lemma SetViewSame(t: ClaimTables, bundle: int)
    ensures SetView(t, bundle, t.View(bundle)) == t
  {
    StoreSame(t.claims, bundle);
    StoreSame(t.progress, bundle);
    StoreSame(t.contesters, bundle);
  }

  /** `removeFaction` on the tables: every bundle's entries purged of `f`. */
  function PurgeFaction(t: ClaimTables, f: int): (r: ClaimTables)
    ensures forall b :: r.View(b) == PurgeView(t.View(b), f)
  {
    ClaimTables(
      map b | b in t.claims && t.claims[b] != f :: t.claims[b],
      map b | b in t.progress && !(b in t.contesters && t.contesters[b] == f) :: t.progress[b],
      map b | b in t.contesters && t.contesters[b] != f :: t.contesters[b],
      t.active)
  }

  /** After `removeFaction(f)` no owner and no contester is `f`, and the pairing is kept. */
  lemma PurgeFactionRemovesAll(t: ClaimTables, f: int)
    ensures forall b :: b in PurgeFaction(t, f).claims ==> PurgeFaction(t, f).claims[b] != f
    ensures forall b :: b in PurgeFaction(t, f).contesters ==> PurgeFaction(t, f).contesters[b] != f
    ensures t.Paired() ==> PurgeFaction(t, f).Paired()
  {
    var r := PurgeFaction(t, f);
    forall b | b in r.claims
      ensures r.claims[b] != f
    {
      assert r.View(b).owner == Some(r.claims[b]);
    }
    forall b | b in r.contesters
      ensures r.contesters[b] != f
    {
      assert r.View(b).contester == Some(r.contesters[b]);
    }
  }

  /** `progressClaim` on a contested bundle keeps every bundle's progress paired with a contester. */
  lemma ProgressClaimKeepsPaired(t: ClaimTables, bundle: int, factions: map<int, Faction>, amount: real)
    requires t.Paired() && bundle in t.contesters
    ensures SetView(t, bundle, ProgressClaim(t.View(bundle), factions, bundle, amount).0).Paired()
  {
    var r := SetView(t, bundle, ProgressClaim(t.View(bundle), factions, bundle, amount).0);
    ProgressClaimPaired(t.View(bundle), factions, bundle, amount);
    SetViewViews(t, bundle, ProgressClaim(t.View(bundle), factions, bundle, amount).0);
    PairedViews(t);
    PairedViews(r);
  }
}
