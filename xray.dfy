/**
 * The x-ray indicator: when a player breaks stone, dirt or gravel next to an ore, the ore
 * vein behind it is flood-filled to a bounded depth, and unless the vein touches air or
 * water (it was visible) each of its materials is recorded as a found vein. A second
 * counter tracks mined blocks per material and flushes them to the statistics.
 */
module Xray {
  import opened Options

  /** The block materials the indicator distinguishes; every other material is `OtherMaterial`. */
  datatype Material =
    | Stone | Dirt | Gravel
    | CoalOre | IronOre | GoldOre | LapisOre | DiamondOre | MossyCobblestone
    | Air | Water | StationaryWater
    | OtherMaterial(id: int)

  /** `getXrayMaterials`: the materials whose mining is counted. */
  const XrayMaterials: set<Material> :=
    {Stone, CoalOre, IronOre, GoldOre, LapisOre, DiamondOre, MossyCobblestone}

  /** `getXrayTargets`: the ore materials a vein is made of. */
  const Targets: set<Material> := {CoalOre, IronOre, GoldOre, LapisOre, DiamondOre, MossyCobblestone}

  /** `getTransparent`: the materials through which a vein would have been visible. */
  const Transparent: set<Material> := {Air, Water, StationaryWater}

  /** A block, identified by its coordinates; the world maps each block to its material. */
  datatype Pos = Pos(x: int, y: int, z: int)

  type World = Pos -> Material

  /** The i-th face in the order north, east, south, west, up, down (Bukkit's offsets). */
  function Neighbour(p: Pos, i: int): Pos
    requires 0 <= i < 6
  {
    if i == 0 then Pos(p.x, p.y, p.z - 1)
    else if i == 1 then Pos(p.x + 1, p.y, p.z)
    else if i == 2 then Pos(p.x, p.y, p.z + 1)
    else if i == 3 then Pos(p.x - 1, p.y, p.z)
    else if i == 4 then Pos(p.x, p.y + 1, p.z)
    else Pos(p.x, p.y - 1, p.z)
  }

  function Abs(n: int): nat
  {
    if n < 0 then -n else n
  }

  /** The number of face steps between two blocks. */
  function Dist(a: Pos, b: Pos): nat
  {
    Abs(a.x - b.x) + Abs(a.y - b.y) + Abs(a.z - b.z)
  }

  /** A neighbour is one face step away, so going through it costs at most one more step. */
  lemma NeighbourDist(a: Pos, i: int, b: Pos)
    requires 0 <= i < 6
    ensures Dist(a, Neighbour(a, i)) == 1
    ensures Dist(a, b) <= 1 + Dist(Neighbour(a, i), b)
  {
  }

  predicate IsTarget(world: World, p: Pos)
  {
    world(p) in Targets
  }

  /**
   * `getVein`: the first neighbour of `anchor`, in face order, that is an ore; `None` when
   * no neighbour is.
   */
  function GetVein(world: World, anchor: Pos): (r: Option<Pos>)
    ensures r.Some? <==> exists i :: 0 <= i < 6 && IsTarget(world, Neighbour(anchor, i))
    ensures r.Some? ==> exists i :: 0 <= i < 6 && r.value == Neighbour(anchor, i) && IsTarget(world, r.value) &&
                                    forall j :: 0 <= j < i ==> !IsTarget(world, Neighbour(anchor, j))
  {
    if IsTarget(world, Neighbour(anchor, 0)) then Some(Neighbour(anchor, 0))
    else if IsTarget(world, Neighbour(anchor, 1)) then Some(Neighbour(anchor, 1))
    else if IsTarget(world, Neighbour(anchor, 2)) then Some(Neighbour(anchor, 2))
    else if IsTarget(world, Neighbour(anchor, 3)) then Some(Neighbour(anchor, 3))
    else if IsTarget(world, Neighbour(anchor, 4)) then Some(Neighbour(anchor, 4))
    else if IsTarget(world, Neighbour(anchor, 5)) then Some(Neighbour(anchor, 5))
    else None
  }

  /** Every non-ore face neighbour of a block added to the targets (after `targets0`) is in `others`. */
  predicate Bounded(world: World, targets0: set<Pos>, targets: set<Pos>, others: set<Pos>)
  {
    forall b, i :: b in targets && b !in targets0 && 0 <= i < 6 && !IsTarget(world, Neighbour(b, i)) ==>
      Neighbour(b, i) in others
  }

  /**
   * `getRelative`: the depth-bounded flood fill. Nothing happens when the anchor was already
   * visited or the depth is used up; otherwise the anchor joins the targets, ore neighbours
   * are filled from with one less depth, and the other neighbours join `others`. The sets
   * only grow; every added target is the anchor or an ore less than `depth` steps away;
   * every added other is not an ore; and each added target's non-ore neighbours are others.
   */
  method GetRelative(world: World, anchor: Pos, targets0: set<Pos>, others0: set<Pos>, depth: int)
    returns (targets: set<Pos>, others: set<Pos>)
    ensures targets0 <= targets && others0 <= others
    ensures anchor in targets0 || anchor in others0 || depth < 1 ==> targets == targets0 && others == others0
    ensures !(anchor in targets0 || anchor in others0 || depth < 1) ==> anchor in targets
    ensures forall b :: b in targets && b !in targets0 ==> Dist(anchor, b) < depth && (b == anchor || IsTarget(world, b))
    ensures forall b :: b in others && b !in others0 ==> !IsTarget(world, b)
    ensures Bounded(world, targets0, targets, others)
    decreases depth, 1
  {
    if anchor in targets0 || anchor in others0 {
      return targets0, others0;
    }
    if depth < 1 {
      return targets0, others0;
    }
    targets, others := targets0 + {anchor}, others0;
    ghost var t1 := targets;
    targets, others := Visit(world, anchor, 0, targets, others, depth - 1);
    targets, others := Visit(world, anchor, 1, targets, others, depth - 1);
    targets, others := Visit(world, anchor, 2, targets, others, depth - 1);
    targets, others := Visit(world, anchor, 3, targets, others, depth - 1);
    targets, others := Visit(world, anchor, 4, targets, others, depth - 1);
    targets, others := Visit(world, anchor, 5, targets, others, depth - 1);
    assert Bounded(world, t1, targets, others);
  }

  /**
   * One face of `getRelative`: an ore neighbour is filled from with `depth`, any other
   * neighbour joins `others`.
   */
  method Visit(world: World, anchor: Pos, i: int, targets0: set<Pos>, others0: set<Pos>, depth: int)
    returns (targets: set<Pos>, others: set<Pos>)
    requires 0 <= i < 6
    ensures targets0 <= targets && others0 <= others
    ensures !IsTarget(world, Neighbour(anchor, i)) ==> Neighbour(anchor, i) in others
    ensures forall b :: b in targets && b !in targets0 ==> Dist(anchor, b) <= depth && IsTarget(world, b)
    ensures forall b :: b in others && b !in others0 ==> !IsTarget(world, b)
    ensures Bounded(world, targets0, targets, others)
    decreases depth, 2
  {
    var relative := Neighbour(anchor, i);
    if IsTarget(world, relative) {
      targets, others := GetRelative(world, relative, targets0, others0, depth);
      forall b | b in targets && b !in targets0
        ensures Dist(anchor, b) <= depth
      {
        NeighbourDist(anchor, i, b);
      }
    } else {
      targets, others := targets0, others0 + {relative};
    }
  }

  /** `onBlockBreak`'s transparency check: whether any of `others` is air or water. */
  method Vetoed(world: World, others: set<Pos>) returns (veto: bool)
    ensures veto <==> exists b :: b in others && world(b) in Transparent
  {
    var todo := others;
    while exists b :: b in todo
      decreases |todo|
      invariant todo <= others
      invariant forall b :: b in others && b !in todo ==> world(b) !in Transparent
    {
      var b :| b in todo;
      if world(b) in Transparent {
        return true;
      }
      todo := todo - {b};
    }
    assert forall b :: b !in todo;
    return false;
  }

  /**
   * `onBlockBreak`'s recording loop: each distinct material among `targets` is recorded
   * exactly once, in the unspecified order the set is walked in.
   */
  method RecordVein(world: World, targets: set<Pos>) returns (recorded: seq<Material>)
    ensures Distinct(recorded)
    ensures forall m :: m in recorded <==> exists b :: b in targets && world(b) == m
  {
    var veinMaterials: set<Material> := {};
    recorded := [];
    var todo := targets;
    while exists b :: b in todo
      decreases |todo|
      invariant todo <= targets
      invariant Distinct(recorded)
      invariant forall m :: m in veinMaterials <==> m in recorded
      invariant forall m :: m in recorded ==> exists b :: b in targets && world(b) == m
      invariant forall b :: b in targets && b !in todo ==> world(b) in veinMaterials
    {
      var b :| b in todo;
      if world(b) !in veinMaterials {
        veinMaterials := veinMaterials + {world(b)};
        recorded := recorded + [world(b)];
      }
      todo := todo - {b};
    }
    assert forall b :: b !in todo;
  }

  /** The flood-fill depth `onBlockBreak` uses. */
  const FillDepth := 30

  /**
   * `onBlockBreak`: only stone, dirt and gravel count, and stone is always recorded first.
   * Then the vein next to the broken block, if any, is filled; unless it touches air or
   * water, each of its materials (all ores) is recorded exactly once. The ghost results
   * are the vein and the two sets of the fill.
   */
  method OnBlockBreak(world: World, broken: Option<Pos>)
    returns (recorded: seq<Material>, ghost vein: Option<Pos>, ghost targets: set<Pos>, ghost others: set<Pos>)
    ensures broken.None? || world(broken.value) !in {Stone, Dirt, Gravel} ==> recorded == []
    ensures broken.Some? && world(broken.value) == Stone ==> |recorded| >= 1 && recorded[0] == Stone
    ensures broken.Some? && world(broken.value) in {Dirt, Gravel} ==> forall m :: m in recorded ==> m in Targets
    ensures broken.Some? && world(broken.value) == Stone ==> |recorded| >= 1 && forall m :: m in recorded[1..] ==> m in Targets
    ensures broken.Some? && world(broken.value) in {Stone, Dirt, Gravel} ==>
      && vein == GetVein(world, broken.value)
      && (vein.None? ==> recorded == (if world(broken.value) == Stone then [Stone] else []))
      && (vein.Some? ==>
            && vein.value in targets
            && (forall b :: b in targets ==> Dist(vein.value, b) < FillDepth && IsTarget(world, b))
            && (forall b :: b in others ==> !IsTarget(world, b))
            && Bounded(world, {}, targets, others))
    ensures var head := if broken.Some? && world(broken.value) == Stone then [Stone] else [];
      && |recorded| >= |head| && recorded[..|head|] == head
      && Distinct(recorded[|head|..])
      && ((exists b :: b in others && world(b) in Transparent) ==> recorded == head)
      && (vein.Some? && !(exists b :: b in others && world(b) in Transparent) ==>
            forall m :: m in recorded[|head|..] <==> exists b :: b in targets && world(b) == m)
  {
    recorded, vein, targets, others := [], None, {}, {};
    if broken.None? || world(broken.value) !in {Stone, Dirt, Gravel} {
      return;
    }
    var block := broken.value;
    if world(block) == Stone {
      recorded := [Stone];
    }
    ghost var head := recorded;
    var v := GetVein(world, block);
    vein := v;
    if v.None? {
      return;
    }
    var t, o := GetRelative(world, v.value, {}, {}, FillDepth);
    targets, others := t, o;
    var veto := Vetoed(world, o);
    if veto {
      return;
    }
    var found := RecordVein(world, t);
    recorded := recorded + found;
    assert recorded[|head|..] == found;
  }

  /** A player's mined-block counters (`SagaPlayer`'s), by material; a missing entry is 0. */
  class MinedBlocks {
    var counts: map<Material, int>

    constructor ()
      ensures counts == map[]
    {
      counts := map[];
    }

    /** The counter of `m`. */
    function Count(m: Material): (n: int)
      reads this
      ensures m !in counts ==> n == 0
      ensures m in counts ==> n == counts[m]
    {
      Lookup(counts, m).GetOr(0)
    }

    /** `addMinedBlocks`: raises the counter of `m` and answers the new value. */
    method Add(m: Material, amount: int) returns (total: int)
      modifies this
      ensures total == old(Count(m)) + amount
      ensures counts == old(counts)[m := total]
    {
      total := Count(m) + amount;
      counts := counts[m := total];
    }

    /** `clearMinedBlocks`: the counter of `m` returns to 0. */
    method Clear(m: Material)
      modifies this
      ensures counts == old(counts) - {m}
    {
      counts := counts - {m};
    }
  }

  /** One `onXrayStatisticsUpdate` call: a material and the count reported for it. */
  datatype Report = Report(material: Material, count: int)

  /** Reports from a flush: one per material of `materials`, with the count it had. */
  ghost predicate FlushReports(reports: seq<Report>, materials: set<Material>, counts: map<Material, int>)
  {
    && (forall i, j :: 0 <= i < j < |reports| ==> reports[i].material != reports[j].material)
    && (forall m :: m in materials <==> exists k :: 0 <= k < |reports| && reports[k].material == m)
    && (forall k :: 0 <= k < |reports| ==> reports[k].count == Lookup(counts, reports[k].material).GetOr(0))
  }

  /**
   * The flush loop of `handleMine`: the count of each of `materials` (the x-ray
   * materials) is reported and cleared, walking the set in an unspecified order; other counters stay.
   */
  method Flush(player: MinedBlocks, materials: set<Material>) returns (reports: seq<Report>)
    modifies player
    ensures FlushReports(reports, materials, old(player.counts))
    ensures player.counts == old(player.counts) - materials
  {
    reports := [];
    var todo := materials;
    while exists m :: m in todo
      decreases |todo|
      invariant todo <= materials
      invariant forall m :: m in player.counts <==> m in old(player.counts) && (m in todo || m !in materials)
      invariant forall m :: m in player.counts ==> player.counts[m] == old(player.counts)[m]
      invariant forall i, j :: 0 <= i < j < |reports| ==> reports[i].material != reports[j].material
      invariant forall k :: 0 <= k < |reports| ==> reports[k].material in materials && reports[k].material !in todo
      invariant forall m :: m in materials && m !in todo ==> exists k :: 0 <= k < |reports| && reports[k].material == m
      invariant forall k :: 0 <= k < |reports| ==> reports[k].count == Lookup(old(player.counts), reports[k].material).GetOr(0)
    {
      var m :| m in todo;
      ghost var prev := reports;
      reports := reports + [Report(m, player.Count(m))];
      assert forall k :: 0 <= k < |prev| ==> reports[k] == prev[k];
      assert reports[|prev|].material == m;
      player.Clear(m);
      todo := todo - {m};
    }
    assert forall m :: m !in todo;
    assert player.counts.Keys == (old(player.counts) - materials).Keys;
  }

  /**
   * `handleMine`: cancelled breaks and materials outside the x-ray set are ignored; otherwise
   * the material's counter rises by one, and once stone reaches `updateInterval` every x-ray
   * material's count is reported exactly once and cleared.
   */
  method HandleMine(player: MinedBlocks, cancelled: bool, material: Material, updateInterval: int)
    returns (reports: seq<Report>)
    modifies player
    ensures cancelled || material !in XrayMaterials ==> reports == [] && player.counts == old(player.counts)
    ensures !cancelled && material in XrayMaterials ==>
      var raised := old(player.counts)[material := old(player.Count(material)) + 1];
      if material == Stone && raised[Stone] >= updateInterval then
        FlushReports(reports, XrayMaterials, raised) && player.counts == raised - XrayMaterials
      else
        reports == [] && player.counts == raised
  {
    reports := [];
    if cancelled || material !in XrayMaterials {
      return;
    }
    var amount := player.Add(material, 1);
    if material == Stone && amount >= updateInterval {
      reports := Flush(player, XrayMaterials);
    }
  }
}
