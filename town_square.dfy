/**
 * The town square building: a spawn point with a cooldown that counts down once a second,
 * and the rule that picks which of a settlement's town squares a player spawns at.
 */
module TownSquares {
  import opened Options
  import JavaInt

  /** The transient cooldown of a town square: whether it runs and the seconds left. */
  datatype Cooldown = Cooldown(on: bool, left: int)

  /** One second of the cooldown: a running one counts down (as a Java `int`) and stops at 0 or below. */
  function Tick(c: Cooldown): Cooldown
  {
    if !c.on then c
    else
      var left := JavaInt.Wrap(c.left - 1);
      if left <= 0 then Cooldown(false, 0) else Cooldown(true, left)
  }

  /** The cooldown after `n` seconds. */
  function Ticks(c: Cooldown, n: nat): Cooldown
    decreases n
  {
    if n == 0 then c else Tick(Ticks(c, n - 1))
  }

  /**
   * A cooldown started at `s` seconds (a Java `int`, at least 1) runs for exactly `s`
   * seconds: after `k < s` ticks `s - k` seconds are left, after `s` it has stopped.
   */
  lemma {:induction false} TicksCountDown(s: int, k: nat)
    requires 1 <= s <= JavaInt.MAX && k <= s
    ensures Ticks(Cooldown(true, s), k) == if k < s then Cooldown(true, s - k) else Cooldown(false, 0)
  {
    if k > 0 {
      TicksCountDown(s, k - 1);
    }
  }

  /** A stopped cooldown stays stopped. */
  lemma {:induction false} TicksStopped(c: Cooldown, n: nat)
    requires !c.on
    ensures Ticks(c, n) == c
  {
    if n > 0 {
      TicksStopped(c, n - 1);
    }
  }

  class TownSquare {
    /** Whether players spawn here; `None` stands for a field missing from the saved data. */
    var spawnEnabled: Option<bool>
    var isOnCooldown: bool
    var cooldownLeft: int
    /** Whether the building is registered with the clock's second tick. */
    var subscribed: bool
    /** The building level (`Building.getLevel`). */
    var level: int

    /** The cooldown fields as one value. */
    function CooldownState(): Cooldown
      reads this
    {
      Cooldown(isOnCooldown, cooldownLeft)
    }

    /** `TownSquare(name)`: spawning on, no cooldown, not subscribed. */
    constructor (level: int)
      ensures spawnEnabled == Some(true) && !isOnCooldown && cooldownLeft == 0
      ensures !subscribed && this.level == level
    {
      spawnEnabled := Some(true);
      isOnCooldown := false;
      cooldownLeft := 0;
      subscribed := false;
      this.level := level;
    }

    /**
     * `completeExtended`: a missing `spawnEnabled` becomes true and makes the answer false;
     * the transient cooldown starts stopped at 0.
     */
    method CompleteExtended() returns (integrity: bool)
      modifies this
      ensures integrity <==> old(spawnEnabled).Some?
      ensures spawnEnabled == if old(spawnEnabled).None? then Some(true) else old(spawnEnabled)
      ensures CooldownState() == Cooldown(false, 0)
      ensures subscribed == old(subscribed) && level == old(level)
    {
      integrity := true;
      if spawnEnabled.None? {
        spawnEnabled := Some(true);
        integrity := false;
      }
      isOnCooldown := false;
      cooldownLeft := 0;
    }

    /** `disable`: leaves the second tick only when on cooldown; the cooldown fields stay. */
    method Disable()
      modifies this
      ensures subscribed == (old(subscribed) && !old(isOnCooldown))
      ensures CooldownState() == old(CooldownState())
      ensures spawnEnabled == old(spawnEnabled) && level == old(level)
    {
      if isOnCooldown {
        subscribed := false;
      }
    }

    /** `clockSecondTick`: one Tick of the cooldown; stopping it leaves the second tick. */
    method ClockSecondTick()
      modifies this
      ensures CooldownState() == Tick(old(CooldownState()))
      ensures subscribed == (old(subscribed) && !(old(isOnCooldown) && !isOnCooldown))
      ensures spawnEnabled == old(spawnEnabled) && level == old(level)
    {
      if !isOnCooldown {
        return;
      }
      cooldownLeft := JavaInt.Wrap(cooldownLeft - 1);
      if cooldownLeft <= 0 {
        StopCooldown();
      }
    }

    /** `startCooldown`: the cooldown runs for the level function's value, as an `int`. */
    method StartCooldown(levelFunction: int -> real)
      modifies this
      ensures CooldownState() == Cooldown(true, JavaInt.DoubleToInt(levelFunction(level)))
      ensures subscribed
      ensures spawnEnabled == old(spawnEnabled) && level == old(level)
    {
      isOnCooldown := true;
      cooldownLeft := JavaInt.DoubleToInt(levelFunction(level));
      subscribed := true;
    }

    /** `stopCooldown`: the cooldown stops at 0 and the building leaves the second tick. */
    method StopCooldown()
      modifies this
      ensures CooldownState() == Cooldown(false, 0) && !subscribed
      ensures spawnEnabled == old(spawnEnabled) && level == old(level)
    {
      isOnCooldown := false;
      cooldownLeft := 0;
      subscribed := false;
    }

    /** `getCooldown`: the seconds left. */
    function GetCooldown(): (c: int)
      reads this
      ensures c == CooldownState().left
    {
      cooldownLeft
    }

    /** `isOnCooldown`: whether the cooldown runs. */
    function IsOnCooldown(): (b: bool)
      reads this
      ensures b == CooldownState().on
    {
      isOnCooldown
    }
  }

  /**
   * The selection loop of `spawn`: the first town square not on cooldown, and the smallest
   * cooldown among the squares looked at (all of them when every one is on cooldown),
   * starting from `Integer.MAX_VALUE`.
   */
  method SelectSpawn(buildings: seq<TownSquare>) returns (selected: Option<nat>, smallest: int)
    ensures selected.Some? ==>
      && selected.value < |buildings| && !buildings[selected.value].isOnCooldown
      && forall j :: 0 <= j < selected.value ==> buildings[j].isOnCooldown
    ensures selected.None? ==> forall j :: 0 <= j < |buildings| ==> buildings[j].isOnCooldown
    ensures var seen := if selected.Some? then selected.value + 1 else |buildings|;
      && smallest <= JavaInt.MAX
      && (forall j :: 0 <= j < seen ==> smallest <= buildings[j].cooldownLeft)
      && (smallest == JavaInt.MAX || exists j :: 0 <= j < seen && smallest == buildings[j].cooldownLeft)
  {
    smallest := JavaInt.MAX;
    selected := None;
    var i := 0;
    while i < |buildings|
      invariant 0 <= i <= |buildings|
      invariant forall j :: 0 <= j < i ==> buildings[j].isOnCooldown
      invariant smallest <= JavaInt.MAX
      invariant forall j :: 0 <= j < i ==> smallest <= buildings[j].cooldownLeft
      invariant smallest == JavaInt.MAX || exists j :: 0 <= j < i && smallest == buildings[j].cooldownLeft
    {
      var townSquare := buildings[i];
      if townSquare.GetCooldown() < smallest {
        smallest := townSquare.GetCooldown();
      }
      if !townSquare.IsOnCooldown() {
        selected := Some(i);
        return;
      }
      i := i + 1;
    }
  }

  /** What `spawn` tells the player. */
  datatype SpawnResult =
    | NoPermission
    | NoTownSquare
    | AllOnCooldown(smallest: int)
    | LocationFailed(building: nat)
    | Spawned(building: nat)

  /**
   * `spawn` from the permission check on: refused without permission or town squares;
   * otherwise the selected square, if any, spawns the player when it yields a location
   * (`located`, which stands for the random spread) and then starts its cooldown.
   */
  method Spawn(buildings: seq<TownSquare>, permitted: bool, located: bool, levelFunction: int -> real)
    returns (r: SpawnResult)
    modifies set b | b in buildings
    ensures !permitted ==> r == NoPermission
    ensures permitted && buildings == [] ==> r == NoTownSquare
    ensures r.NoPermission? ==> !permitted
    ensures r.NoTownSquare? ==> permitted && buildings == []
    ensures r.AllOnCooldown? ==> forall j :: 0 <= j < |buildings| ==> old(buildings[j].isOnCooldown)
    ensures r.AllOnCooldown? ==>
      && (forall j :: 0 <= j < |buildings| ==> r.smallest <= old(buildings[j].cooldownLeft))
      && (r.smallest == JavaInt.MAX || exists j :: 0 <= j < |buildings| && r.smallest == old(buildings[j].cooldownLeft))
    ensures r.LocationFailed? ==> !located
    ensures (r.LocationFailed? || r.Spawned?) ==>
      && permitted && r.building < |buildings| && !old(buildings[r.building].isOnCooldown)
      && forall j :: 0 <= j < r.building ==> old(buildings[j].isOnCooldown)
    ensures r.Spawned? ==>
      && located
      && buildings[r.building].CooldownState() == Cooldown(true, JavaInt.DoubleToInt(levelFunction(old(buildings[r.building].level))))
      && buildings[r.building].subscribed
    ensures permitted && buildings != [] && located && (exists j :: 0 <= j < |buildings| && !old(buildings[j].isOnCooldown)) ==> r.Spawned?
    ensures !r.Spawned? ==> forall b :: b in buildings ==> b.CooldownState() == old(b.CooldownState()) && b.subscribed == old(b.subscribed)
    ensures r.Spawned? ==> forall b :: b in buildings && b != buildings[r.building] ==>
      b.CooldownState() == old(b.CooldownState()) && b.subscribed == old(b.subscribed)
    ensures forall b :: b in buildings ==> b.spawnEnabled == old(b.spawnEnabled) && b.level == old(b.level)
  {
    if !permitted {
      return NoPermission;
    }
    if |buildings| == 0 {
      return NoTownSquare;
    }
    var selected, smallest := SelectSpawn(buildings);
    if selected.None? {
      return AllOnCooldown(smallest);
    }
    if !located {
      return LocationFailed(selected.value);
    }
    buildings[selected.value].StartCooldown(levelFunction);
    return Spawned(selected.value);
  }
}
