/**
 * The award made when an entity dies: a player who killed a creature or another player
 * gets experience, and the kill is recorded in the statistics under a group and a name
 * (for player kills, the ten-level bucket of the victim's level).
 */
module EntityDeath {
  import opened Options
  import JavaInt

  predicate IsDigit(c: char)
  {
    '0' <= c <= '9'
  }

  predicate AllDigits(s: string)
  {
    forall i :: 0 <= i < |s| ==> IsDigit(s[i])
  }

  function DigitChar(d: int): (c: char)
    requires 0 <= d < 10
    ensures IsDigit(c) && c as int - '0' as int == d
  {
    ('0' as int + d) as char
  }

  /** The decimal digits of `n`, without leading zeros. */
  function NatToString(n: nat): (s: string)
    ensures s != [] && AllDigits(s)
    ensures |s| > 1 ==> s[0] != '0'
  {
    if n < 10 then [DigitChar(n)] else NatToString(n / 10) + [DigitChar(n % 10)]
  }

  /** The value of a non-empty string of decimal digits. */
  function ParseNat(s: string): nat
    requires s != [] && AllDigits(s)
  {
    if |s| == 1 then s[0] as int - '0' as int
    else ParseNat(s[..|s| - 1]) * 10 + (s[|s| - 1] as int - '0' as int)
  }

  /** Reading the digits back gives the number. */
  lemma {:induction false} ParseNatToString(n: nat)
    ensures ParseNat(NatToString(n)) == n
  {
    if n >= 10 {
      var s := NatToString(n);
      assert s[..|s| - 1] == NatToString(n / 10);
      ParseNatToString(n / 10);
    }
  }

  /** Java's decimal rendering of an `int`, as in string concatenation. */
  function IntToString(i: int): (s: string)
    ensures s != []
    ensures i >= 0 ==> AllDigits(s)
    ensures i < 0 ==> s[0] == '-' && AllDigits(s[1..])
  {
    if i < 0 then "-" + NatToString(-i) else NatToString(i)
  }

  /** Different numbers render differently. */
  lemma IntToStringInjective(a: int, b: int)
    requires IntToString(a) == IntToString(b)
    ensures a == b
  {
    if a >= 0 && b >= 0 {
      ParseNatToString(a);
      ParseNatToString(b);
    } else if a < 0 && b < 0 {
      assert NatToString(-a) == IntToString(a)[1..];
      assert NatToString(-b) == IntToString(b)[1..];
      ParseNatToString(-a);
      ParseNatToString(-b);
    }
  }

  /** The top of the ten-level bucket of `level`: the least multiple of 10 that is at least `level`. */
  function BucketTop(level: int): (m: int)
    ensures m % 10 == 0 && m - 10 < level <= m
  {
    ((level + 9) / 10) * 10
  }

  /** The label of the bucket whose top is `m`. */
  function Bucket(m: int): string
  {
    "levels " + IntToString(m - 9) + "-" + IntToString(m)
  }

  /**
   * The range label of a killed player's level, with the buckets 1-10, 11-20, ... up to the
   * last multiple of 10 not above `maximumLevel`: level 0 has its own label, a negative
   * level falls in the bucket whose top is 0, and a level beyond the last bucket has none.
   */
  function LevelRange(level: int, maximumLevel: int): string
  {
    if maximumLevel < 0 then ""
    else if level == 0 then "level 0"
    else if level < 0 then Bucket(0)
    else if BucketTop(level) <= maximumLevel then Bucket(BucketTop(level))
    else ""
  }

  /**
   * The label loop of `apply`: `maxi` runs over 0, 10, 20, ... while at most `maximumLevel`,
   * and the first `maxi` not below the level gives the label.
   */
  method RangeLabel(level: int, maximumLevel: int) returns (range: string)
    requires maximumLevel <= JavaInt.MAX - 10
    ensures range == LevelRange(level, maximumLevel)
  {
    range := "";
    var maxi := 0;
    while maxi <= maximumLevel
      invariant 0 <= maxi && maxi % 10 == 0
      invariant maxi > 0 ==> maxi - 10 < level && maxi - 10 <= maximumLevel
      decreases maximumLevel - maxi
    {
      if level < maxi + 1 {
        if level == 0 {
          range := "level " + IntToString(level);
        } else {
          range := "levels " + IntToString(maxi - 9) + "-" + IntToString(maxi);
          assert maxi > 0 ==> BucketTop(level) == maxi;
        }
        break;
      }
      maxi := maxi + 10;
    }
    assert range == "" ==> maxi > maximumLevel;
    assert range == "" && maxi > 0 && level >= 1 ==> BucketTop(level) >= maxi;
  }

  /** Two levels of at least 1 with a label share it exactly when they lie in the same bucket. */
  lemma SameLabelSameBucket(a: int, b: int, maximumLevel: int)
    requires a >= 1 && b >= 1
    requires LevelRange(a, maximumLevel) != "" && LevelRange(b, maximumLevel) != ""
    ensures LevelRange(a, maximumLevel) == LevelRange(b, maximumLevel) <==> (a - 1) / 10 == (b - 1) / 10
  {
    var ma, mb := BucketTop(a), BucketTop(b);
    assert (a - 1) / 10 == (b - 1) / 10 <==> ma == mb by {
      BucketTopByQuotient(a);
      BucketTopByQuotient(b);
    }
    if Bucket(ma) == Bucket(mb) {
      BucketInjective(ma, mb);
    }
  }

  /** Bucket labels with tops of at least 9 differ for different tops. */
  lemma BucketInjective(ma: int, mb: int)
    requires ma >= 9 && mb >= 9
    requires Bucket(ma) == Bucket(mb)
    ensures ma == mb
  {
    var ta := IntToString(ma - 9) + "-" + IntToString(ma);
    var tb := IntToString(mb - 9) + "-" + IntToString(mb);
    BucketSplit(ma);
    BucketSplit(mb);
    PrefixCancel("levels ", ta, tb);
    SplitAtDash(IntToString(ma - 9), IntToString(ma), IntToString(mb - 9), IntToString(mb));
    IntToStringInjective(ma, mb);
  }

  lemma BucketSplit(m: int)
    ensures Bucket(m) == "levels " + (IntToString(m - 9) + "-" + IntToString(m))
  {
    AppendAssociative("levels " + IntToString(m - 9), "-", IntToString(m));
    AppendAssociative("levels ", IntToString(m - 9), "-" + IntToString(m));
    AppendAssociative(IntToString(m - 9), "-", IntToString(m));
  }

  lemma PrefixCancel(p: string, a: string, b: string)
    requires p + a == p + b
    ensures a == b
  {
    assert a == (p + a)[|p|..];
    assert b == (p + b)[|p|..];
  }

  /** For a level of at least 1, the bucket top is ten times one more than `(level - 1) / 10`. */
  lemma BucketTopByQuotient(level: int)
    requires level >= 1
    ensures BucketTop(level) == ((level - 1) / 10 + 1) * 10
  {
    assert (level + 9) / 10 == (level - 1) / 10 + 1;
  }

  /** Splitting `x-y` at its only dash: digit strings before the dash are determined. */
  lemma SplitAtDash(x: string, y: string, u: string, v: string)
    requires AllDigits(x) && AllDigits(u)
    requires x + "-" + y == u + "-" + v
    ensures x == u && y == v
  {
    var s := x + "-" + y;
    assert s[|x|] == '-' && s[|u|] == '-';
    assert forall i :: 0 <= i < |x| ==> s[i] == x[i] != '-';
    assert forall i :: 0 <= i < |u| ==> s[i] == u[i] != '-';
    assert |x| == |u|;
    assert x == s[..|x|] == u;
    assert y == s[|x| + 1..] == v;
  }

  /** For `maximumLevel >= 0`, a level of at least 1 has no label exactly when it lies above the last bucket. */
  lemma LevelRangeEmpty(level: int, maximumLevel: int)
    requires level >= 1 && maximumLevel >= 0
    ensures LevelRange(level, maximumLevel) == "" <==> level > (maximumLevel / 10) * 10
  {
    BucketTopByQuotient(level);
    var q := (level - 1) / 10;
    if level <= (maximumLevel / 10) * 10 {
      assert q < maximumLevel / 10;
    } else {
      assert q + 1 > maximumLevel / 10;
    }
  }

  /** What the last damage of a dying entity says about the kill. */
  datatype Kill = Kill(
    playerAttackCreature: bool,
    playerAttackPlayer: bool,
    /** `getExp` of the creature and the statistics name of its class. */
    creatureExp: real,
    creatureName: string,
    /** Whether the creature carries the spawner tag. */
    spawnerTagged: bool,
    /** `getExp` of the killed player and that player's level. */
    playerExp: real,
    defenderLevel: int)

  datatype DeathConfig = DeathConfig(spawnerExpMult: real, spawnerEncPointMult: real, maximumLevel: int)

  /** One `addExp` statistics call. */
  datatype Stat = Stat(group: string, name: string, exp: real)

  /** The effect of `apply`: the experience awarded, the statistics entry, the new dropped experience. */
  datatype Outcome = Outcome(awarded: Option<real>, stat: Option<Stat>, droppedExp: int)

  /**
   * `apply`: nothing without a last damage event; a creature kill takes precedence over a
   * player kill; a spawner-tagged creature gives multiplied experience under the group
   * `creature(spawner)` and has its dropped experience scaled (rounded by `randomRound`);
   * a player kill is recorded under `player` with the victim's range label.
   */
  function Apply(damage: Option<Kill>, droppedExp: int, cfg: DeathConfig, randomRound: real -> int): (r: Outcome)
    ensures damage.None? ==> r == Outcome(None, None, droppedExp)
    ensures r.awarded.Some? <==> r.stat.Some?
    ensures r.stat.Some? ==> r.stat.value.exp == r.awarded.value
    ensures r.stat.Some? <==> damage.Some? && (damage.value.playerAttackCreature || damage.value.playerAttackPlayer)
    ensures r.stat.Some? ==> (r.stat.value.group == "player" <==> !damage.value.playerAttackCreature)
    ensures r.stat.Some? && damage.value.playerAttackCreature ==>
      && r.stat.value.name == damage.value.creatureName
      && (r.stat.value.group == "creature(spawner)" <==> damage.value.spawnerTagged)
      && (r.stat.value.group == "creature" <==> !damage.value.spawnerTagged)
      && r.awarded.value == damage.value.creatureExp * (if damage.value.spawnerTagged then cfg.spawnerExpMult else 1.0)
    ensures r.stat.Some? && !damage.value.playerAttackCreature ==>
      r.awarded.value == damage.value.playerExp && r.stat.value.name == LevelRange(damage.value.defenderLevel, cfg.maximumLevel)
    ensures r.droppedExp != droppedExp ==> damage.Some? && damage.value.playerAttackCreature && damage.value.spawnerTagged
    ensures damage.Some? && damage.value.playerAttackCreature && damage.value.spawnerTagged ==>
      r.droppedExp == randomRound(cfg.spawnerEncPointMult * droppedExp as real)
  {
    if damage.None? then Outcome(None, None, droppedExp)
    else
      var kill := damage.value;
      if kill.playerAttackCreature then
        if kill.spawnerTagged then
          var exp := kill.creatureExp * cfg.spawnerExpMult;
          Outcome(Some(exp), Some(Stat("creature(spawner)", kill.creatureName, exp)),
                  randomRound(cfg.spawnerEncPointMult * droppedExp as real))
        else
          Outcome(Some(kill.creatureExp), Some(Stat("creature", kill.creatureName, kill.creatureExp)), droppedExp)
      else if kill.playerAttackPlayer then
        var range := LevelRange(kill.defenderLevel, cfg.maximumLevel);
        Outcome(Some(kill.playerExp), Some(Stat("player", range, kill.playerExp)), droppedExp)
      else
        Outcome(None, None, droppedExp)
  }
}
