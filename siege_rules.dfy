/**
 * The siege engine's rules, on values: elapsed-time arithmetic, the reminder policy,
 * who counts as a sieging member, one second tick of one bundle, and the load-time
 * repair of the declaration table. The class in siege_manager.dfy runs these rules
 * over its tables.
 */
module SiegeRules {
  import opened Options
  import JavaInt

  const MILLIS_PER_MINUTE: int := 60000
  const MILLIS_PER_SECOND: int := 1000

  /** Faction configuration used by sieges; every value is a Java `int`. */
  datatype SiegeConfig = SiegeConfig(
    prepareMinutes: int,
    inProgressRemindInterval: int,
    shortRemindStart: int,
    shortRemindInterval: int,
    longRemindInterval: int,
    ptsPerSecond: int -> real)
  {
    /** The reminder intervals are divisors, so they must be positive. */
    predicate Valid()
    {
      && JavaInt.InRange(prepareMinutes)
      && JavaInt.InRange(shortRemindStart)
      && 0 < inProgressRemindInterval <= JavaInt.MAX
      && 0 < shortRemindInterval <= JavaInt.MAX
      && 0 < longRemindInterval <= JavaInt.MAX
    }
  }

  /** The chunk a player last stood in: the bundle it belongs to and whether it is a border chunk. */
  datatype Chunk = Chunk(bundle: int, border: bool)

  /** An online faction member; `chunk` is None when the player is not in any bundle. */
  datatype Member = Member(name: string, chunk: Option<Chunk>)

  /**
   * What the siege engine asks of the faction and bundle managers: the online members of
   * every faction that resolves, and the IDs of the bundles that exist.
   */
  datatype Directory = Directory(online: map<int, seq<Member>>, bundles: set<int>)

  /** Messages sent to a faction, in the order they are sent. */
  datatype Notice =
    | AttackReminder(faction: int, bundle: int)
    | DefendReminder(faction: int, bundle: int)
    | AttackSuccess(faction: int, bundle: int)
    | DefendFailure(faction: int, bundle: int)
    | AttackFailure(faction: int, bundle: int)
    | DefendSuccess(faction: int, bundle: int)

  // Time.

  /** `calcPassedMinutes`: `(int) ((now - declared) / 60000)` with Java's truncating long division. */
  function PassedMinutes(declared: int, now: int): (r: int)
    ensures JavaInt.InRange(r)
    ensures 0 <= now - declared < (JavaInt.MAX + 1) * MILLIS_PER_MINUTE ==>
      r * MILLIS_PER_MINUTE <= now - declared < r * MILLIS_PER_MINUTE + MILLIS_PER_MINUTE
    ensures -MILLIS_PER_MINUTE < now - declared < MILLIS_PER_MINUTE ==> r == 0
  {
    JavaInt.DivTruncates(now - declared, MILLIS_PER_MINUTE);
    JavaInt.Wrap(JavaInt.Div(now - declared, MILLIS_PER_MINUTE))
  }

  /** `calcPassedSeconds`: `(int) ((now - declared) / 1000)`. */
  function PassedSeconds(declared: int, now: int): (r: int)
    ensures JavaInt.InRange(r)
    ensures 0 <= now - declared < (JavaInt.MAX + 1) * MILLIS_PER_SECOND ==>
      r * MILLIS_PER_SECOND <= now - declared < r * MILLIS_PER_SECOND + MILLIS_PER_SECOND
  {
    JavaInt.DivTruncates(now - declared, MILLIS_PER_SECOND);
    JavaInt.Wrap(JavaInt.Div(now - declared, MILLIS_PER_SECOND))
  }

  /** The remaining minutes that `getSiegeRemainingMinutes` reports for a dated declaration. */
  function RemainingMinutes(prepareMinutes: int, declared: int, now: int): (r: int)
    ensures JavaInt.InRange(r)
    ensures now == declared && JavaInt.InRange(prepareMinutes) ==> r == prepareMinutes
  {
    JavaInt.Wrap(prepareMinutes - PassedMinutes(declared, now))
  }

  /** Nothing wraps: the elapsed time is non-negative and the remaining minutes fit an `int`. */
  predicate NoOverflow(prepareMinutes: int, declared: int, now: int)
  {
    && JavaInt.InRange(prepareMinutes)
    && 0 <= now - declared < (JavaInt.MAX + 1) * MILLIS_PER_SECOND
    && JavaInt.InRange(prepareMinutes - PassedMinutes(declared, now))
  }

  /**
   * The reminder policy and the siege tick agree on when the contest has begun:
   * the remaining minutes are at most zero exactly when the passed minutes reach the
   * preparation time.
   */
  lemma RemainingNonPositiveIffBegun(prepareMinutes: int, declared: int, now: int)
    requires NoOverflow(prepareMinutes, declared, now)
    ensures RemainingMinutes(prepareMinutes, declared, now) <= 0 <==>
      PassedMinutes(declared, now) >= prepareMinutes
  {
  }

  /** As time goes on, the remaining minutes never increase (while nothing wraps). */
  lemma RemainingNonIncreasing(prepareMinutes: int, declared: int, now1: int, now2: int)
    requires now1 <= now2
    requires NoOverflow(prepareMinutes, declared, now1) && NoOverflow(prepareMinutes, declared, now2)
    ensures RemainingMinutes(prepareMinutes, declared, now2) <= RemainingMinutes(prepareMinutes, declared, now1)
  {
    var m1, m2 := PassedMinutes(declared, now1), PassedMinutes(declared, now2);
    assert m1 * MILLIS_PER_MINUTE < (m2 + 1) * MILLIS_PER_MINUTE;
    ScaledLess(m1, m2 + 1, MILLIS_PER_MINUTE);
  }

  /** Dividing both sides of a strict inequality by the same positive factor. */
  lemma ScaledLess(a: int, b: int, k: int)
    requires k > 0 && a * k < b * k
    ensures a < b
  {
  }

  /**
   * `clockSecondTick` calls `handleRemind` when `passedMinutes * 60 == passedSeconds`,
   * the multiplication being an `int` one.
   */
  predicate IsReminderSecond(declared: int, now: int)
  {
    JavaInt.Wrap(PassedMinutes(declared, now) * 60) == PassedSeconds(declared, now)
  }

  /**
   * The reminder check passes during the first second of every elapsed minute and at no
   * other time, so a declaration is reminded at most once per minute.
   */
  lemma ReminderSecondAligned(declared: int, now: int)
    requires 0 <= now - declared < (JavaInt.MAX + 1) * MILLIS_PER_SECOND
    ensures IsReminderSecond(declared, now) <==> (now - declared) % MILLIS_PER_MINUTE < MILLIS_PER_SECOND
  {
    var e := now - declared;
    var m := e / MILLIS_PER_MINUTE;
    var r := e % MILLIS_PER_MINUTE;
    assert e == m * MILLIS_PER_MINUTE + r;
    assert JavaInt.Div(e, MILLIS_PER_MINUTE) == m;
    assert 0 <= m <= JavaInt.MAX;
    assert PassedMinutes(declared, now) == m;
    var s := e / MILLIS_PER_SECOND;
    assert JavaInt.Div(e, MILLIS_PER_SECOND) == s;
    assert 0 <= s <= JavaInt.MAX;
    assert PassedSeconds(declared, now) == s;
    assert e == (m * 60) * MILLIS_PER_SECOND + r;
    assert s == m * 60 + r / MILLIS_PER_SECOND by {
      assert e == (m * 60 + r / MILLIS_PER_SECOND) * MILLIS_PER_SECOND + r % MILLIS_PER_SECOND;
    }
    assert 0 <= m * 60 <= s;
    assert JavaInt.Wrap(m * 60) == m * 60;
  }

  /**
   * `handleRemind`'s interval test on the remaining minutes, in the source's `int`
   * arithmetic: `-minutes` wraps and `%` is Java's.
   */
  function ShouldRemind(minutes: int, cfg: SiegeConfig): bool
    requires cfg.Valid()
  {
    if minutes <= 0 then
      JavaInt.Rem(JavaInt.Wrap(-minutes), cfg.inProgressRemindInterval) == 0
    else if minutes <= cfg.shortRemindStart then
      JavaInt.Rem(minutes, cfg.shortRemindInterval) == 0
    else
      JavaInt.Rem(minutes, cfg.longRemindInterval) == 0
  }

  /**
   * Reminders fire in exactly three regimes: once the siege runs, every
   * `inProgressRemindInterval` minutes; up to `shortRemindStart` minutes before it, every
   * `shortRemindInterval`; earlier, every `longRemindInterval`.
   */
  lemma ShouldRemindRule(minutes: int, cfg: SiegeConfig)
    requires cfg.Valid() && JavaInt.InRange(minutes)
    ensures ShouldRemind(minutes, cfg) <==>
      || (minutes <= 0 && (-minutes) % cfg.inProgressRemindInterval == 0)
      || (0 < minutes <= cfg.shortRemindStart && minutes % cfg.shortRemindInterval == 0)
      || (0 < minutes && cfg.shortRemindStart < minutes && minutes % cfg.longRemindInterval == 0)
  {
    if minutes <= 0 {
      JavaInt.WrapNegation(minutes, cfg.inProgressRemindInterval);
      JavaInt.NegationKeepsDivisibility(minutes, cfg.inProgressRemindInterval);
      JavaInt.RemOfDiv(JavaInt.Wrap(-minutes), cfg.inProgressRemindInterval);
    } else if minutes <= cfg.shortRemindStart {
      JavaInt.RemOfDiv(minutes, cfg.shortRemindInterval);
    } else {
      JavaInt.RemOfDiv(minutes, cfg.longRemindInterval);
    }
  }

  // Sieging members.

  /** `findSiegingMembers`' test: the member stands in a non-border chunk of the bundle. */
  predicate IsSieging(m: Member, bundle: int)
  {
    m.chunk.Some? && m.chunk.value.bundle == bundle && !m.chunk.value.border
  }

  /** The positions of the members that count for a siege of `bundle`. */
  function SiegingPositions(members: seq<Member>, bundle: int): set<int>
  {
    set i | 0 <= i < |members| && IsSieging(members[i], bundle)
  }

  /**
   * The members that count for a siege of `bundle`, in list order (SiegingMultiplicity:
   * each qualifying member as often as it is listed).
   */
  function Sieging(members: seq<Member>, bundle: int): (r: seq<Member>)
    ensures |r| <= |members|
    ensures forall m :: m in r <==> m in members && IsSieging(m, bundle)
  {
    if members == [] then []
    else
      var init := members[..|members| - 1];
      var last := members[|members| - 1];
      assert members == init + [last];
      Sieging(init, bundle) + (if IsSieging(last, bundle) then [last] else [])
  }

  /** Each qualifying member is counted as often as it is listed, any other member not at all. */
  lemma {:induction false} SiegingMultiplicity(members: seq<Member>, bundle: int)
    ensures forall m ::
      multiset(Sieging(members, bundle))[m] == if IsSieging(m, bundle) then multiset(members)[m] else 0
  {
    if members != [] {
      var init := members[..|members| - 1];
      var last := members[|members| - 1];
      assert members == init + [last];
      SiegingMultiplicity(init, bundle);
    }
  }

  /** Extending the list by one member extends the sieging members by it when it qualifies. */
  lemma SiegingStep(members: seq<Member>, bundle: int, i: nat)
    requires i < |members|
    ensures Sieging(members[..i + 1], bundle) ==
      Sieging(members[..i], bundle) + (if IsSieging(members[i], bundle) then [members[i]] else [])
  {
    assert members[..i + 1][..i] == members[..i];
  }

  /** One sieging entry per qualifying position of the list. */
  lemma {:induction false} SiegingPositionsCount(members: seq<Member>, bundle: int)
    ensures |Sieging(members, bundle)| == |SiegingPositions(members, bundle)|
  {
    if members != [] {
      var init := members[..|members| - 1];
      var last := members[|members| - 1];
      assert members == init + [last];
      assert forall i :: 0 <= i < |init| ==> members[i] == init[i];
      assert SiegingPositions(members, bundle) ==
        SiegingPositions(init, bundle) + (if IsSieging(last, bundle) then {|init|} else {});
      SiegingPositionsCount(init, bundle);
    }
  }

  /** The number of a faction's sieging members; a faction that does not resolve has none. */
  function SiegingCount(dir: Directory, faction: int, bundle: int): (n: nat)
    ensures faction !in dir.online ==> n == 0
    ensures faction in dir.online ==> n == |SiegingPositions(dir.online[faction], bundle)|
    ensures faction in dir.online ==> n <= |dir.online[faction]|
  {
    if faction in dir.online then
      SiegingPositionsCount(dir.online[faction], bundle);
      |Sieging(dir.online[faction], bundle)|
    else 0
  }

  /** `FactionManager.getFaction` for an optional ID: None unless the ID resolves. */
  function Resolve(dir: Directory, id: Option<int>): (r: Option<int>)
    ensures r.Some? <==> id.Some? && id.value in dir.online
    ensures r.Some? ==> r == id
  {
    if id.Some? && id.value in dir.online then id else None
  }

  // One bundle's entries in the six tables.

  /** The entries the six tables hold for one bundle. */
  datatype SiegeView = SiegeView(
    attacker: Option<int>,
    date: Option<int>,
    progress: Option<real>,
    owner: Option<int>,
    attackers: Option<int>,
    defenders: Option<int>)
  {
    /** A declaration has its date: attacker and timestamp are kept together. */
    predicate Synced()
    {
      attacker.Some? ==> date.Some?
    }
  }

  /** The six tables of the siege engine. */
  datatype Tables = Tables(
    declaredSieges: map<int, int>,
    declaredDates: map<int, int>,
    siegeProgresses: map<int, real>,
    owningFaction: map<int, int>,
    attackers: map<int, int>,
    defenders: map<int, int>)
  {
    function View(bundle: int): (v: SiegeView)
      ensures v.attacker.Some? <==> bundle in declaredSieges
    {
      SiegeView(
        Lookup(declaredSieges, bundle), Lookup(declaredDates, bundle),
        Lookup(siegeProgresses, bundle), Lookup(owningFaction, bundle),
        Lookup(attackers, bundle), Lookup(defenders, bundle))
    }
  }

  /**
   * The messages of a concluded siege: the attacker hears of its success or failure and a
   * resolvable defender of the opposite outcome. When the attacker does not resolve the
   * source fails on it before sending anything, so nothing is sent.
   */
  function ConclusionNotices(dir: Directory, bundle: int, attacker: int, defender: Option<int>, success: bool): (ns: seq<Notice>)
    ensures attacker !in dir.online ==> ns == []
    ensures attacker in dir.online ==> |ns| >= 1 && ns[0] == (if success then AttackSuccess(attacker, bundle) else AttackFailure(attacker, bundle))
    ensures |ns| == 2 <==> attacker in dir.online && Resolve(dir, defender).Some?
    ensures |ns| == 2 ==> ns[1] == (if success then DefendFailure(defender.value, bundle) else DefendSuccess(defender.value, bundle))
  {
    if attacker !in dir.online then []
    else
      var first := if success then AttackSuccess(attacker, bundle) else AttackFailure(attacker, bundle);
      match Resolve(dir, defender)
      case None => [first]
      case Some(d) => [first] + [if success then DefendFailure(d, bundle) else DefendSuccess(d, bundle)]
  }

  /**
   * `handleSiegeSucess` / `handleSiegeFailure` on one bundle: every entry of the bundle is
   * removed; on success the attacker becomes the owner, on failure the owner stays.
   */
  function Conclude(v: SiegeView, dir: Directory, bundle: int, attacker: int, success: bool): (r: (SiegeView, seq<Notice>))
    ensures r.0.attacker.None? && r.0.date.None? && r.0.progress.None?
    ensures r.0.attackers.None? && r.0.defenders.None?
    ensures r.0.owner == if success then Some(attacker) else v.owner
    ensures r.1 == ConclusionNotices(dir, bundle, attacker, v.owner, success)
  {
    var owner := if success then Some(attacker) else v.owner;
    (SiegeView(None, None, None, owner, None, None), ConclusionNotices(dir, bundle, attacker, v.owner, success))
  }

  /** The siege points progress changes by in one tick, from the two present counts. */
  function TickPoints(v: SiegeView, dir: Directory, bundle: int, attacker: int, cfg: SiegeConfig): real
  {
    var att := SiegingCount(dir, attacker, bundle);
    var def := if v.owner.Some? then SiegingCount(dir, v.owner.value, bundle) else 0;
    cfg.ptsPerSecond(att - def)
  }

  /**
   * `handleSiegeTick` on one bundle: count both sides, add the points of the difference to
   * the progress, conclude at +1 or -1, otherwise store the progress and the counts.
   */
  function SiegeTick(v: SiegeView, dir: Directory, bundle: int, attacker: int, cfg: SiegeConfig): (SiegeView, seq<Notice>)
  {
    var att := SiegingCount(dir, attacker, bundle);
    var def := if v.owner.Some? then SiegingCount(dir, v.owner.value, bundle) else 0;
    var p := v.progress.GetOr(0.0) + cfg.ptsPerSecond(att - def);
    if p >= 1.0 then Conclude(v, dir, bundle, attacker, true)
    else if p <= -1.0 then Conclude(v, dir, bundle, attacker, false)
    else (v.(progress := Some(p), attackers := Some(att), defenders := Some(def)), [])
  }

  /**
   * What a siege tick does: the counts are those of SiegingCount (the defender's is zero for
   * an unowned bundle); the progress becomes the old progress (default 0) plus the points of
   * their difference; at +1 or more the attacker wins, at -1 or less it loses, otherwise the
   * new progress and counts are stored and nothing is sent.
   */
  lemma SiegeTickOutcome(v: SiegeView, dir: Directory, bundle: int, attacker: int, cfg: SiegeConfig)
    ensures var r := SiegeTick(v, dir, bundle, attacker, cfg);
      var p := v.progress.GetOr(0.0) + TickPoints(v, dir, bundle, attacker, cfg);
      && (p >= 1.0 ==> r == Conclude(v, dir, bundle, attacker, true))
      && (p <= -1.0 ==> r == Conclude(v, dir, bundle, attacker, false))
      && (-1.0 < p < 1.0 ==> r.1 == [] && r.0 == v.(progress := Some(p),
            attackers := Some(SiegingCount(dir, attacker, bundle)),
            defenders := Some(if v.owner.Some? then SiegingCount(dir, v.owner.value, bundle) else 0)))
  {
  }

  /**
   * `handleRemind` on one bundle: `getSiegeRemainingMinutes` first (which drops a
   * declaration that has no date), then the interval test, then the messages to the
   * attacker and, if the bundle has a resolvable owner, to the defender.
   */
  function Remind(v: SiegeView, dir: Directory, bundle: int, now: int, cfg: SiegeConfig): (SiegeView, seq<Notice>)
    requires cfg.Valid()
  {
    if v.attacker.None? then (v, [])
    else if v.date.None? then (v.(attacker := None), [])
    else
      var minutes := RemainingMinutes(cfg.prepareMinutes, v.date.value, now);
      if !ShouldRemind(minutes, cfg) then (v, [])
      else if v.attacker.value !in dir.online then (v, [])
      else if bundle !in dir.bundles then (v, [])
      else
        var first := AttackReminder(v.attacker.value, bundle);
        match Resolve(dir, v.owner)
        case None => (v, [first])
        case Some(d) => (v, [first, DefendReminder(d, bundle)])
  }

  /**
   * What a reminder does: an undated declaration is dropped silently; a dated one is kept,
   * and the attacker (then a resolvable owner) is reminded exactly when the attacker and the
   * bundle resolve and the remaining minutes pass the interval test.
   */
  lemma RemindOutcome(v: SiegeView, dir: Directory, bundle: int, now: int, cfg: SiegeConfig)
    requires cfg.Valid()
    ensures var r := Remind(v, dir, bundle, now, cfg);
      && (v.attacker.Some? && v.date.None? ==> r == (v.(attacker := None), []))
      && (v.Synced() ==> r.0 == v)
      && |r.1| <= 2
      && (r.1 != [] <==> && v.attacker.Some? && v.date.Some? && v.attacker.value in dir.online
                         && bundle in dir.bundles
                         && ShouldRemind(RemainingMinutes(cfg.prepareMinutes, v.date.value, now), cfg))
      && (r.1 != [] ==> r.1[0] == AttackReminder(v.attacker.value, bundle))
      && (|r.1| == 2 <==> r.1 != [] && Resolve(dir, v.owner).Some?)
      && (|r.1| == 2 ==> r.1[1] == DefendReminder(v.owner.value, bundle))
  {
  }

  /**
   * One pass of `clockSecondTick`'s loop over a declared bundle: a declaration without a
   * date is dropped; otherwise a reminder is considered on a minute boundary, and once
   * the preparation time has passed the siege is ticked.
   */
  function SecondTick(v: SiegeView, dir: Directory, bundle: int, now: int, cfg: SiegeConfig): (SiegeView, seq<Notice>)
    requires cfg.Valid() && v.attacker.Some?
  {
    if v.date.None? then (v.(attacker := None), [])
    else
      var reminded := if IsReminderSecond(v.date.value, now) then Remind(v, dir, bundle, now, cfg).1 else [];
      if PassedMinutes(v.date.value, now) < cfg.prepareMinutes then (v, reminded)
      else
        var ticked := SiegeTick(v, dir, bundle, v.attacker.value, cfg);
        (ticked.0, reminded + ticked.1)
  }

  /**
   * What a second tick does to a declared bundle: it leaves the bundle synced; an undated
   * declaration is dropped; before the preparation time ends nothing changes; reminders
   * are sent only on a reminder second; the siege is ticked once the preparation ends.
   */
  lemma SecondTickOutcome(v: SiegeView, dir: Directory, bundle: int, now: int, cfg: SiegeConfig)
    requires cfg.Valid() && v.attacker.Some?
    ensures var r := SecondTick(v, dir, bundle, now, cfg);
      && r.0.Synced()
      && (v.date.None? ==> r == (v.(attacker := None), []))
      && (v.date.Some? && PassedMinutes(v.date.value, now) < cfg.prepareMinutes ==> r.0 == v)
      && (v.date.Some? && PassedMinutes(v.date.value, now) >= cfg.prepareMinutes ==>
            r.0 == SiegeTick(v, dir, bundle, v.attacker.value, cfg).0)
      && (v.date.Some? && !IsReminderSecond(v.date.value, now) ==>
            forall i :: 0 <= i < |r.1| ==> !r.1[i].AttackReminder? && !r.1[i].DefendReminder?)
  {
    if v.date.Some? {
      RemindOutcome(v, dir, bundle, now, cfg);
      SiegeTickOutcome(v, dir, bundle, v.attacker.value, cfg);
      var p := v.progress.GetOr(0.0) + TickPoints(v, dir, bundle, v.attacker.value, cfg);
      if !IsReminderSecond(v.date.value, now) && PassedMinutes(v.date.value, now) >= cfg.prepareMinutes {
        var ticked := SiegeTick(v, dir, bundle, v.attacker.value, cfg);
        forall i | 0 <= i < |ticked.1|
          ensures !ticked.1[i].AttackReminder? && !ticked.1[i].DefendReminder?
        {
        }
      }
    }
  }

  /** The tables with the entries of `bundle` replaced by `v`. */
  function SetView(t: Tables, bundle: int, v: SiegeView): Tables
  {
    Tables(
      Store(t.declaredSieges, bundle, v.attacker), Store(t.declaredDates, bundle, v.date),
      Store(t.siegeProgresses, bundle, v.progress), Store(t.owningFaction, bundle, v.owner),
      Store(t.attackers, bundle, v.attackers), Store(t.defenders, bundle, v.defenders))
  }

  /** SetView replaces the entries of `bundle` by `v` and keeps the others. */
  lemma SetViewViews(t: Tables, bundle: int, v: SiegeView)
    ensures SetView(t, bundle, v).View(bundle) == v
    ensures forall k :: k != bundle ==> SetView(t, bundle, v).View(k) == t.View(k)
  {
    StoreOthers(t.declaredSieges, bundle, v.attacker);
    StoreOthers(t.declaredDates, bundle, v.date);
    StoreOthers(t.siegeProgresses, bundle, v.progress);
    StoreOthers(t.owningFaction, bundle, v.owner);
    StoreOthers(t.attackers, bundle, v.attackers);
    StoreOthers(t.defenders, bundle, v.defenders);
  }

  /** Tables are determined by their bundle views. */
  lemma TablesExtensional(t1: Tables, t2: Tables)
    requires forall k :: t1.View(k) == t2.View(k)
    ensures t1 == t2
  {
    forall k
      ensures Lookup(t1.declaredSieges, k) == Lookup(t2.declaredSieges, k)
      ensures Lookup(t1.declaredDates, k) == Lookup(t2.declaredDates, k)
      ensures Lookup(t1.siegeProgresses, k) == Lookup(t2.siegeProgresses, k)
      ensures Lookup(t1.owningFaction, k) == Lookup(t2.owningFaction, k)
      ensures Lookup(t1.attackers, k) == Lookup(t2.attackers, k)
      ensures Lookup(t1.defenders, k) == Lookup(t2.defenders, k)
    {
      assert t1.View(k) == t2.View(k);
    }
    LookupExtensional(t1.declaredSieges, t2.declaredSieges);
    LookupExtensional(t1.declaredDates, t2.declaredDates);
    LookupExtensional(t1.siegeProgresses, t2.siegeProgresses);
    LookupExtensional(t1.owningFaction, t2.owningFaction);
    LookupExtensional(t1.attackers, t2.attackers);
    LookupExtensional(t1.defenders, t2.defenders);
  }

  /** Tables that differ from `t` only in the entries of `bundle` are `SetView(t, bundle, ...)`. */
  lemma SetViewUnique(t: Tables, bundle: int, v: SiegeView, r: Tables)
    requires r.View(bundle) == v
    requires forall k :: k != bundle ==> r.View(k) == t.View(k)
    ensures r == SetView(t, bundle, v)
  {
    SetViewViews(t, bundle, v);
    TablesExtensional(r, SetView(t, bundle, v));
  }

  /** Replacing a bundle's entries by the entries it already has changes nothing. */
  lemma SetViewSame(t: Tables, bundle: int)
    ensures SetView(t, bundle, t.View(bundle)) == t
  {
    StoreSame(t.declaredSieges, bundle);
    StoreSame(t.declaredDates, bundle);
    StoreSame(t.siegeProgresses, bundle);
    StoreSame(t.owningFaction, bundle);
    StoreSame(t.attackers, bundle);
    StoreSame(t.defenders, bundle);
  }

  /** Dropping only the declaration of a bundle. */
  lemma SetViewDropDeclaration(t: Tables, bundle: int)
    ensures SetView(t, bundle, t.View(bundle).(attacker := None)) == t.(declaredSieges := t.declaredSieges - {bundle})
  {
    StoreSame(t.declaredDates, bundle);
    StoreSame(t.siegeProgresses, bundle);
    StoreSame(t.owningFaction, bundle);
    StoreSame(t.attackers, bundle);
    StoreSame(t.defenders, bundle);
  }

  /** Of two successive replacements of the same bundle's entries only the second counts. */
  lemma SetViewTwice(t: Tables, bundle: int, v1: SiegeView, v2: SiegeView)
    ensures SetView(SetView(t, bundle, v1), bundle, v2) == SetView(t, bundle, v2)
  {
    StoreTwice(t.declaredSieges, bundle, v1.attacker, v2.attacker);
    StoreTwice(t.declaredDates, bundle, v1.date, v2.date);
    StoreTwice(t.siegeProgresses, bundle, v1.progress, v2.progress);
    StoreTwice(t.owningFaction, bundle, v1.owner, v2.owner);
    StoreTwice(t.attackers, bundle, v1.attackers, v2.attackers);
    StoreTwice(t.defenders, bundle, v1.defenders, v2.defenders);
  }

  /** What a second tick does to one declared bundle: its new entries and the messages sent. */
  type BundleStep = (SiegeView, int) -> (SiegeView, seq<Notice>)

  /** The step of `clockSecondTick`: SecondTick on every declared bundle. */
  function SecondStep(dir: Directory, now: int, cfg: SiegeConfig): BundleStep
    requires cfg.Valid()
  {
    (v: SiegeView, b: int) => if v.attacker.Some? then SecondTick(v, dir, b, now, cfg) else (v, [])
  }

  /**
   * `clockSecondTick`'s loop over the declared bundles, visited in `order`: each bundle still
   * declared when it is reached gets the step; the messages are collected in visiting order.
   */
  function TickAll(t: Tables, order: seq<int>, step: BundleStep): (Tables, seq<Notice>)
    decreases |order|
  {
    if order == [] then (t, [])
    else
      var prev := TickAll(t, order[..|order| - 1], step);
      var b := order[|order| - 1];
      if b !in prev.0.declaredSieges then prev
      else
        var s := step(prev.0.View(b), b);
        (SetView(prev.0, b, s.0), prev.1 + s.1)
  }

  /** The view a tick leaves for one bundle: the step's when visited and declared, otherwise as it was. */
  function TickedView(t: Tables, order: seq<int>, step: BundleStep, b: int): SiegeView
  {
    if b in order && b in t.declaredSieges then step(t.View(b), b).0 else t.View(b)
  }

  /**
   * Bundles do not interfere: after a tick over distinct bundles, each bundle's entries are
   * what the step makes of its entries before the tick.
   */
  lemma {:induction false} TickAllView(t: Tables, order: seq<int>, step: BundleStep)
    requires Distinct(order)
    ensures forall b :: TickAll(t, order, step).0.View(b) == TickedView(t, order, step, b)
    decreases |order|
  {
    if order != [] {
      var init := order[..|order| - 1];
      var last := order[|order| - 1];
      assert order == init + [last];
      assert Distinct(init);
      assert last !in init;
      TickAllView(t, init, step);
      var prev := TickAll(t, init, step);
      if last in prev.0.declaredSieges {
        SetViewViews(prev.0, last, step(prev.0.View(last), last).0);
      }
    }
  }

  /** Visiting one more declared bundle applies the step to the entries it had before the tick. */
  lemma TickAllStep(t: Tables, order: seq<int>, b: int, step: BundleStep)
    requires Distinct(order) && b !in order && b in t.declaredSieges
    ensures var prev := TickAll(t, order, step);
      && prev.0.View(b) == t.View(b)
      && TickAll(t, order + [b], step) ==
         (SetView(prev.0, b, step(prev.0.View(b), b).0), prev.1 + step(prev.0.View(b), b).1)
  {
    TickAllView(t, order, step);
    assert (order + [b])[..|order|] == order;
  }

  /**
   * The tables a tick leaves do not depend on the order in which the hashtable yields its
   * keys; only the order of the messages does.
   */
  lemma TickAllOrderIndependent(t: Tables, o1: seq<int>, o2: seq<int>, step: BundleStep)
    requires Distinct(o1) && Distinct(o2)
    requires forall b :: b in o1 <==> b in o2
    ensures TickAll(t, o1, step).0 == TickAll(t, o2, step).0
  {
    TickAllView(t, o1, step);
    TickAllView(t, o2, step);
    TablesExtensional(TickAll(t, o1, step).0, TickAll(t, o2, step).0);
  }

  /** SecondStep leaves every declared bundle it visits synced. */
  lemma SecondStepSynced(dir: Directory, now: int, cfg: SiegeConfig, v: SiegeView, b: int)
    requires cfg.Valid() && v.attacker.Some?
    ensures SecondStep(dir, now, cfg)(v, b).0.Synced()
  {
    SecondTickOutcome(v, dir, b, now, cfg);
  }

  /** After a second tick over every declared bundle, every remaining declaration has its date. */
  lemma TickAllSynced(t: Tables, order: seq<int>, dir: Directory, now: int, cfg: SiegeConfig)
    requires cfg.Valid() && Distinct(order)
    requires forall b :: b in t.declaredSieges ==> b in order
    ensures forall b :: TickAll(t, order, SecondStep(dir, now, cfg)).0.View(b).Synced()
  {
    var step := SecondStep(dir, now, cfg);
    TickAllView(t, order, step);
    forall b | b in order && b in t.declaredSieges
      ensures step(t.View(b), b).0.Synced()
    {
      SecondStepSynced(dir, now, cfg, t.View(b), b);
    }
  }

  // Repeated ticks.

  /** `n` siege ticks of `attacker`'s siege, stopping once the siege is concluded. */
  function Ticks(v: SiegeView, dir: Directory, bundle: int, attacker: int, cfg: SiegeConfig, n: nat): SiegeView
    decreases n
  {
    if n == 0 || v.attacker.None? then v
    else Ticks(SiegeTick(v, dir, bundle, attacker, cfg).0, dir, bundle, attacker, cfg, n - 1)
  }

  /** The progress after `k` ticks of `c` points each, from `p0`. */
  function Accrued(p0: real, c: real, k: nat): real
  {
    p0 + (k as real) * c
  }

  lemma AccruedShift(p0: real, c: real, k: nat)
    ensures Accrued(p0 + c, c, k) == Accrued(p0, c, k + 1)
  {
  }

  /**
   * With the directory fixed, every tick adds the same points `c`; `n` ticks that keep the
   * progress strictly between -1 and +1 add exactly `n * c` and leave the siege going.
   */
  lemma {:induction false} TicksAccumulate(v: SiegeView, dir: Directory, bundle: int, attacker: int, cfg: SiegeConfig, n: nat)
    requires v.attacker.Some?
    requires forall k: nat :: 1 <= k <= n ==>
      -1.0 < Accrued(v.progress.GetOr(0.0), TickPoints(v, dir, bundle, attacker, cfg), k) < 1.0
    ensures var w := Ticks(v, dir, bundle, attacker, cfg, n);
      && w.attacker == v.attacker && w.owner == v.owner && w.date == v.date
      && (n > 0 ==> w.progress == Some(Accrued(v.progress.GetOr(0.0), TickPoints(v, dir, bundle, attacker, cfg), n)))
    decreases n
  {
    if n > 0 {
      var c := TickPoints(v, dir, bundle, attacker, cfg);
      var p0 := v.progress.GetOr(0.0);
      var v1 := SiegeTick(v, dir, bundle, attacker, cfg).0;
      assert v1.attacker == v.attacker && v1.owner == v.owner && v1.date == v.date
        && v1.progress == Some(p0 + c) && TickPoints(v1, dir, bundle, attacker, cfg) == c by {
        assert -1.0 < Accrued(p0, c, 1) < 1.0;
        SiegeTickOutcome(v, dir, bundle, attacker, cfg);
      }
      var p1 := p0 + c;
      forall k: nat | 1 <= k <= n - 1
        ensures -1.0 < Accrued(p1, c, k) < 1.0
      {
        AccruedShift(p0, c, k);
      }
      TicksAccumulate(v1, dir, bundle, attacker, cfg, n - 1);
      AccruedShift(p0, c, n - 1);
    }
  }

  /** `n + 1` ticks are `n` ticks followed by one more, while the siege is still on. */
  lemma {:induction false} TicksSplit(v: SiegeView, dir: Directory, bundle: int, attacker: int, cfg: SiegeConfig, n: nat)
    requires Ticks(v, dir, bundle, attacker, cfg, n).attacker.Some?
    ensures Ticks(v, dir, bundle, attacker, cfg, n + 1) ==
      SiegeTick(Ticks(v, dir, bundle, attacker, cfg, n), dir, bundle, attacker, cfg).0
    decreases n
  {
    if n > 0 {
      assert v.attacker.Some?;
      TicksSplit(SiegeTick(v, dir, bundle, attacker, cfg).0, dir, bundle, attacker, cfg, n - 1);
    }
  }

  /**
   * A fresh siege under a fixed directory is decided on the first tick at which `n * c`
   * reaches +1 (the attacker becomes the owner) or -1 (the owner stays), with every entry
   * of the bundle but the owner cleared.
   */
  lemma SiegeDecidedAfterTicks(v: SiegeView, dir: Directory, bundle: int, attacker: int, cfg: SiegeConfig, n: nat)
    requires v.attacker.Some? && v.progress.None? && n > 0
    requires forall k: nat :: 1 <= k < n ==> -1.0 < Accrued(0.0, TickPoints(v, dir, bundle, attacker, cfg), k) < 1.0
    ensures var c := TickPoints(v, dir, bundle, attacker, cfg);
      var w := Ticks(v, dir, bundle, attacker, cfg, n);
      && (Accrued(0.0, c, n) >= 1.0 ==> w.attacker.None? && w.progress.None? && w.owner == Some(attacker))
      && (Accrued(0.0, c, n) <= -1.0 ==> w.attacker.None? && w.progress.None? && w.owner == v.owner)
  {
    var c := TickPoints(v, dir, bundle, attacker, cfg);
    TicksAccumulate(v, dir, bundle, attacker, cfg, n - 1);
    var u := Ticks(v, dir, bundle, attacker, cfg, n - 1);
    assert u.progress.GetOr(0.0) == Accrued(0.0, c, n - 1);
    assert TickPoints(u, dir, bundle, attacker, cfg) == c;
    TicksSplit(v, dir, bundle, attacker, cfg, n - 1);
    SiegeTickOutcome(u, dir, bundle, attacker, cfg);
    assert u.progress.GetOr(0.0) + c == Accrued(0.0, c, n);
  }

  // Load-time repair of the declaration table (`complete`).

  /** The declaring faction already owns the bundle. */
  predicate SelfOwned(declared: map<int, int>, owners: map<int, int>, b: int)
    requires b in declared
  {
    b in owners && owners[b] == declared[b]
  }

  /**
   * One pass of `complete`'s loop as the source writes it: a declaration whose date is
   * missing is removed under the key of its FACTION ID, and a self-owned declaration is
   * removed while its date is only read.
   */
  function RepairStepAsWritten(declared: map<int, int>, dates: map<int, int>, owners: map<int, int>, b: int): (r: map<int, int>)
    ensures r.Keys <= declared.Keys
    ensures forall k :: k in r ==> r[k] == declared[k]
  {
    if b !in declared then declared
    else if b !in dates then declared - {declared[b]}
    else if SelfOwned(declared, owners, b) then declared - {b}
    else declared
  }

  /** `complete`'s loop over the declared bundles, visited in `order`. */
  function RepairAsWritten(declared: map<int, int>, dates: map<int, int>, owners: map<int, int>, order: seq<int>): map<int, int>
  {
    if order == [] then declared
    else RepairStepAsWritten(RepairAsWritten(declared, dates, owners, order[..|order| - 1]), dates, owners, order[|order| - 1])
  }

  /** The as-written repair only removes declarations. */
  lemma {:induction false} RepairAsWrittenShrinks(declared: map<int, int>, dates: map<int, int>, owners: map<int, int>, order: seq<int>)
    ensures var r := RepairAsWritten(declared, dates, owners, order);
      r.Keys <= declared.Keys && forall k :: k in r ==> r[k] == declared[k]
  {
    if order != [] {
      RepairAsWrittenShrinks(declared, dates, owners, order[..|order| - 1]);
    }
  }

  /** A declaration that is dated is not self-owned. */
  predicate DatedNotSelfOwned(declared: map<int, int>, dates: map<int, int>, owners: map<int, int>, b: int)
    requires b in declared
  {
    b in dates ==> !SelfOwned(declared, owners, b)
  }

  /** Visiting bundles keeps "visited and still declared implies fine" true. */
  lemma {:induction false} RepairAsWrittenVisited(declared: map<int, int>, dates: map<int, int>, owners: map<int, int>, order: seq<int>)
    ensures var r := RepairAsWritten(declared, dates, owners, order);
      forall b :: b in r && b in order ==> DatedNotSelfOwned(r, dates, owners, b)
  {
    if order != [] {
      var init := order[..|order| - 1];
      var last := order[|order| - 1];
      RepairAsWrittenVisited(declared, dates, owners, init);
      var prev := RepairAsWritten(declared, dates, owners, init);
      var r := RepairStepAsWritten(prev, dates, owners, last);
      forall b | b in r && b in order
        ensures DatedNotSelfOwned(r, dates, owners, b)
      {
        if b != last {
          assert b in init by {
            assert order == init + [last];
          }
        }
      }
    }
  }

  /**
   * After the as-written repair, no DATED declaration is self-owned. (A self-owned
   * declaration without a date survives; see RepairAsWrittenKeepsDatelessSelfOwned.)
   */
  lemma RepairAsWrittenClearsDatedSelfOwned(declared: map<int, int>, dates: map<int, int>, owners: map<int, int>, order: seq<int>)
    requires forall b :: b in declared ==> b in order
    ensures var r := RepairAsWritten(declared, dates, owners, order);
      forall b :: b in r ==> DatedNotSelfOwned(r, dates, owners, b)
  {
    RepairAsWrittenShrinks(declared, dates, owners, order);
    RepairAsWrittenVisited(declared, dates, owners, order);
  }

  /**
   * The slip at the `date == null` branch: bundle 1 is declared by faction 2, which owns it,
   * and has no date. The repair removes key 2 (a faction ID) instead of bundle 1, so the
   * undated, self-owned declaration stays.
   */
  lemma RepairAsWrittenKeepsDatelessSelfOwned()
    ensures var r := RepairAsWritten(map[1 := 2], map[], map[1 := 2], [1]);
      1 in r && r[1] == 2 && SelfOwned(r, map[1 := 2], 1)
  {
    var d := map[1 := 2];
    assert RepairAsWritten(d, map[], map[1 := 2], [1]) == RepairStepAsWritten(RepairAsWritten(d, map[], map[1 := 2], []), map[], map[1 := 2], 1);
    assert d - {2} == d;
  }

  /**
   * The slip at the self-owned branch: bundle 1 is declared and dated by faction 2, which
   * owns it. The declaration is removed, but the date is only read, so the date table keeps
   * an entry for a bundle that no longer has a declaration (Complete leaves it unchanged).
   */
  lemma RepairAsWrittenOrphansDate()
    ensures var r := RepairAsWritten(map[1 := 2], map[1 := 5], map[1 := 2], [1]);
      1 !in r && 1 in map[1 := 5]
  {
    var d := map[1 := 2];
    assert RepairAsWritten(d, map[1 := 5], map[1 := 2], [1]) == RepairStepAsWritten(RepairAsWritten(d, map[1 := 5], map[1 := 2], []), map[1 := 5], map[1 := 2], 1);
  }

  /** The declaration and date tables that the intended repair leaves. */
  datatype Declarations = Declarations(sieges: map<int, int>, dates: map<int, int>)

  /**
   * One pass of the intended repair: an undated declaration is removed under its BUNDLE ID,
   * and a self-owned declaration is removed together with its date.
   */
  function RepairStep(d: Declarations, owners: map<int, int>, b: int): Declarations
  {
    if b !in d.sieges then d
    else if b !in d.dates then d.(sieges := d.sieges - {b})
    else if SelfOwned(d.sieges, owners, b) then Declarations(d.sieges - {b}, d.dates - {b})
    else d
  }

  /** The intended repair over the declared bundles, visited in `order`. */
  function Repair(d: Declarations, owners: map<int, int>, order: seq<int>): Declarations
  {
    if order == [] then d
    else RepairStep(Repair(d, owners, order[..|order| - 1]), owners, order[|order| - 1])
  }

  /** A declaration the intended repair keeps: it is dated and not self-owned. */
  predicate Keep(d: Declarations, owners: map<int, int>, b: int)
    requires b in d.sieges
  {
    b in d.dates && !SelfOwned(d.sieges, owners, b)
  }

  /**
   * The intended repair, whatever the visiting order: of the visited bundles exactly the
   * dated, not self-owned declarations remain, and the date of a removed self-owned
   * declaration is removed with it.
   */
  lemma RepairFilters(d: Declarations, owners: map<int, int>, order: seq<int>)
    ensures var r := Repair(d, owners, order);
      && r.sieges == (map b | b in d.sieges && (b in order ==> Keep(d, owners, b)) :: d.sieges[b])
      && r.dates == (map b | b in d.dates && !(b in order && b in d.sieges && SelfOwned(d.sieges, owners, b)) :: d.dates[b])
  {
    RepairFiltersSieges(d, owners, order);
    RepairFiltersDates(d, owners, order);
  }

  /** The declarations half of RepairFilters. */
  lemma {:induction false} RepairFiltersSieges(d: Declarations, owners: map<int, int>, order: seq<int>)
    ensures Repair(d, owners, order).sieges == (map b | b in d.sieges && (b in order ==> Keep(d, owners, b)) :: d.sieges[b])
    decreases |order|
  {
    if order != [] {
      var init := order[..|order| - 1];
      var last := order[|order| - 1];
      assert order == init + [last];
      RepairFiltersSieges(d, owners, init);
      RepairFiltersDates(d, owners, init);
    }
  }

  /** The dates half of RepairFilters. */
  lemma {:induction false} RepairFiltersDates(d: Declarations, owners: map<int, int>, order: seq<int>)
    ensures Repair(d, owners, order).dates == (map b | b in d.dates && !(b in order && b in d.sieges && SelfOwned(d.sieges, owners, b)) :: d.dates[b])
    decreases |order|
  {
    if order != [] {
      var init := order[..|order| - 1];
      var last := order[|order| - 1];
      assert order == init + [last];
      RepairFiltersSieges(d, owners, init);
      RepairFiltersDates(d, owners, init);
    }
  }


  /**
   * What the intended repair promises once every declared bundle has been visited: every
   * declaration has its date and none is held by the faction that owns the bundle.
   */
  lemma RepairEstablishesPairing(d: Declarations, owners: map<int, int>, order: seq<int>)
    requires forall b :: b in d.sieges ==> b in order
    ensures var r := Repair(d, owners, order);
      forall b :: b in r.sieges ==> b in r.dates && !SelfOwned(r.sieges, owners, b)
  {
    RepairFilters(d, owners, order);
  }
}
