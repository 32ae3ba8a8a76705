/**
 * Skills: fixed bundles of parameters (name, behaviour flags, force, optional effect,
 * mana cost, admitted character types) and the one thing a skill does, `use`: a mana
 * gate, the mana payment, the effect on the user, the effect on the targets and the
 * generic damage to the targets, in that order.
 *
 * A character is seen here through its attribute table (its `_attributeMap`):
 * `getAttribute` is a lookup in that table that throws "Attribute not found".
 */
module Skills {
  import opened Types
  import opened Attributes
  import opened Effects

  datatype Skill = Skill(
    name: string,
    types: seq<SkillType>,
    force: int,
    effect: Option<Effect>,
    manaCost: int,
    admitted: seq<CharacterType>)

  /** The admitted types when a skill names none: every character type. */
  const AllCharacterTypes: seq<CharacterType> := [Warrior, Wizard, Archer]

  /** The `SkillBase` constructor: missing effect, mana cost and admitted types take their defaults. */
  function NewSkill(
    name: string, types: seq<SkillType>, force: int,
    admitted: Option<seq<CharacterType>>, effect: Option<Effect>, manaCost: Option<int>): Skill
  {
    Skill(name, types, force, effect,
      if manaCost.Some? then manaCost.value else 0,
      if admitted.Some? then admitted.value else AllCharacterTypes)
  }

  function BasicAttack(): Skill
  {
    NewSkill("Basic Attack", [Generic], 20, None, None, Some(0))
  }

  function Arrow(): Skill
  {
    NewSkill("Arrow", [Generic], 30, None, None, Some(0))
  }

  /** `new Fireball()`; the force the source draws at random is a parameter. */
  function Fireball(force: int): Skill
    requires 20 <= force <= 100
  {
    NewSkill("Fireball", [Generic, SpecialEffectEnemy], force, Some([Wizard]), None, None)
  }

  function Heal(): Skill
  {
    NewSkill("Heal", [SpecialEffectPlayer], 0, Some([Wizard]), Some(HPEffect(50)), Some(40))
  }

  const RandomAttackNames: seq<string> :=
    ["Soul Eater", "Death's Scythe", "Death's Touch", "Soul Annihilator", "Darkness Hand of Death"]

  /** `new RandomAttackWithoutSpecialEffect()`; the name and force drawn at random are parameters. */
  function RandomAttackWithoutSpecialEffect(nameIndex: nat, force: int): Skill
    requires nameIndex < |RandomAttackNames| && 20 <= force <= 100
  {
    NewSkill(RandomAttackNames[nameIndex], [Generic], force, None, None, None)
  }

  /**
   * `canBeUsedBy`: the character has a type the skill admits. A character carries a
   * list of types; with the single type every character of the game has, this is
   * "its type is among the admitted types".
   */
  predicate CanBeUsedBy(s: Skill, characterTypes: seq<CharacterType>)
  {
    exists c :: c in characterTypes && c in s.admitted
  }

  /**
   * `canBeUsedBy` as written: it reads `character.type`, which `Character` does not
   * define (its getter is `types`). The value read is `undefined`, here `None`, and the
   * admitted list never includes it.
   */
  predicate CanBeUsedByAsWritten(s: Skill, typeField: Option<CharacterType>)
  {
    typeField.Some? && typeField.value in s.admitted
  }

  /** `canUse`: the user's mana covers the cost; throws when the user has no mana attribute. */
  function CanUse(s: Skill, player: Table): (r: Result<bool>)
    reads player.Values
    ensures r.Success? <==> MANA in player
    ensures r.Success? ==> (r.value <==> player[MANA].value >= s.manaCost)
  {
    if MANA !in player then Failure(AttributeNotFound)
    else Success(player[MANA].value >= s.manaCost)
  }

  /** The damage formula: `force * ATK * 0.05`, less `DEF` percent of it. */
  function Damage(force: int, atk: int, def: int): (d: real)
    ensures force * atk > 0 ==> (d < 0.0 <==> def > 100)
    ensures force * atk >= 0 && def <= 100 ==> d >= 0.0
  {
    var damage := (force * atk) as real * 0.05;
    var reduction := damage * (def as real * 0.01);
    ScaledSign(damage, 1.0 - def as real * 0.01);
    damage - reduction
  }

  /** For a positive `x`, the sign of `x * f` is the sign of `f`; `x - x * (1 - f)` is that product. */
  lemma ScaledSign(x: real, f: real)
    ensures x * f == x - x * (1.0 - f)
    ensures x > 0.0 ==> (x * f < 0.0 <==> f < 0.0)
    ensures x >= 0.0 && f >= 0.0 ==> x * f >= 0.0
  {
    if x > 0.0 && f < 0.0 {
      assert x * f < 0.0 by { assert x * (-f) > 0.0; }
    }
  }

  predicate CoversAll(h: Heap, ts: seq<Table>)
  {
    forall i :: 0 <= i < |ts| ==> Covers(h, ts[i])
  }

  /** `applySpecialEffect`: use the skill's effect, if it has one, on the target. */
  function EffectOn(eff: Option<Effect>, t: Table, h: Heap): (r: Run)
    requires Covers(h, t)
    ensures r.heap.Keys == h.Keys
  {
    match eff
    case None => Run(Ok, h)
    case Some(e) => ApplyKinds(e.kinds, e.value, t, h)
  }

  /** `applySpecialEffect` on each target in turn, stopping at the first throw. */
  function EffectOnAll(eff: Option<Effect>, ts: seq<Table>, h: Heap): (r: Run)
    requires CoversAll(h, ts)
    ensures r.heap.Keys == h.Keys
  {
    if ts == [] then Run(Ok, h)
    else
      var r := EffectOn(eff, ts[0], h);
      if r.outcome.Fail? then r else EffectOnAll(eff, ts[1..], r.heap)
  }

  /**
   * One pass of the generic damage loop: read the user's ATK and the target's HP and
   * DEF (throwing if one is missing); a negative final damage leaves the target alone,
   * otherwise its health gets `applyChange(-final)`.
   */
  function DamageStep(force: int, player: Table, t: Table, h: Heap): (r: Run)
    requires Covers(h, player) && Covers(h, t)
    ensures r.heap.Keys == h.Keys
  {
    if ATK !in player || HP !in t || DEF !in t then Run(Fail(AttributeNotFound), h)
    else
      var final := Damage(force, h[player[ATK]].value, h[t[DEF]].value);
      if final < 0.0 then Run(Ok, h) else Run(Ok, ChangeAt(h, t[HP], -final))
  }

  /** The generic damage loop over all targets, stopping at the first throw. */
  function DamageAll(force: int, player: Table, ts: seq<Table>, h: Heap): (r: Run)
    requires Covers(h, player) && CoversAll(h, ts)
    ensures r.heap.Keys == h.Keys
  {
    if ts == [] then Run(Ok, h)
    else
      var r := DamageStep(force, player, ts[0], h);
      if r.outcome.Fail? then r else DamageAll(force, player, ts[1..], r.heap)
  }

  /** `use(player, targets)` on values: the mana gate, the payment, then the three flag-driven phases. */
  function UseSpec(s: Skill, player: Table, targets: seq<Table>, h: Heap): (r: Run)
    requires Covers(h, player) && CoversAll(h, targets)
    ensures r.heap.Keys == h.Keys
  {
    if MANA !in player then Run(Fail(AttributeNotFound), h)
    else if h[player[MANA]].value < s.manaCost then Run(Ok, h)
    else AfterPayment(s, player, targets, ChangeAt(h, player[MANA], -(s.manaCost as real)))
  }

  /** What `use` does once the mana is paid; each phase runs only if the previous one did not throw. */
  function AfterPayment(s: Skill, player: Table, targets: seq<Table>, h: Heap): (r: Run)
    requires Covers(h, player) && CoversAll(h, targets)
    ensures r.heap.Keys == h.Keys
  {
    var r2 := SelfPhase(s, player, h);
    if r2.outcome.Fail? then r2
    else
      var r3 := EnemyPhase(s, targets, r2.heap);
      if r3.outcome.Fail? then r3 else GenericPhase(s, player, targets, r3.heap)
  }

  function SelfPhase(s: Skill, player: Table, h: Heap): (r: Run)
    requires Covers(h, player)
    ensures r.heap.Keys == h.Keys
  {
    if SpecialEffectPlayer in s.types then EffectOn(s.effect, player, h) else Run(Ok, h)
  }

  function EnemyPhase(s: Skill, targets: seq<Table>, h: Heap): (r: Run)
    requires CoversAll(h, targets)
    ensures r.heap.Keys == h.Keys
  {
    if SpecialEffectEnemy in s.types then EffectOnAll(s.effect, targets, h) else Run(Ok, h)
  }

  function GenericPhase(s: Skill, player: Table, targets: seq<Table>, h: Heap): (r: Run)
    requires Covers(h, player) && CoversAll(h, targets)
    ensures r.heap.Keys == h.Keys
  {
    if Generic in s.types then DamageAll(s.force, player, targets, h) else Run(Ok, h)
  }

  /** `useMana`: one `applyChange(-manaCost)` on the user's mana. */
  method UseMana(s: Skill, player: Table, ghost objs: set<Attribute>)
    requires MANA in player && player.Values <= objs
    modifies player.Values
    ensures Snapshot(objs) == ChangeAt(old(Snapshot(objs)), player[MANA], -(s.manaCost as real))
  {
    ghost var pre := Snapshot(objs);
    player[MANA].ApplyChange(-(s.manaCost as real));
    assert Snapshot(objs) == ChangeAt(pre, player[MANA], -(s.manaCost as real));
  }

  method ApplySpecialEffect(s: Skill, target: Table, ghost objs: set<Attribute>) returns (r: Outcome)
    requires target.Values <= objs
    modifies target.Values
    ensures Run(r, Snapshot(objs)) == EffectOn(s.effect, target, old(Snapshot(objs)))
  {
    r := Ok;
    if s.effect.Some? {
      r := ApplyAttributeChange(s.effect.value, target, objs);
    }
  }

  /** The `SPECIAL_EFFECT_ENEMY` loop of `use`. */
  method ApplyToTargets(s: Skill, targets: seq<Table>, ghost objs: set<Attribute>) returns (r: Outcome)
    requires forall i :: 0 <= i < |targets| ==> targets[i].Values <= objs
    modifies objs
    ensures Run(r, Snapshot(objs)) == EnemyPhase(s, targets, old(Snapshot(objs)))
  {
    if SpecialEffectEnemy !in s.types {
      return Ok;
    }
    var i := 0;
    while i < |targets|
      invariant 0 <= i <= |targets|
      invariant EffectOnAll(s.effect, targets[i..], Snapshot(objs)) == EffectOnAll(s.effect, targets, old(Snapshot(objs)))
    {
      r := ApplySpecialEffect(s, targets[i], objs);
      if r.Fail? {
        return;
      }
      assert targets[i..][1..] == targets[i + 1..];
      i := i + 1;
    }
    return Ok;
  }

  /** The body of the `GENERIC` loop of `use`, for one target. */
  method DamageTarget(s: Skill, player: Table, t: Table, ghost objs: set<Attribute>) returns (r: Outcome)
    requires player.Values <= objs && t.Values <= objs
    modifies objs
    ensures Run(r, Snapshot(objs)) == DamageStep(s.force, player, t, old(Snapshot(objs)))
  {
    if ATK !in player || HP !in t || DEF !in t {
      return Fail(AttributeNotFound);
    }
    var final := Damage(s.force, player[ATK].value, t[DEF].value);
    if final >= 0.0 {
      ghost var pre := Snapshot(objs);
      t[HP].ApplyChange(-final);
      assert Snapshot(objs) == ChangeAt(pre, t[HP], -final);
    }
    return Ok;
  }

  /** The `GENERIC` loop of `use`. */
  method DamageTargets(s: Skill, player: Table, targets: seq<Table>, ghost objs: set<Attribute>) returns (r: Outcome)
    requires player.Values <= objs
    requires forall i :: 0 <= i < |targets| ==> targets[i].Values <= objs
    modifies objs
    ensures Run(r, Snapshot(objs)) == GenericPhase(s, player, targets, old(Snapshot(objs)))
  {
    if Generic !in s.types {
      return Ok;
    }
    var i := 0;
    while i < |targets|
      invariant 0 <= i <= |targets|
      invariant DamageAll(s.force, player, targets[i..], Snapshot(objs)) == DamageAll(s.force, player, targets, old(Snapshot(objs)))
    {
      r := DamageTarget(s, player, targets[i], objs);
      if r.Fail? {
        return;
      }
      assert targets[i..][1..] == targets[i + 1..];
      i := i + 1;
    }
    return Ok;
  }

  /** `use(player, targets)`: the attributes of the user and of the targets are updated in place. */
  method Use(s: Skill, player: Table, targets: seq<Table>) returns (r: Outcome)
    modifies Footprint([player] + targets)
    ensures Run(r, Snapshot(Footprint([player] + targets)))
         == UseSpec(s, player, targets, old(Snapshot(Footprint([player] + targets))))
  {
    ghost var objs := Footprint([player] + targets);
    assert ([player] + targets)[0] == player;
    assert forall i :: 0 <= i < |targets| ==> ([player] + targets)[i + 1] == targets[i];

    var can := CanUse(s, player);
    if can.Failure? {
      return Fail(can.error);
    }
    if !can.value {
      return Ok;
    }
    UseMana(s, player, objs);
    ghost var h1 := Snapshot(objs);

    r := Ok;
    if SpecialEffectPlayer in s.types {
      r := ApplySpecialEffect(s, player, objs);
    }
    assert Run(r, Snapshot(objs)) == SelfPhase(s, player, h1);
    if r.Fail? {
      return;
    }
    ghost var h2 := Snapshot(objs);
    r := ApplyToTargets(s, targets, objs);
    assert Run(r, Snapshot(objs)) == EnemyPhase(s, targets, h2);
    if r.Fail? {
      return;
    }
    r := DamageTargets(s, player, targets, objs);
  }

  // Properties of skills and of `use`

  /** A skill built without effect, mana cost or admitted types: no effect, cost 0, every character type admitted. */
  lemma SkillDefaults(name: string, types: seq<SkillType>, force: int, characterTypes: seq<CharacterType>)
    ensures NewSkill(name, types, force, None, None, None) == Skill(name, types, force, None, 0, [Warrior, Wizard, Archer])
    ensures CanBeUsedBy(NewSkill(name, types, force, None, None, None), characterTypes) <==> characterTypes != []
  {
    if characterTypes != [] {
      var c := characterTypes[0];
      assert c in characterTypes && c in AllCharacterTypes by {
        assert c == Warrior || c == Wizard || c == Archer;
      }
    }
  }

  /** Fireball and Heal admit wizards only; Basic Attack and Arrow admit every character. */
  lemma WizardOnlySkills(force: int, characterTypes: seq<CharacterType>)
    requires 20 <= force <= 100
    ensures CanBeUsedBy(Fireball(force), characterTypes) <==> Wizard in characterTypes
    ensures CanBeUsedBy(Heal(), characterTypes) <==> Wizard in characterTypes
    ensures CanBeUsedBy(BasicAttack(), characterTypes) <==> characterTypes != []
    ensures CanBeUsedBy(Arrow(), characterTypes) <==> characterTypes != []
  {
    if characterTypes != [] {
      var c := characterTypes[0];
      assert c in characterTypes && c in AllCharacterTypes by {
        assert c == Warrior || c == Wizard || c == Archer;
      }
    }
  }

  /** Without enough mana `use` changes nothing; without a mana attribute it throws before changing anything. */
  lemma UseNeedsMana(s: Skill, player: Table, targets: seq<Table>, h: Heap)
    requires Covers(h, player) && CoversAll(h, targets)
    ensures MANA !in player ==> UseSpec(s, player, targets, h) == Run(Fail(AttributeNotFound), h)
    ensures MANA in player && h[player[MANA]].value < s.manaCost ==> UseSpec(s, player, targets, h) == Run(Ok, h)
  {
  }

  /** A missing effect is a no-op on any list of targets. */
  lemma {:induction false} NoEffectOnAll(ts: seq<Table>, h: Heap)
    requires CoversAll(h, ts)
    ensures EffectOnAll(None, ts, h) == Run(Ok, h)
  {
    if ts != [] {
      NoEffectOnAll(ts[1..], h);
    }
  }

  /** The effect goes to the targets one after the other, in list order. */
  lemma {:induction false} EffectOnAllInOrder(eff: Option<Effect>, ts1: seq<Table>, ts2: seq<Table>, h: Heap)
    requires CoversAll(h, ts1) && CoversAll(h, ts2)
    ensures CoversAll(h, ts1 + ts2)
    ensures EffectOnAll(eff, ts1 + ts2, h)
         == var r1 := EffectOnAll(eff, ts1, h);
            if r1.outcome.Fail? then r1 else EffectOnAll(eff, ts2, r1.heap)
  {
    assert forall i :: 0 <= i < |ts1 + ts2| ==> (ts1 + ts2)[i] == if i < |ts1| then ts1[i] else ts2[i - |ts1|];
    if ts1 != [] {
      assert (ts1 + ts2)[1..] == ts1[1..] + ts2;
      var r := EffectOn(eff, ts1[0], h);
      if r.outcome.Ok? {
        EffectOnAllInOrder(eff, ts1[1..], ts2, r.heap);
      }
    } else {
      assert ts1 + ts2 == ts2;
    }
  }

  /** An effect leaves the attributes of the kinds it does not list alone. */
  lemma EffectOnLeavesUnlisted(eff: Option<Effect>, t: Table, h: Heap, o: Attribute)
    requires Covers(h, t) && WellKeyed(t) && o in h
    requires eff.Some? ==> o.name !in eff.value.kinds
    ensures EffectOn(eff, t, h).heap[o] == h[o]
  {
    if eff.Some? {
      ApplyKindsLeavesUnlisted(eff.value.kinds, eff.value.value, t, h, o);
    }
  }

  lemma {:induction false} EffectOnAllLeavesUnlisted(eff: Option<Effect>, ts: seq<Table>, h: Heap, o: Attribute)
    requires CoversAll(h, ts) && (forall i :: 0 <= i < |ts| ==> WellKeyed(ts[i])) && o in h
    requires eff.Some? ==> o.name !in eff.value.kinds
    ensures EffectOnAll(eff, ts, h).heap[o] == h[o]
  {
    if ts != [] {
      EffectOnLeavesUnlisted(eff, ts[0], h, o);
      var r := EffectOn(eff, ts[0], h);
      if r.outcome.Ok? {
        EffectOnAllLeavesUnlisted(eff, ts[1..], r.heap, o);
      }
    }
  }

  /** Generic damage touches health attributes only. */
  lemma {:induction false} DamageAllTouchesOnlyHealth(force: int, player: Table, ts: seq<Table>, h: Heap, o: Attribute)
    requires Covers(h, player) && CoversAll(h, ts) && (forall i :: 0 <= i < |ts| ==> WellKeyed(ts[i]))
    requires o in h && o.name != HP
    ensures DamageAll(force, player, ts, h).heap[o] == h[o]
  {
    if ts != [] {
      var r := DamageStep(force, player, ts[0], h);
      if HP in ts[0] {
        assert ts[0][HP].name == HP;
      }
      if r.outcome.Ok? {
        DamageAllTouchesOnlyHealth(force, player, ts[1..], r.heap, o);
      }
    }
  }

  /** Generic damage never raises any attribute, whatever the targets' defense. */
  lemma {:induction false} DamageNeverRaises(force: int, player: Table, ts: seq<Table>, h: Heap)
    requires Covers(h, player) && CoversAll(h, ts)
    ensures forall o :: o in h ==> DamageAll(force, player, ts, h).heap[o].value <= h[o].value
  {
    if ts != [] {
      var r := DamageStep(force, player, ts[0], h);
      if HP in ts[0] && ATK in player && DEF in ts[0] {
        var final := Damage(force, h[player[ATK]].value, h[ts[0][DEF]].value);
        if final >= 0.0 {
          ChangeNeverRaisesOnLoss(h[ts[0][HP]], -final);
        }
      }
      if r.outcome.Ok? {
        DamageNeverRaises(force, player, ts[1..], r.heap);
      }
    }
  }

  /**
   * A successful payment: with mana within its maximum and an effect that does not
   * list mana, `use` lowers the user's mana by exactly the cost, and not below zero.
   */
  lemma UseSpendsManaCost(s: Skill, player: Table, targets: seq<Table>, h: Heap)
    requires Covers(h, player) && CoversAll(h, targets)
    requires WellKeyed(player) && forall i :: 0 <= i < |targets| ==> WellKeyed(targets[i])
    requires MANA in player && h[player[MANA]].value <= h[player[MANA]].maxValue
    requires 0 <= s.manaCost <= h[player[MANA]].value
    requires s.effect.Some? ==> MANA !in s.effect.value.kinds
    ensures UseSpec(s, player, targets, h).heap[player[MANA]].value == h[player[MANA]].value - s.manaCost >= 0
  {
    var mana := player[MANA];
    assert mana.name == MANA;
    var h1 := ChangeAt(h, mana, -(s.manaCost as real));
    assert h1[mana].value == h[mana].value - s.manaCost;
    EffectOnLeavesUnlisted(s.effect, player, h1, mana);
    var r2 := SelfPhase(s, player, h1);
    assert r2.heap[mana] == h1[mana];
    if r2.outcome.Ok? {
      EffectOnAllLeavesUnlisted(s.effect, targets, r2.heap, mana);
      var r3 := EnemyPhase(s, targets, r2.heap);
      assert r3.heap[mana] == h1[mana];
      if r3.outcome.Ok? {
        DamageAllTouchesOnlyHealth(s.force, player, targets, r3.heap, mana);
      }
    }
  }

  /** The damage formula on force 20, attack 10, defense 10: 10 damage, 1 reduced, 9 dealt. */
  lemma DamageExample()
    ensures Damage(20, 10, 10) == 9.0
  {
  }

  /**
   * A Basic Attack (force 20) by a user with attack 10 on a target with defense 10 and
   * health within its maximum lowers the target's health by exactly 9.
   */
  lemma BasicAttackExample(player: Table, target: Table, h: Heap)
    requires Covers(h, player) && Covers(h, target) && WellKeyed(player) && WellKeyed(target)
    requires MANA in player && ATK in player && HP in target && DEF in target
    requires h[player[MANA]].value >= 0
    requires h[player[ATK]].value == 10 && h[target[DEF]].value == 10
    requires h[target[HP]].value <= h[target[HP]].maxValue
    ensures UseSpec(BasicAttack(), player, [target], h).outcome == Ok
    ensures UseSpec(BasicAttack(), player, [target], h).heap[target[HP]].value == h[target[HP]].value - 9
  {
    var h1 := ChangeAt(h, player[MANA], -(0 as real));
    assert player[MANA].name == MANA && player[ATK].name == ATK && target[DEF].name == DEF && target[HP].name == HP;
    assert h1[player[ATK]] == h[player[ATK]] && h1[target[DEF]] == h[target[DEF]] && h1[target[HP]] == h[target[HP]];
    DamageExample();
    var r := DamageStep(20, player, target, h1);
    assert r == Run(Ok, ChangeAt(h1, target[HP], -9.0));
    assert [target][1..] == [];
    assert DamageAll(20, player, [target], h1) == DamageAll(20, player, [], r.heap) == r;
    assert UseSpec(BasicAttack(), player, [target], h) == AfterPayment(BasicAttack(), player, [target], h1) == r;
  }

  /**
   * Heal (cost 40, an HPEffect of 50 on the user) by a user with enough mana: mana drops
   * by 40, health rises by 50 up to its maximum, and nothing outside the user changes.
   */
  lemma HealExample(player: Table, targets: seq<Table>, h: Heap)
    requires Covers(h, player) && CoversAll(h, targets) && WellKeyed(player)
    requires MANA in player && HP in player
    requires 40 <= h[player[MANA]].value <= h[player[MANA]].maxValue
    requires h[player[HP]].value <= h[player[HP]].maxValue
    ensures UseSpec(Heal(), player, targets, h).outcome == Ok
    ensures UseSpec(Heal(), player, targets, h).heap[player[MANA]].value == h[player[MANA]].value - 40
    ensures UseSpec(Heal(), player, targets, h).heap[player[HP]].value
         == if h[player[HP]].value + 50 > h[player[HP]].maxValue then h[player[HP]].maxValue else h[player[HP]].value + 50
    ensures forall o :: o in h && o !in player.Values ==> UseSpec(Heal(), player, targets, h).heap[o] == h[o]
  {
    assert player[MANA].name == MANA && player[HP].name == HP;
    var h1 := ChangeAt(h, player[MANA], -(40 as real));
    assert h1[player[HP]] == h[player[HP]];
    HPEffectUse(50, player, h1);
  }

  /** Fireball's enemy flag carries no effect: it only pays its (zero) cost and deals generic damage. */
  lemma FireballOnlyDamages(force: int, player: Table, targets: seq<Table>, h: Heap)
    requires 20 <= force <= 100
    requires Covers(h, player) && CoversAll(h, targets)
    requires MANA in player && h[player[MANA]].value >= 0
    ensures UseSpec(Fireball(force), player, targets, h)
         == DamageAll(force, player, targets, ChangeAt(h, player[MANA], -(0 as real)))
  {
    NoEffectOnAll(targets, ChangeAt(h, player[MANA], -(0 as real)));
  }
}
