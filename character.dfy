/**
 * Characters: a name, a list of character types, a list of attributes with the map by
 * kind the constructor builds from it, an ordered skill list (at most four through
 * `learnSkill`) and an ordered list of active effects.
 */
module Characters {
  import opened Types
  import opened Attributes
  import opened Effects
  import opened Skills

  /** `_skillsLimit`. */
  const SkillsLimit: nat := 4

  /**
   * The attribute map the constructor builds by visiting the list in order and filing
   * each attribute under its name: a later attribute of the same kind replaces an
   * earlier one.
   */
  function TableOf(attrs: seq<Attribute>): (t: Table)
    ensures WellKeyed(t)
    ensures forall k :: k in t <==> exists i :: 0 <= i < |attrs| && attrs[i].name == k
  {
    if attrs == [] then map[]
    else
      var init := attrs[..|attrs| - 1];
      var last := attrs[|attrs| - 1];
      var t := TableOf(init);
      assert forall i :: 0 <= i < |init| ==> init[i] == attrs[i];
      t[last.name := last]
  }

  /** `skills.find(s => s.name === name)`: the index of the first skill with that name. */
  function FindSkill(skills: seq<Skill>, name: string): (r: Option<nat>)
    ensures r.Some? ==> r.value < |skills| && skills[r.value].name == name
    ensures r.Some? ==> forall j :: 0 <= j < r.value ==> skills[j].name != name
    ensures r.None? ==> forall j :: 0 <= j < |skills| ==> skills[j].name != name
  {
    if skills == [] then None
    else if skills[0].name == name then Some(0)
    else
      match FindSkill(skills[1..], name)
      case None => None
      case Some(i) => Some(i + 1)
  }

  /** `skills.filter(s => s.name !== name)`. */
  function WithoutSkill(skills: seq<Skill>, name: string): (r: seq<Skill>)
    ensures forall i :: 0 <= i < |r| ==> r[i].name != name
    ensures forall s :: s in r <==> s in skills && s.name != name
    ensures |r| <= |skills|
  {
    if skills == [] then []
    else if skills[0].name == name then WithoutSkill(skills[1..], name)
    else [skills[0]] + WithoutSkill(skills[1..], name)
  }

  /** `activeEffects.filter(e => e.isActive())`. */
  function FilterActive(effects: seq<Effect>): (r: seq<Effect>)
    ensures forall i :: 0 <= i < |r| ==> IsActive(r[i])
    ensures forall e :: e in r <==> e in effects && IsActive(e)
  {
    if effects == [] then []
    else if IsActive(effects[0]) then [effects[0]] + FilterActive(effects[1..])
    else FilterActive(effects[1..])
  }

  /** The `forEach` of `applyEffects`: use each effect that is active, in list order, stopping at a throw. */
  function EffectsRun(effects: seq<Effect>, t: Table, h: Heap): (r: Run)
    requires Covers(h, t)
    ensures r.heap.Keys == h.Keys
  {
    if effects == [] then Run(Ok, h)
    else if !IsActive(effects[0]) then EffectsRun(effects[1..], t, h)
    else
      var r := ApplyKinds(effects[0].kinds, effects[0].value, t, h);
      if r.outcome.Fail? then r else EffectsRun(effects[1..], t, r.heap)
  }

  /** Use every effect of a list, in order, stopping at a throw. */
  function UseEach(effects: seq<Effect>, t: Table, h: Heap): (r: Run)
    requires Covers(h, t)
    ensures r.heap.Keys == h.Keys
  {
    if effects == [] then Run(Ok, h)
    else
      var r := ApplyKinds(effects[0].kinds, effects[0].value, t, h);
      if r.outcome.Fail? then r else UseEach(effects[1..], t, r.heap)
  }

  /** The checks of `learnSkill`, capacity first, then eligibility. */
  function LearnCheck(count: nat, s: Skill, characterTypes: seq<CharacterType>): Outcome
  {
    if count >= SkillsLimit then Fail(SkillsLimitReached)
    else if !CanBeUsedBy(s, characterTypes) then Fail(SkillNotAdmitted)
    else Ok
  }

  /** The checks of `learnSkill` as written, where eligibility reads the undefined `character.type`. */
  function LearnCheckAsWritten(count: nat, s: Skill): Outcome
  {
    if count >= SkillsLimit then Fail(SkillsLimitReached)
    else if !CanBeUsedByAsWritten(s, None) then Fail(SkillNotAdmitted)
    else Ok
  }

  /** The skill list after `learnSkill(s)`. */
  function Learned(skills: seq<Skill>, characterTypes: seq<CharacterType>, s: Skill): seq<Skill>
  {
    if LearnCheck(|skills|, s, characterTypes) == Ok then skills + [s] else skills
  }

  /** The skill list after a series of `learnSkill` calls, whatever each of them throws. */
  function LearnedAll(skills: seq<Skill>, characterTypes: seq<CharacterType>, ss: seq<Skill>): seq<Skill>
    decreases |ss|
  {
    if ss == [] then skills else LearnedAll(Learned(skills, characterTypes, ss[0]), characterTypes, ss[1..])
  }

  /** `useSkill(name, targets)` on values: "Skill not found" before any change, else `use` of the first skill so named. */
  function UseSkillSpec(skills: seq<Skill>, name: string, player: Table, targets: seq<Table>, h: Heap): (r: Run)
    requires Covers(h, player) && CoversAll(h, targets)
    ensures r.heap.Keys == h.Keys
  {
    match FindSkill(skills, name)
    case None => Run(Fail(SkillNotFound), h)
    case Some(i) => UseSpec(skills[i], player, targets, h)
  }

  function Tables(cs: seq<Character>): (ts: seq<Table>)
    ensures |ts| == |cs| && forall i :: 0 <= i < |cs| ==> ts[i] == cs[i].attributeMap
  {
    seq(|cs|, i requires 0 <= i < |cs| => cs[i].attributeMap)
  }

  class Character {
    const name: string
    const types: seq<CharacterType>
    const attributes: seq<Attribute>
    const attributeMap: Table
    var skills: seq<Skill>
    var activeEffects: seq<Effect>

    /** The attribute map is the one the constructor built from the attribute list. */
    ghost predicate Valid()
    {
      attributeMap == TableOf(attributes)
    }

    /** The experience system, the equipped objects and the level-up callback are not part of this model. */
    constructor (name: string, types: seq<CharacterType>, attributes: seq<Attribute>,
                 skills: seq<Skill>, activeEffects: Option<seq<Effect>>)
      ensures Valid()
      ensures this.name == name && this.types == types && this.attributes == attributes
      ensures this.skills == skills
      ensures this.activeEffects == if activeEffects.Some? then activeEffects.value else []
    {
      this.name := name;
      this.types := types;
      this.attributes := attributes;
      this.skills := skills;
      this.activeEffects := if activeEffects.Some? then activeEffects.value else [];
      var m: Table := map[];
      for i := 0 to |attributes|
        invariant m == TableOf(attributes[..i])
      {
        assert attributes[..i + 1][..i] == attributes[..i];
        m := m[attributes[i].name := attributes[i]];
      }
      assert attributes[..|attributes|] == attributes;
      this.attributeMap := m;
    }

    /**
     * `getAttribute(kind)`: the last attribute of that kind in the constructor's list;
     * "Attribute not found" when the list has none.
     */
    function GetAttribute(kind: AttributeType): (r: Result<Attribute>)
      requires Valid()
      ensures r.Success? <==> exists i :: 0 <= i < |attributes| && attributes[i].name == kind
      ensures r.Failure? ==> r.error == AttributeNotFound
      ensures r.Success? ==> r.value.name == kind
      ensures r.Success? ==>
        exists i :: 0 <= i < |attributes| && attributes[i] == r.value && forall j :: i < j < |attributes| ==> attributes[j].name != kind
    {
      if kind in attributeMap then
        assert attributes[LastOfKind(attributes, kind)] == attributeMap[kind];
        Success(attributeMap[kind])
      else Failure(AttributeNotFound)
    }

    /** `isDead()`: health at or below zero; throws when there is no health attribute. */
    function IsDead(): (r: Result<bool>)
      reads attributeMap.Values
      ensures r.Success? <==> HP in attributeMap
      ensures r.Success? ==> (r.value <==> attributeMap[HP].value <= 0)
    {
      if HP !in attributeMap then Failure(AttributeNotFound) else Success(attributeMap[HP].value <= 0)
    }

    /** `useSkill(name, targets)`: the attributes of this character and of the targets are updated in place. */
    method UseSkill(skillName: string, targets: seq<Character>) returns (r: Outcome)
      modifies Footprint([attributeMap] + Tables(targets))
      ensures Run(r, Snapshot(Footprint([attributeMap] + Tables(targets))))
           == UseSkillSpec(skills, skillName, attributeMap, Tables(targets), old(Snapshot(Footprint([attributeMap] + Tables(targets)))))
    {
      var found := FindSkill(skills, skillName);
      if found.None? {
        return Fail(SkillNotFound);
      }
      r := Use(skills[found.value], attributeMap, Tables(targets));
    }

    /** `learnSkill(skill)`: capacity is checked before eligibility; only a skill that passes both is appended. */
    method LearnSkill(skill: Skill) returns (r: Outcome)
      modifies this
      ensures r == LearnCheck(|old(skills)|, skill, types)
      ensures skills == Learned(old(skills), types, skill)
      ensures activeEffects == old(activeEffects)
    {
      if |skills| >= SkillsLimit {
        return Fail(SkillsLimitReached);
      }
      if !CanBeUsedBy(skill, types) {
        return Fail(SkillNotAdmitted);
      }
      skills := skills + [skill];
      return Ok;
    }

    method ForgetSkill(skillName: string)
      modifies this
      ensures skills == WithoutSkill(old(skills), skillName)
      ensures activeEffects == old(activeEffects)
    {
      skills := WithoutSkill(skills, skillName);
    }

    method AddEffect(effect: Effect)
      modifies this
      ensures activeEffects == old(activeEffects) + [effect]
      ensures skills == old(skills)
    {
      activeEffects := activeEffects + [effect];
    }

    /**
     * `applyEffects()`: use every active effect on this character, then keep only the
     * active ones. A throw while using an effect leaves the list as it was.
     */
    method ApplyEffects() returns (r: Outcome)
      modifies this, attributeMap.Values
      ensures Run(r, Snapshot(attributeMap.Values)) == EffectsRun(old(activeEffects), attributeMap, old(Snapshot(attributeMap.Values)))
      ensures activeEffects == if r.Ok? then FilterActive(old(activeEffects)) else old(activeEffects)
      ensures skills == old(skills)
    {
      var effects := activeEffects;
      var i := 0;
      while i < |effects|
        invariant 0 <= i <= |effects|
        invariant activeEffects == effects && skills == old(skills)
        invariant EffectsRun(effects[i..], attributeMap, Snapshot(attributeMap.Values))
               == EffectsRun(effects, attributeMap, old(Snapshot(attributeMap.Values)))
      {
        if IsActive(effects[i]) {
          r := ApplyAttributeChange(effects[i], attributeMap, attributeMap.Values);
          if r.Fail? {
            return;
          }
        }
        assert effects[i..][1..] == effects[i + 1..];
        i := i + 1;
      }
      activeEffects := FilterActive(effects);
      return Ok;
    }
  }

  // Properties of characters

  /** Of several attributes of one kind in the constructor's list, the map keeps the last. */
  lemma {:induction false} TableOfLastWins(attrs: seq<Attribute>, i: nat)
    requires i < |attrs|
    requires forall j :: i < j < |attrs| ==> attrs[j].name != attrs[i].name
    ensures attrs[i].name in TableOf(attrs) && TableOf(attrs)[attrs[i].name] == attrs[i]
  {
    if i < |attrs| - 1 {
      var init := attrs[..|attrs| - 1];
      TableOfLastWins(init, i);
    }
  }

  /** The index, in the constructor's list, of the attribute the map holds under a kind: the last one of that kind. */
  ghost function LastOfKind(attrs: seq<Attribute>, k: AttributeType): (i: nat)
    requires k in TableOf(attrs)
    ensures i < |attrs| && TableOf(attrs)[k] == attrs[i]
    ensures forall j :: i < j < |attrs| ==> attrs[j].name != k
    decreases |attrs|
  {
    var n := |attrs| - 1;
    var init := attrs[..n];
    assert TableOf(attrs) == TableOf(init)[attrs[n].name := attrs[n]];
    if attrs[n].name == k then n
    else
      var i := LastOfKind(init, k);
      assert attrs[i] == init[i];
      assert forall j :: i < j < n ==> attrs[j] == init[j];
      i
  }

  /** `useSkill` with a name no skill has throws "Skill not found" and changes nothing. */
  lemma UnknownSkillChangesNothing(skills: seq<Skill>, name: string, player: Table, targets: seq<Table>, h: Heap)
    requires Covers(h, player) && CoversAll(h, targets)
    requires forall j :: 0 <= j < |skills| ==> skills[j].name != name
    ensures UseSkillSpec(skills, name, player, targets, h) == Run(Fail(SkillNotFound), h)
  {
  }

  /** A character with four or more skills cannot learn one, whether or not it could use it. */
  lemma LearnAtCapacity(skills: seq<Skill>, characterTypes: seq<CharacterType>, s: Skill)
    requires |skills| >= SkillsLimit
    ensures LearnCheck(|skills|, s, characterTypes) == Fail(SkillsLimitReached)
    ensures Learned(skills, characterTypes, s) == skills
  {
  }

  /** A learned skill goes at the end, the list growing by one; a refused one changes nothing. */
  lemma LearnAppends(skills: seq<Skill>, characterTypes: seq<CharacterType>, s: Skill)
    ensures LearnCheck(|skills|, s, characterTypes) == Ok <==> |skills| < SkillsLimit && CanBeUsedBy(s, characterTypes)
    ensures |skills| < SkillsLimit && !CanBeUsedBy(s, characterTypes) ==> LearnCheck(|skills|, s, characterTypes) == Fail(SkillNotAdmitted)
    ensures LearnCheck(|skills|, s, characterTypes) == Ok ==>
      Learned(skills, characterTypes, s) == skills + [s] && |Learned(skills, characterTypes, s)| == |skills| + 1
    ensures LearnCheck(|skills|, s, characterTypes) != Ok ==> Learned(skills, characterTypes, s) == skills
  {
  }

  /**
   * As written, `learnSkill` refuses every skill, even one the character's types admit
   * and the intended check accepts.
   */
  lemma LearnAsWrittenRefusesAll(count: nat, s: Skill, characterTypes: seq<CharacterType>)
    ensures LearnCheckAsWritten(count, s) != Ok
    ensures count < SkillsLimit ==> LearnCheckAsWritten(count, s) == Fail(SkillNotAdmitted)
    ensures count < SkillsLimit && CanBeUsedBy(s, characterTypes) ==> LearnCheck(count, s, characterTypes) == Ok
  {
  }

  /** For instance a warrior with no skills cannot learn the basic attack as written, but can as intended. */
  lemma WarriorLearnsBasicAttack()
    ensures LearnCheckAsWritten(0, BasicAttack()) == Fail(SkillNotAdmitted)
    ensures LearnCheck(0, BasicAttack(), [Warrior]) == Ok
  {
    assert Warrior in [Warrior] && Warrior in BasicAttack().admitted;
  }

  /** However many skills are offered, learning never takes a list of at most four past four. */
  lemma {:induction false} LearningKeepsLimit(skills: seq<Skill>, characterTypes: seq<CharacterType>, ss: seq<Skill>)
    requires |skills| <= SkillsLimit
    ensures |LearnedAll(skills, characterTypes, ss)| <= SkillsLimit
    ensures forall s :: s in skills ==> s in LearnedAll(skills, characterTypes, ss)
    decreases |ss|
  {
    if ss != [] {
      LearningKeepsLimit(Learned(skills, characterTypes, ss[0]), characterTypes, ss[1..]);
    }
  }

  /** `forgetSkill` keeps the other skills in their order: it distributes over concatenation. */
  lemma {:induction false} WithoutSkillKeepsOrder(a: seq<Skill>, b: seq<Skill>, name: string)
    ensures WithoutSkill(a + b, name) == WithoutSkill(a, name) + WithoutSkill(b, name)
  {
    if a == [] {
      assert a + b == b;
    } else {
      assert (a + b)[1..] == a[1..] + b;
      WithoutSkillKeepsOrder(a[1..], b, name);
    }
  }

  /** `forgetSkill` is idempotent, and a no-op when no skill has the name. */
  lemma {:induction false} WithoutSkillIdempotent(skills: seq<Skill>, name: string)
    ensures WithoutSkill(WithoutSkill(skills, name), name) == WithoutSkill(skills, name)
    ensures (forall j :: 0 <= j < |skills| ==> skills[j].name != name) ==> WithoutSkill(skills, name) == skills
  {
    if skills != [] {
      WithoutSkillIdempotent(skills[1..], name);
      if skills[0].name != name {
        assert WithoutSkill(skills, name) == [skills[0]] + WithoutSkill(skills[1..], name);
        assert WithoutSkill(WithoutSkill(skills, name), name)
            == [skills[0]] + WithoutSkill(WithoutSkill(skills[1..], name), name);
      }
    }
  }

  /**
   * `applyEffects` uses exactly the active effects, each once, in list order, and never
   * an inactive one.
   */
  lemma {:induction false} EffectsRunUsesActiveOnce(effects: seq<Effect>, t: Table, h: Heap)
    requires Covers(h, t)
    ensures EffectsRun(effects, t, h) == UseEach(FilterActive(effects), t, h)
  {
    if effects != [] {
      if IsActive(effects[0]) {
        var r := ApplyKinds(effects[0].kinds, effects[0].value, t, h);
        assert ([effects[0]] + FilterActive(effects[1..]))[1..] == FilterActive(effects[1..]);
        if r.outcome.Ok? {
          EffectsRunUsesActiveOnce(effects[1..], t, r.heap);
        }
      } else {
        EffectsRunUsesActiveOnce(effects[1..], t, h);
      }
    }
  }

  /** Filtering keeps the active effects in their relative order: it distributes over concatenation. */
  lemma {:induction false} FilterActiveKeepsOrder(a: seq<Effect>, b: seq<Effect>)
    ensures FilterActive(a + b) == FilterActive(a) + FilterActive(b)
  {
    if a == [] {
      assert a + b == b;
    } else {
      assert (a + b)[1..] == a[1..] + b;
      FilterActiveKeepsOrder(a[1..], b);
    }
  }

  /**
   * No effect ever expires: `use` does not touch durations, so the list `applyEffects`
   * keeps is kept whole by the next call, which uses the same effects again.
   */
  lemma {:induction false} ActiveEffectsPersist(effects: seq<Effect>, t: Table, h: Heap)
    requires Covers(h, t)
    ensures FilterActive(FilterActive(effects)) == FilterActive(effects)
    ensures EffectsRun(FilterActive(effects), t, h) == EffectsRun(effects, t, h)
  {
    if effects != [] {
      ActiveEffectsPersist(effects[1..], t, h);
      EffectsRunUsesActiveOnce(effects, t, h);
      EffectsRunUsesActiveOnce(FilterActive(effects), t, h);
    }
  }

  /** An `HPEffect` added to a character is dropped by the next `applyEffects` without being used. */
  lemma HPEffectDroppedUnused(effects: seq<Effect>, v: int, t: Table, h: Heap)
    requires Covers(h, t)
    ensures FilterActive(effects + [HPEffect(v)]) == FilterActive(effects)
    ensures EffectsRun(effects + [HPEffect(v)], t, h) == EffectsRun(effects, t, h)
  {
    FilterActiveKeepsOrder(effects, [HPEffect(v)]);
    assert FilterActive([HPEffect(v)]) == [];
    EffectsRunUsesActiveOnce(effects + [HPEffect(v)], t, h);
    EffectsRunUsesActiveOnce(effects, t, h);
  }
}
