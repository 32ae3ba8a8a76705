# RPG domain core in Dafny

This project models the domain core of a small turn-based role-playing game:

- **attributes**: numeric stats (health, mana, attack, defense) with a current value and a maximum. `applyChange` keeps a value at or below its maximum; the `value` setter and `updateMaxValue` can leave it above, and `resetValue` restores it to the maximum;
- **effects**: records that apply a value to some attributes of a character;
- **skills**: a mana gate, a mana payment, effects on the user and on the targets, and generic damage;
- **characters**: an attribute map, a skill list capped at four, and an active-effect list;
- **the game system**: moves the player across a dungeon grid.

Modules, one per file:

- `Types`: enumerations, errors and result wrappers.
- `Attributes`: the `Attribute` class, `applyChange` on values, attribute factories.
- `Effects`: effects and `applyAttributeChange`.
- `Skills`: skills, presets, `use`.
- `Characters`: the `Character` class.
- `GameSystems`: the grid, the `Position` and `GameSystem` classes, `movePlayer`.

Errors the source throws are values. `Outcome` is `Ok` or `Fail(error)`, and `Result` is `Success(value)` or `Failure(error)`. The four errors carry the source's messages: "Attribute not found", "Skill not found", "Skills limit reached" and "Skill can't be used by this character".

The source's operations are not atomic. An effect that throws halfway leaves the attributes it already changed changed, and so does a skill. The model therefore states every operation that changes attributes through `applyChange` (effects, skills, `useSkill`, `applyEffects`) against a specification function over a *heap*, a map from attribute objects to their `(value, maxValue)`. That function returns the outcome together with the heap it leaves. For example, `Skills.Use` ensures `Run(r, Snapshot(objs)) == UseSpec(skill, player, targets, old(Snapshot(objs)))`. This holds for any aliasing: a character may target itself, appear twice among the targets, or share attribute objects with another character. The three single-field updates of one attribute (the `value` setter, `resetValue`, `updateMaxValue`) are stated directly on that attribute's fields.

Skills and effects see a character through its attribute map (`_attributeMap`, here a `Table`). The only thing they ask of a character is `getAttribute`, which is a lookup in that map.

Where the code is silent or could be read more than one way, the model follows what it does:

- **No duration decrement.** Nothing changes an effect's duration: `use` only applies the value. Active effects therefore never expire (`Characters.ActiveEffectsPersist`). `HPEffect`, whose duration is 0, is never used by `applyEffects` (`Characters.HPEffectDroppedUnused`).
- **Effects are applied at once.** `use` of a skill calls the effect's `use` on the user or the targets directly; it never adds the effect to their active-effect lists.
- **The cap test uses the raw delta.** `applyChange` tests the raw delta against the maximum but adds its ceiling. `Attributes.RawTestAgreesWithCeilingTest` proves this decides the same as testing the ceiling, because values are whole numbers.
- **`isActive` is not defined anywhere.** `applyEffects` calls it, so it is modelled as `duration > 0`.

## Model

| member | source | states |
|---|---|---|
| Attributes.Ceil | src/features/game/domain/entities/attribute/attribute.entity.ts:33 | the result is the least integer at or above the delta (`Math.ceil`) |
| Attributes.Changed | src/features/game/domain/entities/attribute/attribute.entity.ts:27-34 | `applyChange` on a value and maximum: the maximum is kept; what happens to the value is stated by `ChangeCaps`, `ChangeAddsCeiling` and `ChangeKeepsBound` |
| Attributes.Attribute.constructor | src/features/game/domain/entities/attribute/attribute.entity.ts:9-13 | a new attribute is full: its maximum equals its initial value |
| Attributes.Attribute.ApplyChange | src/features/game/domain/entities/attribute/attribute.entity.ts:27-34 | the new value and maximum are `Changed(old state, delta)`: the maximum if the raw delta overshoots it, else the value plus the ceiling of the delta |
| Attributes.ChangeCaps | src/features/game/domain/entities/attribute/attribute.entity.ts:28-31 | an overshooting delta sets the value to exactly the maximum, and a further positive delta keeps it there |
| Attributes.ChangeAddsCeiling | src/features/game/domain/entities/attribute/attribute.entity.ts:33 | below the cap the value moves by exactly the ceiling of the delta, and does not drop iff the delta is above -1 |
| Attributes.RawTestAgreesWithCeilingTest | src/features/game/domain/entities/attribute/attribute.entity.ts:28-33 | testing `value + delta` against the maximum decides the same as testing `value + ceil(delta)` |
| Attributes.ChangeKeepsBound | src/features/game/domain/entities/attribute/attribute.entity.ts:27-34 | a value at or below its maximum stays at or below it after any change |
| Attributes.ChangeHasNoFloor | src/features/game/domain/entities/attribute/attribute.entity.ts:27-34 | there is no lower clamp: a large enough loss makes the value negative |
| Attributes.ChangeNeverRaisesOnLoss | src/features/game/domain/entities/attribute/attribute.entity.ts:27-34 | a non-positive delta never raises the value, even from above the maximum |
| Attributes.RepeatedKeepsBound | src/features/game/domain/entities/attribute/attribute.entity.ts:27-34 | any number of changes keeps a bounded value bounded |
| Attributes.RepeatedGainReachesMax | src/features/game/domain/entities/attribute/attribute.entity.ts:27-34 | after more than `maxValue - value` positive changes the value is exactly the maximum |
| Attributes.Attribute.ResetValue | src/features/game/domain/entities/attribute/attribute.entity.ts:36-38 | the value becomes the maximum and the maximum is unchanged |
| Attributes.Attribute.UpdateMaxValue | src/features/game/domain/entities/attribute/attribute.entity.ts:40-42 | only the maximum changes; the value may end up above it |
| Attributes.Attribute.SetValue | src/features/game/domain/entities/attribute/attribute.entity.ts:23-25 | only the value changes, with no bound enforced |
| Attributes.CreateAttributes | src/features/game/domain/entities/attribute/attribute.entity.ts:46-51 | one fresh full attribute per listed kind, in list order, each valued at the given value |
| Attributes.CreatePreset | src/features/game/domain/entities/attribute/attribute.entity.ts:53-96 | each preset yields fresh full HP, MANA, ATK and DEF attributes in that order with the preset's numbers |
| Attributes.PresetValue | src/features/game/domain/entities/attribute/attribute.entity.ts:53-96 | the initial value each of the five presets gives each kind, as the factory lists them; `CreatePreset` builds the attributes from it |
| Effects.ApplyKinds | src/features/game/domain/entities/effect_base/effect_base.entity.ts:44-49 | applying an effect throws "Attribute not found" iff some listed kind is missing from the target; no attribute object is added or dropped |
| Effects.HPEffect | src/features/game/domain/entities/effect_base/effect_base.entity.ts:53-56 | the only concrete effect: named "DamageEffect", health only, duration 0; its use is stated by `HPEffectUse` |
| Effects.IsActive | src/features/game/domain/entities/character/character.entity.ts:144-150 | the activity test `applyEffects` calls, not defined in the source, taken as a positive duration; its consequences are `ActiveEffectsPersist` and `HPEffectDroppedUnused` |
| Effects.ApplyAttributeChange | src/features/game/domain/entities/effect_base/effect_base.entity.ts:44-49 | the loop leaves the attributes and outcome that `ApplyKinds` computes from the old ones |
| Effects.AttributesOf | src/features/game/domain/entities/effect_base/effect_base.entity.ts:28-32 | the `attributes` getter: one fresh full attribute per listed kind, valued at the effect's value |
| Effects.ApplyKindsOncePerEntry | src/features/game/domain/entities/effect_base/effect_base.entity.ts:44-49 | with every kind present, each attribute receives one `applyChange(value)` per occurrence of its kind, and nothing outside the target changes |
| Effects.ApplyKindsLeavesUnlisted | src/features/game/domain/entities/effect_base/effect_base.entity.ts:44-49 | attributes of kinds the effect does not list keep their values, whether or not the call throws |
| Effects.ApplyKindsStopsAtMissing | src/features/game/domain/entities/effect_base/effect_base.entity.ts:45-48 | at the first missing kind the call throws after the kinds before it have been applied |
| Effects.HPEffectUse | src/features/game/domain/entities/effect_base/effect_base.entity.ts:53-60 | `HPEffect(v)` is "DamageEffect", never active, and its use is one `applyChange(v)` on health, or a throw with nothing changed |
| Skills.SkillDefaults | src/features/game/domain/entities/skill_base/skill_base.entity.ts:34-43 | a skill built without options has no effect, costs 0 and admits every character type, so any typed character may use it |
| Skills.NewSkill | src/features/game/domain/entities/skill_base/skill_base.entity.ts:34-43 | the skill constructor: a missing effect becomes none, a missing cost 0, missing admitted types all three; stated by `SkillDefaults` |
| Skills.BasicAttack | src/features/game/domain/entities/skill_base/skill_base.entity.ts:119-128 | "Basic Attack": generic, force 20, cost 0, every type admitted; its use is stated by `BasicAttackExample` |
| Skills.Arrow | src/features/game/domain/entities/skill_base/skill_base.entity.ts:130-139 | "Arrow": generic, force 30, cost 0, every type admitted; admission stated by `WizardOnlySkills` |
| Skills.Fireball | src/features/game/domain/entities/skill_base/skill_base.entity.ts:141-150 | "Fireball": generic and enemy-effect, force in 20..100 (drawn at random in the source), no effect, cost 0, wizards only; stated by `FireballOnlyDamages` and `WizardOnlySkills` |
| Skills.Heal | src/features/game/domain/entities/skill_base/skill_base.entity.ts:152-163 | "Heal": user-effect, force 0, cost 40, `HPEffect(50)`, wizards only; stated by `HealExample` |
| Skills.RandomAttackWithoutSpecialEffect | src/features/game/domain/entities/skill_base/skill_base.entity.ts:165-173 | one of the five attack names and a force in 20..100 (both drawn at random in the source), generic, no effect, cost 0, every type admitted |
| Skills.CanBeUsedBy | src/features/game/domain/entities/skill_base/skill_base.entity.ts:114-116 | the intended eligibility: some type of the character is admitted; stated by `WizardOnlySkills` and `LearnAppends` |
| Skills.CanBeUsedByAsWritten | src/features/game/domain/entities/skill_base/skill_base.entity.ts:114-116 | eligibility as written, testing the undefined `character.type`; stated by `LearnAsWrittenRefusesAll` |
| Skills.WizardOnlySkills | src/features/game/domain/entities/skill_base/skill_base.entity.ts:119-163 | Fireball and Heal admit exactly characters with the wizard type; Basic Attack and Arrow admit any typed character |
| Skills.CanUse | src/features/game/domain/entities/skill_base/skill_base.entity.ts:70-73 | throws iff the user has no mana attribute, else holds iff mana covers the cost |
| Skills.Damage | src/features/game/domain/entities/skill_base/skill_base.entity.ts:104-106 | with a positive `force * ATK` the final damage is negative exactly when defense exceeds 100, and it is never negative for non-negative `force * ATK` and defense at most 100 |
| Skills.EffectOn | src/features/game/domain/entities/skill_base/skill_base.entity.ts:80-82 | the skill's effect, if any, is used on one target; no attribute object is added or dropped |
| Skills.EffectOnAll | src/features/game/domain/entities/skill_base/skill_base.entity.ts:92-96 | the effect is used on each target in turn, stopping at a throw; no object is added or dropped |
| Skills.DamageStep | src/features/game/domain/entities/skill_base/skill_base.entity.ts:99-110 | one pass of the damage loop; no object is added or dropped |
| Skills.DamageAll | src/features/game/domain/entities/skill_base/skill_base.entity.ts:98-111 | the damage loop over all targets, stopping at a throw; no object is added or dropped |
| Skills.UseSpec | src/features/game/domain/entities/skill_base/skill_base.entity.ts:84-112 | `use` on values; no object is added or dropped |
| Skills.AfterPayment | src/features/game/domain/entities/skill_base/skill_base.entity.ts:88-111 | the three flag-driven phases in order, each only if the previous did not throw |
| Skills.SelfPhase | src/features/game/domain/entities/skill_base/skill_base.entity.ts:88-90 | the user-effect phase runs only under its flag |
| Skills.EnemyPhase | src/features/game/domain/entities/skill_base/skill_base.entity.ts:92-96 | the target-effect phase runs only under its flag |
| Skills.GenericPhase | src/features/game/domain/entities/skill_base/skill_base.entity.ts:98-111 | the damage phase runs only under its flag |
| Skills.UseMana | src/features/game/domain/entities/skill_base/skill_base.entity.ts:75-78 | exactly one `applyChange(-manaCost)` on the user's mana and no other change |
| Skills.ApplySpecialEffect | src/features/game/domain/entities/skill_base/skill_base.entity.ts:80-82 | the attributes end as `EffectOn` computes from the old ones |
| Skills.ApplyToTargets | src/features/game/domain/entities/skill_base/skill_base.entity.ts:92-96 | the loop ends as `EnemyPhase` computes from the old attributes |
| Skills.DamageTarget | src/features/game/domain/entities/skill_base/skill_base.entity.ts:99-110 | the loop body ends as `DamageStep` computes |
| Skills.DamageTargets | src/features/game/domain/entities/skill_base/skill_base.entity.ts:98-111 | the loop ends as `GenericPhase` computes from the old attributes |
| Skills.Use | src/features/game/domain/entities/skill_base/skill_base.entity.ts:84-112 | the user's and targets' attributes end as `UseSpec` computes from the old ones, for any aliasing among them |
| Skills.UseNeedsMana | src/features/game/domain/entities/skill_base/skill_base.entity.ts:84-85 | a user without mana makes `use` throw with no change; too little mana makes it a silent no-op |
| Skills.NoEffectOnAll | src/features/game/domain/entities/skill_base/skill_base.entity.ts:80-82 | a skill without an effect changes nothing in its target-effect phase |
| Skills.EffectOnAllInOrder | src/features/game/domain/entities/skill_base/skill_base.entity.ts:92-96 | effects on a concatenation of target lists are the effects on the first list followed by those on the second |
| Skills.EffectOnLeavesUnlisted | src/features/game/domain/entities/skill_base/skill_base.entity.ts:80-82 | an effect leaves attributes of unlisted kinds alone |
| Skills.EffectOnAllLeavesUnlisted | src/features/game/domain/entities/skill_base/skill_base.entity.ts:92-96 | the target-effect phase leaves attributes of unlisted kinds alone, on every target |
| Skills.DamageAllTouchesOnlyHealth | src/features/game/domain/entities/skill_base/skill_base.entity.ts:98-111 | generic damage changes no attribute other than health |
| Skills.DamageNeverRaises | src/features/game/domain/entities/skill_base/skill_base.entity.ts:104-109 | generic damage never raises any value: a negative final damage is skipped |
| Skills.UseSpendsManaCost | src/features/game/domain/entities/skill_base/skill_base.entity.ts:84-86 | a usable skill whose effect does not touch mana leaves the user's mana at exactly value minus cost, which is non-negative |
| Skills.DamageExample | src/features/game/domain/entities/skill_base/skill_base.entity.ts:104-106 | force 20, attack 10, defense 10 gives final damage 9 |
| Skills.BasicAttackExample | src/features/game/domain/entities/skill_base/skill_base.entity.ts:119-128 | a basic attack with attack 10 against defense 10 lowers the target's health by exactly 9 |
| Skills.HealExample | src/features/game/domain/entities/skill_base/skill_base.entity.ts:152-163 | Heal costs 40 mana, raises health by 50 up to the maximum, and changes nothing outside the user |
| Skills.FireballOnlyDamages | src/features/game/domain/entities/skill_base/skill_base.entity.ts:141-150 | Fireball has no effect and no cost, so its use is exactly the generic damage |
| Characters.TableOf | src/features/game/domain/entities/character/character.entity.ts:56-57 | the attribute map files each attribute under its name and holds exactly the kinds the list has |
| Characters.TableOfLastWins | src/features/game/domain/entities/character/character.entity.ts:56-57 | the map holds the last attribute of each kind in the list |
| Characters.LastOfKind | src/features/game/domain/entities/character/character.entity.ts:56-57 | the attribute the map holds under a kind sits in the list at an index with no later attribute of that kind |
| Characters.FindSkill | src/features/game/domain/entities/character/character.entity.ts:114 | the index found names a skill of that name with none before it; no index means no such skill |
| Characters.WithoutSkill | src/features/game/domain/entities/character/character.entity.ts:135 | the result holds exactly the skills not of that name |
| Characters.FilterActive | src/features/game/domain/entities/character/character.entity.ts:149-151 | the result holds exactly the active effects |
| Characters.EffectsRun | src/features/game/domain/entities/character/character.entity.ts:143-147 | the effect pass on values; no object is added or dropped |
| Characters.UseEach | src/features/game/domain/entities/character/character.entity.ts:143-147 | every listed effect used in turn; no object is added or dropped |
| Characters.UseSkillSpec | src/features/game/domain/entities/character/character.entity.ts:113-118 | `useSkill` on values; no object is added or dropped |
| Characters.Tables | src/features/game/domain/entities/character/character.entity.ts:117 | the targets' attribute maps, in target order |
| Characters.LearnCheck | src/features/game/domain/entities/character/character.entity.ts:124-132 | the outcome of `learnSkill`, capacity before eligibility; stated by `LearnAtCapacity` and `LearnAppends` |
| Characters.LearnCheckAsWritten | src/features/game/domain/entities/character/character.entity.ts:124-132 | the same with the as-written eligibility; stated by `LearnAsWrittenRefusesAll` |
| Characters.Learned | src/features/game/domain/entities/character/character.entity.ts:124-132 | the skill list after `learnSkill`; stated by `LearnAppends` and `LearningKeepsLimit` |
| Characters.Character.constructor | src/features/game/domain/entities/character/character.entity.ts:26-60 | fields as given, the attribute map built from the list, and the effect list defaulting to empty |
| Characters.Character.GetAttribute | src/features/game/domain/entities/character/character.entity.ts:102-107 | throws "Attribute not found" iff no attribute has that kind, else returns the last attribute of that kind |
| Characters.Character.IsDead | src/features/game/domain/entities/character/character.entity.ts:120-122 | throws without health, else holds iff health is at most 0 |
| Characters.Character.UseSkill | src/features/game/domain/entities/character/character.entity.ts:113-118 | the attributes end as `UseSkillSpec` computes: "Skill not found" with no change, else `use` of the first skill of that name |
| Characters.Character.LearnSkill | src/features/game/domain/entities/character/character.entity.ts:124-132 | the outcome is the capacity-then-eligibility check, and the list grows by the skill only when that check passes |
| Characters.Character.ForgetSkill | src/features/game/domain/entities/character/character.entity.ts:134-136 | the skill list becomes the filtered list and the effects are unchanged |
| Characters.Character.AddEffect | src/features/game/domain/entities/character/character.entity.ts:138-140 | the effect is appended at the end |
| Characters.Character.ApplyEffects | src/features/game/domain/entities/character/character.entity.ts:142-152 | the attributes end as `EffectsRun` computes; on success only the active effects remain, else the list is unchanged |
| Characters.UnknownSkillChangesNothing | src/features/game/domain/entities/character/character.entity.ts:113-115 | an unknown skill name throws "Skill not found" and changes nothing |
| Characters.LearnAtCapacity | src/features/game/domain/entities/character/character.entity.ts:124-126 | at four skills or more the limit error comes first and the list is unchanged |
| Characters.LearnAppends | src/features/game/domain/entities/character/character.entity.ts:124-132 | learning succeeds iff there is room and the skill is admitted; then the skill is appended and the length grows by one, else nothing changes |
| Characters.LearnAsWrittenRefusesAll | src/features/game/domain/entities/character/character.entity.ts:128-129 | as written, eligibility always fails, even where the intended check passes |
| Characters.WarriorLearnsBasicAttack | src/features/game/domain/entities/character/character.entity.ts:124-131 | a warrior with no skills is refused the basic attack as written, and accepted as intended |
| Characters.LearningKeepsLimit | src/features/game/domain/entities/character/character.entity.ts:124-132 | any series of learning attempts never takes a list of at most four past four, and keeps every skill already known |
| Characters.WithoutSkillKeepsOrder | src/features/game/domain/entities/character/character.entity.ts:134-136 | forgetting distributes over concatenation, so the remaining skills keep their order |
| Characters.WithoutSkillIdempotent | src/features/game/domain/entities/character/character.entity.ts:134-136 | forgetting twice equals forgetting once, and forgetting an absent name changes nothing |
| Characters.EffectsRunUsesActiveOnce | src/features/game/domain/entities/character/character.entity.ts:143-147 | the effect pass uses exactly the active effects, each once, in list order |
| Characters.FilterActiveKeepsOrder | src/features/game/domain/entities/character/character.entity.ts:149-151 | filtering distributes over concatenation, so kept effects keep their order |
| Characters.ActiveEffectsPersist | src/features/game/domain/entities/character/character.entity.ts:142-152 | the kept list is kept whole by the next call, which uses the same effects again: no effect expires |
| Characters.HPEffectDroppedUnused | src/features/game/domain/entities/character/character.entity.ts:142-152 | an added `HPEffect` is removed by the next pass without being used |
| GameSystems.GameSystem.constructor | src/features/game/domain/entities/game_system/game_system.entity.ts:12-17 | the player starts at (0, 0) |
| GameSystems.GameSystem.MovePlayer | src/features/game/domain/entities/game_system/game_system.entity.ts:32-92 | only the position changes, to `Moved(old position, direction)`, and the hall returned is the hall at the new position |
| GameSystems.GameSystem.CurrentHall | src/features/game/domain/entities/game_system/game_system.entity.ts:94-99 | the hall at the player's position, in bounds by the game system's invariant |
| GameSystems.Destination | src/features/game/domain/entities/game_system/game_system.entity.ts:35-89 | the square a move heads for, one step in its direction clamped to the grid; stated by `MoveStaysInBounds` and `EdgeClamps` |
| GameSystems.Moved | src/features/game/domain/entities/game_system/game_system.entity.ts:35-89 | the position `movePlayer` leaves; stated by `EmptyHallBlocks`, `MoveIsOneStep` and `OpenMoveSteps` |
| GameSystems.Walk | src/features/game/domain/entities/game_system/game_system.entity.ts:32-92 | any series of moves from inside the grid stays inside it |
| GameSystems.MoveStaysInBounds | src/features/game/domain/entities/game_system/game_system.entity.ts:37-86 | a move from inside the grid, and its clamped destination, stay inside the grid |
| GameSystems.EmptyHallBlocks | src/features/game/domain/entities/game_system/game_system.entity.ts:35-89 | a move whose destination hall is empty leaves the position unchanged |
| GameSystems.MoveIsOneStep | src/features/game/domain/entities/game_system/game_system.entity.ts:35-89 | a move changes only its direction's coordinate, by at most one, the right way |
| GameSystems.EdgeClamps | src/features/game/domain/entities/game_system/game_system.entity.ts:37-86 | moving against an edge leaves the position unchanged |
| GameSystems.OpenMoveSteps | src/features/game/domain/entities/game_system/game_system.entity.ts:35-89 | away from the edges, a move into a non-empty hall takes exactly one step |
| GameSystems.WalkAvoidsEmpty | src/features/game/domain/entities/game_system/game_system.entity.ts:32-92 | after any series of moves the player is at the start or in a non-empty hall |
| GameSystems.WalkIsBounded | src/features/game/domain/entities/game_system/game_system.entity.ts:32-92 | after `n` moves each coordinate is within `n` of where it started |

## Left out

- The experience system is not part of this model: `gainExperience`, the level getters and the level-up callback the constructor builds. `ExperienceSystem` is not defined in the files modelled.
- Equipped objects (`ItemBase`) are not part of this model; the source only stores and returns them.
- `CharacterFactory` is not part of this model. It calls `createAttributesWizard`, `createAttributesWarrior`, `createAttributesArcher` and `RandomTribesAttack`, which the modelled files do not define.
- The battle system, dungeon generation and `Hall` objects are not part of this model. The dungeon is a grid of hall kinds given to the `GameSystem` constructor, and `movePlayer` returns the hall's kind.
- Randomness (`intInRange`) becomes parameters: Fireball's force (20 to 100), the name and force of a random attack, and the dungeon, which is passed in whole.
- Numbers: attribute values, effect values, skill force and skill mana cost are integers, where the source accepts any number; damage is an exact real. IEEE-754 rounding of `force * atk * 0.05` and of the reduction is not captured.
- Attributes.Attribute.SetValue: takes an integer, where the source's setter accepts any number.
- Attributes.Attribute.UpdateMaxValue: takes an integer, where the source accepts any number.
- Skills.UseMana: requires the user to have a mana attribute. Its only caller, `use`, has already looked the mana up, and the source would throw there.
- Skills.Use: takes the user's and targets' attribute maps rather than the characters. `getAttribute` is all that `use` asks of a character.
- Characters.Character.LearnSkill: checks eligibility as intended, with the character's types (see Findings). A character may have several types; it is admitted when one of its types is admitted.
- Characters.Character.ApplyEffects: `isActive` is not defined in the source and is taken to be `duration > 0`.
- Array aliasing is not modelled: the skill and effect lists are values. A `push` into an array the caller passed to the constructor, which the caller would also see, is not captured.
- GameSystems.GameSystem.MovePlayer: requires a rectangular, non-empty grid and an in-bounds position. The behaviour of `getHall` outside the grid is not modelled.
- GameSystems.GameSystem: the grid is fixed for the life of the game system. The console layer's rewrite of a hall's type after a won battle is not captured; each move sees the grid as it stands.
- The console and WhatsApp presentation layers and `index.ts` are not part of this model.

## Findings

| source | as written | input that shows it | evidently intended | confidence | as-written member | corrected member |
|---|---|---|---|---|---|---|
| src/features/game/domain/entities/skill_base/skill_base.entity.ts:114-116 | `canBeUsedBy` reads `character.type`, which `Character` does not define (its getter is `types`), so it asks whether the admitted list includes `undefined`. `learnSkill` then refuses every skill with "Skill can't be used by this character" | a warrior with no skills learning the basic attack | admitted iff one of the character's types is admitted | not executed; holds when the code is run despite the type error | Characters.LearnAsWrittenRefusesAll | Characters.LearnAppends |
