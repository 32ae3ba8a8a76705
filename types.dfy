/** The enumerations of the game domain and the error values its operations report. */
module Types {

  /** The kinds of character (warrior, wizard, archer). */
  datatype CharacterType = Warrior | Wizard | Archer

  /** The kinds of attribute a character carries (health, mana, attack, defense). */
  datatype AttributeType = HP | MANA | ATK | DEF

  /** The behaviour flags of a skill. */
  datatype SkillType = Generic | SpecialEffectPlayer | SpecialEffectEnemy

  /** The errors the domain throws, each with the message the source throws it with. */
  datatype Error =
    | AttributeNotFound   // "Attribute not found"
    | SkillNotFound       // "Skill not found"
    | SkillsLimitReached  // "Skills limit reached"
    | SkillNotAdmitted    // "Skill can't be used by this character"

  /** Whether an operation ran to the end or stopped at a thrown error. */
  datatype Outcome = Ok | Fail(error: Error)

  datatype Option<T> = None | Some(value: T)

  datatype Result<T> = Success(value: T) | Failure(error: Error)
}
