/**
 * A named numeric stat of a character: a current value bounded above by a maximum.
 * `applyChange` is the only arithmetic on it; everything that damages, heals or
 * spends mana goes through it.
 */
module Attributes {
  import opened Types

  /** JavaScript's Math.ceil on a real number. */
  function Ceil(d: real): (c: int)
    ensures c as real - 1.0 < d <= c as real
  {
    -((-d).Floor)
  }

  /** The part of an attribute that `applyChange` reads and writes: its value and its cap. */
  datatype Stat = Stat(value: int, maxValue: int)

  /**
   * The stat `applyChange(delta)` leaves behind: capped at the maximum when the raw
   * delta would overshoot it, otherwise moved by the ceiling of the delta. There is
   * no lower bound.
   */
  function Changed(s: Stat, delta: real): (r: Stat)
    ensures r.maxValue == s.maxValue
  {
    if s.value as real + delta > s.maxValue as real then Stat(s.maxValue, s.maxValue)
    else Stat(s.value + Ceil(delta), s.maxValue)
  }

  /** `applyChange(delta)` called `n` times in a row. */
  function Repeated(s: Stat, delta: real, n: nat): (r: Stat)
    ensures r.maxValue == s.maxValue
    decreases n
  {
    if n == 0 then s else Repeated(Changed(s, delta), delta, n - 1)
  }

  /** A delta that overshoots the maximum sets the value to exactly the maximum; once there, a positive delta keeps it there. */
  lemma ChangeCaps(s: Stat, delta: real)
    requires s.value as real + delta > s.maxValue as real
    ensures Changed(s, delta) == Stat(s.maxValue, s.maxValue)
    ensures delta > 0.0 ==> Changed(Changed(s, delta), delta) == Stat(s.maxValue, s.maxValue)
  {
  }

  /** Below the cap the value moves by exactly the ceiling of the delta. */
  lemma ChangeAddsCeiling(s: Stat, delta: real)
    requires s.value as real + delta <= s.maxValue as real
    ensures Changed(s, delta).value == s.value + Ceil(delta)
    ensures Changed(s, delta).value - s.value >= 0 <==> delta > -1.0
  {
  }

  /**
   * The cap test looks at the raw delta and the increment is its ceiling; with whole-number
   * values the two tests agree, so testing `value + ceil(delta)` would decide the same.
   */
  lemma RawTestAgreesWithCeilingTest(s: Stat, delta: real)
    ensures s.value as real + delta > s.maxValue as real <==> s.value + Ceil(delta) > s.maxValue
  {
  }

  /** A value at or below its maximum stays at or below it. */
  lemma ChangeKeepsBound(s: Stat, delta: real)
    requires s.value <= s.maxValue
    ensures Changed(s, delta).value <= s.maxValue
  {
  }

  /** No lower clamp: a large enough negative delta drives the value below zero. */
  lemma ChangeHasNoFloor(s: Stat, delta: real)
    requires s.value as real + delta <= -1.0
    ensures Changed(s, delta).value < 0
  {
  }

  /** A non-positive delta never raises the value, even from above the maximum. */
  lemma ChangeNeverRaisesOnLoss(s: Stat, delta: real)
    requires delta <= 0.0
    ensures Changed(s, delta).value <= s.value
  {
  }

  /** Repeated changes keep a value that starts at or below its maximum at or below it. */
  lemma {:induction false} RepeatedKeepsBound(s: Stat, delta: real, n: nat)
    requires s.value <= s.maxValue
    ensures Repeated(s, delta, n).value <= s.maxValue
    decreases n
  {
    if n > 0 {
      ChangeKeepsBound(s, delta);
      RepeatedKeepsBound(Changed(s, delta), delta, n - 1);
    }
  }

  /**
   * Repeated positive deltas converge: after more than `maxValue - value` of them the
   * value is exactly the maximum.
   */
  lemma {:induction false} RepeatedGainReachesMax(s: Stat, delta: real, n: nat)
    requires s.value <= s.maxValue && delta > 0.0
    requires n > s.maxValue - s.value
    ensures Repeated(s, delta, n) == Stat(s.maxValue, s.maxValue)
    decreases n
  {
    var s1 := Changed(s, delta);
    ChangeKeepsBound(s, delta);
    if n - 1 > s1.maxValue - s1.value {
      RepeatedGainReachesMax(s1, delta, n - 1);
    }
  }

  class Attribute {
    const name: AttributeType
    var value: int
    var maxValue: int

    /** A fresh attribute starts full: its maximum is its initial value. */
    constructor (name: AttributeType, value: int)
      ensures this.name == name && this.value == value && this.maxValue == value
    {
      this.name := name;
      this.value := value;
      this.maxValue := value;
    }

    function State(): Stat
      reads this
    {
      Stat(value, maxValue)
    }

    method ApplyChange(delta: real)
      modifies this
      ensures State() == Changed(old(State()), delta)
    {
      if value as real + delta > maxValue as real {
        value := maxValue;
        return;
      }
      value := value + Ceil(delta);
    }

    method ResetValue()
      modifies this
      ensures value == maxValue && maxValue == old(maxValue)
    {
      value := maxValue;
    }

    /** Changes only the maximum; the value may end up above it. */
    method UpdateMaxValue(v: int)
      modifies this
      ensures maxValue == v && value == old(value)
    {
      maxValue := v;
    }

    /** The `value` setter: no bound is enforced. */
    method SetValue(v: int)
      modifies this
      ensures value == v && maxValue == old(maxValue)
    {
      value := v;
    }
  }

  /** The values of a set of attribute objects at one point in time. */
  type Heap = map<Attribute, Stat>

  ghost function Snapshot(objs: set<Attribute>): (h: Heap)
    reads objs
    ensures h.Keys == objs
  {
    map a | a in objs :: a.State()
  }

  /** `applyChange(delta)` on object `a`, seen on a heap. */
  function ChangeAt(h: Heap, a: Attribute, delta: real): (h': Heap)
    requires a in h
    ensures h'.Keys == h.Keys
  {
    h[a := Changed(h[a], delta)]
  }

  /** A character's attributes by kind (the source's `_attributeMap`). */
  type Table = map<AttributeType, Attribute>

  /** Every attribute is filed under its own name. */
  predicate WellKeyed(t: Table)
  {
    forall k :: k in t ==> t[k].name == k
  }

  /** All attribute objects reachable from a list of tables. */
  function Footprint(ts: seq<Table>): (objs: set<Attribute>)
    ensures forall i :: 0 <= i < |ts| ==> ts[i].Values <= objs
  {
    if ts == [] then {} else ts[0].Values + Footprint(ts[1..])
  }

  /** `AttributesFactory.createAttributes`: one fresh full attribute per kind, all with the same value. */
  method CreateAttributes(kinds: seq<AttributeType>, value: int) returns (attrs: seq<Attribute>)
    ensures |attrs| == |kinds|
    ensures forall i :: 0 <= i < |attrs| ==> attrs[i].name == kinds[i] && attrs[i].State() == Stat(value, value)
    ensures forall i :: 0 <= i < |attrs| ==> fresh(attrs[i])
  {
    attrs := [];
    for i := 0 to |kinds|
      invariant |attrs| == i
      invariant forall j :: 0 <= j < i ==> attrs[j].name == kinds[j] && attrs[j].State() == Stat(value, value)
      invariant forall j :: 0 <= j < i ==> fresh(attrs[j])
    {
      var a := new Attribute(kinds[i], value);
      attrs := attrs + [a];
    }
  }

  /** The five fixed stat presets of `AttributesFactory`. */
  datatype Preset = Default | Easy | Medium | Hard | VeryHard

  /** The order every preset lists its attributes in. */
  const PresetKinds: seq<AttributeType> := [HP, MANA, ATK, DEF]

  /** The initial (and maximum) value a preset gives each kind. */
  function PresetValue(p: Preset, k: AttributeType): int
  {
    match p
    case Default => (match k case HP => 100 case MANA => 100 case ATK => 10 case DEF => 10)
    case Easy => (match k case HP => 50 case MANA => 50 case ATK => 5 case DEF => 0)
    case Medium => (match k case HP => 200 case MANA => 200 case ATK => 15 case DEF => 15)
    case Hard => (match k case HP => 300 case MANA => 300 case ATK => 20 case DEF => 20)
    case VeryHard => (match k case HP => 400 case MANA => 400 case ATK => 55 case DEF => 45)
  }

  /**
   * `createDefaultAttributes`, `createAttributesEasy`, ... : HP, MANA, ATK, DEF in that
   * order, each a fresh attribute whose value equals its maximum.
   */
  method CreatePreset(p: Preset) returns (attrs: seq<Attribute>)
    ensures |attrs| == |PresetKinds| == 4
    ensures forall i :: 0 <= i < 4 ==>
      attrs[i].name == PresetKinds[i] && attrs[i].State() == Stat(PresetValue(p, PresetKinds[i]), PresetValue(p, PresetKinds[i]))
    ensures forall i :: 0 <= i < 4 ==> fresh(attrs[i])
  {
    var hp := new Attribute(HP, PresetValue(p, HP));
    var mana := new Attribute(MANA, PresetValue(p, MANA));
    var atk := new Attribute(ATK, PresetValue(p, ATK));
    var def := new Attribute(DEF, PresetValue(p, DEF));
    attrs := [hp, mana, atk, def];
  }
}
