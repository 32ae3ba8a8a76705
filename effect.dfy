/**
 * Effects: immutable records `{name, attribute kinds, value, duration}` that, when used
 * on a character, apply their value to each listed attribute of that character.
 * `HPEffect` is the only concrete variant; its `use` is `applyAttributeChange`.
 */
module Effects {
  import opened Types
  import opened Attributes

  /** An effect never changes after construction: the source gives it no setters. */
  datatype Effect = Effect(name: string, kinds: seq<AttributeType>, value: int, duration: int)

  /** `new HPEffect(value)`: health only, duration 0. */
  function HPEffect(value: int): Effect
  {
    Effect("DamageEffect", [HP], value, 0)
  }

  /**
   * Whether an effect still acts. The source calls `isActive()` without defining it;
   * this model takes it to mean a positive remaining duration.
   */
  predicate IsActive(e: Effect)
  {
    e.duration > 0
  }

  /** Where a step left the attributes, and whether it threw. */
  datatype Run = Run(outcome: Outcome, heap: Heap)

  predicate Covers(h: Heap, t: Table)
  {
    t.Values <= h.Keys
  }

  function Count(kinds: seq<AttributeType>, k: AttributeType): nat
  {
    if kinds == [] then 0 else (if kinds[0] == k then 1 else 0) + Count(kinds[1..], k)
  }

  /**
   * `applyAttributeChange` on values: for each listed kind, in list order, look the
   * attribute up in the target's table ("Attribute not found" if absent) and apply
   * the effect's value to it.
   */
  function ApplyKinds(kinds: seq<AttributeType>, value: int, t: Table, h: Heap): (r: Run)
    requires Covers(h, t)
    ensures r.heap.Keys == h.Keys
    ensures r.outcome == if forall i :: 0 <= i < |kinds| ==> kinds[i] in t then Ok else Fail(AttributeNotFound)
  {
    if kinds == [] then Run(Ok, h)
    else if kinds[0] !in t then Run(Fail(AttributeNotFound), h)
    else
      var r := ApplyKinds(kinds[1..], value, t, ChangeAt(h, t[kinds[0]], value as real));
      assert forall i :: 1 <= i < |kinds| ==> kinds[i] == kinds[1..][i - 1];
      r
  }

  /** `applyAttributeChange` (and so `HPEffect.use`): the target's attributes are updated in place. */
  method ApplyAttributeChange(e: Effect, target: Table, ghost objs: set<Attribute>) returns (r: Outcome)
    requires target.Values <= objs
    modifies target.Values
    ensures Run(r, Snapshot(objs)) == ApplyKinds(e.kinds, e.value, target, old(Snapshot(objs)))
  {
    var i := 0;
    while i < |e.kinds|
      invariant 0 <= i <= |e.kinds|
      invariant ApplyKinds(e.kinds[i..], e.value, target, Snapshot(objs)) == ApplyKinds(e.kinds, e.value, target, old(Snapshot(objs)))
    {
      var k := e.kinds[i];
      if k !in target {
        return Fail(AttributeNotFound);
      }
      ghost var pre := Snapshot(objs);
      target[k].ApplyChange(e.value as real);
      assert Snapshot(objs) == ChangeAt(pre, target[k], e.value as real);
      assert e.kinds[i..][1..] == e.kinds[i + 1..];
      i := i + 1;
    }
    return Ok;
  }

  /** The `attributes` getter: one fresh full attribute per listed kind, valued at the effect's value. */
  method AttributesOf(e: Effect) returns (attrs: seq<Attribute>)
    ensures |attrs| == |e.kinds|
    ensures forall i :: 0 <= i < |attrs| ==> attrs[i].name == e.kinds[i] && attrs[i].State() == Stat(e.value, e.value)
    ensures forall i :: 0 <= i < |attrs| ==> fresh(attrs[i])
  {
    attrs := CreateAttributes(e.kinds, e.value);
  }

  /**
   * When every listed kind is present, each attribute of the target receives one
   * `applyChange(value)` per occurrence of its kind in the list, and no object outside
   * the target's table changes.
   */
  lemma {:induction false} ApplyKindsOncePerEntry(kinds: seq<AttributeType>, value: int, t: Table, h: Heap)
    requires Covers(h, t) && WellKeyed(t)
    requires forall i :: 0 <= i < |kinds| ==> kinds[i] in t
    ensures ApplyKinds(kinds, value, t, h).outcome == Ok
    ensures forall k :: k in t ==> ApplyKinds(kinds, value, t, h).heap[t[k]] == Repeated(h[t[k]], value as real, Count(kinds, k))
    ensures forall o :: o in h && o !in t.Values ==> ApplyKinds(kinds, value, t, h).heap[o] == h[o]
  {
    if kinds != [] {
      var k0 := kinds[0];
      var h1 := ChangeAt(h, t[k0], value as real);
      ApplyKindsOncePerEntry(kinds[1..], value, t, h1);
      var r := ApplyKinds(kinds, value, t, h);
      assert r == ApplyKinds(kinds[1..], value, t, h1);
      forall k | k in t
        ensures r.heap[t[k]] == Repeated(h[t[k]], value as real, Count(kinds, k))
      {
        if k != k0 {
          assert t[k].name != t[k0].name;
        }
      }
    }
  }

  /** Attributes whose kind the effect does not list keep their values, whether or not the call throws. */
  lemma {:induction false} ApplyKindsLeavesUnlisted(kinds: seq<AttributeType>, value: int, t: Table, h: Heap, o: Attribute)
    requires Covers(h, t) && WellKeyed(t)
    requires o in h && o.name !in kinds
    ensures ApplyKinds(kinds, value, t, h).heap[o] == h[o]
  {
    if kinds != [] && kinds[0] in t {
      assert t[kinds[0]].name == kinds[0];
      ApplyKindsLeavesUnlisted(kinds[1..], value, t, ChangeAt(h, t[kinds[0]], value as real), o);
    }
  }

  /**
   * The call is not atomic: when kind `kinds[j]` is the first one the target lacks,
   * it throws "Attribute not found" after the kinds before it have been applied.
   */
  lemma {:induction false} ApplyKindsStopsAtMissing(kinds: seq<AttributeType>, value: int, t: Table, h: Heap, j: nat)
    requires Covers(h, t)
    requires j < |kinds| && kinds[j] !in t
    requires forall i :: 0 <= i < j ==> kinds[i] in t
    ensures ApplyKinds(kinds, value, t, h) == Run(Fail(AttributeNotFound), ApplyKinds(kinds[..j], value, t, h).heap)
  {
    if j > 0 {
      var h1 := ChangeAt(h, t[kinds[0]], value as real);
      ApplyKindsStopsAtMissing(kinds[1..], value, t, h1, j - 1);
      assert kinds[..j][1..] == kinds[1..][..j - 1];
    }
  }

  /**
   * `HPEffect(v)` is named "DamageEffect", is never active (duration 0), and using it
   * is one `applyChange(v)` on the target's health, or "Attribute not found" with
   * nothing changed when the target has no health attribute.
   */
  lemma HPEffectUse(v: int, t: Table, h: Heap)
    requires Covers(h, t)
    ensures HPEffect(v).name == "DamageEffect" && HPEffect(v).value == v && !IsActive(HPEffect(v))
    ensures HP in t ==> ApplyKinds(HPEffect(v).kinds, v, t, h) == Run(Ok, ChangeAt(h, t[HP], v as real))
    ensures HP !in t ==> ApplyKinds(HPEffect(v).kinds, v, t, h) == Run(Fail(AttributeNotFound), h)
  {
  }
}
