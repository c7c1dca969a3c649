/**
 * `$.fn.useContext`: an object's property bound to a DOM property of every
 * element of a collection. Reads return the stored value; a write stores the
 * value at once and schedules one deferred pass (`setTimeout(updateElement, 0)`)
 * that copies the value stored when the pass runs into every target.
 */
module ContextHook {
  import opened Dom

  /**
   * The closure state of one `useContext` call, plus the event loop's queue of
   * its pending passes. `pending` holds, oldest first, the value whose write
   * scheduled each pass; a pass does not use it, it copies `value`.
   */
  class ContextBinding {
    const targets: seq<Element>
    const elementProperty: string
    var value: Value
    var pending: seq<Value>

    /** The target elements as a set. */
    function Targets(): (ts: set<Element>)
    {
      set t | t in targets
    }

    /** Every target's `elementProperty` holds `v`. */
    ghost predicate Shows(v: Value)
      reads Targets()
    {
      forall t :: t in Targets() ==> elementProperty in t.properties && t.properties[elementProperty] == v
    }

    /**
     * The stored value is the last one written while passes are pending, and
     * once none is pending every target shows it.
     */
    ghost predicate Valid()
      reads this, Targets()
    {
      && (pending != [] ==> value == pending[|pending| - 1])
      && (pending == [] ==> Shows(value))
    }

    /**
     * `$(targets).useContext(object, property, elementProperty)` where
     * `object[property]` is `initial`: the value is stored and copied into
     * every target before the call returns; nothing is pending.
     */
    constructor (targets: seq<Element>, initial: Value, elementProperty: string)
      modifies (set t | t in targets)`properties
      ensures this.targets == targets && this.elementProperty == elementProperty
      ensures value == initial && pending == []
      ensures Valid()
      ensures forall t :: t in Targets() ==> t.properties == old(t.properties)[elementProperty := initial]
    {
      this.targets := targets;
      this.elementProperty := elementProperty;
      value := initial;
      pending := [];
      new;
      UpdateElements();
    }

    /** `updateElement`: copy the stored value into every target, in order. */
    method UpdateElements()
      modifies Targets()`properties
      ensures forall t :: t in Targets() ==> t.properties == old(t.properties)[elementProperty := value]
    {
      for i := 0 to |targets|
        invariant forall t :: t in Targets() ==>
          t.properties == if t in targets[..i] then old(t.properties)[elementProperty := value] else old(t.properties)
      {
        var t := targets[i];
        assert targets[..i + 1] == targets[..i] + [t];
        t.properties := t.properties[elementProperty := value];
      }
      assert targets[..|targets|] == targets;
    }

    /**
     * The getter: the stored value, in any state; it schedules nothing and
     * changes nothing. While the invariant holds, that is the last value
     * written, and the targets show it once nothing is pending.
     */
    method Get() returns (v: Value)
      ensures v == value
      ensures Valid() && pending == [] ==> Shows(v)
      ensures Valid() && pending != [] ==> v == pending[|pending| - 1]
    {
      v := value;
    }

    /**
     * The setter: store the value now and schedule exactly one pass; the
     * targets are left as they are until a pass runs.
     */
    method Set(newValue: Value)
      modifies this`value, this`pending
      ensures Valid()
      ensures value == newValue && pending == old(pending) + [newValue]
      ensures forall t :: t in Targets() ==> t.properties == old(t.properties)
    {
      value := newValue;
      pending := pending + [newValue];
    }

    /**
     * One turn of the event loop: the oldest pending pass runs and copies the
     * stored value into every target. With nothing pending, nothing happens.
     */
    method Tick()
      requires Valid()
      modifies this`pending, Targets()`properties
      ensures Valid()
      ensures value == old(value)
      ensures old(pending) == [] ==>
        pending == [] && forall t :: t in Targets() ==> t.properties == old(t.properties)
      ensures old(pending) != [] ==>
        && pending == old(pending)[1..]
        && forall t :: t in Targets() ==> t.properties == old(t.properties)[elementProperty := value]
    {
      if pending != [] {
        pending := pending[1..];
        UpdateElements();
      }
    }

    /**
     * Let the event loop run until no pass of this binding is pending: every
     * target then shows the last value written, whatever was written before it.
     */
    method RunPending()
      requires Valid()
      modifies this`pending, Targets()`properties
      ensures Valid() && pending == [] && value == old(value)
      ensures Shows(value)
      ensures old(pending) != [] ==> Shows(old(pending)[|old(pending)| - 1])
      ensures old(pending) == [] ==> forall t :: t in Targets() ==> t.properties == old(t.properties)
      ensures old(pending) != [] ==>
        forall t :: t in Targets() ==> t.properties == old(t.properties)[elementProperty := value]
    {
      while pending != []
        invariant Valid() && value == old(value)
        invariant pending == old(pending) ==> forall t :: t in Targets() ==> t.properties == old(t.properties)
        invariant pending != old(pending) ==>
          forall t :: t in Targets() ==> t.properties == old(t.properties)[elementProperty := value]
        invariant |pending| <= |old(pending)|
        decreases |pending|
      {
        Tick();
      }
    }
  }

  /**
   * Three targets bound with initial value "red": all show "red" at once.
   * Writing "a" then "b" leaves them red; the first pass already shows "b",
   * and so does the second.
   */
  method LastWriteWinsPerTick()
    returns (initially: seq<Value>, afterWrites: seq<Value>, afterOnePass: seq<Value>, afterAll: seq<Value>)
    ensures initially == [Str("red"), Str("red"), Str("red")]
    ensures afterWrites == [Str("red"), Str("red"), Str("red")]
    ensures afterOnePass == [Str("b"), Str("b"), Str("b")]
    ensures afterAll == [Str("b"), Str("b"), Str("b")]
  {
    var e0 := new Element("li");
    var e1 := new Element("li");
    var e2 := new Element("li");
    var binding := new ContextBinding([e0, e1, e2], Str("red"), "color");
    assert e0 in binding.Targets() && e1 in binding.Targets() && e2 in binding.Targets();
    initially := [e0.properties["color"], e1.properties["color"], e2.properties["color"]];
    binding.Set(Str("a"));
    binding.Set(Str("b"));
    afterWrites := [e0.properties["color"], e1.properties["color"], e2.properties["color"]];
    binding.Tick();
    afterOnePass := [e0.properties["color"], e1.properties["color"], e2.properties["color"]];
    binding.RunPending();
    afterAll := [e0.properties["color"], e1.properties["color"], e2.properties["color"]];
  }

  /**
   * Other code writes a bound property (a user typing into a bound input):
   * the getter still returns the stored value, and the element keeps the
   * outside write until the next pass.
   */
  method GetAfterOutsideWrite() returns (got: Value, shown: Value)
    ensures got == Str("red")
    ensures shown == Str("typed")
  {
    var input := new Element("input");
    var binding := new ContextBinding([input], Str("red"), "value");
    assert input in binding.Targets();
    input.properties := input.properties["value" := Str("typed")];
    got := binding.Get();
    shown := input.properties["value"];
  }
}
