/**
 * The element builder (`$.createElement`), the fragment builder
 * (`$.createFragment`) and the mount operation (`$.fn.render`).
 */
module Jsx {
  import opened Dom

  /** What `createElement` is asked to build: a tag name or a component. */
  datatype Tag =
    | Name(name: string)
    | Component(call: (Props, seq<Child>) -> Node)

  /** One enumerable property of the props object; `own` is false when inherited. */
  datatype Prop = Prop(name: string, value: Value, own: bool)

  /** The props argument: `null` (as `createFragment` passes) or an object. */
  datatype Props = NoProps | PropBag(entries: seq<Prop>) {
    /** The properties `for ... in` enumerates, in order. */
    function Entries(): (es: seq<Prop>)
    {
      match this
      case NoProps => []
      case PropBag(entries) => entries
    }
  }

  /** A child argument: an array (nested to any depth), a node, `undefined`, or any other value. */
  datatype Child =
    | Nested(items: seq<Child>)
    | NodeChild(node: Node)
    | Undefined
    | Plain(value: Value)

  // ---------------------------------------------------------------------------
  // Children: depth-first, left-to-right flattening

  /** A child that is not an array becomes exactly one node. */
  function Leaf(c: Child): (n: Node)
    requires !c.Nested?
  {
    match c
    case NodeChild(node) => node
    case Undefined => TextNode("undefined")
    case Plain(v) => TextNode(ToString(v))
  }

  /**
   * The nodes `appendChild` appends for one child, in order: a non-array child
   * gives exactly its one node.
   */
  function FlattenChild(c: Child): (r: seq<Node>)
    ensures !c.Nested? ==> r == [Leaf(c)]
    decreases c
  {
    match c
    case Nested(items) => FlattenAll(items)
    case NodeChild(n) => [n]
    case Undefined => [TextNode("undefined")]
    case Plain(v) => [TextNode(ToString(v))]
  }

  /**
   * The nodes appended for a sequence of children, in order: none for no
   * children, and a non-array first child's node comes first.
   */
  function FlattenAll(cs: seq<Child>): (r: seq<Node>)
    ensures cs == [] ==> r == []
    ensures cs != [] && !cs[0].Nested? ==> r != [] && r[0] == Leaf(cs[0])
    decreases cs
  {
    if cs == [] then [] else FlattenChild(cs[0]) + FlattenAll(cs[1..])
  }

  /** No non-array child is lost: each one's node is among the appended nodes. */
  lemma {:induction false} FlattenKeepsLeaves(cs: seq<Child>)
    ensures forall i :: 0 <= i < |cs| && !cs[i].Nested? ==> Leaf(cs[i]) in FlattenAll(cs)
  {
    if cs != [] {
      FlattenKeepsLeaves(cs[1..]);
      forall i | 1 <= i < |cs| && !cs[i].Nested?
        ensures Leaf(cs[i]) in FlattenAll(cs)
      {
        assert cs[i] == cs[1..][i - 1];
      }
    }
  }

  /** Flattening a concatenation is the concatenation of the flattenings. */
  lemma {:induction false} FlattenConcat(a: seq<Child>, b: seq<Child>)
    ensures FlattenAll(a + b) == FlattenAll(a) + FlattenAll(b)
    decreases |a|
  {
    if a == [] {
      assert a + b == b;
    } else {
      assert (a + b)[1..] == a[1..] + b;
      FlattenConcat(a[1..], b);
    }
  }

  /** `c` wrapped in `depth` further single-element arrays. */
  function Wrap(c: Child, depth: nat): (w: Child)
  {
    if depth == 0 then c else Nested([Wrap(c, depth - 1)])
  }

  /** Wrapping a child in arrays, to any depth, does not change what is appended. */
  lemma {:induction false} FlattenWrap(c: Child, depth: nat)
    ensures FlattenChild(Wrap(c, depth)) == FlattenChild(c)
  {
    if depth > 0 {
      FlattenWrap(c, depth - 1);
      assert FlattenAll([Wrap(c, depth - 1)]) == FlattenChild(Wrap(c, depth - 1)) + FlattenAll([]);
    }
  }

  /**
   * Without arrays, the appended nodes are the children themselves, one for
   * one and in order: node-like children as they are, every other value as
   * a text node of its string form.
   */
  lemma {:induction false} FlattenFlat(cs: seq<Child>)
    requires forall i :: 0 <= i < |cs| ==> !cs[i].Nested?
    ensures |FlattenAll(cs)| == |cs|
    ensures forall i :: 0 <= i < |cs| ==> FlattenAll(cs)[i] == Leaf(cs[i])
  {
    if cs != [] {
      FlattenFlat(cs[1..]);
    }
  }

  /** Every node appended for `cs[i]` is among those appended for `cs`. */
  lemma {:induction false} FlattenContainsItem(cs: seq<Child>, i: nat)
    requires i < |cs|
    ensures ElementsIn(FlattenChild(cs[i])) <= ElementsIn(FlattenAll(cs))
  {
    assert cs == cs[..i] + [cs[i]] + cs[i + 1..];
    FlattenConcat(cs[..i] + [cs[i]], cs[i + 1..]);
    FlattenConcat(cs[..i], [cs[i]]);
    assert FlattenAll([cs[i]]) == FlattenChild(cs[i]) + FlattenAll([]);
    ElementsInConcat(FlattenAll(cs[..i]) + FlattenChild(cs[i]), FlattenAll(cs[i + 1..]));
    ElementsInConcat(FlattenAll(cs[..i]), FlattenChild(cs[i]));
  }

  /** Flattening one more child appends that child's nodes. */
  lemma FlattenSnoc(cs: seq<Child>, i: nat)
    requires i < |cs|
    ensures FlattenAll(cs[..i + 1]) == FlattenAll(cs[..i]) + FlattenChild(cs[i])
  {
    assert cs[..i + 1] == cs[..i] + [cs[i]];
    FlattenConcat(cs[..i], [cs[i]]);
    assert FlattenAll([cs[i]]) == FlattenChild(cs[i]) + FlattenAll([]);
  }

  /**
   * The inner recursive `appendChild`: arrays are walked element by element,
   * node-like values are appended as they are, everything else as a text node.
   * An appended element's parent becomes `parent`.
   */
  method AppendChild(parent: Element, child: Child)
    modifies parent`children, ElementsIn(FlattenChild(child))`parentNode
    ensures parent.children == old(parent.children) + FlattenChild(child)
    ensures forall e :: e in ElementsIn(FlattenChild(child)) ==> e.parentNode == parent
    decreases child
  {
    match child
    case Nested(items) =>
      AppendItems(parent, items);
    case NodeChild(n) =>
      parent.children := parent.children + [n];
      if n.ElementNode? {
        n.element.parentNode := parent;
      }
    case Undefined =>
      parent.children := parent.children + [TextNode("undefined")];
    case Plain(v) =>
      parent.children := parent.children + [TextNode(ToString(v))];
  }

  /**
   * Append each child in turn, depth first: the array branch of `appendChild`
   * and the children loop of `createElement`.
   */
  method AppendItems(parent: Element, items: seq<Child>)
    modifies parent`children, ElementsIn(FlattenAll(items))`parentNode
    ensures parent.children == old(parent.children) + FlattenAll(items)
    ensures forall e :: e in ElementsIn(FlattenAll(items)) ==> e.parentNode == parent
    decreases items
  {
    ghost var done: set<Element> := {};
    for i := 0 to |items|
      invariant parent.children == old(parent.children) + FlattenAll(items[..i])
      invariant done == ElementsIn(FlattenAll(items[..i]))
      invariant forall e :: e in done ==> e.parentNode == parent
    {
      FlattenContainsItem(items, i);
      FlattenSnoc(items, i);
      ElementsInConcat(FlattenAll(items[..i]), FlattenChild(items[i]));
      ghost var next := ElementsIn(FlattenChild(items[i]));
      AppendChild(parent, items[i]);
      done := done + next;
    }
    assert items[..|items|] == items;
  }

  // ---------------------------------------------------------------------------
  // Props: event listener or attribute

  predicate IsUpper(c: char)
  {
    'A' <= c <= 'Z'
  }

  function LowerChar(c: char): (l: char)
  {
    if IsUpper(c) then (c as int - 'A' as int + 'a' as int) as char else c
  }

  /**
   * `name.toLowerCase()`, over the ASCII letters: no upper-case letter is
   * left, each one becomes its lower-case letter, every other character stays.
   */
  function Lower(s: string): (r: string)
    ensures |r| == |s|
    ensures forall i :: 0 <= i < |r| ==> !IsUpper(r[i])
    ensures forall i :: 0 <= i < |s| && !IsUpper(s[i]) ==> r[i] == s[i]
    ensures forall i :: 0 <= i < |s| && IsUpper(s[i]) ==> r[i] as int == s[i] as int + 32
  {
    seq(|s|, i requires 0 <= i < |s| => LowerChar(s[i]))
  }

  /** Lower-casing twice is lower-casing once. */
  lemma LowerIdempotent(s: string)
    ensures Lower(Lower(s)) == Lower(s)
  {
  }

  /**
   * A prop names an event when its lower-cased name starts with "on" and is a
   * name the host recognises (`lowercaseName in window`); the host's names are
   * the set `knownEvents`. The "on" may be in any case in the prop's own name.
   */
  predicate IsEventName(name: string, knownEvents: set<string>): (b: bool)
    ensures b <==>
      && |name| >= 2
      && (name[0] == 'o' || name[0] == 'O')
      && (name[1] == 'n' || name[1] == 'N')
      && Lower(name) in knownEvents
  {
    var lower := Lower(name);
    assert |lower| >= 2 ==> (lower[..2] == "on" <==> lower[0] == 'o' && lower[1] == 'n');
    |lower| >= 2 && lower[..2] == "on" && lower in knownEvents
  }

  /** Whether a name is an event depends only on its lower-cased form. */
  lemma EventNameIgnoresCase(name: string, knownEvents: set<string>)
    ensures IsEventName(Lower(name), knownEvents) == IsEventName(name, knownEvents)
  {
    LowerIdempotent(name);
  }

  /** What the builder does with one enumerated prop. */
  datatype Effect =
    | AddListener(listener: Listener)
    | SetAttribute(name: string, text: string)
    | Ignore

  /**
   * The rule of the props loop: inherited props are ignored; an event prop
   * registers its value as a listener on the lower-cased name without its "on";
   * every other own prop sets its string form under its original-case name.
   */
  function Classify(p: Prop, knownEvents: set<string>): (e: Effect)
    ensures e.Ignore? <==> !p.own
    ensures e.AddListener? <==> p.own && IsEventName(p.name, knownEvents)
    ensures e.AddListener? ==>
      e.listener.handler == p.value && "on" + e.listener.event == Lower(p.name)
    ensures e.SetAttribute? ==> e.name == p.name && e.text == ToString(p.value)
  {
    if !p.own then Ignore
    else if IsEventName(p.name, knownEvents) then
      var lower := Lower(p.name);
      assert lower == lower[..2] + lower[2..];
      AddListener(Listener(lower[2..], p.value))
    else SetAttribute(p.name, ToString(p.value))
  }

  /** The attributes set by a sequence of props, applied left to right. */
  function AttributesOf(ps: seq<Prop>, knownEvents: set<string>): (attrs: map<string, string>)
    ensures forall p :: p in ps && IsAttributeProp(p, knownEvents) ==> p.name in attrs
  {
    if ps == [] then map[]
    else
      var before := AttributesOf(ps[..|ps| - 1], knownEvents);
      match Classify(ps[|ps| - 1], knownEvents)
      case SetAttribute(name, text) => before[name := text]
      case _ => before
  }

  /** The listeners registered by a sequence of props, in registration order. */
  function ListenersOf(ps: seq<Prop>, knownEvents: set<string>): (ls: seq<Listener>)
    ensures |ls| <= |ps|
    ensures forall p :: p in ps && Classify(p, knownEvents).AddListener? ==> Classify(p, knownEvents).listener in ls
  {
    if ps == [] then []
    else
      ListenersOf(ps[..|ps| - 1], knownEvents) +
      match Classify(ps[|ps| - 1], knownEvents)
      case AddListener(l) => [l]
      case _ => []
  }

  /** A prop that sets an attribute: own and not an event name. */
  predicate IsAttributeProp(p: Prop, knownEvents: set<string>)
  {
    p.own && !IsEventName(p.name, knownEvents)
  }

  /** An attribute is set under `k` exactly when some own, non-event prop is named `k`. */
  lemma {:induction false} AttributeKeys(ps: seq<Prop>, knownEvents: set<string>, k: string)
    ensures k in AttributesOf(ps, knownEvents) <==>
      exists i :: 0 <= i < |ps| && ps[i].name == k && IsAttributeProp(ps[i], knownEvents)
  {
    if ps != [] {
      var init := ps[..|ps| - 1];
      AttributeKeys(init, knownEvents, k);
      if k in AttributesOf(init, knownEvents) {
        var i :| 0 <= i < |init| && init[i].name == k && IsAttributeProp(init[i], knownEvents);
        assert ps[i] == init[i];
      }
      if exists i :: 0 <= i < |ps| && ps[i].name == k && IsAttributeProp(ps[i], knownEvents) {
        var i :| 0 <= i < |ps| && ps[i].name == k && IsAttributeProp(ps[i], knownEvents);
        if i < |ps| - 1 {
          assert init[i] == ps[i];
        }
      }
    }
  }

  /** No two props share a name, as with the keys of an object. */
  predicate DistinctNames(ps: seq<Prop>)
  {
    forall i, j :: 0 <= i < j < |ps| ==> ps[i].name != ps[j].name
  }

  /** The attribute a non-event own prop sets holds `value.toString()`. */
  lemma {:induction false} AttributeValue(ps: seq<Prop>, knownEvents: set<string>, i: nat)
    requires DistinctNames(ps)
    requires i < |ps| && IsAttributeProp(ps[i], knownEvents)
    ensures ps[i].name in AttributesOf(ps, knownEvents)
    ensures AttributesOf(ps, knownEvents)[ps[i].name] == ToString(ps[i].value)
  {
    var init := ps[..|ps| - 1];
    if i < |ps| - 1 {
      AttributeValue(init, knownEvents, i);
      assert ps[|ps| - 1].name != ps[i].name;
    }
  }

  /** An event prop sets no attribute at all. */
  lemma EventPropSetsNoAttribute(ps: seq<Prop>, knownEvents: set<string>, i: nat)
    requires DistinctNames(ps)
    requires i < |ps| && IsEventName(ps[i].name, knownEvents)
    ensures ps[i].name !in AttributesOf(ps, knownEvents)
  {
    AttributeKeys(ps, knownEvents, ps[i].name);
  }

  /** The listeners of concatenated props are the listeners of each part, in order. */
  lemma {:induction false} ListenersConcat(a: seq<Prop>, b: seq<Prop>, knownEvents: set<string>)
    ensures ListenersOf(a + b, knownEvents) == ListenersOf(a, knownEvents) + ListenersOf(b, knownEvents)
    decreases |b|
  {
    if b == [] {
      assert a + b == a;
    } else {
      var b' := b[..|b| - 1];
      assert (a + b)[..|a + b| - 1] == a + b';
      assert (a + b)[|a + b| - 1] == b[|b| - 1];
      ListenersConcat(a, b', knownEvents);
    }
  }

  /** Exactly the own event props register listeners, on the name without "on". */
  lemma {:induction false} ListenerFrom(ps: seq<Prop>, knownEvents: set<string>, l: Listener)
    ensures l in ListenersOf(ps, knownEvents) <==>
      exists i :: 0 <= i < |ps| && Classify(ps[i], knownEvents) == AddListener(l)
  {
    if ps != [] {
      var init := ps[..|ps| - 1];
      ListenerFrom(init, knownEvents, l);
      if exists i :: 0 <= i < |init| && Classify(init[i], knownEvents) == AddListener(l) {
        var i :| 0 <= i < |init| && Classify(init[i], knownEvents) == AddListener(l);
        assert ps[i] == init[i];
      }
      if exists i :: 0 <= i < |ps| && Classify(ps[i], knownEvents) == AddListener(l) {
        var i :| 0 <= i < |ps| && Classify(ps[i], knownEvents) == AddListener(l);
        if i < |ps| - 1 {
          assert init[i] == ps[i];
        }
      }
    }
  }

  // ---------------------------------------------------------------------------
  // createElement, createFragment, render

  /**
   * `$.createElement(tag, props, ...children)`. A component tag is called with
   * the arguments and its result returned; nothing else happens. Otherwise one
   * fresh element gets the attributes and listeners of the props and the
   * flattened children.
   */
  method CreateElement(tag: Tag, props: Props, children: seq<Child>, knownEvents: set<string>)
    returns (n: Node)
    modifies ElementsIn(FlattenAll(children))`parentNode
    ensures tag.Component? ==> n == tag.call(props, children)
    ensures tag.Component? ==>
      forall e :: e in ElementsIn(FlattenAll(children)) ==> e.parentNode == old(e.parentNode)
    ensures tag.Name? ==>
      && n.ElementNode? && fresh(n.element)
      && n.element.tag == tag.name
      && n.element.attributes == AttributesOf(props.Entries(), knownEvents)
      && n.element.listeners == ListenersOf(props.Entries(), knownEvents)
      && n.element.children == FlattenAll(children)
      && n.element.properties == map[] && n.element.parentNode == null
      && forall e :: e in ElementsIn(FlattenAll(children)) ==> e.parentNode == n.element
  {
    if tag.Component? {
      return tag.call(props, children);
    }
    ghost var appended := ElementsIn(FlattenAll(children));
    var element := new Element(tag.name);
    assert element !in appended;
    ApplyProps(element, props.Entries(), knownEvents);
    AppendItems(element, children);
    n := ElementNode(element);
  }

  /** The props loop: each enumerated prop adds a listener, sets an attribute or is skipped. */
  method ApplyProps(element: Element, entries: seq<Prop>, knownEvents: set<string>)
    modifies element`attributes, element`listeners
    requires element.attributes == map[] && element.listeners == []
    ensures element.attributes == AttributesOf(entries, knownEvents)
    ensures element.listeners == ListenersOf(entries, knownEvents)
  {
    for i := 0 to |entries|
      invariant element.attributes == AttributesOf(entries[..i], knownEvents)
      invariant element.listeners == ListenersOf(entries[..i], knownEvents)
    {
      assert entries[..i + 1][..i] == entries[..i];
      match Classify(entries[i], knownEvents)
      case AddListener(l) =>
        element.listeners := element.listeners + [l];
      case SetAttribute(name, text) =>
        element.attributes := element.attributes[name := text];
      case Ignore =>
    }
    assert entries[..|entries|] == entries;
  }

  /**
   * `$.createFragment(...children)`: an ordinary element with tag "fragment",
   * no attributes, no listeners, and the flattened children.
   */
  method CreateFragment(children: seq<Child>) returns (n: Node)
    modifies ElementsIn(FlattenAll(children))`parentNode
    ensures n.ElementNode? && fresh(n.element)
    ensures n.element.tag == "fragment"
    ensures n.element.attributes == map[] && n.element.listeners == []
    ensures n.element.properties == map[] && n.element.parentNode == null
    ensures n.element.children == FlattenAll(children)
    ensures forall e :: e in ElementsIn(FlattenAll(children)) ==> e.parentNode == n.element
  {
    n := CreateElement(Name("fragment"), NoProps, children, {});
  }

  /**
   * `$(container).render(content)`: empty the container, detaching every
   * element it held, then append `content` as its only child.
   */
  method Render(container: Element, content: Node)
    modifies container`children
    modifies ElementsIn(container.children)`parentNode, ElementsIn([content])`parentNode
    ensures container.children == [content]
    ensures content.ElementNode? ==> content.element.parentNode == container
    ensures forall e :: e in ElementsIn(old(container.children)) && e !in ElementsIn([content]) ==>
      e.parentNode == null
  {
    var old_children := container.children;
    for i := 0 to |old_children|
      invariant container.children == old_children
      invariant forall k :: 0 <= k < i && old_children[k].ElementNode? ==>
        old_children[k].element.parentNode == null
    {
      if old_children[i].ElementNode? {
        old_children[i].element.parentNode := null;
      }
    }
    container.children := [];
    container.children := container.children + [content];
    if content.ElementNode? {
      content.element.parentNode := container;
    }
  }

  /** Rendering the same node twice leaves the same state as rendering it once. */
  method RenderTwice(container: Element, content: Node)
    modifies container`children
    modifies ElementsIn(container.children)`parentNode, ElementsIn([content])`parentNode
    ensures container.children == [content]
    ensures content.ElementNode? ==> content.element.parentNode == container
    ensures forall e :: e in ElementsIn(old(container.children)) && e !in ElementsIn([content]) ==>
      e.parentNode == null
  {
    Render(container, content);
    Render(container, content);
  }

  /** A prop `onClick` with a function value becomes a "click" listener and no attribute. */
  lemma OnClickIsAListener(handler: string)
    ensures
      var ps := [Prop("onClick", Function(handler), true)];
      ListenersOf(ps, {"onclick"}) == [Listener("click", Function(handler))] &&
      AttributesOf(ps, {"onclick"}) == map[]
  {
    var ps := [Prop("onClick", Function(handler), true)];
    assert Lower("onClick") == "onclick";
    assert ps[..0] == [];
  }

  /** A prop `online` that the host does not know as an event stays an attribute. */
  lemma OnlineIsAnAttribute()
    ensures
      var ps := [Prop("online", Str("yes"), true)];
      ListenersOf(ps, {"onclick", "ononline"}) == [] &&
      AttributesOf(ps, {"onclick", "ononline"}) == map["online" := "yes"]
  {
  }
}
