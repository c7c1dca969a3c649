/**
 * `$.fn.useState`: a state cell bound to an anchor element, whose setter
 * stores the new state and re-renders a container with the component's output.
 */
module StateHook {
  import opened Dom
  import opened Jsx

  /** The container `render` works on, as a frame: none when there is no parent. */
  function Container(p: Element?): (s: set<Element>)
  {
    if p == null then {} else {p}
  }

  /** The elements a render into `p` may detach. */
  function Mounted(p: Element?): (s: set<Element>)
    reads p
  {
    if p == null then {} else ElementsIn(p.children)
  }

  /**
   * The closure state of one `useState` call: the state variable, the anchor
   * (`$(this)`) and its parent container when the hook was created.
   * `Component` is opaque; the node one call of it returns is an argument
   * of the setters.
   */
  class StateCell<T> {
    var state: T
    const anchor: Element
    const parent: Element?

    constructor (initialValue: T, anchor: Element)
      ensures state == initialValue
      ensures this.anchor == anchor && parent == anchor.parentNode
    {
      state := initialValue;
      this.anchor := anchor;
      parent := anchor.parentNode;
    }

    /**
     * `setState` as the source has it: the anchor's parent is looked up when
     * the setter runs, and the render happens only if the anchor still has one.
     */
    method SetStateAsWritten(newState: T, rendered: Node)
      modifies this`state
      modifies Container(anchor.parentNode)`children
      modifies Mounted(anchor.parentNode)`parentNode, ElementsIn([rendered])`parentNode
      ensures state == newState
      ensures old(anchor.parentNode) != null ==>
        && old(anchor.parentNode).children == [rendered]
        && (rendered.ElementNode? ==> rendered.element.parentNode == old(anchor.parentNode))
        && forall e :: e in old(ElementsIn(anchor.parentNode.children)) && e !in ElementsIn([rendered]) ==>
             e.parentNode == null
      ensures old(anchor.parentNode) == null ==>
        forall e :: e in ElementsIn([rendered]) ==> e.parentNode == old(e.parentNode)
    {
      state := newState;
      var p := anchor.parentNode;
      if p != null {
        Render(p, rendered);
      }
    }

    /**
     * `setState` re-rendering the parent captured when the hook was created:
     * every call stores the state and re-renders, one render per call.
     */
    method SetState(newState: T, rendered: Node)
      modifies this`state
      modifies Container(parent)`children
      modifies Mounted(parent)`parentNode, ElementsIn([rendered])`parentNode
      ensures state == newState
      ensures parent != null ==>
        && parent.children == [rendered]
        && (rendered.ElementNode? ==> rendered.element.parentNode == parent)
        && forall e :: e in old(ElementsIn(parent.children)) && e !in ElementsIn([rendered]) ==>
             e.parentNode == null
      ensures parent == null ==>
        forall e :: e in ElementsIn([rendered]) ==> e.parentNode == old(e.parentNode)
    {
      state := newState;
      if parent != null {
        Render(parent, rendered);
      }
    }
  }

  /**
   * `$(anchor).useState(initialValue, Component)`: the returned value is the
   * initial value itself, and the cell holds it.
   */
  method UseState<T>(anchor: Element, initialValue: T) returns (current: T, cell: StateCell<T>)
    ensures current == initialValue
    ensures fresh(cell) && cell.state == initialValue
    ensures cell.anchor == anchor && cell.parent == anchor.parentNode
  {
    cell := new StateCell(initialValue, anchor);
    current := initialValue;
  }

  /**
   * An anchor mounted in a container; the first setter call re-renders the
   * container with a tree that does not hold the anchor. As written, the second
   * call finds no parent and the container still shows the first output.
   */
  method SecondUpdateLostAsWritten() returns (shown: seq<Node>)
    ensures shown == [TextNode("1")]
  {
    var container := new Element("div");
    var anchor := new Element("span");
    Render(container, ElementNode(anchor));
    var current, cell := UseState(anchor, Int(0));
    assert current == Int(0);
    cell.SetStateAsWritten(Int(1), TextNode("1"));
    assert anchor.parentNode == null;
    cell.SetStateAsWritten(Int(2), TextNode("2"));
    shown := container.children;
  }

  /** The same two updates with the captured parent: the container shows the second output. */
  method SecondUpdateShown() returns (shown: seq<Node>)
    ensures shown == [TextNode("2")]
  {
    var container := new Element("div");
    var anchor := new Element("span");
    Render(container, ElementNode(anchor));
    var current, cell := UseState(anchor, Int(0));
    assert current == Int(0);
    cell.SetState(Int(1), TextNode("1"));
    cell.SetState(Int(2), TextNode("2"));
    shown := container.children;
  }
}
