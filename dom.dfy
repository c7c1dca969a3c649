/**
 * The host document, reduced to what the JSX runtime observes of it:
 * script values and their string conversion, elements with attributes,
 * listeners, DOM properties, children and a parent pointer, and text nodes.
 */
module Dom {

  /** A script value that can be a prop value, a child or a context value. */
  datatype Value =
    | Str(s: string)
    | Int(n: int)
    | Bool(b: bool)
    | Function(source: string)  // a callable; its string form is its source text
    | Object(text: string)      // an object that is neither a node nor an array;
                                // `text` is what its `toString` returns
                                // ("[object Object]" unless it defines its own)

  /** The number a string of decimal digits denotes. */
  function DecimalValue(s: string): (v: nat)
    requires forall i :: 0 <= i < |s| ==> '0' <= s[i] <= '9'
  {
    if s == [] then 0 else 10 * DecimalValue(s[..|s| - 1]) + (s[|s| - 1] as int - '0' as int)
  }

  /** Decimal digits of a natural number, without leading zeros. */
  function NatDigits(n: nat): (r: string)
    ensures |r| >= 1
    ensures forall i :: 0 <= i < |r| ==> '0' <= r[i] <= '9'
    ensures DecimalValue(r) == n
    ensures |r| > 1 ==> r[0] != '0'
    decreases n
  {
    var d := ['0' + (n % 10) as char];
    if n < 10 then d
    else
      var r := NatDigits(n / 10) + d;
      assert r[..|r| - 1] == NatDigits(n / 10);
      r
  }

  /** A minus sign before the digits of `m` leaves those digits after it. */
  lemma NegativeDigits(m: nat)
    ensures var r := "-" + NatDigits(m);
      && |r| >= 2 && r[0] == '-' && r[1..] == NatDigits(m)
      && (forall i :: 1 <= i < |r| ==> '0' <= r[i] <= '9')
      && DecimalValue(r[1..]) == m
      && (|r| > 2 ==> r[1] != '0')
  {
    var r := "-" + NatDigits(m);
    assert r[1..] == NatDigits(m);
  }

  /** An integer in decimal, as `toString` prints it: a "-" for a negative one, no leading zeros. */
  function IntString(n: int): (r: string)
    ensures n >= 0 ==>
      && (forall i :: 0 <= i < |r| ==> '0' <= r[i] <= '9') && r != [] && DecimalValue(r) == n
      && (|r| > 1 ==> r[0] != '0')
    ensures n < 0 ==>
      && |r| >= 2 && r[0] == '-'
      && (forall i :: 1 <= i < |r| ==> '0' <= r[i] <= '9') && DecimalValue(r[1..]) == -n
      && (|r| > 2 ==> r[1] != '0')
  {
    if n < 0 then
      NegativeDigits(-n);
      "-" + NatDigits(-n)
    else NatDigits(n)
  }

  /** The string a value converts to (`value.toString()` / `String(value)`). */
  function ToString(v: Value): (r: string)
    ensures v.Str? ==> r == v.s
    ensures v.Bool? ==> r == (if v.b then "true" else "false")
    ensures v.Int? && v.n >= 0 ==>
      && (forall i :: 0 <= i < |r| ==> '0' <= r[i] <= '9') && r != [] && DecimalValue(r) == v.n
      && (|r| > 1 ==> r[0] != '0')
    ensures v.Int? && v.n < 0 ==>
      && |r| >= 2 && r[0] == '-'
      && (forall i :: 1 <= i < |r| ==> '0' <= r[i] <= '9') && DecimalValue(r[1..]) == -v.n
      && (|r| > 2 ==> r[1] != '0')
  {
    match v
    case Str(s) => s
    case Int(n) => IntString(n)
    case Bool(b) => if b then "true" else "false"
    case Function(source) => source
    case Object(text) => text
  }

  /** An event listener registered on an element. */
  datatype Listener = Listener(event: string, handler: Value)

  /** A document node: a text node or a reference to an element. */
  datatype Node = TextNode(text: string) | ElementNode(element: Element)

  /** The elements referenced by a sequence of nodes. */
  function ElementsIn(nodes: seq<Node>): (r: set<Element>)
    ensures forall e :: e in r ==> ElementNode(e) in nodes
    ensures forall i :: 0 <= i < |nodes| && nodes[i].ElementNode? ==> nodes[i].element in r
  {
    set n | n in nodes && n.ElementNode? :: n.element
  }

  lemma ElementsInConcat(a: seq<Node>, b: seq<Node>)
    ensures ElementsIn(a + b) == ElementsIn(a) + ElementsIn(b)
  {
  }

  /** A document element, updated in place by the runtime. */
  class Element {
    const tag: string
    var attributes: map<string, string>
    var listeners: seq<Listener>
    var properties: map<string, Value>
    var children: seq<Node>
    var parentNode: Element?

    /** A detached element with nothing on it (`document.createElement(tag)`). */
    constructor (tag: string)
      ensures this.tag == tag
      ensures attributes == map[] && listeners == [] && properties == map[]
      ensures children == [] && parentNode == null
    {
      this.tag := tag;
      attributes := map[];
      listeners := [];
      properties := map[];
      children := [];
      parentNode := null;
    }
  }
}
