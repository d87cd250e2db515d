/** Visible text of an element in document order, collected with an explicit stack
    (engine/dom_text.py). */
module DomText {
  import opened Texts

  /** An lxml node. A comment or processing instruction has no tag string. */
  datatype Node = Node(tag: Option<string>, text: Option<string>, tail: Option<string>, children: seq<Node>)

  function Present(text: Option<string>): seq<string> {
    if text.Some? then [text.value] else []
  }

  // ---- Tags --------------------------------------------------------------------------

  /** Where the part after the last `}` of `tag[..k]` starts. */
  function LocalStart(tag: string, k: nat): (i: nat)
    requires k <= |tag|
    ensures i <= k && forall j :: i <= j < k ==> tag[j] != '}'
    ensures i > 0 ==> tag[i - 1] == '}'
  {
    if k == 0 || tag[k - 1] == '}' then k else LocalStart(tag, k - 1)
  }

  /** A tag without its namespace. */
  function LocalName(tag: string): string {
    tag[LocalStart(tag, |tag|)..]
  }

  function Lower(c: char): char {
    if 'A' <= c <= 'Z' then c + 32 as char else c
  }

  function LowerAll(s: string): (r: string)
    ensures |r| == |s| && forall i :: 0 <= i < |s| ==> r[i] == Lower(s[i])
  {
    if s == [] then [] else [Lower(s[0])] + LowerAll(s[1..])
  }

  /** No character beyond ASCII is lowered into a letter of these two names. */
  predicate Hidden(node: Node) {
    node.tag.Some? && LowerAll(LocalName(node.tag.value)) in {"script", "style"}
  }

  // ---- The recursive definition ------------------------------------------------------

  /** The node's own text, then each child with its tail. A script or style shows nothing; the
      tail of a node belongs to its parent. */
  function Segments(node: Node): seq<string>
    decreases node, |node.children| + 1
  {
    if Hidden(node) then [] else Present(node.text) + ChildSegments(node, 0)
  }

  function ChildSegments(node: Node, k: nat): seq<string>
    requires k <= |node.children|
    decreases node, |node.children| - k
  {
    if k == |node.children| then []
    else
      var child := node.children[k];
      Segments(child) + Present(child.tail) + ChildSegments(node, k + 1)
  }

  // ---- As a reader of the document sees it -------------------------------------------

  /** A letter of either case. */
  predicate Letter(c: char, lower: char) {
    c == lower || (c as int) + 32 == lower as int
  }

  predicate Spelled(s: string, lower: string) {
    |s| == |lower| && forall i :: 0 <= i < |s| ==> Letter(s[i], lower[i])
  }

  /** Hidden is exactly a tag whose part after the last `}` spells script or style in any case. */
  lemma HiddenMeans(node: Node, k: nat)
    requires node.tag.Some? && k <= |node.tag.value|
    requires k == 0 || node.tag.value[k - 1] == '}'
    requires forall j :: k <= j < |node.tag.value| ==> node.tag.value[j] != '}'
    ensures Hidden(node) <==> Spelled(node.tag.value[k..], "script") || Spelled(node.tag.value[k..], "style")
  {
    var tag := node.tag.value;
    var i := LocalStart(tag, |tag|);
    assert i == k;
    LowerSpells(tag[k..], "script");
    LowerSpells(tag[k..], "style");
  }

  lemma LowerSpells(s: string, lower: string)
    requires forall i :: 0 <= i < |lower| ==> 'a' <= lower[i] <= 'z'
    ensures LowerAll(s) == lower <==> Spelled(s, lower)
  {
    if Spelled(s, lower) {
      forall i | 0 <= i < |s| ensures LowerAll(s)[i] == lower[i] {
        assert Letter(s[i], lower[i]);
      }
    }
    if LowerAll(s) == lower {
      forall i | 0 <= i < |s| ensures Letter(s[i], lower[i]) {
        assert LowerAll(s)[i] == Lower(s[i]);
      }
    }
  }

  /** The document as a stream of marks. */
  datatype Mark = Open(hides: bool) | Chars(text: string) | Close(hid: bool)

  function Marks(node: Node): seq<Mark>
    decreases node, |node.children| + 1
  {
    [Open(Hidden(node))] + CharsOf(node.text) + ChildMarks(node, 0) + [Close(Hidden(node))]
  }

  function ChildMarks(node: Node, k: nat): seq<Mark>
    requires k <= |node.children|
    decreases node, |node.children| - k
  {
    if k == |node.children| then []
    else Marks(node.children[k]) + CharsOf(node.children[k].tail) + ChildMarks(node, k + 1)
  }

  function CharsOf(text: Option<string>): seq<Mark> {
    if text.Some? then [Chars(text.value)] else []
  }

  /** Reading the stream once, with the number of scripts and styles that are open. */
  function Read(marks: seq<Mark>, depth: nat): seq<string> {
    if marks == [] then []
    else
      match marks[0]
      case Open(hides) => Read(marks[1..], if hides then depth + 1 else depth)
      case Chars(text) => (if depth == 0 then [text] else []) + Read(marks[1..], depth)
      case Close(hid) => Read(marks[1..], if hid && depth > 0 then depth - 1 else depth)
  }

  lemma ReadCons(mark: Mark, rest: seq<Mark>, depth: nat)
    ensures Read([mark] + rest, depth) ==
            match mark
            case Open(hides) => Read(rest, if hides then depth + 1 else depth)
            case Chars(text) => (if depth == 0 then [text] else []) + Read(rest, depth)
            case Close(hid) => Read(rest, if hid && depth > 0 then depth - 1 else depth)
  {
    assert ([mark] + rest)[1..] == rest;
  }

  lemma ReadChars(text: Option<string>, rest: seq<Mark>, depth: nat)
    ensures Read(CharsOf(text) + rest, depth) == (if depth == 0 then Present(text) else []) + Read(rest, depth)
  {
    if text.Some? {
      ReadCons(Chars(text.value), rest, depth);
    } else {
      assert CharsOf(text) + rest == rest;
    }
  }

  /** What a node contributes where `depth` scripts and styles are open around it. */
  function Shown(segments: seq<string>, depth: nat): seq<string> {
    if depth == 0 then segments else []
  }

  lemma {:induction false} ReadNode(node: Node, rest: seq<Mark>, depth: nat)
    ensures Read(Marks(node) + rest, depth) == Shown(Segments(node), depth) + Read(rest, depth)
    decreases node, |node.children| + 1
  {
    var hides := Hidden(node);
    var inner := if hides then depth + 1 else depth;
    var tail := [Close(hides)] + rest;
    var a, b := CharsOf(node.text), ChildMarks(node, 0);
    assert Marks(node) + rest == [Open(hides)] + (a + (b + tail));
    ReadCons(Open(hides), a + (b + tail), depth);
    ReadChars(node.text, b + tail, inner);
    ReadChildren(node, 0, tail, inner);
    ReadCons(Close(hides), rest, inner);
    MoveOver([], Shown(Present(node.text), inner), Shown(ChildSegments(node, 0), inner), Read(rest, depth));
  }

  lemma {:induction false} ReadChildren(node: Node, k: nat, rest: seq<Mark>, depth: nat)
    requires k <= |node.children|
    ensures Read(ChildMarks(node, k) + rest, depth) == Shown(ChildSegments(node, k), depth) + Read(rest, depth)
    decreases node, |node.children| - k
  {
    if k == |node.children| {
      assert ChildMarks(node, k) + rest == rest;
    } else {
      var child := node.children[k];
      var more := ChildMarks(node, k + 1) + rest;
      assert ChildMarks(node, k) + rest == Marks(child) + (CharsOf(child.tail) + more);
      ReadNode(child, CharsOf(child.tail) + more, depth);
      ReadChars(child.tail, more, depth);
      ReadChildren(node, k + 1, rest, depth);
      Regroup(Shown(Segments(child), depth), Shown(Present(child.tail), depth),
              Shown(ChildSegments(node, k + 1), depth), Read(rest, depth));
    }
  }

  /** The segments are the text a reader of the document meets outside any script or style, in
      order, from the root's start to its end. */
  lemma SegmentsAreTextOutsideHidden(root: Node)
    ensures Segments(root) == Read(Marks(root), 0)
  {
    ReadNode(root, [], 0);
    assert Marks(root) + [] == Marks(root);
  }

  // ---- The traversal -----------------------------------------------------------------

  datatype Item = Tail(text: string) | Element(node: Node)

  function ItemSegments(item: Item): seq<string> {
    match item
    case Tail(text) => [text]
    case Element(node) => Segments(node)
  }

  /** What a stack still has to yield, its last item first. */
  function Remaining(pending: seq<Item>): seq<string> {
    if pending == [] then [] else ItemSegments(pending[|pending| - 1]) + Remaining(pending[..|pending| - 1])
  }

  /** How many items a node puts on the stack in all, itself included. */
  function Mass(node: Node): nat
    decreases node, |node.children| + 1
  {
    1 + ChildMass(node, 0)
  }

  function ChildMass(node: Node, k: nat): nat
    requires k <= |node.children|
    decreases node, |node.children| - k
  {
    if k == |node.children| then 0 else Mass(node.children[k]) + 1 + ChildMass(node, k + 1)
  }

  function ItemMass(item: Item): nat {
    match item
    case Tail(_) => 1
    case Element(node) => Mass(node)
  }

  function TotalMass(pending: seq<Item>): nat {
    if pending == [] then 0 else ItemMass(pending[|pending| - 1]) + TotalMass(pending[..|pending| - 1])
  }

  lemma PushOne(pending: seq<Item>, item: Item)
    ensures Remaining(pending + [item]) == ItemSegments(item) + Remaining(pending)
    ensures TotalMass(pending + [item]) == ItemMass(item) + TotalMass(pending)
  {
    assert (pending + [item])[..|pending|] == pending;
  }

  /** The children from `k` on lie on top of `pending`. */
  ghost predicate Pushed(pending: seq<Item>, node: Node, k: nat, r: seq<Item>) {
    && k <= |node.children|
    && Remaining(r) == ChildSegments(node, k) + Remaining(pending)
    && TotalMass(r) <= ChildMass(node, k) + TotalMass(pending)
  }

  function WithTail(r: seq<Item>, child: Node): seq<Item> {
    if child.tail.Some? then r + [Tail(child.tail.value)] else r
  }

  lemma ChildrenFrom(node: Node, k: nat)
    requires k < |node.children|
    ensures var child := node.children[k];
            && ChildSegments(node, k) == Segments(child) + Present(child.tail) + ChildSegments(node, k + 1)
            && ChildMass(node, k) == Mass(child) + 1 + ChildMass(node, k + 1)
  {
  }

  lemma PushTail(r: seq<Item>, child: Node)
    ensures Remaining(WithTail(r, child)) == Present(child.tail) + Remaining(r)
    ensures TotalMass(WithTail(r, child)) <= 1 + TotalMass(r)
  {
    if child.tail.Some? {
      PushOne(r, Tail(child.tail.value));
    }
  }

  lemma Regroup(a: seq<string>, b: seq<string>, c: seq<string>, d: seq<string>)
    ensures a + (b + (c + d)) == a + b + c + d
  {
  }

  lemma MoveOver(a: seq<string>, b: seq<string>, c: seq<string>, d: seq<string>)
    ensures a + ((b + c) + d) == (a + b) + (c + d)
  {
  }

  lemma PushChild(pending: seq<Item>, node: Node, k: nat, r: seq<Item>)
    requires k < |node.children| && Pushed(pending, node, k + 1, r)
    ensures Pushed(pending, node, k, WithTail(r, node.children[k]) + [Element(node.children[k])])
  {
    var child := node.children[k];
    ChildrenFrom(node, k);
    PushTail(r, child);
    PushOne(WithTail(r, child), Element(child));
    Regroup(Segments(child), Present(child.tail), ChildSegments(node, k + 1), Remaining(pending));
  }

  /** Children pushed last to first, each above its tail. */
  method PushChildren(pending: seq<Item>, node: Node) returns (r: seq<Item>)
    ensures Pushed(pending, node, 0, r)
  {
    r := pending;
    var k := |node.children|;
    while k > 0
      invariant 0 <= k <= |node.children|
      invariant Pushed(pending, node, k, r)
    {
      k := k - 1;
      var child := node.children[k];
      PushChild(pending, node, k, r);
      if child.tail.Some? {
        r := r + [Tail(child.tail.value)];
      }
      r := r + [Element(child)];
    }
  }

  /** What was yielded and what the stack still yields make up the whole. */
  ghost predicate Covers(out: seq<string>, pending: seq<Item>, all: seq<string>) {
    out + Remaining(pending) == all
  }

  lemma PopTail(out: seq<string>, rest: seq<Item>, text: string, all: seq<string>)
    requires Covers(out, rest + [Tail(text)], all)
    ensures Covers(out + [text], rest, all)
  {
    PushOne(rest, Tail(text));
    assert out + [text] + Remaining(rest) == out + ([text] + Remaining(rest));
  }

  lemma PopHidden(out: seq<string>, rest: seq<Item>, node: Node, all: seq<string>)
    requires Covers(out, rest + [Element(node)], all) && Hidden(node)
    ensures Covers(out, rest, all)
  {
    PushOne(rest, Element(node));
    assert [] + Remaining(rest) == Remaining(rest);
  }

  lemma PopElement(out: seq<string>, rest: seq<Item>, node: Node, r: seq<Item>, all: seq<string>)
    requires Covers(out, rest + [Element(node)], all) && !Hidden(node) && Pushed(rest, node, 0, r)
    ensures Covers(out + Present(node.text), r, all)
  {
    PushOne(rest, Element(node));
    MoveOver(out, Present(node.text), ChildSegments(node, 0), Remaining(rest));
  }

  /** The stack yields exactly the segments of the recursive definition, and runs empty. */
  method VisibleTextSegments(element: Node) returns (out: seq<string>)
    ensures out == Segments(element)
  {
    var pending := [Element(element)];
    out := [];
    OneElement(element);
    while pending != []
      invariant Covers(out, pending, Segments(element))
      decreases TotalMass(pending)
    {
      var top, rest := pending[|pending| - 1], pending[..|pending| - 1];
      assert pending == rest + [top];
      PushOne(rest, top);
      pending := rest;
      match top
      case Tail(text) =>
        PopTail(out, rest, text, Segments(element));
        out := out + [text];
      case Element(node) =>
        if Hidden(node) {
          PopHidden(out, rest, node, Segments(element));
        } else {
          pending := PushChildren(rest, node);
          PopElement(out, rest, node, pending, Segments(element));
          out := out + Present(node.text);
        }
    }
  }

  lemma OneElement(element: Node)
    ensures Covers([], [Element(element)], Segments(element))
  {
    PushOne([], Element(element));
    assert [] + [Element(element)] == [Element(element)];
  }
}
