/** An already-parsed XML element, as xml.etree.ElementTree hands it out, and
    the part of its API the core uses: `iter(tag)`. */
module ElementTree {
  import opened Wrappers

  /** One element: its tag, its attributes, its text (None for an element
      without character data) and its children in document order. */
  datatype Element = Element(
    tag: string,
    attrib: map<string, string>,
    text: Option<string>,
    children: seq<Element>)

  /** `e.iter(tag)`: the element itself and all its descendants, in document
      (pre-)order, keeping those whose tag is `tag`. */
  function IterTag(e: Element, tag: string): (r: seq<Element>)
    ensures forall x :: x in r ==> x.tag == tag
    ensures e.tag == tag ==> |r| > 0 && r[0] == e
  {
    (if e.tag == tag then [e] else []) + IterTagAll(e.children, tag)
  }

  /** The concatenation of `IterTag(c, tag)` over the children `cs`, in order. */
  function IterTagAll(cs: seq<Element>, tag: string): (r: seq<Element>)
    ensures forall x :: x in r ==> x.tag == tag
  {
    if cs == [] then [] else IterTag(cs[0], tag) + IterTagAll(cs[1..], tag)
  }

  /** `x` is `e` itself or one of its descendants. */
  ghost predicate InTree(x: Element, e: Element)
    decreases e
  {
    x == e || exists i :: 0 <= i < |e.children| && InTree(x, e.children[i])
  }

  /** `e.iter(tag)` yields exactly the elements of `e`'s tree, `e` included,
      whose tag is `tag`. */
  lemma {:induction false} IterTagMembers(e: Element, tag: string, x: Element)
    ensures x in IterTag(e, tag) <==> x.tag == tag && InTree(x, e)
    decreases e, 1
  {
    IterTagAllMembers(e.children, tag, x);
  }

  /** The walk over the children `cs` yields exactly the elements with the tag
      in the trees of `cs`. */
  lemma {:induction false} IterTagAllMembers(cs: seq<Element>, tag: string, x: Element)
    ensures x in IterTagAll(cs, tag) <==> x.tag == tag && exists i :: 0 <= i < |cs| && InTree(x, cs[i])
    decreases cs, 0
  {
    if cs != [] {
      IterTagMembers(cs[0], tag, x);
      IterTagAllMembers(cs[1..], tag, x);
      if x.tag == tag && (exists i :: 0 <= i < |cs| && InTree(x, cs[i])) {
        var i :| 0 <= i < |cs| && InTree(x, cs[i]);
        if i > 0 {
          assert cs[1..][i - 1] == cs[i];
        }
      }
      if exists i :: 0 <= i < |cs[1..]| && InTree(x, cs[1..][i]) {
        var i :| 0 <= i < |cs[1..]| && InTree(x, cs[1..][i]);
        assert cs[i + 1] == cs[1..][i];
      }
    }
  }
}
