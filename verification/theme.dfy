/** Theme documents and the splicing of `<theme>:include` nodes: each
    include node whose first child names one of the theme's auxiliary
    documents is replaced by that document's nodes. */
module Theme {
  import opened Outcomes

  /** A document node as the theme code sees it: character data, or an
      element with its children in order. */
  datatype Node =
    | Chars(data: string)
    | Element(name: string, children: seq<Node>)

  /** The element name of the include nodes of theme `theme`. */
  function IncludeTag(theme: string): (r: string)
    ensures |r| == |theme| + 8 && r[..|theme|] == theme && r[|theme|..] == ":include"
  {
    theme + ":include"
  }

  /** `node[0].data`: the name an include node refers to, which is the text
      of its first child; a childless node has no first child and an element
      child has no text. */
  function Target(children: seq<Node>): (r: Result<string>)
    ensures r.Ok? <==> children != [] && children[0].Chars?
    ensures r.Ok? ==> r.value == children[0].data
  {
    if children == [] then Err(Uncaught("IndexError: list index out of range"))
    else match children[0]
      case Chars(d) => Ok(d)
      case Element(_, _) => Err(Uncaught("AttributeError: element has no attribute 'data'"))
  }

  /** The failure of the first include node, in document order, that names
      nothing. */
  function Problem(n: Node, tag: string): Option<Failure>
    decreases n
  {
    match n
    case Chars(_) => None
    case Element(name, ch) =>
      if name == tag && Target(ch).Err? then Some(Target(ch).failure) else Problems(ch, tag)
  }

  function Problems(ns: seq<Node>, tag: string): Option<Failure>
    decreases ns
  {
    if ns == [] then None
    else
      var p := Problem(ns[0], tag);
      if p.Some? then p else Problems(ns[1..], tag)
  }

  /** An include node whose target is one of the auxiliary documents. */
  predicate Resolvable(n: Node, tag: string, aux: map<string, seq<Node>>) {
    n.Element? && n.name == tag && Target(n.children).Ok? && Target(n.children).value in aux
  }

  /** A node with its include nodes spliced: a resolvable include becomes
      the nodes of its document, which are not searched again; any other
      element keeps its place with its children spliced. */
  function Resolve(n: Node, tag: string, aux: map<string, seq<Node>>): seq<Node>
    decreases n
  {
    if Resolvable(n, tag, aux) then aux[n.children[0].data]
    else match n
      case Chars(_) => [n]
      case Element(name, ch) => [Element(name, ResolveAll(ch, tag, aux))]
  }

  function ResolveAll(ns: seq<Node>, tag: string, aux: map<string, seq<Node>>): seq<Node>
    decreases ns
  {
    if ns == [] then [] else Resolve(ns[0], tag, aux) + ResolveAll(ns[1..], tag, aux)
  }

  /** The include splice of one theme document: every include node is
      looked at, so one that names nothing fails the whole theme. */
  function Splice(doc: seq<Node>, tag: string, aux: map<string, seq<Node>>): (r: Result<seq<Node>>)
    ensures r.Err? <==> Problems(doc, tag).Some?
  {
    var p := Problems(doc, tag);
    if p.Some? then Err(p.value) else Ok(ResolveAll(doc, tag, aux))
  }

  /** No resolvable include anywhere in the nodes. */
  predicate Settled(ns: seq<Node>, tag: string, aux: map<string, seq<Node>>)
    decreases ns
  {
    forall i :: 0 <= i < |ns| ==> SettledNode(ns[i], tag, aux)
  }

  predicate SettledNode(n: Node, tag: string, aux: map<string, seq<Node>>)
    decreases n
  {
    !Resolvable(n, tag, aux) && (n.Element? ==> Settled(n.children, tag, aux))
  }

  // ---------------------------------------------------------------------
  // Properties of the splice

  /** Splicing works node by node: the nodes around an include keep their
      relative order. */
  lemma {:induction false} ResolveAllAppend(a: seq<Node>, b: seq<Node>, tag: string, aux: map<string, seq<Node>>)
    ensures ResolveAll(a + b, tag, aux) == ResolveAll(a, tag, aux) + ResolveAll(b, tag, aux)
    decreases a
  {
    if a != [] {
      assert (a + b)[0] == a[0];
      assert (a + b)[1..] == a[1..] + b;
      ResolveAllAppend(a[1..], b, tag, aux);
    } else {
      assert a + b == b;
    }
  }

  /** An include whose first child's text names an auxiliary document is
      replaced by that document's nodes; one naming an unknown document is
      left in place. */
  lemma IncludeCases(k: string, rest: seq<Node>, tag: string, aux: map<string, seq<Node>>)
    ensures k in aux ==> Resolve(Element(tag, [Chars(k)] + rest), tag, aux) == aux[k]
    ensures k !in aux ==> Resolve(Element(tag, [Chars(k)] + rest), tag, aux) ==
                            [Element(tag, ResolveAll([Chars(k)] + rest, tag, aux))]
  {
  }

  /** Nodes without a resolvable include are left as they are. */
  lemma {:induction false} SettledUnchanged(ns: seq<Node>, tag: string, aux: map<string, seq<Node>>)
    requires Settled(ns, tag, aux)
    ensures ResolveAll(ns, tag, aux) == ns
    decreases ns
  {
    if ns != [] {
      assert SettledNode(ns[0], tag, aux);
      if ns[0].Element? {
        SettledUnchanged(ns[0].children, tag, aux);
      }
      SettledUnchanged(ns[1..], tag, aux);
    }
  }

  /** When the splice succeeds and the auxiliary documents have no
      resolvable include, none is left after splicing. */
  lemma {:induction false} ResolveSettles(ns: seq<Node>, tag: string, aux: map<string, seq<Node>>)
    requires Problems(ns, tag).None?
    requires forall k :: k in aux ==> Settled(aux[k], tag, aux)
    ensures Settled(ResolveAll(ns, tag, aux), tag, aux)
    decreases ns
  {
    if ns != [] {
      var n := ns[0];
      if !Resolvable(n, tag, aux) && n.Element? {
        ResolveSettles(n.children, tag, aux);
        if n.name == tag {
          assert Target(n.children).Ok?;
          assert Resolve(n.children[0], tag, aux) == [n.children[0]];
          assert ResolveAll(n.children, tag, aux)[0] == n.children[0];
        }
        assert SettledNode(Element(n.name, ResolveAll(n.children, tag, aux)), tag, aux);
      }
      ResolveSettles(ns[1..], tag, aux);
      SettledAppend(Resolve(n, tag, aux), ResolveAll(ns[1..], tag, aux), tag, aux);
    }
  }

  lemma SettledAppend(a: seq<Node>, b: seq<Node>, tag: string, aux: map<string, seq<Node>>)
    requires Settled(a, tag, aux) && Settled(b, tag, aux)
    ensures Settled(a + b, tag, aux)
  {
    forall i | 0 <= i < |a + b|
      ensures SettledNode((a + b)[i], tag, aux)
    {
      if i < |a| {
        assert (a + b)[i] == a[i];
      } else {
        assert (a + b)[i] == b[i - |a|];
      }
    }
  }

  /** Splicing twice is splicing once, when the splice succeeds and the
      auxiliary documents have no resolvable include. */
  lemma ResolveIdempotent(ns: seq<Node>, tag: string, aux: map<string, seq<Node>>)
    requires Problems(ns, tag).None?
    requires forall k :: k in aux ==> Settled(aux[k], tag, aux)
    ensures ResolveAll(ResolveAll(ns, tag, aux), tag, aux) == ResolveAll(ns, tag, aux)
  {
    ResolveSettles(ns, tag, aux);
    SettledUnchanged(ResolveAll(ns, tag, aux), tag, aux);
  }

  /** A childless include anywhere at the top level fails the splice. */
  lemma {:induction false} EmptyIncludeFails(ns: seq<Node>, i: int, tag: string)
    requires 0 <= i < |ns| && ns[i] == Element(tag, [])
    ensures Problems(ns, tag).Some?
    decreases ns
  {
    if i > 0 && Problem(ns[0], tag).None? {
      EmptyIncludeFails(ns[1..], i - 1, tag);
    }
  }
}
