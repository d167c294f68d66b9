/** The nodes of the syntax tree as the plan builder sees and rewrites them. */
module AstNode {
  import opened Wrappers
  import P = SqlParser

  /** `MISSING` stands for a null pointer among the children. */
  datatype Kind =
    | SELECT | SELECT_DEEP | SELECT_LIST | ALL | DERIVED_COLUMN | COLUMN_ALIAS | COLUMN_NAME | TABLE_NAME
    | RESOLVED_COLUMN | METHOD_CALL | METHOD_CALL_WITHIN_RECORD | LITERAL | FROM | WHERE | GROUP_BY
    | GROUP_OVER_TIMEWINDOW | HAVING | ORDER_BY | SORT_SPEC | LIMIT | OFFSET | OPERATOR(op: P.Op)
    | NEGATE_EXPR | IF_EXPR | COLUMN_INDEX | VOID | MISSING

  datatype Node = Node(kind: Kind, token: Option<P.Token>, id: Option<nat>, children: seq<Node>)

  /** A node without token and identifier. */
  function Plain(kind: Kind, children: seq<Node>): Node {
    Node(kind, None, None, children)
  }

  /** A copy, which has no identifiers. */
  function DeepCopy(n: Node): Node {
    Node(n.kind, n.token, None, AllCopies(n.children))
  }

  function AllCopies(ns: seq<Node>): (cs: seq<Node>)
    ensures |cs| == |ns| && forall i :: 0 <= i < |ns| ==> cs[i] == DeepCopy(ns[i])
  {
    if ns == [] then [] else [DeepCopy(ns[0])] + AllCopies(ns[1..])
  }

  /** The comparison used to find a column in a select list. */
  predicate Compare(a: Node, b: Node) {
    && a.kind == b.kind && a.token == b.token
    && |a.children| == |b.children|
    && forall i :: 0 <= i < |a.children| ==> Compare(a.children[i], b.children[i])
  }

  /** Two trees compare equal exactly if their copies are the same tree. */
  lemma {:induction false} CompareIff(a: Node, b: Node)
    ensures Compare(a, b) <==> DeepCopy(a) == DeepCopy(b)
    decreases a
  {
    if a.kind == b.kind && a.token == b.token && |a.children| == |b.children| {
      forall i | 0 <= i < |a.children|
        ensures Compare(a.children[i], b.children[i]) <==> DeepCopy(a).children[i] == DeepCopy(b).children[i]
      {
        CompareIff(a.children[i], b.children[i]);
      }
    }
  }

  lemma {:induction false} CopyTwice(n: Node)
    ensures DeepCopy(DeepCopy(n)) == DeepCopy(n)
    decreases n
  {
    forall i | 0 <= i < |n.children| ensures DeepCopy(DeepCopy(n)).children[i] == DeepCopy(n).children[i] {
      CopyTwice(n.children[i]);
    }
  }

  // ------------------------------------------------------------------
  // Removing children
  // ------------------------------------------------------------------

  /** What erasing inside the loop leaves: the node behind an erased one is never looked at. */
  function Erased(ns: seq<Node>, kind: Kind): seq<Node> {
    if ns == [] then []
    else if ns[0].kind == kind then
      if |ns| == 1 then [] else [ns[1]] + Erased(ns[2..], kind)
    else [ns[0]] + Erased(ns[1..], kind)
  }

  method RemoveChildrenByType(children: seq<Node>, kind: Kind) returns (left: seq<Node>)
    ensures left == Erased(children, kind)
  {
    left := children;
    var i: nat := 0;
    assert left[..0] + Erased(left[0..], kind) == Erased(children, kind) by {
      assert left[0..] == left;
    }
    while i < |left|
      invariant i <= |left|
      invariant left[..i] + Erased(left[i..], kind) == Erased(children, kind)
      decreases |left| - i
    {
      EraseStep(left, i, kind);
      if left[i].kind == kind {
        left := left[..i] + left[i + 1..];
        if i == |left| {
          break;
        }
      }
      i := i + 1;
    }
    assert left[|left|..] == [];
    assert left[..|left|] == left;
  }

  /** One turn of the loop. */
  lemma {:induction false} EraseStep(ns: seq<Node>, i: nat, kind: Kind)
    requires i < |ns|
    ensures var after := if ns[i].kind == kind then ns[..i] + ns[i + 1..] else ns;
            if i < |after| then
              after[..i + 1] + Erased(after[i + 1..], kind) == ns[..i] + Erased(ns[i..], kind)
            else after == ns[..i] + Erased(ns[i..], kind)
  {
    var rest := ns[i..];
    if ns[i].kind == kind {
      var after := ns[..i] + ns[i + 1..];
      if i < |after| {
        assert after[i + 1..] == rest[2..];
        assert after[..i + 1] == ns[..i] + [rest[1]];
        assert ns[..i] + ([rest[1]] + Erased(rest[2..], kind)) == ns[..i] + [rest[1]] + Erased(rest[2..], kind);
      } else {
        assert after == ns[..i];
      }
    } else {
      assert rest[1..] == ns[i + 1..];
      assert ns[..i + 1] == ns[..i] + [ns[i]];
      assert ns[..i] + ([ns[i]] + Erased(rest[1..], kind)) == ns[..i] + [ns[i]] + Erased(rest[1..], kind);
    }
  }

  function Without(ns: seq<Node>, kind: Kind): seq<Node> {
    if ns == [] then []
    else (if ns[0].kind == kind then [] else [ns[0]]) + Without(ns[1..], kind)
  }

  /** Two neighbours of the kind. */
  predicate HasPair(ns: seq<Node>, kind: Kind) {
    |ns| >= 2 && ((ns[0].kind == kind && ns[1].kind == kind) || HasPair(ns[1..], kind))
  }

  /** Nothing else is erased. */
  lemma {:induction false} ErasedKeepsOthers(ns: seq<Node>, kind: Kind)
    ensures Without(Erased(ns, kind), kind) == Without(ns, kind)
    decreases |ns|
  {
    if |ns| > 1 && ns[0].kind == kind {
      ErasedKeepsOthers(ns[2..], kind);
      assert ns[1..][1..] == ns[2..];
      assert Erased(ns, kind)[1..] == Erased(ns[2..], kind);
    } else if ns != [] {
      ErasedKeepsOthers(ns[1..], kind);
      assert Erased(ns, kind) == [ns[0]] + Erased(ns[1..], kind) || Erased(ns, kind) == [];
    }
  }

  predicate Has(ns: seq<Node>, kind: Kind) {
    ns != [] && (ns[0].kind == kind || Has(ns[1..], kind))
  }

  lemma {:induction false} NothingErased(ns: seq<Node>, kind: Kind)
    requires !Has(ns, kind)
    ensures Erased(ns, kind) == ns && Without(ns, kind) == ns && !HasPair(ns, kind)
  {
    if ns != [] {
      NothingErased(ns[1..], kind);
    }
  }

  /** Without neighbours of the kind, everything else is left, in its order. */
  lemma {:induction false} ErasedIsWithout(ns: seq<Node>, kind: Kind)
    requires !HasPair(ns, kind)
    ensures Erased(ns, kind) == Without(ns, kind)
  {
    ErasedIff(ns, kind);
    ErasedKeepsOthers(ns, kind);
    NothingErased(Erased(ns, kind), kind);
  }

  /** Everything of the kind is erased exactly if no two of it are neighbours. */
  lemma {:induction false} ErasedIff(ns: seq<Node>, kind: Kind)
    ensures Has(Erased(ns, kind), kind) <==> HasPair(ns, kind)
    decreases |ns|
  {
    if |ns| > 1 && ns[0].kind == kind {
      ErasedIff(ns[2..], kind);
      assert ns[1..][1..] == ns[2..];
      assert Erased(ns, kind)[1..] == Erased(ns[2..], kind);
    } else if ns != [] {
      ErasedIff(ns[1..], kind);
      assert Erased(ns, kind) == [ns[0]] + Erased(ns[1..], kind) || Erased(ns, kind) == [];
    }
  }
}
