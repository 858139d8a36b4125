/** The phase-polymorphic tree shared by inference, checking and lowering:
    patterns, bindings and expressions, and the extraction of the names a
    binding captures.

    A phase fixes what the metadata slots hold. Here the phase is spelled out
    as type parameters: `M` is the metadata carried by every node (the type
    slot), `D` the data-type reference, `C` the class resolution, `G` the
    global reference and `E` the effect reference. */
module Hir {
  import opened Wrappers
  import opened Syntax

  /** Literal contents are opaque to this core. */
  type LitValue = int

  datatype Pat<M, D> =
    | Error
    | Wildcard
    | Literal(lit: LitValue)
    | Single(inner: BindingNode<M, D>)
    | Add(lhs: BindingNode<M, D>, offset: nat)
    | Tuple(items: seq<BindingNode<M, D>>)
      /** The entries of the field map, in the map's iteration order. */
    | Record(fields: seq<(Ident, BindingNode<M, D>)>)
    | ListExact(items: seq<BindingNode<M, D>>)
    | ListFront(items: seq<BindingNode<M, D>>, tail: Option<BindingNode<M, D>>)
    | Decons(data: D, cons: Ident, inner: BindingNode<M, D>)

  /** A pattern that may also bind the whole matched value under a name. */
  datatype Binding<M, D> = Binding(pat: Pat<M, D>, name: Option<Ident>)

  /** A binding together with the metadata of its tree node. */
  datatype BindingNode<M, D> = BindingNode(binding: Binding<M, D>, meta: M)

  datatype Intrinsic =
    | TypeName | NegNat | NegInt | NegReal | EqChar | EqNat | LessNat | AddNat | MulNat
    | Go | Print | Input | LenList | SkipList | TrimList | JoinList | Propagate

  datatype Expr<M, D, C, G, E> =
    | Error
    | Literal(lit: LitValue)
    | Local(local: Ident)
    | Global(global: G)
    | Tuple(fields: seq<Expr<M, D, C, G, E>>)
    | List(items: seq<Expr<M, D, C, G, E>>, tails: seq<Expr<M, D, C, G, E>>)
    | Record(entries: seq<(Ident, Expr<M, D, C, G, E>)>)
    | Access(record: Expr<M, D, C, G, E>, field: Ident)
    | Match(hiddenOuter: bool, pred: Expr<M, D, C, G, E>, arms: seq<(BindingNode<M, D>, Expr<M, D, C, G, E>)>)
    | Func(param: Ident, body: Expr<M, D, C, G, E>)
    | Apply(f: Expr<M, D, C, G, E>, arg: Expr<M, D, C, G, E>)
    | Cons(data: D, cons: Ident, inner: Expr<M, D, C, G, E>)
    | ClassAccess(meta: M, classRef: C, member: Ident)
    | Intrinsic(op: Intrinsic, args: seq<Expr<M, D, C, G, E>>)
    | Update(record: Expr<M, D, C, G, E>, updates: seq<(Ident, Expr<M, D, C, G, E>)>)
    | Basin(eff: E, inner: Expr<M, D, C, G, E>)
    | Suspend(eff: E, inner: Expr<M, D, C, G, E>)
    | Handle(expr: Expr<M, D, C, G, E>, eff: E, send: Ident, recv: Expr<M, D, C, G, E>)

  // ---------------------------------------------------------------------
  // Binding-set extraction: the specification
  // ---------------------------------------------------------------------

  /** What a node contributes by itself: its capture name with its metadata. */
  function Capture<M, D>(node: BindingNode<M, D>): seq<(Ident, M)>
  {
    match node.binding.name
    case Some(n) => [(n, node.meta)]
    case None => []
  }

  /** Every capture reachable from `node`: the node's own name first, then its
      pattern's captures, depth first and left to right. */
  function Bindings<M, D>(node: BindingNode<M, D>): seq<(Ident, M)>
    decreases node, 1
  {
    Capture(node) + PatBindings(node.binding.pat)
  }

  function PatBindings<M, D>(pat: Pat<M, D>): seq<(Ident, M)>
    decreases pat, 0
  {
    match pat
    case Error => []
    case Wildcard => []
    case Literal(_) => []
    case Single(inner) => Bindings(inner)
    case Add(lhs, _) => Bindings(lhs)
    case Tuple(items) => BindingsOfAll(items)
    case Record(fields) => BindingsOfFields(fields)
    case ListExact(items) => BindingsOfAll(items)
    case ListFront(items, tail) =>
      BindingsOfAll(items) + (match tail case Some(t) => Bindings(t) case None => [])
    case Decons(_, _, inner) => Bindings(inner)
  }

  function BindingsOfAll<M, D>(items: seq<BindingNode<M, D>>): seq<(Ident, M)>
    decreases items, 0
  {
    if items == [] then []
    else BindingsOfAll(items[..|items| - 1]) + Bindings(items[|items| - 1])
  }

  function BindingsOfFields<M, D>(fields: seq<(Ident, BindingNode<M, D>)>): seq<(Ident, M)>
    decreases fields, 0
  {
    if fields == [] then []
    else BindingsOfFields(fields[..|fields| - 1]) + BindingsOfField(fields[|fields| - 1])
  }

  function BindingsOfField<M, D>(field: (Ident, BindingNode<M, D>)): seq<(Ident, M)>
    decreases field, 2
  {
    Bindings(field.1)
  }

  /** The names alone, in visit order. */
  function NamesOf<M>(visits: seq<(Ident, M)>): (names: seq<Ident>)
    ensures |names| == |visits|
    ensures forall i :: 0 <= i < |visits| ==> names[i] == visits[i].0
  {
    seq(|visits|, i requires 0 <= i < |visits| => visits[i].0)
  }

  function Names<M, D>(node: BindingNode<M, D>): seq<Ident>
  {
    NamesOf(Bindings(node))
  }

  // ---------------------------------------------------------------------
  // The constructors of `Binding`
  // ---------------------------------------------------------------------

  /** `Binding::from_pat`: a binding that captures nothing of its own. */
  function FromPat<M(!new), D>(pat: Pat<M, D>): (b: Binding<M, D>)
    ensures b.pat == pat
    ensures forall meta: M :: Bindings(BindingNode(b, meta)) == PatBindings(pat)
  {
    Binding(pat, None)
  }

  /** `Binding::wildcard`: matches anything and captures it under `name`. */
  function WildcardBinding<M(!new), D>(name: Ident): (b: Binding<M, D>)
    ensures b.pat == Pat.Wildcard && b.name == Some(name)
    ensures forall meta: M :: Bindings(BindingNode(b, meta)) == [(name, meta)]
  {
    Binding(Pat.Wildcard, Some(name))
  }

  /** `Binding::unit`: the empty tuple pattern, capturing nothing. */
  function UnitBinding<M(!new), D>(): (b: Binding<M, D>)
    ensures b.pat == Pat.Tuple([])
    ensures forall meta: M :: Bindings(BindingNode(b, meta)) == []
  {
    Binding(Pat.Tuple([]), None)
  }

  // ---------------------------------------------------------------------
  // Facts about extraction
  // ---------------------------------------------------------------------

  /** The node's own capture is visited before anything inside its pattern. */
  lemma CaptureComesFirst<M, D>(node: BindingNode<M, D>)
    ensures node.binding.name.Some? ==>
      Bindings(node) == [(node.binding.name.value, node.meta)] + PatBindings(node.binding.pat)
    ensures node.binding.name.None? ==> Bindings(node) == PatBindings(node.binding.pat)
  {
  }

  /** Error, wildcard and literal patterns capture nothing, so a node with one
      of them captures at most its own name. */
  lemma LeafPatternsCaptureNothing<M, D>(node: BindingNode<M, D>)
    requires node.binding.pat.Error? || node.binding.pat.Wildcard? || node.binding.pat.Literal?
    ensures Bindings(node) == Capture(node)
    ensures |Bindings(node)| <= 1
  {
  }

  /** The nodes of a binding tree in pre-order: the node itself, then the
      nodes of its pattern's sub-bindings from left to right. */
  function Nodes<M, D>(node: BindingNode<M, D>): (r: seq<BindingNode<M, D>>)
    ensures |r| > 0 && r[0] == node
    decreases node, 1
  {
    [node] + PatNodes(node.binding.pat)
  }

  function PatNodes<M, D>(pat: Pat<M, D>): seq<BindingNode<M, D>>
    decreases pat, 0
  {
    match pat
    case Error => []
    case Wildcard => []
    case Literal(_) => []
    case Single(inner) => Nodes(inner)
    case Add(lhs, _) => Nodes(lhs)
    case Tuple(items) => NodesOfAll(items)
    case Record(fields) => NodesOfFields(fields)
    case ListExact(items) => NodesOfAll(items)
    case ListFront(items, tail) =>
      NodesOfAll(items) + (match tail case Some(t) => Nodes(t) case None => [])
    case Decons(_, _, inner) => Nodes(inner)
  }

  function NodesOfAll<M, D>(items: seq<BindingNode<M, D>>): seq<BindingNode<M, D>>
    decreases items, 0
  {
    if items == [] then []
    else NodesOfAll(items[..|items| - 1]) + Nodes(items[|items| - 1])
  }

  function NodesOfFields<M, D>(fields: seq<(Ident, BindingNode<M, D>)>): seq<BindingNode<M, D>>
    decreases fields, 0
  {
    if fields == [] then []
    else NodesOfFields(fields[..|fields| - 1]) + NodesOfField(fields[|fields| - 1])
  }

  function NodesOfField<M, D>(field: (Ident, BindingNode<M, D>)): seq<BindingNode<M, D>>
    decreases field, 2
  {
    Nodes(field.1)
  }

  /** The captures of a list of nodes, one node after the other. */
  function CapturesOf<M, D>(nodes: seq<BindingNode<M, D>>): seq<(Ident, M)>
  {
    if nodes == [] then []
    else CapturesOf(nodes[..|nodes| - 1]) + Capture(nodes[|nodes| - 1])
  }

  lemma {:induction false} CapturesOfAppend<M, D>(a: seq<BindingNode<M, D>>, b: seq<BindingNode<M, D>>)
    ensures CapturesOf(a + b) == CapturesOf(a) + CapturesOf(b)
    decreases |b|
  {
    if b == [] {
      assert a + b == a;
    } else {
      var b' := b[..|b| - 1];
      assert (a + b)[..|a + b| - 1] == a + b';
      CapturesOfAppend(a, b');
    }
  }

  /** Extraction lists the capture of every named node of the tree, in
      pre-order, and nothing else: duplicates are kept, so the result has one
      entry per named node. */
  lemma {:induction false} BindingsArePreorderCaptures<M, D>(node: BindingNode<M, D>)
    ensures Bindings(node) == CapturesOf(Nodes(node))
    decreases node, 1
  {
    PatBindingsArePreorderCaptures(node.binding.pat);
    CapturesOfAppend([node], PatNodes(node.binding.pat));
    assert CapturesOf([node]) == Capture(node) by {
      assert [node][..0] == [];
    }
  }

  lemma {:induction false} PatBindingsArePreorderCaptures<M, D>(pat: Pat<M, D>)
    ensures PatBindings(pat) == CapturesOf(PatNodes(pat))
    decreases pat, 1
  {
    match pat
    case Error =>
    case Wildcard =>
    case Literal(_) =>
    case Single(inner) => BindingsArePreorderCaptures(inner);
    case Add(lhs, _) => BindingsArePreorderCaptures(lhs);
    case Tuple(items) => AllBindingsArePreorderCaptures(items);
    case Record(fields) => FieldBindingsArePreorderCaptures(fields);
    case ListExact(items) => AllBindingsArePreorderCaptures(items);
    case ListFront(_, _) => ListFrontBindingsArePreorderCaptures(pat);
    case Decons(_, _, inner) => BindingsArePreorderCaptures(inner);
  }

  /** The case of a list pattern with a front and an optional tail binding. */
  lemma {:induction false} ListFrontBindingsArePreorderCaptures<M, D>(pat: Pat<M, D>)
    requires pat.ListFront?
    ensures PatBindings(pat) == CapturesOf(PatNodes(pat))
    decreases pat, 0
  {
    var ListFront(items, tail) := pat;
    AllBindingsArePreorderCaptures(items);
    match tail {
      case Some(t) =>
        BindingsArePreorderCaptures(t);
        CapturesOfAppend(NodesOfAll(items), Nodes(t));
      case None =>
        assert PatNodes(pat) == NodesOfAll(items) + [] == NodesOfAll(items);
        assert PatBindings(pat) == BindingsOfAll(items) + [] == BindingsOfAll(items);
    }
  }

  lemma {:induction false} AllBindingsArePreorderCaptures<M, D>(items: seq<BindingNode<M, D>>)
    ensures BindingsOfAll(items) == CapturesOf(NodesOfAll(items))
    decreases items, 0
  {
    if items != [] {
      var init := items[..|items| - 1];
      AllBindingsArePreorderCaptures(init);
      BindingsArePreorderCaptures(items[|items| - 1]);
      CapturesOfAppend(NodesOfAll(init), Nodes(items[|items| - 1]));
    }
  }

  lemma {:induction false} FieldBindingsArePreorderCaptures<M, D>(fields: seq<(Ident, BindingNode<M, D>)>)
    ensures BindingsOfFields(fields) == CapturesOf(NodesOfFields(fields))
    decreases fields, 0
  {
    if fields != [] {
      var init := fields[..|fields| - 1];
      FieldBindingsArePreorderCaptures(init);
      FieldBindingIsPreorderCaptures(fields[|fields| - 1]);
      CapturesOfAppend(NodesOfFields(init), Nodes(fields[|fields| - 1].1));
    }
  }

  lemma {:induction false} FieldBindingIsPreorderCaptures<M, D>(field: (Ident, BindingNode<M, D>))
    ensures BindingsOfField(field) == CapturesOf(NodesOfField(field))
    decreases field, 2
  {
    BindingsArePreorderCaptures(field.1);
  }

  /** Duplicate names are neither detected nor removed: the tuple pattern
      `(x, x)` captures `x` twice. */
  lemma DuplicateCapturesAreKept<M(!new), D>(x: Ident, m1: M, m2: M, m: M)
    ensures Names<M, D>(BindingNode(Binding(Pat.Tuple([BindingNode(WildcardBinding(x), m1), BindingNode(WildcardBinding(x), m2)]), None), m))
      == [x, x]
  {
    var items := [BindingNode(WildcardBinding<M, D>(x), m1), BindingNode(WildcardBinding<M, D>(x), m2)];
    assert items[..1][..0] == [];
    assert Bindings(items[0]) == [(x, m1)];
    assert Bindings(items[1]) == [(x, m2)];
    assert BindingsOfAll(items[..1]) == [(x, m1)];
    assert BindingsOfAll(items) == [(x, m1), (x, m2)];
    var node := BindingNode(Binding(Pat.Tuple(items), None), m);
    assert Bindings(node) == [(x, m1), (x, m2)];
    assert NamesOf(Bindings(node)) == [x, x];
  }

  // ---------------------------------------------------------------------
  // Binding-set extraction: the visitor
  // ---------------------------------------------------------------------

  /** Feeds visits to a visitor one at a time, left to right, threading the
      visitor's state. A Rust `FnMut` callback is such a step function over
      the state it captures. */
  function Fold<A, M>(visit: (A, Ident, M) -> A, acc: A, visits: seq<(Ident, M)>): A
    decreases |visits|
  {
    if visits == [] then acc
    else Fold(visit, visit(acc, visits[0].0, visits[0].1), visits[1..])
  }

  lemma {:induction false} FoldAppend<A, M>(visit: (A, Ident, M) -> A, acc: A, a: seq<(Ident, M)>, b: seq<(Ident, M)>)
    ensures Fold(visit, acc, a + b) == Fold(visit, Fold(visit, acc, a), b)
    decreases |a|
  {
    if a == [] {
      assert a + b == b;
    } else {
      assert (a + b)[1..] == a[1..] + b;
      FoldAppend(visit, visit(acc, a[0].0, a[0].1), a[1..], b);
    }
  }

  /** `visit_bindings_inner`: calls `visit` once per capture, in the order of
      `Bindings`. */
  method VisitBindings<A, M, D>(node: BindingNode<M, D>, visit: (A, Ident, M) -> A, acc: A) returns (r: A)
    ensures r == Fold(visit, acc, Bindings(node))
    decreases node, 1
  {
    r := acc;
    if node.binding.name.Some? {
      r := visit(r, node.binding.name.value, node.meta);
    }
    assert r == Fold(visit, acc, Capture(node));
    r := VisitPat(node.binding.pat, visit, r);
    FoldAppend(visit, acc, Capture(node), PatBindings(node.binding.pat));
  }

  /** The walk over the pattern part of a binding, one arm per pattern form. */
  method VisitPat<A, M, D>(pat: Pat<M, D>, visit: (A, Ident, M) -> A, acc: A) returns (r: A)
    ensures r == Fold(visit, acc, PatBindings(pat))
    decreases pat, 0
  {
    r := acc;
    match pat {
      case Error =>
      case Wildcard =>
      case Literal(_) =>
      case Single(inner) =>
        r := VisitBindings(inner, visit, r);
      case Add(lhs, _) =>
        r := VisitBindings(lhs, visit, r);
      case Tuple(items) =>
        r := VisitEach(items, visit, r);
      case Record(fields) =>
        r := VisitFields(fields, visit, r);
      case ListExact(items) =>
        r := VisitEach(items, visit, r);
      case ListFront(items, tail) =>
        r := VisitEach(items, visit, r);
        match tail {
          case Some(t) =>
            FoldAppend(visit, acc, BindingsOfAll(items), Bindings(t));
            r := VisitBindings(t, visit, r);
          case None =>
            assert PatBindings(pat) == BindingsOfAll(items) + [] == BindingsOfAll(items);
        }
      case Decons(_, _, inner) =>
        r := VisitBindings(inner, visit, r);
    }
  }

  /** Visits a sequence of sub-bindings in order (`items.iter().for_each`). */
  method VisitEach<A, M, D>(items: seq<BindingNode<M, D>>, visit: (A, Ident, M) -> A, acc: A) returns (r: A)
    ensures r == Fold(visit, acc, BindingsOfAll(items))
    decreases items, 0
  {
    r := acc;
    var i := 0;
    while i < |items|
      invariant 0 <= i <= |items|
      invariant r == Fold(visit, acc, BindingsOfAll(items[..i]))
    {
      assert items[..i + 1][..i] == items[..i];
      FoldAppend(visit, acc, BindingsOfAll(items[..i]), Bindings(items[i]));
      r := VisitBindings(items[i], visit, r);
      i := i + 1;
    }
    assert items[..|items|] == items;
  }

  /** Visits the fields of a record pattern in the map's order (`fields.values()`). */
  method VisitFields<A, M, D>(fields: seq<(Ident, BindingNode<M, D>)>, visit: (A, Ident, M) -> A, acc: A) returns (r: A)
    ensures r == Fold(visit, acc, BindingsOfFields(fields))
    decreases fields, 0
  {
    r := acc;
    var i := 0;
    while i < |fields|
      invariant 0 <= i <= |fields|
      invariant r == Fold(visit, acc, BindingsOfFields(fields[..i]))
    {
      assert fields[..i + 1][..i] == fields[..i];
      FoldAppend(visit, acc, BindingsOfFields(fields[..i]), Bindings(fields[i].1));
      r := VisitField(fields[i], visit, r);
      i := i + 1;
    }
    assert fields[..|fields|] == fields;
  }

  method VisitField<A, M, D>(field: (Ident, BindingNode<M, D>), visit: (A, Ident, M) -> A, acc: A) returns (r: A)
    ensures r == Fold(visit, acc, Bindings(field.1))
    decreases field, 2
  {
    r := VisitBindings(field.1, visit, acc);
  }

  /** The visitor of `get_binding_tys`: remembers each name with the type part
      of the node's inference metadata (a span and a type variable). */
  function PushNameAndTy<S, T>(acc: seq<(Ident, T)>, name: Ident, meta: (S, T)): seq<(Ident, T)>
  {
    acc + [(name, meta.1)]
  }

  lemma {:induction false} FoldPushNameAndTy<S, T>(acc: seq<(Ident, T)>, visits: seq<(Ident, (S, T))>)
    ensures Fold(PushNameAndTy, acc, visits)
      == acc + seq(|visits|, i requires 0 <= i < |visits| => (visits[i].0, visits[i].1.1))
    decreases |visits|
  {
    if visits != [] {
      FoldPushNameAndTy(PushNameAndTy(acc, visits[0].0, visits[0].1), visits[1..]);
    }
  }

  /** `get_binding_tys`: every captured name with its type, in visit order. */
  method GetBindingTys<S, T, D>(node: BindingNode<(S, T), D>) returns (r: seq<(Ident, T)>)
    ensures |r| == |Bindings(node)|
    ensures forall i :: 0 <= i < |r| ==> r[i] == (Bindings(node)[i].0, Bindings(node)[i].1.1)
  {
    r := VisitBindings(node, PushNameAndTy, []);
    FoldPushNameAndTy([], Bindings(node));
  }
}
