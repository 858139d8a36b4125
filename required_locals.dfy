/** The free-variable analysis of lowered expressions used by closure
    conversion (`Expr<ConMeta>::required_locals`).

    `Required` is the specification: the walk of the source written as a
    function of the expression and the stack of bound names. The methods
    below perform the walk as the source does, pushing and truncating one
    shared stack and appending to one shared result, and are proved equal to
    `Required`. `FreeOf(Occurrences(e), s)` is an independent description of
    the same result: the local references of `e`, left to right, that neither
    `s` nor an enclosing binder binds. */
module LocalsAnalysis {
  import opened Wrappers
  import opened Syntax
  import opened Hir

  // ---------------------------------------------------------------------
  // The analysis as a function of the bound-name stack
  // ---------------------------------------------------------------------

  function Required<M, D, C, G, E>(e: Expr<M, D, C, G, E>, stack: seq<Ident>): seq<Ident>
    decreases e, 1
  {
    match e
    case Error => []
    case Literal(_) => []
    case Local(local) => if local in stack then [] else [local]
    case Global(_) => []
    case Intrinsic(_, args) => RequiredAll(args, stack)
    case Match(_, pred, arms) => Required(pred, stack) + RequiredArms(arms, stack)
    case Func(param, body) => Required(body, stack + [param])
    case Apply(f, arg) => Required(f, stack) + Required(arg, stack)
    case Tuple(fields) => RequiredAll(fields, stack)
    case Record(entries) => RequiredEntries(entries, stack)
    case List(items, tails) => RequiredAll(items, stack) + RequiredAll(tails, stack)
    case Access(record, _) => Required(record, stack)
    case Cons(_, _, inner) => Required(inner, stack)
    case ClassAccess(_, _, _) => []
    case Update(record, updates) => Required(record, stack) + RequiredEntries(updates, stack)
    case Basin(_, inner) => Required(inner, stack)
    case Suspend(_, inner) => Required(inner, stack)
    case Handle(expr, _, send, recv) => Required(expr, stack) + Required(recv, stack + [send])
  }

  function RequiredAll<M, D, C, G, E>(es: seq<Expr<M, D, C, G, E>>, stack: seq<Ident>): seq<Ident>
    decreases es, 0
  {
    if es == [] then []
    else RequiredAll(es[..|es| - 1], stack) + Required(es[|es| - 1], stack)
  }

  function RequiredEntries<M, D, C, G, E>(entries: seq<(Ident, Expr<M, D, C, G, E>)>, stack: seq<Ident>): seq<Ident>
    decreases entries, 0
  {
    if entries == [] then []
    else RequiredEntries(entries[..|entries| - 1], stack) + RequiredEntry(entries[|entries| - 1], stack)
  }

  function RequiredEntry<M, D, C, G, E>(entry: (Ident, Expr<M, D, C, G, E>), stack: seq<Ident>): seq<Ident>
    decreases entry, 2
  {
    Required(entry.1, stack)
  }

  function RequiredArms<M, D, C, G, E>(arms: seq<(BindingNode<M, D>, Expr<M, D, C, G, E>)>, stack: seq<Ident>): seq<Ident>
    decreases arms, 0
  {
    if arms == [] then []
    else RequiredArms(arms[..|arms| - 1], stack) + RequiredArm(arms[|arms| - 1], stack)
  }

  /** An arm's body sees the arm's captured names on top of the stack. */
  function RequiredArm<M, D, C, G, E>(arm: (BindingNode<M, D>, Expr<M, D, C, G, E>), stack: seq<Ident>): seq<Ident>
    decreases arm, 2
  {
    Required(arm.1, stack + Names(arm.0))
  }

  // ---------------------------------------------------------------------
  // The reference description: free occurrences
  // ---------------------------------------------------------------------

  /** A local reference together with the names its enclosing binders bind. */
  datatype Occurrence = Occurrence(name: Ident, binders: set<Ident>)

  function Elements(s: seq<Ident>): set<Ident>
  {
    set x | x in s
  }

  /** The occurrences below a binder, which binds `bound`. */
  function Under(bound: set<Ident>, occs: seq<Occurrence>): (r: seq<Occurrence>)
    ensures |r| == |occs|
    ensures forall i :: 0 <= i < |occs| ==> r[i] == Occurrence(occs[i].name, occs[i].binders + bound)
  {
    seq(|occs|, i requires 0 <= i < |occs| => Occurrence(occs[i].name, occs[i].binders + bound))
  }

  /** Every local reference of `e`, left to right, with its binders. */
  function Occurrences<M, D, C, G, E>(e: Expr<M, D, C, G, E>): seq<Occurrence>
    decreases e, 1
  {
    match e
    case Error => []
    case Literal(_) => []
    case Local(local) => [Occurrence(local, {})]
    case Global(_) => []
    case Intrinsic(_, args) => OccurrencesOfAll(args)
    case Match(_, pred, arms) => Occurrences(pred) + OccurrencesOfArms(arms)
    case Func(param, body) => Under({param}, Occurrences(body))
    case Apply(f, arg) => Occurrences(f) + Occurrences(arg)
    case Tuple(fields) => OccurrencesOfAll(fields)
    case Record(entries) => OccurrencesOfEntries(entries)
    case List(items, tails) => OccurrencesOfAll(items) + OccurrencesOfAll(tails)
    case Access(record, _) => Occurrences(record)
    case Cons(_, _, inner) => Occurrences(inner)
    case ClassAccess(_, _, _) => []
    case Update(record, updates) => Occurrences(record) + OccurrencesOfEntries(updates)
    case Basin(_, inner) => Occurrences(inner)
    case Suspend(_, inner) => Occurrences(inner)
    case Handle(expr, _, send, recv) => Occurrences(expr) + Under({send}, Occurrences(recv))
  }

  function OccurrencesOfAll<M, D, C, G, E>(es: seq<Expr<M, D, C, G, E>>): seq<Occurrence>
    decreases es, 0
  {
    if es == [] then []
    else OccurrencesOfAll(es[..|es| - 1]) + Occurrences(es[|es| - 1])
  }

  function OccurrencesOfEntries<M, D, C, G, E>(entries: seq<(Ident, Expr<M, D, C, G, E>)>): seq<Occurrence>
    decreases entries, 0
  {
    if entries == [] then []
    else OccurrencesOfEntries(entries[..|entries| - 1]) + OccurrencesOfEntry(entries[|entries| - 1])
  }

  function OccurrencesOfEntry<M, D, C, G, E>(entry: (Ident, Expr<M, D, C, G, E>)): seq<Occurrence>
    decreases entry, 2
  {
    Occurrences(entry.1)
  }

  function OccurrencesOfArms<M, D, C, G, E>(arms: seq<(BindingNode<M, D>, Expr<M, D, C, G, E>)>): seq<Occurrence>
    decreases arms, 0
  {
    if arms == [] then []
    else OccurrencesOfArms(arms[..|arms| - 1]) + OccurrencesOfArm(arms[|arms| - 1])
  }

  /** A match arm binds every name its binding captures, in its body only. */
  function OccurrencesOfArm<M, D, C, G, E>(arm: (BindingNode<M, D>, Expr<M, D, C, G, E>)): seq<Occurrence>
    decreases arm, 2
  {
    Under(Elements(Names(arm.0)), Occurrences(arm.1))
  }

  /** The names of the occurrences that neither `stack` nor their binders
      bind, in order and with repetitions. */
  function FreeOf(occs: seq<Occurrence>, stack: seq<Ident>): seq<Ident>
  {
    if occs == [] then []
    else
      var o := occs[|occs| - 1];
      FreeOf(occs[..|occs| - 1], stack) + (if o.name in stack || o.name in o.binders then [] else [o.name])
  }

  lemma {:induction false} FreeOfAppend(a: seq<Occurrence>, b: seq<Occurrence>, stack: seq<Ident>)
    ensures FreeOf(a + b, stack) == FreeOf(a, stack) + FreeOf(b, stack)
    decreases |b|
  {
    if b != [] {
      var b' := b[..|b| - 1];
      assert (a + b)[..|a + b| - 1] == a + b';
      FreeOfAppend(a, b', stack);
    } else {
      assert a + b == a;
    }
  }

  /** Names pushed on the stack act as binders around every occurrence. */
  lemma {:induction false} FreeOfUnder(occs: seq<Occurrence>, stack: seq<Ident>, pushed: seq<Ident>)
    ensures FreeOf(occs, stack + pushed) == FreeOf(Under(Elements(pushed), occs), stack)
    decreases |occs|
  {
    if occs != [] {
      var init := occs[..|occs| - 1];
      assert Under(Elements(pushed), occs)[..|occs| - 1] == Under(Elements(pushed), init);
      FreeOfUnder(init, stack, pushed);
    }
  }

  /** A name is free in a list of occurrences exactly when some occurrence of
      it is bound neither by the stack nor by its binders. */
  lemma {:induction false} InFreeOf(occs: seq<Occurrence>, stack: seq<Ident>, x: Ident)
    ensures x in FreeOf(occs, stack) <==>
      x !in stack && exists i :: 0 <= i < |occs| && occs[i].name == x && x !in occs[i].binders
    decreases |occs|
  {
    if occs != [] {
      var init := occs[..|occs| - 1];
      InFreeOf(init, stack, x);
      if exists i :: 0 <= i < |occs| && occs[i].name == x && x !in occs[i].binders {
        var i :| 0 <= i < |occs| && occs[i].name == x && x !in occs[i].binders;
        if i < |init| {
          assert init[i] == occs[i];
        }
      }
    }
  }

  /** Only the set of names on the stack matters, not their order or count. */
  lemma {:induction false} FreeOfBoundSet(occs: seq<Occurrence>, s1: seq<Ident>, s2: seq<Ident>)
    requires Elements(s1) == Elements(s2)
    ensures FreeOf(occs, s1) == FreeOf(occs, s2)
    decreases |occs|
  {
    if occs != [] {
      FreeOfBoundSet(occs[..|occs| - 1], s1, s2);
      var x := occs[|occs| - 1].name;
      assert x in s1 <==> x in Elements(s1);
      assert x in s2 <==> x in Elements(s2);
    }
  }

  // ---------------------------------------------------------------------
  // The analysis reports exactly the free occurrences
  // ---------------------------------------------------------------------

  lemma {:induction false} RequiredIsFreeOccurrences<M, D, C, G, E>(e: Expr<M, D, C, G, E>, stack: seq<Ident>)
    ensures Required(e, stack) == FreeOf(Occurrences(e), stack)
    decreases e, 1
  {
    match e
    case Error =>
    case Literal(_) =>
    case Local(local) =>
      assert [Occurrence(local, {})][..0] == [];
    case Global(_) =>
    case Intrinsic(_, args) =>
      AllRequiredAreFreeOccurrences(args, stack);
    case Match(_, _, _) =>
      MatchRequiredIsFreeOccurrences(e, stack);
    case Func(param, body) =>
      BoundRequiredIsFreeOccurrences(param, body, stack);
    case Apply(_, _) =>
      ApplyRequiredIsFreeOccurrences(e, stack);
    case Tuple(fields) =>
      AllRequiredAreFreeOccurrences(fields, stack);
    case Record(entries) =>
      EntriesRequiredAreFreeOccurrences(entries, stack);
    case List(_, _) =>
      ListRequiredIsFreeOccurrences(e, stack);
    case Access(record, _) =>
      RequiredIsFreeOccurrences(record, stack);
    case Cons(_, _, inner) =>
      RequiredIsFreeOccurrences(inner, stack);
    case ClassAccess(_, _, _) =>
    case Update(_, _) =>
      UpdateRequiredIsFreeOccurrences(e, stack);
    case Basin(_, inner) =>
      RequiredIsFreeOccurrences(inner, stack);
    case Suspend(_, inner) =>
      RequiredIsFreeOccurrences(inner, stack);
    case Handle(_, _, _, _) =>
      HandleRequiredIsFreeOccurrences(e, stack);
  }


  /** The case of a match: the predicate, then every arm. */
  lemma {:induction false} MatchRequiredIsFreeOccurrences<M, D, C, G, E>(e: Expr<M, D, C, G, E>, stack: seq<Ident>)
    requires e.Match?
    ensures Required(e, stack) == FreeOf(Occurrences(e), stack)
    decreases e, 0
  {
    var Match(hidden, pred, arms) := e;
    RequiredIsFreeOccurrences(pred, stack);
    ArmsRequiredAreFreeOccurrences(arms, stack);
    FreeOfAppend(Occurrences(pred), OccurrencesOfArms(arms), stack);
    assert Occurrences(e) == Occurrences(pred) + OccurrencesOfArms(arms);
  }

  /** The case of an application: the function, then the argument. */
  lemma {:induction false} ApplyRequiredIsFreeOccurrences<M, D, C, G, E>(e: Expr<M, D, C, G, E>, stack: seq<Ident>)
    requires e.Apply?
    ensures Required(e, stack) == FreeOf(Occurrences(e), stack)
    decreases e, 0
  {
    var Apply(f, arg) := e;
    RequiredIsFreeOccurrences(f, stack);
    RequiredIsFreeOccurrences(arg, stack);
    FreeOfAppend(Occurrences(f), Occurrences(arg), stack);
    assert Occurrences(e) == Occurrences(f) + Occurrences(arg);
  }

  /** The case of a list: the items, then the tails. */
  lemma {:induction false} ListRequiredIsFreeOccurrences<M, D, C, G, E>(e: Expr<M, D, C, G, E>, stack: seq<Ident>)
    requires e.List?
    ensures Required(e, stack) == FreeOf(Occurrences(e), stack)
    decreases e, 0
  {
    var List(items, tails) := e;
    AllRequiredAreFreeOccurrences(items, stack);
    AllRequiredAreFreeOccurrences(tails, stack);
    FreeOfAppend(OccurrencesOfAll(items), OccurrencesOfAll(tails), stack);
    assert Occurrences(e) == OccurrencesOfAll(items) + OccurrencesOfAll(tails);
  }

  /** The case of a record update: the record, then the updates. */
  lemma {:induction false} UpdateRequiredIsFreeOccurrences<M, D, C, G, E>(e: Expr<M, D, C, G, E>, stack: seq<Ident>)
    requires e.Update?
    ensures Required(e, stack) == FreeOf(Occurrences(e), stack)
    decreases e, 0
  {
    var Update(record, updates) := e;
    RequiredIsFreeOccurrences(record, stack);
    EntriesRequiredAreFreeOccurrences(updates, stack);
    FreeOfAppend(Occurrences(record), OccurrencesOfEntries(updates), stack);
    assert Occurrences(e) == Occurrences(record) + OccurrencesOfEntries(updates);
  }

  /** The case of a handler: the handled expression, then `recv` under `send`. */
  lemma {:induction false} HandleRequiredIsFreeOccurrences<M, D, C, G, E>(e: Expr<M, D, C, G, E>, stack: seq<Ident>)
    requires e.Handle?
    ensures Required(e, stack) == FreeOf(Occurrences(e), stack)
    decreases e, 0
  {
    var Handle(expr, eff, send, recv) := e;
    var handled, received := Occurrences(expr), Under({send}, Occurrences(recv));
    assert Occurrences(e) == handled + received;
    assert Required(e, stack) == Required(expr, stack) + Required(recv, stack + [send]);
    RequiredIsFreeOccurrences(expr, stack);
    BoundRequiredIsFreeOccurrences(send, recv, stack);
    FreeOfAppend(handled, received, stack);
  }

  /** A body under one binder: a function's parameter or a handler's `send`. */
  lemma {:induction false} BoundRequiredIsFreeOccurrences<M, D, C, G, E>(x: Ident, body: Expr<M, D, C, G, E>, stack: seq<Ident>)
    ensures Required(body, stack + [x]) == FreeOf(Under({x}, Occurrences(body)), stack)
    decreases body, 2
  {
    RequiredIsFreeOccurrences(body, stack + [x]);
    FreeOfUnder(Occurrences(body), stack, [x]);
    assert Elements([x]) == {x};
  }

  lemma {:induction false} AllRequiredAreFreeOccurrences<M, D, C, G, E>(es: seq<Expr<M, D, C, G, E>>, stack: seq<Ident>)
    ensures RequiredAll(es, stack) == FreeOf(OccurrencesOfAll(es), stack)
    decreases es, 0
  {
    if es != [] {
      var init := es[..|es| - 1];
      AllRequiredAreFreeOccurrences(init, stack);
      RequiredIsFreeOccurrences(es[|es| - 1], stack);
      FreeOfAppend(OccurrencesOfAll(init), Occurrences(es[|es| - 1]), stack);
    }
  }

  lemma {:induction false} EntriesRequiredAreFreeOccurrences<M, D, C, G, E>(entries: seq<(Ident, Expr<M, D, C, G, E>)>, stack: seq<Ident>)
    ensures RequiredEntries(entries, stack) == FreeOf(OccurrencesOfEntries(entries), stack)
    decreases entries, 0
  {
    if entries != [] {
      var init := entries[..|entries| - 1];
      EntriesRequiredAreFreeOccurrences(init, stack);
      EntryRequiredAreFreeOccurrences(entries[|entries| - 1], stack);
      FreeOfAppend(OccurrencesOfEntries(init), OccurrencesOfEntry(entries[|entries| - 1]), stack);
    }
  }

  lemma {:induction false} EntryRequiredAreFreeOccurrences<M, D, C, G, E>(entry: (Ident, Expr<M, D, C, G, E>), stack: seq<Ident>)
    ensures RequiredEntry(entry, stack) == FreeOf(OccurrencesOfEntry(entry), stack)
    decreases entry, 2
  {
    RequiredIsFreeOccurrences(entry.1, stack);
  }

  lemma {:induction false} ArmsRequiredAreFreeOccurrences<M, D, C, G, E>(arms: seq<(BindingNode<M, D>, Expr<M, D, C, G, E>)>, stack: seq<Ident>)
    ensures RequiredArms(arms, stack) == FreeOf(OccurrencesOfArms(arms), stack)
    decreases arms, 0
  {
    if arms != [] {
      var init := arms[..|arms| - 1];
      ArmsRequiredAreFreeOccurrences(init, stack);
      ArmRequiredAreFreeOccurrences(arms[|arms| - 1], stack);
      FreeOfAppend(OccurrencesOfArms(init), OccurrencesOfArm(arms[|arms| - 1]), stack);
    }
  }

  lemma {:induction false} ArmRequiredAreFreeOccurrences<M, D, C, G, E>(arm: (BindingNode<M, D>, Expr<M, D, C, G, E>), stack: seq<Ident>)
    ensures RequiredArm(arm, stack) == FreeOf(OccurrencesOfArm(arm), stack)
    decreases arm, 2
  {
    RequiredIsFreeOccurrences(arm.1, stack + Names(arm.0));
    FreeOfUnder(Occurrences(arm.1), stack, Names(arm.0));
  }

  // ---------------------------------------------------------------------
  // Consequences: what the result contains, and the scoping of binders
  // ---------------------------------------------------------------------

  /** A name is reported exactly when it is not on the stack and some
      reference to it lies outside every binder of that name. */
  lemma RequiredMembership<M, D, C, G, E>(e: Expr<M, D, C, G, E>, stack: seq<Ident>, x: Ident)
    ensures x in Required(e, stack) <==>
      x !in stack && exists o :: o in Occurrences(e) && o.name == x && x !in o.binders
  {
    RequiredIsFreeOccurrences(e, stack);
    InFreeOf(Occurrences(e), stack, x);
    var occs := Occurrences(e);
    if exists o :: o in occs && o.name == x && x !in o.binders {
      var o :| o in occs && o.name == x && x !in o.binders;
      var i :| 0 <= i < |occs| && occs[i] == o;
    }
  }

  /** The result depends on which names are on the stack, not on their order
      or repetitions. */
  lemma RequiredDependsOnlyOnBoundSet<M, D, C, G, E>(e: Expr<M, D, C, G, E>, s1: seq<Ident>, s2: seq<Ident>)
    requires Elements(s1) == Elements(s2)
    ensures Required(e, s1) == Required(e, s2)
  {
    RequiredIsFreeOccurrences(e, s1);
    RequiredIsFreeOccurrences(e, s2);
    FreeOfBoundSet(Occurrences(e), s1, s2);
  }

  /** Pushing names hides exactly those names and nothing else. */
  lemma RequiredUnderPush<M, D, C, G, E>(e: Expr<M, D, C, G, E>, stack: seq<Ident>, pushed: seq<Ident>, x: Ident)
    ensures x in Required(e, stack + pushed) <==> x !in pushed && x in Required(e, stack)
  {
    RequiredMembership(e, stack + pushed, x);
    RequiredMembership(e, stack, x);
  }

  /** A function parameter is bound in the body and nowhere else. */
  lemma FuncBindsParameter<M, D, C, G, E>(param: Ident, body: Expr<M, D, C, G, E>, stack: seq<Ident>, x: Ident)
    ensures param !in Required(Expr.Func(param, body), stack)
    ensures x != param ==> (x in Required(Expr.Func(param, body), stack) <==> x in Required(body, stack))
  {
    RequiredUnderPush(body, stack, [param], param);
    RequiredUnderPush(body, stack, [param], x);
  }

  /** A handler's continuation binder is bound in the handler body but not in
      the handled expression. */
  lemma HandleBindsSendInRecvOnly<M, D, C, G, E>(expr: Expr<M, D, C, G, E>, eff: E, send: Ident, recv: Expr<M, D, C, G, E>, stack: seq<Ident>, x: Ident)
    ensures x in Required(Expr.Handle(expr, eff, send, recv), stack) <==>
      x in Required(expr, stack) || (x != send && x in Required(recv, stack))
  {
    RequiredUnderPush(recv, stack, [send], x);
  }

  lemma {:induction false} InRequiredArms<M, D, C, G, E>(arms: seq<(BindingNode<M, D>, Expr<M, D, C, G, E>)>, stack: seq<Ident>, x: Ident)
    ensures x in RequiredArms(arms, stack) <==>
      exists i :: 0 <= i < |arms| && x in Required(arms[i].1, stack + Names(arms[i].0))
    decreases |arms|
  {
    if arms != [] {
      var init := arms[..|arms| - 1];
      InRequiredArms(init, stack, x);
      if exists i :: 0 <= i < |arms| && x in Required(arms[i].1, stack + Names(arms[i].0)) {
        var i :| 0 <= i < |arms| && x in Required(arms[i].1, stack + Names(arms[i].0));
        if i < |init| {
          assert init[i] == arms[i];
        }
      }
    }
  }

  /** A match arm's captured names are bound in that arm's body only: not in
      the scrutinee and not in the other arms. */
  lemma MatchArmsBindOwnNames<M, D, C, G, E>(hidden: bool, pred: Expr<M, D, C, G, E>, arms: seq<(BindingNode<M, D>, Expr<M, D, C, G, E>)>, stack: seq<Ident>, x: Ident)
    ensures x in Required(Expr.Match(hidden, pred, arms), stack) <==>
      x in Required(pred, stack) ||
      exists i :: 0 <= i < |arms| && x !in Names(arms[i].0) && x in Required(arms[i].1, stack)
  {
    InRequiredArms(arms, stack, x);
    forall i | 0 <= i < |arms|
      ensures x in Required(arms[i].1, stack + Names(arms[i].0)) <==>
        x !in Names(arms[i].0) && x in Required(arms[i].1, stack)
    {
      RequiredUnderPush(arms[i].1, stack, Names(arms[i].0), x);
    }
  }

  // ---------------------------------------------------------------------
  // The walk as the source performs it
  // ---------------------------------------------------------------------

  /** The visitor a match arm's binding is walked with: push each captured
      name on the stack. */
  function PushName<M>(stack: seq<Ident>, name: Ident, meta: M): seq<Ident>
  {
    stack + [name]
  }

  lemma {:induction false} FoldPushName<M>(stack: seq<Ident>, visits: seq<(Ident, M)>)
    ensures Fold(PushName, stack, visits) == stack + NamesOf(visits)
    decreases |visits|
  {
    if visits != [] {
      FoldPushName(stack + [visits[0].0], visits[1..]);
      assert [visits[0].0] + NamesOf(visits[1..]) == NamesOf(visits);
    }
  }

  /** `required_locals_inner`: the walk over one shared stack and one shared
      result, both passed in and handed back. The stack comes back exactly as
      it was given; the result gains `Required(e, stack)`. */
  method RequiredLocalsInner<M, D, C, G, E>(e: Expr<M, D, C, G, E>, stackIn: seq<Ident>, requiredIn: seq<Ident>)
    returns (stack: seq<Ident>, required: seq<Ident>)
    ensures stack == stackIn
    ensures required == requiredIn + Required(e, stackIn)
    decreases e, 1
  {
    stack, required := stackIn, requiredIn;
    match e {
      case Error =>
      case Literal(_) =>
      case Local(local) =>
        if local !in stack {
          required := required + [local];
        }
      case Global(_) =>
      case Intrinsic(_, args) =>
        stack, required := RequiredLocalsEach(args, stack, required);
      case Match(_, _, _) =>
        stack, required := RequiredLocalsMatch(e, stack, required);
      case Func(param, body) =>
        stack, required := RequiredLocalsFunc(param, body, stack, required);
      case Apply(_, _) =>
        stack, required := RequiredLocalsApply(e, stack, required);
      case Tuple(fields) =>
        stack, required := RequiredLocalsEach(fields, stack, required);
      case Record(entries) =>
        stack, required := RequiredLocalsEntries(entries, stack, required);
      case List(_, _) =>
        stack, required := RequiredLocalsList(e, stack, required);
      case Access(record, _) =>
        stack, required := RequiredLocalsInner(record, stack, required);
      case Cons(_, _, inner) =>
        stack, required := RequiredLocalsInner(inner, stack, required);
      case ClassAccess(_, _, _) =>
      case Update(_, _) =>
        stack, required := RequiredLocalsUpdate(e, stack, required);
      case Basin(_, inner) =>
        stack, required := RequiredLocalsInner(inner, stack, required);
      case Suspend(_, inner) =>
        stack, required := RequiredLocalsInner(inner, stack, required);
      case Handle(_, _, _, _) =>
        stack, required := RequiredLocalsHandle(e, stack, required);
    }
  }

  /** The `Match` arm of the walk: `pred`, then every arm with its captures pushed. */
  method RequiredLocalsMatch<M, D, C, G, E>(e: Expr<M, D, C, G, E>, stackIn: seq<Ident>, requiredIn: seq<Ident>)
    returns (stack: seq<Ident>, required: seq<Ident>)
    requires e.Match?
    ensures stack == stackIn
    ensures required == requiredIn + Required(e, stackIn)
    decreases e, 0
  {
    var Match(hidden, pred, arms) := e;
    stack, required := stackIn, requiredIn;
    stack, required := RequiredLocalsInner(pred, stack, required);
    stack, required := RequiredLocalsArms(arms, stack, required);
    AppendAssoc(requiredIn, Required(pred, stackIn), RequiredArms(arms, stackIn));
  }

  /** The `Apply` arm of the walk: the function, then the argument. */
  method RequiredLocalsApply<M, D, C, G, E>(e: Expr<M, D, C, G, E>, stackIn: seq<Ident>, requiredIn: seq<Ident>)
    returns (stack: seq<Ident>, required: seq<Ident>)
    requires e.Apply?
    ensures stack == stackIn
    ensures required == requiredIn + Required(e, stackIn)
    decreases e, 0
  {
    var Apply(f, arg) := e;
    stack, required := stackIn, requiredIn;
    stack, required := RequiredLocalsInner(f, stack, required);
    stack, required := RequiredLocalsInner(arg, stack, required);
    AppendAssoc(requiredIn, Required(f, stackIn), Required(arg, stackIn));
  }

  /** The `List` arm of the walk: the items, then the tails. */
  method RequiredLocalsList<M, D, C, G, E>(e: Expr<M, D, C, G, E>, stackIn: seq<Ident>, requiredIn: seq<Ident>)
    returns (stack: seq<Ident>, required: seq<Ident>)
    requires e.List?
    ensures stack == stackIn
    ensures required == requiredIn + Required(e, stackIn)
    decreases e, 0
  {
    var List(items, tails) := e;
    stack, required := stackIn, requiredIn;
    stack, required := RequiredLocalsEach(items, stack, required);
    stack, required := RequiredLocalsEach(tails, stack, required);
    AppendAssoc(requiredIn, RequiredAll(items, stackIn), RequiredAll(tails, stackIn));
  }

  /** The `Update` arm of the walk: the record, then the new field values. */
  method RequiredLocalsUpdate<M, D, C, G, E>(e: Expr<M, D, C, G, E>, stackIn: seq<Ident>, requiredIn: seq<Ident>)
    returns (stack: seq<Ident>, required: seq<Ident>)
    requires e.Update?
    ensures stack == stackIn
    ensures required == requiredIn + Required(e, stackIn)
    decreases e, 0
  {
    var Update(record, updates) := e;
    stack, required := stackIn, requiredIn;
    stack, required := RequiredLocalsInner(record, stack, required);
    stack, required := RequiredLocalsEntries(updates, stack, required);
    AppendAssoc(requiredIn, Required(record, stackIn), RequiredEntries(updates, stackIn));
  }

  /** The `Handle` arm of the walk: the handled expression, then `recv` with `send` pushed. */
  method RequiredLocalsHandle<M, D, C, G, E>(e: Expr<M, D, C, G, E>, stackIn: seq<Ident>, requiredIn: seq<Ident>)
    returns (stack: seq<Ident>, required: seq<Ident>)
    requires e.Handle?
    ensures stack == stackIn
    ensures required == requiredIn + Required(e, stackIn)
    decreases e, 0
  {
    var Handle(expr, eff, send, recv) := e;
    stack, required := stackIn, requiredIn;
    stack, required := RequiredLocalsInner(expr, stack, required);
    stack, required := RequiredLocalsFunc(send, recv, stack, required);
    AppendAssoc(requiredIn, Required(expr, stackIn), Required(recv, stackIn + [send]));
  }

  lemma AppendAssoc(a: seq<Ident>, b: seq<Ident>, c: seq<Ident>)
    ensures a + b + c == a + (b + c)
  {
  }

  /** A body under one binder: push the bound name, walk the body, pop. The
      function case and a handler's `recv` are walked this way. */
  method RequiredLocalsFunc<M, D, C, G, E>(param: Ident, body: Expr<M, D, C, G, E>, stackIn: seq<Ident>, requiredIn: seq<Ident>)
    returns (stack: seq<Ident>, required: seq<Ident>)
    ensures stack == stackIn
    ensures required == requiredIn + Required(body, stackIn + [param])
    decreases body, 2
  {
    stack := stackIn + [param];
    stack, required := RequiredLocalsInner(body, stack, requiredIn);
    stack := stack[..|stack| - 1];
  }

  /** The arms of a match, in order (`for (arm, body) in arms`). */
  method RequiredLocalsArms<M, D, C, G, E>(arms: seq<(BindingNode<M, D>, Expr<M, D, C, G, E>)>, stackIn: seq<Ident>, requiredIn: seq<Ident>)
    returns (stack: seq<Ident>, required: seq<Ident>)
    ensures stack == stackIn
    ensures required == requiredIn + RequiredArms(arms, stackIn)
    decreases arms, 0
  {
    stack, required := stackIn, requiredIn;
    var k := 0;
    while k < |arms|
      invariant 0 <= k <= |arms|
      invariant stack == stackIn
      invariant required == requiredIn + RequiredArms(arms[..k], stackIn)
    {
      assert arms[..k + 1][..k] == arms[..k];
      stack, required := RequiredLocalsArm(arms[k], stack, required);
      k := k + 1;
    }
    assert arms[..|arms|] == arms;
  }

  /** One match arm: push the arm's captures, walk the body, truncate the
      stack back to its length before the arm. */
  method RequiredLocalsArm<M, D, C, G, E>(arm: (BindingNode<M, D>, Expr<M, D, C, G, E>), stackIn: seq<Ident>, requiredIn: seq<Ident>)
    returns (stack: seq<Ident>, required: seq<Ident>)
    ensures stack == stackIn
    ensures required == requiredIn + RequiredArm(arm, stackIn)
    decreases arm, 2
  {
    var oldStack := |stackIn|;
    stack := VisitBindings(arm.0, PushName, stackIn);
    FoldPushName(stackIn, Bindings(arm.0));
    stack, required := RequiredLocalsInner(arm.1, stack, requiredIn);
    stack := stack[..oldStack];
  }

  /** Walks sub-expressions in order (`iter().for_each`). */
  method RequiredLocalsEach<M, D, C, G, E>(es: seq<Expr<M, D, C, G, E>>, stackIn: seq<Ident>, requiredIn: seq<Ident>)
    returns (stack: seq<Ident>, required: seq<Ident>)
    ensures stack == stackIn
    ensures required == requiredIn + RequiredAll(es, stackIn)
    decreases es, 0
  {
    stack, required := stackIn, requiredIn;
    var i := 0;
    while i < |es|
      invariant 0 <= i <= |es|
      invariant stack == stackIn
      invariant required == requiredIn + RequiredAll(es[..i], stackIn)
    {
      assert es[..i + 1][..i] == es[..i];
      stack, required := RequiredLocalsInner(es[i], stack, required);
      i := i + 1;
    }
    assert es[..|es|] == es;
  }

  /** Walks the values of named entries in order, ignoring the names. */
  method RequiredLocalsEntries<M, D, C, G, E>(entries: seq<(Ident, Expr<M, D, C, G, E>)>, stackIn: seq<Ident>, requiredIn: seq<Ident>)
    returns (stack: seq<Ident>, required: seq<Ident>)
    ensures stack == stackIn
    ensures required == requiredIn + RequiredEntries(entries, stackIn)
    decreases entries, 0
  {
    stack, required := stackIn, requiredIn;
    var i := 0;
    while i < |entries|
      invariant 0 <= i <= |entries|
      invariant stack == stackIn
      invariant required == requiredIn + RequiredEntries(entries[..i], stackIn)
    {
      assert entries[..i + 1][..i] == entries[..i];
      stack, required := RequiredLocalsEntry(entries[i], stack, required);
      i := i + 1;
    }
    assert entries[..|entries|] == entries;
  }

  method RequiredLocalsEntry<M, D, C, G, E>(entry: (Ident, Expr<M, D, C, G, E>), stackIn: seq<Ident>, requiredIn: seq<Ident>)
    returns (stack: seq<Ident>, required: seq<Ident>)
    ensures stack == stackIn
    ensures required == requiredIn + RequiredEntry(entry, stackIn)
    decreases entry, 2
  {
    stack, required := RequiredLocalsInner(entry.1, stackIn, requiredIn);
  }

  /** `required_locals`: the free locals of `e`, given the names the caller
      already has. They are the free occurrences of `e`, in order, with
      repetitions. */
  method RequiredLocals<M, D, C, G, E>(e: Expr<M, D, C, G, E>, alreadyHas: seq<Ident>) returns (required: seq<Ident>)
    ensures required == Required(e, alreadyHas)
    ensures required == FreeOf(Occurrences(e), alreadyHas)
  {
    var stack;
    stack, required := RequiredLocalsInner(e, alreadyHas, []);
    RequiredIsFreeOccurrences(e, alreadyHas);
  }

  /** `Apply(Local x, Local x)` reports `x` twice: no deduplication, the
      function before the argument. */
  method ApplySameLocalTwice<M, D, C, G, E>() returns (required: seq<Ident>)
    ensures required == ["x", "x"]
  {
    required := RequiredLocals(Expr<M, D, C, G, E>.Apply(Local("x"), Local("x")), []);
  }

  /** `|z| x y z` needs `x` and `y`, in the order they are met, and not `z`. */
  method FuncExcludesItsParameter<M, D, C, G, E>() returns (required: seq<Ident>)
    ensures required == ["x", "y"]
  {
    var inner := Expr<M, D, C, G, E>.Apply(Local("x"), Local("y"));
    var body := Expr<M, D, C, G, E>.Apply(inner, Local("z"));
    var stack: seq<Ident> := ["z"];
    assert [] + ["z"] == stack;
    assert Required(Expr<M, D, C, G, E>.Local("z"), stack) == [] by { assert stack[0] == "z"; }
    assert Required(inner, stack) == ["x", "y"] by { assert "x" != "z" && "y" != "z"; }
    assert Required(body, stack) == ["x", "y"];
    required := RequiredLocals(Expr.Func("z", body), []);
  }
}
