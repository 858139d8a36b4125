/** The registry of top-level data types and type aliases (`Datas`).

    A declaration is handled in two steps so that declarations may refer to
    each other in any order: `DeclareData`/`DeclareAlias` claim the name in
    the one namespace shared by data types and aliases, issue the next id and
    reserve an empty slot; `DefineData`/`DefineAlias` later fill the slot.
    Defining a data type also enters its constructors into the one global
    constructor namespace. The registry also records which data type is the
    `go` lang item. */
module Data {
  import opened Wrappers
  import opened Syntax

  type TyId = nat
  type GenScopeId = nat

  datatype DataId = DataId(index: nat)
  datatype AliasId = AliasId(index: nat)

  /** A constructor of a data type: its name, where the name is written, and
      its payload type. */
  datatype Constructor = Constructor(name: Ident, span: Span, ty: TyId)

  datatype Data = Data(name: Ident, nameSpan: Span, attr: seq<Attr>, genScope: GenScopeId, cons: seq<Constructor>)

  datatype Alias = Alias(name: Ident, attr: seq<Attr>, genScope: GenScopeId, ty: TyId)

  datatype Lang = Lang(go: Option<DataId>)

  /** The conditions the registry reports. Each duplicate carries the span of
      the original declaration and then the span of the rejected one. */
  datatype Error =
    | DuplicateTypeName(name: Ident, original: Span, duplicate: Span)
    | DuplicateConsName(name: Ident, original: Span, duplicate: Span)
    | MissingLangItem(item: string)

  /** An entry of the shared type-name table: `Ok` for a data type, `Err`
      for an alias. */
  datatype NameEntry = NameEntry(span: Span, id: Result<DataId, AliasId>, genScope: GenScopeId)

  datatype ConsEntry = ConsEntry(span: Span, data: DataId)

  /** A reserved slot: the declaration's span and, once defined, its body. */
  datatype Slot<T> = Slot(span: Span, body: Option<T>)

  // ---------------------------------------------------------------------
  // Lang items
  // ---------------------------------------------------------------------

  /** The position of the first attribute named `lang`, if there is one. */
  function FindLang(attrs: seq<Attr>): (r: Option<nat>)
    ensures r.Some? ==> r.value < |attrs| && attrs[r.value].name == "lang"
    ensures r.Some? ==> forall j :: 0 <= j < r.value ==> attrs[j].name != "lang"
    ensures r.None? ==> forall j :: 0 <= j < |attrs| ==> attrs[j].name != "lang"
  {
    if attrs == [] then None
    else if attrs[0].name == "lang" then Some(0)
    else
      match FindLang(attrs[1..])
      case Some(i) => Some(i + 1)
      case None => None
  }

  /** Whether a declaration with these attributes is the `go` lang item: its
      first `lang` attribute has an argument list that names `go`. */
  function MarksGo(attrs: seq<Attr>): bool
  {
    match FindLang(attrs)
    case Some(i) => attrs[i].args.Some? && "go" in attrs[i].args.value
    case None => false
  }

  /** Only the first `lang` attribute is consulted: a later `lang(go)` after
      an argument-less `lang` does not count. */
  lemma OnlyFirstLangAttributeCounts()
    ensures !MarksGo([Attr("lang", None), Attr("lang", Some(["go"]))])
    ensures MarksGo([Attr("inline", None), Attr("lang", Some(["io", "go"]))])
  {
    assert "inline" != "lang";
    assert "io" != "go";
  }

  /** The `go` lang item that a sequence of data declarations determines: the
      latest one whose attributes mark it. */
  function LastGo(declared: seq<seq<Attr>>): (r: Option<DataId>)
    ensures r.Some? <==> exists i :: 0 <= i < |declared| && MarksGo(declared[i])
    ensures r.Some? ==> r.value.index < |declared| && MarksGo(declared[r.value.index])
    ensures r.Some? ==> forall j :: r.value.index < j < |declared| ==> !MarksGo(declared[j])
  {
    if declared == [] then None
    else if MarksGo(declared[|declared| - 1]) then Some(DataId(|declared| - 1))
    else
      var r := LastGo(declared[..|declared| - 1]);
      assert forall i :: 0 <= i < |declared| - 1 ==> declared[..|declared| - 1][i] == declared[i];
      r
  }

  /** One more declaration: it becomes the `go` lang item when marked, and
      otherwise the item stays as it was. */
  lemma LastGoAppend(declared: seq<seq<Attr>>, attrs: seq<Attr>)
    ensures LastGo(declared + [attrs]) == if MarksGo(attrs) then Some(DataId(|declared|)) else LastGo(declared)
  {
    assert (declared + [attrs])[..|declared|] == declared;
  }

  // ---------------------------------------------------------------------
  // Registering constructors
  // ---------------------------------------------------------------------

  datatype Registration = Registration(lut: map<Ident, ConsEntry>, errors: seq<Error>)

  /** The names of a sequence of constructors. */
  function ConsNames(cons: seq<Constructor>): set<Ident>
  {
    set j | 0 <= j < |cons| :: cons[j].name
  }

  /** The constructor table and the reported conditions after entering `cons`
      one after the other: a name already in the table keeps its entry and is
      reported; a new name is entered for `id`. */
  function RegisterCons(lut: map<Ident, ConsEntry>, cons: seq<Constructor>, id: DataId): Registration
  {
    if cons == [] then Registration(lut, [])
    else RegisterNext(RegisterCons(lut, cons[..|cons| - 1], id), cons[|cons| - 1], id)
  }

  /** Entering one more constructor. */
  function RegisterNext(prev: Registration, c: Constructor, id: DataId): Registration
  {
    if c.name in prev.lut then
      Registration(prev.lut, prev.errors + [DuplicateConsName(c.name, prev.lut[c.name].span, c.span)])
    else
      Registration(prev.lut[c.name := ConsEntry(c.span, id)], prev.errors)
  }

  /** Registering a prefix one constructor longer. */
  lemma RegisterStep(lut: map<Ident, ConsEntry>, cons: seq<Constructor>, i: nat, id: DataId)
    requires i < |cons|
    ensures RegisterCons(lut, cons[..i + 1], id) == RegisterNext(RegisterCons(lut, cons[..i], id), cons[i], id)
  {
    assert cons[..i + 1][..i] == cons[..i];
  }

  /** Registering a single constructor. */
  lemma RegisterOne(lut: map<Ident, ConsEntry>, c: Constructor, id: DataId)
    ensures RegisterCons(lut, [c], id) ==
      if c.name in lut then Registration(lut, [DuplicateConsName(c.name, lut[c.name].span, c.span)])
      else Registration(lut[c.name := ConsEntry(c.span, id)], [])
  {
    assert [c][..0] == [];
  }

  /** Earlier entries are never overwritten (the first registration wins),
      and the table ends up holding exactly the old names and the
      constructor names. */
  lemma {:induction false} RegisterConsKeeps(lut: map<Ident, ConsEntry>, cons: seq<Constructor>, id: DataId)
    ensures RegisterCons(lut, cons, id).lut.Keys == lut.Keys + ConsNames(cons)
    ensures forall k :: k in lut ==> RegisterCons(lut, cons, id).lut[k] == lut[k]
    decreases |cons|
  {
    if cons != [] {
      var init := cons[..|cons| - 1];
      RegisterConsKeeps(lut, init, id);
      assert ConsNames(cons) == ConsNames(init) + {cons[|cons| - 1].name} by {
        assert forall j :: 0 <= j < |init| ==> init[j] == cons[j];
      }
    }
  }

  /** Constructor `i` collides when its name is already registered, by
      another data type or by an earlier constructor of the same body. */
  predicate Collides(lut: map<Ident, ConsEntry>, cons: seq<Constructor>, i: nat)
    requires i < |cons|
  {
    cons[i].name in lut || exists j :: 0 <= j < i && cons[j].name == cons[i].name
  }

  /** The last constructor collides exactly when its name is already in the
      table built from the ones before it. */
  lemma LastCollides(lut: map<Ident, ConsEntry>, cons: seq<Constructor>, id: DataId)
    requires cons != []
    ensures Collides(lut, cons, |cons| - 1) <==> cons[|cons| - 1].name in RegisterCons(lut, cons[..|cons| - 1], id).lut
  {
    RegisterConsKeeps(lut, cons[..|cons| - 1], id);
    assert forall j :: 0 <= j < |cons| - 1 ==> cons[..|cons| - 1][j] == cons[j];
  }

  /** Whether an earlier constructor collides does not depend on later ones. */
  lemma CollidesInPrefix(lut: map<Ident, ConsEntry>, cons: seq<Constructor>, n: nat, i: nat)
    requires i < n <= |cons|
    ensures Collides(lut, cons[..n], i) <==> Collides(lut, cons, i)
  {
    assert forall j :: 0 <= j < n ==> cons[..n][j] == cons[j];
  }

  lemma PrefixCollisionsAgree(lut: map<Ident, ConsEntry>, cons: seq<Constructor>, n: nat)
    requires n <= |cons|
    ensures forall i :: 0 <= i < n ==> (Collides(lut, cons[..n], i) <==> Collides(lut, cons, i))
  {
    forall i | 0 <= i < n
      ensures Collides(lut, cons[..n], i) <==> Collides(lut, cons, i)
    {
      CollidesInPrefix(lut, cons, n, i);
    }
  }

  /** Each constructor that does not collide is entered for `id` with its own
      span. */
  lemma RegisterConsEntersNewNames(lut: map<Ident, ConsEntry>, cons: seq<Constructor>, id: DataId)
    ensures forall i :: 0 <= i < |cons| && !Collides(lut, cons, i) ==>
      cons[i].name in RegisterCons(lut, cons, id).lut &&
      RegisterCons(lut, cons, id).lut[cons[i].name] == ConsEntry(cons[i].span, id)
  {
    forall i | 0 <= i < |cons| && !Collides(lut, cons, i)
      ensures cons[i].name in RegisterCons(lut, cons, id).lut
      ensures RegisterCons(lut, cons, id).lut[cons[i].name] == ConsEntry(cons[i].span, id)
    {
      RegisterConsEntersNewName(lut, cons, id, i);
    }
  }

  /** The same, for one constructor. */
  lemma {:induction false} RegisterConsEntersNewName(lut: map<Ident, ConsEntry>, cons: seq<Constructor>, id: DataId, i: nat)
    requires i < |cons| && !Collides(lut, cons, i)
    ensures cons[i].name in RegisterCons(lut, cons, id).lut
    ensures RegisterCons(lut, cons, id).lut[cons[i].name] == ConsEntry(cons[i].span, id)
    decreases |cons|
  {
    var n := |cons| - 1;
    var init := cons[..n];
    var prev := RegisterCons(lut, init, id);
    if i == n {
      LastCollides(lut, cons, id);
    } else {
      CollidesInPrefix(lut, cons, n, i);
      assert init[i] == cons[i];
      RegisterConsEntersNewName(lut, init, id, i);
    }
  }

  /** Every constructor in the table belongs to a declared data type, if it
      did before and `id` is declared. */
  lemma {:induction false} RegisterConsOwners(lut: map<Ident, ConsEntry>, cons: seq<Constructor>, id: DataId, declared: nat)
    requires forall k :: k in lut ==> lut[k].data.index < declared
    requires id.index < declared
    ensures forall k :: k in RegisterCons(lut, cons, id).lut ==> RegisterCons(lut, cons, id).lut[k].data.index < declared
    decreases |cons|
  {
    if cons != [] {
      RegisterConsOwners(lut, cons[..|cons| - 1], id, declared);
    }
  }

  /** One condition is reported per colliding constructor, so their number
      is the number of constructors that entered no new name. */
  lemma {:induction false} RegisterConsErrorCount(lut: map<Ident, ConsEntry>, cons: seq<Constructor>, id: DataId)
    ensures |RegisterCons(lut, cons, id).errors| + |RegisterCons(lut, cons, id).lut.Keys| == |lut.Keys| + |cons|
    decreases |cons|
  {
    if cons != [] {
      var init := cons[..|cons| - 1];
      var c := cons[|cons| - 1];
      RegisterConsErrorCount(lut, init, id);
      var prev := RegisterCons(lut, init, id);
      if c.name !in prev.lut {
        assert RegisterCons(lut, cons, id).lut.Keys == prev.lut.Keys + {c.name};
      }
    }
  }

  /** Each reported condition names a colliding constructor, with the span
      of the registration that won and the constructor's own span. */
  lemma {:induction false} RegisterConsErrorsAreCollisions(lut: map<Ident, ConsEntry>, cons: seq<Constructor>, id: DataId)
    ensures forall e :: e in RegisterCons(lut, cons, id).errors ==>
      exists i :: 0 <= i < |cons| && Collides(lut, cons, i) && cons[i].name in RegisterCons(lut, cons, id).lut &&
        e == DuplicateConsName(cons[i].name, RegisterCons(lut, cons, id).lut[cons[i].name].span, cons[i].span)
    decreases |cons|
  {
    if cons != [] {
      var n := |cons| - 1;
      var init := cons[..n];
      var c := cons[n];
      RegisterConsErrorsAreCollisions(lut, init, id);
      LastCollides(lut, cons, id);
      var prev := RegisterCons(lut, init, id);
      var r := RegisterCons(lut, cons, id);
      forall e | e in r.errors
        ensures exists i :: (0 <= i < |cons| && Collides(lut, cons, i) && cons[i].name in r.lut &&
          e == DuplicateConsName(cons[i].name, r.lut[cons[i].name].span, cons[i].span))
      {
        if e in prev.errors {
          var i :| 0 <= i < |init| && Collides(lut, init, i) && init[i].name in prev.lut &&
            e == DuplicateConsName(init[i].name, prev.lut[init[i].name].span, init[i].span);
          CollidesInPrefix(lut, cons, n, i);
          assert init[i] == cons[i];
        } else {
          assert e == DuplicateConsName(c.name, prev.lut[c.name].span, c.span);
          assert Collides(lut, cons, n);
        }
      }
    }
  }

  /** Nothing is reported exactly when no constructor collides. */
  lemma {:induction false} RegisterConsSucceeds(lut: map<Ident, ConsEntry>, cons: seq<Constructor>, id: DataId)
    ensures RegisterCons(lut, cons, id).errors == [] <==> forall i :: 0 <= i < |cons| ==> !Collides(lut, cons, i)
    decreases |cons|
  {
    if cons != [] {
      var n := |cons| - 1;
      var init := cons[..n];
      RegisterConsSucceeds(lut, init, id);
      LastCollides(lut, cons, id);
      PrefixCollisionsAgree(lut, cons, n);
      assert RegisterCons(lut, cons, id).errors == [] <==>
        RegisterCons(lut, init, id).errors == [] && !Collides(lut, cons, n);
    }
  }

  /** The first constructor in `cons[k..i]` named `name`. */
  function FirstNamed(cons: seq<Constructor>, name: Ident, k: nat, i: nat): (j: nat)
    requires k <= i <= |cons|
    requires exists j :: k <= j < i && cons[j].name == name
    ensures k <= j < i && cons[j].name == name
    ensures forall m :: k <= m < j ==> cons[m].name != name
    decreases i - k
  {
    if cons[k].name == name then k else FirstNamed(cons, name, k + 1, i)
  }

  /** The span of the registration that constructor `i` loses to: the entry
      already in the table, or else the first earlier constructor of the same
      body with that name. */
  function WinningSpan(lut: map<Ident, ConsEntry>, cons: seq<Constructor>, i: nat): Span
    requires i < |cons| && Collides(lut, cons, i)
  {
    if cons[i].name in lut then lut[cons[i].name].span
    else cons[FirstNamed(cons, cons[i].name, 0, i)].span
  }

  /** The conditions `define_data` should report for the first `n`
      constructors, stated without the table: one per colliding constructor,
      in constructor order, each with the winning span and its own span. */
  function CollisionReports(lut: map<Ident, ConsEntry>, cons: seq<Constructor>, n: nat): seq<Error>
    requires n <= |cons|
  {
    if n == 0 then []
    else
      CollisionReports(lut, cons, n - 1) +
      (if Collides(lut, cons, n - 1)
       then [DuplicateConsName(cons[n - 1].name, WinningSpan(lut, cons, n - 1), cons[n - 1].span)]
       else [])
  }

  /** The table built from a prefix holds a colliding constructor's name
      under the winning registration's span. */
  lemma WinnerInPrefix(lut: map<Ident, ConsEntry>, cons: seq<Constructor>, n: nat, id: DataId)
    requires n < |cons| && Collides(lut, cons, n)
    ensures cons[n].name in RegisterCons(lut, cons[..n], id).lut
    ensures RegisterCons(lut, cons[..n], id).lut[cons[n].name].span == WinningSpan(lut, cons, n)
  {
    var name := cons[n].name;
    RegisterConsKeeps(lut, cons[..n], id);
    if name !in lut {
      var j := FirstNamed(cons, name, 0, n);
      assert cons[..n][j] == cons[j];
      assert !Collides(lut, cons[..n], j) by {
        forall m | 0 <= m < j
          ensures cons[..n][m].name != name
        {
          assert cons[..n][m] == cons[m];
        }
      }
      RegisterConsEntersNewName(lut, cons[..n], id, j);
    }
  }

  /** Registering a prefix reports exactly the independent list of
      conditions for it. */
  lemma {:induction false} RegisterPrefixReports(lut: map<Ident, ConsEntry>, cons: seq<Constructor>, n: nat, id: DataId)
    requires n <= |cons|
    ensures RegisterCons(lut, cons[..n], id).errors == CollisionReports(lut, cons, n)
  {
    if n == 0 {
      assert cons[..0] == [];
    } else {
      var i := n - 1;
      RegisterPrefixReports(lut, cons, i, id);
      RegisterStep(lut, cons, i, id);
      var prev := RegisterCons(lut, cons[..i], id);
      LastCollides(lut, cons[..n], id);
      assert cons[..n][..i] == cons[..i] && cons[..n][i] == cons[i];
      CollidesInPrefix(lut, cons, n, i);
      if Collides(lut, cons, i) {
        WinnerInPrefix(lut, cons, i, id);
      }
    }
  }

  /** `define_data` reports one condition per colliding constructor, in
      constructor order, and nothing else. */
  lemma RegisterConsReportsEveryCollision(lut: map<Ident, ConsEntry>, cons: seq<Constructor>, id: DataId)
    ensures RegisterCons(lut, cons, id).errors == CollisionReports(lut, cons, |cons|)
  {
    RegisterPrefixReports(lut, cons, |cons|, id);
    assert cons[..|cons|] == cons;
  }

  /** Each colliding constructor has its condition among the reported ones. */
  lemma {:induction false} CollisionIsReported(lut: map<Ident, ConsEntry>, cons: seq<Constructor>, n: nat, i: nat)
    requires i < n <= |cons| && Collides(lut, cons, i)
    ensures DuplicateConsName(cons[i].name, WinningSpan(lut, cons, i), cons[i].span) in CollisionReports(lut, cons, n)
    decreases n
  {
    if i < n - 1 {
      CollisionIsReported(lut, cons, n - 1, i);
    }
  }

  /** The shared name table agrees with the names issued so far: slot `i` of
      each kind belongs to the name recorded for it, which the table maps back
      to that slot with the slot's span, and every entry of the table was
      issued that way. */
  ghost predicate NamesAgree(nameLut: map<Ident, NameEntry>, dataNames: seq<Ident>, datas: seq<Slot<Data>>,
                             aliasNames: seq<Ident>, aliases: seq<Slot<Alias>>)
  {
    && |dataNames| == |datas| && |aliasNames| == |aliases|
    && (forall i :: 0 <= i < |datas| ==>
          dataNames[i] in nameLut && nameLut[dataNames[i]].id == Ok(DataId(i))
          && nameLut[dataNames[i]].span == datas[i].span)
    && (forall i :: 0 <= i < |aliases| ==>
          aliasNames[i] in nameLut && nameLut[aliasNames[i]].id == Err(AliasId(i))
          && nameLut[aliasNames[i]].span == aliases[i].span)
    && (forall n :: n in nameLut ==> Issued(dataNames, aliasNames, n, nameLut[n].id))
  }

  /** `id` was issued to `name` by a declaration. */
  ghost predicate Issued(dataNames: seq<Ident>, aliasNames: seq<Ident>, name: Ident, id: Result<DataId, AliasId>)
  {
    match id
    case Ok(d) => d.index < |dataNames| && dataNames[d.index] == name
    case Err(a) => a.index < |aliasNames| && aliasNames[a.index] == name
  }

  /** Declaring a fresh data type name keeps the table in agreement. */
  lemma DeclaringDataKeepsAgreement(nameLut: map<Ident, NameEntry>, dataNames: seq<Ident>, datas: seq<Slot<Data>>,
                                    aliasNames: seq<Ident>, aliases: seq<Slot<Alias>>,
                                    name: Ident, span: Span, genScope: GenScopeId)
    requires NamesAgree(nameLut, dataNames, datas, aliasNames, aliases)
    requires name !in nameLut
    ensures NamesAgree(nameLut[name := NameEntry(span, Ok(DataId(|datas|)), genScope)],
                       dataNames + [name], datas + [Slot(span, None)], aliasNames, aliases)
  {
    var lut := nameLut[name := NameEntry(span, Ok(DataId(|datas|)), genScope)];
    forall n | n in lut
      ensures Issued(dataNames + [name], aliasNames, n, lut[n].id)
    {
      if n != name {
        assert Issued(dataNames, aliasNames, n, nameLut[n].id);
      }
    }
  }

  /** Declaring a fresh alias name keeps the table in agreement. */
  lemma DeclaringAliasKeepsAgreement(nameLut: map<Ident, NameEntry>, dataNames: seq<Ident>, datas: seq<Slot<Data>>,
                                     aliasNames: seq<Ident>, aliases: seq<Slot<Alias>>,
                                     name: Ident, span: Span, genScope: GenScopeId)
    requires NamesAgree(nameLut, dataNames, datas, aliasNames, aliases)
    requires name !in nameLut
    ensures NamesAgree(nameLut[name := NameEntry(span, Err(AliasId(|aliases|)), genScope)],
                       dataNames, datas, aliasNames + [name], aliases + [Slot(span, None)])
  {
    var lut := nameLut[name := NameEntry(span, Err(AliasId(|aliases|)), genScope)];
    forall n | n in lut
      ensures Issued(dataNames, aliasNames + [name], n, lut[n].id)
    {
      if n != name {
        assert Issued(dataNames, aliasNames, n, nameLut[n].id);
      }
    }
  }

  /** Filling a data slot keeps its span, so the table stays in agreement. */
  lemma DefiningDataKeepsAgreement(nameLut: map<Ident, NameEntry>, dataNames: seq<Ident>, datas: seq<Slot<Data>>,
                                   aliasNames: seq<Ident>, aliases: seq<Slot<Alias>>, i: nat, body: Data)
    requires NamesAgree(nameLut, dataNames, datas, aliasNames, aliases)
    requires i < |datas|
    ensures NamesAgree(nameLut, dataNames, datas[i := Slot(datas[i].span, Some(body))], aliasNames, aliases)
  {
  }

  /** Filling an alias slot keeps its span, so the table stays in agreement. */
  lemma DefiningAliasKeepsAgreement(nameLut: map<Ident, NameEntry>, dataNames: seq<Ident>, datas: seq<Slot<Data>>,
                                    aliasNames: seq<Ident>, aliases: seq<Slot<Alias>>, i: nat, body: Alias)
    requires NamesAgree(nameLut, dataNames, datas, aliasNames, aliases)
    requires i < |aliases|
    ensures NamesAgree(nameLut, dataNames, datas, aliasNames, aliases[i := Slot(aliases[i].span, Some(body))])
  {
  }

  /** The registry invariant over the tables and the declarations made so
      far: names and ids correspond, every constructor's owner is declared,
      and `go` is the latest declaration marked as it. */
  ghost predicate Consistent(nameLut: map<Ident, NameEntry>, consLut: map<Ident, ConsEntry>,
                             datas: seq<Slot<Data>>, aliases: seq<Slot<Alias>>, lang: Lang,
                             dataNames: seq<Ident>, dataAttrs: seq<seq<Attr>>, aliasNames: seq<Ident>)
  {
    && NamesAgree(nameLut, dataNames, datas, aliasNames, aliases)
    && |dataAttrs| == |datas|
    && (forall c :: c in consLut ==> consLut[c].data.index < |datas|)
    && lang.go == LastGo(dataAttrs)
  }

  /** Declaring a fresh data type name keeps the registry consistent. */
  lemma DeclaringDataKeepsConsistency(nameLut: map<Ident, NameEntry>, consLut: map<Ident, ConsEntry>,
                                      datas: seq<Slot<Data>>, aliases: seq<Slot<Alias>>, lang: Lang,
                                      dataNames: seq<Ident>, dataAttrs: seq<seq<Attr>>, aliasNames: seq<Ident>,
                                      name: Ident, span: Span, genScope: GenScopeId, attr: seq<Attr>)
    requires Consistent(nameLut, consLut, datas, aliases, lang, dataNames, dataAttrs, aliasNames)
    requires name !in nameLut
    ensures Consistent(nameLut[name := NameEntry(span, Ok(DataId(|datas|)), genScope)], consLut,
                       datas + [Slot(span, None)], aliases,
                       if MarksGo(attr) then Lang(Some(DataId(|datas|))) else lang,
                       dataNames + [name], dataAttrs + [attr], aliasNames)
  {
    DeclaringDataKeepsAgreement(nameLut, dataNames, datas, aliasNames, aliases, name, span, genScope);
    LastGoAppend(dataAttrs, attr);
  }

  // ---------------------------------------------------------------------
  // The registry
  // ---------------------------------------------------------------------

  class Datas {
    var nameLut: map<Ident, NameEntry>
    var consLut: map<Ident, ConsEntry>
    var datas: seq<Slot<Data>>
    var aliases: seq<Slot<Alias>>
    var lang: Lang

    /** The name of each declared data type, indexed by its id. */
    ghost var dataNames: seq<Ident>
    /** The attributes of each declared data type, indexed by its id. */
    ghost var dataAttrs: seq<seq<Attr>>
    /** The name of each declared alias, indexed by its id. */
    ghost var aliasNames: seq<Ident>

    /** Every slot was issued to exactly one name of the shared table, which
        maps that name back to the slot's id; every id in the tables is
        issued; and `lang.go` is the latest declaration marked `go`. */
    ghost predicate Valid()
      reads this
    {
      Consistent(nameLut, consLut, datas, aliases, lang, dataNames, dataAttrs, aliasNames)
    }

    constructor ()
      ensures Valid()
      ensures nameLut == map[] && consLut == map[] && datas == [] && aliases == [] && lang == Lang(None)
      ensures dataNames == [] && dataAttrs == [] && aliasNames == []
    {
      nameLut, consLut, datas, aliases, lang := map[], map[], [], [], Lang(None);
      dataNames, dataAttrs, aliasNames := [], [], [];
    }

    /** `name_gen_scope`: the generic scope a declared name was declared with.
        A name in the table is declared as exactly one of the two kinds. */
    function NameGenScope(name: Ident): (scope: GenScopeId)
      reads this
      requires Valid() && name in nameLut
      ensures LookupData(name).Some? != LookupAlias(name).Some?
      ensures scope == nameLut[name].genScope
    {
      nameLut[name].genScope
    }

    /** `lookup_data`: the id of the data type declared under `name`; none for
        an alias or an unknown name. */
    function LookupData(name: Ident): (r: Option<DataId>)
      reads this
      requires Valid()
      ensures r.Some? <==> name in dataNames
      ensures r.Some? ==> r.value.index < |datas| && dataNames[r.value.index] == name
    {
      if name in nameLut && nameLut[name].id.Ok? then Some(nameLut[name].id.value) else None
    }

    /** `lookup_alias`: the id of the alias declared under `name`; none for a
        data type or an unknown name. */
    function LookupAlias(name: Ident): (r: Option<AliasId>)
      reads this
      requires Valid()
      ensures r.Some? <==> name in aliasNames
      ensures r.Some? ==> r.value.index < |aliases| && aliasNames[r.value.index] == name
    {
      if name in nameLut && nameLut[name].id.Err? then Some(nameLut[name].id.error) else None
    }

    /** `lookup_cons`: the data type that registered constructor `name`. */
    function LookupCons(name: Ident): (r: Option<DataId>)
      reads this
      requires Valid()
      ensures r.Some? <==> name in consLut
      ensures r.Some? ==> r.value.index < |datas| && r.value == consLut[name].data
    {
      if name in consLut then Some(consLut[name].data) else None
    }

    /** The slot of `id` has been filled by `DefineData`. */
    predicate Defined(id: DataId)
      reads this
    {
      id.index < |datas| && datas[id.index].body.Some?
    }

    /** `get_data`: the body of a defined data type. Reading a slot that was
        reserved but not yet defined is an internal error of the compiler, so
        callers must not do it. */
    function GetData(id: DataId): (d: Data)
      reads this
      requires Defined(id)
      ensures datas[id.index].body == Some(d)
    {
      datas[id.index].body.value
    }

    /** `get_data_span`: where the data type was declared. */
    function GetDataSpan(id: DataId): (span: Span)
      reads this
      requires Valid() && id.index < |datas|
      ensures span == nameLut[dataNames[id.index]].span
    {
      datas[id.index].span
    }

    /** `get_alias`: the body of an alias, none until it is defined. */
    function GetAlias(id: AliasId): (a: Option<Alias>)
      reads this
      requires id.index < |aliases|
      ensures a == aliases[id.index].body
    {
      aliases[id.index].body
    }

    /** `get_alias_span`: where the alias was declared. */
    function GetAliasSpan(id: AliasId): (span: Span)
      reads this
      requires Valid() && id.index < |aliases|
      ensures span == nameLut[aliasNames[id.index]].span
    {
      aliases[id.index].span
    }

    /** `declare_data`. A name already taken by a data type or an alias is
        rejected, naming the original span, and nothing changes. Otherwise the
        new id is the number of data types declared so far, an empty slot is
        reserved for it, and it becomes the `go` lang item if its attributes
        say so. */
    method DeclareData(name: Ident, nameSpan: Span, genScope: GenScopeId, attr: seq<Attr>) returns (r: Result<DataId, Error>)
      requires Valid()
      modifies this
      ensures Valid()
      ensures old(name in nameLut) ==>
        && r == Err(DuplicateTypeName(name, old(nameLut[name].span), nameSpan))
        && nameLut == old(nameLut) && datas == old(datas) && lang == old(lang)
        && dataNames == old(dataNames) && dataAttrs == old(dataAttrs)
      ensures old(name !in nameLut) ==>
        && r == Ok(DataId(old(|datas|)))
        && nameLut == old(nameLut)[name := NameEntry(nameSpan, Ok(DataId(old(|datas|))), genScope)]
        && datas == old(datas) + [Slot(nameSpan, None)]
        && dataNames == old(dataNames) + [name] && dataAttrs == old(dataAttrs) + [attr]
        && lang == (if MarksGo(attr) then Lang(Some(DataId(old(|datas|)))) else old(lang))
      ensures consLut == old(consLut) && aliases == old(aliases) && aliasNames == old(aliasNames)
    {
      var id := DataId(|datas|);
      if name in nameLut {
        r := Err(DuplicateTypeName(name, nameLut[name].span, nameSpan));
      } else {
        DeclaringDataKeepsConsistency(nameLut, consLut, datas, aliases, lang, dataNames, dataAttrs, aliasNames,
                                      name, nameSpan, genScope, attr);
        MarkLangItems(id, attr);
        nameLut, datas := nameLut[name := NameEntry(nameSpan, Ok(id), genScope)], datas + [Slot(nameSpan, None)];
        dataNames, dataAttrs := dataNames + [name], dataAttrs + [attr];
        r := Ok(id);
      }
    }

    /** The lang-item scan of `declare_data`: the first `lang` attribute's
        arguments are searched for `go`. */
    method MarkLangItems(id: DataId, attr: seq<Attr>)
      modifies this
      ensures lang == if MarksGo(attr) then Lang(Some(id)) else old(lang)
      ensures nameLut == old(nameLut) && consLut == old(consLut) && datas == old(datas) && aliases == old(aliases)
      ensures dataNames == old(dataNames) && dataAttrs == old(dataAttrs) && aliasNames == old(aliasNames)
    {
      match FindLang(attr) {
        case Some(i) =>
          if attr[i].args.Some? && "go" in attr[i].args.value {
            lang := Lang(Some(id));
          }
        case None =>
      }
    }

    /** `check_lang_items`: reports the `go` lang item as missing, once, when
        no data type declared so far was marked as it. */
    method CheckLangItems() returns (errors: seq<Error>)
      requires Valid()
      ensures errors == [] <==> lang.go.Some?
      ensures errors == [] <==> exists i :: 0 <= i < |dataAttrs| && MarksGo(dataAttrs[i])
      ensures errors != [] ==> errors == [MissingLangItem("go")]
    {
      errors := [];
      if lang.go.None? {
        errors := errors + [MissingLangItem("go")];
      }
    }

    /** `declare_alias`: the same shared namespace as `DeclareData`; the new
        id is the number of aliases declared so far, and its body is absent
        until `DefineAlias`. */
    method DeclareAlias(name: Ident, span: Span, genScope: GenScopeId) returns (r: Result<AliasId, Error>)
      requires Valid()
      modifies this
      ensures Valid()
      ensures old(name in nameLut) ==>
        && r == Err(DuplicateTypeName(name, old(nameLut[name].span), span))
        && nameLut == old(nameLut) && aliases == old(aliases) && aliasNames == old(aliasNames)
      ensures old(name !in nameLut) ==>
        && r == Ok(AliasId(old(|aliases|)))
        && nameLut == old(nameLut)[name := NameEntry(span, Err(AliasId(old(|aliases|))), genScope)]
        && aliases == old(aliases) + [Slot(span, None)]
        && aliasNames == old(aliasNames) + [name]
        && GetAlias(r.value) == None
      ensures consLut == old(consLut) && datas == old(datas) && lang == old(lang)
      ensures dataNames == old(dataNames) && dataAttrs == old(dataAttrs)
    {
      var id := AliasId(|aliases|);
      if name in nameLut {
        r := Err(DuplicateTypeName(name, nameLut[name].span, span));
      } else {
        DeclaringAliasKeepsAgreement(nameLut, dataNames, datas, aliasNames, aliases, name, span, genScope);
        nameLut := nameLut[name := NameEntry(span, Err(id), genScope)];
        aliases := aliases + [Slot(span, None)];
        aliasNames := aliasNames + [name];
        r := Ok(id);
      }
    }

    /** `define_data`: enters the constructors, then stores the body whether
        or not anything collided, and fails exactly when something did, with
        every condition. `span` is not used. */
    method DefineData(id: DataId, span: Span, data: Data) returns (r: Result<(), seq<Error>>)
      requires Valid() && id.index < |datas|
      modifies this
      ensures Valid()
      ensures datas == old(datas)[id.index := Slot(old(datas[id.index].span), Some(data))]
      ensures Defined(id) && GetData(id) == data
      ensures consLut == RegisterCons(old(consLut), data.cons, id).lut
      ensures var errors := RegisterCons(old(consLut), data.cons, id).errors;
        r == if errors == [] then Ok(()) else Err(errors)
      ensures var reported := CollisionReports(old(consLut), data.cons, |data.cons|);
        r == if reported == [] then Ok(()) else Err(reported)
      ensures nameLut == old(nameLut) && aliases == old(aliases) && lang == old(lang)
      ensures dataNames == old(dataNames) && dataAttrs == old(dataAttrs) && aliasNames == old(aliasNames)
    {
      var errors := RegisterConstructors(id, data.cons);
      RegisterConsOwners(old(consLut), data.cons, id, |datas|);
      RegisterConsReportsEveryCollision(old(consLut), data.cons, id);
      DefiningDataKeepsAgreement(nameLut, dataNames, datas, aliasNames, aliases, id.index, data);
      datas := datas[id.index := Slot(datas[id.index].span, Some(data))];
      if |errors| == 0 {
        r := Ok(());
      } else {
        r := Err(errors);
      }
    }

    /** The constructor loop of `define_data`: enters the constructors one by
        one, reporting each one whose name is already taken instead of
        stopping. Only the constructor table changes. */
    method RegisterConstructors(id: DataId, cons: seq<Constructor>) returns (errors: seq<Error>)
      modifies this
      ensures Registration(consLut, errors) == RegisterCons(old(consLut), cons, id)
      ensures nameLut == old(nameLut) && datas == old(datas) && aliases == old(aliases) && lang == old(lang)
      ensures dataNames == old(dataNames) && dataAttrs == old(dataAttrs) && aliasNames == old(aliasNames)
    {
      errors := [];
      var i := 0;
      while i < |cons|
        invariant 0 <= i <= |cons|
        invariant RegisterCons(old(consLut), cons[..i], id) == Registration(consLut, errors)
        invariant nameLut == old(nameLut) && datas == old(datas) && aliases == old(aliases) && lang == old(lang)
        invariant dataNames == old(dataNames) && dataAttrs == old(dataAttrs) && aliasNames == old(aliasNames)
      {
        var c := cons[i];
        RegisterStep(old(consLut), cons, i, id);
        if c.name in consLut {
          errors := errors + [DuplicateConsName(c.name, consLut[c.name].span, c.span)];
        } else {
          consLut := consLut[c.name := ConsEntry(c.span, id)];
        }
        i := i + 1;
      }
      assert cons[..|cons|] == cons;
    }

    /** `define_alias`: stores the body; it cannot fail. */
    method DefineAlias(id: AliasId, alias: Alias)
      requires Valid() && id.index < |aliases|
      modifies this
      ensures Valid()
      ensures aliases == old(aliases)[id.index := Slot(old(aliases[id.index].span), Some(alias))]
      ensures GetAlias(id) == Some(alias)
      ensures nameLut == old(nameLut) && consLut == old(consLut) && datas == old(datas) && lang == old(lang)
      ensures dataNames == old(dataNames) && dataAttrs == old(dataAttrs) && aliasNames == old(aliasNames)
    {
      DefiningAliasKeepsAgreement(nameLut, dataNames, datas, aliasNames, aliases, id.index, alias);
      aliases := aliases[id.index := Slot(aliases[id.index].span, Some(alias))];
    }
  }

  // ---------------------------------------------------------------------
  // Scenarios: what a caller of the registry can rely on
  // ---------------------------------------------------------------------

  /** Data types and aliases share one namespace: a name declared as a data
      type cannot be declared again as an alias, while alias ids are counted
      separately from data ids. */
  method SharedNamespace() returns (a: Result<DataId, Error>, b: Result<AliasId, Error>, c: Result<AliasId, Error>)
    ensures a == Ok(DataId(0))
    ensures b == Err(DuplicateTypeName("Foo", 1, 2))
    ensures c == Ok(AliasId(0))
  {
    var registry := new Datas();
    a := registry.DeclareData("Foo", 1, 0, []);
    b := registry.DeclareAlias("Foo", 2, 0);
    assert "Bar" != "Foo";
    c := registry.DeclareAlias("Bar", 3, 0);
  }

  /** Ids are issued densely in declaration order and a rejected declaration
      takes none. */
  method RejectedDeclarationTakesNoId() returns (a: Result<DataId, Error>, b: Result<DataId, Error>, c: Result<DataId, Error>)
    ensures a == Ok(DataId(0))
    ensures b == Err(DuplicateTypeName("Foo", 1, 2))
    ensures c == Ok(DataId(1))
  {
    var registry := new Datas();
    a := registry.DeclareData("Foo", 1, 0, []);
    b := registry.DeclareData("Foo", 2, 0, []);
    assert "Bar" != "Foo";
    c := registry.DeclareData("Bar", 3, 0, []);
  }

  /** A constructor name taken by an earlier data type is reported and stays
      with that data type, while the later body is stored all the same. */
  method ConstructorCollision() returns (r: Result<(), seq<Error>>, owner: Option<DataId>, body: Data)
    ensures r == Err([DuplicateConsName("Mk", 10, 20)])
    ensures owner == Some(DataId(0))
    ensures body == Data("B", 2, [], 0, [Constructor("Mk", 20, 0)])
  {
    var registry := new Datas();
    var a := registry.DeclareData("A", 1, 0, []);
    assert "B" != "A";
    var b := registry.DeclareData("B", 2, 0, []);
    assert registry.consLut == map[] && |registry.datas| == 2;
    var mkA, mkB := Constructor("Mk", 10, 0), Constructor("Mk", 20, 0);
    RegisterOne(registry.consLut, mkA, DataId(0));
    var defined := registry.DefineData(DataId(0), 1, Data("A", 1, [], 0, [mkA]));
    RegisterOne(registry.consLut, mkB, DataId(1));
    r := registry.DefineData(DataId(1), 2, Data("B", 2, [], 0, [mkB]));
    owner := registry.LookupCons("Mk");
    body := registry.GetData(DataId(1));
  }

  /** The lang item is missing until a declaration marks it; the last marked
      declaration wins and a rejected declaration changes nothing. */
  method LangItemSelection() returns (before: seq<Error>, after: seq<Error>, go: Option<DataId>)
    ensures before == [MissingLangItem("go")]
    ensures after == []
    ensures go == Some(DataId(1))
  {
    var registry := new Datas();
    before := registry.CheckLangItems();
    var marks := [Attr("lang", Some(["go"]))];
    assert MarksGo(marks);
    var first := registry.DeclareData("Go", 1, 0, marks);
    assert "Effect" != "Go";
    var second := registry.DeclareData("Effect", 2, 0, marks);
    var rejected := registry.DeclareData("Go", 3, 0, marks);
    after := registry.CheckLangItems();
    go := registry.lang.go;
  }
}
