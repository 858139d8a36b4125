# Tao analysis core: bindings, free locals and the data-type registry

This project models three pieces of the analysis crate of the Tao compiler.
Type inference, checking and lowering all build on them:

- **The phase-polymorphic HIR** (`analysis/src/hir.rs`). It has patterns
  (`Pat`), bindings (`Binding`: a pattern that may also capture the whole
  value under a name) and expressions (`Expr`). It also has the binding
  visitor, which lists every name a binding captures, in order. A phase's
  metadata types (node metadata, data, class, global and effect references)
  are the type parameters `M, D, C, G, E` (module `Hir`, file `hir.dfy`).
- **The free-locals analysis** used by closure conversion
  (`required_locals`). It walks a lowered expression with one stack of bound
  names and one output list, both shared and updated in place. It reports
  each local reference that is not bound, in order and with repetitions
  (module `LocalsAnalysis`, file `required_locals.dfy`).
- **The data-type registry `Datas`** (`analysis/src/data.rs`). Declarations
  claim names in one namespace shared by data types and aliases, and get
  dense ids. Definitions fill the reserved slots later. Constructors go into
  one global namespace where the first registration wins. The registry also
  tracks the `go` lang item. `Datas` is a class whose methods update its
  tables in place (module `Data`, file `data.dfy`). `Option`, `Result`,
  identifiers, spans and attributes are in `wrappers.dfy`.

How the properties are stated:

- Binding extraction is specified by `Bindings`. It is proved equal to an
  independent pre-order listing of the binding tree (`CapturesOf(Nodes(..))`).
  The visitor methods are proved to feed the visitor exactly that sequence.
- The in-place walk `RequiredLocalsInner` hands the stack back unchanged and
  appends `Required(e, stack)`. `Required` is proved equal to an independent
  description, `FreeOf(Occurrences(e), stack)`: the local references with the
  binders that enclose each one, minus those bound by the stack or a binder.
  The scoping lemmas (function parameters, match-arm captures, a handler's
  `send`) follow from that.
- The registry's methods keep an invariant `Valid()`. It says ids and names
  correspond both ways, spans agree, constructor owners exist, and `lang.go`
  is the latest declaration marked `go`. Each method states its whole new
  state. Constructor registration is specified by the function `RegisterCons`, with lemmas
  about which entries win and when no condition is reported. Its conditions are
  proved equal to an independent list, `CollisionReports`: one condition per
  colliding constructor, in constructor order, each with the winning span.

## Model

| member | source | states |
|---|---|---|
| Hir.FromPat | analysis/src/hir.rs:62-64 | the binding keeps the pattern and captures nothing of its own: a node of it captures exactly the pattern's captures |
| Hir.WildcardBinding | analysis/src/hir.rs:66-68 | a node of the binding captures exactly its name with the node's metadata |
| Hir.UnitBinding | analysis/src/hir.rs:70-72 | the pattern is the empty tuple and a node of it captures nothing |
| Hir.CaptureComesFirst | analysis/src/hir.rs:86 | a node's own name is visited before everything inside its pattern, and a node without a name adds nothing |
| Hir.LeafPatternsCaptureNothing | analysis/src/hir.rs:88-90 | error, wildcard and literal patterns capture nothing, so such a node captures at most one name |
| Hir.BindingsArePreorderCaptures | analysis/src/hir.rs:83-110 | the captures are exactly those of the named nodes of the binding tree in pre-order, left to right |
| Hir.PatBindingsArePreorderCaptures | analysis/src/hir.rs:87-109 | each pattern form captures the pre-order captures of its sub-bindings |
| Hir.ListFrontBindingsArePreorderCaptures | analysis/src/hir.rs:102-106 | a list-front pattern captures its items' pre-order captures, then those of the tail when there is one |
| Hir.AllBindingsArePreorderCaptures | analysis/src/hir.rs:93-95 | a sequence of items captures its items' pre-order captures one item after the other |
| Hir.FieldBindingsArePreorderCaptures | analysis/src/hir.rs:96-98 | a record pattern captures its fields' pre-order captures in the map's order |
| Hir.DuplicateCapturesAreKept | analysis/src/hir.rs:85 | duplicate names are not detected or removed: `(x, x)` captures `x` twice |
| Hir.VisitBindings | analysis/src/hir.rs:84-110 | the visitor is called once per capture, in the order of `Bindings`, and its state is threaded through |
| Hir.VisitPat | analysis/src/hir.rs:87-109 | walking a pattern feeds the visitor exactly the pattern's captures, in order, threading its state |
| Hir.VisitEach | analysis/src/hir.rs:93-95 | visiting the items in order feeds the visitor the items' captures one item after the other |
| Hir.VisitFields | analysis/src/hir.rs:96-98 | visiting the field values in order feeds the visitor the record's captures |
| Hir.FoldPushNameAndTy | analysis/src/hir.rs:78 | the collecting visitor appends every name with the type part of its metadata, in order |
| Hir.GetBindingTys | analysis/src/hir.rs:76-80 | the result has one entry per capture, in order: the captured name with its type variable |
| LocalsAnalysis.RequiredIsFreeOccurrences | analysis/src/hir.rs:174-238 | the walk reports exactly the local references that neither the stack nor an enclosing binder binds, in order, with repetitions |
| LocalsAnalysis.MatchRequiredIsFreeOccurrences | analysis/src/hir.rs:186-194 | a match reports the scrutinee's free references, then those of every arm |
| LocalsAnalysis.BoundRequiredIsFreeOccurrences | analysis/src/hir.rs:195-199 | walking a body with one more name pushed reports the free references of the body's occurrences once those under the pushed name are hidden |
| LocalsAnalysis.ApplyRequiredIsFreeOccurrences | analysis/src/hir.rs:200-203 | an application reports the function's free references, then the argument's |
| LocalsAnalysis.ListRequiredIsFreeOccurrences | analysis/src/hir.rs:210-217 | a list reports the items' free references, then the tails' |
| LocalsAnalysis.UpdateRequiredIsFreeOccurrences | analysis/src/hir.rs:222-227 | an update reports the record's free references, then those of the new field values |
| LocalsAnalysis.HandleRequiredIsFreeOccurrences | analysis/src/hir.rs:230-236 | a handler reports the handled expression's free references, then those of `recv` with `send` bound |
| LocalsAnalysis.AllRequiredAreFreeOccurrences | analysis/src/hir.rs:204-206 | a sequence of sub-expressions reports its elements' free references one after the other |
| LocalsAnalysis.EntriesRequiredAreFreeOccurrences | analysis/src/hir.rs:207-209 | record (and update) fields report their values' free references in field order; field names bind nothing |
| LocalsAnalysis.ArmsRequiredAreFreeOccurrences | analysis/src/hir.rs:188-193 | each match arm reports the free references of its body with the arm's captures bound |
| LocalsAnalysis.RequiredMembership | analysis/src/hir.rs:177-181 | a name is reported iff it is not on the stack and some reference to it lies outside every binder of that name |
| LocalsAnalysis.RequiredDependsOnlyOnBoundSet | analysis/src/hir.rs:178 | only the set of names on the stack matters, not their order or repetitions |
| LocalsAnalysis.RequiredUnderPush | analysis/src/hir.rs:189-192 | pushing names hides exactly those names: x is reported under the larger stack iff x was not pushed and is reported without them |
| LocalsAnalysis.FuncBindsParameter | analysis/src/hir.rs:195-199 | a function's parameter is never reported for it; any other name is reported iff the body reports it |
| LocalsAnalysis.HandleBindsSendInRecvOnly | analysis/src/hir.rs:230-236 | a handler reports x iff the handled expression does, or x is not `send` and the handler body does |
| LocalsAnalysis.InRequiredArms | analysis/src/hir.rs:188-193 | a name is reported by the arms iff some arm's body reports it with that arm's captures pushed |
| LocalsAnalysis.MatchArmsBindOwnNames | analysis/src/hir.rs:186-194 | a match reports x iff the scrutinee does or some arm that does not capture x reports it in its body |
| LocalsAnalysis.FoldPushName | analysis/src/hir.rs:190 | the arm's visitor leaves the stack extended by the arm's captured names, in visit order |
| LocalsAnalysis.RequiredLocalsInner | analysis/src/hir.rs:174-238 | the stack comes back exactly as given and the result gains the expression's free references under that stack |
| LocalsAnalysis.RequiredLocalsMatch | analysis/src/hir.rs:186-194 | walking the scrutinee and then the arms restores the stack and adds the match's free references |
| LocalsAnalysis.RequiredLocalsApply | analysis/src/hir.rs:200-203 | walking the function and then the argument restores the stack and adds the application's free references |
| LocalsAnalysis.RequiredLocalsList | analysis/src/hir.rs:210-217 | walking the items and then the tails restores the stack and adds the list's free references |
| LocalsAnalysis.RequiredLocalsUpdate | analysis/src/hir.rs:222-227 | walking the record and then the new values restores the stack and adds the update's free references |
| LocalsAnalysis.RequiredLocalsHandle | analysis/src/hir.rs:230-236 | walking the handled expression and then `recv` with `send` pushed restores the stack and adds the handler's free references |
| LocalsAnalysis.RequiredLocalsFunc | analysis/src/hir.rs:195-199 | push the binder, walk the body, pop: the stack is restored and the body's references are added with the binder bound |
| LocalsAnalysis.RequiredLocalsArms | analysis/src/hir.rs:188-193 | the arms are walked in order, each restoring the stack, adding each arm's free references |
| LocalsAnalysis.RequiredLocalsArm | analysis/src/hir.rs:189-192 | pushing the arm's captures and truncating afterwards restores the stack and adds the body's references with the captures bound |
| LocalsAnalysis.RequiredLocalsEach | analysis/src/hir.rs:183-185 | walking sub-expressions in order restores the stack and adds their references one after the other |
| LocalsAnalysis.RequiredLocalsEntries | analysis/src/hir.rs:207-209 | walking field values in order restores the stack and adds their references in field order |
| LocalsAnalysis.RequiredLocals | analysis/src/hir.rs:240-244 | the result is the free references of the expression given the names the caller already has |
| LocalsAnalysis.ApplySameLocalTwice | analysis/src/hir.rs:200-203 | `x x` reports `x` twice, function before argument |
| LocalsAnalysis.FuncExcludesItsParameter | analysis/src/hir.rs:195-199 | `\z -> x y z` reports `x` then `y` and not `z` |
| Data.FindLang | analysis/src/data.rs:88-91 | finds the first attribute named `lang`, or shows that none has that name |
| Data.OnlyFirstLangAttributeCounts | analysis/src/data.rs:88-95 | only the first `lang` attribute is consulted, and `go` may appear anywhere among its arguments |
| Data.LastGo | analysis/src/data.rs:88-96 | the `go` lang item is set iff some declaration is marked, and it is the latest marked declaration |
| Data.LastGoAppend | analysis/src/data.rs:88-96 | one more declaration becomes the `go` item when marked and otherwise leaves the item as it was |
| Data.RegisterConsKeeps | analysis/src/data.rs:123-127 | entering constructors never overwrites an entry and leaves the table holding the old names plus the constructor names |
| Data.RegisterConsEntersNewNames | analysis/src/data.rs:124-126 | each constructor whose name is new (not in the table, not earlier in the body) is entered for the data type with its own span |
| Data.RegisterConsEntersNewName | analysis/src/data.rs:124 | a constructor whose name is new is in the table afterwards, owned by the data type, with its own span |
| Data.RegisterConsOwners | analysis/src/data.rs:124 | registration only enters the given id, so every owner in the table stays a declared data type |
| Data.RegisterConsErrorCount | analysis/src/data.rs:123-127 | one condition per constructor that added no name: conditions plus table size equals old size plus constructor count |
| Data.RegisterConsErrorsAreCollisions | analysis/src/data.rs:124-126 | every condition names a colliding constructor with the winning entry's span and the constructor's own span |
| Data.WinnerInPrefix | analysis/src/data.rs:124-125 | when a constructor collides, the table built so far holds its name under the winning registration: the old entry, or the first earlier constructor with that name |
| Data.RegisterPrefixReports | analysis/src/data.rs:123-127 | entering any prefix of the constructors reports exactly one condition per colliding constructor in it, in order, with the winning span and its own span |
| Data.RegisterConsReportsEveryCollision | analysis/src/data.rs:123-127 | the reported conditions are exactly the independent in-order list of collisions: every colliding constructor is reported once and nothing else is |
| Data.CollisionIsReported | analysis/src/data.rs:124-126 | the condition of each colliding constructor is among the reported ones |
| Data.RegisterConsSucceeds | analysis/src/data.rs:129-133 | no condition is reported iff no constructor collides |
| Data.DeclaringDataKeepsAgreement | analysis/src/data.rs:83-101 | claiming a fresh name for a new data slot keeps names and ids in correspondence |
| Data.DeclaringAliasKeepsAgreement | analysis/src/data.rs:111-119 | claiming a fresh name for a new alias slot keeps names and ids in correspondence |
| Data.DeclaringDataKeepsConsistency | analysis/src/data.rs:83-101 | declaring a fresh name as the next data type, marked `go` or not, keeps the whole registry invariant |
| Data.DefiningDataKeepsAgreement | analysis/src/data.rs:128 | filling a data slot keeps its span, so names and ids still correspond |
| Data.DefiningAliasKeepsAgreement | analysis/src/data.rs:137 | filling an alias slot keeps its span, so names and ids still correspond |
| Data.Datas.constructor | analysis/src/data.rs:28-37 | the default registry is empty, has no `go` lang item, and is valid |
| Data.Datas.NameGenScope | analysis/src/data.rs:40-42 | a name in the table is declared as exactly one of data type or alias, and its scope is the declared one |
| Data.Datas.LookupData | analysis/src/data.rs:44-49 | found iff a data type was declared under the name, and then the id is that declaration's |
| Data.Datas.LookupAlias | analysis/src/data.rs:51-56 | found iff an alias was declared under the name, and then the id is that declaration's |
| Data.Datas.LookupCons | analysis/src/data.rs:58-60 | found iff the constructor is registered, and then the owner is a declared data type |
| Data.Datas.GetData | analysis/src/data.rs:62-67 | returns the body that `DefineData` stored for the id; only defined ids may be read |
| Data.Datas.GetDataSpan | analysis/src/data.rs:69-71 | the span under which the data type's name was declared |
| Data.Datas.GetAlias | analysis/src/data.rs:73-77 | the alias body, absent after `DeclareAlias` and present after `DefineAlias` |
| Data.Datas.GetAliasSpan | analysis/src/data.rs:79-81 | the span under which the alias's name was declared |
| Data.Datas.DeclareData | analysis/src/data.rs:83-101 | a taken name fails with both spans and changes nothing; a new name gets the next id and an empty slot, and becomes the `go` item when marked |
| Data.Datas.MarkLangItems | analysis/src/data.rs:88-96 | the declaration becomes the `go` item iff its first `lang` attribute lists `go`; nothing else changes |
| Data.Datas.CheckLangItems | analysis/src/data.rs:103-109 | reports the `go` item missing, exactly once, iff no declared data type was marked as it |
| Data.Datas.DeclareAlias | analysis/src/data.rs:111-119 | a taken name fails with both spans and changes nothing; a new name gets the next alias id and an empty slot |
| Data.Datas.DefineData | analysis/src/data.rs:121-134 | registers constructors first-wins, stores the body even on collisions, and fails iff some constructor collided, with exactly one condition per colliding constructor in constructor order |
| Data.Datas.RegisterConstructors | analysis/src/data.rs:122-127 | the loop leaves exactly the table and conditions of `RegisterCons`, and changes nothing but the constructor table |
| Data.Datas.DefineAlias | analysis/src/data.rs:136-138 | stores the alias body and changes nothing else |
| Data.SharedNamespace | analysis/src/data.rs:111-115 | a data type's name cannot be reused for an alias; alias ids count separately |
| Data.RejectedDeclarationTakesNoId | analysis/src/data.rs:83-86 | ids are dense in declaration order and a rejected declaration uses none |
| Data.ConstructorCollision | analysis/src/data.rs:121-134 | a constructor name already owned stays with its owner, the later body is still stored, and the condition carries both spans |
| Data.LangItemSelection | analysis/src/data.rs:88-96 | the item is missing until marked; the latest marked declaration wins; a rejected declaration changes nothing |

## Left out

- Spans are plain integers and source nodes (`SrcNode`, `Node`) are not modelled. A binding node keeps only its metadata. Expression nodes keep none, because the free-locals analysis never reads it.
- The `Meta` trait and the concrete phases are not modelled. A phase is its tuple of type parameters. Under the lowered phase the class type is uninhabited, so `ClassAccess` cannot occur there; here it stays a generic constructor that reports nothing.
- The record pattern's `BTreeMap` is modelled as its entries in the map's iteration order (sorted by identifier). The model neither orders nor deduplicates keys.
- The second `Access` arm at `analysis/src/hir.rs:220` can never match, because the arm at line 218 already covers `Access`. Only one arm is modelled.
- The meaning of literals and intrinsics is not modelled. Pattern matching itself is also out: only which names a pattern captures is modelled.
- `&mut` parameters of the walk and the `FnMut` visitor: the stack and the result are passed in and handed back. The visitor is a step function over the state it captures (`Fold`).
- Attribute arguments are themselves attributes. Only their names are modelled, since only names are compared.
- `alias_lut` is declared but never read or written, so it is not modelled.
- `define_data` ignores its `span` argument, and so does the model.
- `Data.Datas.GetData`: the source panics when the slot is still empty. The model requires a defined slot instead.
- `Data.Datas.NameGenScope`: the source panics on an unknown name. The model requires the name to be declared.
- Indexing the data and alias tables with an id that was never issued panics in the source. The accessors and the define methods (`DefineData`, `DefineAlias`) require an issued id.
- Ids are unbounded naturals, so `usize` overflow of the id counters is not modelled.
