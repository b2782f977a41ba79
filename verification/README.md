# A verified model of parts of the sammine compiler

The compiler turns sammine-lang programs into MLIR.  This project models the parts of it whose
correctness does not show from reading one function, and proves in Dafny what they keep.
`dafny verify dfyconfig.toml` checks everything.

**Ownership** (`Linear*.dfy`).  A variable of type `'ptr<T>` owns a cell that must be freed, passed on
or returned exactly once.  `LinearSyntax` has the expressions the checker dispatches on and the programs the
theorems are about.  `LinearChecker` has the checker as a class with its scope stack, snapshots and branch
merges, proved against a specification on values.  `LinearRuns` runs a function with free choices at branches and
loops, in the order of the emitted code, and records what happens to every reference as events; an auditor of
these events says whether memory was kept safe.  The checker and the code generator disagree on the order of
evaluation and on what an array variable is, so the checker overlooks something.  `LinearGaps` says what, as a
condition on the program text that is read off along the checker's own pass (`Unobstructed`), and where the
checker objects to what never goes wrong (`Prompt`).  Code generation keeps the array names that the body of an
`if`, a `while` or a `case` declares; `LinearScopes` proves that this makes no difference where the names are used only
where they are visible.  `LinearSafety` proves that no run of an accepted, unobstructed function misuses a cell, whatever
its branches and loops do.  `LinearPaths`, `LinearLater` and `LinearOverlooked` prove the converse: they lead a run, by its
choices, to the first thing that is overlooked and show that it breaks a rule there.  `LinearStraight`, `LinearRefusals` and
`LinearVerdicts` do the same for what the checker refuses: code with branches and loops is accepted, or some choices lead to
the breach of a rule, or two runs of it part over an owner that one has consumed and the other has not, and never come
together again, so that one of them ends badly.  `LinearPrompt` proves that what is accepted is prompt.  `LinearExactness`
puts all this together: for accepted functions with branches and loops the condition is exact, up to owners taken
unseen, and where branches and loops are statements or values of variables, being disciplined in all runs, prompt and without
owners taken unseen is the same as being accepted with nothing overlooked.  `LinearFlow` and `LinearUses` characterise what the
checker does by itself: what loops and merges are refused for, which uses it reports, and what it takes to have been consumed.
`LinearExamples` has an input for each way in which checker and memory part, and inputs that show what the theorems have to exclude.  Which functions they
cover is said under "Left out".

**Types** (`Types`, `Unification`, `Compatibility`, `Mangling`, `Monomorphization`, `TypeExprs`).
Types are compared by name for structs and enums, and without regard to ownership; what is equal is what prints alike
without ownership marks, and an annotation resolves to the type that prints as it is written.  Unification binds
type parameters of a pattern; the model proves exactly when it succeeds, that the bindings are the only
possible ones, and exactly when substituting them rewrites the whole type.  Compatibility is shown
to be a partial order, and printed types to be unambiguous, so that instantiations never share a symbol.

**Parsing** (`Tokens`, `TokenStream`, `Lexing`, `TypeGrammar`, `TypeParser`, `TypeRoundTrip`,
`TypeSources`, `TextRoundTrip`, `TypeReading`, `TypeFaults`, `Numerals`, `Precedence`, `OperatorLevels`).  The token stream is a list of
nodes with a cursor, a record of split tokens and a stack of rollback points.  The lexer glues `>>` and `>=`; the type parser
takes them apart again while it reads types in place.  Printing a type, lexing and parsing it gives it back, and
whatever is parsed as a type is the source of that type.
Binary expressions are parsed by precedence climbing, which builds the only tree the precedences allow.

**Lowering** (`CaseLowering`, `CaseBlocks`, `PayloadLayout`).  The exhaustiveness check for `case`, the
blocks emitted for it, and the bytes of enum payloads.

**Around the compiler** (`Imports`, `Diagnostics`).  Import resolution as a depth-first search, and the
line table and clustering behind error messages.

## Where the code falls short of what one might expect

The code was followed in each case; each point is a lemma below.

- The ownership checker goes through the operands in one order and the emitted code reaches memory in another.  It
  accepts `*p = consume(p)` and `p[consume(p)]`, which store to and load from memory given up before
  (`StoreThroughPassedMisbehaves`, `IndexByPassedMisbehaves`).
- `let a = *p` does not copy an array, so `let a = *p; free(p); a[0]` is accepted and reads freed memory
  (`ArrayOutlivesOwnerMisbehaves`).
- A block's value is that of its last statement, even of a declaration, so
  `let r = if c { let a = *p } else { let b = *p }; free(p); r[0]` is accepted and reads freed memory
  (`BranchYieldsArrayMisbehaves`).  Code generation opens no symbol scope for the bodies of `if`, `while` and `case`, so in
  `let a = [1]; let b = *p; while c { let a = b }; free(p); a[0]` the last `a` is the inner one; the same without the first
  statement (`NameLeavesMisbehaves`).
- The checker does not walk the operands of some expressions (unary operators, field accesses, ranges, the
  count of an `alloc`, a variadic tail), so a use after `free` hidden there is accepted (`HiddenUseMisbehaves`), and
  `let x = -consume(p); free(p)` gives `p` up twice (`HiddenTakeMisbehaves`); it does not notice owned memory that is used
  without being bound (`DroppedTemporaryMisbehaves`); declaring a name again forgets its owner (`NameTakenMisbehaves`), also
  in the other branch of an `if` (`NameSharedMisbehaves`); and owners still held at an early `return` are not looked for
  (`EarlyReturnMisbehaves`).
- In the functions the theorem covers, with branches and loops, what the checker overlooks is exactly what the condition
  says (`AcceptedDisciplinedIff`).  Only an owner that is taken unseen can do no harm, if its name is declared again
  afterwards (`TakenThenNewIsDisciplined`); the condition is false of such functions as well.
- The checker refuses `f(p, *p)`, although both arguments are evaluated before the call
  (`PassedAndLookedThroughIsRejected`), `for i in consume(p)..n { }`, although the bounds are worked out once
  (`BoundTakesIsRejected`), every `return q` of a pointer that owns nothing (`ReturnsBorrowedIsRejected`), and
  `-consume(p)` alone, since it does not see that `p` is given up (`TakenUnseenIsRejected`).  Where branches and loops are
  statements or values of variables nothing else is refused needlessly (`DisciplinedAcceptedIff`, `StructuredExact`).
- Substitution compares the result with the original by name, so a struct whose only parameterised field is
  itself a generic struct is not rewritten (`NestedGenericIsMissed`, `SubstituteDeepIff`).  It also rebuilds
  `'ptr<T>` as `ptr<T>`, while cloning keeps the ownership mark (`CloneKeepsOwnershipIff`).
- A `>` in front of `==` or `=>` takes the `=` away when the number of closing brackets is odd, so
  `ptr<i32>==x` reads as `>=` and `=` but `ptr<ptr<i32>>==x` is read as intended (`PrintReadsIff`, `OneCloserTakesEqual`).
- A rollback point taken at the end of the list skips tokens produced since (`RollbackRereadsIff`, `LateMarkSkips`).
- Type arguments that turn out to be a comparison are taken back, but not the errors reported meanwhile: `n < (m)`
  leaves one (`LessLeavesError`, `TypeErrorsIff`).
- `case` arms after a wildcard are compared before the wildcard is taken, and of several wildcards
  the last one counts (`SelectIsFirstIff`, `SelectIsAlwaysFirstIff`, `WildcardIsOvertaken`).
- A module the program imports behind another module that imports it is treated as a transitive import:
  its functions are not declared and its object file is not linked (`OrderDecides`, `Resolver.Resolve`).
  A missing module looked for transitively first is not reported.
- The language reference gives `|` level 3, `||` 4, `&` 5 and `&&` 7.  The parser has these levels for the tokens
  `Or`, `OrLogical`, `And` and `AndLogical`, but the lexer gives `Or` to `||`, `OrLogical` to `|`, `And` to `&&` and
  `AndLogical` to `&`, so `||` binds less tightly than `|`, and `&&` less tightly than `&`.  The other operators bind as documented
  (`DocumentedIff`, `SwappedLevels`).
- A `case` with nothing but a wildcard is refused unless its scrutinee is an enum (`WildcardsAloneAreRefused`), and
  literals are compared as written, so `1` and `01` may both have an arm, and the second never runs
  (`SameNumberTwice`, `ArmRunsIff`).
- Structs are padded to their largest field, so in an array of structs a field whose size does not divide the struct's is not aligned in every
  element (`ElementsAlignedIff`, `ElementsMisaligned`).
- The type named `unit` prints as `()` (`BuiltinsFaithful`), which the parser does not read.
- A numeral of two or more digits at the very end of the input is cut before its last digit (`LastDigitIsCut`); a
  numeral is read whole if and only if something follows it or it has one digit (`NumeralLexIff`, `NumeralAloneIff`).
  Numerals in types are always followed by `]`, so types are not affected.
- Equal instantiation keys can have different symbols, because keys ignore ownership (`OwnershipSplitsSymbols`).
- The language reference writes array types as `[i32; 3]`; the parser reads `[3]i32`, and so does the model.

## Model

| member | source | states |
|---|---|---|
| LinearChecker.LinearTypeChecker.PopScopeAndCheck | src/typecheck/LinearTypeChecker.cpp:14-36 | closing a scope reports an error exactly if it still holds an owner, and touches no other scope |
| LinearChecker.LinearTypeChecker.RegisterLinear | src/typecheck/LinearTypeChecker.cpp:40-46 | registering overwrites the name in the innermost scope and nothing else |
| LinearChecker.LinearTypeChecker.ConsumeAt | src/typecheck/LinearTypeChecker.cpp:48-64 | an owner is consumed once; consuming it again is an error and changes no state |
| LinearChecker.LinearTypeChecker.CheckUseAfterConsume | src/typecheck/LinearTypeChecker.cpp:66-78 | an error exactly if the name has been consumed |
| LinearChecker.LinearTypeChecker.FindLinear | src/typecheck/LinearTypeChecker.cpp:80-87 | finds the innermost scope that has the name |
| LinearChecker.LinearTypeChecker.Snapshot | src/typecheck/LinearTypeChecker.cpp:91-98 | the snapshot holds every name with its innermost state |
| LinearChecker.LinearTypeChecker.Restore | src/typecheck/LinearTypeChecker.cpp:100-108 | restoring resets the states of the snapshot's names in all scopes and drops no name |
| LinearChecker.LinearTypeChecker.CheckAgreement | src/typecheck/LinearTypeChecker.cpp:112-131 | disagreement exactly if the name is consumed at the end of one branch and not of another |
| LinearChecker.LinearTypeChecker.CheckBranchConsistency | src/typecheck/LinearTypeChecker.cpp:148-185 | the loop over names and branches computes the merge of the branches' end states |
| LinearChecker.LinearTypeChecker.DoIf | src/typecheck/LinearTypeChecker.cpp:825-851 | checking both branches from one snapshot in place is the specification's branch on values |
| LinearChecker.LinearTypeChecker.DoLoop | src/typecheck/LinearTypeChecker.cpp:855-899 | the loop rule in place is the specification's: an error if the body changes an outer owner |
| LinearChecker.LinearTypeChecker.DoCase | src/typecheck/LinearTypeChecker.cpp:903-919 | checking all arms in place is the specification's branching on values |
| LinearChecker.LinearTypeChecker.DoExpr | src/typecheck/LinearTypeChecker.cpp:242-293 | one expression or statement in place is the specification's step, for every kind of expression the model has, `return` and literals included |
| LinearChecker.LinearTypeChecker.DoReturn | src/typecheck/LinearTypeChecker.cpp:710-821 | returning an owner consumes it; returning a pointer that owns nothing is an error; anything else is walked |
| LinearChecker.LinearTypeChecker.ConsumeElements | src/typecheck/LinearTypeChecker.cpp:1069-1090 | the loop over a literal's elements consumes the owners among them and walks the others, in order |
| LinearChecker.LinearTypeChecker.CheckFunc | src/typecheck/LinearTypeChecker.cpp:201-216 | an error exactly if the function is not generic and not accepted |
| LinearChecker.LinearTypeChecker.CheckProgram | src/typecheck/LinearTypeChecker.cpp:194-199 | an error exactly if some function of the program is refused |
| LinearFlow.LoopInvariance | src/typecheck/LinearTypeChecker.cpp:855-899 | an accepted loop body leaves the state of every outer name as it was, so one pass covers any number of iterations |
| LinearFlow.MergeExact | src/typecheck/LinearTypeChecker.cpp:112-185 | a merge without error gives each name the state it has at the end of every branch |
| LinearFlow.BranchMerge | src/typecheck/LinearTypeChecker.cpp:825-919 | after an accepted `if` or `case` each outer name has the state it has at the end of every branch |
| LinearFlow.LoopRefusedIff | src/typecheck/LinearTypeChecker.cpp:855-899 | a loop whose body is checked without error is refused exactly for an owner that had something before the loop and has been consumed at the end of the body |
| LinearFlow.BranchRefusedIff | src/typecheck/LinearTypeChecker.cpp:825-919 | an `if` or `case` whose branches are checked without error is refused exactly for an owner that had something before them and on which two of them disagree |
| LinearFlow.ExprUntouched | src/typecheck/LinearTypeChecker.cpp:242-293 | what is accepted both when an owner has been consumed and when it has not leaves it as it is, so two runs that part over an owner stay apart |
| LinearUses.UseReportedIff | src/typecheck/LinearTypeChecker.cpp:66-293 | what is accepted is refused once an owner has been consumed if and only if it looks through the owner or takes it |
| LinearUses.BlockUseReportedIff | src/typecheck/LinearTypeChecker.cpp:220-240 | the same for blocks |
| LinearUses.ConsumedIff | src/typecheck/LinearTypeChecker.cpp:242-293 | after what is accepted, with branches and loops, an owner that existed before has been consumed if and only if it had been before or is taken |
| LinearUses.AcceptedOffendsNot | src/typecheck/LinearTypeChecker.cpp:201-293 | an accepted function drops no owned value of a statement, takes no owner's address, and stores no pointer where it outlives its owner |
| LinearInvariant.BindsView | src/codegen/MLIRGen.cpp:534-545 | after `let a = ..` of an array the text still names the owner of whatever memory each array variable is |
| LinearInvariant.Binds | src/typecheck/LinearTypeChecker.cpp:297-381 | a declaration gives one reference one new owner; the arrays in its memory follow it, and those of an earlier owner of the name are nobody's |
| LinearSafety.IndexSafe | src/codegen/MLIRGenExpr.cpp:781-812 | an indexed load reaches live memory if what is indexed still has its owner after the index has been evaluated |
| LinearSafety.AssignSafe | src/codegen/MLIRGenExpr.cpp:177-185 | a store reaches live memory if what is stored through still has its owner after the right-hand side has been evaluated |
| LinearSafety.CallSafe | src/codegen/MLIRGenFunction.cpp:445-500 | a call whose arguments are evaluated first and handed over then gives up exactly the owners the checker has marked |
| LinearScopes.ScopesAgree | src/codegen/MLIRGen.cpp:499-545 | in a function that uses its array names only where they are visible, a run of the emitted code, which keeps the names a body declares, leaves the same trace as a run in which they are gone afterwards |
| LinearSafety.AcceptedIsSafe | src/typecheck/LinearTypeChecker.cpp:201-381 | soundness: whatever the branches and iteration counts, a run of an accepted function in which nothing is overlooked consumes every owned cell exactly once and never uses it afterwards |
| LinearOverlooked.ScalarMissed | src/codegen/MLIRGenExpr.cpp:177-310 | whatever the checker overlooks in an expression breaks a rule of memory in a run that is led to it, at the latest when the arguments taken so far are handed over |
| LinearOverlooked.BlockMissed | src/codegen/MLIRGen.cpp:499-514 | whatever it overlooks in a block, or an owner of an inner block that is left behind, breaks a rule in a run that is led to it through branches and loops |
| LinearStraight.ScalarBreaks | src/typecheck/LinearTypeChecker.cpp:242-293 | in straight-line code an error of the checker, or something it overlooks, breaks a rule of memory when it runs, at the latest when the arguments taken so far are handed over |
| LinearStraight.StmtBreaks | src/typecheck/LinearTypeChecker.cpp:242-381 | so does a straight-line statement or declaration |
| LinearVerdicts.BlockSettles | src/typecheck/LinearTypeChecker.cpp:242-293 | a block with branches and loops is accepted with nothing overlooked, and can be got through; or some choices lead to the breach of a rule; or two ways through it end with the same owner consumed and not consumed |
| LinearExactness.OverlookedMisbehaves | src/typecheck/LinearTypeChecker.cpp:201-381 | in an accepted function in which something is overlooked, and that takes no owner unseen, the choices read off the text lead to a run that misuses memory |
| LinearExactness.RefusedMisbehaves | src/typecheck/LinearTypeChecker.cpp:201-381 | a function that is refused, or in which something is overlooked, misuses memory in some run, if it is prompt, takes no owner unseen, and its branches and loops are statements or values of variables |
| LinearExactness.StructuredExact | src/typecheck/LinearTypeChecker.cpp:201-919 | of such functions, being disciplined in all runs, prompt, and without owners taken unseen, is the same as being accepted with nothing overlooked |
| LinearExactness.StraightLineExact | src/typecheck/LinearTypeChecker.cpp:297-381 | a straight-line function is disciplined in any one run, prompt, and takes no owner unseen, if and only if it is accepted and nothing in it is overlooked |
| LinearExactness.AcceptedDisciplinedIff | src/codegen/MLIRGenExpr.cpp:177-401 | nothing is overlooked in an accepted function, with branches and loops, if and only if it is disciplined in all its runs and takes no owner unseen |
| LinearExactness.DisciplinedAcceptedIff | src/typecheck/LinearTypeChecker.cpp:561-899 | a function with branches and loops that is disciplined in all runs and takes no owner unseen is accepted if and only if it is prompt: it looks through no owner passed earlier in the same call, and takes none to bound a `for` |
| LinearExamples.StoreThroughPassedMisbehaves | src/codegen/MLIRGenExpr.cpp:177-185 | `*p = consume(p)` is accepted, and stores to memory that has been given up |
| LinearExamples.IndexByPassedMisbehaves | src/codegen/MLIRGenExpr.cpp:781-797 | `p[consume(p)]` is accepted, and loads from memory that has been given up |
| LinearExamples.ArrayOutlivesOwnerMisbehaves | src/codegen/MLIRGen.cpp:534-545 | `let a = *p; free(p); a[0]` is accepted, and reads freed memory |
| LinearExamples.BranchYieldsArrayMisbehaves | src/typecheck/BiTypeCheckerSynthesize.cpp:791-812 | a branch that ends in the declaration of an array yields it: `let r = if c { let a = *p } else { let b = *p }; free(p); r[0]` is accepted and reads freed memory, and the theorems exclude it |
| LinearExamples.NameLeavesMisbehaves | src/codegen/MLIRGen.cpp:499-545 | `let b = *p; while c { let a = b }; free(p); a[0]`, with an `a` declared before or not, is accepted and reads freed memory, and the theorems exclude it |
| LinearExamples.NameTakenMisbehaves | src/typecheck/LinearTypeChecker.cpp:40-46 | a function that declares an owner's name twice is accepted, and leaks |
| LinearExamples.NameSharedMisbehaves | src/typecheck/LinearTypeChecker.cpp:100-108 | when both branches of an `if` declare the same owner, what the second does with it hides that the first leaks; the condition is false of such a function |
| LinearExamples.HiddenUseMisbehaves | src/typecheck/LinearTypeChecker.cpp:242-293 | a function that uses a freed cell inside an unwalked expression is accepted |
| LinearExamples.HiddenTakeMisbehaves | src/codegen/MLIRGenExpr.cpp:322-341 | `let x = -consume(p); free(p)` is accepted, and gives `p` up twice; the condition is false of it |
| LinearExamples.TakenThenNewIsDisciplined | src/typecheck/LinearTypeChecker.cpp:40-46 | `let x = -consume(p); let p = alloc(); free(p)` is accepted and disciplined, so an owner taken unseen can do no harm |
| LinearExamples.DroppedTemporaryMisbehaves | src/typecheck/LinearTypeChecker.cpp:242-293 | `*alloc(n)` is accepted, and leaks |
| LinearExamples.EarlyReturnMisbehaves | src/typecheck/LinearTypeChecker.cpp:710-821 | a function that returns early and leaks is accepted |
| LinearExamples.PassedAndLookedThroughIsRejected | src/codegen/MLIRGenFunction.cpp:466-500 | `f(p, *p)` is refused, and is disciplined |
| LinearExamples.BoundTakesIsRejected | src/typecheck/LinearTypeChecker.cpp:893-899 | `for i in consume(p)..n { }` is refused, and is disciplined in all runs |
| LinearExamples.TakenUnseenIsRejected | src/typecheck/LinearTypeChecker.cpp:242-293 | `-consume(p)` alone is refused, and is disciplined |
| LinearExamples.ReturnsBorrowedIsRejected | src/typecheck/LinearTypeChecker.cpp:721-730 | `return q` of a pointer that owns nothing is refused, and is disciplined |
| Types.ContainsParamIff | src/typecheck/UniSubst.cpp:5-15 | the search finds a type parameter exactly if it is among the type's parameters |
| Types.EqTransitive | src/typecheck/Types.cpp:113-125 | type equality is transitive |
| Types.EqSymmetric | src/typecheck/Types.cpp:113-125 | type equality is symmetric |
| Types.EqIff | src/typecheck/Types.cpp:113-125 | two types are equal exactly if they are the same but for ownership, variadic tails, the insides of structs and enums, and the texts of strings and errors |
| Mangling.EqIffShow | include/typecheck/Types.h:246-322 | concrete types are equal exactly if they print alike without their ownership marks |
| Unification.BindingTable.Solve | src/typecheck/UniSubst.cpp:106-214 | unification in place over the binding map is unification on values, also when it fails half way |
| Unification.UnifyIff | src/typecheck/UniSubst.cpp:106-214 | unification succeeds exactly if some extension of the incoming bindings fits the pattern to the type |
| Unification.UnifyGeneral | src/typecheck/UniSubst.cpp:106-214 | the bindings found agree with every substitution that fits, so they are the most general ones |
| Unification.UnifySound | src/typecheck/UniSubst.cpp:17-214 | on success the bindings extend the incoming ones by exactly the pattern's parameters, and substituting them gives the concrete type |
| Unification.UnifyComplete | src/typecheck/UniSubst.cpp:106-214 | if a substitution makes the pattern deeply equal to a type without its parameters, unification succeeds and agrees with it on every parameter |
| Unification.SubstituteDeepIff | src/typecheck/UniSubst.cpp:17-104 | substitution rewrites every occurrence of a parameter exactly if no occurrence hides behind names that compare equal |
| Unification.NestedGenericIsMissed | src/typecheck/UniSubst.cpp:17-104 | a generic struct inside a generic struct is not rewritten |
| Compatibility.TypeMapOrdering.Populate | src/typecheck/Types.cpp:263-273 | fills the map with the lattice's edges |
| Compatibility.TypeMapOrdering.VisitAncestor | src/typecheck/Types.cpp:188-204 | collects a type and all its ancestors, nearest first |
| Compatibility.NeverIsBottom | src/typecheck/Types.cpp:287-346 | a diverging expression fits everywhere |
| Compatibility.NonExistentIsTop | src/typecheck/Types.cpp:287-346 | everything fits a type not yet known |
| Compatibility.LiteralReach | src/typecheck/Types.cpp:263-273 | a literal fits exactly the types whose parent in the lattice is the literal's type |
| Compatibility.OwnersFlowToOwners | src/typecheck/Types.cpp:275-336 | through arrays and tuples an owner flows only to an owner and a pointer that owns nothing only to one that owns nothing |
| Compatibility.PointersFlowIff | src/typecheck/Types.cpp:275-285 | a pointer flows into another exactly if both own or neither does, and what they point to is equal |
| Compatibility.RigidFlowIff | src/typecheck/Types.cpp:287-346 | between types that do not adapt (no literal's, no enum backed by integers, neither unknown nor diverging) compatibility is equality and agreement on owners through arrays and tuples |
| Compatibility.IntoBasicIff | src/typecheck/Types.cpp:287-346 | what exactly flows into a built-in type |
| Compatibility.EnumReach | src/typecheck/Types.cpp:308-314 | into what exactly an enum flows |
| Compatibility.CompatibleReflexive | src/typecheck/Types.cpp:275-346 | compatibility is reflexive on all types |
| Compatibility.CompatibleAntisymmetric | src/typecheck/Types.cpp:275-346 | types compatible both ways are equal, through nested arrays and tuples |
| Compatibility.CompatibleTransitive | src/typecheck/Types.cpp:275-346 | compatibility is transitive if an enum name determines how the enum is represented |
| Compatibility.NameClashBreaksTransitivity | src/typecheck/Types.cpp:287-336 | without that condition it is not |
| Mangling.TypeArgsString | include/typecheck/Types.h:534-543 | the loop prints the arguments separated by commas |
| Mangling.ShowUnambiguous | include/typecheck/Types.h:246-322 | a printed type, whatever follows, can be read in one way only, ownership included |
| Mangling.GenericNameIff | include/typecheck/Types.h:545-549 | two instantiations have the same symbol exactly if they apply the same name to the same types |
| Mangling.TypeclassNameIff | include/typecheck/Types.h:551-557 | two instance methods have the same symbol exactly if class, types and method are the same, and never that of an instantiation |
| Mangling.KeysHaveOwnSymbols | include/typecheck/Types.h:517-549 | different keys never share a symbol |
| Mangling.OwnershipSplitsSymbols | include/typecheck/Types.h:517-549 | equal keys may have different symbols |
| Mangling.GenericNameIsNominal | include/util/QualifiedName.h:90-94 | an instantiation's symbol may itself be a type argument without spoiling uniqueness |
| Monomorphization.CloneCommutes | src/typecheck/Monomorphizer.cpp:58-113 | resolving a cloned annotation equals substituting the bindings into the resolved original |
| Monomorphization.CloneKeepsOwnershipIff | src/typecheck/Monomorphizer.cpp:58-113 | ownership marks agree as well exactly if the original has none where substitution rebuilds a pointer |
| Monomorphization.BuiltinsFaithful | include/typecheck/BiTypeChecker.h:44-53 | the built-in type names stand for the types that print as they do, but for `unit` |
| Monomorphization.ResolvePrints | include/typecheck/BiTypeChecker.h:205-271 | an annotation resolves to the type that prints as the annotation, so ownership, array sizes and the order of parts are as written |
| Monomorphization.ResolvesIff | include/typecheck/BiTypeChecker.h:205-271 | it resolves exactly if every name in it does |
| Monomorphization.ResolveTailless | include/typecheck/BiTypeChecker.h:240-259 | no annotation stands for a variadic function type |
| Monomorphization.SubstituteTailless | src/typecheck/UniSubst.cpp:17-104 | substitution drops variadic tails |
| Monomorphization.Monomorphizer.Contains | src/typecheck/Monomorphizer.cpp:18-19 | finds a key exactly if an equal one has been instantiated |
| Monomorphization.Monomorphizer.TryInstantiateFunc | src/typecheck/Monomorphizer.cpp:15-27 | each key is instantiated once, and each instantiation gets a symbol of its own |
| TokenStream.TokenList.Push | include/lex/Token.h:276-286 | a token is appended, or kept as an error; a cursor at the end moves to it |
| TokenStream.TokenList.RollbackToMark | include/lex/Token.h:300-311 | the splits since the mark are undone in reverse and the cursor is restored |
| TokenStream.ApplyValid | include/lex/Token.h:276-386 | no operation leaves the cursor or a saved cursor at an erased node |
| TokenStream.NestedRollback | include/lex/Token.h:295-326 | after any operations with nested marks, rolling back restores list, cursor, splits and rollback stack, with new tokens appended |
| TokenStream.RollbackRereadsIff | include/lex/Token.h:300-311 | what is left to read is what was left before plus the new tokens, exactly if the mark was not taken at the end or nothing was produced |
| TokenStream.LateMarkSkips | include/lex/Token.h:300-311 | a mark in an empty list, one token, and back to the mark: the token is skipped |
| Lexing.HandleOperator | src/lex/Lexer.cpp:314-364 | the search returns the one token whose characters, by the rules, are the longest prefix of the text, and nothing if no prefix is an operator |
| Lexing.OperatorIsItsText | include/lex/Token.h:113-189 | whatever is lexed as an operator begins with that operator's own text, and no two operators have the same text |
| Lexing.Lexer.LexNextToken | src/lex/Lexer.cpp:49-82 | one call moves tokens from what is pending to the stream; none is lost, doubled or reordered |
| Lexing.Lexer.Exhaust | include/lex/Token.h:328-337 | producing until the end of the file appends exactly the pending tokens, and leaves the end-of-file token to be read |
| Lexing.Lexer.EnsureToken | include/lex/Token.h:262-265 | at the end of the list tokens are produced until there is one to read; what is ahead, produced or not, stays the same |
| Lexing.Lexer.ConsumeToken | include/lex/Token.h:361-367 | reads the first of the tokens ahead, lexing it if need be, and moves past it unless it ends the file |
| Lexing.Lexer.SplitCurrent | include/lex/Token.h:376-386 | the first of the tokens ahead becomes two |
| Numerals.NumeralLexIff | src/lex/Lexer.cpp:218-225 | a number printed in front of a text that does not continue it is read back, before the text's own tokens, if and only if the text is not empty or the number has one digit |
| Numerals.LastDigitIsCut | src/lex/Lexer.cpp:218-225 | at the end of the input the last digit of a longer number is a token of its own |
| TypeGrammar.ParseTypeUnglue | src/Parser.cpp:453-608 | parsing glued closing brackets gives the same type, and leaves the same tokens taken apart, as parsing them unglued |
| TypeParser.Parser.ConsumeClosingAngleBracket | src/Parser.cpp:453-467 | one `>` is consumed, out of a glued token if need be, or nothing happens |
| TypeParser.Parser.ParseQualifiedNameTail | src/Parser.cpp:1781-1816 | reads the `::` parts of a name and gives a `::` without a name back |
| TypeParser.Parser.ParseTypeArguments | src/Parser.cpp:580-602 | type arguments are read completely, or the stream is as before; either way the errors reported on the way stay |
| TypeParser.Parser.ParseCommaSeparated | include/parser/Combinators.h:14-30 | the loop reads one or more types separated by commas |
| TypeParser.Parser.ParseTypeExpr | src/Parser.cpp:502-608 | parsing in place with splits and rollbacks returns the grammar's result, leaves the grammar's rest, keeps all outer rollback points usable, and adds as many errors as specified |
| TypeFaults.TypeErrorsIff | src/Parser.cpp:502-608 | errors are left behind if and only if some type read on the way, in a speculation taken back or not, failed after at least one token |
| TypeFaults.LessLeavesError | src/Parser.cpp:580-602 | `n < (m)` is read as the type `n` with the rest given back, and leaves an error |
| TypeRoundTrip.ParseToks | src/Parser.cpp:502-608 | parsing the tokens of any well-formed type gives the type back and leaves what follows |
| TypeRoundTrip.GluedToksParse | src/Parser.cpp:453-608 | the same however the closing brackets are glued |
| TypeSources.ParsedIsSource | src/Parser.cpp:502-608 | the converse: if anything is parsed as a type, it is a well-formed type, and the tokens consumed, glued ones taken apart, are that type's tokens |
| TextRoundTrip.ReadClosersIff | src/lex/Lexer.cpp:314-364 | a run of closing brackets is read as such; what follows reads as it would alone exactly if it is no `==` or `=>` or the run is even |
| TextRoundTrip.PrintReadsIff | include/ast/Ast.h:58-196 | a printed type followed by a text lexes to its tokens followed by the text's, with the exact condition |
| TextRoundTrip.OneCloserTakesEqual | src/lex/Lexer.cpp:314-364 | in front of `==` or `=>` a pointer type does not read back, and a pointer to it does |
| TextRoundTrip.PrintLexParse | src/Parser.cpp:453-608 | printing, lexing and parsing any type gives it back, and the rest is the following text's tokens, with the exact condition |
| TextRoundTrip.PrintLexParseAll | src/Parser.cpp:453-608 | a text that is one printed type is read back and consumed completely |
| TypeReading.ReadType | src/Parser.cpp:498-608 | lexer, stream and parser together read back every printed type |
| Precedence.ClimbOrders | src/Parser.cpp:882-946 | the tree keeps every token in place; left children bind at least as tightly, right children strictly more; parsing stops at a token that binds less |
| Precedence.OrderedTreeIsUnique | src/Parser.cpp:40-66 | it is the only such tree of the tokens |
| Precedence.ClimbSucceedsIff | src/Parser.cpp:866-946 | climbing succeeds exactly if every operator is followed by an operand, and then reads all of them |
| Precedence.ClimbFlatten | src/Parser.cpp:866-946 | writing an ordered tree down and parsing it gives the tree back and leaves what follows |
| OperatorLevels.DocumentedIff | src/Parser.cpp:40-66 | an operator binds as the language reference says exactly if it is none of the four bitwise and logical ones |
| OperatorLevels.SwappedLevels | docs/language-reference.md:300-316 | `||` and `|`, and `&&` and `&`, have each other's documented levels |
| OperatorLevels.MiddleOperand | src/Parser.cpp:882-912 | of two operators the one that binds more tightly gets the operand between them, and the first if they bind alike |
| OperatorLevels.Arithmetic | src/Parser.cpp:40-66 | `a + b * c` multiplies first, and `a - b - c` subtracts from the left |
| OperatorLevels.PipesNest | src/Parser.cpp:914-937 | a chain of pipes of any length is a nest of calls, each target getting what stands before it as its first argument |
| Precedence.ExprParser.ParseBinaryExpr | src/Parser.cpp:882-946 | the loop that turns pipes into calls as it goes gives the desugared tree, and fails exactly if climbing does or a pipe has no target |
| Precedence.ExprParser.ParseExpr | src/Parser.cpp:866-877 | a whole expression, and the three outcomes |
| CaseLowering.CheckCase | src/typecheck/BiTypeCheckerSynthesize.cpp:1630-1817 | the check accepts exactly valid, unmixed, literal-duplicate-free and exhaustive patterns |
| CaseLowering.CheckEnumPatterns | src/typecheck/BiTypeCheckerSynthesize.cpp:1760-1817 | counting the variants in front of the first wildcard decides exhaustiveness |
| CaseLowering.CheckLiteralPatterns | src/typecheck/BiTypeCheckerSynthesize.cpp:1639-1749 | duplicates, kinds and exhaustiveness of literal patterns are decided as specified |
| CaseLowering.AcceptedNeverTraps | src/codegen/MLIRGenExpr.cpp:1370-1374 | for an accepted `case` some arm is selected for every value of the scrutinee's type |
| CaseLowering.ExhaustiveIff | src/typecheck/BiTypeCheckerSynthesize.cpp:1713-1817 | for enums and booleans valid patterns are exhaustive exactly if no value is left without an arm |
| CaseLowering.IntegersNeedWildcard | src/typecheck/BiTypeCheckerSynthesize.cpp:1737-1747 | for integers as well: without a wildcard some value has no arm |
| CaseLowering.WildcardsAloneAreRefused | src/typecheck/BiTypeCheckerSynthesize.cpp:1750-1758 | a `case` of wildcards only is refused unless the scrutinee is an enum, although every value has an arm |
| CaseLowering.ConstantOfPattern | src/codegen/MLIRGenExpr.cpp:1344-1413 | the pattern written for a value of the scrutinee's type is valid and is compared with exactly that value |
| CaseLowering.ArmRunsIff | src/typecheck/BiTypeCheckerSynthesize.cpp:1666-1675 | an arm of an accepted `case` runs for its value exactly if no earlier arm has the same one; for booleans and characters none has |
| CaseLowering.SameNumberTwice | src/typecheck/BiTypeCheckerSynthesize.cpp:1666-1675 | arms for `1` and `01` are accepted together |
| CaseLowering.SelectIsFirstIff | src/codegen/MLIRGenExpr.cpp:1357-1413 | the arm reached is the first applicable one exactly if no wildcard is overtaken by a later arm |
| CaseLowering.SelectIsAlwaysFirstIff | src/codegen/MLIRGenExpr.cpp:1357-1413 | it is so for all values exactly if every arm behind a wildcard is useless |
| CaseLowering.WildcardIsOvertaken | src/codegen/MLIRGenExpr.cpp:1357-1413 | of a wildcard arm and an arm for `true` behind it, both accepted, the second runs for `true` |
| CaseBlocks.Builder.EmitChain | src/codegen/MLIRGenExpr.cpp:1389-1413 | the emitted blocks compare with the tests in order and end in the default block |
| CaseBlocks.Builder.EmitScalarCase | src/codegen/MLIRGenExpr.cpp:1344-1451 | running the emitted blocks with any value reaches the first arm compared with it, else the last wildcard, else the unreachable block; a merge block is needed exactly if some arm falls through |
| CaseBlocks.AcceptedRunsAnArm | src/codegen/MLIRGenExpr.cpp:1344-1451 | an accepted `case` runs an arm that is a wildcard or stands for the value |
| PayloadLayout.GetTypeSize | src/codegen/MLIRGen.cpp:696-796 | the loops compute the size of a type, or that it has none |
| PayloadLayout.NamedAfterSize | src/codegen/MLIRGen.cpp:696-710 | a sized number takes as many bits as its name says |
| PayloadLayout.EnumSizes | src/codegen/MLIRGen.cpp:742-753 | an enum backed by integers is as wide as they are, and one without payloads as wide as its tag |
| PayloadLayout.ArraySizesAdd | src/codegen/MLIRGen.cpp:721-725 | array sizes add up, and an array of one element takes what the element takes |
| PayloadLayout.ElementsAlignedIff | src/codegen/MLIRGen.cpp:726-741 | in an array of structs a field is aligned in every element exactly if its size divides the struct's, as it does if it divides the largest field's |
| PayloadLayout.ElementsMisaligned | src/codegen/MLIRGen.cpp:726-741 | a struct in whose arrays a field is not aligned |
| PayloadLayout.GetVariantPayloadSize | src/codegen/MLIRGen.cpp:798-807 | the loop computes where the fields of a variant end |
| PayloadLayout.AdvancePayloadOffset | src/codegen/MLIRGen.cpp:809-816 | the field's offset is the multiple of its size nearest behind the fields before, and the field ends at the new running offset |
| PayloadLayout.OffsetsLaidOut | src/codegen/MLIRGen.cpp:798-816 | fields are aligned to their size, do not overlap, have minimal padding, and the last ends where the payload does |
| PayloadLayout.PayloadFits | src/codegen/MLIRGen.cpp:748-752 | every variant fits into the shared payload |
| PayloadLayout.PayloadTight | src/codegen/MLIRGen.cpp:748-752 | the shared payload is no larger than some variant needs |
| PayloadLayout.EnumCell.Construct | src/codegen/MLIRGenExpr.cpp:1035-1072 | every argument is in the payload at its field's offset |
| PayloadLayout.EnumCell.ReadBindings | src/codegen/MLIRGenExpr.cpp:1254-1287 | the bindings are the bytes at the fields' offsets |
| PayloadLayout.ConstructAndMatch | src/codegen/MLIRGenExpr.cpp:1015-1288 | matching on a constructed variant gives back its tag and all its values |
| Imports.LostIff | src/compiler/resolver.cpp:117-172 | a definition is seen by a direct import but not by a transitive one exactly if it is a type class, an instance, or an exported function that is not generic |
| Imports.DirectShowsIff | src/compiler/resolver.cpp:117-172 | what a direct import shows, and in which form: all that is exported, and generic functions, type classes and instances |
| Imports.DirectShowsMore | src/compiler/resolver.cpp:117-172 | what a transitive import sees of a definition a direct import sees as well, and in the same form |
| Imports.Resolver.InjectDefinitions | src/compiler/resolver.cpp:110-174 | inserting from the last to the first puts the surviving definitions in front of the program in their own order |
| Imports.Resolver.ImportModule | src/compiler/resolver.cpp:26-66 | terminates on cyclic graphs; enters what the module reaches, with all its imports; injects each module once, dependencies first; reports an error exactly for broken modules and a missing direct import |
| Imports.Resolver.Resolve | src/compiler/resolver.cpp:12-20 | without errors exactly the reachable modules are injected, as direct imports exactly those no earlier import reaches; an error exactly if some import is faulty |
| Imports.OrderDecides | src/compiler/resolver.cpp:31-33 | behind a module that imports it a module is not imported directly, in front of it it is |
| Diagnostics.GetDiagnosticData | src/util/Utilities.cpp:180-199 | the loop computes the line table |
| Diagnostics.LinesAreTable | src/util/Utilities.cpp:180-199 | the lines cut the text exactly at its line breaks |
| Diagnostics.TableIsUnique | src/util/Utilities.cpp:180-199 | there is only one such table |
| Diagnostics.SplitIsLossless | src/util/Utilities.cpp:180-199 | joining the lines gives the text back, up to a break at its end |
| Diagnostics.SourceIndexToLine | src/util/Utilities.cpp:42-49 | the binary search finds the line number, at least 1 |
| Diagnostics.LineContainsIff | src/util/Utilities.cpp:42-49 | the line found is the one and only line that contains the index |
| Diagnostics.ClusterGroups | src/util/Utilities.cpp:151-176 | every group is in exactly one cluster, in order; clusters are the hulls of their members and follow each other without overlap |
| Diagnostics.OverlapSharesCluster | src/util/Utilities.cpp:151-176 | groups that show a common line are in the same cluster, which shows the line |

## Left out

- Ownership inside other types (structs, tuples, arrays or pointers with owners in them) and the checker's `children` map: the code tracks them only in part.
- Closures, partial application, enum constructors and generic callees as far as ownership goes; the path search for owners that escape through an assignment is a flag on the assignment.
- LinearChecker.LinearTypeChecker.DoExpr: does not model the branch of `check_binary` that registers an assigned variable again; assigning to a variable is a type error, so it is dead.  Tuple destructuring is not modelled either.
- LinearChecker.LinearTypeChecker.DoReturn: whether the type of a returned variable holds a pointer that owns nothing, or a closure or partial application has captured one, is a flag on the `return`.
- LinearSafety.AcceptedIsSafe: covers functions in which owners are used where they are visible, and declared again only in the same block or in blocks beside each other, not inside a block in which the name is visible.  Array names are used only where they are visible and hidden by no declaration inside an `if`, a `while` or a `case` (which declaration a name means is settled when the code is emitted, and where they are used like this it is the latest to run).  `return` is the last statement; a body without one, and a branch whose value is used, ends in no owner, array variable or `*p` of an array, nor in a declaration of one, nor in a branch that ends so; what is returned is a variable, an allocation, a call or no owner.  Owners come from allocations, calls and other variables.  No owner is an element of a literal or assigned to a place; addresses are taken of variables only, not of places inside an owned cell; operands the checker does not walk declare nothing, assign nothing and do not branch; and no other variable, counter or pattern has an owner's name.  Non-terminating runs are covered through their finite prefixes of iterations.
- LinearExactness.AcceptedDisciplinedIff: covers the same functions.  That the run misuses memory when something is overlooked needs that no owner is taken unseen, as `TakenThenNewIsDisciplined` shows.
- LinearExactness.StructuredExact: covers the same functions in which branches and loops are statements or the values of variables that own nothing, what they test and what is returned has none, and no flag for pointers that are stored or returned and no address of an owner occurs; those are refused in any case (`AcceptedOffendsNot`).  A branch inside an expression is covered by `AcceptedDisciplinedIff` and `LinearFlow` only.
- LinearExactness.DisciplinedAcceptedIff: the same, where no owner is taken unseen; `TakenUnseenIsRejected` and `ReturnsBorrowedIsRejected` show what else is refused.
- LinearUses.UseReportedIff: concerns owners that existed before; what is declared inside starts with something.
- Reading an array is one use of all its memory, and naming a pointer to an array counts as a use of it.
- Lexing.Step: does not model strings, character literals, fractions, dots or `#`; a text with these lexes differently, and none of them occurs in a printed type.
- Tokens are produced ahead of the type parser; that marks taken on a token already produced do not depend on it is `RollbackRereadsIff`.  The grammar's errors that come from numerals out of range are left out.
- Lexing.Lexer.EnsureToken: beyond the end-of-file token, which only a rollback can reach, the code waits for a token for ever; this is excluded.
- Monomorphization.CloneCommutes: leaves out applications of generic types, whose resolution registers names as a side effect, and names that resolve to nothing.
- Mangling.KeysHaveOwnSymbols: concerns concrete types with identifier names, disjoint struct and enum names, and non-empty tuples; the compiler prints the unit type and an empty tuple alike.
- Compatibility.CompatibleTransitive: leaves out user enums as edges of the lattice, since all enums share one key there.
- Numerals: `stoul` and `stoll` overflow, and literals outside the scrutinee's width.
- CaseLowering.AcceptedNeverTraps: does not concern enums backed by integers, whose bitwise operators make values that are no variant's.
- PayloadLayout.GetTypeSize: sizes are unbounded; types the code aborts on, and zero-sized fields, which it cannot align, have no size.
- Imports.Resolver.Resolve: the search for files and the parser are a map from names to modules; the same name always means the same file.
- Diagnostics.ClusterGroups: the sorted order is an argument, since the library's sort leaves open how it orders groups on one line; merging reports at the same place is left out.
- Error messages, colours, source locations, MLIR and LLVM themselves, kernels, linking, command line, aliases of modules, and the printing of expressions.
- The conditions under which two arms' bodies have a common type; only their exhaustiveness is modelled.
