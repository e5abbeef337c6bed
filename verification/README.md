# ResultList: binding-aware three-valued combination

This project models `ResultList` from Vespa's document-selection evaluator
(`document/src/vespa/document/select/resultlist.cpp`). A selection expression
over multi-valued fields refers to array positions and map keys through
index variables (`$x`). Evaluated against one document, a sub-expression
gives a list of entries. Each entry pairs a variable binding with the verdict
`True`, `False` or `Invalid` that the sub-expression has under that binding.
`ResultList` holds that list, combines two lists with `&&` and `||`, negates
a list with `!`, collapses a list to one verdict, and compares two lists.

The project has four modules:

- `Verdicts` (`verdicts.dfy`) holds the verdict type `Result` and its
  connectives.
- `VariableMaps` (`variable_maps.dfy`) holds the variable binding
  (`map<string, V>`, where `V` is any type with equality) and `Merge`. `Merge`
  specifies the consistency-checked merge, and lemmas show that it is
  unification.
- `ResultListSpec` (`result_list_spec.dfy`) describes a list as a value:
  - `Collapse` gives the precedence rule: empty is False, then True, then
    False, then Invalid;
  - `Cross` is the binding-consistent cross product in row-major order;
  - `Negated` negates every entry;
  - lemmas cover cardinality, order, membership, and the effect of
    collapsing.
- `ResultLists` (`result_lists.dfy`) holds the imperative code. It has the
  class `ResultList`, whose `results` sequence grows in place through `Add`.
  It also has the loop methods `CombineVariables` (three key loops) and
  `CombineResultsLocal` (a scan with early return and a `foundFalse` flag).
  The class's `&&`, `||` and `!` are nested or single loops of `Add` on a
  fresh list. Each method is proved against the functions of
  `ResultListSpec`.

`combineVariables` changes its `output` argument in place. Here the method
returns the new value of `output` as `merged`, beside the success flag. When
it fails, `merged` is the unchanged `output`: the code returns before any
write. `combineVariables` is a member of `ResultList` in the source, but it
never reads the object, so it is a module-level method here.
`operator&&` and `operator||` have identical loops in the source. They
share one method, `CombineWith`, which takes the connective as a parameter.

## Model

| member | source | states |
|---|---|---|
| VariableMaps.Merge | document/src/vespa/document/select/resultlist.cpp:65-95 | The merge succeeds iff every variable bound in both maps has the same value in both. On success the result binds exactly the variables of either map, each to its value there. |
| VariableMaps.MergeIsUnifier | document/src/vespa/document/select/resultlist.cpp:70-94 | The merge succeeds iff some binding extends both maps. Its result is then the least such binding: every common extension extends it. |
| VariableMaps.MergeCommutes | document/src/vespa/document/select/resultlist.cpp:70-94 | Merging `a` into `b` and `b` into `a` both succeed or both fail, and give the same binding. |
| VariableMaps.MergeDisjoint | document/src/vespa/document/select/resultlist.cpp:70-94 | Bindings over disjoint variables always merge. The result has as many variables as the two maps together. |
| VariableMaps.MergeAssociative | document/src/vespa/document/select/resultlist.cpp:65-95 | Merging (a, b) and then c gives the same outcome as merging a with (b, c), failure included. |
| ResultLists.CombineVariables | document/src/vespa/document/select/resultlist.cpp:65-95 | The three loops return true iff `Merge` succeeds. On true, the new `output` is the merged binding. On false, `output` is unchanged. |
| ResultListSpec.Prevailing | document/src/vespa/document/select/resultlist.cpp:45-55 | The scan's verdict over any entries is True iff some entry is True. It is False iff no entry is True and some entry is False. |
| ResultListSpec.Collapse | document/src/vespa/document/select/resultlist.cpp:38-56 | An empty list collapses to False. Otherwise the result is True iff some entry is True, and False iff none is True and some is False. It is Invalid iff the list is non-empty and every entry is Invalid. |
| ResultLists.CombineResultsLocal | document/src/vespa/document/select/resultlist.cpp:38-56 | The loop with early return and the `foundFalse` flag returns `Collapse` of the list. |
| ResultLists.ResultList.CombineResults | document/src/vespa/document/select/resultlist.cpp:60-63 | Returns the collapsed verdict of the list's entries. |
| ResultListSpec.CollapseByVerdicts | document/src/vespa/document/select/resultlist.cpp:146-148 | Two lists that are both empty or both non-empty, and contain the same verdicts, collapse alike. Their bindings and lengths do not matter. |
| ResultLists.ResultList.Equals | document/src/vespa/document/select/resultlist.cpp:146-148 | `==` holds iff the two lists' collapsed verdicts are equal. |
| ResultLists.ResultList.constructor | document/src/vespa/document/select/resultlist.cpp:9 | A new list is empty. |
| ResultLists.ResultList.FromResult | document/src/vespa/document/select/resultlist.cpp:13-15 | The list built from one verdict holds exactly one entry: the empty binding with that verdict. |
| ResultLists.ResultList.Add | document/src/vespa/document/select/resultlist.cpp:17-21 | Appends exactly one entry at the end. Earlier entries are unchanged. |
| ResultLists.ResultList.CombineWith | document/src/vespa/document/select/resultlist.cpp:97-133 | The nested loops over this list, then over `other`, produce exactly `Cross(this, other, c)`. The result is a fresh list, and neither operand is modified. |
| ResultLists.ResultList.And | document/src/vespa/document/select/resultlist.cpp:97-114 | `&&` gives the consistent pairs, with the merged binding and the conjunction of the verdicts. |
| ResultLists.ResultList.Or | document/src/vespa/document/select/resultlist.cpp:116-133 | The disjunction operator gives the consistent pairs, with the merged binding and the disjunction of the verdicts. |
| ResultListSpec.RowLength | document/src/vespa/document/select/resultlist.cpp:104-110 | One pass of the inner loop adds at most one entry per entry of `b`. It adds exactly one per entry iff every binding of `b` is consistent with the outer entry's binding. |
| ResultListSpec.CrossLength | document/src/vespa/document/select/resultlist.cpp:97-133 | A combination has at most len(a)·len(b) entries. It has exactly len(a)·len(b) iff every pair of bindings is consistent. |
| ResultListSpec.CrossDisjoint | document/src/vespa/document/select/resultlist.cpp:97-133 | When every left binding and every right binding use disjoint variables, the combination has len(a)·len(b) entries. |
| ResultListSpec.RowAppend | document/src/vespa/document/select/resultlist.cpp:104-110 | The inner loop's entries follow `other`'s order: the row over b1 + b2 is the row over b1, then the row over b2. |
| ResultListSpec.CrossAppend | document/src/vespa/document/select/resultlist.cpp:103-111 | Row-major order: the combination of a1 + a2 with b is the combination of a1, then that of a2. |
| ResultListSpec.RowStep | document/src/vespa/document/select/resultlist.cpp:104-110 | One inner-loop step: the pair (e, b[j]) appends the merged binding with the combined verdict when the merge succeeded, and nothing when it failed. |
| ResultListSpec.CrossStep | document/src/vespa/document/select/resultlist.cpp:103-111 | One outer-loop step: entry a[i] appends its whole row after the entries of the earlier rows. |
| ResultListSpec.CrossSingle | document/src/vespa/document/select/resultlist.cpp:103-111 | A one-entry left operand contributes exactly its row. |
| ResultListSpec.RowMember | document/src/vespa/document/select/resultlist.cpp:104-110 | An entry is in a row iff it is the merged binding and the combined verdict of the outer entry with some consistent entry of `b`. |
| ResultListSpec.CrossMember | document/src/vespa/document/select/resultlist.cpp:97-133 | An entry is in a combination iff it is the merged binding and the combined verdict of some consistent pair, one entry from each list. |
| ResultListSpec.ApplyAssociative | document/src/vespa/document/select/resultlist.cpp:103-130 | The verdict connective applied to each consistent pair is associative: combining (x, y) and then z gives the same verdict as combining x with (y, z). |
| ResultListSpec.JoinedAssociative | document/src/vespa/document/select/resultlist.cpp:103-111 | For three entries, pairing (e, f) and then g gives the same entries as pairing e with (f, g), the failed merges and the combined verdict included. |
| ResultListSpec.JoinedCross | document/src/vespa/document/select/resultlist.cpp:97-133 | What one pair (e, f) produces, combined with a list d, is e's row over f's row over d. |
| ResultListSpec.RowCross | document/src/vespa/document/select/resultlist.cpp:97-133 | The row of e over b, combined with d, is e's row over the combination of b with d. |
| ResultListSpec.CrossAssociative | document/src/vespa/document/select/resultlist.cpp:97-133 | `(a op b) op d` and `a op (b op d)` give the same list, in the same order, for `&&` and for `||`. |
| ResultListSpec.CrossOfUnbound | document/src/vespa/document/select/resultlist.cpp:97-114 | Two single-verdict lists with no variables combine into one entry, which carries the verdicts' own combination. The result collapses to that verdict. |
| ResultListSpec.SharedVariableDisjunction | document/src/vespa/document/select/resultlist.cpp:116-133 | The left list [x=v1 → True] and the right list [x=v1 → False, x=v2 → True], with v1 ≠ v2, combine under the disjunction operator to the single entry x=v1 with verdict `True || False`. The pair that binds x inconsistently is dropped. |
| ResultListSpec.Negated | document/src/vespa/document/select/resultlist.cpp:135-144 | The negated list has the same length. Entry i keeps binding i and has the negation of verdict i. |
| ResultLists.ResultList.Not | document/src/vespa/document/select/resultlist.cpp:135-144 | `!` gives a fresh list equal to the negated entries of this list, in the same order. |
| ResultListSpec.NegatedTwice | document/src/vespa/document/select/resultlist.cpp:135-144 | Negating a list twice gives the same list back. |
| ResultListSpec.NegatedEmptyCollapse | document/src/vespa/document/select/resultlist.cpp:135-148 | `!empty` collapses to False, like `empty`, so `!empty == empty` holds. Negating the collapsed verdict of `empty` gives True, so negation does not commute with collapse. |

## Left out

- `print` (resultlist.cpp:23-34) is a diagnostic dump. It relies on the
  string forms of bindings and verdicts, which are not part of this model.
- Result's own `&&`, `||`, `!` and `==` are defined in result.cpp, which is
  not part of this model. `Verdicts.Result` gives them the three-valued
  table: False dominates a conjunction, True dominates a disjunction, and
  negation swaps True and False and keeps Invalid. Only `NegatedTwice`,
  `NegatedEmptyCollapse` and `ApplyAssociative` (and through it
  `JoinedAssociative`, `JoinedCross`, `RowCross` and `CrossAssociative`)
  depend on that table.
- The shared `Result` singletons are referred to by address in the source
  (line 20). Here they are plain datatype values, and pointer identity is not
  modelled.
- `fieldvalue::VariableMap` and `IndexValue` are not part of this model.
  Variable names are strings. Bound values have an opaque type parameter
  with equality.
- `std::map` iterates in sorted key order. The loops of `CombineVariables`
  take the keys in an unspecified order instead. The outcome does not
  depend on that order.
- The destructor (line 11) has an empty body and is not modelled.
- `CombineVariables`: value equality is symmetric, so the source's second
  check loop (resultlist.cpp:81-88) can no longer fail once the first one has
  passed, and it adds nothing. The model keeps the loop as written.
