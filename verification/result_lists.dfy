/**
 The result list of the document-selection evaluator: an ordered list of
 (variable binding, verdict) entries that grows in place, with the
 binding-aware `&&`, `||` and `!` that build new lists by nested loops,
 the collapse of a list to one verdict, and equality of lists by their
 collapsed verdicts.
 */
module ResultLists {
  import opened Verdicts
  import opened VariableMaps
  import opened ResultListSpec

  /**
   Merges `input` into `output` as `combineVariables` does: first every
   variable of `output` that `input` also binds is checked, then every
   variable of `input` that `output` also binds, and only when both checks
   pass are the variables of `input` written into `output`. `merged` is the
   value `output` has afterwards; on failure nothing has been written.
   */
  method CombineVariables<V(==)>(output: VariableMap<V>, input: VariableMap<V>) returns (ok: bool, merged: VariableMap<V>)
    ensures ok <==> Merge(output, input).Some?
    ensures ok ==> merged == Merge(output, input).value
    ensures !ok ==> merged == output
  {
    // First, every variable of output that input binds too must agree.
    var todo := output.Keys;
    while todo != {}
      invariant todo <= output.Keys
      invariant forall k :: k in output && k !in todo && k in input ==> output[k] == input[k]
      decreases todo
    {
      var k :| k in todo;
      if k in input && input[k] != output[k] {
        return false, output;
      }
      todo := todo - {k};
    }
    // Then the same check from the side of input. Value equality is
    // symmetric, so after the first loop this one can no longer fail.
    todo := input.Keys;
    while todo != {}
      invariant todo <= input.Keys
      invariant Consistent(output, input)
      decreases todo
    {
      var k :| k in todo;
      if k in output && output[k] != input[k] {
        return false, output;
      }
      todo := todo - {k};
    }
    // The bindings agree: write every variable of input into output.
    merged := output;
    todo := input.Keys;
    while todo != {}
      invariant todo <= input.Keys
      invariant merged.Keys == output.Keys + (input.Keys - todo)
      invariant forall k :: k in input && k !in todo ==> merged[k] == input[k]
      invariant forall k :: k in output && (k !in input || k in todo) ==> merged[k] == output[k]
      decreases todo
    {
      var k :| k in todo;
      merged := merged[k := input[k]];
      todo := todo - {k};
    }
    assert merged == output + input;
    ok := true;
  }

  /**
   Collapses a list to one verdict: an empty list is False; otherwise the
   scan stops at the first True entry, and after a full scan a False entry
   seen on the way gives False and none gives Invalid.
   */
  method CombineResultsLocal<V>(results: seq<ResultPair<V>>) returns (r: Result)
    ensures r == Collapse(results)
  {
    if |results| == 0 {
      return False;
    }
    var foundFalse := false;
    for i := 0 to |results|
      invariant !Occurs(results[..i], True)
      invariant foundFalse <==> Occurs(results[..i], False)
    {
      assert results[..i + 1] == results[..i] + [results[i]];
      if results[i].result == True {
        assert results[..i + 1][i] == results[i];
        assert Occurs(results, True) by { assert results[i].result == True; }
        return True;
      } else if results[i].result == False {
        foundFalse := true;
      }
    }
    assert results[..|results|] == results;
    r := if foundFalse then False else Invalid;
  }

  class ResultList<V(==)> {
    var results: seq<ResultPair<V>>

    /** An empty list. */
    constructor ()
      ensures results == []
    {
      results := [];
    }

    /** The list holding one verdict under the empty binding. */
    constructor FromResult(r: Result)
      ensures results == [ResultPair(map[], r)]
    {
      results := [];
      new;
      Add(map[], r);
    }

    /** Appends one entry at the end; the earlier entries are untouched. */
    method Add(variables: VariableMap<V>, r: Result)
      modifies this
      ensures results == old(results) + [ResultPair(variables, r)]
    {
      results := results + [ResultPair(variables, r)];
    }

    /** The verdict this whole list stands for. */
    method CombineResults() returns (r: Result)
      ensures r == Collapse(results)
    {
      r := CombineResultsLocal(results);
    }

    /**
     Pairs every entry of this list with every entry of `other`, outer loop
     over this list, inner loop over `other`; a pair whose bindings disagree
     is skipped, any other adds the merged binding with the two verdicts
     combined by `c`. Neither operand changes.
     */
    method CombineWith(other: ResultList<V>, c: Connective) returns (res: ResultList<V>)
      ensures fresh(res)
      ensures res.results == Cross(results, other.results, c)
    {
      res := new ResultList();
      var a, b := results, other.results;
      for i := 0 to |a|
        invariant fresh(res)
        invariant res.results == Cross(a[..i], b, c)
      {
        ghost var done := res.results;
        for j := 0 to |b|
          invariant fresh(res)
          invariant res.results == done + Row(a[i], b[..j], c)
        {
          var ok, vars := CombineVariables(a[i].variables, b[j].variables);
          if ok {
            res.Add(vars, Apply(c, a[i].result, b[j].result));
          }
          RowStep(a[i], b, j, c, ok, vars);
        }
        assert b[..|b|] == b;
        CrossStep(a, b, i, c);
      }
      assert a[..|a|] == a;
    }

    /** `this && other`: the consistent pairs, verdicts combined by conjunction. */
    method And(other: ResultList<V>) returns (res: ResultList<V>)
      ensures fresh(res)
      ensures res.results == Cross(results, other.results, Conj)
    {
      res := CombineWith(other, Conj);
    }

    /** `this || other`: the consistent pairs, verdicts combined by disjunction. */
    method Or(other: ResultList<V>) returns (res: ResultList<V>)
      ensures fresh(res)
      ensures res.results == Cross(results, other.results, Disj)
    {
      res := CombineWith(other, Disj);
    }

    /** `!this`: same bindings in the same order, every verdict negated. */
    method Not() returns (res: ResultList<V>)
      ensures fresh(res)
      ensures res.results == Negated(results)
    {
      res := new ResultList();
      for i := 0 to |results|
        invariant fresh(res)
        invariant res.results == Negated(results[..i])
      {
        res.Add(results[i].variables, results[i].result.Not());
        assert results[..i + 1][..i] == results[..i];
      }
      assert results[..|results|] == results;
    }

    /**
     `this == other`: the two lists stand for the same verdict, whatever
     their entries and their lengths.
     */
    method Equals(other: ResultList<V>) returns (eq: bool)
      ensures eq <==> Collapse(results) == Collapse(other.results)
    {
      var mine := CombineResultsLocal(results);
      var theirs := CombineResultsLocal(other.results);
      eq := mine == theirs;
    }
  }
}
