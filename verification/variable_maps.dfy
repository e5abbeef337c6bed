/**
 Variable bindings: a map from index-variable name to the value it is bound to
 (an array position or a map key in the document). Values are opaque; only
 their equality matters.

 `Merge` is the specification of the consistency-checked merge that
 `ResultList::combineVariables` performs in place: it fails when the two
 bindings disagree on a shared variable, and otherwise yields their union.
 */
module VariableMaps {

  datatype Option<T> = None | Some(value: T)

  type VariableMap<V> = map<string, V>

  /** Every variable bound by both maps is bound to the same value. */
  predicate Consistent<V(==)>(output: VariableMap<V>, input: VariableMap<V>)
  {
    forall k :: k in output && k in input ==> output[k] == input[k]
  }

  /** `m` binds every variable of `sub`, to the same value. */
  ghost predicate Extends<V>(m: VariableMap<V>, sub: VariableMap<V>)
  {
    sub.Keys <= m.Keys && forall k :: k in sub ==> m[k] == sub[k]
  }

  /**
   The merge of `input` into `output`: None when they disagree on a shared
   variable; otherwise the binding of every variable of either map, each to
   the value it has there.
   */
  function Merge<V(==)>(output: VariableMap<V>, input: VariableMap<V>): (r: Option<VariableMap<V>>)
    ensures r.Some? <==> Consistent(output, input)
    ensures r.Some? ==> r.value.Keys == output.Keys + input.Keys
    ensures r.Some? ==> Extends(r.value, output) && Extends(r.value, input)
  {
    if Consistent(output, input) then Some(output + input) else None
  }

  /**
   Merge is unification: it succeeds exactly when some binding extends both
   maps, and then its result is the least such binding (every common
   extension extends it).
   */
  lemma MergeIsUnifier<V>(output: VariableMap<V>, input: VariableMap<V>)
    ensures Merge(output, input).Some? <==> exists m :: Extends(m, output) && Extends(m, input)
    ensures Merge(output, input).Some? ==>
      forall m :: Extends(m, output) && Extends(m, input) ==> Extends(m, Merge(output, input).value)
  {
  }

  /** The merge does not depend on which map is written into which. */
  lemma MergeCommutes<V>(a: VariableMap<V>, b: VariableMap<V>)
    ensures Merge(a, b) == Merge(b, a)
  {
    if Merge(a, b).Some? {
      assert Merge(b, a).Some?;
      var ab, ba := Merge(a, b).value, Merge(b, a).value;
      assert ab.Keys == ba.Keys;
      forall k | k in ab
        ensures ab[k] == ba[k]
      {
        if k in a { assert ab[k] == a[k] == ba[k]; } else { assert ab[k] == b[k] == ba[k]; }
      }
      assert ab == ba;
    } else {
      assert !Consistent(b, a);
    }
  }

  /**
   Bindings over disjoint variables always merge, and the merged binding has
   as many variables as the two together.
   */
  lemma MergeDisjoint<V>(a: VariableMap<V>, b: VariableMap<V>)
    requires a.Keys !! b.Keys
    ensures Merge(a, b).Some?
    ensures |Merge(a, b).value| == |a| + |b|
  {
  }

  /**
   Merging is associative, failures included: merging `a` with `b` and then
   with `c` succeeds exactly when merging `b` with `c` and then `a` with that
   succeeds, and both give the same binding.
   */
  lemma MergeAssociative<V>(a: VariableMap<V>, b: VariableMap<V>, c: VariableMap<V>)
    ensures (match Merge(a, b) case None => None case Some(ab) => Merge(ab, c))
         == (match Merge(b, c) case None => None case Some(bc) => Merge(a, bc))
  {
    var pairwise := Consistent(a, b) && Consistent(b, c) && Consistent(a, c);
    if Merge(a, b).Some? && Merge(Merge(a, b).value, c).Some? {
      var ab := Merge(a, b).value;
      assert Consistent(a, c) && Consistent(b, c) by {
        forall k | k in c ensures (k in a ==> a[k] == c[k]) && (k in b ==> b[k] == c[k]) {
          if k in a { assert ab[k] == a[k]; }
          if k in b { assert ab[k] == b[k]; }
        }
      }
    }
    if Merge(b, c).Some? && Merge(a, Merge(b, c).value).Some? {
      var bc := Merge(b, c).value;
      assert Consistent(a, b) && Consistent(a, c) by {
        forall k | k in a ensures (k in b ==> a[k] == b[k]) && (k in c ==> a[k] == c[k]) {
          if k in b { assert bc[k] == b[k]; }
          if k in c { assert bc[k] == c[k]; }
        }
      }
    }
    if pairwise {
      var ab, bc := Merge(a, b).value, Merge(b, c).value;
      assert Consistent(ab, c);
      assert Consistent(a, bc);
      var l, r := Merge(ab, c).value, Merge(a, bc).value;
      assert l.Keys == r.Keys;
      forall k | k in l ensures l[k] == r[k] {
        if k in a { assert l[k] == a[k] == r[k]; }
        else if k in b { assert l[k] == b[k] == r[k]; }
        else { assert l[k] == c[k] == r[k]; }
      }
      assert l == r;
    }
  }
}
