/** References to Secrets: their order, and the sorted list of distinct ones that the gateway watches
    (gateway/internal/exposure/exposure.go). */
module RefOrder {
  import opened SecretApi
  import opened Snapshot

  /** SecretRef.Compare: by namespace, then by name. */
  predicate RefLe(a: Ref, b: Ref) {
    if a.namespace == b.namespace then Le(a.name, b.name) else Le(a.namespace, b.namespace)
  }

  lemma RefLeTotal(a: Ref, b: Ref)
    ensures RefLe(a, b) || RefLe(b, a)
  {
    LeTotal(a.namespace, b.namespace);
    LeTotal(a.name, b.name);
  }

  lemma RefLeTransitive(a: Ref, b: Ref, c: Ref)
    requires RefLe(a, b) && RefLe(b, c)
    ensures RefLe(a, c)
  {
    if a.namespace == b.namespace == c.namespace {
      LeTransitive(a.name, b.name, c.name);
    } else if a.namespace == c.namespace {
      LeAntisymmetric(a.namespace, b.namespace);
    } else if a.namespace != b.namespace && b.namespace != c.namespace {
      LeTransitive(a.namespace, b.namespace, c.namespace);
    }
  }

  /** In order, each once. */
  ghost predicate SortedRefs(refs: seq<Ref>) {
    forall i, j :: 0 <= i < j < |refs| ==> RefLe(refs[i], refs[j])
  }

  predicate Distinct(refs: seq<Ref>) {
    forall i, j :: 0 <= i < j < |refs| ==> refs[i] != refs[j]
  }

  /** A sorted list has the references of one namespace together, by name, and the namespaces in order. */
  lemma SortedByNamespace(refs: seq<Ref>, i: nat, j: nat, k: nat)
    requires SortedRefs(refs) && i < j < k < |refs|
    ensures Le(refs[i].namespace, refs[j].namespace)
    ensures refs[i].namespace == refs[j].namespace ==> Le(refs[i].name, refs[j].name)
    ensures refs[i].namespace == refs[k].namespace ==> refs[j].namespace == refs[i].namespace
  {
    assert RefLe(refs[i], refs[j]) && RefLe(refs[j], refs[k]);
    LeTotal(refs[i].namespace, refs[i].namespace);
    if refs[i].namespace == refs[k].namespace && refs[j].namespace != refs[i].namespace {
      LeAntisymmetric(refs[i].namespace, refs[j].namespace);
    }
  }

  function InsertRef(r: Ref, sorted: seq<Ref>): seq<Ref> {
    if sorted == [] || RefLe(r, sorted[0]) then [r] + sorted else [sorted[0]] + InsertRef(r, sorted[1..])
  }

  function SortRefs(refs: seq<Ref>): seq<Ref> {
    if refs == [] then [] else InsertRef(refs[0], SortRefs(refs[1..]))
  }

  lemma {:induction false} InsertRefAdds(r: Ref, sorted: seq<Ref>)
    ensures |InsertRef(r, sorted)| == |sorted| + 1
    ensures forall x :: x in InsertRef(r, sorted) <==> x == r || x in sorted
  {
    if sorted != [] && !RefLe(r, sorted[0]) {
      InsertRefAdds(r, sorted[1..]);
      assert sorted == [sorted[0]] + sorted[1..];
    }
  }

  lemma {:induction false} InsertRefSorts(r: Ref, sorted: seq<Ref>)
    requires SortedRefs(sorted) && Distinct(sorted) && r !in sorted
    ensures SortedRefs(InsertRef(r, sorted)) && Distinct(InsertRef(r, sorted))
  {
    if sorted == [] {
    } else if RefLe(r, sorted[0]) {
      forall j | 0 <= j < |sorted| ensures RefLe(r, sorted[j]) && sorted[j] != r {
        if j > 0 { RefLeTransitive(r, sorted[0], sorted[j]); }
      }
    } else {
      var rest := InsertRef(r, sorted[1..]);
      InsertRefSorts(r, sorted[1..]);
      InsertRefAdds(r, sorted[1..]);
      forall j | 0 <= j < |rest| ensures RefLe(sorted[0], rest[j]) && rest[j] != sorted[0] {
        assert rest[j] in rest;
        if rest[j] == r {
          RefLeTotal(r, sorted[0]);
        } else {
          var m :| 0 <= m < |sorted[1..]| && sorted[1..][m] == rest[j];
          assert RefLe(sorted[0], sorted[m + 1]) && sorted[0] != sorted[m + 1];
        }
      }
    }
  }

  /** Sorting distinct references gives the same references in order. */
  lemma {:induction false} SortRefsIsSorting(refs: seq<Ref>)
    requires Distinct(refs)
    ensures SortedRefs(SortRefs(refs)) && Distinct(SortRefs(refs)) && |SortRefs(refs)| == |refs|
    ensures forall x :: x in SortRefs(refs) <==> x in refs
  {
    if refs != [] {
      SortRefsIsSorting(refs[1..]);
      assert refs == [refs[0]] + refs[1..];
      assert refs[0] !in refs[1..];
      InsertRefAdds(refs[0], SortRefs(refs[1..]));
      InsertRefSorts(refs[0], SortRefs(refs[1..]));
    }
  }

  /** The references of a list in order, each once. */
  method SortedDistinct(refs: seq<Ref>) returns (out: seq<Ref>)
    ensures SortedRefs(out) && Distinct(out) && forall r :: r in out <==> r in refs
  {
    var seen: set<Ref> := {};
    var list: seq<Ref> := [];
    for i := 0 to |refs|
      invariant Distinct(list) && (forall r :: r in list <==> r in refs[..i]) && (forall r :: r in seen <==> r in list)
    {
      assert refs[..i + 1] == refs[..i] + [refs[i]];
      if refs[i] !in seen {
        seen := seen + {refs[i]};
        list := list + [refs[i]];
      }
    }
    assert refs[..|refs|] == refs;
    SortRefsIsSorting(list);
    out := SortRefs(list);
  }
}
