/** Client evidence values in canonical order: validation and the merge of two lists. */
module IdentityEvidence {
  import opened Wrappers
  import opened Strings

  datatype Evidence = Evidence(name: string, value: string)

  const MAX_EVIDENCE := 8192

  predicate Before(x: Evidence, y: Evidence) {
    Less(x.name, y.name) || (x.name == y.name && Less(x.value, y.value))
  }

  lemma BeforeTotal(x: Evidence, y: Evidence)
    ensures x == y || Before(x, y) || Before(y, x)
    ensures !(Before(x, y) && Before(y, x)) && (x == y ==> !Before(x, y))
  {
    LessTrichotomy(x.name, y.name);
    LessTrichotomy(x.value, y.value);
  }

  lemma BeforeTransitive(x: Evidence, y: Evidence, z: Evidence)
    requires Before(x, y) && Before(y, z)
    ensures Before(x, z)
  {
    if Less(x.name, y.name) && Less(y.name, z.name) {
      LessTransitive(x.name, y.name, z.name);
    } else if x.name == y.name && y.name == z.name {
      LessTransitive(x.value, y.value, z.value);
    }
  }

  // ---------- Canonical lists ----------

  predicate Sorted(values: seq<Evidence>) {
    forall i, j | 0 <= i < j < |values| :: Before(values[i], values[j])
  }

  function Elements(values: seq<Evidence>): set<Evidence> {
    set x | x in values
  }

  predicate UniqueNames(values: seq<Evidence>) {
    forall i, j | 0 <= i < j < |values| :: values[i].name != values[j].name
  }

  /** Well-formed values, at most the durable count, strictly ordered; attribute names are unique too. */
  predicate Canonical(values: seq<Evidence>, singleNames: bool) {
    && |values| <= MAX_EVIDENCE
    && (forall i | 0 <= i < |values| :: ValidName(values[i].name) && ValidText(values[i].value, false))
    && Sorted(values)
    && (singleNames ==> UniqueNames(values))
  }

  method Validate(values: seq<Evidence>, singleNames: bool) returns (ok: bool)
    ensures ok <==> Canonical(values, singleNames)
  {
    hide ValidName, ValidText, Before;
    if |values| > MAX_EVIDENCE { return false; }
    var seenPairs: set<Evidence> := {};
    var seenNames: set<string> := {};
    for index := 0 to |values|
      invariant seenPairs == Elements(values[..index])
      invariant singleNames ==> seenNames == set x | x in values[..index] :: x.name
      invariant Canonical(values[..index], singleNames)
    {
      var value := values[index];
      if !ValidName(value.name) || !ValidText(value.value, false) { return false; }
      if index > 0 { BeforeTotal(value, values[index - 1]); }
      if index > 0 && Before(value, values[index - 1]) { return false; }
      if value in seenPairs {
        BeforeTotal(value, value);
        return false;
      }
      if singleNames && value.name in seenNames { return false; }
      ExtendSorted(values[..index], value);
      assert values[..index + 1] == values[..index] + [value];
      seenPairs := seenPairs + {value};
      if singleNames { seenNames := seenNames + {value.name}; }
    }
    assert values[..|values|] == values;
    ok := true;
  }

  lemma ExtendSorted(values: seq<Evidence>, x: Evidence)
    requires Sorted(values) && (values != [] ==> Before(values[|values| - 1], x))
    ensures Sorted(values + [x])
  {
    hide Before;
    forall i | 0 <= i < |values| ensures Before(values[i], x) {
      if i < |values| - 1 {
        BeforeTransitive(values[i], values[|values| - 1], x);
      }
    }
  }

  /** A canonical list is determined by its elements. */
  lemma {:induction false} SortedUnique(a: seq<Evidence>, b: seq<Evidence>)
    requires Sorted(a) && Sorted(b) && Elements(a) == Elements(b)
    ensures a == b
  {
    hide Before;
    assert a != [] ==> a[0] in Elements(a);
    assert b != [] ==> b[0] in Elements(b);
    if a != [] {
      SortedHead(a, b[0]);
      SortedHead(b, a[0]);
      BeforeTotal(a[0], b[0]);
      SortedTail(a);
      SortedTail(b);
      SortedUnique(a[1..], b[1..]);
      assert a == [a[0]] + a[1..] && b == [b[0]] + b[1..];
    }
  }

  lemma SortedHead(values: seq<Evidence>, x: Evidence)
    requires Sorted(values) && x in Elements(values)
    ensures x == values[0] || Before(values[0], x)
  {
  }

  lemma SortedTail(values: seq<Evidence>)
    requires Sorted(values) && values != []
    ensures Sorted(values[1..]) && Elements(values[1..]) == Elements(values) - {values[0]}
  {
    hide Before;
    forall x | x in values[1..] ensures x != values[0] {
      BeforeTotal(x, values[0]);
    }
    assert forall x | x in values :: x == values[0] || x in values[1..];
  }

  lemma {:induction false} SortedSize(values: seq<Evidence>)
    requires Sorted(values)
    ensures |values| == |Elements(values)|
  {
    if values != [] {
      SortedTail(values);
      SortedSize(values[1..]);
      assert values[0] in Elements(values);
    }
  }

  // ---------- Merging ----------

  /** Protocol names that may carry only one value per identity. */
  predicate AssociationName(name: string) {
    || name == "claude.agent_id" || name == "claude.parent_agent_id" || name == "claude.session_id"
    || name == "codex.session_id" || name == "codex.thread_id" || name == "codex.parent_thread_id"
    || name == "codex.forked_from_thread_id"
  }

  predicate Stable(name: string, singleNames: bool) {
    singleNames || AssociationName(name)
  }

  /** No stable name has two values. */
  ghost predicate Consistent(values: set<Evidence>, singleNames: bool) {
    forall x, y | x in values && y in values && x.name == y.name && Stable(x.name, singleNames) :: x.value == y.value
  }

  function Insert(values: seq<Evidence>, x: Evidence): (r: seq<Evidence>)
    requires Sorted(values)
    ensures Elements(r) == Elements(values) + {x}
    ensures Sorted(r)
  {
    if values == [] then [x]
    else if x == values[0] then assert x in values; values
    else if Before(x, values[0]) then
      PrependSorted(values, x);
      [x] + values
    else
      SortedTail(values);
      BeforeTotal(x, values[0]);
      var rest := Insert(values[1..], x);
      InsertedSorted(values, x, rest);
      [values[0]] + rest
  }

  lemma PrependSorted(values: seq<Evidence>, x: Evidence)
    requires Sorted(values) && values != [] && Before(x, values[0])
    ensures Sorted([x] + values) && Elements([x] + values) == Elements(values) + {x}
  {
    hide Before;
    forall i | 0 <= i < |values| ensures Before(x, values[i]) {
      if i > 0 { BeforeTransitive(x, values[0], values[i]); }
    }
  }

  lemma InsertedSorted(values: seq<Evidence>, x: Evidence, rest: seq<Evidence>)
    requires Sorted(values) && values != [] && Before(values[0], x)
    requires Sorted(rest) && Elements(rest) == Elements(values[1..]) + {x}
    ensures Sorted([values[0]] + rest) && Elements([values[0]] + rest) == Elements(values) + {x}
  {
    hide Before;
    forall i | 0 <= i < |rest| ensures Before(values[0], rest[i]) {
      assert rest[i] in Elements(rest);
      if rest[i] != x { assert rest[i] in values[1..]; }
    }
    SortedTail(values);
    assert Elements([values[0]] + rest) == {values[0]} + Elements(rest);
    assert values[0] in Elements(values);
  }

  /** The canonical list of both inputs' values. */
  function Union(a: seq<Evidence>, b: seq<Evidence>): (r: seq<Evidence>)
    requires Sorted(a)
    ensures Sorted(r) && Elements(r) == Elements(a) + Elements(b)
    decreases |b|
  {
    if b == [] then assert Elements(b) == {}; a
    else
      assert Elements(b) == {b[0]} + Elements(b[1..]);
      Union(Insert(a, b[0]), b[1..])
  }

  /** Collects values, stopping at the first stable name whose value changed. */
  method Collect(source: seq<Evidence>, singleNames: bool, named: map<string, string>, values: set<Evidence>)
    returns (ok: bool, named': map<string, string>, values': set<Evidence>)
    requires Indexed(named, values, singleNames)
    ensures ok <==> Consistent(values + Elements(source), singleNames)
    ensures ok ==> values' == values + Elements(source) && Indexed(named', values', singleNames)
  {
    hide AssociationName;
    named', values' := named, values;
    for i := 0 to |source|
      invariant values' == values + Elements(source[..i])
      invariant Indexed(named', values', singleNames)
    {
      var x := source[i];
      assert x in Elements(source);
      if Stable(x.name, singleNames) {
        if x.name in named' && named'[x.name] != x.value {
          var clash := Evidence(x.name, named'[x.name]);
          assert clash in values';
          assert clash in values + Elements(source);
          assert x in values + Elements(source);
          return false, named', values';
        }
        named' := named'[x.name := x.value];
      }
      values' := values' + {x};
      assert source[..i + 1] == source[..i] + [x];
    }
    assert source[..|source|] == source;
    ok := true;
  }

  /** named holds the value of every stable name among the values. */
  ghost predicate Indexed(named: map<string, string>, values: set<Evidence>, singleNames: bool) {
    && (forall x | x in values && Stable(x.name, singleNames) :: x.name in named && named[x.name] == x.value)
    && (forall name | name in named :: Stable(name, singleNames) && Evidence(name, named[name]) in values)
  }

  lemma LargerInconsistent(a: set<Evidence>, b: set<Evidence>, singleNames: bool)
    ensures Consistent(a + b, singleNames) ==> Consistent(a, singleNames) && Consistent(b, singleNames)
  {
    assert forall x | x in a :: x in a + b;
    assert forall x | x in b :: x in a + b;
  }

  /** The merge of two evidence lists: nothing when a stable name changed, else the canonical union,
      whatever order the collected values are visited in. */
  method Merge(existing: seq<Evidence>, incoming: seq<Evidence>, singleNames: bool) returns (r: Option<seq<Evidence>>)
    requires Sorted(existing)
    ensures r.Some? <==> Consistent(Elements(existing) + Elements(incoming), singleNames)
    ensures r.Some? ==> r.value == Union(existing, incoming)
  {
    hide Before, AssociationName, Union;
    var ok, named, values := Collect(existing, singleNames, map[], {});
    assert {} + Elements(existing) == Elements(existing);
    if !ok {
      LargerInconsistent(Elements(existing), Elements(incoming), singleNames);
      return None;
    }
    ok, named, values := Collect(incoming, singleNames, named, values);
    if !ok { return None; }
    var merged: seq<Evidence> := [];
    ghost var all := values;
    while values != {}
      invariant Sorted(merged) && Elements(merged) + values == all
      decreases |values|
    {
      var x :| x in values;
      merged := Insert(merged, x);
      values := values - {x};
    }
    SortedUnique(merged, Union(existing, incoming));
    r := Some(merged);
  }
}
