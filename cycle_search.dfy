/** xsd2xml.py, `check_circular_references` and `_has_circular_reference_rng`: a depth-first
    search over the `ref` children of the named patterns. The search shares one `visited`
    set and one `path` list, updated in place, and backs out of both when a branch finds
    nothing. */
module CycleSearch {
  import opened Wrappers
  import opened RngNode

  /** The pattern a child names, when it is a `ref` to a known pattern. */
  function RefName(patterns: map<string, Node>, child: Node): (r: Option<string>)
    ensures r.Some? ==> r.value in patterns
  {
    var name := Get(child, "name");
    if HasLocalName(child.tag, "ref") && name.Some? && name.value in patterns then name else None
  }

  /** Some direct child of `def` refers to the known pattern `n`. */
  predicate Refers(patterns: map<string, Node>, def: Node, n: string) {
    exists j :: 0 <= j < |def.children| && RefName(patterns, def.children[j]) == Some(n)
  }

  /** What one search leaves: its answer and the state of the shared set and list. */
  datatype Outcome = Outcome(found: bool, visited: set<string>, path: seq<string>)

  /** `_has_circular_reference_rng(def, visited, path, id)` on entry state `V` and `P`.
      A search that finds nothing leaves the state as it found it. */
  function Search(patterns: map<string, Node>, V: set<string>, P: seq<string>, def: Node, id: string): (r: Outcome)
    ensures !r.found ==> r.visited == V && r.path == P
    decreases |(patterns.Keys + {id}) - V|, 0, 0
  {
    if id in V then Outcome(true, V, P + [id])
    else
      CardStep(patterns.Keys, V, id);
      var r := SearchRefs(patterns, V + {id}, P + [id], def, 0);
      if r.found then r else Outcome(false, r.visited - {id}, r.path[..|r.path| - 1])
  }

  /** The loop of `_has_circular_reference_rng` over the children of `def`, from child `i`
      on. */
  function SearchRefs(patterns: map<string, Node>, V: set<string>, P: seq<string>, def: Node, i: nat): (r: Outcome)
    requires i <= |def.children|
    ensures !r.found ==> r.visited == V && r.path == P
    decreases |patterns.Keys - V|, 1, |def.children| - i
  {
    if i == |def.children| then Outcome(false, V, P)
    else
      match RefName(patterns, def.children[i])
      case None => SearchRefs(patterns, V, P, def, i + 1)
      case Some(n) =>
        assert patterns.Keys + {n} == patterns.Keys;
        var r := Search(patterns, V, P, patterns[n], n);
        if r.found then r else SearchRefs(patterns, r.visited, r.path, def, i + 1)
  }

  /** Visiting a new name leaves fewer names to visit. */
  lemma CardStep(names: set<string>, V: set<string>, id: string)
    requires id !in V
    ensures |names - (V + {id})| < |(names + {id}) - V|
  {
    assert (names + {id}) - V == (names - (V + {id})) + {id};
  }

  /** The `visited` set and `path` list the search shares. */
  class SearchState {
    var visited: set<string>
    var path: seq<string>

    constructor()
      ensures visited == {} && path == []
    {
      visited := {};
      path := [];
    }
  }

  /** `_has_circular_reference_rng`, updating `state` in place. */
  method HasCircularReference(patterns: map<string, Node>, def: Node, state: SearchState, id: string) returns (found: bool)
    modifies state
    ensures var r := Search(patterns, old(state.visited), old(state.path), def, id);
      found == r.found && state.visited == r.visited && state.path == r.path
    decreases |(patterns.Keys + {id}) - state.visited|, 0
  {
    if id in state.visited {
      state.path := state.path + [id];
      return true;
    }
    CardStep(patterns.Keys, state.visited, id);
    state.visited := state.visited + {id};
    state.path := state.path + [id];
    found := SearchChildren(patterns, def, state);
    if found {
      return true;
    }
    state.path := state.path[..|state.path| - 1];
    state.visited := state.visited - {id};
  }

  /** The loop of `_has_circular_reference_rng` over the children of `def`. */
  method SearchChildren(patterns: map<string, Node>, def: Node, state: SearchState) returns (found: bool)
    modifies state
    ensures var r := SearchRefs(patterns, old(state.visited), old(state.path), def, 0);
      found == r.found && state.visited == r.visited && state.path == r.path
    decreases |patterns.Keys - state.visited|, 1
  {
    ghost var V, P := state.visited, state.path;
    for i := 0 to |def.children|
      invariant state.visited == V && state.path == P
      invariant SearchRefs(patterns, V, P, def, 0) == SearchRefs(patterns, V, P, def, i)
    {
      var child := def.children[i];
      if HasLocalName(child.tag, "ref") {
        var refName := Get(child, "name");
        if refName.Some? && refName.value in patterns {
          assert patterns.Keys + {refName.value} == patterns.Keys;
          ghost var search := Search(patterns, V, P, patterns[refName.value], refName.value);
          assert RefName(patterns, child) == refName;
          found := HasCircularReference(patterns, patterns[refName.value], state, refName.value);
          assert found == search.found;
          if found {
            return true;
          }
        }
      }
      assert SearchRefs(patterns, V, P, def, i) == SearchRefs(patterns, V, P, def, i + 1);
    }
    return false;
  }

  // ----- check_circular_references ---------------------------------------------------------

  /** `sep.join(xs)`. */
  function Join(xs: seq<string>, sep: string): string {
    if |xs| == 0 then "" else if |xs| == 1 then xs[0] else xs[0] + sep + Join(xs[1..], sep)
  }

  const CycleMessage := "Circular reference detected: "

  /** The loop of `check_circular_references` over the patterns in `order` (the dictionary's
      order), from position `i` on. Every search starts from an empty set and list, since
      the ones before it found nothing and so restored them. */
  function CheckFrom(patterns: map<string, Node>, order: seq<string>, i: nat): PyResult<()>
    requires i <= |order| && forall k :: 0 <= k < |order| ==> order[k] in patterns
    decreases |order| - i
  {
    if i == |order| then Returned(())
    else
      var r := Search(patterns, {}, [], patterns[order[i]], order[i]);
      if r.found then Raised(CircularReferenceError(CycleMessage + Join(r.path, " -> ")))
      else CheckFrom(patterns, order, i + 1)
  }

  /** The loop of `check_circular_references` as written: the raise names
      `CircularReferenceError`, which the script never defines, so a found cycle raises a
      `NameError` and its path is lost. `CheckFrom` raises the intended error, and the rest
      of the model uses it. */
  function CheckFromAsWritten(patterns: map<string, Node>, order: seq<string>, i: nat): PyResult<()>
    requires i <= |order| && forall k :: 0 <= k < |order| ==> order[k] in patterns
    decreases |order| - i
  {
    if i == |order| then Returned(())
    else
      var r := Search(patterns, {}, [], patterns[order[i]], order[i]);
      if r.found then Raised(NameError(UndefinedCircularMessage))
      else CheckFromAsWritten(patterns, order, i + 1)
  }

  /** `check_circular_references`. */
  method CheckCircularReferences(patterns: map<string, Node>, order: seq<string>) returns (r: PyResult<()>)
    requires forall k :: 0 <= k < |order| ==> order[k] in patterns
    ensures r == CheckFrom(patterns, order, 0)
  {
    var state := new SearchState();
    for i := 0 to |order|
      invariant state.visited == {} && state.path == []
      invariant CheckFrom(patterns, order, 0) == CheckFrom(patterns, order, i)
    {
      var name := order[i];
      ghost var search := Search(patterns, {}, [], patterns[name], name);
      var found := HasCircularReference(patterns, patterns[name], state, name);
      assert found == search.found && state.path == search.path;
      if found {
        return Raised(CircularReferenceError(CycleMessage + Join(state.path, " -> ")));
      }
      assert CheckFrom(patterns, order, i) == CheckFrom(patterns, order, i + 1);
    }
    return Returned(());
  }

  // ----- What the search finds ---------------------------------------------------------------

  /** `w` is a walk the search can take from `id`, the name of `def`, on entry state `V`:
      each step follows a `ref` child to a known pattern, the names before the last are
      distinct and not yet visited, and the last one was visited or is already on the
      walk. */
  predicate Walk(patterns: map<string, Node>, V: set<string>, def: Node, id: string, w: seq<string>) {
    |w| >= 1 && w[0] == id &&
    (|w| >= 2 ==> Refers(patterns, def, w[1])) &&
    (forall j :: 1 <= j < |w| - 1 ==> w[j] in patterns && Refers(patterns, patterns[w[j]], w[j + 1])) &&
    (forall j :: 0 <= j < |w| - 1 ==> w[j] !in V) &&
    (forall j, k :: 0 <= j < k < |w| - 1 ==> w[j] != w[k]) &&
    (w[|w| - 1] in V || w[|w| - 1] in w[..|w| - 1])
  }

  /** A walk from a new name is that name followed by a walk, on the grown visited set, from
      a pattern it refers to. */
  lemma WalkCons(patterns: map<string, Node>, V: set<string>, def: Node, id: string, n: string, w: seq<string>)
    requires id !in V && Refers(patterns, def, n) && n in patterns
    requires Walk(patterns, V + {id}, patterns[n], n, w)
    ensures Walk(patterns, V, def, id, [id] + w)
  {
    var w' := [id] + w;
    forall j | 1 <= j < |w'| - 1
      ensures w'[j] in patterns && Refers(patterns, patterns[w'[j]], w'[j + 1])
    {
      if j > 1 {
        assert w'[j] == w[j - 1] && w'[j + 1] == w[j];
      }
    }
    forall j, k | 0 <= j < k < |w'| - 1
      ensures w'[j] != w'[k]
    {
      assert w'[k] == w[k - 1] && w[k - 1] !in V + {id};
      if j > 0 {
        assert w'[j] == w[j - 1];
      }
    }
    var last := w[|w| - 1];
    assert w'[|w'| - 1] == last;
    if last !in V {
      assert w'[..|w'| - 1] == [id] + w[..|w| - 1];
    }
  }

  /** A walk from a name not yet visited goes on to a pattern that name refers to, with a
      walk from there on the grown visited set. */
  lemma WalkTail(patterns: map<string, Node>, V: set<string>, def: Node, id: string, w: seq<string>)
    requires id !in V && Walk(patterns, V, def, id, w)
    ensures |w| >= 2 && Refers(patterns, def, w[1]) && w[1] in patterns
    ensures Walk(patterns, V + {id}, patterns[w[1]], w[1], w[1..])
  {
    var j :| 0 <= j < |def.children| && RefName(patterns, def.children[j]) == Some(w[1]);
    var w' := w[1..];
    forall k | 0 <= k < |w'| - 1
      ensures w'[k] !in V + {id}
    {
      assert w'[k] == w[k + 1];
      if k + 1 < |w| - 1 {
        assert w[0] != w[k + 1];
      }
    }
    forall a, b | 0 <= a < b < |w'| - 1
      ensures w'[a] != w'[b]
    {
      assert w'[a] == w[a + 1] && w'[b] == w[b + 1];
    }
    forall k | 1 <= k < |w'| - 1
      ensures w'[k] in patterns && Refers(patterns, patterns[w'[k]], w'[k + 1])
    {
      assert w'[k] == w[k + 1] && w'[k + 1] == w[k + 2];
    }
    if |w'| >= 2 {
      assert w'[0] == w[1] && w'[1] == w[2];
    }
    var last := w[|w| - 1];
    assert w'[|w'| - 1] == last;
    if last !in V {
      assert w[..|w| - 1] == [id] + w'[..|w'| - 1];
    }
  }

  /** When the search answers True, the path it leaves is the entry path followed by a walk
      from `id`. */
  lemma {:induction false} SearchSound(patterns: map<string, Node>, V: set<string>, P: seq<string>, def: Node, id: string)
    ensures var r := Search(patterns, V, P, def, id);
      r.found ==> |P| < |r.path| && r.path[..|P|] == P && Walk(patterns, V, def, id, r.path[|P|..])
    decreases |(patterns.Keys + {id}) - V|, 0, 0
  {
    var r := Search(patterns, V, P, def, id);
    if id in V {
      assert r.path[|P|..] == [id];
    } else {
      CardStep(patterns.Keys, V, id);
      SearchRefsSound(patterns, V + {id}, P + [id], def, 0);
      var rr := SearchRefs(patterns, V + {id}, P + [id], def, 0);
      if rr.found {
        assert r == rr;
        FoundPathSplits(patterns, V, P, def, id, rr.path);
      }
    }
  }

  /** The step of `SearchSound` from the children's walk to the walk from `id`. */
  lemma FoundPathSplits(patterns: map<string, Node>, V: set<string>, P: seq<string>, def: Node, id: string, path: seq<string>)
    requires id !in V && |P + [id]| < |path| && path[..|P + [id]|] == P + [id]
    requires exists n :: Refers(patterns, def, n) && n in patterns && Walk(patterns, V + {id}, patterns[n], n, path[|P + [id]|..])
    ensures |P| < |path| && path[..|P|] == P && Walk(patterns, V, def, id, path[|P|..])
  {
    var n :| Refers(patterns, def, n) && n in patterns && Walk(patterns, V + {id}, patterns[n], n, path[|P| + 1..]);
    WalkCons(patterns, V, def, id, n, path[|P| + 1..]);
    assert path[|P|] == (P + [id])[|P|] == id;
    assert path[|P|..] == [id] + path[|P| + 1..];
    assert path[..|P|] == path[..|P| + 1][..|P|];
  }

  lemma {:induction false} SearchRefsSound(patterns: map<string, Node>, V: set<string>, P: seq<string>, def: Node, i: nat)
    requires i <= |def.children|
    ensures var r := SearchRefs(patterns, V, P, def, i);
      r.found ==> (|P| < |r.path| && r.path[..|P|] == P &&
        exists n :: Refers(patterns, def, n) && n in patterns && Walk(patterns, V, patterns[n], n, r.path[|P|..]))
    decreases |patterns.Keys - V|, 1, |def.children| - i
  {
    if i < |def.children| {
      match RefName(patterns, def.children[i])
      case None =>
        SearchRefsSound(patterns, V, P, def, i + 1);
      case Some(n) =>
        assert patterns.Keys + {n} == patterns.Keys;
        SearchSound(patterns, V, P, patterns[n], n);
        var r := Search(patterns, V, P, patterns[n], n);
        if !r.found {
          SearchRefsSound(patterns, V, P, def, i + 1);
        } else {
          assert Refers(patterns, def, n);
        }
    }
  }

  /** Whenever a walk from `id` exists, the search answers True. */
  lemma {:induction false} SearchComplete(patterns: map<string, Node>, V: set<string>, P: seq<string>, def: Node, id: string, w: seq<string>)
    requires Walk(patterns, V, def, id, w)
    ensures Search(patterns, V, P, def, id).found
    decreases |(patterns.Keys + {id}) - V|, 0, 0
  {
    if id !in V {
      WalkTail(patterns, V, def, id, w);
      CardStep(patterns.Keys, V, id);
      var j :| 0 <= j < |def.children| && RefName(patterns, def.children[j]) == Some(w[1]);
      SearchRefsComplete(patterns, V + {id}, P + [id], def, 0, j, w[1..]);
    }
  }

  lemma {:induction false} SearchRefsComplete(patterns: map<string, Node>, V: set<string>, P: seq<string>, def: Node, i: nat, j: nat, w: seq<string>)
    requires i <= j < |def.children| && RefName(patterns, def.children[j]).Some?
    requires var n := RefName(patterns, def.children[j]).value; Walk(patterns, V, patterns[n], n, w)
    ensures SearchRefs(patterns, V, P, def, i).found
    decreases |patterns.Keys - V|, 1, |def.children| - i
  {
    match RefName(patterns, def.children[i])
    case None =>
      SearchRefsComplete(patterns, V, P, def, i + 1, j, w);
    case Some(n) =>
      assert patterns.Keys + {n} == patterns.Keys;
      if i == j {
        SearchComplete(patterns, V, P, patterns[n], n, w);
      } else if !Search(patterns, V, P, patterns[n], n).found {
        SearchRefsComplete(patterns, V, P, def, i + 1, j, w);
      }
  }

  /** `_has_circular_reference_rng` answers True exactly when a walk from `id` exists, and
      then leaves such a walk on the path. */
  lemma SearchSpec(patterns: map<string, Node>, V: set<string>, P: seq<string>, def: Node, id: string)
    ensures var r := Search(patterns, V, P, def, id);
      r.found <==> exists w :: Walk(patterns, V, def, id, w)
    ensures var r := Search(patterns, V, P, def, id);
      r.found ==> |P| < |r.path| && r.path[..|P|] == P && Walk(patterns, V, def, id, r.path[|P|..])
    ensures var r := Search(patterns, V, P, def, id);
      !r.found ==> r.visited == V && r.path == P
  {
    SearchSound(patterns, V, P, def, id);
    if w :| Walk(patterns, V, def, id, w) {
      SearchComplete(patterns, V, P, def, id, w);
    }
  }

  /** `check_circular_references` raises exactly when some pattern has a walk from a fresh
      search, and then its message shows such a walk: a chain of references whose last name
      repeats an earlier one. */
  lemma {:induction false} CheckSpec(patterns: map<string, Node>, order: seq<string>, i: nat)
    requires i <= |order| && forall k :: 0 <= k < |order| ==> order[k] in patterns
    ensures CheckFrom(patterns, order, i).Raised? <==>
      exists k, w :: i <= k < |order| && Walk(patterns, {}, patterns[order[k]], order[k], w)
    ensures CheckFrom(patterns, order, i).Raised? ==>
      exists k, w :: i <= k < |order| && Walk(patterns, {}, patterns[order[k]], order[k], w) &&
        w[|w| - 1] in w[..|w| - 1] &&
        CheckFrom(patterns, order, i).error == CircularReferenceError(CycleMessage + Join(w, " -> "))
    decreases |order| - i
  {
    if i < |order| {
      var name := order[i];
      SearchSpec(patterns, {}, [], patterns[name], name);
      var r := Search(patterns, {}, [], patterns[name], name);
      if r.found {
        assert r.path[0..] == r.path;
      } else {
        CheckSpec(patterns, order, i + 1);
        if exists k, w :: i <= k < |order| && Walk(patterns, {}, patterns[order[k]], order[k], w) {
          var k, w :| i <= k < |order| && Walk(patterns, {}, patterns[order[k]], order[k], w);
          assert k != i;
        }
      }
    }
  }

  /** As written, the check raises for the same schemas as intended, but every raise is the
      same `NameError`, never the circular-reference error that shows the cycle. */
  lemma {:induction false} CheckAsWrittenLosesPath(patterns: map<string, Node>, order: seq<string>, i: nat)
    requires i <= |order| && forall k :: 0 <= k < |order| ==> order[k] in patterns
    ensures CheckFromAsWritten(patterns, order, i).Raised? <==> CheckFrom(patterns, order, i).Raised?
    ensures CheckFromAsWritten(patterns, order, i).Raised? ==>
      CheckFromAsWritten(patterns, order, i).error == NameError(UndefinedCircularMessage) &&
      CheckFrom(patterns, order, i).error.CircularReferenceError?
    decreases |order| - i
  {
    if i < |order| && !Search(patterns, {}, [], patterns[order[i]], order[i]).found {
      CheckAsWrittenLosesPath(patterns, order, i + 1);
    }
  }
}
