/** Declared foreign keys, and walks over the "has a child table" relation they induce. */
module ForeignKeys {

  type Table = string

  /** One element of a foreign-key constraint: a column and the table it refers to. */
  datatype Element = Element(column: string, nullable: bool, parent: Table)

  /** Every table with its foreign-key constraints, each a list of elements. */
  type Metadata = map<Table, seq<seq<Element>>>

  /** Parent table to the set of its child tables. */
  type Children = map<Table, set<Table>>

  ghost predicate References(m: Metadata, child: Table, parent: Table) {
    child in m && exists i, j :: 0 <= i < |m[child]| && 0 <= j < |m[child][i]| && m[child][i][j].parent == parent
  }

  /** `children.get(name, set())` */
  function ChildrenOf(g: Children, t: Table): set<Table> {
    if t in g then g[t] else {}
  }

  /** All children listed are among the given tables. */
  ghost predicate ClosedUnder(g: Children, tables: set<Table>) {
    forall p, c :: c in ChildrenOf(g, p) ==> c in tables
  }

  /** A non-empty sequence of tables, each a child of the one before it. */
  ghost predicate IsWalk(g: Children, w: seq<Table>) {
    |w| > 0 && forall i :: 0 <= i < |w| - 1 ==> w[i + 1] in ChildrenOf(g, w[i])
  }

  ghost predicate Reaches(g: Children, a: Table, b: Table) {
    exists w :: IsWalk(g, w) && w[0] == a && w[|w| - 1] == b
  }

  /** `p` and its child `c` lie on one foreign-key cycle. */
  ghost predicate OnCommonCycle(g: Children, p: Table, c: Table) {
    c in ChildrenOf(g, p) && Reaches(g, c, p)
  }

  ghost predicate Acyclic(g: Children) {
    forall p, c :: c in ChildrenOf(g, p) ==> !Reaches(g, c, p)
  }

  /** There is a chain of `n` foreign keys below `t`. */
  ghost predicate HasChain(g: Children, t: Table, n: nat) {
    exists w :: IsWalk(g, w) && w[0] == t && |w| == n + 1
  }

  /** `n` is the length of the longest chain below `t`. */
  ghost predicate IsLongestChain(g: Children, t: Table, n: nat) {
    HasChain(g, t, n) && forall k: nat :: HasChain(g, t, k) ==> k <= n
  }

  lemma ReachesItself(g: Children, a: Table)
    ensures Reaches(g, a, a)
  {
    assert IsWalk(g, [a]);
  }

  lemma ReachesChild(g: Children, a: Table, b: Table, c: Table)
    requires Reaches(g, a, b) && c in ChildrenOf(g, b)
    ensures Reaches(g, a, c)
  {
    var w :| IsWalk(g, w) && w[0] == a && w[|w| - 1] == b;
    assert IsWalk(g, w + [c]) && (w + [c])[0] == a && (w + [c])[|w|] == c;
  }

  lemma ChainExtends(g: Children, p: Table, c: Table, n: nat)
    requires c in ChildrenOf(g, p) && HasChain(g, c, n)
    ensures HasChain(g, p, n + 1)
  {
    var w :| IsWalk(g, w) && w[0] == c && |w| == n + 1;
    assert IsWalk(g, [p] + w);
  }
}

/** The nested loops over tables, constraints and elements that fill `children`. */
module ChildTables {
  import opened ForeignKeys

  /** The children found so far: those among `done`, of the given parents. */
  ghost predicate Filled(m: Metadata, parents: set<Table>, done: set<Table>, skipSelf: bool, children: Children) {
    forall p, c :: c in ChildrenOf(children, p) <==>
      p in parents && c in done && !(skipSelf && c == p) && References(m, c, p)
  }

  lemma FilledAddsTable(m: Metadata, parents: set<Table>, done: set<Table>, name: Table, skipSelf: bool,
                        before: Children, after: Children)
    requires Filled(m, parents, done, skipSelf, before)
    requires AddedTable(m, parents, name, skipSelf, before, after)
    ensures Filled(m, parents, done + {name}, skipSelf, after)
  {
    forall p, c
      ensures c in ChildrenOf(after, p) <==>
        p in parents && c in done + {name} && !(skipSelf && c == p) && References(m, c, p)
    {
      assert c in ChildrenOf(before, p) <==> p in parents && c in done && !(skipSelf && c == p) && References(m, c, p);
    }
  }

  /** `after` is `before` with `name` put below every parent it references. */
  ghost predicate AddedTable(m: Metadata, parents: set<Table>, name: Table, skipSelf: bool,
      before: Children, after: Children)
  {
    forall p, c :: c in ChildrenOf(after, p) <==>
      c in ChildrenOf(before, p) || (c == name && p in parents && !(skipSelf && p == name) && References(m, name, p))
  }

  method AddParents(m: Metadata, parents: set<Table>, name: Table, skipSelf: bool,
      before: Children) returns (children: Children)
    requires name in m
    ensures AddedTable(m, parents, name, skipSelf, before, children)
  {
    children := before;
    ghost var seen: set<Table> := {};
    for i := 0 to |m[name]|
      invariant forall p :: p in seen <==>
        exists a, b :: 0 <= a < i && 0 <= b < |m[name][a]| && m[name][a][b].parent == p
      invariant Added(before, children, parents * seen, name, skipSelf)
    {
      ghost var outer := seen;
      for j := 0 to |m[name][i]|
        invariant forall p :: p in seen <==> p in outer || exists b :: 0 <= b < j && m[name][i][b].parent == p
        invariant Added(before, children, parents * seen, name, skipSelf)
      {
        var parent := m[name][i][j].parent;
        ghost var earlier, was := children, seen;
        seen := seen + {parent};
        if parent in parents && !(skipSelf && parent == name) {
          children := children[parent := ChildrenOf(children, parent) + {name}];
        }
        AddOne(before, earlier, children, parents, was, name, parent, skipSelf);
      }
    }
  }

  /** `children` is `before` with `name` put below each of the given parents. */
  ghost predicate Added(before: Children, children: Children, parents: set<Table>, name: Table, skipSelf: bool) {
    forall p :: ChildrenOf(children, p) ==
      ChildrenOf(before, p) + if p in parents && !(skipSelf && p == name) then {name} else {}
  }

  lemma AddOne(before: Children, earlier: Children, children: Children, parents: set<Table>, seen: set<Table>,
               name: Table, parent: Table, skipSelf: bool)
    requires Added(before, earlier, parents * seen, name, skipSelf)
    requires children == if parent in parents && !(skipSelf && parent == name)
                         then earlier[parent := ChildrenOf(earlier, parent) + {name}] else earlier
    ensures Added(before, children, parents * (seen + {parent}), name, skipSelf)
  {
    forall p
      ensures ChildrenOf(children, p) ==
        ChildrenOf(before, p) + if p in parents * (seen + {parent}) && !(skipSelf && p == name) then {name} else {}
    {
      assert p != parent ==> ChildrenOf(children, p) == ChildrenOf(earlier, p);
    }
  }
}

/** `_owned_delete_order` of scripts/reset_test_data.py: a depth-first post-order. */
module DeleteOrder {
  import opened ForeignKeys
  import opened ChildTables

  /** What the search promises of the tables it has finished, at every moment. */
  ghost predicate ChildFirst(g: Children, ordered: seq<Table>) {
    forall i, c :: 0 <= i < |ordered| && c in ChildrenOf(g, ordered[i]) ==>
      c in ordered[..i] || Reaches(g, c, ordered[i])
  }

  ghost predicate NoRepeats<T>(s: seq<T>) {
    forall i, j :: 0 <= i < j < |s| ==> s[i] != s[j]
  }

  lemma ChildFirstAppend(g: Children, ordered: seq<Table>, t: Table)
    requires ChildFirst(g, ordered)
    requires forall c :: c in ChildrenOf(g, t) ==> c in ordered || Reaches(g, c, t)
    ensures ChildFirst(g, ordered + [t])
  {
    var o := ordered + [t];
    forall i, c | 0 <= i < |o| && c in ChildrenOf(g, o[i])
      ensures c in o[..i] || Reaches(g, c, o[i])
    {
      if i < |ordered| {
        assert o[..i] == ordered[..i] && o[i] == ordered[i];
      } else {
        assert o[..i] == ordered;
      }
    }
  }

  /** The children of a table among the owned tables; a self-reference is skipped. */
  ghost function OwnedGraph(m: Metadata, owned: set<Table>): Children {
    map p | p in owned :: set c | c in owned && c != p && References(m, c, p)
  }

  ghost predicate SameChildren(g: Children, h: Children) {
    forall p :: ChildrenOf(g, p) == ChildrenOf(h, p)
  }

  lemma SameChildrenSameOrder(g: Children, h: Children, ordered: seq<Table>)
    requires SameChildren(g, h) && ChildFirst(g, ordered)
    ensures ChildFirst(h, ordered)
  {
    forall i, c | 0 <= i < |ordered| && c in ChildrenOf(h, ordered[i])
      ensures c in ordered[..i] || Reaches(h, c, ordered[i])
    {
      assert c in ChildrenOf(g, ordered[i]);
      if c !in ordered[..i] {
        var w :| IsWalk(g, w) && w[0] == c && w[|w| - 1] == ordered[i];
        assert IsWalk(h, w);
      }
    }
  }

  /** Every child is placed before each of its parents. */
  ghost predicate StrictlyChildFirst(g: Children, ordered: seq<Table>) {
    forall i, c :: 0 <= i < |ordered| && c in ChildrenOf(g, ordered[i]) ==> c in ordered[..i]
  }

  /** Along a walk the position in a strictly child-first order only moves left. */
  lemma WalkMovesLeft(g: Children, ordered: seq<Table>, w: seq<Table>, i: nat)
    requires NoRepeats(ordered) && StrictlyChildFirst(g, ordered)
    requires IsWalk(g, w) && i < |ordered| && w[0] == ordered[i]
    ensures w[|w| - 1] in ordered[..i + 1]
    decreases |w|
  {
    if |w| > 1 {
      var j :| 0 <= j < i && ordered[..i][j] == w[1];
      assert IsWalk(g, w[1..]) by {
        forall k | 0 <= k < |w[1..]| - 1
          ensures w[1..][k + 1] in ChildrenOf(g, w[1..][k])
        {
          assert w[k + 2] in ChildrenOf(g, w[k + 1]);
        }
      }
      WalkMovesLeft(g, ordered, w[1..], j);
    }
  }

  /** The order the search returns is as good as any: it is strictly child-first exactly when some order can be. */
  lemma StrictOrderIffAcyclic(g: Children, tables: set<Table>, ordered: seq<Table>)
    requires ClosedUnder(g, tables) && g.Keys <= tables
    requires NoRepeats(ordered) && (forall t :: t in ordered <==> t in tables) && ChildFirst(g, ordered)
    ensures StrictlyChildFirst(g, ordered) <==> Acyclic(g)
  {
    if StrictlyChildFirst(g, ordered) {
      forall p, c | c in ChildrenOf(g, p)
        ensures !Reaches(g, c, p)
      {
        if Reaches(g, c, p) {
          var w :| IsWalk(g, w) && w[0] == c && w[|w| - 1] == p;
          var i :| 0 <= i < |ordered| && ordered[i] == p;
          var j :| 0 <= j < i && ordered[..i][j] == c;
          WalkMovesLeft(g, ordered, w, j);
          assert false;
        }
      }
    }
  }

  /** A child placed after its parent shares a foreign-key cycle with it. */
  lemma LateChildIsOnACycle(g: Children, ordered: seq<Table>, parent: nat, child: nat)
    requires NoRepeats(ordered) && ChildFirst(g, ordered)
    requires parent < child < |ordered| && ordered[child] in ChildrenOf(g, ordered[parent])
    ensures OnCommonCycle(g, ordered[parent], ordered[child])
  {
    assert ordered[child] !in ordered[..parent];
  }

  method BuildChildren(m: Metadata, owned: set<Table>) returns (children: Children)
    requires owned <= m.Keys
    ensures SameChildren(children, OwnedGraph(m, owned))
  {
    children := map[];
    var rest := owned;
    assert forall p :: ChildrenOf(children, p) == {};
    while rest != {}
      invariant rest <= owned
      invariant Filled(m, owned, owned - rest, true, children)
      decreases rest
    {
      var name :| name in rest;
      var before := children;
      children := AddParents(m, owned, name, true, children);
      FilledAddsTable(m, owned, owned - rest, name, true, before, children);
      assert owned - rest + {name} == owned - (rest - {name});
      rest := rest - {name};
    }
    FilledIsOwnedGraph(m, owned, children);
  }

  lemma FilledIsOwnedGraph(m: Metadata, owned: set<Table>, children: Children)
    requires owned <= m.Keys && Filled(m, owned, owned - {}, true, children)
    ensures SameChildren(children, OwnedGraph(m, owned))
  {
    forall p
      ensures ChildrenOf(children, p) == ChildrenOf(OwnedGraph(m, owned), p)
    {
      forall c
        ensures c in ChildrenOf(children, p) <==> c in ChildrenOf(OwnedGraph(m, owned), p)
      {
        assert c in owned - {} <==> c in owned;
      }
    }
  }

  /** The nested `visit` and the three collections it closes over. */
  class DeleteOrderSearch {
    const children: Children
    ghost const tables: set<Table>
    var ordered: seq<Table>
    var visited: set<Table>
    var visiting: set<Table>

    ghost predicate Valid()
      reads this
    {
      && ClosedUnder(children, tables)
      && visited <= tables && visiting <= tables
      && visited !! visiting
      && (forall t :: t in visited <==> t in ordered)
      && NoRepeats(ordered)
      && ChildFirst(children, ordered)
    }

    constructor (children: Children, ghost tables: set<Table>)
      requires ClosedUnder(children, tables)
      ensures Valid() && this.children == children && this.tables == tables
      ensures ordered == [] && visiting == {}
    {
      this.children, this.tables := children, tables;
      ordered, visited, visiting := [], {}, {};
    }

    /** Everything on the stack reaches the table being visited, so a child met on the stack closes a cycle. */
    method Visit(t: Table)
      requires Valid() && t in tables
      requires forall u :: u in visiting ==> Reaches(children, u, t)
      modifies this
      ensures Valid()
      ensures visiting == old(visiting)
      ensures old(ordered) <= ordered && old(visited) <= visited
      ensures t in visited || t in visiting
      decreases tables - visiting
    {
      if t in visited || t in visiting {
        return;
      }
      visiting := visiting + {t};
      ReachesItself(children, t);
      var rest := ChildrenOf(children, t);
      while rest != {}
        invariant Valid() && visiting == old(visiting) + {t}
        invariant rest <= ChildrenOf(children, t)
        invariant old(ordered) <= ordered && old(visited) <= visited
        invariant forall c :: c in ChildrenOf(children, t) - rest ==> c in visited || c in visiting
        decreases rest
      {
        var child :| child in rest;
        rest := rest - {child};
        forall u | u in visiting
          ensures Reaches(children, u, child)
        {
          ReachesChild(children, u, t, child);
        }
        Visit(child);
      }
      ChildFirstAppend(children, ordered, t);
      visiting := visiting - {t};
      visited := visited + {t};
      ordered := ordered + [t];
      assert visiting == old(visiting);
    }
  }

  /** Each owned table exactly once; a child after its parent only on a cycle through both. */
  method OwnedDeleteOrder(m: Metadata, owned: set<Table>) returns (ordered: seq<Table>)
    requires owned <= m.Keys
    ensures NoRepeats(ordered) && forall t :: t in ordered <==> t in owned
    ensures ChildFirst(OwnedGraph(m, owned), ordered)
    ensures StrictlyChildFirst(OwnedGraph(m, owned), ordered) <==> Acyclic(OwnedGraph(m, owned))
  {
    var children := BuildChildren(m, owned);
    var search := new DeleteOrderSearch(children, owned);
    var rest := owned;
    while rest != {}
      invariant search.Valid() && search.visiting == {} && fresh(search)
      invariant search.children == children && search.tables == owned
      invariant rest <= owned && owned - rest <= search.visited
      decreases rest
    {
      var name :| name in rest;
      rest := rest - {name};
      search.Visit(name);
    }
    ordered := search.ordered;
    SameChildrenSameOrder(children, OwnedGraph(m, owned), ordered);
    StrictOrderIffAcyclic(OwnedGraph(m, owned), owned, ordered);
  }
}

/** `_table_depths` of scripts/reset_test_data.py: memoised chain lengths over every table. */
module TableDepths {
  import opened ForeignKeys
  import opened ChildTables
  import opened Common

  /** A self-reference counts as a child here. */
  ghost function FullGraph(m: Metadata): Children {
    map p | p in m :: set c | c in m && References(m, c, p)
  }

  /** A table's depth exceeds each child's, unless the two share a cycle. */
  ghost predicate AboveChildren(g: Children, memo: map<Table, nat>) {
    forall p, c :: p in memo && c in ChildrenOf(g, p) ==> (c in memo && memo[p] > memo[c]) || Reaches(g, c, p)
  }

  /** Each depth is the length of a real chain, and at most the number of tables finished. */
  ghost predicate Witnessed(g: Children, memo: map<Table, nat>) {
    forall t :: t in memo ==> HasChain(g, t, memo[t]) && memo[t] <= |memo|
  }

  lemma ChainsBelowDepth(g: Children, memo: map<Table, nat>, w: seq<Table>)
    requires Acyclic(g) && AboveChildren(g, memo)
    requires IsWalk(g, w) && w[0] in memo
    ensures |w| - 1 <= memo[w[0]]
    decreases |w|
  {
    if |w| > 1 {
      assert w[1] in ChildrenOf(g, w[0]) && !Reaches(g, w[1], w[0]);
      forall k | 0 <= k < |w[1..]| - 1
        ensures w[1..][k + 1] in ChildrenOf(g, w[1..][k])
      {
        assert w[k + 2] in ChildrenOf(g, w[k + 1]);
      }
      ChainsBelowDepth(g, memo, w[1..]);
    }
  }

  /** Without cycles the memoised value is the longest chain, whatever order the children were tried in. */
  lemma AcyclicDepthIsLongestChain(g: Children, memo: map<Table, nat>, t: Table)
    requires Acyclic(g) && AboveChildren(g, memo) && Witnessed(g, memo) && t in memo
    ensures IsLongestChain(g, t, memo[t])
  {
    forall k: nat | HasChain(g, t, k)
      ensures k <= memo[t]
    {
      var w :| IsWalk(g, w) && w[0] == t && |w| == k + 1;
      ChainsBelowDepth(g, memo, w);
    }
  }

  /** The loop over a table's children, with `rest` still to try. */
  ghost predicate Progress(g: Children, memo: map<Table, nat>, t: Table, rest: set<Table>, value: nat) {
    && HasChain(g, t, value)
    && value <= |memo| + 1
    && (forall c :: c in ChildrenOf(g, t) && c !in rest ==> (c in memo && value > memo[c]) || Reaches(g, c, t))
  }

  ghost predicate Extends(before: map<Table, nat>, after: map<Table, nat>) {
    forall u :: u in before ==> u in after && after[u] == before[u]
  }

  lemma StartTable(g: Children, memo: map<Table, nat>, t: Table)
    ensures Progress(g, memo, t, ChildrenOf(g, t), 0)
  {
    assert IsWalk(g, [t]);
  }

  lemma TryChild(g: Children, before: map<Table, nat>, after: map<Table, nat>, t: Table, rest: set<Table>, child: Table,
                 below: nat, value: nat)
    requires Progress(g, before, t, rest, value) && Extends(before, after)
    requires child in rest && rest <= ChildrenOf(g, t) && Witnessed(g, after)
    requires if child in after then below == after[child] else below == 0 && Reaches(g, child, t)
    ensures Progress(g, after, t, rest - {child}, if below + 1 > value then below + 1 else value)
  {
    SubsetCardinality(before.Keys, after.Keys);
    assert HasChain(g, child, below) by {
      assert IsWalk(g, [child]);
    }
    ChainExtends(g, t, child, below);
  }

  lemma FinishTable(g: Children, memo: map<Table, nat>, t: Table, value: nat)
    requires Progress(g, memo, t, {}, value) && t !in memo
    requires AboveChildren(g, memo) && Witnessed(g, memo)
    ensures AboveChildren(g, memo[t := value]) && Witnessed(g, memo[t := value])
  {
    assert |memo[t := value]| == |memo| + 1;
  }

  lemma RecordDepth(depths: map<Table, nat>, before: map<Table, nat>, after: map<Table, nat>, name: Table, value: nat)
    requires Extends(depths, before) && Extends(before, after)
    requires name in after && value == after[name]
    ensures Extends(depths[name := value], after)
  {
  }

  lemma AllRecorded(depths: map<Table, nat>, memo: map<Table, nat>, tables: set<Table>)
    requires Extends(depths, memo) && depths.Keys == tables && memo.Keys <= tables
    ensures depths == memo
  {
  }

  class DepthSearch {
    const children: Children
    ghost const tables: set<Table>
    var memo: map<Table, nat>
    var visiting: set<Table>

    ghost predicate Valid()
      reads this
    {
      && ClosedUnder(children, tables)
      && memo.Keys <= tables && visiting <= tables
      && AboveChildren(children, memo)
      && Witnessed(children, memo)
    }

    constructor (children: Children, ghost tables: set<Table>)
      requires ClosedUnder(children, tables)
      ensures Valid() && this.children == children && this.tables == tables
      ensures memo == map[] && visiting == {}
    {
      this.children, this.tables := children, tables;
      memo, visiting := map[], {};
    }

    method Depth(t: Table) returns (value: nat)
      requires Valid() && t in tables
      requires forall u :: u in visiting ==> Reaches(children, u, t)
      modifies this
      ensures Valid() && visiting == old(visiting) && Extends(old(memo), memo)
      ensures if t in memo then value == memo[t] else t in visiting && value == 0
      ensures forall u :: u in old(visiting) && u in memo ==> u in old(memo)
      decreases tables - visiting
    {
      if t in memo {
        return memo[t];
      }
      if t in visiting {
        return 0;
      }
      visiting := visiting + {t};
      value := 0;
      var rest := ChildrenOf(children, t);
      ReachesItself(children, t);
      StartTable(children, memo, t);
      while rest != {}
        invariant Valid() && visiting == old(visiting) + {t} && t !in memo
        invariant rest <= ChildrenOf(children, t)
        invariant Extends(old(memo), memo)
        invariant forall u :: u in old(visiting) && u in memo ==> u in old(memo)
        invariant Progress(children, memo, t, rest, value)
        decreases rest
      {
        var child :| child in rest;
        forall u | u in visiting
          ensures Reaches(children, u, child)
        {
          ReachesChild(children, u, t, child);
        }
        ghost var before := memo;
        var below := Depth(child);
        TryChild(children, before, memo, t, rest, child, below, value);
        value := if below + 1 > value then below + 1 else value;
        rest := rest - {child};
      }
      FinishTable(children, memo, t, value);
      visiting := visiting - {t};
      assert visiting == old(visiting);
      memo := memo[t := value];
    }

    /** The comprehension over all tables: one fresh search stack each, one shared memo. */
    method DepthOfAll(names: set<Table>) returns (depths: map<Table, nat>)
      requires Valid() && visiting == {} && names == tables
      modifies this
      ensures depths.Keys == tables && AboveChildren(children, depths) && Witnessed(children, depths)
    {
      depths := map[];
      var rest := names;
      while rest != {}
        invariant Valid() && visiting == {}
        invariant rest <= names && depths.Keys <= names
        invariant forall t :: t in names ==> t in rest || t in depths
        invariant Extends(depths, memo)
        decreases rest
      {
        var name :| name in rest;
        ghost var before := memo;
        var value := Depth(name);
        RecordDepth(depths, before, memo, name, value);
        depths := depths[name := value];
        rest := rest - {name};
      }
      AllRecorded(depths, memo, tables);
    }
  }

  /** Every table as parent and child, self-references included. */
  method BuildAllChildren(m: Metadata) returns (children: Children)
    ensures forall p :: ChildrenOf(children, p) == ChildrenOf(FullGraph(m), p)
  {
    children := map[];
    var rest := m.Keys;
    assert forall p :: ChildrenOf(children, p) == {};
    while rest != {}
      invariant rest <= m.Keys
      invariant Filled(m, m.Keys, m.Keys - rest, false, children)
      decreases rest
    {
      var name :| name in rest;
      var before := children;
      children := AddParents(m, m.Keys, name, false, children);
      FilledAddsTable(m, m.Keys, m.Keys - rest, name, false, before, children);
      assert m.Keys - rest + {name} == m.Keys - (rest - {name});
      rest := rest - {name};
    }
    forall p
      ensures ChildrenOf(children, p) == ChildrenOf(FullGraph(m), p)
    {
      forall c
        ensures c in ChildrenOf(children, p) <==> c in ChildrenOf(FullGraph(m), p)
      {
        assert c in m.Keys - rest <==> c in m;
      }
    }
  }

  /** What the computed depths are, on any graph. */
  ghost predicate Depths(g: Children, tables: set<Table>, depths: map<Table, nat>) {
    && depths.Keys == tables
    && AboveChildren(g, depths)
    && (forall t :: t in depths ==> HasChain(g, t, depths[t]) && depths[t] <= |tables|)
    && (Acyclic(g) ==> forall t :: t in depths ==> IsLongestChain(g, t, depths[t]))
  }

  lemma SearchGivesDepths(g: Children, h: Children, tables: set<Table>, memo: map<Table, nat>)
    requires forall p :: ChildrenOf(g, p) == ChildrenOf(h, p)
    requires memo.Keys == tables && AboveChildren(g, memo) && Witnessed(g, memo)
    ensures Depths(h, tables, memo)
  {
    forall w | IsWalk(g, w)
      ensures IsWalk(h, w)
    {}
    assert AboveChildren(h, memo) by {
      forall p, c | p in memo && c in ChildrenOf(h, p) && Reaches(g, c, p)
        ensures Reaches(h, c, p)
      {
        var w :| IsWalk(g, w) && w[0] == c && w[|w| - 1] == p;
        assert IsWalk(h, w);
      }
    }
    forall t | t in memo
      ensures HasChain(h, t, memo[t]) && memo[t] <= |tables|
    {
      var w :| IsWalk(g, w) && w[0] == t && |w| == memo[t] + 1;
      assert IsWalk(h, w);
    }
    assert |memo| == |memo.Keys|;
    if Acyclic(h) {
      forall t | t in memo
        ensures IsLongestChain(h, t, memo[t])
      {
        AcyclicDepthIsLongestChain(h, memo, t);
      }
    }
  }

  method TableDepths(m: Metadata) returns (depths: map<Table, nat>)
    ensures Depths(FullGraph(m), m.Keys, depths)
  {
    var children := BuildAllChildren(m);
    assert ClosedUnder(children, m.Keys) by {
      forall p, c | c in ChildrenOf(children, p)
        ensures c in m.Keys
      {
        assert c in ChildrenOf(FullGraph(m), p);
      }
    }
    var search := new DepthSearch(children, m.Keys);
    depths := search.DepthOfAll(m.Keys);
    SearchGivesDepths(children, FullGraph(m), m.Keys, depths);
  }
}
