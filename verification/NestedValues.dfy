/**
 Helm parameters with dotted names as a tree of nested tables. The operator builds the tree by
 walking mutable maps; here the maps are objects, and the walk is proved to refine an insertion
 into a flat picture of the tree.
 */
module NestedValues {
  import opened Wrappers
  import opened Applications

  type Path = seq<string>

  // ---- Dotted names ----

  function Split(s: string): (r: Path)
    ensures r != []
    decreases |s|
  {
    var i := Index(s, '.');
    if i < 0 then [s] else [s[..i]] + Split(s[i + 1..])
  }

  function Join(ks: Path): string {
    if ks == [] then "" else if |ks| == 1 then ks[0] else ks[0] + "." + Join(ks[1..])
  }

  predicate Dotless(ks: Path) {
    forall i :: 0 <= i < |ks| ==> '.' !in ks[i]
  }

  lemma {:induction false} JoinUndoesSplit(s: string)
    ensures Join(Split(s)) == s && Dotless(Split(s))
    decreases |s|
  {
    var i := Index(s, '.');
    if i >= 0 {
      JoinUndoesSplit(s[i + 1..]);
      assert s == s[..i] + "." + s[i + 1..];
    }
  }

  // ---- The flat picture ----

  /** Where the texts are, and which paths are tables. */
  datatype Tree = Tree(leaves: map<Path, string>, tables: set<Path>)

  const EMPTY := Tree(map[], {[]})

  /** A text on the way makes the type assertion fail. */
  predicate Blocked(t: Tree, path: Path) {
    exists i :: 0 < i < |path| && path[..i] in t.leaves
  }

  datatype Binding = Binding(path: Path, value: string)

  function Bindings(ps: seq<HelmParameter>): (r: seq<Binding>)
    ensures |r| == |ps|
    ensures forall i :: 0 <= i < |ps| ==> r[i] == Binding(Split(ps[i].name), ps[i].value)
  {
    seq(|ps|, i requires 0 <= i < |ps| => Binding(Split(ps[i].name), ps[i].value))
  }

  function Prefixes(path: Path): set<Path> {
    set i | 0 <= i < |path| :: path[..i]
  }

  /** Setting a path drops whatever hung below it. */
  function Insert(t: Tree, path: Path, v: string): Tree {
    Tree((map p | p in t.leaves && !(path < p) :: t.leaves[p])[path := v],
         (set q | q in t.tables && !(path <= q)) + Prefixes(path))
  }

  function InsertAll(bs: seq<Binding>): Option<Tree> {
    if bs == [] then Some(EMPTY)
    else
      var before := InsertAll(bs[..|bs| - 1]);
      var last := bs[|bs| - 1];
      if before.None? || Blocked(before.value, last.path) then None
      else Some(Insert(before.value, last.path, last.value))
  }

  /** The i-th binding is not overwritten later, at its own path or above it. */
  predicate Survives(bs: seq<Binding>, i: nat)
    requires i < |bs|
  {
    forall j :: i < j < |bs| ==> !(bs[j].path <= bs[i].path)
  }

  /** An earlier path is a strict beginning of a later one. */
  predicate Clashes(bs: seq<Binding>) {
    exists i, j :: 0 <= i < j < |bs| && bs[i].path < bs[j].path
  }

  ghost predicate Describes(bs: seq<Binding>, t: Tree) {
    && (forall p :: p in t.leaves ==> exists i :: 0 <= i < |bs| && bs[i].path == p && Survives(bs, i))
    && (forall i :: 0 <= i < |bs| && Survives(bs, i) ==> bs[i].path in t.leaves && t.leaves[bs[i].path] == bs[i].value)
  }

  /** A text at the path or at a beginning of it. */
  ghost predicate TextOn(t: Tree, path: Path) {
    exists n :: 0 < n <= |path| && path[..n] in t.leaves
  }

  ghost predicate Covers(bs: seq<Binding>, t: Tree) {
    forall i :: 0 <= i < |bs| ==> TextOn(t, bs[i].path)
  }

  /**
   The loop fails exactly when some path is a strict beginning of a later one; otherwise each text
   is the value of the last binding of its path, unless a later one replaced a table above it.
   */
  lemma {:induction false} TreeOfBindings(bs: seq<Binding>)
    requires forall b :: b in bs ==> b.path != []
    ensures InsertAll(bs).None? <==> Clashes(bs)
    ensures InsertAll(bs).Some? ==> Describes(bs, InsertAll(bs).value) && Covers(bs, InsertAll(bs).value)
  {
    if bs != [] {
      var init, last := bs[..|bs| - 1], bs[|bs| - 1];
      assert init + [last] == bs;
      TreeOfBindings(init);
      ClashesAppend(init, last);
      if InsertAll(init).Some? {
        var t := InsertAll(init).value;
        BlockedByEarlier(init, t, last.path);
        InsertDescribes(init, last, t);
        InsertCovers(init, last, t);
      }
    }
  }

  lemma ClashesAppend(bs: seq<Binding>, x: Binding)
    ensures Clashes(bs + [x]) <==> Clashes(bs) || exists i :: 0 <= i < |bs| && bs[i].path < x.path
  {
    var all := bs + [x];
    if Clashes(bs) {
      var i, j :| 0 <= i < j < |bs| && bs[i].path < bs[j].path;
      assert all[i].path < all[j].path;
    }
    if i :| 0 <= i < |bs| && bs[i].path < x.path {
      assert all[i].path < all[|bs|].path;
    }
    if Clashes(all) {
      var i, j :| 0 <= i < j < |all| && all[i].path < all[j].path;
      assert bs[i].path < if j < |bs| then bs[j].path else x.path;
    }
  }

  lemma BlockedByEarlier(bs: seq<Binding>, t: Tree, path: Path)
    requires Describes(bs, t) && Covers(bs, t)
    ensures Blocked(t, path) <==> exists i :: 0 <= i < |bs| && bs[i].path < path
  {
    hide Survives;
    if Blocked(t, path) {
      var n :| 0 < n < |path| && path[..n] in t.leaves;
      var i :| 0 <= i < |bs| && bs[i].path == path[..n] && Survives(bs, i);
      assert bs[i].path < path;
    }
    forall i | 0 <= i < |bs| && bs[i].path < path ensures Blocked(t, path) {
      TextBlocks(t, bs[i].path, path);
    }
  }

  lemma TextBlocks(t: Tree, above: Path, path: Path)
    requires TextOn(t, above) && above < path
    ensures Blocked(t, path)
  {
    var n :| 0 < n <= |above| && above[..n] in t.leaves;
    assert path[..n] == above[..n];
  }

  /** Which bindings survive one more. */
  lemma SurvivesAppend(bs: seq<Binding>, x: Binding, i: nat)
    requires i < |bs|
    ensures Survives(bs + [x], i) <==> Survives(bs, i) && !(x.path <= bs[i].path)
  {
    var all := bs + [x];
    assert all[|bs|] == x;
    if Survives(all, i) {
      forall j | i < j < |bs| ensures !(bs[j].path <= bs[i].path) {
        assert all[j] == bs[j];
      }
    }
  }

  lemma LeavesHaveBindings(bs: seq<Binding>, x: Binding, t: Tree)
    requires Describes(bs, t)
    ensures var all := bs + [x];
            forall p :: p in Insert(t, x.path, x.value).leaves ==>
              exists i :: 0 <= i < |all| && all[i].path == p && Survives(all, i)
  {
    hide Prefixes;
    var all := bs + [x];
    assert all[|bs|] == x && Survives(all, |bs|);
    forall p | p in Insert(t, x.path, x.value).leaves
      ensures exists i :: 0 <= i < |all| && all[i].path == p && Survives(all, i)
    {
      if p != x.path {
        var i :| 0 <= i < |bs| && bs[i].path == p && Survives(bs, i);
        SurvivesAppend(bs, x, i);
        assert all[i].path == p && Survives(all, i);
      }
    }
  }

  lemma BindingsHaveLeaves(bs: seq<Binding>, x: Binding, t: Tree)
    requires Describes(bs, t)
    ensures var all, leaves := bs + [x], Insert(t, x.path, x.value).leaves;
            forall i :: 0 <= i < |all| && Survives(all, i) ==>
                all[i].path in leaves && leaves[all[i].path] == all[i].value
  {
    hide Prefixes, Survives;
    var all, leaves := bs + [x], Insert(t, x.path, x.value).leaves;
    forall i | 0 <= i < |all| && Survives(all, i) ensures all[i].path in leaves && leaves[all[i].path] == all[i].value {
      if i < |bs| {
        SurvivesAppend(bs, x, i);
        assert all[i] == bs[i];
      }
    }
  }

  lemma InsertDescribes(bs: seq<Binding>, x: Binding, t: Tree)
    requires Describes(bs, t)
    ensures Describes(bs + [x], Insert(t, x.path, x.value))
  {
    hide Insert, Survives;
    LeavesHaveBindings(bs, x, t);
    BindingsHaveLeaves(bs, x, t);
  }

  lemma InsertCovers(bs: seq<Binding>, x: Binding, t: Tree)
    requires Covers(bs, t) && x.path != []
    ensures Covers(bs + [x], Insert(t, x.path, x.value))
  {
    hide Prefixes;
    var all := bs + [x];
    var t' := Insert(t, x.path, x.value);
    forall i | 0 <= i < |all| ensures TextOn(t', all[i].path) {
      var q := all[i].path;
      if i == |bs| {
        assert q[..|q|] == x.path;
      } else {
        assert TextOn(t, bs[i].path);
        var n :| 0 < n <= |q| && q[..n] in t.leaves;
        if x.path < q[..n] {
          assert q[..|x.path|] == x.path;
        } else {
          assert q[..n] in t'.leaves;
        }
      }
    }
  }

  // ---- Flattening back ----

  /** The tree's texts under their dotted names. */
  ghost predicate Flattens(t: Tree, flat: map<string, string>) {
    && (forall p :: p in t.leaves ==> Join(p) in flat && flat[Join(p)] == t.leaves[p])
    && (forall n :: n in flat ==> Split(n) in t.leaves)
  }

  /** The last of the parameters with a name. */
  predicate LastOf(ps: seq<HelmParameter>, i: nat)
    requires i < |ps|
  {
    forall j :: i < j < |ps| ==> ps[j].name != ps[i].name
  }

  function LastValues(ps: seq<HelmParameter>): map<string, string> {
    if ps == [] then map[] else LastValues(ps[..|ps| - 1])[ps[|ps| - 1].name := ps[|ps| - 1].value]
  }

  lemma {:induction false} LastValuesAreLast(ps: seq<HelmParameter>)
    ensures forall n :: n in LastValues(ps) ==> exists i :: 0 <= i < |ps| && ps[i].name == n && LastOf(ps, i)
    ensures forall i :: 0 <= i < |ps| && LastOf(ps, i) ==>
        ps[i].name in LastValues(ps) && LastValues(ps)[ps[i].name] == ps[i].value
  {
    if ps != [] {
      var init, last := ps[..|ps| - 1], ps[|ps| - 1];
      LastValuesAreLast(init);
      assert LastOf(ps, |ps| - 1);
      forall i | 0 <= i < |init| ensures LastOf(ps, i) <==> LastOf(init, i) && last.name != init[i].name {
        if LastOf(ps, i) {
          assert forall j :: i < j < |init| ==> init[j] == ps[j];
        }
      }
      forall n | n in LastValues(ps) ensures exists i :: 0 <= i < |ps| && ps[i].name == n && LastOf(ps, i) {
        if n != last.name {
          var i :| 0 <= i < |init| && init[i].name == n && LastOf(init, i);
          assert ps[i].name == n && LastOf(ps, i);
        }
      }
    }
  }

  /** No dotted path is a strict beginning of another. */
  predicate PrefixFree(bs: seq<Binding>) {
    forall i, j :: 0 <= i < |bs| && 0 <= j < |bs| ==> !(bs[i].path < bs[j].path)
  }

  lemma SplitIsInjective(a: string, b: string)
    ensures Split(a) == Split(b) <==> a == b
  {
    JoinUndoesSplit(a);
    JoinUndoesSplit(b);
  }

  lemma SurvivorsAreLast(ps: seq<HelmParameter>, i: nat)
    requires PrefixFree(Bindings(ps)) && i < |ps|
    ensures Survives(Bindings(ps), i) <==> LastOf(ps, i)
  {
    hide Split, Bindings;
    var bs := Bindings(ps);
    forall j | i < j < |ps| ensures bs[j].path <= bs[i].path <==> ps[j].name == ps[i].name {
      SplitIsInjective(ps[j].name, ps[i].name);
      assert !(bs[j].path < bs[i].path);
      assert bs[j].path <= bs[i].path ==> bs[j].path == bs[i].path;
    }
  }

  lemma LeavesAreLast(ps: seq<HelmParameter>, t: Tree)
    requires PrefixFree(Bindings(ps)) && Describes(Bindings(ps), t)
    ensures forall p :: p in t.leaves ==> Join(p) in LastValues(ps) && LastValues(ps)[Join(p)] == t.leaves[p]
  {
    hide Split, Join, LastValues, PrefixFree, Survives, LastOf;
    var bs := Bindings(ps);
    LastValuesAreLast(ps);
    forall p | p in t.leaves ensures Join(p) in LastValues(ps) && LastValues(ps)[Join(p)] == t.leaves[p] {
      var i :| 0 <= i < |bs| && bs[i].path == p && Survives(bs, i);
      JoinUndoesSplit(ps[i].name);
      SurvivorsAreLast(ps, i);
    }
  }

  lemma LastAreLeaves(ps: seq<HelmParameter>, t: Tree)
    requires PrefixFree(Bindings(ps)) && Describes(Bindings(ps), t)
    ensures forall n :: n in LastValues(ps) ==> Split(n) in t.leaves
  {
    hide Split, LastValues, PrefixFree, Survives, LastOf;
    var bs := Bindings(ps);
    LastValuesAreLast(ps);
    forall n | n in LastValues(ps) ensures Split(n) in t.leaves {
      var i :| 0 <= i < |ps| && ps[i].name == n && LastOf(ps, i);
      SurvivorsAreLast(ps, i);
      assert bs[i].path in t.leaves;
    }
  }

  /** Such names never fail, and flattening the tree gives each name its last value. */
  lemma FlattenUndoesNesting(ps: seq<HelmParameter>)
    requires PrefixFree(Bindings(ps))
    ensures InsertAll(Bindings(ps)).Some? && Flattens(InsertAll(Bindings(ps)).value, LastValues(ps))
  {
    hide Split, Bindings, Join, InsertAll, LastValues, Covers, Describes;
    var bs := Bindings(ps);
    TreeOfBindings(bs);
    assert !Clashes(bs);
    LeavesAreLast(ps, InsertAll(bs).value);
    LastAreLeaves(ps, InsertAll(bs).value);
  }
}
