/** The nested maps as the operator builds them: objects, changed in place by a walk along each name. */
module NestedTables {
  import opened Wrappers
  import opened Applications
  import opened NestedValues

  /** A Go map[string]any: each entry is a text or another map. */
  class Table {
    var entries: map<string, Entry>

    constructor ()
      ensures entries == map[]
    {
      entries := map[];
    }
  }

  datatype Entry = Text(text: string) | Sub(table: Table)

  /** Which table object sits at which path. */
  type Shape = map<Path, Table>

  function Child(p: Path, k: string): Path {
    p + [k]
  }

  function Up(p: Path): Path {
    if p == [] then [] else p[..|p| - 1]
  }

  function End(p: Path): string {
    if p == [] then "" else p[|p| - 1]
  }

  lemma ChildFacts()
    ensures forall p, k :: Up(Child(p, k)) == p && End(Child(p, k)) == k && Child(p, k) != []
  {
    forall p, k ensures Up(Child(p, k)) == p && End(Child(p, k)) == k {
      assert Child(p, k)[..|Child(p, k)| - 1] == p;
    }
  }

  type Contents = map<Path, map<string, Entry>>

  ghost function Read(shape: Shape): (c: Contents)
    reads shape.Values
    ensures c.Keys == shape.Keys
  {
    map p | p in shape :: shape[p].entries
  }

  ghost predicate Distinct(shape: Shape) {
    forall p, q :: p in shape && q in shape && p != q ==> shape[p] != shape[q]
  }

  ghost predicate SubsLead(shape: Shape, c: Contents) {
    forall p, k :: p in c && k in c[p] && c[p][k].Sub? ==> Child(p, k) in shape && shape[Child(p, k)] == c[p][k].table
  }

  ghost predicate TablesHang(shape: Shape, c: Contents) {
    forall p, k :: Child(p, k) in shape ==> p in c && k in c[p] && c[p][k] == Sub(shape[Child(p, k)])
  }

  ghost predicate TextsListed(c: Contents, leaves: map<Path, string>) {
    forall p, k :: p in c && k in c[p] && c[p][k].Text? ==> Child(p, k) in leaves && leaves[Child(p, k)] == c[p][k].text
  }

  ghost predicate LeavesHang(c: Contents, leaves: map<Path, string>) {
    forall p, k :: Child(p, k) in leaves ==> p in c && k in c[p] && c[p][k] == Text(leaves[Child(p, k)])
  }

  /** Contents and tree agree: the same texts, the same tables, each table a different object. */
  ghost predicate Agrees(root: Table, shape: Shape, c: Contents, t: Tree) {
    && shape.Keys == c.Keys == t.tables
    && [] in shape && shape[[]] == root && [] !in t.leaves
    && Distinct(shape) && SubsLead(shape, c) && TablesHang(shape, c)
    && TextsListed(c, t.leaves) && LeavesHang(c, t.leaves)
  }

  /** The objects hold exactly the tree. */
  ghost predicate Holds(root: Table, shape: Shape, t: Tree)
    reads shape.Values
  {
    Agrees(root, shape, Read(shape), t)
  }

  function WithTable(c: Contents, at: Path, key: string, next: Table): Contents
    requires at in c
  {
    c[at := c[at][key := Sub(next)]][Child(at, key) := map[]]
  }

  lemma NewTableHangs(shape: Shape, c: Contents, at: Path, key: string, next: Table)
    requires c.Keys == shape.Keys && SubsLead(shape, c) && TablesHang(shape, c)
    requires at in c && key !in c[at] && Child(at, key) !in shape
    ensures SubsLead(shape[Child(at, key) := next], WithTable(c, at, key, next))
    ensures TablesHang(shape[Child(at, key) := next], WithTable(c, at, key, next))
  {
    ChildFacts();
    hide Child, Up, End;
    var shape': Shape := shape[Child(at, key) := next];
    var c': Contents := WithTable(c, at, key, next);
    forall p: Path, k: string | p in c' && k in c'[p] && c'[p][k].Sub?
      ensures Child(p, k) in shape' && shape'[Child(p, k)] == c'[p][k].table
    {
      if !(p == at && k == key) {
        assert c'[p][k] == c[p][k];
      }
    }
    forall p: Path, k: string | Child(p, k) in shape'
      ensures p in c' && k in c'[p] && c'[p][k] == Sub(shape'[Child(p, k)])
    {
      if Child(p, k) == Child(at, key) {
        assert p == at && k == key;
      } else {
        assert p in c && k in c[p];
      }
    }
  }

  lemma NewTableTexts(c: Contents, leaves: map<Path, string>, at: Path, key: string, next: Table)
    requires TextsListed(c, leaves) && LeavesHang(c, leaves)
    requires at in c && key !in c[at] && Child(at, key) !in c
    ensures TextsListed(WithTable(c, at, key, next), leaves)
    ensures LeavesHang(WithTable(c, at, key, next), leaves)
  {
    ChildFacts();
    hide Child, Up, End;
    var c': Contents := WithTable(c, at, key, next);
    forall p: Path, k: string | p in c' && k in c'[p] && c'[p][k].Text?
      ensures Child(p, k) in leaves && leaves[Child(p, k)] == c'[p][k].text
    {
      assert c'[p][k] == c[p][k];
    }
    forall p: Path, k: string | Child(p, k) in leaves
      ensures p in c' && k in c'[p] && c'[p][k] == Text(leaves[Child(p, k)])
    {
      assert p in c && k in c[p];
    }
  }

  lemma NewTableAgrees(root: Table, shape: Shape, c: Contents, t: Tree, at: Path, key: string, next: Table)
    requires Agrees(root, shape, c, t) && at in c && key !in c[at] && next !in shape.Values
    ensures Child(at, key) !in shape && Child(at, key) !in t.leaves
    ensures var wider := t.(tables := t.tables + {Child(at, key)});
            Agrees(root, shape[Child(at, key) := next], WithTable(c, at, key, next), wider)
  {
    ChildFacts();
    hide Child, Up, End;
    assert Child(at, key) !in shape;
    NewTableHangs(shape, c, at, key, next);
    NewTableTexts(c, t.leaves, at, key, next);
    hide SubsLead, TablesHang, TextsListed, LeavesHang;
  }

  /** The store after a text was put at the key: whatever hung below is cut off. */
  function CutShape(shape: Shape, path: Path): Shape {
    map p | p in shape && !(path <= p) :: shape[p]
  }

  function CutTables(tables: set<Path>, path: Path): set<Path> {
    set q | q in tables && !(path <= q)
  }

  function WithText(c: Contents, at: Path, key: string, v: string): Contents
    requires at in c
  {
    map p | p in c && !(Child(at, key) <= p) :: if p == at then c[p][key := Text(v)] else c[p]
  }

  function CutLeaves(leaves: map<Path, string>, path: Path, v: string): map<Path, string> {
    (map p | p in leaves && !(path < p) :: leaves[p])[path := v]
  }

  lemma PutHangs(shape: Shape, c: Contents, at: Path, key: string, v: string)
    requires c.Keys == shape.Keys && SubsLead(shape, c) && TablesHang(shape, c) && at in c
    ensures SubsLead(CutShape(shape, Child(at, key)), WithText(c, at, key, v))
    ensures TablesHang(CutShape(shape, Child(at, key)), WithText(c, at, key, v))
  {
    ChildFacts();
    BelowFacts(Child(at, key));
    hide Child, Up, End;
    var path := Child(at, key);
    var shape': Shape := CutShape(shape, path);
    var c': Contents := WithText(c, at, key, v);
    forall p: Path, k: string | p in c' && k in c'[p] && c'[p][k].Sub?
      ensures Child(p, k) in shape' && shape'[Child(p, k)] == c'[p][k].table
    {
      assert c'[p][k] == c[p][k];
    }
    forall p: Path, k: string | Child(p, k) in shape'
      ensures p in c' && k in c'[p] && c'[p][k] == Sub(shape'[Child(p, k)])
    {
      assert p in c && k in c[p];
      assert Child(p, k) != path;
    }
  }

  lemma PutTexts(c: Contents, leaves: map<Path, string>, at: Path, key: string, v: string)
    requires TextsListed(c, leaves) && LeavesHang(c, leaves) && at in c && !(Child(at, key) <= at)
    ensures TextsListed(WithText(c, at, key, v), CutLeaves(leaves, Child(at, key), v))
    ensures LeavesHang(WithText(c, at, key, v), CutLeaves(leaves, Child(at, key), v))
  {
    ChildFacts();
    BelowFacts(Child(at, key));
    hide Child, Up, End;
    var path := Child(at, key);
    var c': Contents := WithText(c, at, key, v);
    var leaves' := CutLeaves(leaves, path, v);
    forall p: Path, k: string | p in c' && k in c'[p] && c'[p][k].Text?
      ensures Child(p, k) in leaves' && leaves'[Child(p, k)] == c'[p][k].text
    {
      if !(p == at && k == key) {
        assert c'[p][k] == c[p][k];
        assert Child(p, k) != path;
      }
    }
    forall p: Path, k: string | Child(p, k) in leaves'
      ensures p in c' && k in c'[p] && c'[p][k] == Text(leaves'[Child(p, k)])
    {
      if Child(p, k) == path {
        assert p == at && k == key;
      } else {
        assert p in c && k in c[p];
      }
    }
  }

  lemma PutAgrees(root: Table, shape: Shape, c: Contents, t: Tree, at: Path, key: string, v: string)
    requires Agrees(root, shape, c, t) && at in c
    ensures var path := Child(at, key);
            Agrees(root, CutShape(shape, path), WithText(c, at, key, v),
                   Tree(CutLeaves(t.leaves, path, v), CutTables(t.tables, path)))
  {
    ChildFacts();
    ChildLength(at, key);
    assert !(Child(at, key) <= at) && !(Child(at, key) <= []);
    hide Child, Up, End;
    PutHangs(shape, c, at, key, v);
    PutTexts(c, t.leaves, at, key, v);
    hide SubsLead, TablesHang, TextsListed, LeavesHang;
  }

  lemma ChildLength(p: Path, k: string)
    ensures |Child(p, k)| == |p| + 1
  {
  }

  /** A missing table is made and hung in place. */
  method Make(root: Table, ghost shape: Shape, ghost t: Tree, ghost at: Path, current: Table, key: string)
    returns (next: Table, ghost shape': Shape)
    requires Holds(root, shape, t) && at in shape && shape[at] == current && key !in current.entries
    modifies current
    ensures Child(at, key) !in t.leaves
    ensures Holds(root, shape', t.(tables := t.tables + {Child(at, key)}))
    ensures fresh(next) && shape' == shape[Child(at, key) := next]
  {
    hide Child, SubsLead, TablesHang, TextsListed, LeavesHang;
    ghost var c := Read(shape);
    next := new Table();
    NewTableAgrees(root, shape, c, t, at, key, next);
    current.entries := current.entries[key := Sub(next)];
    shape' := shape[Child(at, key) := next];
    assert Read(shape') == WithTable(c, at, key, next);
  }

  /** One step of the walk: into the table at the key, made if it is missing; a text there is a failure. */
  method Enter(root: Table, ghost shape: Shape, ghost t: Tree, ghost at: Path, current: Table, key: string)
    returns (ok: bool, next: Table, ghost shape': Shape)
    requires Holds(root, shape, t) && at in shape && shape[at] == current
    modifies current
    ensures ok <==> Child(at, key) !in t.leaves
    ensures ok ==> Holds(root, shape', t.(tables := t.tables + {Child(at, key)}))
    ensures ok ==> Child(at, key) in shape' && shape'[Child(at, key)] == next
    ensures forall x :: x in shape'.Values ==> x in shape.Values || fresh(x)
  {
    hide Child, Agrees;
    shape' := shape;
    next := current;
    if key !in current.entries {
      next, shape' := Make(root, shape, t, at, current, key);
      ok := true;
    } else {
      EntryIsTracked(root, shape, Read(shape), t, at, key);
      match current.entries[key] {
        case Text(_) => ok := false;
        case Sub(table) =>
          next := table;
          ok := true;
          TableIsListed(root, shape, t, Child(at, key));
      }
    }
  }

  lemma TableIsListed(root: Table, shape: Shape, t: Tree, p: Path)
    requires Holds(root, shape, t) && p in shape
    ensures t.(tables := t.tables + {p}) == t
  {
    assert t.tables + {p} == t.tables;
  }

  lemma EntryIsTracked(root: Table, shape: Shape, c: Contents, t: Tree, at: Path, key: string)
    requires Agrees(root, shape, c, t) && at in c && key in c[at]
    ensures c[at][key].Text? <==> Child(at, key) in t.leaves
    ensures c[at][key].Sub? ==> Child(at, key) in shape && shape[Child(at, key)] == c[at][key].table
  {
    hide Child;
  }

  /** The last step: a text at the key, over whatever was there. */
  method Put(root: Table, ghost shape: Shape, ghost t: Tree, ghost at: Path, current: Table, key: string, v: string)
    returns (ghost shape': Shape)
    requires Holds(root, shape, t) && at in shape && shape[at] == current
    modifies current
    ensures var path := Child(at, key);
            Holds(root, shape', Tree(CutLeaves(t.leaves, path, v), CutTables(t.tables, path)))
    ensures shape'.Values <= shape.Values
  {
    hide Child, SubsLead, TablesHang, TextsListed, LeavesHang;
    ghost var c := Read(shape);
    ghost var path := Child(at, key);
    PutAgrees(root, shape, c, t, at, key, v);
    current.entries := current.entries[key := Text(v)];
    shape' := CutShape(shape, path);
    assert Read(shape') == WithText(c, at, key, v);
  }

  lemma BelowFacts(path: Path)
    ensures forall p, k :: path < Child(p, k) <==> path <= p
    ensures forall p, k :: path <= Child(p, k) <==> path <= p || path == Child(p, k)
  {
    forall p, k ensures path < Child(p, k) <==> path <= p {
      if path < Child(p, k) {
        assert p[..|path|] == Child(p, k)[..|path|];
      }
      if path <= p {
        assert Child(p, k)[..|path|] == p[..|path|];
      }
    }
  }

  // ---- The whole walk, and all names ----

  /** The tree with the tables above the path opened as far as the walk has come. */
  function Opened(t: Tree, path: Path, n: nat): Tree
    requires n < |path|
  {
    t.(tables := t.tables + set i | 0 <= i <= n :: path[..i])
  }

  lemma OpenedNext(t: Tree, path: Path, n: nat)
    requires n + 1 < |path|
    ensures Opened(t, path, n + 1).tables == Opened(t, path, n).tables + {Child(path[..n], path[n])}
  {
    assert Child(path[..n], path[n]) == path[..n + 1];
  }

  lemma OpenedLast(t: Tree, path: Path, v: string)
    requires path != []
    ensures Insert(t, path, v)
         == Tree(CutLeaves(t.leaves, path, v), CutTables(Opened(t, path, |path| - 1).tables, path))
  {
    assert Insert(t, path, v).tables == CutTables(Opened(t, path, |path| - 1).tables, path);
  }

  /** Walks along the path and puts the text there; fails where the walk meets a text. */
  method InsertPath(root: Table, ghost shape: Shape, ghost t: Tree, path: Path, v: string)
    returns (ok: bool, ghost shape': Shape)
    requires Holds(root, shape, t) && path != []
    modifies shape.Values
    ensures ok <==> !Blocked(t, path)
    ensures ok ==> Holds(root, shape', Insert(t, path, v))
    ensures forall x :: x in shape'.Values ==> x in shape.Values || fresh(x)
  {
    hide Agrees, Child;
    var current := root;
    var last := |path| - 1;
    shape' := shape;
    assert [] in shape && shape[[]] == root by { RootIsListed(root, shape, t); }
    assert Opened(t, path, 0) == t by { RootIsListed(root, shape, t); }
    for i := 0 to last
      invariant Holds(root, shape', Opened(t, path, i))
      invariant path[..i] in shape' && shape'[path[..i]] == current
      invariant forall n :: 0 < n <= i ==> path[..n] !in t.leaves
      invariant forall x :: x in shape'.Values ==> x in shape.Values || fresh(x)
      modifies shape.Values
    {
      assert Child(path[..i], path[i]) == path[..i + 1] by { ChildOfPrefix(path, i); }
      OpenedNext(t, path, i);
      ok, current, shape' := Enter(root, shape', Opened(t, path, i), path[..i], current, path[i]);
      if !ok {
        return false, shape';
      }
    }
    assert Child(path[..last], path[last]) == path by { ChildOfPrefix(path, last); }
    OpenedLast(t, path, v);
    shape' := Put(root, shape', Opened(t, path, last), path[..last], current, path[last], v);
    ok := true;
  }

  lemma RootIsListed(root: Table, shape: Shape, t: Tree)
    requires Holds(root, shape, t)
    ensures [] in shape && shape[[]] == root
    ensures forall path: Path :: path != [] ==> Opened(t, path, 0) == t
  {
    forall path: Path | path != [] ensures Opened(t, path, 0) == t {
      assert path[..0] == [];
      assert t.tables + {[]} == t.tables;
    }
  }

  lemma ChildOfPrefix(path: Path, i: nat)
    requires i < |path|
    ensures Child(path[..i], path[i]) == path[..i + 1]
    ensures i + 1 == |path| ==> path[..i + 1] == path
  {
  }

  /** One parameter: its name is split and its value put at the end of the walk. */
  method AddParameter(root: Table, ghost shape: Shape, ghost bs: seq<Binding>, ghost i: nat, param: HelmParameter)
    returns (ok: bool, ghost shape': Shape)
    requires i < |bs| && bs[i] == Binding(Split(param.name), param.value)
    requires InsertAll(bs[..i]).Some? && Holds(root, shape, InsertAll(bs[..i]).value)
    modifies shape.Values
    ensures ok <==> InsertAll(bs[..i + 1]).Some?
    ensures ok ==> Holds(root, shape', InsertAll(bs[..i + 1]).value)
    ensures forall x :: x in shape'.Values ==> x in shape.Values || fresh(x)
  {
    hide Holds, Blocked, Insert, InsertAll, Split;
    var keys := Split(param.name);
    OneMore(bs, i);
    ok, shape' := InsertPath(root, shape, InsertAll(bs[..i]).value, keys, param.value);
  }

  /**
   convertArgoHelmParametersToMap: all names in order. It fails exactly when a name is a strict
   beginning of a later one, and otherwise leaves objects that hold the tree of the insertions.
   */
  method ConvertParameters(params: seq<HelmParameter>) returns (ok: bool, result: Table, ghost shape: Shape)
    ensures ok <==> !Clashes(Bindings(params))
    ensures ok ==> InsertAll(Bindings(params)).Some? && Holds(result, shape, InsertAll(Bindings(params)).value)
  {
    hide Bindings, Clashes, Describes, Covers, Holds, Agrees, InsertAll, Split;
    ghost var bs := Bindings(params);
    result := new Table();
    shape := map[[] := result];
    EmptyHolds(result, shape);
    assert InsertAll(bs[..0]) == Some(EMPTY) by { NothingInserted(); }
    for i := 0 to |params|
      invariant InsertAll(bs[..i]).Some? && Holds(result, shape, InsertAll(bs[..i]).value)
      invariant forall x :: x in shape.Values ==> fresh(x)
    {
      ok, shape := AddParameter(result, shape, bs, i, params[i]);
      if !ok {
        FailureIsFinal(bs, i + 1);
        TreeOfBindings(bs);
        return;
      }
    }
    assert bs[..|params|] == bs;
    TreeOfBindings(bs);
    ok := true;
  }

  lemma NothingInserted()
    ensures InsertAll([]) == Some(EMPTY)
  {
  }

  lemma OneMore(bs: seq<Binding>, i: nat)
    requires i < |bs| && InsertAll(bs[..i]).Some?
    ensures var t := InsertAll(bs[..i]).value;
            InsertAll(bs[..i + 1]) == if Blocked(t, bs[i].path) then None else Some(Insert(t, bs[i].path, bs[i].value))
  {
    assert bs[..i + 1][..i] == bs[..i];
  }

  lemma EmptyHolds(root: Table, shape: Shape)
    requires shape == map[[] := root] && root.entries == map[]
    ensures Holds(root, shape, EMPTY)
  {
  }

  lemma {:induction false} FailureIsFinal(bs: seq<Binding>, n: nat)
    requires n <= |bs| && InsertAll(bs[..n]).None?
    ensures InsertAll(bs).None?
    decreases |bs|
  {
    if n < |bs| {
      var init := bs[..|bs| - 1];
      assert init[..n] == bs[..n];
      FailureIsFinal(init, n);
    } else {
      assert bs[..n] == bs;
    }
  }
}
