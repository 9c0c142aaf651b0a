/**
 Values files merged layer by layer. `CoalesceTables` is Helm's merge as the vendored library codes
 it, nulls included: what the first argument says wins, a null in it removes the second's value.
 */
module ValueLayers {
  import opened Wrappers

  datatype Value = Null | Scalar(text: string) | Nested(table: Table)
  datatype Table = Table(entries: map<string, Value>)

  const EMPTY := Table(map[])

  type Path = seq<string>

  // ---- The library's merge ----

  /** Whether the merged table has the key: a null meeting a value removes it. */
  predicate Keeps(dst: Table, src: Table, key: string) {
    if key !in dst.entries then key in src.entries
    else !(dst.entries[key].Null? && key in src.entries && !src.entries[key].Null?)
  }

  function CoalesceTables(dst: Table, src: Table): Table
    decreases dst
  {
    Table(map key | key in dst.entries.Keys + src.entries.Keys && Keeps(dst, src, key) ::
      if key !in dst.entries then src.entries[key]
      else if key in src.entries && src.entries[key].Nested? && dst.entries[key].Nested? then
        Nested(CoalesceTables(dst.entries[key].table, src.entries[key].table))
      else dst.entries[key])
  }

  // ---- What a layer says about a path ----

  /**
   `Covered`: a scalar sits on the way. `Cleared`: a null sits on the way or at the end. `Silent`:
   the tables on the way run out of keys.
   */
  datatype Word = Silent | Cleared | Covered | Text(text: string) | Opened

  function Says(t: Table, path: Path): Word
    decreases |path|
  {
    if path == [] then Opened
    else if path[0] !in t.entries then Silent
    else match t.entries[path[0]]
      case Null => Cleared
      case Scalar(text) => if |path| == 1 then Text(text) else Covered
      case Nested(table) => Says(table, path[1..])
  }

  /** What a reader of the table sees: a text, a table, or nothing. */
  function Heard(w: Word): Word {
    if w.Text? || w.Opened? then w else Silent
  }

  /** What the last layer that says anything about the path says. */
  function LastWord(layers: seq<Table>, path: Path): Word {
    if layers == [] then (if path == [] then Opened else Silent)
    else
      var w := Says(layers[|layers| - 1], path);
      if w.Silent? then LastWord(layers[..|layers| - 1], path) else w
  }

  lemma {:induction false} FirstArgumentWins(dst: Table, src: Table, path: Path)
    ensures Heard(Says(CoalesceTables(dst, src), path)) ==
            Heard(if Says(dst, path).Silent? then Says(src, path) else Says(dst, path))
    decreases |path|
  {
    if path != [] && path[0] in dst.entries && path[0] in src.entries
       && dst.entries[path[0]].Nested? && src.entries[path[0]].Nested? {
      FirstArgumentWins(dst.entries[path[0]].table, src.entries[path[0]].table, path[1..]);
    }
  }

  /** How far down the path the table has a null, 0 if it has none on it. */
  function NullDepth(t: Table, path: Path): (n: nat)
    ensures n <= |path|
    ensures n > 0 <==> Says(t, path).Cleared?
    decreases |path|
  {
    if path == [] || path[0] !in t.entries then 0
    else match t.entries[path[0]]
      case Null => 1
      case Scalar(_) => 0
      case Nested(table) =>
        var n := NullDepth(table, path[1..]);
        if n == 0 then 0 else n + 1
  }

  /** Something other than a null at that place: a text or a table. */
  predicate Speaks(w: Word) {
    w.Text? || w.Opened?
  }

  /**
   Which nulls are left: one of the first argument that met no value of the second, which would have
   taken it away with itself, and one of the second where the first has nothing at all.
   */
  lemma {:induction false} NullsAreSpent(dst: Table, src: Table, path: Path)
    ensures var m, n := NullDepth(dst, path), NullDepth(src, path);
            Says(CoalesceTables(dst, src), path).Cleared? <==>
              || (m > 0 && !Speaks(Says(src, path[..m])))
              || (n > 0 && Says(dst, path[..n]).Silent?)
    decreases |path|
  {
    if path != [] {
      var m, n := NullDepth(dst, path), NullDepth(src, path);
      assert m > 0 ==> path[..m][0] == path[0] && path[..m][1..] == path[1..][..m - 1];
      assert n > 0 ==> path[..n][0] == path[0] && path[..n][1..] == path[1..][..n - 1];
      if path[0] in dst.entries && path[0] in src.entries
         && dst.entries[path[0]].Nested? && src.entries[path[0]].Nested? {
        NullsAreSpent(dst.entries[path[0]].table, src.entries[path[0]].table, path[1..]);
      }
    }
  }

  // ---- Folding the files ----

  datatype File = Missing | Broken | Parsed(table: Table)

  /** The tables of the files that exist, in order. */
  function Layers(files: seq<File>): seq<Table> {
    if files == [] then []
    else
      var last := files[|files| - 1];
      Layers(files[..|files| - 1]) + if last.Parsed? then [last.table] else []
  }

  function Merged(layers: seq<Table>): Table {
    if layers == [] then EMPTY
    else CoalesceTables(layers[|layers| - 1], Merged(layers[..|layers| - 1]))
  }

  lemma {:induction false} LastWordIsHeard(layers: seq<Table>, path: Path)
    ensures Heard(Says(Merged(layers), path)) == Heard(LastWord(layers, path))
  {
    if layers != [] {
      LastWordIsHeard(layers[..|layers| - 1], path);
      FirstArgumentWins(layers[|layers| - 1], Merged(layers[..|layers| - 1]), path);
    }
  }

  /** The file says something about the path, and no later one does. */
  ghost predicate LastToSpeak(files: seq<File>, i: nat, path: Path)
    requires i < |files|
  {
    && files[i].Parsed? && !Says(files[i].table, path).Silent?
    && forall j :: i < j < |files| && files[j].Parsed? ==> Says(files[j].table, path).Silent?
  }

  ghost predicate AllSilent(files: seq<File>, path: Path) {
    forall i :: 0 <= i < |files| && files[i].Parsed? ==> Says(files[i].table, path).Silent?
  }

  lemma OneMoreWord(below: seq<Table>, files: seq<File>, path: Path)
    requires files != []
    ensures var init, last := below + Layers(files[..|files| - 1]), files[|files| - 1];
            LastWord(below + Layers(files), path) ==
              (if last.Parsed? && !Says(last.table, path).Silent? then Says(last.table, path) else LastWord(init, path))
  {
    var init, last := files[..|files| - 1], files[|files| - 1];
    if last.Parsed? {
      assert below + Layers(files) == (below + Layers(init)) + [last.table];
      assert ((below + Layers(init)) + [last.table])[..|below + Layers(init)|] == below + Layers(init);
    } else {
      assert Layers(files) == Layers(init);
    }
  }

  /** Over layers of which the first is below all files: the last file to speak decides, or the first layer. */
  lemma {:induction false} LastFileDecides(below: seq<Table>, files: seq<File>, path: Path)
    ensures forall i :: 0 <= i < |files| && LastToSpeak(files, i, path) ==>
      LastWord(below + Layers(files), path) == Says(files[i].table, path)
    ensures AllSilent(files, path) ==> LastWord(below + Layers(files), path) == LastWord(below, path)
  {
    if files == [] {
      assert below + [] == below;
    } else {
      var init, last := files[..|files| - 1], files[|files| - 1];
      LastFileDecides(below, init, path);
      hide LastWord;
      assert forall i :: 0 <= i < |init| ==> files[i] == init[i];
      OneMoreWord(below, files, path);
      forall i | 0 <= i < |files| && LastToSpeak(files, i, path)
        ensures LastWord(below + Layers(files), path) == Says(files[i].table, path)
      {
        if i < |init| {
          assert LastToSpeak(init, i, path);
        }
      }
    }
  }

  lemma OneMoreFile(files: seq<File>, i: nat)
    requires i < |files|
    ensures Layers(files[..i + 1])
         == if files[i].Parsed? then Layers(files[..i]) + [files[i].table] else Layers(files[..i])
    ensures files[..i + 1] == files[..i] + [files[i]]
  {
    assert files[..i + 1][..i] == files[..i];
  }

  lemma OneMoreLayer(layers: seq<Table>, t: Table)
    ensures Merged(layers + [t]) == CoalesceTables(t, Merged(layers))
  {
    assert (layers + [t])[..|layers|] == layers;
  }

  /** A file that cannot be parsed stops the merge; a missing one is skipped. */
  method MergeHelmValues(files: seq<File>) returns (r: Option<Table>)
    ensures r.None? <==> Broken in files
    ensures r.Some? ==> forall path :: Heard(Says(r.value, path)) == Heard(LastWord(Layers(files), path))
    ensures r.Some? ==> forall path, i :: 0 <= i < |files| && LastToSpeak(files, i, path) ==>
      Heard(Says(r.value, path)) == Heard(Says(files[i].table, path))
    ensures r.Some? ==> r.value == Merged(Layers(files))
  {
    var mergedValues := EMPTY;
    for i := 0 to |files|
      invariant Broken !in files[..i]
      invariant mergedValues == Merged(Layers(files[..i]))
    {
      OneMoreFile(files, i);
      match files[i] {
        case Missing =>
        case Broken =>
          return None;
        case Parsed(values) =>
          OneMoreLayer(Layers(files[..i]), values);
          mergedValues := CoalesceTables(values, mergedValues);
      }
    }
    assert files == files[..|files|];
    forall path ensures Heard(Says(mergedValues, path)) == Heard(LastWord(Layers(files), path)) {
      LastWordIsHeard(Layers(files), path);
    }
    forall path, i | 0 <= i < |files| && LastToSpeak(files, i, path)
      ensures Heard(Says(mergedValues, path)) == Heard(Says(files[i].table, path))
    {
      LastFileDecides([], files, path);
      assert [] + Layers(files) == Layers(files);
    }
    r := Some(mergedValues);
  }

  ghost predicate NullFree(t: Table) {
    forall path :: !Says(t, path).Cleared?
  }

  lemma EmptyIsNeutral(t: Table)
    ensures CoalesceTables(t, EMPTY) == t
  {
    assert CoalesceTables(t, EMPTY).entries == t.entries;
  }

  /** The merge of a template's values: the parameters come first, and once more at the end. */
  method MergeTemplateValues(files: seq<File>, params: Table) returns (r: Option<Table>)
    requires forall f :: f in files && f.Parsed? ==> NullFree(f.table)
    ensures r.None? <==> Broken in files
    ensures r.Some? ==> r.value == CoalesceTables(Merged([params] + Layers(files)), params)
  {
    EmptyIsNeutral(params);
    var mergedValues := CoalesceTables(params, EMPTY);
    for i := 0 to |files|
      invariant Broken !in files[..i]
      invariant mergedValues == Merged([params] + Layers(files[..i]))
    {
      OneMoreFile(files, i);
      match files[i] {
        case Missing =>
        case Broken =>
          return None;
        case Parsed(values) =>
          OneMoreLayer([params] + Layers(files[..i]), values);
          assert [params] + Layers(files[..i + 1]) == [params] + Layers(files[..i]) + [values];
          mergedValues := CoalesceTables(values, mergedValues);
      }
    }
    assert files == files[..|files|];
    r := Some(CoalesceTables(mergedValues, params));
  }

  // ---- What the last step of a template's merge changes ----

  /** A scalar hid the path, and a later layer put a table above it that does not have it. */
  predicate Uncovered(layers: seq<Table>, path: Path) {
    path != [] && LastWord(layers, path).Covered? && LastWord(layers, path[..|path| - 1]).Opened?
  }

  lemma {:induction false} NoNullAppears(dst: Table, src: Table, path: Path)
    requires !Says(dst, path).Cleared? && !Says(src, path).Cleared?
    ensures !Says(CoalesceTables(dst, src), path).Cleared?
    decreases |path|
  {
    if path != [] && path[0] in dst.entries && path[0] in src.entries
       && dst.entries[path[0]].Nested? && src.entries[path[0]].Nested? {
      NoNullAppears(dst.entries[path[0]].table, src.entries[path[0]].table, path[1..]);
    }
  }

  lemma {:induction false} MergedIsNullFree(layers: seq<Table>)
    requires forall t :: t in layers ==> NullFree(t)
    ensures NullFree(Merged(layers))
    ensures forall path :: !LastWord(layers, path).Cleared?
  {
    if layers != [] {
      var init, last := layers[..|layers| - 1], layers[|layers| - 1];
      MergedIsNullFree(init);
      assert last in layers;
      forall path ensures !Says(Merged(layers), path).Cleared? {
        NoNullAppears(last, Merged(init), path);
      }
    }
  }

  lemma FirstWord(t: Table, key: string)
    ensures Says(t, [key]) ==
            if key !in t.entries then Silent
            else match t.entries[key] { case Null => Cleared case Scalar(text) => Text(text) case Nested(_) => Opened }
  {
    assert [key][1..] == [];
  }

  /** Without nulls, a table is what it says. */
  lemma {:induction false} WordsDetermineTable(a: Table, b: Table)
    requires NullFree(a) && NullFree(b)
    requires forall path :: Heard(Says(a, path)) == Heard(Says(b, path))
    ensures a == b
    decreases a
  {
    forall key ensures key in a.entries <==> key in b.entries {
      assert Heard(Says(a, [key])) == Heard(Says(b, [key]));
      assert !Says(a, [key]).Cleared? && !Says(b, [key]).Cleared?;
      FirstWord(a, key);
      FirstWord(b, key);
    }
    forall key | key in a.entries ensures a.entries[key] == b.entries[key] {
      assert Heard(Says(a, [key])) == Heard(Says(b, [key]));
      assert !Says(a, [key]).Cleared? && !Says(b, [key]).Cleared?;
      FirstWord(a, key);
      FirstWord(b, key);
      if a.entries[key].Nested? {
        var x, y := a.entries[key].table, b.entries[key].table;
        forall path
          ensures Heard(Says(x, path)) == Heard(Says(y, path)) && !Says(x, path).Cleared? && !Says(y, path).Cleared?
        {
          var whole := [key] + path;
          assert whole[1..] == path;
          assert Heard(Says(a, whole)) == Heard(Says(b, whole));
          assert !Says(a, whole).Cleared? && !Says(b, whole).Cleared?;
        }
        WordsDetermineTable(x, y);
      }
    }
    assert a.entries == b.entries;
  }

  lemma {:induction false} WordAboveDecides(t: Table, path: Path)
    requires path != []
    ensures var above := Says(t, path[..|path| - 1]); var w := Says(t, path);
      && (above.Opened? ==> !w.Covered?)
      && (above.Text? || above.Covered? ==> w.Covered?)
      && (above.Silent? ==> w.Silent?)
      && (Speaks(w) ==> above.Opened?)
    decreases |path|
  {
    if |path| > 1 && path[0] in t.entries && t.entries[path[0]].Nested? {
      WordAboveDecides(t.entries[path[0]].table, path[1..]);
      assert path[1..][..|path| - 2] == path[..|path| - 1][1..];
    }
  }

  lemma {:induction false} SpokenIsNotSilent(layers: seq<Table>, t: Table, path: Path)
    requires t in layers && !Says(t, path).Silent?
    ensures !LastWord(layers, path).Silent?
  {
    var last := layers[|layers| - 1];
    if Says(last, path).Silent? {
      SpokenIsNotSilent(layers[..|layers| - 1], t, path);
    }
  }

  /** A parameter missing from the merged table was covered on its way, or is itself uncovered. */
  lemma {:induction false} MissingIsUncovered(layers: seq<Table>, params: Table, path: Path) returns (p: Path)
    requires params in layers && forall t :: t in layers ==> NullFree(t)
    requires Speaks(Says(params, path)) && Says(Merged(layers), path).Silent?
    ensures Speaks(Says(params, p)) && Uncovered(layers, p)
    decreases |path|
  {
    MergedIsNullFree(layers);
    LastWordIsHeard(layers, path);
    SpokenIsNotSilent(layers, params, path);
    var above := path[..|path| - 1];
    WordAboveDecides(params, path);
    WordAboveDecides(Merged(layers), path);
    LastWordIsHeard(layers, above);
    if Says(Merged(layers), above).Opened? {
      p := path;
    } else {
      assert !Says(Merged(layers), above).Cleared?;
      p := MissingIsUncovered(layers, params, above);
    }
  }

  /**
   The last step changes nothing exactly when no parameter is at an uncovered path. The layers are
   the parameters followed by the files.
   */
  lemma RemergeIsIdleExactly(params: Table, files: seq<Table>)
    requires NullFree(params) && forall t :: t in files ==> NullFree(t)
    ensures CoalesceTables(Merged([params] + files), params) == Merged([params] + files) <==>
            !exists path :: Speaks(Says(params, path)) && Uncovered([params] + files, path)
  {
    var layers := [params] + files;
    var m := Merged(layers);
    MergedIsNullFree(layers);
    if path :| Speaks(Says(params, path)) && Uncovered(layers, path) {
      LastWordIsHeard(layers, path);
      LastWordIsHeard(layers, path[..|path| - 1]);
      WordAboveDecides(m, path);
      assert !Says(m, path).Cleared?;
      FirstArgumentWins(m, params, path);
    } else {
      forall path ensures Heard(Says(CoalesceTables(m, params), path)) == Heard(Says(m, path)) {
        FirstArgumentWins(m, params, path);
        if Says(m, path).Silent? && Speaks(Says(params, path)) {
          var p := MissingIsUncovered(layers, params, path);
          assert false;
        }
      }
      forall path ensures !Says(CoalesceTables(m, params), path).Cleared? {
        NoNullAppears(m, params, path);
      }
      WordsDetermineTable(CoalesceTables(m, params), m);
    }
  }

  /** One of the tables has a text where the other has a table. */
  ghost predicate Clash(a: Table, b: Table) {
    exists path :: Says(a, path).Text? && Says(b, path).Opened?
  }

  lemma {:induction false} CoveredByText(t: Table, path: Path) returns (n: nat)
    requires Says(t, path).Covered?
    ensures n < |path| && Says(t, path[..n]).Text?
    decreases |path|
  {
    var above := path[..|path| - 1];
    WordAboveDecides(t, path);
    if Says(t, above).Text? {
      n := |path| - 1;
    } else {
      AboveCovered(t, path);
      n := CoveredByText(t, above);
      assert above[..n] == path[..n];
    }
  }

  lemma {:induction false} AboveCovered(t: Table, path: Path)
    requires path != [] && Says(t, path).Covered?
    ensures Says(t, path[..|path| - 1]).Text? || Says(t, path[..|path| - 1]).Covered?
    decreases |path|
  {
    if |path| > 1 && t.entries[path[0]].Nested? {
      AboveCovered(t.entries[path[0]].table, path[1..]);
      assert path[1..][..|path| - 2] == path[..|path| - 1][1..];
    }
  }

  lemma {:induction false} OpenAbove(t: Table, path: Path, n: nat)
    requires n < |path| && Speaks(Says(t, path))
    ensures Says(t, path[..n]).Opened?
    decreases |path|
  {
    WordAboveDecides(t, path);
    if n < |path| - 1 {
      OpenAbove(t, path[..|path| - 1], n);
      assert path[..|path| - 1][..n] == path[..n];
    }
  }

  lemma {:induction false} WordComesFromLayer(layers: seq<Table>, path: Path) returns (t: Table)
    requires LastWord(layers, path).Covered?
    ensures t in layers && Says(t, path).Covered?
  {
    var last := layers[|layers| - 1];
    if Says(last, path).Silent? {
      t := WordComesFromLayer(layers[..|layers| - 1], path);
    } else {
      t := last;
    }
  }

  /** Without clashes against the parameters, a template sees the parameters under the merged files. */
  lemma RemergeIsIdleWithoutClashes(params: Table, files: seq<Table>)
    requires NullFree(params) && forall t :: t in files ==> NullFree(t) && !Clash(t, params)
    ensures CoalesceTables(Merged([params] + files), params) == Merged([params] + files)
  {
    var layers := [params] + files;
    RemergeIsIdleExactly(params, files);
    if path :| Speaks(Says(params, path)) && Uncovered(layers, path) {
      var t := WordComesFromLayer(layers, path);
      var n := CoveredByText(t, path);
      OpenAbove(params, path, n);
      assert t in files;
      assert Clash(t, params);
      assert false;
    }
  }

  lemma {:induction false} LayersAreParsed(files: seq<File>)
    ensures forall t :: t in Layers(files) ==> Parsed(t) in files
  {
    if files != [] {
      LayersAreParsed(files[..|files| - 1]);
      assert files == files[..|files| - 1] + [files[|files| - 1]];
    }
  }

  /** So a template reads the last file that says anything about a path, and else the parameters. */
  lemma TemplateReadsLastFile(params: Table, files: seq<File>, path: Path)
    requires NullFree(params) && forall f :: f in files && f.Parsed? ==> NullFree(f.table) && !Clash(f.table, params)
    ensures var r := CoalesceTables(Merged([params] + Layers(files)), params);
            && (forall i :: 0 <= i < |files| && LastToSpeak(files, i, path) ==>
                  Heard(Says(r, path)) == Heard(Says(files[i].table, path)))
            && (AllSilent(files, path) ==> Heard(Says(r, path)) == Heard(Says(params, path)))
  {
    hide NullFree, Clash, CoalesceTables, LastToSpeak, AllSilent;
    LayersAreParsed(files);
    forall t | t in Layers(files) ensures NullFree(t) && !Clash(t, params) {
      assert Parsed(t) in files && Parsed(t).table == t;
    }
    RemergeIsIdleWithoutClashes(params, Layers(files));
    LastWordIsHeard([params] + Layers(files), path);
    LastFileDecides([params], files, path);
    assert [params][..0] == [];
  }

  /** A text over a parameter's table, then a table over the text: the parameter comes back. */
  lemma RemergeCanBringBack()
    ensures var params := Table(map["a" := Nested(Table(map["x" := Scalar("1")]))]);
      var files := [Table(map["a" := Scalar("5")]), Table(map["a" := Nested(EMPTY)])];
      && Says(Merged([params] + files), ["a", "x"]).Silent?
      && Says(CoalesceTables(Merged([params] + files), params), ["a", "x"]) == Text("1")
  {
    var params := Table(map["a" := Nested(Table(map["x" := Scalar("1")]))]);
    var f0, f1 := Table(map["a" := Scalar("5")]), Table(map["a" := Nested(EMPTY)]);
    var layers := [params] + [f0, f1];
    assert layers[..2][..1] == [params] && layers[..2] == [params, f0];
    EmptyIsNeutral(params);
    assert Merged(layers[..2][..1]) == params;
    var m := CoalesceTables(f0, params);
    assert m == f0;
    var n := CoalesceTables(f1, f0);
    assert n == f1;
    var back := CoalesceTables(f1, params);
    var inner := CoalesceTables(EMPTY, params.entries["a"].table);
    assert back.entries["a"] == Nested(inner);
    assert inner.entries["x"] == Scalar("1");
    assert ["a", "x"][1..] == ["x"];
  }
}
