/** The INI reader of the secret form, and the printer whose output is stored for a whole section. */
module Ini {
  import opened Applications

  /** The characters JavaScript's trim removes. */
  predicate IsSpace(c: char) {
    || '\t' <= c <= '\r'
    || c == ' ' || c == '\U{00A0}' || c == '\U{1680}'
    || '\U{2000}' <= c <= '\U{200A}'
    || c == '\U{2028}' || c == '\U{2029}' || c == '\U{202F}' || c == '\U{205F}' || c == '\U{3000}' || c == '\U{FEFF}'
  }

  function TrimStart(s: string): string {
    if s != "" && IsSpace(s[0]) then TrimStart(s[1..]) else s
  }

  function TrimEnd(s: string): string {
    if s != "" && IsSpace(s[|s| - 1]) then TrimEnd(s[..|s| - 1]) else s
  }

  function Trim(s: string): string {
    TrimEnd(TrimStart(s))
  }

  function SplitLines(s: string): (r: seq<string>)
    ensures r != []
    decreases |s|
  {
    var i := Index(s, '\n');
    if i < 0 then [s] else [s[..i]] + SplitLines(s[i + 1..])
  }

  function JoinLines(ls: seq<string>): string {
    if ls == [] then "" else if |ls| == 1 then ls[0] else ls[0] + "\n" + JoinLines(ls[1..])
  }

  datatype Line = Ignored | Header(name: string) | Pair(key: string, value: string)

  function Classify(line: string): Line {
    var t := Trim(line);
    if t == "" || t[0] == '#' || t[0] == ';' then Ignored
    else if t[0] == '[' && t[|t| - 1] == ']' then Header(Trim(t[1..|t| - 1]))
    else
      var i := Index(t, '=');
      if i > 0 then Pair(Trim(t[..i]), Trim(t[i + 1..])) else Ignored
  }

  function ClassifyAll(lines: seq<string>): (r: seq<Line>)
    ensures |r| == |lines|
    ensures forall i :: 0 <= i < |lines| ==> r[i] == Classify(lines[i])
  {
    seq(|lines|, i requires 0 <= i < |lines| => Classify(lines[i]))
  }

  type Section = map<string, string>
  type Parsed = map<string, Section>

  const DEFAULT := "default"

  datatype State = State(result: Parsed, current: string)

  /** A header starts its section afresh, even one seen before; pairs outside sections go to "default". */
  function Take(st: State, line: Line): State {
    match line
    case Ignored => st
    case Header(name) => State(st.result[name := map[]], name)
    case Pair(key, value) =>
      var name := if st.current == "" then DEFAULT else st.current;
      var before := if name in st.result then st.result[name] else map[];
      st.(result := st.result[name := before[key := value]])
  }

  function TakeAll(lines: seq<Line>): State {
    if lines == [] then State(map[], "") else Take(TakeAll(lines[..|lines| - 1]), lines[|lines| - 1])
  }

  function Parse(content: string): Parsed {
    TakeAll(ClassifyAll(SplitLines(content))).result
  }

  lemma {:induction false} CurrentIsOpen(lines: seq<Line>)
    ensures var st := TakeAll(lines); st.current != "" ==> st.current in st.result
  {
    if lines != [] {
      CurrentIsOpen(lines[..|lines| - 1]);
    }
  }

  /** parseIniContent: one pass over the lines, updating the result and the current section. */
  method ParseIniContent(content: string) returns (result: Parsed)
    ensures result == Parse(content)
  {
    hide Trim, SplitLines;
    result := map[];
    var currentSection := "";
    var lines := SplitLines(content);
    ghost var ls := ClassifyAll(lines);
    for n := 0 to |lines|
      invariant TakeAll(ls[..n]) == State(result, currentSection)
    {
      assert ls[..n + 1][..n] == ls[..n];
      CurrentIsOpen(ls[..n]);
      var trimmed := Trim(lines[n]);
      if trimmed == "" || trimmed[0] == '#' || trimmed[0] == ';' {
        continue;
      }
      if trimmed[0] == '[' && trimmed[|trimmed| - 1] == ']' {
        currentSection := Trim(trimmed[1..|trimmed| - 1]);
        result := result[currentSection := map[]];
        continue;
      }
      var equalIndex := Index(trimmed, '=');
      if equalIndex > 0 {
        var key := Trim(trimmed[..equalIndex]);
        var val := Trim(trimmed[equalIndex + 1..]);
        if currentSection == "" {
          if DEFAULT !in result {
            result := result[DEFAULT := map[]];
          }
          result := result[DEFAULT := result[DEFAULT][key := val]];
        } else {
          result := result[currentSection := result[currentSection][key := val]];
        }
      }
    }
    assert ls[..|lines|] == ls;
  }

  // ---- What the result is, line by line ----

  /** The last header before a line, "" if there is none. */
  function HeaderBefore(lines: seq<Line>, i: nat): string
    requires i <= |lines|
  {
    if i == 0 then "" else if lines[i - 1].Header? then lines[i - 1].name else HeaderBefore(lines, i - 1)
  }

  /** The section a line belongs to. */
  function SectionOf(lines: seq<Line>, i: nat): string
    requires i <= |lines|
  {
    if HeaderBefore(lines, i) == "" then DEFAULT else HeaderBefore(lines, i)
  }

  /** The line opens the section or adds to it. */
  predicate Opens(lines: seq<Line>, i: nat, section: string)
    requires i < |lines|
  {
    lines[i] == Header(section) || (lines[i].Pair? && SectionOf(lines, i) == section)
  }

  /** The line sets the key in the section, and no later line starts the section afresh or sets the key again. */
  predicate Sets(lines: seq<Line>, i: nat, section: string, key: string)
    requires i < |lines|
  {
    && lines[i].Pair? && lines[i].key == key && SectionOf(lines, i) == section
    && forall j :: i < j < |lines| ==>
         lines[j] != Header(section) && !(lines[j].Pair? && lines[j].key == key && SectionOf(lines, j) == section)
  }

  lemma {:induction false} HeaderBeforePrefix(lines: seq<Line>, more: seq<Line>, i: nat)
    requires i <= |lines|
    ensures HeaderBefore(lines + more, i) == HeaderBefore(lines, i)
  {
    if i > 0 {
      assert (lines + more)[i - 1] == lines[i - 1];
      HeaderBeforePrefix(lines, more, i - 1);
    }
  }

  /** The sections are those some line opens. */
  ghost predicate SectionsExplained(lines: seq<Line>, result: Parsed) {
    forall s :: s in result <==> exists i :: 0 <= i < |lines| && Opens(lines, i, s)
  }

  /** The key has a value if and only if some line sets it for good, and it is that line's value. */
  ghost predicate ValueExplained(lines: seq<Line>, result: Parsed, s: string, k: string) {
    && (s in result && k in result[s] ==> exists i :: 0 <= i < |lines| && Sets(lines, i, s, k))
    && (forall i :: 0 <= i < |lines| && Sets(lines, i, s, k) ==>
        s in result && k in result[s] && result[s][k] == lines[i].value)
  }

  ghost predicate ValuesExplained(lines: seq<Line>, result: Parsed) {
    forall s, k :: ValueExplained(lines, result, s, k)
  }

  lemma SetsAfter(lines: seq<Line>, x: Line, i: nat, s: string, k: string)
    requires i < |lines|
    ensures Sets(lines + [x], i, s, k) <==>
      && Sets(lines, i, s, k)
      && x != Header(s)
      && !(x.Pair? && x.key == k && SectionOf(lines, |lines|) == s)
  {
    var all := lines + [x];
    forall j | 0 <= j <= |lines| ensures SectionOf(all, j) == SectionOf(lines, j) {
      HeaderBeforePrefix(lines, [x], j);
    }
    assert all[|lines|] == x;
    assert forall j :: 0 <= j < |lines| ==> all[j] == lines[j];
  }

  lemma OpensAfter(lines: seq<Line>, x: Line, i: nat, s: string)
    requires i <= |lines|
    ensures Opens(lines + [x], i, s) <==>
      if i < |lines| then Opens(lines, i, s) else x == Header(s) || (x.Pair? && SectionOf(lines, |lines|) == s)
  {
    HeaderBeforePrefix(lines, [x], i);
  }

  lemma LastSets(lines: seq<Line>, x: Line, s: string, k: string)
    ensures Sets(lines + [x], |lines|, s, k) <==> x.Pair? && x.key == k && SectionOf(lines, |lines|) == s
  {
    HeaderBeforePrefix(lines, [x], |lines|);
  }

  lemma {:induction false} CurrentIsLastHeader(lines: seq<Line>)
    ensures TakeAll(lines).current == HeaderBefore(lines, |lines|)
  {
    if lines != [] {
      var init := lines[..|lines| - 1];
      CurrentIsLastHeader(init);
      assert lines == init + [lines[|lines| - 1]];
      HeaderBeforePrefix(init, [lines[|lines| - 1]], |init|);
    }
  }

  lemma TakeSections(lines: seq<Line>, x: Line, st: State)
    requires SectionsExplained(lines, st.result) && st.current == HeaderBefore(lines, |lines|)
    ensures SectionsExplained(lines + [x], Take(st, x).result)
  {
    hide Opens, HeaderBefore;
    var all, r := lines + [x], Take(st, x).result;
    forall s ensures s in r <==> exists i :: 0 <= i < |all| && Opens(all, i, s) {
      forall i | 0 <= i < |all| ensures Opens(all, i, s) <==>
          if i < |lines| then Opens(lines, i, s) else x == Header(s) || (x.Pair? && SectionOf(lines, |lines|) == s)
      {
        OpensAfter(lines, x, i, s);
      }
      if s in st.result {
        var i :| 0 <= i < |lines| && Opens(lines, i, s);
        assert Opens(all, i, s);
      } else if s in r {
        assert Opens(all, |lines|, s);
      }
    }
  }

  lemma TakeValue(lines: seq<Line>, x: Line, st: State, s: string, k: string)
    requires ValueExplained(lines, st.result, s, k) && st.current == HeaderBefore(lines, |lines|)
    ensures ValueExplained(lines + [x], Take(st, x).result, s, k)
  {
    hide Sets, HeaderBefore;
    var all, r := lines + [x], Take(st, x).result;
    LastSets(lines, x, s, k);
    forall i | 0 <= i < |lines| ensures Sets(all, i, s, k) <==>
        Sets(lines, i, s, k) && x != Header(s) && !(x.Pair? && x.key == k && SectionOf(lines, |lines|) == s)
    {
      SetsAfter(lines, x, i, s, k);
    }
    if s in r && k in r[s] {
      if x.Pair? && x.key == k && SectionOf(lines, |lines|) == s {
        assert Sets(all, |lines|, s, k);
      } else {
        var i :| 0 <= i < |lines| && Sets(lines, i, s, k);
        assert Sets(all, i, s, k);
      }
    }
  }

  lemma TakeValues(lines: seq<Line>, x: Line, st: State)
    requires ValuesExplained(lines, st.result) && st.current == HeaderBefore(lines, |lines|)
    ensures ValuesExplained(lines + [x], Take(st, x).result)
  {
    hide ValueExplained, HeaderBefore, Take;
    forall s, k ensures ValueExplained(lines + [x], Take(st, x).result, s, k) {
      TakeValue(lines, x, st, s, k);
    }
  }

  /**
   The declarative reading of a file: a section exists if and only if some line opens it, and a
   key's value is the one on the last line for that key in that section, after the last header
   naming the section.
   */
  lemma {:induction false} ParseIsExplained(lines: seq<Line>)
    ensures SectionsExplained(lines, TakeAll(lines).result) && ValuesExplained(lines, TakeAll(lines).result)
  {
    hide SectionsExplained, ValuesExplained, Take;
    if lines != [] {
      var init := lines[..|lines| - 1];
      ParseIsExplained(init);
      CurrentIsLastHeader(init);
      TakeSections(init, lines[|lines| - 1], TakeAll(init));
      TakeValues(init, lines[|lines| - 1], TakeAll(init));
      assert init + [lines[|lines| - 1]] == lines;
    } else {
      NothingExplained();
    }
  }

  lemma NothingExplained()
    ensures SectionsExplained([], map[]) && ValuesExplained([], map[])
  {
  }

  // ---- Printing a section and reading it again ----

  /** The entries of a section in some order; the order of Object.entries is immaterial. */
  ghost predicate Lists(entries: seq<(string, string)>, section: Section) {
    && (forall i :: 0 <= i < |entries| ==> entries[i].0 in section && section[entries[i].0] == entries[i].1)
    && (forall k :: k in section ==> exists i :: 0 <= i < |entries| && entries[i].0 == k)
    && (forall i, j :: 0 <= i < j < |entries| ==> entries[i].0 != entries[j].0)
  }

  function Entry(e: (string, string)): string {
    e.0 + "=" + e.1
  }

  function Entries(entries: seq<(string, string)>): (r: seq<string>)
    ensures |r| == |entries|
    ensures forall i :: 0 <= i < |entries| ==> r[i] == Entry(entries[i])
  {
    seq(|entries|, i requires 0 <= i < |entries| => Entry(entries[i]))
  }

  /** The formatter: key=value lines. */
  function Format(entries: seq<(string, string)>): string {
    JoinLines(Entries(entries))
  }

  predicate Trimmed(s: string) {
    s == "" || (!IsSpace(s[0]) && !IsSpace(s[|s| - 1]))
  }

  /** What every pair that is read is like; the last clause keeps its line from reading as a header. */
  predicate Readable(key: string, value: string) {
    && key != "" && Trimmed(key) && Trimmed(value)
    && '=' !in key
    && key[0] != '#' && key[0] != ';'
    && !(key[0] == '[' && value != "" && value[|value| - 1] == ']')
  }

  /** What every stored pair is like. */
  predicate Storable(key: string, value: string) {
    Readable(key, value) && '\n' !in key && '\n' !in value
  }

  lemma {:induction false} TrimStartFacts(s: string) returns (n: nat)
    ensures n <= |s| && TrimStart(s) == s[n..] && (n < |s| ==> !IsSpace(s[n])) && (s != "" && !IsSpace(s[0]) ==> n == 0)
  {
    if s != "" && IsSpace(s[0]) {
      var m := TrimStartFacts(s[1..]);
      n := m + 1;
    } else {
      n := 0;
    }
  }

  lemma {:induction false} TrimEndFacts(s: string) returns (n: nat)
    ensures n <= |s| && TrimEnd(s) == s[..n] && (n > 0 ==> !IsSpace(s[n - 1]))
    ensures s != "" && !IsSpace(s[0]) ==> n > 0
    ensures s != "" && !IsSpace(s[|s| - 1]) ==> n == |s|
  {
    if s != "" && IsSpace(s[|s| - 1]) {
      n := TrimEndFacts(s[..|s| - 1]);
    } else {
      n := |s|;
    }
  }

  /** Trim keeps a stretch of the text, without white space at its ends. */
  lemma TrimFacts(s: string)
    ensures Trimmed(Trim(s))
    ensures forall c :: c in Trim(s) ==> c in s
    ensures s != "" && !IsSpace(s[0]) ==> Trim(s) != "" && Trim(s)[0] == s[0]
    ensures s != "" && !IsSpace(s[|s| - 1]) && Trim(s) != "" ==> Trim(s)[|Trim(s)| - 1] == s[|s| - 1]
    ensures Trimmed(s) ==> Trim(s) == s
  {
    var t := TrimStart(s);
    var from := TrimStartFacts(s);
    var to := TrimEndFacts(t);
    assert t != "" ==> t[0] == s[from] && t[|t| - 1] == s[|s| - 1];
  }

  lemma {:induction false} LinesHaveNoBreaks(s: string)
    ensures forall l :: l in SplitLines(s) ==> '\n' !in l
    decreases |s|
  {
    var i := Index(s, '\n');
    if i >= 0 {
      LinesHaveNoBreaks(s[i + 1..]);
    }
  }

  lemma FirstBreak(a: string, b: string)
    requires '\n' !in a
    ensures Index(a + "\n" + b, '\n') == |a|
    ensures Index(a, '\n') == -1
  {
    var s := a + "\n" + b;
    var i := Index(s, '\n');
    assert s[|a|] == '\n';
    assert forall k :: 0 <= k < |a| ==> s[k] == a[k] && s[k] in a;
    assert i <= |a| by {
      assert forall k :: 0 <= k < i ==> s[k] == s[..i][k];
    }
  }

  lemma {:induction false} SplitUndoesJoin(ls: seq<string>)
    requires ls != [] && forall l :: l in ls ==> '\n' !in l
    ensures SplitLines(JoinLines(ls)) == ls
  {
    assert ls[0] in ls;
    if |ls| == 1 {
      FirstBreak(ls[0], "");
      assert ls == [ls[0]];
    } else {
      var rest := ls[1..];
      var s := ls[0] + "\n" + JoinLines(rest);
      FirstBreak(ls[0], JoinLines(rest));
      SplitUndoesJoin(rest);
      assert s[..|ls[0]|] == ls[0] && s[|ls[0]| + 1..] == JoinLines(rest);
      assert ls == [ls[0]] + rest;
    }
  }

  lemma PairsAreReadable(line: string)
    requires Classify(line).Pair?
    ensures Readable(Classify(line).key, Classify(line).value)
    ensures '\n' !in line ==> Storable(Classify(line).key, Classify(line).value)
  {
    var t := Trim(line);
    TrimFacts(line);
    var i := Index(t, '=');
    TrimFacts(t[..i]);
    TrimFacts(t[i + 1..]);
    assert !IsSpace(t[0]) && t[..i][0] == t[0];
    var value := Trim(t[i + 1..]);
    if value != "" {
      assert t[i + 1..] != "" && t[i + 1..][|t[i + 1..]| - 1] == t[|t| - 1];
    }
  }

  lemma FirstEquals(left: string, right: string)
    requires '=' !in left
    ensures Index(left + "=" + right, '=') == |left|
  {
    var s := left + "=" + right;
    var i := Index(s, '=');
    assert s[|left|] == '=';
    assert forall k :: 0 <= k < |left| ==> s[k] == left[k] && s[k] in left;
    assert forall k :: 0 <= k < i ==> s[k] == s[..i][k];
  }

  lemma PrintedPairReads(key: string, value: string)
    requires Storable(key, value)
    ensures Classify(Entry((key, value))) == Pair(key, value)
    ensures '\n' !in Entry((key, value))
  {
    hide Trim;
    var line := Entry((key, value));
    assert line == key + "=" + value;
    assert line[0] == key[0];
    assert line[|line| - 1] == if value == "" then '=' else value[|value| - 1];
    assert Trimmed(line);
    TrimFacts(line);
    TrimFacts(key);
    TrimFacts(value);
    FirstEquals(key, value);
    assert line[..|key|] == key && line[|key| + 1..] == value;
  }

  ghost predicate AllStorable(result: Parsed) {
    forall s, k :: s in result && k in result[s] ==> Storable(k, result[s][k])
  }

  lemma ResultIsStorable(content: string)
    ensures AllStorable(Parse(content))
  {
    hide Classify, Sets, SectionsExplained, Storable, SplitLines;
    var lines := SplitLines(content);
    var ls := ClassifyAll(lines);
    LinesHaveNoBreaks(content);
    ParseIsExplained(ls);
    var r := TakeAll(ls).result;
    forall s, k | s in r && k in r[s] ensures Storable(k, r[s][k]) {
      assert ValueExplained(ls, r, s, k);
      var i :| 0 <= i < |ls| && Sets(ls, i, s, k);
      assert lines[i] in lines;
      SetsIsPair(ls, i, s, k);
      assert r[s][k] == ls[i].value;
      PairsAreReadable(lines[i]);
    }
  }

  lemma SetsIsPair(lines: seq<Line>, i: nat, s: string, k: string)
    requires i < |lines| && Sets(lines, i, s, k)
    ensures lines[i].Pair? && lines[i].key == k
  {
  }

  function Gathered(entries: seq<(string, string)>): Section {
    if entries == [] then map[]
    else
      var last := entries[|entries| - 1];
      Gathered(entries[..|entries| - 1])[last.0 := last.1]
  }

  lemma {:induction false} PairsGather(entries: seq<(string, string)>, lines: seq<Line>)
    requires |lines| == |entries| && forall i :: 0 <= i < |lines| ==> lines[i] == Pair(entries[i].0, entries[i].1)
    ensures TakeAll(lines) == State(if entries == [] then map[] else map[DEFAULT := Gathered(entries)], "")
  {
    if lines != [] {
      PairsGather(entries[..|entries| - 1], lines[..|lines| - 1]);
    }
  }

  lemma {:induction false} GatheredIsMap(entries: seq<(string, string)>)
    requires forall i, j :: 0 <= i < j < |entries| ==> entries[i].0 != entries[j].0
    ensures forall k :: k in Gathered(entries) <==> exists i :: 0 <= i < |entries| && entries[i].0 == k
    ensures forall i :: 0 <= i < |entries| ==>
        entries[i].0 in Gathered(entries) && Gathered(entries)[entries[i].0] == entries[i].1
  {
    if entries != [] {
      var init, last := entries[..|entries| - 1], entries[|entries| - 1];
      GatheredIsMap(init);
      forall k ensures k in Gathered(entries) <==> exists i :: 0 <= i < |entries| && entries[i].0 == k {
        if k in Gathered(init) {
          var i :| 0 <= i < |init| && init[i].0 == k;
          assert entries[i].0 == k;
        }
      }
    }
  }

  /**
   Any non-empty section read from any file, printed and read again, comes back whole as the only
   section, under "default". An empty one prints as nothing, and nothing reads as no section.
   */
  lemma PrintedSectionReadsBack(content: string, name: string, entries: seq<(string, string)>)
    requires name in Parse(content) && Lists(entries, Parse(content)[name])
    ensures var section := Parse(content)[name];
            Parse(Format(entries)) == if section == map[] then map[] else map[DEFAULT := section]
    ensures entries != [] ==>
      && |SplitLines(Format(entries))| == |entries|
      && forall i :: 0 <= i < |entries| ==> SplitLines(Format(entries))[i] == entries[i].0 + "=" + entries[i].1
  {
    hide Classify, Storable, Parse, TakeAll, SplitLines, JoinLines;
    var section := Parse(content)[name];
    ResultIsStorable(content);
    GatheredIsMap(entries);
    assert Gathered(entries) == section;
    var printed := Entries(entries);
    forall i | 0 <= i < |entries|
      ensures Classify(printed[i]) == Pair(entries[i].0, entries[i].1) && '\n' !in printed[i]
    {
      PrintedPairReads(entries[i].0, entries[i].1);
    }
    if entries == [] {
      NothingReads();
    } else {
      SplitUndoesJoin(printed);
      PairsGather(entries, ClassifyAll(printed));
      assert entries[0].0 in section;
      ReadsLines(Format(entries), printed);
    }
  }

  lemma ReadsLines(content: string, lines: seq<string>)
    requires SplitLines(content) == lines
    ensures Parse(content) == TakeAll(ClassifyAll(lines)).result
  {
  }

  lemma NothingReads()
    ensures Parse(Format([])) == map[]
  {
    assert Format([]) == "";
    assert SplitLines("") == [""];
    var ls := ClassifyAll([""]);
    assert ls == [Ignored];
    assert ls[..0] == [];
    assert TakeAll([]) == State(map[], "");
  }
}
