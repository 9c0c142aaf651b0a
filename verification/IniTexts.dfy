/** What each line of a file means, from its text alone, and the file as a whole. */
module IniTexts {
  import opened Applications
  import opened Ini

  predicate Blank(s: string) {
    forall c :: c in s ==> IsSpace(c)
  }

  /** A name in brackets, with white space anywhere around them and around it. */
  ghost predicate HeaderText(line: string, name: string) {
    && Trimmed(name)
    && exists a, b, c, d :: Blank(a) && Blank(b) && Blank(c) && Blank(d)
         && line == a + "[" + b + name + c + "]" + d
  }

  /** A key and a value around a first equals sign, with white space anywhere around them. */
  ghost predicate PairText(line: string, key: string, value: string) {
    && Readable(key, value)
    && exists a, b, c, d :: Blank(a) && Blank(b) && Blank(c) && Blank(d)
         && line == a + key + b + "=" + c + value + d
  }

  /** The first character that is no white space. */
  ghost predicate Begins(line: string, c: char) {
    !IsSpace(c) && exists a, rest :: Blank(a) && line == a + [c] + rest
  }

  /** Blank, a comment, or neither a header nor a line with an equals sign after its first character. */
  ghost predicate IgnoredText(line: string) {
    || Blank(line) || Begins(line, '#') || Begins(line, ';')
    || ((forall name :: !HeaderText(line, name)) && ('=' !in line || Begins(line, '=')))
  }

  ghost predicate Means(line: string, x: Line) {
    match x
    case Header(name) => HeaderText(line, name)
    case Pair(key, value) => PairText(line, key, value)
    case Ignored => IgnoredText(line)
  }

  // ---- Trimming ----

  lemma {:induction false} TrimStartOfPadded(a: string, t: string)
    requires Blank(a)
    ensures TrimStart(a + t) == TrimStart(t)
  {
    if a == "" {
      assert a + t == t;
    } else {
      assert a[0] in a && (a + t)[1..] == a[1..] + t;
      TrimStartOfPadded(a[1..], t);
    }
  }

  lemma {:induction false} TrimEndOfPadded(s: string, d: string)
    requires Blank(d) && (s == "" || !IsSpace(s[|s| - 1]))
    ensures TrimEnd(s + d) == s
  {
    if d == "" {
      assert s + d == s;
    } else {
      var init := d[..|d| - 1];
      assert d[|d| - 1] in d && (s + d)[..|s + d| - 1] == s + init;
      TrimEndOfPadded(s, init);
    }
  }

  /** White space around a text goes, and nothing else. */
  lemma TrimOfPadded(a: string, s: string, d: string)
    requires Blank(a) && Trimmed(s) && Blank(d)
    ensures Trim(a + s + d) == s
  {
    assert a + s + d == a + (s + d);
    TrimStartOfPadded(a, s + d);
    if s == "" {
      assert s + d == d;
      TrimStartOfPadded(d, "");
      assert d + "" == d;
    } else {
      assert (s + d)[0] == s[0];
      TrimEndOfPadded(s, d);
    }
  }

  lemma {:induction false} StartIsBlank(s: string) returns (a: string)
    ensures Blank(a) && s == a + TrimStart(s)
  {
    a := "";
    if s != "" && IsSpace(s[0]) {
      var b := StartIsBlank(s[1..]);
      a := [s[0]] + b;
      assert s == [s[0]] + s[1..];
    }
  }

  lemma {:induction false} EndIsBlank(s: string) returns (d: string)
    ensures Blank(d) && s == TrimEnd(s) + d
  {
    d := "";
    if s != "" && IsSpace(s[|s| - 1]) {
      var b := EndIsBlank(s[..|s| - 1]);
      d := b + [s[|s| - 1]];
      assert s == s[..|s| - 1] + [s[|s| - 1]];
    }
  }

  lemma AroundIsBlank(s: string) returns (a: string, d: string)
    ensures Blank(a) && Blank(d) && s == a + Trim(s) + d
  {
    a := StartIsBlank(s);
    d := EndIsBlank(TrimStart(s));
    assert a + (Trim(s) + d) == a + Trim(s) + d;
  }

  // ---- Headers ----

  lemma HeaderReads(line: string, name: string, a: string, b: string, c: string, d: string)
    requires Trimmed(name) && Blank(a) && Blank(b) && Blank(c) && Blank(d)
    requires line == a + "[" + b + name + c + "]" + d
    ensures Classify(line) == Header(name)
  {
    hide Trim, IsSpace;
    var t := "[" + b + name + c + "]";
    assert line == a + t + d;
    assert Trimmed(t) by { BracketsAreNoSpace(); }
    TrimOfPadded(a, t, d);
    assert t[1..|t| - 1] == b + name + c;
    TrimOfPadded(b, name, c);
  }

  lemma BracketsAreNoSpace()
    ensures !IsSpace('[') && !IsSpace(']') && !IsSpace('=') && !IsSpace('#') && !IsSpace(';')
  {
  }

  lemma Unwrapped(a: string, l: string, b: string, x: string, c: string, r: string, d: string)
    ensures a + (l + (b + x + c) + r) + d == a + l + b + x + c + r + d
  {
  }

  lemma HeaderIsText(line: string)
    requires Classify(line).Header?
    ensures HeaderText(line, Classify(line).name)
  {
    hide Trim, IsSpace;
    var t := Trim(line);
    var inner := t[1..|t| - 1];
    var a, d := AroundIsBlank(line);
    var b, c := AroundIsBlank(inner);
    TrimFacts(inner);
    assert t == "[" + inner + "]";
    Unwrapped(a, "[", b, Trim(inner), c, "]", d);
  }

  // ---- Pairs ----

  lemma PairReads(line: string, key: string, value: string, a: string, b: string, c: string, d: string)
    requires Readable(key, value) && Blank(a) && Blank(b) && Blank(c) && Blank(d)
    requires line == a + key + b + "=" + c + value + d
    ensures Classify(line) == Pair(key, value)
  {
    hide Trim, IsSpace;
    BracketsAreNoSpace();
    if value == "" {
      Reassociated(a, key, b, "", c + d);
      assert line == a + key + b + "=" + "" + (c + d);
      assert "" + "" + "" == "";
      TrimOfPadded("", "", "");
      TrimmedPairReads(line, key, "", a, b, "", c + d);
    } else {
      Reassociated(a, key, b, c + value, d);
      assert c + value + "" == c + value;
      TrimOfPadded(c, value, "");
      assert line == a + key + b + "=" + (c + value) + d;
      TrimmedPairReads(line, key, value, a, b, c + value, d);
    }
  }

  lemma Reassociated(a: string, key: string, b: string, right: string, d: string)
    ensures a + key + b + "=" + right + d == a + ((key + b) + "=" + right) + d
  {
  }

  /** The value with the white space before it, but none after it. */
  lemma TrimmedPairReads(line: string, key: string, value: string, a: string, b: string, right: string, d: string)
    requires Readable(key, value) && Blank(a) && Blank(b) && Blank(d)
    requires line == a + key + b + "=" + right + d
    requires Trim(right) == value && (value == "" ==> right == "")
    requires value != "" ==> right != "" && right[|right| - 1] == value[|value| - 1]
    ensures Classify(line) == Pair(key, value)
  {
    hide Trim, IsSpace;
    BracketsAreNoSpace();
    var left := key + b;
    var t := left + "=" + right;
    Reassociated(a, key, b, right, d);
    assert t[0] == key[0];
    assert t[|t| - 1] == if value == "" then '=' else value[|value| - 1];
    TrimOfPadded(a, t, d);
    assert '=' !in left;
    FirstEquals(left, right);
    assert t[..|left|] == left && t[|left| + 1..] == right;
    assert "" + key + b == left;
    TrimOfPadded("", key, b);
  }

  lemma Regrouped(a: string, x: string, k: string, b: string, e: string, c: string, v: string, y: string, d: string)
    ensures a + ((x + k + b) + e + (c + v + y)) + d == (a + x) + k + b + e + c + v + (y + d)
  {
  }

  lemma PairIsThere(line: string, key: string, value: string, a: string, b: string, c: string, d: string)
    requires Readable(key, value) && Blank(a) && Blank(b) && Blank(c) && Blank(d)
    requires line == a + key + b + "=" + c + value + d
    ensures PairText(line, key, value)
  {
  }

  lemma PairIsText(line: string)
    requires Classify(line).Pair?
    ensures PairText(line, Classify(line).key, Classify(line).value)
  {
    hide Trim, IsSpace, Readable, PairText, Index;
    var t := Trim(line);
    var i := Index(t, '=');
    var a, d := AroundIsBlank(line);
    var x, b := AroundIsBlank(t[..i]);
    var c, y := AroundIsBlank(t[i + 1..]);
    var key, value := Trim(t[..i]), Trim(t[i + 1..]);
    PairsAreReadable(line);
    assert t == t[..i] + "=" + t[i + 1..];
    assert Blank(a + x) && Blank(y + d);
    Regrouped(a, x, key, b, "=", c, value, y, d);
    PairIsThere(line, key, value, a + x, b, c, y + d);
  }

  /** The reading of a line is the one its text has, and no other. */
  lemma LineMeansExactly(line: string, x: Line)
    ensures Means(line, x) <==> Classify(line) == x
  {
    hide Classify, IsSpace;
    match x {
      case Header(name) =>
        HeaderMeans(line, name);
      case Pair(key, value) =>
        PairMeans(line, key, value);
      case Ignored =>
        IgnoredMeans(line);
    }
  }

  lemma HeaderMeans(line: string, name: string)
    ensures HeaderText(line, name) <==> Classify(line) == Header(name)
  {
    hide Classify, IsSpace;
    if HeaderText(line, name) {
      var a, b, c, d :| Blank(a) && Blank(b) && Blank(c) && Blank(d) && line == a + "[" + b + name + c + "]" + d;
      HeaderReads(line, name, a, b, c, d);
    }
    if Classify(line).Header? {
      HeaderIsText(line);
    }
  }

  lemma PairMeans(line: string, key: string, value: string)
    ensures PairText(line, key, value) <==> Classify(line) == Pair(key, value)
  {
    hide Classify, IsSpace, Readable;
    if PairText(line, key, value) {
      var a, b, c, d :|
        Blank(a) && Blank(b) && Blank(c) && Blank(d) && line == a + key + b + "=" + c + value + d;
      PairReads(line, key, value, a, b, c, d);
    }
    if Classify(line).Pair? {
      PairIsText(line);
    }
  }

  lemma BeginsInside(line: string, c: char)
    ensures Begins(line, c) ==> c in line && !IsSpace(c)
  {
    if Begins(line, c) {
      var b, rest :| Blank(b) && line == b + [c] + rest;
      assert line[|b|] == c;
    }
  }

  lemma BeginsWithFirst(line: string, c: char)
    ensures Begins(line, c) <==> Trim(line) != "" && Trim(line)[0] == c
    ensures Blank(line) <==> Trim(line) == ""
    ensures '=' in line <==> '=' in Trim(line)
  {
    hide IsSpace;
    BracketsAreNoSpace();
    BeginsInside(line, c);
    TrimFacts(line);
    var a, d := AroundIsBlank(line);
    var t := Trim(line);
    if t != "" {
      assert line == a + [t[0]] + (t[1..] + d);
      assert line[|a|] == t[0] && line[|a|] in line;
      if Begins(line, c) {
        var b, rest :| Blank(b) && line == b + [c] + rest;
        FirstIsUnique(line, a, b);
      }
    } else {
      assert line == a + d;
    }
  }

  lemma FirstIsUnique(line: string, a: string, b: string)
    requires Blank(a) && Blank(b) && a < line && b < line
    requires !IsSpace(line[|a|]) && !IsSpace(line[|b|])
    ensures |a| == |b|
  {
    hide IsSpace;
    assert forall k :: 0 <= k < |a| ==> line[k] == a[k] && a[k] in a;
    assert forall k :: 0 <= k < |b| ==> line[k] == b[k] && b[k] in b;
  }

  lemma IgnoredMeans(line: string)
    ensures IgnoredText(line) <==> Classify(line) == Ignored
  {
    hide IsSpace, Trim, Begins, HeaderText;
    BeginsWithFirst(line, '#');
    BeginsWithFirst(line, ';');
    BeginsWithFirst(line, '=');
    forall name ensures HeaderText(line, name) <==> Classify(line) == Header(name) {
      HeaderMeans(line, name);
    }
    assert (exists name :: HeaderText(line, name)) <==> Classify(line).Header? by {
      if Classify(line).Header? {
        assert HeaderText(line, Classify(line).name);
      }
    }
  }

  // ---- The file ----

  lemma {:induction false} LinesAreTheFile(content: string)
    ensures JoinLines(SplitLines(content)) == content
    decreases |content|
  {
    var i := Index(content, '\n');
    if i >= 0 {
      var rest := content[i + 1..];
      LinesAreTheFile(rest);
      JoinFirst(content[..i], SplitLines(rest));
      assert content == content[..i] + "\n" + rest;
    }
  }

  lemma JoinFirst(l: string, ls: seq<string>)
    requires ls != []
    ensures JoinLines([l] + ls) == l + "\n" + JoinLines(ls)
  {
    assert ([l] + ls)[1..] == ls;
  }

  /**
   A file is its lines, joined by line breaks. Whatever they mean by their texts, the result is what
   they say: its sections are the ones some line opens, and a key has the value of the line that sets
   it for good.
   */
  lemma FileIsExplained(content: string, ls: seq<Line>)
    requires var lines := SplitLines(content);
             |ls| == |lines| && forall i :: 0 <= i < |ls| ==> Means(lines[i], ls[i])
    ensures JoinLines(SplitLines(content)) == content && forall l :: l in SplitLines(content) ==> '\n' !in l
    ensures SectionsExplained(ls, Parse(content)) && ValuesExplained(ls, Parse(content))
  {
    LinesAreTheFile(content);
    LinesHaveNoBreaks(content);
    hide Means, Classify, SectionsExplained, ValuesExplained, TakeAll, SplitLines, JoinLines;
    var lines := SplitLines(content);
    forall i | 0 <= i < |ls| ensures ls[i] == ClassifyAll(lines)[i] {
      LineMeansExactly(lines[i], ls[i]);
    }
    assert ls == ClassifyAll(lines);
    ParseIsExplained(ls);
  }
}
