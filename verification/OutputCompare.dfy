/** Output comparison: what `compare_output` computes, and the relation on texts
    that it decides. */
module OutputCompare {
  import opened Base

  predicate IsBlank(c: char) {
    c == ' ' || c == '\t' || c == '\r'
  }

  // ---------- what the code computes ----------

  /** A line without its trailing blanks. */
  function TrimRight(line: string): string {
    if line != "" && IsBlank(line[|line| - 1]) then TrimRight(line[..|line| - 1]) else line
  }

  function TrimAll(lines: seq<string>): seq<string> {
    if lines == [] then [] else [TrimRight(lines[0])] + TrimAll(lines[1..])
  }

  /** A list of lines without its trailing empty lines. */
  function DropEmptyTail(lines: seq<string>): seq<string> {
    if lines != [] && lines[|lines| - 1] == "" then DropEmptyTail(lines[..|lines| - 1]) else lines
  }

  function CanonicalLines(s: string): seq<string> {
    DropEmptyTail(TrimAll(Lines(s)))
  }

  method NormalizeLine(line: string) returns (r: string)
    ensures r == TrimRight(line)
  {
    var end := |line|;
    assert line[..end] == line;
    while end > 0 && IsBlank(line[end - 1])
      invariant 0 <= end <= |line|
      invariant TrimRight(line[..end]) == TrimRight(line)
    {
      assert line[..end][..end - 1] == line[..end - 1];
      end := end - 1;
    }
    r := line[..end];
  }

  method SplitLines(s: string) returns (lines: seq<string>)
    ensures lines == CanonicalLines(s)
  {
    lines := [];
    var pos := 0;
    while pos < |s|
      invariant 0 <= pos <= |s|
      invariant lines + TrimAll(Lines(s[pos..])) == TrimAll(Lines(s))
    {
      var line, next := GetLine(s, pos);
      line := NormalizeLine(line);
      lines := lines + [line];
      pos := next;
    }
    assert lines + [] == lines;
    while lines != [] && lines[|lines| - 1] == ""
      invariant DropEmptyTail(lines) == CanonicalLines(s)
    {
      lines := lines[..|lines| - 1];
    }
  }

  /** `compare_output`: true exactly on texts that white-space edits connect. */
  method CompareOutput(expected: string, actual: string) returns (same: bool)
    ensures same == SameOutput(expected, actual)
    ensures same <==> Connected(expected, actual)
  {
    ComparisonDecidesEdits(expected, actual);
    var exp := SplitLines(expected);
    var act := SplitLines(actual);
    if |exp| != |act| {
      return false;
    }
    for i := 0 to |exp|
      invariant exp[..i] == act[..i]
    {
      if exp[i] != act[i] {
        return false;
      }
    }
    assert exp == exp[..|exp|] && act == act[..|act|];
    return true;
  }

  predicate SameOutput(expected: string, actual: string) {
    CanonicalLines(expected) == CanonicalLines(actual)
  }

  // ---------- the relation it decides ----------

  /** `longer` is `shorter` with one blank inserted just before a newline or at the end
      of the text, or with one newline added at the end of the text. */
  ghost predicate Inserts(shorter: string, longer: string) {
    || longer == shorter + "\n"
    || exists k, c: char :: InsertsBlank(shorter, longer, k, c)
  }

  ghost predicate InsertsBlank(shorter: string, longer: string, k: int, c: char) {
    && 0 <= k <= |shorter|
    && (c == ' ' || c == '\t' || c == '\r')
    && (k == |shorter| || shorter[k] == '\n')
    && longer == shorter[..k] + [c] + shorter[k..]
  }

  ghost predicate Edit(a: string, b: string) {
    Inserts(a, b) || Inserts(b, a)
  }

  /** `path` leads from `a` to `b` by single edits. */
  ghost predicate EditPath(path: seq<string>, a: string, b: string) {
    && path != []
    && path[0] == a
    && path[|path| - 1] == b
    && forall i :: 0 <= i < |path| - 1 ==> Edit(path[i], path[i + 1])
  }

  ghost predicate Connected(a: string, b: string) {
    exists path :: EditPath(path, a, b)
  }

  /** The shortest text connected to `s`, computed from the right: a blank goes when a
      newline or the end of the text follows, a newline goes when nothing follows. */
  function NormalForm(s: string): string {
    if s == "" then ""
    else
      var rest := NormalForm(s[1..]);
      if IsBlank(s[0]) && (rest == "" || rest[0] == '\n') then rest
      else if s[0] == '\n' && rest == "" then ""
      else [s[0]] + rest
  }

  // ---------- connectedness is a congruence ----------

  lemma ConnectedOne(a: string, b: string)
    requires a == b || Edit(a, b)
    ensures Connected(a, b)
  {
    if a == b {
      assert EditPath([a], a, b);
    } else {
      assert EditPath([a, b], a, b);
    }
  }

  lemma ConnectedJoin(a: string, b: string, c: string)
    requires Connected(a, b) && Connected(b, c)
    ensures Connected(a, c)
  {
    var p :| EditPath(p, a, b);
    var q :| EditPath(q, b, c);
    var path := p + q[1..];
    forall i | 0 <= i < |path| - 1 ensures Edit(path[i], path[i + 1]) {
      if i >= |p| - 1 {
        assert path[i] == q[i - |p| + 1] && path[i + 1] == q[i - |p| + 2];
      }
    }
    assert EditPath(path, a, c);
  }

  lemma ConnectedBack(a: string, b: string)
    requires Connected(a, b)
    ensures Connected(b, a)
  {
    var p :| EditPath(p, a, b);
    var path := seq(|p|, i requires 0 <= i < |p| => p[|p| - 1 - i]);
    forall i | 0 <= i < |path| - 1 ensures Edit(path[i], path[i + 1]) {
      var j := |p| - 2 - i;
      assert Edit(p[j], p[j + 1]);
    }
    assert EditPath(path, b, a);
  }

  /** An edit stays an edit behind any first character. */
  lemma InsertsUnderPrefix(c: char, a: string, b: string)
    requires Inserts(a, b)
    ensures Inserts([c] + a, [c] + b)
  {
    if b == a + "\n" {
      assert [c] + b == [c] + a + "\n";
    } else {
      var k, x: char :| InsertsBlank(a, b, k, x);
      assert [c] + b == ([c] + a)[..k + 1] + [x] + ([c] + a)[k + 1..];
      assert InsertsBlank([c] + a, [c] + b, k + 1, x);
    }
  }

  lemma ConnectedUnderPrefix(c: char, a: string, b: string)
    requires Connected(a, b)
    ensures Connected([c] + a, [c] + b)
  {
    var p :| EditPath(p, a, b);
    var path := seq(|p|, i requires 0 <= i < |p| => [c] + p[i]);
    forall i | 0 <= i < |path| - 1 ensures Edit(path[i], path[i + 1]) {
      assert Edit(p[i], p[i + 1]);
      if Inserts(p[i], p[i + 1]) {
        InsertsUnderPrefix(c, p[i], p[i + 1]);
      } else {
        InsertsUnderPrefix(c, p[i + 1], p[i]);
      }
    }
    assert EditPath(path, [c] + a, [c] + b);
  }

  // ---------- edits and the normal form ----------

  lemma {:induction false} ConnectedToNormalForm(s: string)
    ensures Connected(s, NormalForm(s))
  {
    if s == "" {
      ConnectedOne(s, s);
    } else {
      var c, rest := s[0], NormalForm(s[1..]);
      ConnectedToNormalForm(s[1..]);
      ConnectedUnderPrefix(c, s[1..], rest);
      assert [c] + s[1..] == s;
      if NormalForm(s) != [c] + rest {
        if IsBlank(c) && (rest == "" || rest[0] == '\n') {
          assert InsertsBlank(rest, [c] + rest, 0, c);
        } else {
          assert [c] + rest == "" + "\n";
        }
        assert Edit([c] + rest, NormalForm(s));
      }
      ConnectedOne([c] + rest, NormalForm(s));
      ConnectedJoin(s, [c] + rest, NormalForm(s));
    }
  }

  lemma {:induction false} NormalFormIgnoresBlank(u: string, c: char, v: string)
    requires IsBlank(c) && (v == "" || v[0] == '\n')
    ensures NormalForm(u + [c] + v) == NormalForm(u + v)
  {
    if u == "" {
      assert u + v == v && (u + [c] + v)[1..] == v;
    } else {
      hide NormalForm, IsBlank;
      var d, t := u[0], u[1..];
      NormalFormIgnoresBlank(t, c, v);
      NormalFormOfChar(d, t + [c] + v);
      NormalFormOfChar(d, t + v);
      assert u + [c] + v == [d] + (t + [c] + v) && u + v == [d] + (t + v);
    }
  }

  lemma {:induction false} NormalFormIgnoresLastNewline(u: string)
    ensures NormalForm(u + "\n") == NormalForm(u)
  {
    if u == "" {
      assert NormalForm("\n"[1..]) == "";
    } else {
      NormalFormIgnoresLastNewline(u[1..]);
      assert (u + "\n")[1..] == u[1..] + "\n";
    }
  }

  lemma InsertsKeepsNormalForm(a: string, b: string)
    requires Inserts(a, b)
    ensures NormalForm(a) == NormalForm(b)
  {
    if b == a + "\n" {
      NormalFormIgnoresLastNewline(a);
    } else {
      var k, c: char :| InsertsBlank(a, b, k, c);
      NormalFormIgnoresBlank(a[..k], c, a[k..]);
      assert a == a[..k] + a[k..];
    }
  }

  lemma {:induction false} PathKeepsNormalForm(path: seq<string>, a: string, b: string)
    requires EditPath(path, a, b)
    ensures NormalForm(a) == NormalForm(b)
    decreases |path|
  {
    if |path| > 1 {
      assert Edit(path[0], path[1]);
      if Inserts(path[0], path[1]) {
        InsertsKeepsNormalForm(path[0], path[1]);
      } else {
        InsertsKeepsNormalForm(path[1], path[0]);
      }
      forall i | 0 <= i < |path[1..]| - 1 ensures Edit(path[1..][i], path[1..][i + 1]) {
        assert Edit(path[i + 1], path[i + 2]);
      }
      PathKeepsNormalForm(path[1..], path[1], b);
    }
  }

  /** Two texts are connected exactly when they have the same normal form. */
  lemma ConnectedIffSameNormalForm(a: string, b: string)
    ensures Connected(a, b) <==> NormalForm(a) == NormalForm(b)
  {
    if Connected(a, b) {
      var path :| EditPath(path, a, b);
      PathKeepsNormalForm(path, a, b);
    }
    if NormalForm(a) == NormalForm(b) {
      ConnectedToNormalForm(a);
      ConnectedToNormalForm(b);
      ConnectedBack(b, NormalForm(b));
      ConnectedJoin(a, NormalForm(a), b);
    }
  }

  // ---------- lines and texts ----------

  function Join(lines: seq<string>): string {
    if lines == [] then ""
    else if |lines| == 1 then lines[0]
    else lines[0] + "\n" + Join(lines[1..])
  }

  /** Lines without newlines, the last of them not empty. */
  ghost predicate Canonical(lines: seq<string>) {
    && (forall i :: 0 <= i < |lines| ==> '\n' !in lines[i])
    && (lines != [] ==> lines[|lines| - 1] != "")
  }

  /** Joining canonical lines and splitting again returns the same lines. */
  lemma {:induction false} SplitJoined(lines: seq<string>)
    requires Canonical(lines)
    ensures Lines(Join(lines)) == lines
  {
    if |lines| == 1 {
      assert forall j :: 0 <= j < |lines[0]| ==> lines[0][j] in lines[0];
    } else if |lines| > 1 {
      SplitJoined(lines[1..]);
      LinesOfFirst(lines[0], Join(lines[1..]));
    }
  }

  lemma {:induction false} TrimFromLeft(c: char, t: string)
    ensures TrimRight([c] + t) == if IsBlank(c) && TrimRight(t) == "" then "" else [c] + TrimRight(t)
  {
    var s := [c] + t;
    if t == "" {
      assert s[..|s| - 1] == "";
    } else if IsBlank(t[|t| - 1]) {
      assert s[..|s| - 1] == [c] + t[..|t| - 1];
      TrimFromLeft(c, t[..|t| - 1]);
    }
  }

  lemma {:induction false} DropFromLeft(x: string, rest: seq<string>)
    ensures DropEmptyTail([x] + rest) ==
            if x == "" && DropEmptyTail(rest) == [] then [] else [x] + DropEmptyTail(rest)
  {
    var s := [x] + rest;
    if rest == [] {
      assert s[..|s| - 1] == [];
    } else if rest[|rest| - 1] == "" {
      assert s[..|s| - 1] == [x] + rest[..|rest| - 1];
      DropFromLeft(x, rest[..|rest| - 1]);
    }
  }

  lemma NormalFormOfChar(c: char, rest: string)
    ensures var n := NormalForm(rest);
      NormalForm([c] + rest) ==
      if IsBlank(c) && (n == "" || n[0] == '\n') then n
      else if c == '\n' && n == "" then ""
      else [c] + n
  {
    assert ([c] + rest)[1..] == rest;
  }

  /** A trimmed line in front of a normal form that starts a new line, if it is not empty. */
  lemma TrimmedInFront(c: char, x: string, y: string)
    requires c != '\n' && (x != "" ==> x[0] != '\n') && (y != "" ==> y[0] == '\n')
    ensures (if IsBlank(c) && (x + y == "" || (x + y)[0] == '\n') then x + y else [c] + (x + y))
         == (if IsBlank(c) && x == "" then "" else [c] + x) + y
  {
    ConcatAssoc([c], x, y);
    assert "" + y == y;
  }

  lemma FirstAndRest(line: string, tail: string)
    requires line != "" && '\n' !in line
    ensures line[0] != '\n' && '\n' !in line[1..]
    ensures line == [line[0]] + line[1..] && line + tail == [line[0]] + (line[1..] + tail)
  {
    assert line[0] in line;
  }

  lemma TrimStartsNoLine(line: string)
    requires '\n' !in line
    ensures TrimRight(line) != "" ==> TrimRight(line)[0] != '\n'
  {
    TrimIsPrefix(line);
  }

  /** The normal form of one line followed by nothing or by a newline and more text. */
  lemma {:induction false} NormalFormOfLine(line: string, tail: string)
    requires '\n' !in line
    requires tail == "" || tail[0] == '\n'
    ensures NormalForm(line + tail) == TrimRight(line) + NormalForm(tail)
  {
    if line == "" {
      assert line + tail == tail;
    } else {
      hide NormalForm, TrimRight, IsBlank;
      var c, t := line[0], line[1..];
      FirstAndRest(line, tail);
      NormalFormOfLine(t, tail);
      NormalFormOfChar(c, t + tail);
      TrimFromLeft(c, t);
      TrimStartsNoLine(t);
      FirstOfNormalForm(tail);
      TrimmedInFront(c, TrimRight(t), NormalForm(tail));
    }
  }

  lemma FirstOfNormalForm(tail: string)
    requires tail == "" || tail[0] == '\n'
    ensures NormalForm(tail) == "" || NormalForm(tail)[0] == '\n'
  {
  }

  lemma {:induction false} TrimIsPrefix(line: string)
    ensures TrimRight(line) <= line
  {
    if line != "" && IsBlank(line[|line| - 1]) {
      TrimIsPrefix(line[..|line| - 1]);
    }
  }

  lemma TrimKeepsNewlinesOut(line: string)
    requires '\n' !in line
    ensures '\n' !in TrimRight(line)
  {
    TrimIsPrefix(line);
  }

  /** A text without newlines. */
  lemma OneLine(s: string)
    requires '\n' !in s
    ensures Canonical(DropEmptyTail([TrimRight(s)]))
    ensures Join(DropEmptyTail([TrimRight(s)])) == NormalForm(s)
  {
    TrimKeepsNewlinesOut(s);
    NormalFormOfLine(s, "");
    assert s + "" == s;
    DropFromLeft(TrimRight(s), []);
    assert [TrimRight(s)] + [] == [TrimRight(s)];
  }

  /** One line in front of a text already dealt with. */
  lemma LineInFront(line: string, rest: string, lines: seq<string>)
    requires '\n' !in line
    requires Canonical(DropEmptyTail(lines)) && Join(DropEmptyTail(lines)) == NormalForm(rest)
    ensures Canonical(DropEmptyTail([TrimRight(line)] + lines))
    ensures Join(DropEmptyTail([TrimRight(line)] + lines)) == NormalForm(line + "\n" + rest)
  {
    hide DropEmptyTail, TrimRight, Canonical, Join, NormalForm;
    var x, tail := TrimRight(line), DropEmptyTail(lines);
    TrimKeepsNewlinesOut(line);
    DropFromLeft(x, lines);
    NormalFormOfLine(line, "\n" + rest);
    NormalFormOfNewline(rest);
    CanonicalInFront(x, tail);
    ConcatAssoc(line, "\n", rest);
    ConcatAssoc(x, "\n", NormalForm(rest));
  }

  lemma NormalFormOfNewline(rest: string)
    ensures NormalForm("\n" + rest) == if NormalForm(rest) == "" then "" else "\n" + NormalForm(rest)
  {
    assert ("\n" + rest)[1..] == rest;
  }

  lemma CanonicalInFront(x: string, tail: seq<string>)
    requires '\n' !in x && Canonical(tail)
    ensures var lines := if x == "" && tail == [] then [] else [x] + tail;
      && Canonical(lines)
      && Join(lines) == if Join(tail) == "" then x else x + "\n" + Join(tail)
  {
    if tail != [] {
      JoinNotEmpty(tail);
      assert ([x] + tail)[1..] == tail;
    }
  }

  lemma AroundNewline(s: string, k: nat)
    requires k == Find(s, '\n') < |s|
    ensures '\n' !in s[..k] && s == s[..k] + "\n" + s[k + 1..]
  {
    hide Find;
  }

  lemma TrimFirst(line: string, lines: seq<string>)
    ensures TrimAll([line] + lines) == [TrimRight(line)] + TrimAll(lines)
    ensures [line] + [] == [line] && TrimAll([]) == [] && [TrimRight(line)] + [] == [TrimRight(line)]
  {
    assert ([line] + lines)[1..] == lines;
  }

  /** The lines the code keeps are canonical and spell the normal form of the text. */
  lemma {:induction false} CanonicalLinesSpellNormalForm(s: string)
    ensures Canonical(CanonicalLines(s))
    ensures Join(CanonicalLines(s)) == NormalForm(s)
    decreases |s|
  {
    if s != "" {
      hide Lines, Find, NormalForm, Join, DropEmptyTail, TrimAll, TrimRight, Canonical;
      var k := Find(s, '\n');
      if k == |s| {
        assert '\n' !in s;
        OnlyLine(s);
        TrimFirst(s, []);
        OneLine(s);
      } else {
        var line, rest := s[..k], s[k + 1..];
        FirstLine(s, k);
        AroundNewline(s, k);
        TrimFirst(line, Lines(rest));
        CanonicalLinesSpellNormalForm(rest);
        LineInFront(line, rest, TrimAll(Lines(rest)));
      }
    }
  }

  lemma JoinNotEmpty(lines: seq<string>)
    requires lines != [] && lines[|lines| - 1] != ""
    ensures Join(lines) != ""
  {
  }

  /** `compare_output` decides connectedness by white-space edits, in both directions. */
  lemma ComparisonDecidesEdits(a: string, b: string)
    ensures SameOutput(a, b) <==> Connected(a, b)
  {
    CanonicalLinesSpellNormalForm(a);
    CanonicalLinesSpellNormalForm(b);
    SplitJoined(CanonicalLines(a));
    SplitJoined(CanonicalLines(b));
    ConnectedIffSameNormalForm(a, b);
  }
}
