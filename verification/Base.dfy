/** Vocabulary shared by every module: optional values, exceptions, decimal
    numerals and the line splitting of `std::getline`. */
module Base {

  datatype Option<+T> = None | Some(value: T)

  /** The outcome of C++ code that may throw. */
  datatype Try<+T> = Returned(value: T) | Threw

  function Max(a: int, b: int): int {
    if a > b then a else b
  }

  /** `std::to_string` on an integer. */
  function ToString(n: int): (s: string)
    ensures s != ""
    decreases if n < 0 then 1 - n else n
  {
    if n < 0 then "-" + ToString(-n)
    else if n < 10 then [Digit(n)]
    else ToString(n / 10) + [Digit(n % 10)]
  }

  function Digit(n: nat): char
    requires n < 10
  {
    "0123456789"[n]
  }

  // ---------- reading decimal numerals ----------

  function DigitOf(c: char): Option<nat> {
    if '0' <= c <= '9' then Some(c as int - '0' as int) else None
  }

  /** The number that a text of decimal digits denotes. */
  function NaturalOf(s: string): Option<nat> {
    if s == "" then None
    else
      var n := |s| - 1;
      match DigitOf(s[n])
      case None => None
      case Some(d) =>
        if n == 0 then Some(d)
        else match NaturalOf(s[..n]) case None => None case Some(high) => Some(10 * high + d)
  }

  /** Likewise with a sign in front. */
  function NumberOf(s: string): Option<int> {
    var negative := s != "" && s[0] == '-';
    match NaturalOf(if negative then s[1..] else s)
    case None => None
    case Some(n) =>
      var value: int := n;
      Some(if negative then -value else value)
  }

  lemma DigitReads(n: nat)
    requires n < 10
    ensures DigitOf(Digit(n)) == Some(n)
  {
    assert Digit(n) == "0123456789"[n];
  }

  lemma {:induction false} NaturalReads(n: nat)
    ensures NaturalOf(ToString(n)) == Some(n) && ToString(n)[0] != '-'
  {
    if n < 10 {
      DigitReads(n);
    } else {
      var high, last := ToString(n / 10), [Digit(n % 10)];
      NaturalReads(n / 10);
      DigitReads(n % 10);
      assert (high + last)[..|high|] == high && (high + last)[|high|] == last[0];
    }
  }

  /** What `std::to_string` writes denotes the number, so that different numbers are written
      differently. */
  lemma ToStringReads(n: int)
    ensures NumberOf(ToString(n)) == Some(n)
  {
    hide NaturalOf;
    if n < 0 {
      NaturalReads(-n);
      SignedReads(ToString(-n), -n);
    } else {
      NaturalReads(n);
    }
  }

  lemma SignedReads(digits: string, n: nat)
    requires NaturalOf(digits) == Some(n)
    ensures NumberOf("-" + digits) == Some(-(n as int))
  {
    hide NaturalOf;
    assert ("-" + digits)[1..] == digits;
  }

  // ---------- lines ----------

  /** The first position of `c` in `s`, or `|s|` when there is none. */
  function Find<T(==)>(s: seq<T>, c: T): (k: nat)
    ensures k <= |s|
    ensures forall j :: 0 <= j < k ==> s[j] != c
    ensures k < |s| ==> s[k] == c
  {
    if s == [] || s[0] == c then 0 else 1 + Find(s[1..], c)
  }

  /** The lines that repeated `std::getline` calls read from a text: a final
      newline ends the last line and does not start another one. */
  function Lines(s: string): seq<string>
    decreases |s|
  {
    if s == "" then []
    else
      var k := Find(s, '\n');
      if k == |s| then [s] else [s[..k]] + Lines(s[k + 1..])
  }

  /** A text without newline is one line. */
  lemma OnlyLine(rest: string)
    requires rest != "" && Find(rest, '\n') == |rest|
    ensures Lines(rest) == [rest] && Lines("") == []
  {
    hide Find;
  }

  /** The first line and where the rest starts. */
  lemma FirstLine(rest: string, k: nat)
    requires k == Find(rest, '\n') < |rest|
    ensures Lines(rest) == [rest[..k]] + Lines(rest[k + 1..])
  {
    hide Find;
  }

  lemma {:induction false} FindAfterPrefix(x: string, rest: string)
    requires '\n' !in x
    ensures Find(x + "\n" + rest, '\n') == |x|
  {
    var s := x + "\n" + rest;
    assert s[|x|] == '\n';
    assert forall j :: 0 <= j < |x| ==> s[j] == x[j] && x[j] in x;
  }

  lemma LinesOfFirst(x: string, rest: string)
    requires '\n' !in x
    ensures Lines(x + "\n" + rest) == [x] + Lines(rest)
  {
    hide Find;
    FindAfterPrefix(x, rest);
    var s := x + "\n" + rest;
    assert s[..|x|] == x;
    assert s[|x| + 1..] == rest;
  }

  /** The text that lines spell when each of them is ended by a newline. */
  function Unlines(lines: seq<string>): string {
    if lines == [] then "" else lines[0] + "\n" + Unlines(lines[1..])
  }

  /** The lines of a text hold no newline, and they spell the text, but for a last newline that
      the text may lack; no other list of lines does. */
  lemma {:induction false} LinesSpellText(s: string)
    ensures forall i :: 0 <= i < |Lines(s)| ==> '\n' !in Lines(s)[i]
    ensures Unlines(Lines(s)) == if s == "" || s[|s| - 1] == '\n' then s else s + "\n"
    decreases |s|
  {
    hide Find, Lines;
    if s == "" {
      NoLines();
    } else {
      var k := Find(s, '\n');
      if k == |s| {
        OnlyLine(s);
        NoLines();
        UnlinesOneMore(s, []);
        assert [s] + [] == [s] && s + "\n" + "" == s + "\n";
      } else {
        FirstLine(s, k);
        LinesSpellText(s[k + 1..]);
        UnlinesOneMore(s[..k], Lines(s[k + 1..]));
        hide Unlines;
        EndOfRest(s, k);
      }
    }
  }

  lemma UnlinesOneMore(line: string, lines: seq<string>)
    ensures Unlines([line] + lines) == line + "\n" + Unlines(lines)
  {
    assert ([line] + lines)[1..] == lines;
  }

  lemma EndOfRest(s: string, k: nat)
    requires k < |s| && s[k] == '\n'
    ensures var line, rest := s[..k], s[k + 1..];
      && s == line + "\n" + rest && s + "\n" == line + "\n" + (rest + "\n")
      && (rest == "" ==> s[|s| - 1] == '\n')
      && (rest != "" ==> rest[|rest| - 1] == s[|s| - 1])
  {
  }

  lemma NoLines()
    ensures Lines("") == [] && Unlines([]) == ""
  {
  }

  /** Lines without newlines are told apart by what they spell. */
  lemma {:induction false} LinesOfUnlines(lines: seq<string>)
    requires forall i :: 0 <= i < |lines| ==> '\n' !in lines[i]
    ensures Lines(Unlines(lines)) == lines
  {
    hide Find, Lines;
    if lines == [] {
      NoLines();
    } else {
      LinesOfUnlines(lines[1..]);
      LinesOfFirst(lines[0], Unlines(lines[1..]));
    }
  }

  lemma DropTwice<T>(s: seq<T>, i: nat, j: nat)
    requires i + j <= |s|
    ensures s[i..][j..] == s[i + j..]
  {
  }

  /** One `std::getline` call on a stream that stands at `pos`, before its end. */
  method GetLine(text: string, pos: nat) returns (line: string, next: nat)
    requires pos < |text|
    ensures pos < next <= |text|
    ensures Lines(text[pos..]) == [line] + Lines(text[next..])
  {
    hide Find, Lines;
    var rest := text[pos..];
    var k := Find(rest, '\n');
    line := rest[..k];
    if k == |rest| {
      next := |text|;
      OnlyLine(rest);
      assert line == rest && text[next..] == "";
    } else {
      next := pos + k + 1;
      FirstLine(rest, k);
      DropTwice(text, pos, k + 1);
    }
  }

  lemma ConcatAssoc<T>(a: seq<T>, b: seq<T>, c: seq<T>)
    ensures (a + b) + c == a + (b + c)
  {
  }

  lemma TailOfConcat<T>(a: seq<T>, b: seq<T>)
    requires a != []
    ensures (a + b)[0] == a[0] && (a + b)[1..] == a[1..] + b
  {
  }

  lemma InitOfConcat<T>(a: seq<T>, b: seq<T>)
    requires b != []
    ensures var n := |a + b| - 1;
      (a + b)[n] == b[|b| - 1] && (a + b)[..n] == a + b[..|b| - 1]
  {
  }

  ghost predicate NoDuplicates<T(!new)>(s: seq<T>) {
    forall i, j :: 0 <= i < j < |s| ==> s[i] != s[j]
  }
}
