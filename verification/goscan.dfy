/**
  A small reader for the Go lines the plugin emits. It is independent of the
  emitter and is used to state what the emitted text declares, allocates and
  calls: the identifier a `var`/`func` line declares, the first line equal to
  a given text, and the type a `return` line allocates or asserts.
 */
module GoScan {
  import opened Wrappers
  import opened Descriptors

  predicate StartsWith(s: string, prefix: string) {
    |prefix| <= |s| && s[..|prefix|] == prefix
  }

  /** The longest prefix of `s` made of identifier characters. */
  function TakeIdent(s: string): (r: string)
    ensures |r| <= |s| && r == s[..|r|]
    ensures IsIdentText(r)
    ensures |r| == |s| || !IsIdentChar(s[|r|])
  {
    if |s| > 0 && IsIdentChar(s[0]) then [s[0]] + TakeIdent(s[1..]) else ""
  }

  lemma {:induction false} TakeIdentOfConcat(a: string, b: string)
    requires IsIdentText(a)
    requires b == "" || !IsIdentChar(b[0])
    ensures TakeIdent(a + b) == a
  {
    if a == [] {
      assert a + b == b;
    } else {
      assert (a + b)[0] == a[0];
      assert (a + b)[1..] == a[1..] + b;
      TakeIdentOfConcat(a[1..], b);
      assert a == [a[0]] + a[1..];
    }
  }

  /** The identifier a top-level `var` or `func` line declares, if it is one. */
  function Declared(line: string): Option<string> {
    if StartsWith(line, "var ") then Some(TakeIdent(line[4..]))
    else if StartsWith(line, "func ") then Some(TakeIdent(line[5..]))
    else None
  }

  /** What one line declares: one identifier or nothing. */
  function LineDeclarations(line: string): seq<string> {
    match Declared(line)
    case Some(x) => [x]
    case None => []
  }

  /** The identifiers declared by `lines`, in order. */
  function Declarations(lines: seq<string>): seq<string> {
    if lines == [] then [] else LineDeclarations(lines[0]) + Declarations(lines[1..])
  }

  /** A line that starts with neither `v` nor `f` declares nothing. */
  lemma NotADeclaration(line: string)
    requires line == "" || (line[0] != 'v' && line[0] != 'f')
    ensures Declared(line) == None
  {
    if line != "" {
      assert |line| >= 4 ==> line[..4][0] == line[0];
      assert |line| >= 5 ==> line[..5][0] == line[0];
    }
  }

  lemma {:induction false} DeclarationsAppend(a: seq<string>, b: seq<string>)
    ensures Declarations(a + b) == Declarations(a) + Declarations(b)
  {
    if a == [] {
      assert a + b == b;
    } else {
      assert (a + b)[0] == a[0];
      assert (a + b)[1..] == a[1..] + b;
      assert Declarations(a + b) == LineDeclarations(a[0]) + Declarations(a[1..] + b);
      DeclarationsAppend(a[1..], b);
    }
  }

  lemma {:induction false} NoDeclarations(lines: seq<string>)
    requires forall i :: 0 <= i < |lines| ==> Declared(lines[i]) == None
    ensures Declarations(lines) == []
  {
    if lines != [] {
      NoDeclarations(lines[1..]);
    }
  }

  /** Lines of which only `lines[j]` is a declaration declare exactly what it declares. */
  lemma {:induction false} OnlyDeclaration(lines: seq<string>, j: nat, x: string)
    requires j < |lines| && Declared(lines[j]) == Some(x)
    requires forall i :: 0 <= i < |lines| && i != j ==> Declared(lines[i]) == None
    ensures Declarations(lines) == [x]
  {
    if j == 0 {
      NoDeclarations(lines[1..]);
    } else {
      OnlyDeclaration(lines[1..], j - 1, x);
    }
  }

  /** No identifier occurs twice: what a Go file needs of its top-level declarations. */
  predicate Distinct(names: seq<string>) {
    forall p, q :: 0 <= p < q < |names| ==> names[p] != names[q]
  }

  /** The index of the first line at or after `from` that equals `x`, or `|lines|` when there is none. */
  function Find(lines: seq<string>, x: string, from: nat): (r: nat)
    requires from <= |lines|
    ensures from <= r <= |lines|
    ensures r < |lines| ==> lines[r] == x
    ensures forall j :: from <= j < r ==> lines[j] != x
    decreases |lines| - from
  {
    if from == |lines| then from
    else if lines[from] == x then from
    else Find(lines, x, from + 1)
  }

  /** A line that differs from `x`, followed by `x`: the search from it stops one line later. */
  lemma FindNext(lines: seq<string>, x: string, j: nat)
    requires j + 1 < |lines| && lines[j] != x && lines[j + 1] == x
    ensures Find(lines, x, j) == j + 1
  {
  }

  /** The text after the first occurrence of `pat` in `s`. */
  function SplitAfter(s: string, pat: string): Option<string>
    requires pat != ""
  {
    if |s| < |pat| then None
    else if s[..|pat|] == pat then Some(s[|pat|..])
    else SplitAfter(s[1..], pat)
  }

  /** A prefix that does not contain the pattern's first character is skipped over. */
  lemma {:induction false} SplitAfterSkip(a: string, b: string, pat: string)
    requires pat != ""
    requires forall i :: 0 <= i < |a| ==> a[i] != pat[0]
    ensures SplitAfter(a + b, pat) == SplitAfter(b, pat)
  {
    if a == [] {
      assert a + b == b;
    } else {
      assert (a + b)[0] == a[0];
      assert |a + b| >= |pat| ==> (a + b)[..|pat|][0] != pat[0];
      assert (a + b)[1..] == a[1..] + b;
      SplitAfterSkip(a[1..], b, pat);
    }
  }

  lemma SplitAfterHere(pat: string, rest: string)
    requires pat != ""
    ensures SplitAfter(pat + rest, pat) == Some(rest)
  {
    assert (pat + rest)[..|pat|] == pat;
    assert (pat + rest)[|pat|..] == rest;
  }

  /** The type a `return &T{}` line allocates. */
  function AllocatedType(line: string): Option<string> {
    if |line| >= 10 && line[..8] == "return &" && line[|line| - 2..] == "{}" then
      Some(line[8..|line| - 2])
    else None
  }

  /** The variable a `return P.Get()...` line takes its value from: the identifier before `.Get()`. */
  function GetSource(line: string): Option<string> {
    if StartsWith(line, "return ") then
      var id := TakeIdent(line[7..]);
      if StartsWith(line[7 + |id|..], ".Get()") then Some(id) else None
    else None
  }

  /** An identifier followed by `.Get()` is read back as the source of the value. */
  lemma GetSourceOf(id: string, rest: string)
    requires IsIdentText(id) && |rest| >= 6 && rest[..6] == ".Get()"
    ensures GetSource("return " + (id + rest)) == Some(id)
  {
    var line := "return " + (id + rest);
    assert line[..7] == "return ";
    assert line[7..] == id + rest;
    TakeIdentOfConcat(id, rest);
    assert line[7 + |id|..] == rest;
  }

  /** The pointed-to result type of a `func F() *T {` header. */
  function ResultType(line: string): Option<string> {
    if |line| >= 2 && StartsWith(line, "func ") && line[|line| - 2..] == " {" then
      SplitAfter(line[..|line| - 2], "() *")
    else None
  }

  /** The pointed-to parameter type of a `func F(m *T) {` header. */
  function ParamType(line: string): Option<string> {
    if |line| >= 3 && StartsWith(line, "func ") && line[|line| - 3..] == ") {" then
      SplitAfter(line[..|line| - 3], "(m *")
    else None
  }

  /** The type a `return x.(*T)` line asserts its value to. */
  function AssertedType(line: string): Option<string> {
    if |line| >= 1 && StartsWith(line, "return ") && line[|line| - 1] == ')' then
      SplitAfter(line[..|line| - 1], ".(*")
    else None
  }
}
