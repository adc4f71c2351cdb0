/**
  The per-message template (`generateMessagePool`): for a message with short
  name `N` and Go type `T` it emits a `NPool` variable holding a `sync.Pool`
  whose factory allocates a fresh `&T{}`, a `GetN` accessor that takes a value
  from the pool, and a `PutN` accessor that resets the value and only then
  returns it to the pool. One emitted line per `g.P` call.
 */
module PoolTemplate {
  import opened Wrappers
  import opened Descriptors
  import opened GoScan

  /** Lines one message contributes to the generated file. */
  const BlockLength: nat := 19

  function PoolVarName(name: string): string { name + "Pool" }
  function GetterName(name: string): string { "Get" + name }
  function PutterName(name: string): string { "Put" + name }

  /** The three identifiers one message declares, in emission order. */
  function Identifiers(name: string): seq<string> {
    [PoolVarName(name), GetterName(name), PutterName(name)]
  }

  /** The call that hands a value back to the message's pool. */
  function ReleaseCall(name: string): string { name + "Pool.Put(m)" }

  const ResetCall := "m.Reset()"

  const ResetText := "Reset the message before putting it back to the pool"
  const ResetComment := Comment(ResetText)

  /** A line comment. */
  function Comment(text: string): string { "// " + text }

  /** A top-level `var` line declaring `id`; `rest` is what follows the name. */
  function VarDecl(id: string, rest: string): string { "var " + id + rest }

  /** A function header declaring `id`; `rest` is the signature after the name. */
  function FuncHeader(id: string, rest: string): string { "func " + id + rest }

  /** A `return` statement. */
  function Return(expr: string): string { "return " + expr }

  /** The pool variable and its factory. */
  function PoolVariable(name: string, typeText: string, poolText: string): seq<string> {
    [ Comment(name + "Pool is a sync.Pool for " + name),
      VarDecl(PoolVarName(name), " = &" + poolText + "{"),
      "New: func() interface{} {",
      Return("&" + typeText + "{}"),
      "},",
      "}",
      "" ]
  }

  /** The Get accessor. */
  function GetAccessor(name: string, typeText: string): seq<string> {
    [ Comment("Get" + name + " gets a " + name + " from the pool"),
      FuncHeader(GetterName(name), "() *" + typeText + " {"),
      Return(PoolVarName(name) + ".Get().(*" + typeText + ")"),
      "}",
      "" ]
  }

  /** The Put accessor. */
  function PutAccessor(name: string, typeText: string): seq<string> {
    [ Comment("Put" + name + " puts a " + name + " back to the pool"),
      FuncHeader(PutterName(name), "(m *" + typeText + ") {"),
      ResetComment,
      ResetCall,
      ReleaseCall(name),
      "}",
      "" ]
  }

  /**
    The block for one message. `render` is the generated file's
    `QualifiedGoIdent`: it writes the message's Go type and `sync.Pool`.
   */
  function MessagePool(message: Message, render: GoIdent -> string): (block: seq<string>)
    ensures |block| == BlockLength
  {
    var typeText := render(message.goIdent);
    PoolVariable(message.name, typeText, render(PoolIdent))
    + GetAccessor(message.name, typeText)
    + PutAccessor(message.name, typeText)
  }

  // ---------------------------------------------------------------------------
  // What a block declares

  /** The block declares exactly `NPool`, `GetN` and `PutN`, in that order. */
  lemma BlockDeclarations(message: Message, render: GoIdent -> string)
    requires IsIdentText(message.name)
    ensures Declarations(MessagePool(message, render))
      == [message.name + "Pool", "Get" + message.name, "Put" + message.name]
  {
    var n := message.name;
    var t := render(message.goIdent);
    var p := render(PoolIdent);
    var pv := PoolVariable(n, t, p);
    var ga := GetAccessor(n, t);
    var pa := PutAccessor(n, t);
    DeclarationsAppend(pv + ga, pa);
    DeclarationsAppend(pv, ga);
    PoolVariableDeclares(n, t, p);
    GetAccessorDeclares(n, t);
    PutAccessorDeclares(n, t);
  }

  /** A line starting with neither `v` nor `f` declares nothing and opens no Put accessor. */
  lemma PlainLine(line: string)
    requires line == "" || (line[0] != 'v' && line[0] != 'f')
    ensures Declared(line) == None && !IsPutHeader(line)
  {
    NotADeclaration(line);
    NotAPutHeader(line);
  }

  lemma CommentLine(text: string)
    ensures Declared(Comment(text)) == None && !IsPutHeader(Comment(text))
    ensures |Comment(text)| > 1 && Comment(text)[0] == '/'
  {
    PlainLine(Comment(text));
  }

  lemma ReturnLine(expr: string)
    ensures Declared(Return(expr)) == None && !IsPutHeader(Return(expr))
  {
    PlainLine(Return(expr));
  }

  /** A `var` line declares the identifier that opens it. */
  lemma VarDeclLine(id: string, rest: string)
    requires IsIdentText(id) && (rest == "" || !IsIdentChar(rest[0]))
    ensures Declared(VarDecl(id, rest)) == Some(id) && !IsPutHeader(VarDecl(id, rest))
  {
    var line := VarDecl(id, rest);
    assert line[..4] == "var ";
    assert line[4..] == id + rest;
    TakeIdentOfConcat(id, rest);
    NotAPutHeader(line);
  }

  /** A function header declares the identifier that opens it. */
  lemma FuncHeaderLine(id: string, rest: string)
    requires IsIdentText(id) && (rest == "" || !IsIdentChar(rest[0]))
    ensures Declared(FuncHeader(id, rest)) == Some(id)
  {
    var line := FuncHeader(id, rest);
    assert line[..4][0] == 'f';
    assert line[..5] == "func ";
    assert line[5..] == id + rest;
    TakeIdentOfConcat(id, rest);
  }

  /** The Get accessor's header opens no Put accessor. */
  lemma GetHeaderLine(n: string, rest: string)
    ensures !IsPutHeader(FuncHeader(GetterName(n), rest))
  {
    var line := FuncHeader(GetterName(n), rest);
    assert line[5] == 'G';
    assert |line| >= 8 ==> line[..8][5] == line[5];
  }

  /** The Put accessor's header opens a Put accessor, and names the message right after `func Put`. */
  lemma PutHeaderLine(n: string, rest: string)
    requires IsIdentText(n) && (rest == "" || !IsIdentChar(rest[0]))
    ensures IsPutHeader(FuncHeader(PutterName(n), rest))
    ensures TakeIdent(FuncHeader(PutterName(n), rest)[8..]) == n
  {
    var line := FuncHeader(PutterName(n), rest);
    assert line == "func Put" + (n + rest);
    assert line[..8] == "func Put";
    assert line[8..] == n + rest;
    TakeIdentOfConcat(n, rest);
  }

  lemma PoolVariableDeclares(n: string, t: string, p: string)
    requires IsIdentText(n)
    ensures Declarations(PoolVariable(n, t, p)) == [PoolVarName(n)]
  {
    var pv := PoolVariable(n, t, p);
    VarDeclLine(PoolVarName(n), " = &" + p + "{");
    forall i | 0 <= i < |pv| && i != 1
      ensures Declared(pv[i]) == None
    {
      if i == 0 {
        CommentLine(n + "Pool is a sync.Pool for " + n);
      } else if i == 3 {
        ReturnLine("&" + t + "{}");
      } else {
        NotADeclaration(pv[i]);
      }
    }
    OnlyDeclaration(pv, 1, PoolVarName(n));
  }

  lemma GetAccessorDeclares(n: string, t: string)
    requires IsIdentText(n)
    ensures Declarations(GetAccessor(n, t)) == [GetterName(n)]
  {
    var ga := GetAccessor(n, t);
    FuncHeaderLine(GetterName(n), "() *" + t + " {");
    forall i | 0 <= i < |ga| && i != 1
      ensures Declared(ga[i]) == None
    {
      if i == 0 {
        CommentLine("Get" + n + " gets a " + n + " from the pool");
      } else if i == 2 {
        ReturnLine(PoolVarName(n) + ".Get().(*" + t + ")");
      } else {
        NotADeclaration(ga[i]);
      }
    }
    OnlyDeclaration(ga, 1, GetterName(n));
  }

  lemma PutAccessorDeclares(n: string, t: string)
    requires IsIdentText(n)
    ensures Declarations(PutAccessor(n, t)) == [PutterName(n)]
  {
    var pa := PutAccessor(n, t);
    FuncHeaderLine(PutterName(n), "(m *" + t + ") {");
    forall i | 0 <= i < |pa| && i != 1
      ensures Declared(pa[i]) == None
    {
      if i == 0 {
        CommentLine("Put" + n + " puts a " + n + " back to the pool");
      } else if i == 2 {
        CommentLine(ResetText);
      } else if i == 4 {
        ReleaseCallIsNoDeclaration(n);
      } else {
        NotADeclaration(pa[i]);
      }
    }
    OnlyDeclaration(pa, 1, PutterName(n));
  }

  /** The release line begins with the message name, which has no space, so it declares nothing. */
  lemma ReleaseCallIsNoDeclaration(name: string)
    requires IsIdentText(name)
    ensures Declared(ReleaseCall(name)) == None
    ensures !StartsWith(ReleaseCall(name), "func Put")
  {
    var line := ReleaseCall(name);
    assert |line| == |name| + 11;
    assert line[3] != ' ' by {
      if |name| > 3 { assert line[3] == name[3]; }
    }
    assert line[4] != ' ' by {
      if |name| > 4 { assert line[4] == name[4]; }
    }
    assert line[..4][3] != ' ';
    assert line[..5][4] != ' ';
    assert line[..8][4] != ' ';
  }

  /** A message's three identifiers are pairwise different, whatever its name. */
  lemma IdentifiersDistinctWithin(name: string)
    ensures forall a, b :: 0 <= a < b < 3 ==> Identifiers(name)[a] != Identifiers(name)[b]
  {
    assert |PoolVarName(name)| != |GetterName(name)|;
    assert |PoolVarName(name)| != |PutterName(name)|;
    assert GetterName(name)[0] != PutterName(name)[0];
  }

  /**
    `a`'s pool variable is spelt like an accessor of `b`: `a` is `Get` or
    `Put` followed by some `X`, and `b` is `XPool`. For example the messages
    `GetFoo` and `FooPool` both declare `GetFooPool`.
   */
  predicate Crossed(a: string, b: string) {
    |a| >= 3 && (a[..3] == "Get" || a[..3] == "Put") && b == a[3..] + "Pool"
  }

  /** Two messages declare a common identifier exactly when their names are equal or crossed. */
  predicate Collide(a: string, b: string) {
    a == b || Crossed(a, b) || Crossed(b, a)
  }

  lemma {:induction false} PoolVarMeetsAccessor(a: string, verb: string, b: string)
    requires verb == "Get" || verb == "Put"
    ensures PoolVarName(a) == verb + b <==> |a| >= 3 && a[..3] == verb && b == a[3..] + "Pool"
  {
    ShortNameMeetsNoAccessor(a, verb, b);
    if PoolVarName(a) == verb + b {
      var s := a + "Pool";
      assert a[..3] == s[..3] == (verb + b)[..3] == verb;
      assert b == (verb + b)[3..] == s[3..] == a[3..] + "Pool";
    }
    if |a| >= 3 && a[..3] == verb && b == a[3..] + "Pool" {
      assert a == verb + a[3..];
    }
  }

  lemma SuffixCancels(a: string, b: string, suffix: string)
    ensures a + suffix == b + suffix ==> a == b
  {
    if a + suffix == b + suffix {
      assert a == (a + suffix)[..|a|];
    }
  }

  lemma PrefixCancels(prefix: string, a: string, b: string)
    ensures prefix + a == prefix + b ==> a == b
  {
    if prefix + a == prefix + b {
      assert a == (prefix + a)[|prefix|..];
    }
  }

  /** A pool variable of a name shorter than three characters is never spelt like an accessor. */
  lemma ShortNameMeetsNoAccessor(a: string, verb: string, b: string)
    requires verb == "Get" || verb == "Put"
    ensures |a| < 3 ==> PoolVarName(a) != verb + b
  {
    var s := a + "Pool";
    if |a| == 0 {
      assert s[1] == 'o' != verb[1] == (verb + b)[1];
    } else if |a| < 3 {
      assert s[|a|] == 'P' != verb[|a|] == (verb + b)[|a|];
    }
  }

  /** Which pairs of message names make the generated file declare an identifier twice. */
  lemma IdentifiersCollide(a: string, b: string)
    ensures (exists x :: x in Identifiers(a) && x in Identifiers(b)) <==> Collide(a, b)
  {
    PoolVarMeetsAccessor(a, "Get", b);
    PoolVarMeetsAccessor(a, "Put", b);
    PoolVarMeetsAccessor(b, "Get", a);
    PoolVarMeetsAccessor(b, "Put", a);
    if Collide(a, b) {
      if a == b {
        assert PoolVarName(a) in Identifiers(b);
      } else if Crossed(a, b) {
        if a[..3] == "Get" {
          assert PoolVarName(a) == GetterName(b);
        } else {
          assert PoolVarName(a) == PutterName(b);
        }
        assert PoolVarName(a) in Identifiers(b);
      } else {
        if b[..3] == "Get" {
          assert PoolVarName(b) == GetterName(a);
        } else {
          assert PoolVarName(b) == PutterName(a);
        }
        assert PoolVarName(b) in Identifiers(a);
      }
    } else {
      SuffixCancels(a, b, "Pool");
      PrefixCancels("Get", a, b);
      PrefixCancels("Put", a, b);
      assert GetterName(a)[0] != PutterName(b)[0];
      assert PutterName(a)[0] != GetterName(b)[0];
    }
  }

  // ---------------------------------------------------------------------------
  // Reset before release

  predicate IsPutHeader(line: string) {
    StartsWith(line, "func Put")
  }

  /**
    In the function whose header is `lines[k]`, with `N` read from the header
    `func PutN(...`: the first `m.Reset()` comes strictly before the first
    `NPool.Put(m)`, and that comes strictly before the function's closing `}`.
   */
  predicate ResetsBeforeRelease(lines: seq<string>, k: nat)
    requires k < |lines| && IsPutHeader(lines[k])
  {
    var name := TakeIdent(lines[k][8..]);
    var reset := Find(lines, "m.Reset()", k + 1);
    var release := Find(lines, name + "Pool.Put(m)", k + 1);
    var close := Find(lines, "}", k + 1);
    reset < release < close < |lines|
  }

  /** Every Put accessor in `lines` resets its argument before releasing it. */
  predicate ResetBeforeRelease(lines: seq<string>) {
    forall k :: 0 <= k < |lines| && IsPutHeader(lines[k]) ==> ResetsBeforeRelease(lines, k)
  }

  lemma FindInPrefix(a: seq<string>, b: seq<string>, x: string, from: nat)
    requires from <= |a| && Find(a, x, from) < |a|
    ensures Find(a + b, x, from) == Find(a, x, from)
  {
    var r := Find(a, x, from);
    assert (a + b)[r] == x;
    assert forall j :: from <= j < r ==> (a + b)[j] == a[j] != x;
  }

  lemma FindInSuffix(a: seq<string>, b: seq<string>, x: string, from: nat)
    requires from <= |b|
    ensures Find(a + b, x, |a| + from) == |a| + Find(b, x, from)
  {
    var r := Find(b, x, from);
    assert r < |b| ==> (a + b)[|a| + r] == b[r] == x;
    assert forall j :: |a| + from <= j < |a| + r ==> (a + b)[j] == b[j - |a|] != x;
  }

  lemma ResetsBeforeReleaseInPrefix(a: seq<string>, b: seq<string>, k: nat)
    requires k < |a| && IsPutHeader(a[k]) && ResetsBeforeRelease(a, k)
    ensures ResetsBeforeRelease(a + b, k)
  {
    var name := TakeIdent(a[k][8..]);
    assert (a + b)[k] == a[k];
    FindInPrefix(a, b, "m.Reset()", k + 1);
    FindInPrefix(a, b, name + "Pool.Put(m)", k + 1);
    FindInPrefix(a, b, "}", k + 1);
  }

  lemma ResetsBeforeReleaseInSuffix(a: seq<string>, b: seq<string>, k: nat)
    requires k < |b| && IsPutHeader(b[k]) && ResetsBeforeRelease(b, k)
    ensures ResetsBeforeRelease(a + b, |a| + k)
  {
    var name := TakeIdent(b[k][8..]);
    assert (a + b)[|a| + k] == b[k];
    FindInSuffix(a, b, "m.Reset()", k + 1);
    FindInSuffix(a, b, name + "Pool.Put(m)", k + 1);
    FindInSuffix(a, b, "}", k + 1);
  }

  /** Reset-before-release survives concatenation: every accessor closes inside its own part. */
  lemma ResetBeforeReleaseAppend(a: seq<string>, b: seq<string>)
    requires ResetBeforeRelease(a) && ResetBeforeRelease(b)
    ensures ResetBeforeRelease(a + b)
  {
    var s := a + b;
    forall k | 0 <= k < |s| && IsPutHeader(s[k])
      ensures ResetsBeforeRelease(s, k)
    {
      if k < |a| {
        assert s[k] == a[k];
        ResetsBeforeReleaseInPrefix(a, b, k);
      } else {
        assert s[k] == b[k - |a|];
        ResetsBeforeReleaseInSuffix(a, b, k - |a|);
      }
    }
  }

  /** A line that does not start with `f` is no Put accessor header. */
  lemma NotAPutHeader(line: string)
    requires line == "" || line[0] != 'f'
    ensures !IsPutHeader(line)
  {
    if line != "" {
      assert |line| >= 8 ==> line[..8][0] == line[0];
    }
  }

  lemma PoolVariableHasNoPut(n: string, t: string, p: string)
    requires IsIdentText(n)
    ensures ResetBeforeRelease(PoolVariable(n, t, p))
  {
    var pv := PoolVariable(n, t, p);
    forall k | 0 <= k < |pv|
      ensures !IsPutHeader(pv[k])
    {
      if k == 0 {
        CommentLine(n + "Pool is a sync.Pool for " + n);
      } else if k == 1 {
        VarDeclLine(PoolVarName(n), " = &" + p + "{");
      } else if k == 3 {
        ReturnLine("&" + t + "{}");
      } else {
        NotAPutHeader(pv[k]);
      }
    }
  }

  lemma GetAccessorHasNoPut(n: string, t: string)
    requires IsIdentText(n)
    ensures ResetBeforeRelease(GetAccessor(n, t))
  {
    var ga := GetAccessor(n, t);
    forall k | 0 <= k < |ga|
      ensures !IsPutHeader(ga[k])
    {
      if k == 0 {
        CommentLine("Get" + n + " gets a " + n + " from the pool");
      } else if k == 1 {
        GetHeaderLine(n, "() *" + t + " {");
      } else if k == 2 {
        ReturnLine(PoolVarName(n) + ".Get().(*" + t + ")");
      } else {
        NotAPutHeader(ga[k]);
      }
    }
  }

  /** Inside the Put accessor: the reset is line 3, the release line 4 and the closing brace line 5. */
  lemma PutAccessorBody(n: string, t: string)
    requires IsIdentText(n)
    ensures Find(PutAccessor(n, t), "m.Reset()", 2) == 3
    ensures Find(PutAccessor(n, t), n + "Pool.Put(m)", 2) == 4
    ensures Find(PutAccessor(n, t), "}", 2) == 5
  {
    var pa := PutAccessor(n, t);
    CommentLine(ResetText);
    assert pa[2] != ResetCall;
    assert pa[2] != ReleaseCall(n) by {
      assert n != "" ==> ReleaseCall(n)[0] == n[0];
    }
    assert |pa[3]| != |ReleaseCall(n)|;
    assert pa[4] == ReleaseCall(n);
    assert |pa[2]| != 1 && |pa[3]| != 1 && |pa[4]| != 1;
    assert pa[5] == "}";
  }

  lemma PutAccessorResets(n: string, t: string)
    requires IsIdentText(n)
    ensures ResetBeforeRelease(PutAccessor(n, t))
  {
    var pa := PutAccessor(n, t);
    forall k | 0 <= k < |pa| && k != 1
      ensures !IsPutHeader(pa[k])
    {
      if k == 0 {
        CommentLine("Put" + n + " puts a " + n + " back to the pool");
      } else if k == 2 {
        CommentLine(ResetText);
      } else if k == 4 {
        ReleaseCallIsNoDeclaration(n);
      } else {
        NotAPutHeader(pa[k]);
      }
    }
    PutHeaderLine(n, "(m *" + t + ") {");
    PutAccessorBody(n, t);
    assert ResetsBeforeRelease(pa, 1);
  }

  /** The Put accessor of every block calls `m.Reset()` before `NPool.Put(m)`, inside its body. */
  lemma BlockResetBeforeRelease(message: Message, render: GoIdent -> string)
    requires IsIdentText(message.name)
    ensures ResetBeforeRelease(MessagePool(message, render))
    ensures IsPutHeader(MessagePool(message, render)[13])
    ensures TakeIdent(MessagePool(message, render)[13][8..]) == message.name
  {
    var n := message.name;
    var t := render(message.goIdent);
    var p := render(PoolIdent);
    PutHeaderLine(n, "(m *" + t + ") {");
    PoolVariableHasNoPut(n, t, p);
    GetAccessorHasNoPut(n, t);
    PutAccessorResets(n, t);
    ResetBeforeReleaseAppend(PoolVariable(n, t, p), GetAccessor(n, t));
    ResetBeforeReleaseAppend(PoolVariable(n, t, p) + GetAccessor(n, t), PutAccessor(n, t));
  }

  // ---------------------------------------------------------------------------
  // What the pool allocates and what Get hands out

  /** The factory's `return &T{}` allocates `T`. */
  lemma AllocationLine(t: string)
    ensures AllocatedType(Return("&" + t + "{}")) == Some(t)
  {
    var line := Return("&" + t + "{}");
    assert line[..8] == "return &";
    assert line[8..|line| - 2] == t;
  }

  /** The Get accessor's `return NPool.Get().(*T)` asserts the pooled value to `T`. */
  lemma AssertionLine(n: string, t: string)
    requires IsIdentText(n)
    ensures AssertedType(Return(PoolVarName(n) + ".Get().(*" + t + ")")) == Some(t)
  {
    var line := Return(PoolVarName(n) + ".Get().(*" + t + ")");
    var head := "return " + n + "Pool";
    assert StartsWith(line, "return ");
    assert line[..|line| - 1] == head + (".Get()" + (".(*" + t));
    SplitAfterSkip(head, ".Get()" + (".(*" + t), ".(*");
    assert (".Get()" + (".(*" + t))[1..] == "Get()" + (".(*" + t);
    SplitAfterSkip("Get()", ".(*" + t, ".(*");
    SplitAfterHere(".(*", t);
  }

  /** The Get accessor's return line takes its value from `NPool`. */
  lemma GetSourceLine(n: string, t: string)
    requires IsIdentText(n)
    ensures GetSource(Return(PoolVarName(n) + ".Get().(*" + t + ")")) == Some(n + "Pool")
  {
    var id := n + "Pool";
    var rest := ".Get()" + (".(*" + t + ")");
    assert Return(PoolVarName(n) + ".Get().(*" + t + ")") == "return " + (id + rest);
    GetSourceOf(id, rest);
  }

  /** The Get accessor's header `func GetN() *T {` returns a `*T`. */
  lemma ResultTypeLine(n: string, t: string)
    requires IsIdentText(n)
    ensures ResultType(FuncHeader(GetterName(n), "() *" + t + " {")) == Some(t)
  {
    var line := FuncHeader(GetterName(n), "() *" + t + " {");
    var head := "func Get" + n;
    assert line[..5] == "func ";
    assert line[..|line| - 2] == head + ("() *" + t);
    assert line[|line| - 2..] == " {";
    SplitAfterSkip(head, "() *" + t, "() *");
    SplitAfterHere("() *", t);
  }

  /** The Put accessor's header `func PutN(m *T) {` takes a `*T`. */
  lemma ParamTypeLine(n: string, t: string)
    requires IsIdentText(n)
    ensures ParamType(FuncHeader(PutterName(n), "(m *" + t + ") {")) == Some(t)
  {
    var line := FuncHeader(PutterName(n), "(m *" + t + ") {");
    var head := "func Put" + n;
    assert line[..5] == "func ";
    assert line[..|line| - 3] == head + ("(m *" + t);
    assert line[|line| - 3..] == ") {";
    SplitAfterSkip(head, "(m *" + t, "(m *");
    SplitAfterHere("(m *", t);
  }

  /** The Get accessor's body is its one return line: the next line closes it. */
  lemma GetterCloses(n: string, t: string)
    ensures GetAccessor(n, t)[2] != "}" && GetAccessor(n, t)[3] == "}"
  {
    assert |GetAccessor(n, t)[2]| > 1;
  }

  /**
    Lines 2 to 5 are the pool's `New` factory, whose body allocates the
    message's Go type; the Get accessor takes the
    value from the message's own pool `NPool`, asserts it to that same type and
    returns a pointer to it; the Put accessor takes a pointer to that type.
   */
  lemma BlockTypesAgree(message: Message, render: GoIdent -> string)
    requires IsIdentText(message.name)
    ensures MessagePool(message, render)[2] == "New: func() interface{} {"
    ensures MessagePool(message, render)[4] == "},"
    ensures MessagePool(message, render)[5] == "}"
    ensures AllocatedType(MessagePool(message, render)[3]) == Some(render(message.goIdent))
    ensures AssertedType(MessagePool(message, render)[9]) == Some(render(message.goIdent))
    ensures GetSource(MessagePool(message, render)[9]) == Some(message.name + "Pool")
    ensures ResultType(MessagePool(message, render)[8]) == Some(render(message.goIdent))
    ensures ParamType(MessagePool(message, render)[13]) == Some(render(message.goIdent))
    ensures Find(MessagePool(message, render), "}", 9) == 10
  {
    var t := render(message.goIdent);
    BlockFactory(message, render);
    AllocationLine(t);
    AssertionLine(message.name, t);
    GetSourceLine(message.name, t);
    ResultTypeLine(message.name, t);
    ParamTypeLine(message.name, t);
  }

  /** Lines 2 to 5 are the `New` factory, and the Get accessor closes at line 10. */
  lemma BlockFactory(message: Message, render: GoIdent -> string)
    ensures MessagePool(message, render)[2] == "New: func() interface{} {"
    ensures MessagePool(message, render)[4] == "},"
    ensures MessagePool(message, render)[5] == "}"
    ensures Find(MessagePool(message, render), "}", 9) == 10
  {
    GetterCloses(message.name, render(message.goIdent));
    FindNext(MessagePool(message, render), "}", 9);
  }

  /** A block is determined by the message's short name, its rendered type and the rendered pool type. */
  lemma BlockDependsOnlyOnTexts(m1: Message, render1: GoIdent -> string, m2: Message, render2: GoIdent -> string)
    requires m1.name == m2.name
    requires render1(m1.goIdent) == render2(m2.goIdent)
    requires render1(PoolIdent) == render2(PoolIdent)
    ensures MessagePool(m1, render1) == MessagePool(m2, render2)
  {
  }

  /** With the standard qualifier, the pool variable points at a `sync.Pool`. */
  lemma BlockUsesSyncPool(message: Message, render: GoIdent -> string)
    requires render(PoolIdent) == "sync.Pool"
    ensures MessagePool(message, render)[1] == "var " + message.name + "Pool = &sync.Pool{"
  {
  }
}
