/**
  The per-file emitter (`GenerateFile`): it names the output after the input
  file's generated-filename prefix, writes the `package` clause and a blank
  line, and then one pool block per message, in the order of the file's
  message list.
 */
module Emitter {
  import opened Wrappers
  import opened Descriptors
  import opened GoScan
  import opened PoolTemplate

  const PoolFileSuffix := ".pb.pool.go"

  /** Lines before the first block: the package clause and one blank line. */
  const HeaderLength: nat := 2

  /** The output name: the prefix, then the suffix. `OutputFilenameRoundTrip` gives the prefix back. */
  function OutputFilename(prefix: string): (name: string)
    ensures |name| == |prefix| + |PoolFileSuffix|
    ensures name[..|prefix|] == prefix && name[|prefix|..] == PoolFileSuffix
  {
    prefix + PoolFileSuffix
  }

  /** Recovers the prefix from an output file name; `None` for names without the suffix. */
  function PrefixOf(filename: string): Option<string> {
    if |filename| >= |PoolFileSuffix| && filename[|filename| - |PoolFileSuffix|..] == PoolFileSuffix then
      Some(filename[..|filename| - |PoolFileSuffix|])
    else None
  }

  /** The output name always carries the suffix and gives the prefix back, so distinct prefixes never share a file. */
  lemma OutputFilenameRoundTrip(prefix: string)
    ensures PrefixOf(OutputFilename(prefix)) == Some(prefix)
  {
    var f := OutputFilename(prefix);
    assert f[|f| - |PoolFileSuffix|..] == PoolFileSuffix;
    assert f[..|f| - |PoolFileSuffix|] == prefix;
  }

  lemma OutputFilenameInjective(p1: string, p2: string)
    requires OutputFilename(p1) == OutputFilename(p2)
    ensures p1 == p2
  {
    OutputFilenameRoundTrip(p1);
    OutputFilenameRoundTrip(p2);
  }

  /** The file's `QualifiedGoIdent`: identifiers written relative to the file's own import path. */
  function FileRender(qualify: Qualifier, importPath: string): GoIdent -> string {
    ident => qualify(importPath, ident)
  }

  /** One pool block per message, in message order. */
  function Blocks(messages: seq<Message>, render: GoIdent -> string): (lines: seq<string>)
    ensures |lines| == BlockLength * |messages|
  {
    if messages == [] then []
    else MessagePool(messages[0], render) + Blocks(messages[1..], render)
  }

  function GenerateFile(file: ProtoFile, qualify: Qualifier): (g: GeneratedFile)
    ensures g.filename == OutputFilename(file.generatedFilenamePrefix)
    ensures g.goImportPath == file.goImportPath
    ensures |g.lines| == HeaderLength + BlockLength * |file.messages|
    ensures g.lines[0] == "package " + file.goPackageName && g.lines[1] == ""
  {
    var lines := ["package " + file.goPackageName, ""]
      + Blocks(file.messages, FileRender(qualify, file.goImportPath));
    GeneratedFile(OutputFilename(file.generatedFilenamePrefix), file.goImportPath, lines)
  }

  // ---------------------------------------------------------------------------
  // Layout

  lemma {:induction false} BlocksLayout(messages: seq<Message>, render: GoIdent -> string)
    ensures forall i, k :: 0 <= i < |messages| && 0 <= k < BlockLength ==>
      Blocks(messages, render)[BlockLength * i + k] == MessagePool(messages[i], render)[k]
  {
    if messages != [] {
      BlocksLayout(messages[1..], render);
      var head := MessagePool(messages[0], render);
      var rest := Blocks(messages[1..], render);
      forall i, k | 0 <= i < |messages| && 0 <= k < BlockLength
        ensures Blocks(messages, render)[BlockLength * i + k] == MessagePool(messages[i], render)[k]
      {
        if i > 0 {
          assert BlockLength * i + k == |head| + (BlockLength * (i - 1) + k);
          assert messages[1..][i - 1] == messages[i];
        }
      }
    }
  }

  /** The block of message `i` occupies lines `2 + 19i` to `2 + 19i + 18`, after the two header lines. */
  lemma FileLayout(file: ProtoFile, qualify: Qualifier)
    ensures forall i, k :: 0 <= i < |file.messages| && 0 <= k < BlockLength ==>
      GenerateFile(file, qualify).lines[HeaderLength + BlockLength * i + k]
        == MessagePool(file.messages[i], FileRender(qualify, file.goImportPath))[k]
  {
    BlocksLayout(file.messages, FileRender(qualify, file.goImportPath));
  }

  // ---------------------------------------------------------------------------
  // Declared identifiers

  /** The identifiers the messages call for, three per message, in message order. */
  function AllIdentifiers(messages: seq<Message>): (ids: seq<string>)
    ensures |ids| == 3 * |messages|
  {
    if messages == [] then []
    else
      var n := messages[0].name;
      [n + "Pool", "Get" + n, "Put" + n] + AllIdentifiers(messages[1..])
  }

  /** Identifier `a` of message `i` sits at position `3i + a`. */
  lemma {:induction false} AllIdentifiersLayout(messages: seq<Message>)
    ensures forall i, a :: 0 <= i < |messages| && 0 <= a < 3 ==>
      AllIdentifiers(messages)[3 * i + a] == Identifiers(messages[i].name)[a]
  {
    if messages != [] {
      AllIdentifiersLayout(messages[1..]);
      forall i, a | 0 <= i < |messages| && 0 <= a < 3
        ensures AllIdentifiers(messages)[3 * i + a] == Identifiers(messages[i].name)[a]
      {
        if i > 0 {
          assert 3 * i + a == 3 + (3 * (i - 1) + a);
          assert messages[1..][i - 1] == messages[i];
        }
      }
    }
  }

  lemma {:induction false} BlocksDeclarations(messages: seq<Message>, render: GoIdent -> string)
    requires IdentNames(messages)
    ensures Declarations(Blocks(messages, render)) == AllIdentifiers(messages)
  {
    if messages != [] {
      BlockDeclarations(messages[0], render);
      BlocksDeclarations(messages[1..], render);
      DeclarationsAppend(MessagePool(messages[0], render), Blocks(messages[1..], render));
    }
  }

  /** The file declares exactly `NPool`, `GetN`, `PutN` for each message `N`, in message order. */
  lemma FileDeclarations(file: ProtoFile, qualify: Qualifier)
    requires IdentNames(file.messages)
    ensures Declarations(GenerateFile(file, qualify).lines) == AllIdentifiers(file.messages)
  {
    var header := ["package " + file.goPackageName, ""];
    var render := FileRender(qualify, file.goImportPath);
    NotADeclaration(header[0]);
    NotADeclaration(header[1]);
    NoDeclarations(header);
    DeclarationsAppend(header, Blocks(file.messages, render));
    BlocksDeclarations(file.messages, render);
  }

  /**
    The file declares no identifier twice exactly when no two of its messages
    collide: equal short names, or names like `GetFoo` and `FooPool`.
   */
  lemma FileIdentifiersDistinct(file: ProtoFile, qualify: Qualifier)
    requires IdentNames(file.messages)
    ensures Distinct(Declarations(GenerateFile(file, qualify).lines))
      <==> forall i, j :: 0 <= i < j < |file.messages| ==> !Collide(file.messages[i].name, file.messages[j].name)
  {
    FileDeclarations(file, qualify);
    AllIdentifiersDistinct(file.messages);
  }

  lemma AllIdentifiersDistinct(messages: seq<Message>)
    ensures Distinct(AllIdentifiers(messages))
      <==> forall i, j :: 0 <= i < j < |messages| ==> !Collide(messages[i].name, messages[j].name)
  {
    AllIdentifiersLayout(messages);
    LaidOutDistinct(messages, AllIdentifiers(messages));
  }

  /** Names laid out three per message are distinct exactly when no two messages collide. */
  lemma LaidOutDistinct(messages: seq<Message>, ids: seq<string>)
    requires |ids| == 3 * |messages|
    requires forall i, a :: 0 <= i < |messages| && 0 <= a < 3 ==> ids[3 * i + a] == Identifiers(messages[i].name)[a]
    ensures Distinct(ids)
      <==> forall i, j :: 0 <= i < j < |messages| ==> !Collide(messages[i].name, messages[j].name)
  {
    if forall i, j :: 0 <= i < j < |messages| ==> !Collide(messages[i].name, messages[j].name) {
      forall p, q | 0 <= p < q < |ids|
        ensures ids[p] != ids[q]
      {
        var i, a := p / 3, p % 3;
        var j, b := q / 3, q % 3;
        assert p == 3 * i + a && q == 3 * j + b;
        IdentifiersDiffer(messages[i].name, a, messages[j].name, b, i == j);
      }
    }
    if Distinct(ids) {
      forall i, j | 0 <= i < j < |messages|
        ensures !Collide(messages[i].name, messages[j].name)
      {
        var x, y := messages[i].name, messages[j].name;
        forall a, b | 0 <= a < 3 && 0 <= b < 3
          ensures Identifiers(x)[a] != Identifiers(y)[b]
        {
          assert ids[3 * i + a] != ids[3 * j + b];
        }
        NoSharedIdentifier(x, y);
      }
    }
  }

  /** Identifier `a` of name `x` and identifier `b` of name `y` differ when the names do not collide, or are the same name and `a < b`. */
  lemma IdentifiersDiffer(x: string, a: nat, y: string, b: nat, same: bool)
    requires a < 3 && b < 3
    requires same ==> x == y && a < b
    requires !same ==> !Collide(x, y)
    ensures Identifiers(x)[a] != Identifiers(y)[b]
  {
    if same {
      IdentifiersDistinctWithin(x);
    } else {
      IdentifiersCollide(x, y);
      assert Identifiers(x)[a] in Identifiers(x);
      assert Identifiers(y)[b] in Identifiers(y);
    }
  }

  lemma NoSharedIdentifier(x: string, y: string)
    requires forall a, b :: 0 <= a < 3 && 0 <= b < 3 ==> Identifiers(x)[a] != Identifiers(y)[b]
    ensures !Collide(x, y)
  {
    IdentifiersCollide(x, y);
  }

  /** Two messages with the same short name make the file declare the same identifiers twice. */
  lemma SameNamesCollide(file: ProtoFile, qualify: Qualifier, i: nat, j: nat)
    requires IdentNames(file.messages)
    requires i < j < |file.messages| && file.messages[i].name == file.messages[j].name
    ensures !Distinct(Declarations(GenerateFile(file, qualify).lines))
  {
    FileIdentifiersDistinct(file, qualify);
  }

  // ---------------------------------------------------------------------------
  // Reset before release

  lemma {:induction false} BlocksResetBeforeRelease(messages: seq<Message>, render: GoIdent -> string)
    requires IdentNames(messages)
    ensures ResetBeforeRelease(Blocks(messages, render))
  {
    if messages != [] {
      BlockResetBeforeRelease(messages[0], render);
      BlocksResetBeforeRelease(messages[1..], render);
      ResetBeforeReleaseAppend(MessagePool(messages[0], render), Blocks(messages[1..], render));
    }
  }

  /**
    Every Put accessor of the file resets its argument before handing it back
    to the pool, and every message has such an accessor, opened at line 13 of
    its block.
   */
  lemma FileResetBeforeRelease(file: ProtoFile, qualify: Qualifier)
    requires IdentNames(file.messages)
    ensures ResetBeforeRelease(GenerateFile(file, qualify).lines)
    ensures forall i :: 0 <= i < |file.messages| ==>
      && IsPutHeader(GenerateFile(file, qualify).lines[HeaderLength + BlockLength * i + 13])
      && TakeIdent(GenerateFile(file, qualify).lines[HeaderLength + BlockLength * i + 13][8..])
        == file.messages[i].name
  {
    FileResetsInBlocks(file, qualify);
    FilePutHeaders(file, qualify);
  }

  lemma FileResetsInBlocks(file: ProtoFile, qualify: Qualifier)
    requires IdentNames(file.messages)
    ensures ResetBeforeRelease(GenerateFile(file, qualify).lines)
  {
    var header := ["package " + file.goPackageName, ""];
    var render := FileRender(qualify, file.goImportPath);
    NotAPutHeader(header[0]);
    NotAPutHeader(header[1]);
    assert ResetBeforeRelease(header);
    BlocksResetBeforeRelease(file.messages, render);
    ResetBeforeReleaseAppend(header, Blocks(file.messages, render));
  }

  /** Line 13 of every message's block opens that message's Put accessor. */
  lemma FilePutHeaders(file: ProtoFile, qualify: Qualifier)
    requires IdentNames(file.messages)
    ensures forall i :: 0 <= i < |file.messages| ==>
      && IsPutHeader(GenerateFile(file, qualify).lines[HeaderLength + BlockLength * i + 13])
      && TakeIdent(GenerateFile(file, qualify).lines[HeaderLength + BlockLength * i + 13][8..])
        == file.messages[i].name
  {
    var render := FileRender(qualify, file.goImportPath);
    FileLayout(file, qualify);
    forall i | 0 <= i < |file.messages|
      ensures && IsPutHeader(GenerateFile(file, qualify).lines[HeaderLength + BlockLength * i + 13])
        && TakeIdent(GenerateFile(file, qualify).lines[HeaderLength + BlockLength * i + 13][8..])
          == file.messages[i].name
    {
      BlockResetBeforeRelease(file.messages[i], render);
    }
  }

  // ---------------------------------------------------------------------------
  // Types and dependencies

  /**
    For every message, the pool's `New` factory allocates the message's
    rendered Go type; `GetN` takes its value from `NPool`, asserts it to that
    same type and returns a pointer to it, and closes right after; `PutN` takes
    a pointer to that type.
   */
  lemma FileTypesAgree(file: ProtoFile, qualify: Qualifier)
    requires IdentNames(file.messages)
    ensures forall i :: 0 <= i < |file.messages| ==>
      && GenerateFile(file, qualify).lines[HeaderLength + BlockLength * i + 2] == "New: func() interface{} {"
      && GenerateFile(file, qualify).lines[HeaderLength + BlockLength * i + 4] == "},"
      && GenerateFile(file, qualify).lines[HeaderLength + BlockLength * i + 5] == "}"
      && Find(GenerateFile(file, qualify).lines, "}", HeaderLength + BlockLength * i + 9)
        == HeaderLength + BlockLength * i + 10
    ensures forall i :: 0 <= i < |file.messages| ==>
      var lines := GenerateFile(file, qualify).lines;
      var typeText := qualify(file.goImportPath, file.messages[i].goIdent);
      && AllocatedType(lines[HeaderLength + BlockLength * i + 3]) == Some(typeText)
      && ResultType(lines[HeaderLength + BlockLength * i + 8]) == Some(typeText)
      && GetSource(lines[HeaderLength + BlockLength * i + 9]) == Some(file.messages[i].name + "Pool")
      && AssertedType(lines[HeaderLength + BlockLength * i + 9]) == Some(typeText)
      && ParamType(lines[HeaderLength + BlockLength * i + 13]) == Some(typeText)
  {
    var render := FileRender(qualify, file.goImportPath);
    FileLayout(file, qualify);
    forall i | 0 <= i < |file.messages|
      ensures var lines := GenerateFile(file, qualify).lines;
        var typeText := qualify(file.goImportPath, file.messages[i].goIdent);
        && AllocatedType(lines[HeaderLength + BlockLength * i + 3]) == Some(typeText)
        && ResultType(lines[HeaderLength + BlockLength * i + 8]) == Some(typeText)
        && GetSource(lines[HeaderLength + BlockLength * i + 9]) == Some(file.messages[i].name + "Pool")
        && AssertedType(lines[HeaderLength + BlockLength * i + 9]) == Some(typeText)
        && ParamType(lines[HeaderLength + BlockLength * i + 13]) == Some(typeText)
    {
      BlockTypesAgree(file.messages[i], render);
    }
    FileFactories(file, qualify);
  }

  /** Every block's factory lines, and the closing brace of its Get accessor. */
  lemma FileFactories(file: ProtoFile, qualify: Qualifier)
    requires IdentNames(file.messages)
    ensures forall i :: 0 <= i < |file.messages| ==>
      && GenerateFile(file, qualify).lines[HeaderLength + BlockLength * i + 2] == "New: func() interface{} {"
      && GenerateFile(file, qualify).lines[HeaderLength + BlockLength * i + 4] == "},"
      && GenerateFile(file, qualify).lines[HeaderLength + BlockLength * i + 5] == "}"
      && Find(GenerateFile(file, qualify).lines, "}", HeaderLength + BlockLength * i + 9)
        == HeaderLength + BlockLength * i + 10
  {
    var render := FileRender(qualify, file.goImportPath);
    var lines := GenerateFile(file, qualify).lines;
    FileLayout(file, qualify);
    forall i | 0 <= i < |file.messages|
      ensures && lines[HeaderLength + BlockLength * i + 2] == "New: func() interface{} {"
        && lines[HeaderLength + BlockLength * i + 4] == "},"
        && lines[HeaderLength + BlockLength * i + 5] == "}"
        && Find(lines, "}", HeaderLength + BlockLength * i + 9) == HeaderLength + BlockLength * i + 10
    {
      var block := MessagePool(file.messages[i], render);
      BlockFactory(file.messages[i], render);
      assert block[9] != "}" && block[10] == "}";
      FindNext(lines, "}", HeaderLength + BlockLength * i + 9);
    }
  }

  /** With the standard qualifier every pool variable is a `*sync.Pool`. */
  lemma FileUsesSyncPool(file: ProtoFile, qualify: Qualifier)
    requires RendersSyncPool(qualify, file.goImportPath)
    ensures forall i :: 0 <= i < |file.messages| ==>
      GenerateFile(file, qualify).lines[HeaderLength + BlockLength * i + 1]
        == "var " + file.messages[i].name + "Pool = &sync.Pool{"
  {
    FileLayout(file, qualify);
    forall i | 0 <= i < |file.messages|
      ensures GenerateFile(file, qualify).lines[HeaderLength + BlockLength * i + 1]
        == "var " + file.messages[i].name + "Pool = &sync.Pool{"
    {
      BlockUsesSyncPool(file.messages[i], FileRender(qualify, file.goImportPath));
    }
  }

  lemma {:induction false} BlocksDependOnlyOnTexts(
    ms1: seq<Message>, render1: GoIdent -> string, ms2: seq<Message>, render2: GoIdent -> string)
    requires |ms1| == |ms2|
    requires forall i :: 0 <= i < |ms1| ==> ms1[i].name == ms2[i].name
    requires forall i :: 0 <= i < |ms1| ==> render1(ms1[i].goIdent) == render2(ms2[i].goIdent)
    requires render1(PoolIdent) == render2(PoolIdent)
    ensures Blocks(ms1, render1) == Blocks(ms2, render2)
  {
    if ms1 != [] {
      BlockDependsOnlyOnTexts(ms1[0], render1, ms2[0], render2);
      BlocksDependOnlyOnTexts(ms1[1..], render1, ms2[1..], render2);
    }
  }

  /**
    The emitted lines depend only on the Go package name, the message short
    names and the rendered type texts: not on the file name, the import path
    as such, or any other part of the descriptors.
   */
  lemma FileDependsOnlyOnTexts(f1: ProtoFile, q1: Qualifier, f2: ProtoFile, q2: Qualifier)
    requires f1.goPackageName == f2.goPackageName
    requires |f1.messages| == |f2.messages|
    requires forall i :: 0 <= i < |f1.messages| ==> f1.messages[i].name == f2.messages[i].name
    requires forall i :: 0 <= i < |f1.messages| ==>
      q1(f1.goImportPath, f1.messages[i].goIdent) == q2(f2.goImportPath, f2.messages[i].goIdent)
    requires q1(f1.goImportPath, PoolIdent) == q2(f2.goImportPath, PoolIdent)
    ensures GenerateFile(f1, q1).lines == GenerateFile(f2, q2).lines
  {
    BlocksDependOnlyOnTexts(f1.messages, FileRender(q1, f1.goImportPath), f2.messages, FileRender(q2, f2.goImportPath));
  }
}
