/**
  The plugin entry point (`main`): the `--version` switch, and otherwise
  protogen's run, which refuses any command-line argument, fails on a request
  it cannot accept, and otherwise calls back into the plugin. The callback
  emits a pool file for every file marked for generation and copies the
  baseline generator's capabilities into the response.
 */
module Plugin {
  import opened Wrappers
  import opened Descriptors
  import opened Paths
  import opened Emitter

  const VersionFlag := "--version"
  const Version := "v0.0.1"

  /**
    How one invocation ends: the version line on standard output; protogen's
    refusal of a command-line argument (named here; the message goes to
    standard error); protogen's failure on a request it cannot accept; or the
    response written back to the compiler.
   */
  datatype Outcome =
    | PrintedVersion(stdout: string)
    | Rejected(argument: string)
    | Failed
    | Responded(response: Response)

  /** The process exit status of each outcome. */
  function ExitStatus(o: Outcome): nat {
    match o
    case PrintedVersion(_) => 0
    case Responded(_) => 0
    case Rejected(_) => 1
    case Failed => 1
  }

  /** The argument vector is the program name followed by the version flag and nothing else. */
  predicate VersionRequested(args: seq<string>) {
    |args| == 2 && args[1] == VersionFlag
  }

  /** How many of `files` are marked for generation. */
  function FlaggedCount(files: seq<ProtoFile>): nat {
    if files == [] then 0
    else (if files[0].generate then 1 else 0) + FlaggedCount(files[1..])
  }

  /** The plugin's loop over the request's files: one generated file per file marked for generation. */
  function GenerateAll(files: seq<ProtoFile>, qualify: Qualifier): (out: seq<GeneratedFile>)
    ensures |out| == FlaggedCount(files)
  {
    if files == [] then []
    else
      (if files[0].generate then [GenerateFile(files[0], qualify)] else [])
      + GenerateAll(files[1..], qualify)
  }

  /** The callback handed to protogen: generate, then copy the baseline capabilities. */
  function Run(files: seq<ProtoFile>, baseline: Capabilities, qualify: Qualifier): (r: Response)
    ensures |r.files| == FlaggedCount(files)
    ensures r.capabilities == baseline
  {
    Response(GenerateAll(files, qualify), baseline)
  }

  /**
    One invocation of the plugin. `request` is the request as protogen
    accepts it, or `None` for any request protogen's `Options.New` rejects:
    undecodable input, a plugin parameter the flag set refuses, a file whose
    Go import path cannot be determined, and the like. A `Responded` outcome
    is the response as built; protogen's failure to marshal or write it is
    not modelled.
   */
  function Main(args: seq<string>, request: Option<seq<ProtoFile>>, baseline: Capabilities, qualify: Qualifier): (r: Outcome)
    ensures r.PrintedVersion? <==> VersionRequested(args)
    ensures r.Rejected? <==> |args| > 1 && !VersionRequested(args)
    ensures r.Rejected? ==> r.argument == args[1]
    ensures r.Failed? <==> |args| <= 1 && request == None
    ensures r.Responded? <==> |args| <= 1 && request.Some?
    ensures ExitStatus(r) == 0 <==> r.PrintedVersion? || r.Responded?
  {
    if VersionRequested(args) then PrintedVersion(Base(args[0]) + " " + Version + "\n")
    else if |args| > 1 then Rejected(args[1])
    else match request
      case None => Failed
      case Some(files) => Responded(Run(files, baseline, qualify))
  }

  // ---------------------------------------------------------------------------
  // Version mode

  /**
    Version mode is chosen by the argument vector alone: the request, the
    baseline capabilities and the qualifier play no part in what is printed.
   */
  lemma VersionModeIgnoresRequest(
    args: seq<string>,
    request1: Option<seq<ProtoFile>>, baseline1: Capabilities, qualify1: Qualifier,
    request2: Option<seq<ProtoFile>>, baseline2: Capabilities, qualify2: Qualifier)
    ensures VersionRequested(args) ==> Main(args, request1, baseline1, qualify1) == Main(args, request2, baseline2, qualify2)
  {
  }

  /**
    In version mode the printed line is the base name of `args[0]`, a space,
    `v0.0.1` and a newline, whatever `args[0]` is; an empty program name
    prints `. v0.0.1`.
   */
  lemma VersionLine(args: seq<string>, request: Option<seq<ProtoFile>>, baseline: Capabilities, qualify: Qualifier)
    requires VersionRequested(args)
    ensures Main(args, request, baseline, qualify) == PrintedVersion(Base(args[0]) + " v0.0.1\n")
    ensures args[0] == "" ==> Main(args, request, baseline, qualify) == PrintedVersion(". v0.0.1\n")
  {
    var b := Base(args[0]);
    assert b + " " + Version + "\n" == b + (" " + Version + "\n");
    assert " " + Version + "\n" == " v0.0.1\n";
  }

  /**
    Invoked by a bare program name with `--version` (for the installed plugin,
    `protoc-gen-gopool --version`), the plugin prints that name, a space, the
    version `v0.0.1` and a newline, and exits with status 0.
   */
  lemma VersionOfBareName(name: string, request: Option<seq<ProtoFile>>, baseline: Capabilities, qualify: Qualifier)
    requires name != "" && NoSlash(name)
    ensures Main([name, VersionFlag], request, baseline, qualify)
      == PrintedVersion(name + " " + Version + "\n")
  {
    BaseOfName(name);
  }

  /**
    Started through any directory path, the plugin prints only the executable's
    own file name before the version.
   */
  lemma VersionOfInstalledBinary(dir: string, name: string, request: Option<seq<ProtoFile>>, baseline: Capabilities, qualify: Qualifier)
    requires name != "" && NoSlash(name)
    ensures Main([dir + "/" + name, VersionFlag], request, baseline, qualify)
      == PrintedVersion(name + " " + Version + "\n")
  {
    BaseOfJoin(dir, name);
  }

  // ---------------------------------------------------------------------------
  // Everything else goes through protogen

  /**
    Any other vector with an argument after the program name (`--help`,
    `--version x`, a stray file name) is refused before the request is read:
    the first such argument is reported and the exit status is 1.
   */
  lemma ExtraArgumentRejected(args: seq<string>, request: Option<seq<ProtoFile>>, baseline: Capabilities, qualify: Qualifier)
    requires |args| > 1 && !VersionRequested(args)
    ensures Main(args, request, baseline, qualify) == Rejected(args[1])
    ensures ExitStatus(Main(args, request, baseline, qualify)) == 1
  {
  }

  /** Run without arguments, a request protogen cannot accept ends with exit status 1 and no response. */
  lemma UnacceptedRequestFails(args: seq<string>, baseline: Capabilities, qualify: Qualifier)
    requires |args| <= 1
    ensures Main(args, None, baseline, qualify) == Failed
    ensures ExitStatus(Main(args, None, baseline, qualify)) == 1
  {
  }

  /** Run without arguments on an accepted request, the plugin answers with the generator's response. */
  lemma GenerationOtherwise(args: seq<string>, files: seq<ProtoFile>, baseline: Capabilities, qualify: Qualifier)
    requires |args| <= 1
    ensures Main(args, Some(files), baseline, qualify) == Responded(Run(files, baseline, qualify))
    ensures |Main(args, Some(files), baseline, qualify).response.files| == FlaggedCount(files)
    ensures ExitStatus(Main(args, Some(files), baseline, qualify)) == 0
  {
  }

  // ---------------------------------------------------------------------------
  // Which files are emitted

  /** Input `i` is marked for generation and is the `k`-th such input. */
  ghost predicate SourceAt(files: seq<ProtoFile>, k: int, i: int) {
    0 <= i < |files| && files[i].generate && FlaggedCount(files[..i]) == k
  }

  /** Some input is the `k`-th one marked for generation. */
  ghost predicate HasSource(files: seq<ProtoFile>, k: int) {
    exists i :: SourceAt(files, k, i)
  }

  /** Counting the marked files before input `i` splits into the first input and the rest. */
  lemma FlaggedCountShift(files: seq<ProtoFile>, i: nat)
    requires 1 <= i <= |files|
    ensures FlaggedCount(files[..i]) == (if files[0].generate then 1 else 0) + FlaggedCount(files[1..][..i - 1])
  {
    assert files[..i][1..] == files[1..][..i - 1];
  }

  /** Every marked input `i` yields output number `FlaggedCount(files[..i])`. */
  lemma {:induction false} FlaggedInputsEmitted(files: seq<ProtoFile>, qualify: Qualifier)
    ensures forall i :: 0 <= i < |files| && files[i].generate ==>
      FlaggedCount(files[..i]) < |GenerateAll(files, qualify)|
      && GenerateAll(files, qualify)[FlaggedCount(files[..i])] == GenerateFile(files[i], qualify)
  {
    if files != [] {
      var rest := files[1..];
      FlaggedInputsEmitted(rest, qualify);
      var out := GenerateAll(files, qualify);
      assert out == (if files[0].generate then [GenerateFile(files[0], qualify)] else []) + GenerateAll(rest, qualify);
      assert files[..0] == [];
      forall i | 0 <= i < |files| && files[i].generate
        ensures FlaggedCount(files[..i]) < |out|
        ensures out[FlaggedCount(files[..i])] == GenerateFile(files[i], qualify)
      {
        if i > 0 {
          FlaggedCountShift(files, i);
          assert rest[i - 1] == files[i];
        }
      }
    }
  }

  /** Every output comes from some marked input. */
  lemma {:induction false} OutputsHaveSources(files: seq<ProtoFile>, qualify: Qualifier)
    ensures forall k :: 0 <= k < |GenerateAll(files, qualify)| ==> HasSource(files, k)
  {
    if files != [] {
      var rest := files[1..];
      var g0: nat := if files[0].generate then 1 else 0;
      OutputsHaveSources(rest, qualify);
      forall k | 0 <= k < |GenerateAll(files, qualify)|
        ensures HasSource(files, k)
      {
        if k < g0 {
          assert files[..0] == [];
          assert SourceAt(files, k, 0);
        } else {
          assert HasSource(rest, k - g0);
          var i' :| SourceAt(rest, k - g0, i');
          FlaggedCountShift(files, i' + 1);
          assert files[i' + 1] == rest[i'];
          assert SourceAt(files, k, i' + 1);
        }
      }
    }
  }

  /**
    Output `k` is the file generated from the `k`-th input marked for
    generation (counting from zero), so the outputs follow the input order,
    every marked input yields exactly one output and unmarked inputs yield none.
   */
  lemma OneOutputPerFlaggedFile(files: seq<ProtoFile>, qualify: Qualifier)
    ensures forall i :: 0 <= i < |files| && files[i].generate ==>
      FlaggedCount(files[..i]) < |GenerateAll(files, qualify)|
      && GenerateAll(files, qualify)[FlaggedCount(files[..i])] == GenerateFile(files[i], qualify)
    ensures forall k :: 0 <= k < |GenerateAll(files, qualify)| ==> HasSource(files, k)
  {
    FlaggedInputsEmitted(files, qualify);
    OutputsHaveSources(files, qualify);
  }

  /** Every emitted file is named after its input's prefix with the `.pb.pool.go` suffix. */
  lemma OutputsArePoolFiles(files: seq<ProtoFile>, qualify: Qualifier)
    ensures forall k :: 0 <= k < |GenerateAll(files, qualify)| ==>
      PrefixOf(GenerateAll(files, qualify)[k].filename).Some?
  {
    OneOutputPerFlaggedFile(files, qualify);
    forall k | 0 <= k < |GenerateAll(files, qualify)|
      ensures PrefixOf(GenerateAll(files, qualify)[k].filename).Some?
    {
      assert HasSource(files, k);
      var i :| SourceAt(files, k, i);
      OutputFilenameRoundTrip(files[i].generatedFilenamePrefix);
    }
  }
}
