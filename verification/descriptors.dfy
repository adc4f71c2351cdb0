/**
  The plugin's input and output model: the parts of protogen's `File`,
  `Message` and `GoIdent` that the emitter reads, the generated file it
  hands back, and the response the plugin returns to the compiler.
 */
module Descriptors {

  /** A Go identifier together with the import path of the package declaring it. */
  datatype GoIdent = GoIdent(goName: string, goImportPath: string)

  /** A message of a schema file: its declared short name and the Go type generated for it. */
  datatype Message = Message(name: string, goIdent: GoIdent)

  /**
    One file of the code-generation request, after protogen has resolved it.
    `messages` holds the file's top-level message declarations only, in
    declaration order: messages nested inside them are not listed here.
   */
  datatype ProtoFile = ProtoFile(
    generate: bool,
    generatedFilenamePrefix: string,
    goImportPath: string,
    goPackageName: string,
    messages: seq<Message>)

  /** A generated file: its name, the import path it belongs to, and its source lines. */
  datatype GeneratedFile = GeneratedFile(filename: string, goImportPath: string, lines: seq<string>)

  /** Feature bitmask and supported edition range, copied from the baseline Go generator. */
  datatype Capabilities = Capabilities(supportedFeatures: nat, editionsMinimum: int, editionsMaximum: int)

  datatype Response = Response(files: seq<GeneratedFile>, capabilities: Capabilities)

  /**
    protogen's `QualifiedGoIdent`: how an identifier is written inside a file
    of the given import path (bare when local, package-qualified otherwise).
    Import bookkeeping is not modelled, so this is a parameter.
   */
  type Qualifier = (string, GoIdent) -> string

  /** `sync.Pool`, the pool type every generated pool variable points at. */
  const PoolIdent := GoIdent("Pool", "sync")

  /** The qualifier the standard library import resolves to: it writes `sync.Pool` for the pool type. */
  predicate RendersSyncPool(qualify: Qualifier, importPath: string) {
    qualify(importPath, PoolIdent) == "sync.Pool"
  }

  /** Characters of a protobuf identifier. */
  predicate IsIdentChar(c: char) {
    ('a' <= c <= 'z') || ('A' <= c <= 'Z') || ('0' <= c <= '9') || c == '_'
  }

  predicate IsIdentText(s: string) {
    forall i :: 0 <= i < |s| ==> IsIdentChar(s[i])
  }

  /** Every message short name of the list is identifier text, as the schema compiler guarantees. */
  predicate IdentNames(messages: seq<Message>) {
    forall i :: 0 <= i < |messages| ==> IsIdentText(messages[i].name)
  }
}
