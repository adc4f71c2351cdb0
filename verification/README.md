# protoc-gen-gopool in Dafny

A model of `protoc-gen-gopool`, a protobuf compiler plugin. For every
top-level message of every schema file it is asked to generate, the plugin
writes Go code for a `sync.Pool` and two accessors. The model covers the program's
`main` and its `GenerateFile`/`generateMessagePool` emitters
(`cmd/protoc-gen-gopool/main.go`).

- `paths.dfy` (`Paths`): Go's `filepath.Base` on Unix paths. `main` uses it to
  print its own executable name for `--version`.
- `descriptors.dfy` (`Descriptors`): the part of protogen's data that the plugin
  reads: files, messages and Go identifiers. It also holds the generated
  file, the response, and the `QualifiedGoIdent` qualifier, which is a
  parameter.
- `template.dfy` (`PoolTemplate`): the 19-line block emitted for one message,
  one line per `g.P` call. It has three sections: the `NPool` variable, the
  `GetN` accessor and the `PutN` accessor.
- `emitter.dfy` (`Emitter`): one generated file per schema file. The file is
  named `<prefix>.pb.pool.go` and holds a `package` clause, a blank line, and
  one block per message, in message order.
- `plugin.dfy` (`Plugin`): the `--version` switch, the loop over the files
  marked for generation, and the copied generator capabilities.
- `goscan.dfy` (`GoScan`): a small reader for the emitted lines, independent
  of the emitter. It finds which identifier a `var`/`func` line declares, the
  first line equal to a given text, the type that a `return &T{}`,
  `return x.(*T)`, `func F() *T {` or `func F(m *T) {` line names, and the
  variable a `return P.Get()` line reads. The properties of the emitted code
  read the lines through it rather than through the emitter's sections. The texts
  they expect (`NPool`, `GetN`, `PutN`, `m.Reset()`, `NPool.Put(m)`,
  `var NPool = &sync.Pool{`, `New: func() interface{} {`) are written out in
  the contracts, apart from `PoolTemplate.IdentifiersCollide` and
  `PoolTemplate.IdentifiersDistinctWithin`, which are about the template's
  own three-name list.
- `wrappers.dfy` (`Wrappers`): `Option`.

The code ends every block, including the last, with its own blank line
(`main.go:62`, `69` and `78` each emit an empty line). The model therefore
gives a file with `n` messages exactly `2 + 19n` lines, and its last line is
blank.

## Model

| member | source | states |
|---|---|---|
| Paths.Base | cmd/protoc-gen-gopool/main.go:17 | The printed name is never empty. An empty path gives ".". A path of slashes only gives "/". Otherwise the result contains no slash and is the last element of the path, followed only by slashes. |
| Paths.BaseOfName | cmd/protoc-gen-gopool/main.go:17 | A bare program name without slashes is printed as it is. |
| Paths.BaseOfJoin | cmd/protoc-gen-gopool/main.go:17 | A program started as `dir/name` is reported as `name`, whatever `dir` is. |
| Plugin.VersionModeIgnoresRequest | cmd/protoc-gen-gopool/main.go:16-19 | When the argument vector asks for the version, the outcome is the same whatever the request, the baseline capabilities and the qualifier are. |
| Plugin.VersionLine | cmd/protoc-gen-gopool/main.go:16-19 | In version mode the printed line is `filepath.Base` of the program name, a space, `v0.0.1` and a newline, for every program name. An empty program name prints `. v0.0.1`. |
| Plugin.VersionOfBareName | cmd/protoc-gen-gopool/main.go:16-19 | `name --version` prints `name v0.0.1` and a newline. |
| Plugin.VersionOfInstalledBinary | cmd/protoc-gen-gopool/main.go:16-19 | `dir/name --version` prints only `name v0.0.1` and a newline. |
| Plugin.Main | cmd/protoc-gen-gopool/main.go:15-37 | Exactly one of four outcomes. The version line is printed exactly when the vector is the program name plus `--version`. Any other vector with an argument after the program name is refused, naming that argument. Without arguments, an unaccepted request fails and an accepted one gets a response. Exit status is 0 exactly for the version line and the response. |
| Plugin.ExtraArgumentRejected | cmd/protoc-gen-gopool/main.go:24-37 | `prog --help`, `prog --version x` and every other non-version vector with arguments end with the first argument refused and exit status 1. No request is read. |
| Plugin.UnacceptedRequestFails | cmd/protoc-gen-gopool/main.go:24-37 | Without arguments, a request protogen cannot accept ends with exit status 1 and no response. |
| Plugin.GenerationOtherwise | cmd/protoc-gen-gopool/main.go:24-37 | Without arguments and with an accepted request, the plugin answers with `Run`'s response, one file per marked input, and exit status 0. |
| Plugin.Run | cmd/protoc-gen-gopool/main.go:27-37 | The response holds one file per input marked for generation: the files the plugin creates, before protogen's own `Response` step. Its capabilities are the baseline generator's, unchanged. |
| Plugin.GenerateAll | cmd/protoc-gen-gopool/main.go:28-32 | The number of files the plugin creates equals the number of inputs marked for generation. |
| Plugin.FlaggedInputsEmitted | cmd/protoc-gen-gopool/main.go:28-32 | A marked input at position `i` yields the output at position "number of marked inputs before `i`". That output is `GenerateFile` of that input. |
| Plugin.OutputsHaveSources | cmd/protoc-gen-gopool/main.go:28-32 | Every output position `k` is produced by the `k`-th marked input. |
| Plugin.OneOutputPerFlaggedFile | cmd/protoc-gen-gopool/main.go:28-32 | Outputs correspond one-to-one and in order to the inputs marked for generation. Unmarked inputs yield nothing. |
| Plugin.OutputsArePoolFiles | cmd/protoc-gen-gopool/main.go:28-41 | Every emitted file name is some prefix followed by `.pb.pool.go`. |
| Emitter.OutputFilename | cmd/protoc-gen-gopool/main.go:41 | The output name is the generated-filename prefix followed by `.pb.pool.go`. `OutputFilenameRoundTrip` shows the prefix can be recovered from it. |
| Emitter.OutputFilenameRoundTrip | cmd/protoc-gen-gopool/main.go:41 | The output file name gives back the generated-filename prefix it was built from. |
| Emitter.OutputFilenameInjective | cmd/protoc-gen-gopool/main.go:41 | Different prefixes never produce the same output file name. |
| Emitter.GenerateFile | cmd/protoc-gen-gopool/main.go:40-51 | The output is named after the prefix and keeps the file's import path. It has 2 + 19n lines. It starts with `package <name>` and a blank line. |
| Emitter.Blocks | cmd/protoc-gen-gopool/main.go:47-50 | The message blocks together have 19 lines per message. `BlocksLayout` places line `k` of message `i`'s block at position `19i + k`. |
| Emitter.BlocksLayout | cmd/protoc-gen-gopool/main.go:47-50 | Line `19i + k` of the concatenated blocks is line `k` of message `i`'s block, in message order. |
| Emitter.FileLayout | cmd/protoc-gen-gopool/main.go:44-50 | The block of message `i` sits at lines `2 + 19i` to `2 + 19i + 18`, in message order. |
| Emitter.FileDeclarations | cmd/protoc-gen-gopool/main.go:47-79 | The file declares exactly `NPool`, `GetN`, `PutN` for each message `N`, in message order, and nothing else. |
| Emitter.FileIdentifiersDistinct | cmd/protoc-gen-gopool/main.go:53-79 | The file declares no identifier twice if and only if no two messages have equal names or crossed names such as `GetFoo` and `FooPool`. |
| Emitter.SameNamesCollide | cmd/protoc-gen-gopool/main.go:54-76 | Two messages with the same short name make the file declare an identifier twice. protoc rejects duplicate top-level names, so a valid schema cannot produce this case. Within the pool file, the collision a valid schema can produce is crossed names, covered by `FileIdentifiersDistinct`. |
| Emitter.FileResetBeforeRelease | cmd/protoc-gen-gopool/main.go:47-78 | Every message `N` has a `PutN` accessor: line `2 + 19i + 13` opens `func PutN`. In every `PutN` accessor of the file, the first `m.Reset()` comes before the first `NPool.Put(m)`, and both come before the accessor's closing brace. |
| Emitter.FileTypesAgree | cmd/protoc-gen-gopool/main.go:47-73 | For each message, lines `2 + 19i + 2` to `+ 5` are the pool's `New: func() interface{} {` factory, and its body allocates the message's qualified Go type `T`. `GetN` is declared to return `*T`, takes its value from `NPool.Get()` and asserts it to `*T`, and its body closes on the next line. `PutN` takes an `m *T`. |
| Emitter.FileUsesSyncPool | cmd/protoc-gen-gopool/main.go:13 | When the qualifier writes `sync.Pool`, every pool variable line is `var NPool = &sync.Pool{`. |
| Emitter.FileDependsOnlyOnTexts | cmd/protoc-gen-gopool/main.go:40-79 | The emitted lines depend only on the package name, the message short names and the qualified type texts. |
| PoolTemplate.MessagePool | cmd/protoc-gen-gopool/main.go:53-79 | One message contributes 19 lines, one per `g.P` call. |
| PoolTemplate.BlockDeclarations | cmd/protoc-gen-gopool/main.go:53-79 | A block declares `NPool`, `GetN` and `PutN`, in that order, and nothing else. |
| PoolTemplate.IdentifiersDistinctWithin | cmd/protoc-gen-gopool/main.go:57-73 | The three identifiers of one message are pairwise different, for every name. |
| PoolTemplate.IdentifiersCollide | cmd/protoc-gen-gopool/main.go:57-73 | Two messages share a declared identifier if and only if their names are equal or crossed. |
| PoolTemplate.BlockResetBeforeRelease | cmd/protoc-gen-gopool/main.go:72-78 | Block line 13 opens the accessor `func PutN`, named after the message. Every Put accessor in the block resets its argument before returning it to the pool, inside its own body. |
| PoolTemplate.BlockTypesAgree | cmd/protoc-gen-gopool/main.go:58-73 | Lines 2 to 5 are the pool's `New` factory. The factory's `return &T{}`, the Get accessor's result `*T` and its `.(*T)`, and the Put accessor's `m *T` all name the same rendered type `T`. The Get accessor reads from the message's own pool `NPool`, and its body closes right after that line. |
| PoolTemplate.BlockDependsOnlyOnTexts | cmd/protoc-gen-gopool/main.go:53-79 | A block is determined by the message's short name, its rendered type and the rendered pool type. |

## Left out

- protogen's `Options.Run` is not part of this model. It reads the request from standard input, writes the response, and exits. The model keeps its outcomes:
  - an argument after the program name is refused with exit status 1 (`Rejected`);
  - any request `Options.New` rejects ends with exit status 1 (`Failed`, for a `None` request). Examples are undecodable input, a plugin parameter the flag set refuses, and a file whose Go import path cannot be determined;
  - otherwise protogen writes the response built from the files the callback created (see the next line).

  protogen also exits with status 1 when it cannot marshal or write the response. That failure is not modelled: `Responded` always has exit status 0. The text of the error messages on standard error is not modelled either; `Rejected` names only the refused argument. The plugin's own callback never returns an error.
- Plugin.GenerationOtherwise: the model's files are the ones the plugin creates, before protogen's `Response` step turns them into the written response. Two standard protogen parameters change that step and are not modelled. With `module=<m>`, every file name loses its `<m>/` prefix, and a name without that prefix turns the response into a single error with no files, still with exit status 0. With `annotate_code`, a `<name>.meta` file follows each output. protogen is not part of this model.
- Clashes with the baseline generator's declarations: the pool file shares its Go package with protoc-gen-go's output, so messages `Foo` and `GetFoo` (or `Foo` and `FooPool`) declare the same identifier twice in that package. The model checks declarations within the pool file only.
- The plugin parameter `experimental_strip_nonfunctional_codegen` and the flag set that parses it: the emitters never read the flag.
- The numeric values of `gengo.SupportedFeatures` and the edition range: they belong to another package. They are an opaque `Capabilities` value that the model shows is copied unchanged.
- `QualifiedGoIdent` and import bookkeeping: this is a parameter (`Qualifier`). So are the `import` block that protogen inserts and the `gofmt` reformatting applied when the file is written. The model's lines are the text before reformatting.
- Nested messages: protogen's `File.Messages` lists only the top-level message declarations, and `main.go:47` never visits a message's nested messages. Nested messages therefore get no pool, in the program and in the model.
- `filepath.Base` on Windows, where `\` and volume names also count as separators: only Unix paths are modelled.
- The runtime behaviour of `sync.Pool` and of the generated code: the model states what the emitted text says, not what it does when run.
- The test programs (`main_test.go`, `integration_test.go`, `example_test.go`): they only drive the binary.
