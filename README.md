# MCP client configuration helpers, modelled in Dafny

This project models the configuration helpers of a small installer that
registers "MCP server" entries in the JSON configuration files of AI clients
(`src/utils.ts`):

- `getConfigPath` looks a client up in the client table and fails with
  "Invalid client" when the entry is missing or empty.
- `readConfig` never fails on a missing, unreadable or unparsable file: it
  returns `{ mcpServers: {} }` then, and otherwise the parsed object with
  `mcpServers` filled in (`{}` when it was falsy).
- `writeConfig` creates the file's parent directory if needed, rejects an
  incoming block whose `mcpServers` is missing or not an object, loads the
  existing file (empty on a failed read), shallow-merges the server maps
  (incoming entries win) and overwrites the file. Other top-level keys of the
  existing file are kept; other top-level keys of the incoming block are not
  written.
- `normalizePath` strips one leading `/` from a file path and prefixes the
  working directory unless the path already starts with it.

Files:

- `wrappers.dfy` — `Option`, `Result` and `Outcome`, for missing values and
  thrown errors.
- `json.dfy` — parsed JSON values and the JavaScript operations the code
  relies on: truthiness, `typeof … === "object"`, property access and object
  spread. Spreading an array copies its elements, and spreading a string its
  characters, under the keys `"0"`, `"1"`, …; `Indexed` proves that these keys are distinct and that each
  carries its element.
- `node_path.dfy` — `path.dirname` and `path.join` on simple `/`-separated
  paths.
- `utils.dfy` — the core. The pure parts (`GetConfigPath`, `ConfigOf`,
  `ValidServers`, `MergeConfig`, `NormalizePath`) are functions. The
  filesystem is a `FileSystem` object holding a map from path to
  `Absent | Unparsable | Parsed(value)` and a set of directories.
  `ReadConfig` reads it. `WriteConfig` updates one entry of the map and adds
  one directory.

The client table comes from a module that is not part of this model, so it
is a parameter `clientPaths: map<Client, string>`.

Behaviour of the code as written that the model keeps:

- The `typeof` guard of `writeConfig` lets an array through. Its elements
  are then merged as servers named `"0"`, `"1"`, ….
- A configuration file that holds the JSON literal `null` parses. `readConfig`
  then throws inside its `try` when it reads `mcpServers`, so it returns the
  empty configuration. `writeConfig` reads `existingConfig.mcpServers`
  outside its `try`, so it fails with a TypeError. That happens after the
  parent directory was created and before anything is written
  (`Error.NullConfig`).
- The directory is created before the `mcpServers` check. A rejected call can
  therefore still leave the parent directory behind.
- `normalizePath` tests the prefix on strings, not on path segments.
  With an absolute working directory it strips the leading `/` before that
  test, so a path already under that directory is prefixed a second time:
  `normalizePath("/repo", "/repo/a.ts")` is `"/repo/repo/a.ts"`
  (`NormalizePathAbsoluteWorkingDir`).
- With `path.join` taken as plain concatenation, `normalizePath` is
  idempotent when the working directory does not start with `/` and the path
  does not start with `//` (`NormalizePathIdempotent`). That holds only for
  paths without `.` and `..` segments. Node's join normalises those, so
  `normalizePath("./src", "a")` is `"src/a"` and a second call gives
  `"src/src/a"`.

## Model

| member | source | states |
|---|---|---|
| `Utils.GetConfigPath` | src/utils.ts:7-13 | succeeds exactly when the client has a non-empty entry in the client table, returns that entry, and otherwise fails with `InvalidClient(client)` |
| `Utils.ConfigOf` | src/utils.ts:22-30 | for a parsed value other than `null`: keeps every spread top-level key except `mcpServers`, adds nothing else, and sets `mcpServers` to the parsed value when present and truthy, else to `{}`, so `mcpServers` is always present and truthy; for `null` (where the property read throws and is caught) yields nothing |
| `Utils.FileSystem.ReadConfig` | src/utils.ts:15-31 | fails only with `InvalidClient` for an invalid client; otherwise always returns a config with a truthy `mcpServers`, exactly `{ mcpServers: {} }` when the file is absent, unreadable, unparsable or `null`, and the `ConfigOf` of the parsed value otherwise |
| `Utils.ValidServers` | src/utils.ts:41-43 | the incoming block passes the guard exactly when its `mcpServers` is present and is an object or an array |
| `Utils.MergeConfig` | src/utils.ts:54-60 | fails with `NullConfig` exactly when the existing config is `null`; otherwise the result's top-level keys are the existing ones plus `mcpServers`, each existing top-level key other than `mcpServers` keeps its value, no incoming top-level key other than `mcpServers` appears, the server map's keys are the union of existing and incoming server names, every incoming server maps to its incoming value, and every existing server not in the incoming block keeps its old value |
| `Utils.MergeIdempotent` | src/utils.ts:54-60 | merging the same incoming block into a merge result gives that result again |
| `Utils.MergeFromEmpty` | src/utils.ts:45-60 | when the file is absent or cannot be read or parsed, the merged config is exactly `{ mcpServers: <incoming servers> }`, and equals `{ mcpServers: config.mcpServers }` when that is an object |
| `Utils.ReadBackMerged` | src/utils.ts:54-62 | reading back what `writeConfig` wrote gives exactly the merged config |
| `Utils.FileSystem.WriteConfig` | src/utils.ts:33-63 | an invalid client changes nothing and fails with `InvalidClient`; otherwise the parent directory exists afterwards and no other directory is added, no file but the config file changes, an invalid `mcpServers` fails with `InvalidMcpServers` and leaves the files as they were, a `null` existing config fails with `NullConfig` and leaves the files as they were, and otherwise the config file holds the merge of the incoming block into the existing config (or into `{ mcpServers: {} }` when the file is absent, unreadable or unparsable) |
| `Utils.WriteConfigIdempotent` | src/utils.ts:45-62 | a second `writeConfig` with the same block over the file the first one wrote writes the same contents again |
| `Utils.StripLeadingSlash` | src/utils.ts:68-70 | removes exactly one leading `/` when there is one, and otherwise leaves the path as it is |
| `Utils.NormalizePath` | src/utils.ts:67-75 | the result starts with the working directory and ends with the stripped path; it is the stripped path exactly when that already starts with the working directory, and otherwise the working directory joined with the stripped path |
| `Utils.NormalizePathIdempotent` | src/utils.ts:67-75 | for a working directory not starting with `/` and a path not starting with `//`, normalising twice gives the same as normalising once |
| `Utils.NormalizePathAbsoluteWorkingDir` | src/utils.ts:68-72 | for a working directory starting with `/` and a path that starts with it but not with `/` followed by it, the result is the working directory joined with the path minus its leading `/`, so the directory is prefixed twice |
| `Json.Indexed` | src/utils.ts:58 | spreading an array (here an array `mcpServers`) gives each element under its decimal index key and no other key |
| `NodePath.Dirname` | src/utils.ts:35 | the result is taken at the last separator of the path: `.` when there is none, `/` when it is the first character, and otherwise the path up to that separator |

## Left out

- JSON parsing and `JSON.stringify`: a file's state is given directly as
  absent, unreadable or unparsable, or parsed to a value. A written file is
  modelled as parsing back to the merged object.
- Pretty-printing and key order. Objects are maps, so the order of keys in
  the written file is not modelled.
- JSON numbers are integers: floating point, `NaN` and `-0` are not modelled.
- `FileSystem.WriteConfig`: it does not model that `mkdirSync` with `recursive` also creates
  missing ancestors of the parent directory, because only the parent is
  tracked. It does not model `mkdirSync` or `writeFileSync` themselves
  throwing (permissions, a directory at the config path). It assumes that no
  path is both a key of `files` and a member of `dirs`. A file at the
  parent-directory path is not modelled: there `existsSync` skips
  `mkdirSync` and `writeFileSync` then throws.
- `NodePath.Dirname`: it does not model Node's handling of trailing and
  repeated separators, because the model works on simple paths only.
- `Utils.NormalizePath`: `path.join` is modelled as `a + "/" + b`. Node also
  collapses repeated separators, resolves `.` and `..` segments and skips an
  empty argument. That normalisation is not modelled, so for example
  `normalizePath("src", "/")` is `"src"` in Node but `"src/"` in the model.
- `Json.Chars`: one Dafny `char` stands for one UTF-16 code unit only for
  characters in the Basic Multilingual Plane. JavaScript spreads a string one
  code unit at a time, so a character outside that plane gives two keys there
  and one in the model. Such characters and lone surrogates are not modelled.
- `Json.Property`: models only keys that name no array index and no built-in
  property of strings and arrays. The code reads only `mcpServers`.
- The client table, the default server block and the list of valid clients
  are defined in `src/config.ts` and `src/types.ts`. Both are not part of
  this model. The client table is a parameter.
- The command-line front end, the spinner and colour output, the install
  orchestration and the restart prompt (`src/cli.ts`, `src/index.ts`,
  `src/client.ts`) are user interface and I/O. They are not part of this model.
- The component manifest, dependency-graph resolution and file pruning do
  not appear in the modelled sources. They are not part of this model.
