/**
 * The configuration helpers of the installer: resolving a client's
 * configuration file, reading it fail-soft, merging a block of MCP server
 * entries into it, and normalising component file paths against a working
 * directory.
 *
 * The filesystem is a `FileSystem` object: a map from path to what reading
 * that path yields, and the set of existing directories.
 */
module Utils {
  import opened Wrappers
  import opened Json
  import NodePath

  /** A client identifier such as an editor or AI tool name. */
  type Client = string

  /** A client configuration: the top-level keys of a JSON object. */
  type Config = map<string, Value>

  /** The top-level key that holds the server map. */
  const McpServers: string := "mcpServers"

  /** The errors the helpers throw. */
  datatype Error =
    | InvalidClient(client: Client)   // "Invalid client: <client>"
    | InvalidMcpServers               // "Invalid mcpServers structure"
    | NullConfig                      // TypeError: the file holds `null` and `.mcpServers` is read from it

  /**
   * What a path holds, as `existsSync`, `readFileSync` and `JSON.parse` see it:
   * nothing, something that cannot be read or parsed, or a JSON value.
   */
  datatype FileState = Absent | Unparsable | Parsed(value: Value)

  /** `{ mcpServers: {} }`. */
  function EmptyConfig(): Config {
    map[McpServers := Obj(map[])]
  }

  /**
   * `getConfigPath`: the client's entry of the client table when it is there
   * and truthy (a non-empty string), otherwise an "Invalid client" error.
   */
  function GetConfigPath(clientPaths: map<Client, string>, client: Client): (r: Result<string, Error>)
    ensures r.Success? <==> client in clientPaths && clientPaths[client] != ""
    ensures r.Success? ==> r.value == clientPaths[client]
    ensures r.Failure? ==> r.error == InvalidClient(client)
  {
    if client in clientPaths && Truthy(Str(clientPaths[client])) then
      Success(clientPaths[client])
    else
      Failure(InvalidClient(client))
  }

  /**
   * `{ ...raw, mcpServers: raw.mcpServers || {} }`, the configuration
   * `readConfig` builds from a parsed file; `None` when `raw` is `null`, where
   * reading `raw.mcpServers` throws.
   */
  function ConfigOf(raw: Value): (r: Option<Config>)
    ensures r.None? <==> raw.Null?
    ensures r.Some? ==> McpServers in r.value && Truthy(r.value[McpServers])
    ensures r.Some? ==> r.value.Keys == Spread(raw).Keys + {McpServers}
    ensures r.Some? ==> forall k :: k in Spread(raw) && k != McpServers ==> r.value[k] == Spread(raw)[k]
    ensures r.Some? && raw.Obj? && McpServers in raw.fields && Truthy(raw.fields[McpServers]) ==>
              r.value[McpServers] == raw.fields[McpServers]
    ensures r.Some? && !(raw.Obj? && McpServers in raw.fields && Truthy(raw.fields[McpServers])) ==>
              r.value[McpServers] == Obj(map[])
  {
    if raw.Null? then None
    else
      var servers := Property(raw, McpServers);
      Some(Spread(raw)[McpServers := if servers.Some? && Truthy(servers.value) then servers.value else Obj(map[])])
  }

  /**
   * The guard of `writeConfig`: `config.mcpServers` is present, truthy and of
   * type "object". Arrays pass it.
   */
  function ValidServers(config: Config): (ok: bool)
    ensures ok <==> McpServers in config && (config[McpServers].Obj? || config[McpServers].Arr?)
  {
    McpServers in config && Truthy(config[McpServers]) && IsObjectType(config[McpServers])
  }

  /**
   * The configuration `writeConfig` merges into: the parsed file, or
   * `{ mcpServers: {} }` when the file is absent, unreadable or unparsable.
   */
  function ExistingConfig(st: FileState): Value {
    if st.Parsed? then st.value else Obj(EmptyConfig())
  }

  /** The server entries of the existing configuration, `{ ...existing.mcpServers }`. */
  function ExistingServers(existing: Value): map<string, Value> {
    SpreadOf(Property(existing, McpServers))
  }

  /** The incoming server entries, `{ ...config.mcpServers }`. */
  function IncomingServers(config: Config): map<string, Value> {
    SpreadOf(if McpServers in config then Some(config[McpServers]) else None)
  }

  /**
   * The merged configuration `writeConfig` writes:
   * `{ ...existing, mcpServers: { ...existing.mcpServers, ...config.mcpServers } }`.
   * It fails when `existing` is `null`, where reading `existing.mcpServers` throws.
   */
  function MergeConfig(existing: Value, config: Config): (r: Result<Config, Error>)
    ensures r.Failure? <==> existing.Null?
    ensures r.Failure? ==> r.error == NullConfig
    ensures r.Success? ==> McpServers in r.value && r.value[McpServers].Obj?
    // Every other existing top-level key is kept; no other incoming top-level key is written.
    ensures r.Success? ==> r.value.Keys == Spread(existing).Keys + {McpServers}
    ensures r.Success? ==> forall k :: k in Spread(existing) && k != McpServers ==> r.value[k] == Spread(existing)[k]
    // The server map is the union of both, and an incoming entry wins on a shared name.
    ensures r.Success? ==>
              r.value[McpServers].fields.Keys == ExistingServers(existing).Keys + IncomingServers(config).Keys
    ensures r.Success? ==> forall k :: k in IncomingServers(config) ==>
              r.value[McpServers].fields[k] == IncomingServers(config)[k]
    ensures r.Success? ==> forall k :: k in ExistingServers(existing) && k !in IncomingServers(config) ==>
              r.value[McpServers].fields[k] == ExistingServers(existing)[k]
  {
    if existing.Null? then Failure(NullConfig)
    else
      var servers := ExistingServers(existing) + IncomingServers(config);
      Success(Spread(existing)[McpServers := Obj(servers)])
  }

  /** Merging the same incoming configuration into the result of a merge changes nothing. */
  lemma MergeIdempotent(existing: Value, config: Config)
    requires MergeConfig(existing, config).Success?
    ensures MergeConfig(Obj(MergeConfig(existing, config).value), config) == MergeConfig(existing, config)
  {
    var m := MergeConfig(existing, config).value;
    var servers := m[McpServers].fields;
    assert ExistingServers(Obj(m)) == servers;
    assert servers + IncomingServers(config) == servers;
    assert m[McpServers := Obj(servers)] == m;
  }

  /**
   * When the file is absent or cannot be read or parsed, the merge starts from
   * an empty server map: the result holds only `mcpServers`, and that is the
   * incoming server map.
   */
  lemma MergeFromEmpty(st: FileState, config: Config)
    requires !st.Parsed?
    ensures MergeConfig(ExistingConfig(st), config) == Success(map[McpServers := Obj(IncomingServers(config))])
    ensures McpServers in config && config[McpServers].Obj? ==>
              MergeConfig(ExistingConfig(st), config) == Success(map[McpServers := config[McpServers]])
  {
    var existing := ExistingConfig(st);
    assert ExistingServers(existing) == map[];
    assert map[] + IncomingServers(config) == IncomingServers(config);
    assert Spread(existing)[McpServers := Obj(IncomingServers(config))] == map[McpServers := Obj(IncomingServers(config))];
  }

  /** Reading back a written configuration yields exactly what was written. */
  lemma ReadBackMerged(existing: Value, config: Config)
    requires MergeConfig(existing, config).Success?
    ensures ConfigOf(Obj(MergeConfig(existing, config).value)) == Some(MergeConfig(existing, config).value)
  {
    var m := MergeConfig(existing, config).value;
    assert Spread(Obj(m))[McpServers := m[McpServers]] == m;
  }

  /** The filesystem the helpers read and write. */
  class FileSystem {
    var files: map<string, FileState>
    var dirs: set<string>

    constructor (files: map<string, FileState>, dirs: set<string>)
      ensures this.files == files && this.dirs == dirs
    {
      this.files := files;
      this.dirs := dirs;
    }

    /** What reading `path` yields. */
    function FileAt(path: string): FileState
      reads this
    {
      if path in files then files[path] else Absent
    }

    /**
     * `readConfig`: fails only for an invalid client; otherwise returns a
     * configuration that always has a truthy `mcpServers`, `{ mcpServers: {} }`
     * when the file is absent or reading it throws, and the parsed contents
     * with `mcpServers` filled in otherwise.
     */
    method ReadConfig(clientPaths: map<Client, string>, client: Client) returns (r: Result<Config, Error>)
      ensures GetConfigPath(clientPaths, client).Failure? ==> r == Failure(InvalidClient(client))
      ensures GetConfigPath(clientPaths, client).Success? ==>
                r.Success? && McpServers in r.value && Truthy(r.value[McpServers])
      ensures GetConfigPath(clientPaths, client).Success? ==>
                var st := FileAt(GetConfigPath(clientPaths, client).value);
                && (st.Absent? || st.Unparsable? || st == Parsed(Null) ==> r == Success(EmptyConfig()))
                && (st.Parsed? && !st.value.Null? ==> ConfigOf(st.value) == Some(r.value))
    {
      var pathOrError := GetConfigPath(clientPaths, client);
      if pathOrError.Failure? {
        return Failure(pathOrError.error);
      }
      var path := pathOrError.value;
      if FileAt(path).Absent? {
        return Success(EmptyConfig());
      }
      match FileAt(path)
      case Unparsable =>
        // reading or parsing threw; the error is swallowed
        r := Success(EmptyConfig());
      case Parsed(raw) =>
        var config := ConfigOf(raw);
        if config.None? {
          // reading `mcpServers` of `null` threw; the error is swallowed
          r := Success(EmptyConfig());
        } else {
          r := Success(config.value);
        }
    }

    /**
     * `writeConfig`: resolves the path, creates its parent directory when it
     * is missing, rejects an invalid `mcpServers` block, and then overwrites
     * the file with the merge of the incoming block into the existing
     * contents. Nothing but that file and that directory changes.
     */
    method WriteConfig(clientPaths: map<Client, string>, client: Client, config: Config) returns (r: Outcome<Error>)
      modifies this
      ensures GetConfigPath(clientPaths, client).Failure? ==>
                r == Fail(InvalidClient(client)) && files == old(files) && dirs == old(dirs)
      ensures GetConfigPath(clientPaths, client).Success? ==>
                var path := GetConfigPath(clientPaths, client).value;
                && dirs == old(dirs) + {NodePath.Dirname(path)}
                && (forall p :: p != path ==> FileAt(p) == old(FileAt(p)))
                && (!ValidServers(config) ==> r == Fail(InvalidMcpServers) && files == old(files))
                && (ValidServers(config) ==>
                      var merged := MergeConfig(ExistingConfig(old(FileAt(path))), config);
                      && (merged.Failure? ==> r == Fail(merged.error) && files == old(files))
                      && (merged.Success? ==> r == Pass && files == old(files)[path := Parsed(Obj(merged.value))]))
    {
      var pathOrError := GetConfigPath(clientPaths, client);
      if pathOrError.Failure? {
        return Fail(pathOrError.error);
      }
      var path := pathOrError.value;
      var dir := NodePath.Dirname(path);
      if dir !in dirs {
        dirs := dirs + {dir};
      }
      if !ValidServers(config) {
        return Fail(InvalidMcpServers);
      }
      var existing := Obj(EmptyConfig());
      if FileAt(path).Parsed? {
        existing := FileAt(path).value;
      }
      var merged := MergeConfig(existing, config);
      if merged.Failure? {
        return Fail(merged.error);
      }
      files := files[path := Parsed(Obj(merged.value))];
      r := Pass;
    }
  }

  /**
   * Writing the same configuration a second time leaves the file as the first
   * write left it: the merge over the first write's result is that result.
   */
  lemma WriteConfigIdempotent(st: FileState, config: Config)
    requires MergeConfig(ExistingConfig(st), config).Success?
    ensures var first := MergeConfig(ExistingConfig(st), config).value;
            MergeConfig(ExistingConfig(Parsed(Obj(first))), config) == Success(first)
  {
    MergeIdempotent(ExistingConfig(st), config);
  }

  /** `filePath` without one leading `/`, if it has one. */
  function StripLeadingSlash(filePath: string): (s: string)
    ensures "/" <= filePath ==> filePath == "/" + s
    ensures !("/" <= filePath) ==> s == filePath
  {
    if "/" <= filePath then filePath[1..] else filePath
  }

  /**
   * `normalizePath`: the path with at most one leading `/` removed, kept as it
   * is when it already starts with the working directory and joined onto the
   * working directory otherwise. The result always starts with the working
   * directory and ends with the stripped path.
   */
  function NormalizePath(workingDir: string, filePath: string): (r: string)
    ensures workingDir <= r
    ensures |StripLeadingSlash(filePath)| <= |r| && StripLeadingSlash(filePath) == r[|r| - |StripLeadingSlash(filePath)|..]
    ensures r == StripLeadingSlash(filePath) <==> workingDir <= StripLeadingSlash(filePath)
    ensures r != StripLeadingSlash(filePath) ==> r == NodePath.Join(workingDir, StripLeadingSlash(filePath))
  {
    var formattedPath := StripLeadingSlash(filePath);
    if !(workingDir <= formattedPath) then NodePath.Join(workingDir, formattedPath) else formattedPath
  }

  /**
   * With a working directory that does not start with `/` and a path that
   * does not start with `//`, normalising a normalised path changes nothing.
   */
  lemma NormalizePathIdempotent(workingDir: string, filePath: string)
    requires !("/" <= workingDir) && !("//" <= filePath)
    ensures NormalizePath(workingDir, NormalizePath(workingDir, filePath)) == NormalizePath(workingDir, filePath)
  {
  }

  /**
   * With an absolute working directory, a path already under it is prefixed a
   * second time: the leading `/` is stripped before the prefix test. So
   * `NormalizePath("/repo", "/repo/a.ts")` is `"/repo/repo/a.ts"`.
   */
  lemma NormalizePathAbsoluteWorkingDir(workingDir: string, filePath: string)
    requires "/" <= workingDir && workingDir <= filePath && !("/" + workingDir <= filePath)
    ensures NormalizePath(workingDir, filePath) == NodePath.Join(workingDir, filePath[1..])
  {
    assert "/" <= filePath;
    assert filePath == "/" + filePath[1..];
  }
}
