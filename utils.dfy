// The string-level helpers of pkg/backy/utils.go: home-directory expansion,
// external directives (%{env:…}%, %{file:…}%, %{vault:…}%), vault keys and
// the environment lists handed to local processes and remote shells.
module Utils {
  import opened Wrappers
  import opened Strs
  import opened Platform

  // ---------------------------------------------------------------- paths

  /** The path getFullPathWithHomeDir returns, and whether it returned no error. */
  datatype Expanded = Expanded(path: string, ok: bool)

  /** A trimmed path that getFullPathWithHomeDir rewrites. */
  predicate HomeRelative(t: string)
  {
    t == "~" || HasPrefix(t, "~/")
  }

  /** getFullPathWithHomeDir */
  function FullPath(path: string, os: Os): (r: Expanded)
    ensures !HomeRelative(TrimSpace(path)) ==> r == Expanded(TrimSpace(path), true)
    ensures HomeRelative(TrimSpace(path)) && os.home.None? ==> r == Expanded(TrimSpace(path), false)
    ensures TrimSpace(path) == "~" && os.home.Some? ==> r == Expanded(os.home.value, true)
    ensures HasPrefix(TrimSpace(path), "~/") && os.home.Some? ==>
              r == Expanded(os.join(os.home.value, TrimSpace(path)[2..]), true)
    ensures !r.ok ==> os.home.None?
  {
    var t := TrimSpace(path);
    if t == "~" then
      if os.home.Some? then Expanded(os.home.value, true) else Expanded(t, false)
    else if HasPrefix(t, "~/") then
      if os.home.Some? then Expanded(os.join(os.home.value, t[2..]), true) else Expanded(t, false)
    else Expanded(t, true)
  }

  /** A "~" inside a path is not expanded: only a leading "~" or "~/" is. */
  lemma InteriorTildeKept(os: Os)
    ensures FullPath("/a/~/b", os) == Expanded("/a/~/b", true)
    ensures FullPath("~user/x", os) == Expanded("~user/x", true)
  {
    var a, b := "/a/~/b", "~user/x";
    assert a[0] == '/' && a[|a| - 1] == 'b' && |a| > 1;
    assert b[0] == '~' && b[|b| - 1] == 'x' && b[..2] != "~/" by { assert b[1] == 'u'; }
    NotHomeRelativeKept(a, os);
    NotHomeRelativeKept(b, os);
  }

  lemma NotHomeRelativeKept(t: string, os: Os)
    requires |t| > 0 && !IsSpace(t[0]) && !IsSpace(t[|t| - 1]) && !HomeRelative(t)
    ensures FullPath(t, os) == Expanded(t, true)
  {
    TrimSpaceOfUnspaced(t);
  }

  /** Expanding a path already trimmed gives the same answer. */
  lemma FullPathOfTrimmed(path: string, os: Os)
    ensures FullPath(TrimSpace(path), os) == FullPath(path, os)
  {
    var t := TrimSpace(path);
    TrimSpaceOfUnspaced(t);
  }

  // ----------------------------------------------------------- directives

  /** Delimiters of external directives (pkg/backy/config.go). */
  const DirectiveStart := "%{"
  const DirectiveEnd := "}%"
  const EnvDirectiveStart := "%{env:"
  const VaultDirectiveStart := "%{vault:"
  /** The file directive prefix is not among the shown constants; this model uses "%{file:". */
  const FileDirectiveStart := "%{file:"

  /** The directive kinds an AllowedExternalDirectives value may admit. */
  datatype Directive = EnvDirective | FileDirective | VaultDirective

  const AllowedVault: set<Directive> := {VaultDirective}
  const AllowedVaultEnv: set<Directive> := {VaultDirective, EnvDirective}
  const AllowedVaultFile: set<Directive> := {VaultDirective, FileDirective}

  /** A vault key entry of the configuration. */
  datatype VaultKey = VaultKey(name: string, path: string, key: string, valueType: string, mountPath: string)

  /**
   * Everything getExternalConfigDirectiveValue consults: replaceVarInString
   * with the configured variables, the process, the configuration
   * directory, the vault keys and the vault client's KV read
   * (version 1 or 2, mount path, secret path) giving the secret data.
   */
  datatype Resolver = Resolver(
    replaceVars: string -> string,
    os: Os,
    configDir: string,
    vaultKeys: seq<VaultKey>,
    kvGet: (nat, string, string) -> Result<map<string, string>>)

  predicate Enclosed(key: string)
  {
    HasPrefix(key, DirectiveStart) && HasSuffix(key, DirectiveEnd)
  }

  /** The env step: "%{env:NAME}%" becomes the value of NAME when admitted. */
  function EnvStep(k: string, allowed: set<Directive>, os: Os): (r: string)
    ensures HasPrefix(k, EnvDirectiveStart) && EnvDirective in allowed ==>
              r == os.getenv(TrimSuffix(k[|EnvDirectiveStart|..], DirectiveEnd))
    ensures !(HasPrefix(k, EnvDirectiveStart) && EnvDirective in allowed) ==> r == k
  {
    if HasPrefix(k, EnvDirectiveStart) && EnvDirective in allowed
    then os.getenv(TrimSuffix(k[|EnvDirectiveStart|..], DirectiveEnd))
    else k
  }

  /** The file a file directive names: home-expanded, and relative to the configuration directory. */
  function DirectiveFile(name: string, rs: Resolver): (r: Option<string>)
    ensures r.None? <==> !FullPath(name, rs.os).ok
    ensures r.Some? && IsAbs(FullPath(name, rs.os).path) ==> r.value == FullPath(name, rs.os).path
  {
    var p := FullPath(name, rs.os);
    if !p.ok then None
    else if IsAbs(p.path) then Some(p.path)
    else Some(rs.os.join(rs.configDir, p.path))
  }

  /** The file step; None is the early return of "" on a failed expansion or read. */
  function FileStep(k: string, allowed: set<Directive>, rs: Resolver): (r: Option<string>)
    ensures !(HasPrefix(k, FileDirectiveStart) && FileDirective in allowed) ==> r == Some(k)
    ensures HasPrefix(k, FileDirectiveStart) && FileDirective in allowed ==>
              var f := DirectiveFile(TrimSuffix(k[|FileDirectiveStart|..], DirectiveEnd), rs);
              r == if f.None? then None else rs.os.readFile(f.value)
  {
    if HasPrefix(k, FileDirectiveStart) && FileDirective in allowed then
      var f := DirectiveFile(TrimSuffix(k[|FileDirectiveStart|..], DirectiveEnd), rs);
      if f.None? then None else rs.os.readFile(f.value)
    else Some(k)
  }

  /** The vault step: "%{vault:NAME}%" becomes the secret of key NAME when admitted. */
  function VaultStep(k: string, allowed: set<Directive>, rs: Resolver): (r: string)
    ensures HasPrefix(k, VaultDirectiveStart) && VaultDirective in allowed ==>
              r == GetVaultKey(TrimSuffix(k[|VaultDirectiveStart|..], DirectiveEnd), rs.vaultKeys, rs.kvGet)
    ensures !(HasPrefix(k, VaultDirectiveStart) && VaultDirective in allowed) ==> r == k
  {
    if HasPrefix(k, VaultDirectiveStart) && VaultDirective in allowed
    then GetVaultKey(TrimSuffix(k[|VaultDirectiveStart|..], DirectiveEnd), rs.vaultKeys, rs.kvGet)
    else k
  }

  /**
   * getExternalConfigDirectiveValue: a value enclosed in "%{" … "}%" has its
   * variables replaced and then goes through the env, file and vault steps
   * one after the other, each on the previous step's output.
   */
  function DirectiveValue(key: string, allowed: set<Directive>, rs: Resolver): (r: string)
    ensures !Enclosed(key) ==> r == key
    ensures Enclosed(key) ==>
              var k1 := EnvStep(rs.replaceVars(key), allowed, rs.os);
              r == match FileStep(k1, allowed, rs)
                   case None => ""
                   case Some(k2) => VaultStep(k2, allowed, rs)
  {
    if !Enclosed(key) then key
    else
      var k1 := EnvStep(rs.replaceVars(key), allowed, rs.os);
      match FileStep(k1, allowed, rs)
      case None => ""
      case Some(k2) => VaultStep(k2, allowed, rs)
  }

  lemma EnvPrefixExcludesOthers(k: string)
    requires HasPrefix(k, EnvDirectiveStart)
    ensures !HasPrefix(k, FileDirectiveStart) && !HasPrefix(k, VaultDirectiveStart)
  {
    assert k[2] == EnvDirectiveStart[2];
  }

  /** An env directive where env is not admitted is left as it is. */
  lemma DisallowedEnvUnchanged(key: string, allowed: set<Directive>, rs: Resolver)
    requires Enclosed(key) && HasPrefix(rs.replaceVars(key), EnvDirectiveStart)
    requires EnvDirective !in allowed
    ensures DirectiveValue(key, allowed, rs) == rs.replaceVars(key)
  {
    EnvPrefixExcludesOthers(rs.replaceVars(key));
  }

  /** A file directive where file is not admitted is left as it is. */
  lemma DisallowedFileUnchanged(key: string, allowed: set<Directive>, rs: Resolver)
    requires Enclosed(key) && HasPrefix(rs.replaceVars(key), FileDirectiveStart)
    requires FileDirective !in allowed
    ensures DirectiveValue(key, allowed, rs) == rs.replaceVars(key)
  {
    var k := rs.replaceVars(key);
    assert k[2] == FileDirectiveStart[2];
  }

  /** A vault directive where vault is not admitted is left as it is. */
  lemma DisallowedVaultUnchanged(key: string, allowed: set<Directive>, rs: Resolver)
    requires Enclosed(key) && HasPrefix(rs.replaceVars(key), VaultDirectiveStart)
    requires VaultDirective !in allowed
    ensures DirectiveValue(key, allowed, rs) == rs.replaceVars(key)
  {
    var k := rs.replaceVars(key);
    assert !HasPrefix(k, EnvDirectiveStart) && !HasPrefix(k, FileDirectiveStart) by {
      assert k[2] == VaultDirectiveStart[2];
    }
    assert EnvStep(k, allowed, rs.os) == k;
    assert FileStep(k, allowed, rs) == Some(k);
    assert VaultStep(k, allowed, rs) == k;
  }

  /** A file directive whose file cannot be read resolves to "". */
  lemma FailedReadIsEmpty(key: string, allowed: set<Directive>, rs: Resolver)
    requires Enclosed(key) && HasPrefix(rs.replaceVars(key), FileDirectiveStart)
    requires FileDirective in allowed
    requires var f := DirectiveFile(TrimSuffix(rs.replaceVars(key)[|FileDirectiveStart|..], DirectiveEnd), rs);
             f.None? || rs.os.readFile(f.value).None?
    ensures DirectiveValue(key, allowed, rs) == ""
  {
    var k := rs.replaceVars(key);
    assert !HasPrefix(k, EnvDirectiveStart) by {
      assert k[2] == FileDirectiveStart[2];
    }
    assert EnvStep(k, allowed, rs.os) == k;
    assert FileStep(k, allowed, rs).None?;
  }

  /**
   * The steps are not exclusive: an environment variable whose value is
   * itself a vault directive is resolved through the vault as well.
   */
  lemma EnvThenVault(key: string, allowed: set<Directive>, rs: Resolver, name: string, vaultName: string)
    requires Enclosed(key) && rs.replaceVars(key) == EnvDirectiveStart + name + DirectiveEnd
    requires EnvDirective in allowed && VaultDirective in allowed
    requires rs.os.getenv(name) == VaultDirectiveStart + vaultName + DirectiveEnd
    ensures DirectiveValue(key, allowed, rs) == GetVaultKey(vaultName, rs.vaultKeys, rs.kvGet)
  {
    var k := rs.replaceVars(key);
    assert HasPrefix(k, EnvDirectiveStart);
    assert k[|EnvDirectiveStart|..] == name + DirectiveEnd;
    var v := rs.os.getenv(name);
    assert EnvStep(k, allowed, rs.os) == v;
    assert v[2] != FileDirectiveStart[2];
    assert HasPrefix(v, VaultDirectiveStart);
    assert v[|VaultDirectiveStart|..] == vaultName + DirectiveEnd;
  }

  // ----------------------------------------------------------- vault keys

  /** getVaultKeyData: the first key with the name. */
  function VaultKeyData(name: string, keys: seq<VaultKey>): (r: Result<VaultKey>)
    ensures r.Err? <==> forall i :: 0 <= i < |keys| ==> keys[i].name != name
    ensures r.Err? ==> r.msg == "key " + name + " not found in vault keys"
    ensures r.Ok? ==> exists i :: 0 <= i < |keys| && keys[i] == r.value && r.value.name == name &&
                        forall j :: 0 <= j < i ==> keys[j].name != name
  {
    if |keys| == 0 then Err("key " + name + " not found in vault keys")
    else if keys[0].name == name then Ok(keys[0])
    else
      var r := VaultKeyData(name, keys[1..]);
      if r.Ok? then
        ghost var i :| 0 <= i < |keys[1..]| && keys[1..][i] == r.value && r.value.name == name &&
                       forall j :: 0 <= j < i ==> keys[1..][j].name != name;
        assert keys[i + 1] == r.value;
        assert forall j :: 0 <= j < i + 1 ==> keys[j].name != name by {
          forall j | 0 <= j < i + 1 ensures keys[j].name != name {
            if j > 0 { assert keys[j] == keys[1..][j - 1]; }
          }
        }
        r
      else
        assert forall i :: 0 <= i < |keys| ==> keys[i].name != name by {
          forall i | 0 <= i < |keys| ensures keys[i].name != name {
            if i > 0 { assert keys[i] == keys[1..][i - 1]; }
          }
        }
        r
  }

  /** getVaultSecret (the utils.go copy): the KV engine by value type, then the entry named by Key. */
  function VaultSecret(key: VaultKey, kvGet: (nat, string, string) -> Result<map<string, string>>): (r: Result<string>)
    ensures key.valueType != "KVv1" && key.valueType != "KVv2" ==> r.Err?
    ensures r.Ok? ==>
              var data := kvGet(if key.valueType == "KVv2" then 2 else 1, key.mountPath, key.path);
              data.Ok? && key.key in data.value && r.value == data.value[key.key]
  {
    if key.valueType == "KVv2" || key.valueType == "KVv1" then
      var data := kvGet(if key.valueType == "KVv2" then 2 else 1, key.mountPath, key.path);
      if data.Err? then Err("unable to read secret: " + data.msg)
      else if key.key in data.value then Ok(data.value[key.key])
      else Err("value type assertion failed for vault key " + key.name)
    else if key.valueType != "" then
      Err("type " + key.valueType + " for key " + key.name + " not known. Valid types are KVv1 or KVv2")
    else Err("type for key " + key.name + " must be specified. Valid types are KVv1 or KVv2")
  }

  /** GetVaultKey: the secret of the first key with the name, or "" on any failure. */
  function GetVaultKey(name: string, keys: seq<VaultKey>, kvGet: (nat, string, string) -> Result<map<string, string>>): (r: string)
    ensures VaultKeyData(name, keys).Err? ==> r == ""
    ensures VaultKeyData(name, keys).Ok? ==>
              var s := VaultSecret(VaultKeyData(name, keys).value, kvGet);
              r == if s.Ok? then s.value else ""
  {
    match VaultKeyData(name, keys)
    case Err(_) => ""
    case Ok(k) =>
      match VaultSecret(k, kvGet)
      case Ok(v) => v
      case Err(_) => ""
  }

  /** An unknown key name resolves to "". */
  lemma UnknownKeyIsEmpty(name: string, keys: seq<VaultKey>, kvGet: (nat, string, string) -> Result<map<string, string>>)
    requires forall i :: 0 <= i < |keys| ==> keys[i].name != name
    ensures GetVaultKey(name, keys, kvGet) == ""
  {
  }

  // ------------------------------------------------------ process env lists

  /** expandEnvVars' rewrite of one entry: strings.TrimRight drops every trailing '}' and '%'. */
  function ExpandEntry(v: string, backyEnv: map<string, string>,
                       expand: (string, map<string, string>) -> string): (r: string)
    ensures !(HasPrefix(v, EnvDirectiveStart) && HasSuffix(v, DirectiveEnd)) ==> r == v
  {
    if HasPrefix(v, EnvDirectiveStart) && HasSuffix(v, DirectiveEnd)
    then expand(TrimRightSet(TrimPrefix(v, EnvDirectiveStart), {'}', '%'}), backyEnv)
    else v
  }

  /**
   * The text handed to the shell expander is cut by character set, not by
   * suffix: in "%{env:$A%}%" the '%' belonging to the text is dropped too.
   */
  lemma ExpandTrimsCutset(backyEnv: map<string, string>, expand: (string, map<string, string>) -> string)
    ensures ExpandEntry("%{env:$A%}%", backyEnv, expand) == expand("$A", backyEnv)
  {
    var v := "%{env:$A%}%";
    assert HasPrefix(v, EnvDirectiveStart);
    assert HasSuffix(v, DirectiveEnd);
    assert TrimPrefix(v, EnvDirectiveStart) == "$A%}%";
    var cut := {'}', '%'};
    assert "$A%}%"[..4] == "$A%}";
    assert "$A%}"[..3] == "$A%";
    assert "$A%"[..2] == "$A";
    assert TrimRightSet("$A", cut) == "$A";
    assert TrimRightSet("$A%", cut) == "$A";
    assert TrimRightSet("$A%}", cut) == "$A";
    assert TrimRightSet("$A%}%", cut) == "$A";
  }

  /** expandEnvVars rewrites the entries in place; the length never changes. */
  method ExpandEnvVars(backyEnv: map<string, string>, envVars: array<string>,
                       expand: (string, map<string, string>) -> string)
    modifies envVars
    ensures forall i :: 0 <= i < envVars.Length ==> envVars[i] == ExpandEntry(old(envVars[i]), backyEnv, expand)
  {
    var i := 0;
    while i < envVars.Length
      invariant 0 <= i <= envVars.Length
      invariant forall j :: 0 <= j < i ==> envVars[j] == ExpandEntry(old(envVars[j]), backyEnv, expand)
      invariant forall j :: i <= j < envVars.Length ==> envVars[j] == old(envVars[j])
    {
      var v := envVars[i];
      if HasPrefix(v, EnvDirectiveStart) && HasSuffix(v, DirectiveEnd) {
        v := TrimPrefix(v, EnvDirectiveStart);
        v := TrimRightSet(v, {'}', '%'});
        envVars[i] := expand(v, backyEnv);
      }
      i := i + 1;
    }
  }

  /** "k=v" */
  function Assignment(k: string, v: string): string { k + "=" + v }

  /** The env-file pairs, when a file is named and opening and parsing it succeeded. */
  function FilePairs(file: string, parsed: Option<seq<(string, string)>>): (r: seq<string>)
    ensures file == "" || parsed.None? ==> r == []
    ensures file != "" && parsed.Some? ==> |r| == |parsed.value|
  {
    if file == "" || parsed.None? then []
    else seq(|parsed.value|, i requires 0 <= i < |parsed.value| => Assignment(parsed.value[i].0, parsed.value[i].1))
  }

  /** The "k=v" entry for one Environment element, or nothing when it holds no '='. */
  function EnvEntry(e: string, rs: Resolver): (r: seq<string>)
    ensures '=' !in e ==> r == []
    ensures '=' in e ==> |r| == 1
  {
    if '=' in e then
      var parts := Split(e, '=');
      [Assignment(parts[0], DirectiveValue(parts[1], AllowedVault, rs))]
    else []
  }

  /** injectEnvIntoLocalCMD's entries for the Environment list, in order. */
  function EnvEntries(env: seq<string>, rs: Resolver): (r: seq<string>)
  {
    if |env| == 0 then [] else EnvEntries(env[..|env| - 1], rs) + EnvEntry(env[|env| - 1], rs)
  }

  /** One entry per element that holds a '=', and none for the others. */
  lemma {:induction false} EnvEntriesCount(env: seq<string>, rs: Resolver)
    ensures |EnvEntries(env, rs)| == |set i | 0 <= i < |env| && '=' in env[i]|
  {
    if |env| > 0 {
      var n := |env| - 1;
      EnvEntriesCount(env[..n], rs);
      assert |EnvEntries(env, rs)| == |EnvEntries(env[..n], rs)| + |EnvEntry(env[n], rs)|;
      AssignedSnoc(env, n);
    }
  }

  /** The elements holding a '=' among n + 1 elements: those among the first n, and perhaps the last. */
  lemma AssignedSnoc(env: seq<string>, n: nat)
    requires n + 1 == |env|
    ensures |set i | 0 <= i < |env| && '=' in env[i]|
            == |set i | 0 <= i < n && '=' in env[..n][i]| + (if '=' in env[n] then 1 else 0)
  {
    var before := set i | 0 <= i < n && '=' in env[..n][i];
    var after := set i | 0 <= i < |env| && '=' in env[i];
    assert before == set i | 0 <= i < n && '=' in env[i];
    if '=' in env[n] {
      assert after == before + {n};
    } else {
      assert after == before;
    }
  }

  /** The fields of "k=v" and of "k=v=w". */
  lemma SplitAssignment(k: char, v: char)
    requires k != '=' && v != '='
    ensures Split([k, '=', v], '=') == [[k], [v]]
    ensures Split([k, '=', v, '=', v], '=') == [[k], [v], [v]]
  {
    var s: string := [k, '=', v];
    assert s[..1] == [k];
    SplitAt(s, '=', 1);
    assert s[2..] == [v];
    SplitWithout([v], '=');
    var t: string := [k, '=', v, '=', v];
    assert t[..1] == [k];
    SplitAt(t, '=', 1);
    var u: string := [v, '=', v];
    assert u[..1] == [v];
    SplitAt(u, '=', 1);
    assert u[2..] == [v];
    assert t[2..] == u;
  }

  /** Only the second '='-separated field is kept as the value. */
  lemma SecondFieldOnly(rs: Resolver)
    ensures EnvEntries(["A=b=b", "FLAG"], rs) == ["A=b"]
  {
    SplitAssignment('A', 'b');
    assert "A=b=b" == ['A', '=', 'b', '=', 'b'];
    assert !Enclosed("b");
    assert "A=b=b"[1] == '=';
    var parts := Split("A=b=b", '=');
    assert parts == ["A", "b", "b"];
    assert DirectiveValue("b", AllowedVault, rs) == "b";
    assert Assignment("A", "b") == "A=b";
    assert EnvEntry("A=b=b", rs) == ["A=b"];
    assert EnvEntry("FLAG", rs) == [];
    assert ["A=b=b", "FLAG"][..1] == ["A=b=b"];
    assert ["A=b=b"][..0] == [];
    assert EnvEntries(["A=b=b"], rs) == ["A=b"];
    assert EnvEntries(["A=b=b", "FLAG"], rs) == EnvEntries(["A=b=b"], rs) + EnvEntry("FLAG", rs);
  }

  /**
   * injectEnvIntoLocalCMD: `parsed` is the outcome of opening and parsing the
   * env file (None on failure, after which only the other parts are added), in
   * the order the parsed map is ranged over.
   */
  method InjectEnvIntoLocalCmd(file: string, parsed: Option<seq<(string, string)>>, env: seq<string>, rs: Resolver)
    returns (procEnv: seq<string>)
    ensures procEnv == FilePairs(file, parsed) + EnvEntries(env, rs) + rs.os.environ
  {
    procEnv := [];
    if file != "" && parsed.Some? {
      var pairs := parsed.value;
      var j := 0;
      while j < |pairs|
        invariant 0 <= j <= |pairs|
        invariant procEnv == FilePairs(file, parsed)[..j]
      {
        FilePairsStep(file, parsed, j);
        procEnv := procEnv + [Assignment(pairs[j].0, pairs[j].1)];
        j := j + 1;
      }
    }
    ghost var start := procEnv;
    assert start == FilePairs(file, parsed);
    var i := 0;
    while i < |env|
      invariant 0 <= i <= |env|
      invariant procEnv == start + EnvEntries(env[..i], rs)
    {
      EnvEntriesStep(env, i, rs);
      var e := env[i];
      if '=' in e {
        var parts := Split(e, '=');
        procEnv := procEnv + [Assignment(parts[0], DirectiveValue(parts[1], AllowedVault, rs))];
      }
      i := i + 1;
    }
    assert env[..i] == env;
    procEnv := procEnv + rs.os.environ;
  }

  lemma FilePairsStep(file: string, parsed: Option<seq<(string, string)>>, j: nat)
    requires file != "" && parsed.Some? && j < |parsed.value|
    ensures FilePairs(file, parsed)[..j + 1] == FilePairs(file, parsed)[..j] + [Assignment(parsed.value[j].0, parsed.value[j].1)]
  {
    var all := FilePairs(file, parsed);
    assert all[..j + 1] == all[..j] + [all[j]];
  }

  lemma EnvEntriesStep(env: seq<string>, i: nat, rs: Resolver)
    requires i < |env|
    ensures EnvEntries(env[..i + 1], rs) == EnvEntries(env[..i], rs) + EnvEntry(env[i], rs)
  {
    assert env[..i + 1][..i] == env[..i];
  }

  /** The text prependEnvVarsToCommand writes for one env-file pair: "k=v ", the value resolved with vault and env directives allowed. */
  function FileLine(p: (string, string), rs: Resolver): string
  {
    p.0 + "=" + DirectiveValue(p.1, AllowedVaultEnv, rs) + " "
  }

  /** The env-file part of prependEnvVarsToCommand, accumulated pair by pair. */
  function FilePrefix(pairs: seq<(string, string)>, rs: Resolver): string
  {
    if |pairs| == 0 then ""
    else
      var p := pairs[|pairs| - 1];
      FilePrefix(pairs[..|pairs| - 1], rs) + Assignment(p.0, DirectiveValue(p.1, AllowedVaultEnv, rs)) + " "
  }

  /** One pair gives exactly its own line. */
  lemma FilePrefixOne(p: (string, string), rs: Resolver)
    ensures FilePrefix([p], rs) == FileLine(p, rs)
  {
    assert [p][..0] == [];
  }

  /** The env-file part of consecutive pair runs is the concatenation of their parts: no pair's line depends on another. */
  lemma {:induction false} FilePrefixAppend(a: seq<(string, string)>, b: seq<(string, string)>, rs: Resolver)
    ensures FilePrefix(a + b, rs) == FilePrefix(a, rs) + FilePrefix(b, rs)
    decreases |b|
  {
    if |b| == 0 {
      assert a + b == a;
    } else {
      var b' := b[..|b| - 1];
      assert (a + b)[..|a + b| - 1] == a + b';
      assert (a + b)[|a + b| - 1] == b[|b| - 1];
      FilePrefixAppend(a, b', rs);
    }
  }

  /** The line of pair j sits in the env-file part after the lines of the pairs before it. */
  lemma FilePrefixAt(pairs: seq<(string, string)>, j: nat, rs: Resolver)
    requires j < |pairs|
    ensures FilePrefix(pairs, rs) == FilePrefix(pairs[..j], rs) + FileLine(pairs[j], rs) + FilePrefix(pairs[j + 1..], rs)
  {
    assert pairs == pairs[..j] + [pairs[j]] + pairs[j + 1..];
    FilePrefixAppend(pairs[..j] + [pairs[j]], pairs[j + 1..], rs);
    FilePrefixAppend(pairs[..j], [pairs[j]], rs);
    FilePrefixOne(pairs[j], rs);
  }

  /** The line prependEnvVarsToCommand writes for one Environment element: "k=v \n". */
  function EnvLine(e: string, rs: Resolver): string
    requires '=' in e
  {
    var parts := Split(e, '=');
    assert |parts| >= 2 by { SplitHasTwo(e, '='); }
    Assignment(parts[0], DirectiveValue(parts[1], AllowedVault, rs)) + " " + "\n"
  }

  /** The Environment part of prependEnvVarsToCommand, one line per element. */
  function EnvPrefix(env: seq<string>, rs: Resolver): string
    requires forall i :: 0 <= i < |env| ==> '=' in env[i]
  {
    if |env| == 0 then "" else EnvPrefix(env[..|env| - 1], rs) + EnvLine(env[|env| - 1], rs)
  }

  /** The Environment element a one-field split cannot index: the source's index-out-of-range panic. */
  predicate PanicsOn(env: seq<string>)
  {
    exists i :: 0 <= i < |env| && '=' !in env[i]
  }

  /**
   * prependEnvVarsToCommand. An Err is the end of the process: log.Fatal
   * on an env file that cannot be expanded, opened or parsed, or the panic
   * on an Environment element without '='.
   */
  function PrependEnvVars(file: string, parsed: Option<seq<(string, string)>>, env: seq<string>,
                          rs: Resolver, command: string, args: seq<string>): (r: Result<string>)
    ensures r.Err? <==> (file != "" && (!FullPath(file, rs.os).ok || parsed.None?)) || PanicsOn(env)
    ensures r.Ok? ==> HasSuffix(r.value, command + " " + Join(args, " "))
  {
    if file != "" && (!FullPath(file, rs.os).ok || parsed.None?) then Err("env file cannot be read")
    else if PanicsOn(env) then Err("index out of range")
    else
      var pre := (if file != "" then FilePrefix(parsed.value, rs) else "") + EnvPrefix(env, rs);
      var tail := command + " " + Join(args, " ");
      assert (pre + tail)[|pre + tail| - |tail|..] == tail;
      Ok(pre + tail)
  }

  lemma EnvLineExample(k: char, v: char, rs: Resolver)
    requires k != '=' && v != '='
    ensures EnvLine([k, '=', v], rs) == [k, '=', v, ' ', '\n']
  {
    SplitAssignment(k, v);
    assert !Enclosed([v]);
  }

  lemma EnvPrefixExample(rs: Resolver)
    ensures EnvPrefix(["A=1", "B=2"], rs) == "A=1 \nB=2 \n"
  {
    var env := ["A=1", "B=2"];
    EnvLineExample('A', '1', rs);
    EnvLineExample('B', '2', rs);
    assert "A=1" == ['A', '=', '1'] && "B=2" == ['B', '=', '2'];
    assert "A=1"[1] == '=' && "B=2"[1] == '=';
    assert env[..1] == ["A=1"];
    assert env[..1][..0] == [];
    assert EnvPrefix(["A=1"], rs) == EnvPrefix([], rs) + EnvLine("A=1", rs);
    assert EnvPrefix(env, rs) == EnvPrefix(["A=1"], rs) + EnvLine("B=2", rs);
  }

  /** Without an env file, the Environment lines come first and the command last. */
  lemma PrependWithoutFile(env: seq<string>, rs: Resolver, command: string, args: seq<string>)
    requires forall i :: 0 <= i < |env| ==> '=' in env[i]
    ensures PrependEnvVars("", None, env, rs, command, args).Ok?
    ensures PrependEnvVars("", None, env, rs, command, args).value == EnvPrefix(env, rs) + (command + " " + Join(args, " "))
  {
    NoPanic(env);
    var pre := EnvPrefix(env, rs);
    assert "" + pre == pre;
    assert PrependEnvVars("", None, env, rs, command, args) == Ok(("" + pre) + (command + " " + Join(args, " ")));
  }

  /**
   * With an env file that expands, opens and parses, and only `k=v`
   * elements: the env-file lines, then the Environment lines, then the
   * command with its arguments.
   */
  lemma PrependWithFile(file: string, pairs: seq<(string, string)>, env: seq<string>, rs: Resolver,
                        command: string, args: seq<string>)
    requires file != "" && FullPath(file, rs.os).ok
    requires forall i :: 0 <= i < |env| ==> '=' in env[i]
    ensures PrependEnvVars(file, Some(pairs), env, rs, command, args).Ok?
    ensures PrependEnvVars(file, Some(pairs), env, rs, command, args).value
            == FilePrefix(pairs, rs) + EnvPrefix(env, rs) + (command + " " + Join(args, " "))
  {
    NoPanic(env);
  }

  lemma NoPanic(env: seq<string>)
    requires forall i :: 0 <= i < |env| ==> '=' in env[i]
    ensures !PanicsOn(env)
  {
  }

  /** Each Environment element contributes its line, in order, ahead of the command. */
  lemma PrependLayout(rs: Resolver, command: string, args: seq<string>)
    ensures PrependEnvVars("", None, ["A=1", "B=2"], rs, command, args).Ok?
    ensures PrependEnvVars("", None, ["A=1", "B=2"], rs, command, args).value
            == "A=1 \nB=2 \n" + (command + " " + Join(args, " "))
  {
    var env := ["A=1", "B=2"];
    assert "A=1"[1] == '=' && "B=2"[1] == '=';
    EnvPrefixExample(rs);
    PrependWithoutFile(env, rs, command, args);
  }

  // ---------------------------------------------------------------- search

  /** contains */
  function ContainsString(s: seq<string>, e: string): (r: bool)
    ensures r <==> e in s
  {
    if |s| == 0 then false else s[0] == e || ContainsString(s[1..], e)
  }
}
