/** The child process's environment: built from a map, sorted, and readable back as that map. */
module Environment {
  import opened Prelude
  import opened Text
  import opened Ordering

  const DEFAULT_PATH := "/usr/local/sbin:/usr/local/bin:/usr/sbin:/usr/bin:/sbin:/bin"
  const ENV_RUN_ID := "MICROHOOK_RUN_ID"
  const ENV_ACTION := "MICROHOOK_ACTION"
  const ENV_REQUEST_ID := "MICROHOOK_REQUEST_ID"

  lemma LessIsTotal()
    ensures StrictTotalOrder(Less)
  {
    forall x: string ensures !Less(x, x) { LessIrreflexive(x); }
    forall x: string, y: string, z: string | Less(x, y) && Less(y, z) ensures Less(x, z) { LessTransitive(x, y, z); }
    forall x: string, y: string | x != y ensures Less(x, y) || Less(y, x) { LessConnected(x, y); }
  }

  /** `sort.Strings` on the keys of a map. */
  function SortedKeys(keys: set<string>): (xs: seq<string>)
    ensures forall k :: k in xs <==> k in keys
    ensures |xs| == |keys|
    ensures Sorted(Less, xs)
  {
    LessIsTotal();
    Arrange(Less, keys)
  }

  /** The variables of a run: the default path, overridden by the configured entries, overridden by the run's own. */
  function Variables(path: Option<string>, configured: map<string, string>, runId: string, action: string,
                     requestId: string)
    : map<string, string>
  {
    (map["PATH" := if path.Some? && !IsBlank(path.value) then path.value else DEFAULT_PATH] + configured)
    [ENV_RUN_ID := runId][ENV_ACTION := action][ENV_REQUEST_ID := requestId]
  }

  function Entry(key: string, value: string): string {
    key + "=" + value
  }

  /** The name and value of an entry, cut at its first `=`. */
  function EntryName(entry: string): string {
    entry[..IndexOf(entry, '=')]
  }

  function ValueOf(entry: string): string {
    var i := IndexOf(entry, '=');
    if i < |entry| then entry[i + 1..] else ""
  }

  /** The environment that a list of entries means to a process. */
  function Parse(entries: seq<string>): map<string, string> {
    if entries == [] then map[]
    else
      var n := |entries| - 1;
      Parse(entries[..n])[EntryName(entries[n]) := ValueOf(entries[n])]
  }

  /** The entries of `env` for the given keys. */
  function Entries(env: map<string, string>, keys: seq<string>): (entries: seq<string>)
    requires forall k :: k in keys ==> k in env
    ensures |entries| == |keys|
    ensures forall i | 0 <= i < |keys| :: entries[i] == Entry(keys[i], env[keys[i]])
  {
    seq(|keys|, i requires 0 <= i < |keys| => Entry(keys[i], env[keys[i]]))
  }

  /** The first half of `buildEnv`: layer the variables in a map. */
  method Layer(path: Option<string>, configured: map<string, string>, runId: string, action: string, requestId: string)
    returns (env: map<string, string>)
    ensures env == Variables(path, configured, runId, action, requestId)
  {
    if path.Some? && !IsBlank(path.value) {
      env := map["PATH" := path.value];
    } else {
      env := map["PATH" := DEFAULT_PATH];
    }
    env := env + configured;
    env := env[ENV_RUN_ID := runId];
    env := env[ENV_ACTION := action];
    env := env[ENV_REQUEST_ID := requestId];
  }

  /** The second half of `buildEnv`: write one entry for each sorted key. */
  method WriteEntries(env: map<string, string>, keys: seq<string>) returns (values: seq<string>)
    requires forall k :: k in keys ==> k in env
    ensures values == Entries(env, keys)
  {
    values := [];
    for i := 0 to |keys|
      invariant |values| == i && forall j | 0 <= j < i :: values[j] == Entry(keys[j], env[keys[j]])
    {
      var entry := Entry(keys[i], env[keys[i]]);
      values := values + [entry];
    }
  }

  /** `buildEnv`. */
  method BuildEnv(path: Option<string>, configured: map<string, string>, runId: string, action: string,
                  requestId: string)
    returns (values: seq<string>)
    ensures var env := Variables(path, configured, runId, action, requestId);
            values == Entries(env, SortedKeys(env.Keys))
  {
    var env := Layer(path, configured, runId, action, requestId);
    values := WriteEntries(env, SortedKeys(env.Keys));
  }

  lemma CutEntry(key: string, value: string)
    requires '=' !in key
    ensures EntryName(Entry(key, value)) == key && ValueOf(Entry(key, value)) == value
  {
    var entry := Entry(key, value);
    assert entry[..|key|] == key;
    IndexOfFirst(entry, '=', |key|);
  }

  lemma {:induction false} ParseEntries(env: map<string, string>, keys: seq<string>)
    requires forall k :: k in keys ==> k in env && '=' !in k
    ensures Parse(Entries(env, keys)) == map k | k in keys :: env[k]
  {
    if keys != [] {
      var n := |keys| - 1;
      assert keys == keys[..n] + [keys[n]];
      ParseEntries(env, keys[..n]);
      assert Entries(env, keys)[..n] == Entries(env, keys[..n]);
      CutEntry(keys[n], env[keys[n]]);
    }
  }

  /** Entries of sorted keys come in strictly increasing order of their names, so no name comes twice. */
  lemma EntriesInOrder(env: map<string, string>, keys: seq<string>)
    requires Sorted(Less, keys) && forall k :: k in keys ==> k in env && '=' !in k
    ensures forall i, j | 0 <= i < j < |keys| ::
              Less(EntryName(Entries(env, keys)[i]), EntryName(Entries(env, keys)[j]))
  {
    forall i | 0 <= i < |keys| ensures EntryName(Entries(env, keys)[i]) == keys[i] {
      CutEntry(keys[i], env[keys[i]]);
    }
  }

  lemma {:induction false} ParsedKeysHaveNoEquals(entries: seq<string>)
    ensures forall k :: k in Parse(entries) ==> '=' !in k
  {
    if entries != [] {
      ParsedKeysHaveNoEquals(entries[..|entries| - 1]);
    }
  }

  /** A sorted list of entries reads back as its map exactly when no name contains `=`. */
  lemma EntriesRoundTrip(env: map<string, string>)
    ensures Parse(Entries(env, SortedKeys(env.Keys))) == env <==> forall k :: k in env ==> '=' !in k
  {
    var keys := SortedKeys(env.Keys);
    if forall k :: k in env ==> '=' !in k {
      CleanEntriesReadBack(env, keys);
    } else {
      ParsedKeysHaveNoEquals(Entries(env, keys));
    }
  }

  lemma CleanEntriesReadBack(env: map<string, string>, keys: seq<string>)
    requires forall k :: k in keys <==> k in env
    requires forall k :: k in env ==> '=' !in k
    ensures Parse(Entries(env, keys)) == env
  {
    ParseEntries(env, keys);
    assert (map k | k in keys :: env[k]) == env;
  }

  lemma OwnNames(path: Option<string>, configured: map<string, string>,
                 runId: string, action: string, requestId: string, key: string)
    ensures var env := Variables(path, configured, runId, action, requestId);
            && (key in configured ==> key in env)
            && (key in env && key !in configured ==> '=' !in key)
  {
  }

  /**
   What a child process sees of the list that `BuildEnv` returns: its own three
   variables, then the configured ones, then the path. That holds for every
   configuration whose names contain no `=`, which validation demands, and no other.
   */
  lemma EnvironmentRoundTrip(path: Option<string>, configured: map<string, string>,
                             runId: string, action: string, requestId: string)
    ensures var env := Variables(path, configured, runId, action, requestId);
            Parse(Entries(env, SortedKeys(env.Keys))) == env <==> forall k :: k in configured ==> '=' !in k
  {
    var env := Variables(path, configured, runId, action, requestId);
    EntriesRoundTrip(env);
    forall k ensures k in configured ==> k in env
             ensures k in env && k !in configured ==> '=' !in k
    {
      OwnNames(path, configured, runId, action, requestId, k);
    }
  }

  /** `seen` holds the service's three variables, the other configured ones, and a path unless one is configured. */
  predicate Layered(seen: map<string, string>, path: Option<string>, configured: map<string, string>,
                    runId: string, action: string, requestId: string)
  {
    var own := {"MICROHOOK_RUN_ID", "MICROHOOK_ACTION", "MICROHOOK_REQUEST_ID"};
    && seen.Keys == configured.Keys + {"PATH"} + own
    && seen["MICROHOOK_RUN_ID"] == runId && seen["MICROHOOK_ACTION"] == action
    && seen["MICROHOOK_REQUEST_ID"] == requestId
    && (forall key | key in configured && key !in own :: seen[key] == configured[key])
    && ("PATH" !in configured ==>
          seen["PATH"] == if path.Some? && !IsBlank(path.value) then path.value
                          else "/usr/local/sbin:/usr/local/bin:/usr/sbin:/usr/bin:/sbin:/bin")
  }

  /** Which value wins for each name. */
  lemma VariablesLayered(path: Option<string>, configured: map<string, string>,
                         runId: string, action: string, requestId: string)
    ensures Layered(Variables(path, configured, runId, action, requestId), path, configured, runId, action, requestId)
  {
  }

  /** With names that contain no `=`, a process sees exactly the layered variables, listed in order of their names. */
  lemma EnvironmentSeen(path: Option<string>, configured: map<string, string>,
                        runId: string, action: string, requestId: string)
    requires forall k :: k in configured ==> '=' !in k
    ensures var env := Variables(path, configured, runId, action, requestId);
            var entries := Entries(env, SortedKeys(env.Keys));
            && Layered(Parse(entries), path, configured, runId, action, requestId)
            && forall i, j | 0 <= i < j < |entries| :: Less(EntryName(entries[i]), EntryName(entries[j]))
  {
    var env := Variables(path, configured, runId, action, requestId);
    EnvironmentRoundTrip(path, configured, runId, action, requestId);
    VariablesLayered(path, configured, runId, action, requestId);
    forall k | k in env ensures '=' !in k { OwnNames(path, configured, runId, action, requestId, k); }
    EntriesInOrder(env, SortedKeys(env.Keys));
  }
}
