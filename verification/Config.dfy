/** Configuration values, the problems validation can report, and when a configuration is well formed. */
module Config {
  import opened Prelude
  import opened Text
  import opened Records
  import opened Environment

  datatype ServerConfig = ServerConfig(listen: string, logFormat: string)
  datatype StorageConfig = StorageConfig(path: string, retentionDays: int, maxRuns: int)
  datatype Token = Token(name: string, value: string, actions: seq<string>)
  datatype Config = Config(server: ServerConfig, tokens: seq<Token>, storage: StorageConfig, actions: seq<Action>)

  const DEFAULT_LISTEN_ADDRESS := "127.0.0.1:9464"
  const DEFAULT_LOG_FORMAT := "json"
  const DEFAULT_MAX_OUTPUT_BYTES := 64 * 1024

  /** One constructor per message; `action`, `token`, `arg` and `item` are list positions. */
  datatype Problem =
    | ListenRequired | LogFormatRequired | LogFormatUnknown
    | StoragePathRequired | RetentionDaysNegative | MaxRunsNegative
    | TimeoutInvalid(action: nat)
    | ActionNameRequired(action: nat)
    | ActionNameDuplicates(action: nat, first: nat, name: string)
    | NotExactlyOneCommand(action: nat) | CommandArgumentEmpty(action: nat, arg: nat)
    | PolicyRequired(action: nat) | PolicyUnknown(action: nat)
    | MaxOutputNegative(action: nat) | CwdContainsNul(action: nat)
    | EnvKeyEmpty(action: nat) | EnvKeyContainsEquals(action: nat, key: string)
    | EnvKeyContainsNul(action: nat, key: string) | EnvValueContainsNul(action: nat, key: string)
    | TokenNameRequired(token: nat) | TokenNameDuplicates(token: nat, first: nat, name: string)
    | TokenValueRequired(token: nat) | TokenValueInvalid(token: nat)
    | ScopeEmpty(token: nat, item: nat) | ScopeDuplicates(token: nat, item: nat, first: nat, name: string)
    | ScopeUnknown(token: nat, item: nat, name: string)

  /** The position of the first `name`. */
  ghost function FirstUse(names: seq<string>, name: string): (i: nat)
    requires name in names
    ensures i < |names| && names[i] == name
    ensures forall j | 0 <= j < i :: names[j] != name
  {
    FirstUseExists(names, name);
    var i: nat :| i < |names| && names[i] == name && forall j | 0 <= j < i :: names[j] != name;
    i
  }

  lemma {:induction false} FirstUseExists(names: seq<string>, name: string)
    requires name in names
    ensures exists i: nat :: i < |names| && names[i] == name && forall j | 0 <= j < i :: names[j] != name
  {
    var n := |names| - 1;
    if name in names[..n] {
      FirstUseExists(names[..n], name);
      var i: nat :| i < n && names[..n][i] == name && forall j | 0 <= j < i :: names[..n][j] != name;
      assert names[i] == name && forall j | 0 <= j < i :: names[j] == names[..n][j];
    } else {
      assert forall j | 0 <= j < n :: names[j] == names[..n][j];
    }
  }

  function ActionNames(actions: seq<Action>): (names: seq<string>)
    ensures |names| == |actions| && forall i | 0 <= i < |actions| :: names[i] == actions[i].name
  {
    seq(|actions|, i requires 0 <= i < |actions| => actions[i].name)
  }

  function TokenNames(tokens: seq<Token>): (names: seq<string>)
    ensures |names| == |tokens| && forall i | 0 <= i < |tokens| :: names[i] == tokens[i].name
  {
    seq(|tokens|, i requires 0 <= i < |tokens| => tokens[i].name)
  }

  // ---- the problems of each part, in the order they are reported ----

  ghost function ServerProblems(s: ServerConfig): seq<Problem> {
    (if IsBlank(s.listen) then [ListenRequired] else []) +
    (if s.logFormat == "json" || s.logFormat == "text" then []
     else if s.logFormat == "" then [LogFormatRequired] else [LogFormatUnknown])
  }

  ghost function StorageProblems(s: StorageConfig): seq<Problem> {
    (if IsBlank(s.path) then [StoragePathRequired] else []) +
    (if s.retentionDays < 0 then [RetentionDaysNegative] else []) +
    (if s.maxRuns < 0 then [MaxRunsNegative] else [])
  }

  /** The name at position `i` must be nonempty and must not repeat an earlier one. */
  ghost function ActionNameProblems(names: seq<string>, i: nat): seq<Problem>
    requires i < |names|
  {
    var first := FirstUse(names, names[i]);
    if names[i] == "" then [ActionNameRequired(i)]
    else if first < i then [ActionNameDuplicates(i, first, names[i])]
    else []
  }

  ghost function CommandStep(i: nat, command: seq<string>): nat -> seq<Problem> {
    (k: nat) => if k < |command| && IsBlank(command[k]) then [CommandArgumentEmpty(i, k)] else []
  }

  ghost function EnvKeyProblems(i: nat, key: string, value: string): seq<Problem> {
    if IsBlank(key) then [EnvKeyEmpty(i)]
    else if '=' in key then [EnvKeyContainsEquals(i, key)]
    else if '\0' in key then [EnvKeyContainsNul(i, key)]
    else if '\0' in value then [EnvValueContainsNul(i, key)]
    else []
  }

  ghost function EnvStep(i: nat, env: map<string, string>, keys: seq<string>): nat -> seq<Problem> {
    (k: nat) => if k < |keys| && keys[k] in env then EnvKeyProblems(i, keys[k], env[keys[k]]) else []
  }

  ghost function PolicyProblems(i: nat, policy: Policy): seq<Problem> {
    match policy
    case OtherPolicy(text) => if text == "" then [PolicyRequired(i)] else [PolicyUnknown(i)]
    case _ => []
  }

  /** The checks of `validateAction`, in order. */
  ghost function ActionParts(i: nat, a: Action): seq<seq<Problem>> {
    [if (|a.command| > 0) == !IsBlank(a.shellCommand) then [NotExactlyOneCommand(i)] else [],
     Collect(|a.command|, CommandStep(i, a.command)),
     PolicyProblems(i, a.policy),
     if a.maxOutputBytes < 0 then [MaxOutputNegative(i)] else [],
     if '\0' in a.cwd then [CwdContainsNul(i)] else [],
     Collect(|a.env.Keys|, EnvStep(i, a.env, SortedKeys(a.env.Keys)))]
  }

  ghost function ActionProblems(i: nat, a: Action): seq<Problem> {
    Flatten(ActionParts(i, a))
  }

  ghost function ActionStep(actions: seq<Action>): nat -> seq<Problem> {
    (i: nat) =>
      if i < |actions| then ActionNameProblems(ActionNames(actions), i) + ActionProblems(i, actions[i])
      else []
  }

  ghost function ScopeItemProblems(i: nat, scope: seq<string>, k: nat, known: seq<string>): seq<Problem>
    requires k < |scope|
  {
    var name := scope[k];
    var first := FirstUse(scope, name);
    if name == "" then [ScopeEmpty(i, k)]
    else if first < k then [ScopeDuplicates(i, k, first, name)]
    else if name !in known then [ScopeUnknown(i, k, name)]
    else []
  }

  ghost function ScopeStep(i: nat, scope: seq<string>, known: seq<string>): nat -> seq<Problem> {
    (k: nat) => if k < |scope| then ScopeItemProblems(i, scope, k, known) else []
  }

  ghost function TokenNameProblems(names: seq<string>, i: nat): seq<Problem>
    requires i < |names|
  {
    var first := FirstUse(names, names[i]);
    if names[i] == "" then [TokenNameRequired(i)]
    else if first < i then [TokenNameDuplicates(i, first, names[i])]
    else []
  }

  ghost function TokenValueProblems(i: nat, value: string, tokenFormat: string -> bool): seq<Problem> {
    if value == "" then [TokenValueRequired(i)]
    else if !tokenFormat(value) then [TokenValueInvalid(i)]
    else []
  }

  ghost function TokenProblems(i: nat, t: Token, known: seq<string>, tokenFormat: string -> bool): seq<Problem> {
    TokenValueProblems(i, t.value, tokenFormat) + Collect(|t.actions|, ScopeStep(i, t.actions, known))
  }

  ghost function TokenStep(tokens: seq<Token>, known: seq<string>, tokenFormat: string -> bool): nat -> seq<Problem> {
    (i: nat) =>
      if i < |tokens| then TokenNameProblems(TokenNames(tokens), i) + TokenProblems(i, tokens[i], known, tokenFormat)
      else []
  }

  /** Everything `Validate` reports; `tokenFormat` stands for `tokenformat.Validate`. */
  ghost function Problems(c: Config, tokenFormat: string -> bool): seq<Problem> {
    ServerProblems(c.server) + StorageProblems(c.storage)
    + Collect(|c.actions|, ActionStep(c.actions))
    + Collect(|c.tokens|, TokenStep(c.tokens, ActionNames(c.actions), tokenFormat))
  }

  // ---- well-formedness, stated without loops or positions of discovery ----

  ghost predicate DistinctNonempty(names: seq<string>) {
    && (forall i | 0 <= i < |names| :: names[i] != "")
    && (forall i, j | 0 <= i < j < |names| :: names[i] != names[j])
  }

  predicate EnvEntryWellFormed(key: string, value: string) {
    !IsBlank(key) && '=' !in key && '\0' !in key && '\0' !in value
  }

  ghost predicate EnvWellFormed(env: map<string, string>) {
    forall k :: k in env ==> EnvEntryWellFormed(k, env[k])
  }

  ghost predicate ActionWellFormed(a: Action) {
    && (|a.command| > 0 <==> IsBlank(a.shellCommand))
    && (forall arg :: arg in a.command ==> !IsBlank(arg))
    && a.policy in {Allow, Reject}
    && a.maxOutputBytes >= 0
    && '\0' !in a.cwd
    && EnvWellFormed(a.env)
  }

  ghost predicate TokenWellFormed(t: Token, known: seq<string>, tokenFormat: string -> bool) {
    && t.value != "" && tokenFormat(t.value)
    && DistinctNonempty(t.actions)
    && (forall name :: name in t.actions ==> name in known)
  }

  ghost predicate WellFormed(c: Config, tokenFormat: string -> bool) {
    && !IsBlank(c.server.listen) && c.server.logFormat in {"json", "text"}
    && !IsBlank(c.storage.path) && c.storage.retentionDays >= 0 && c.storage.maxRuns >= 0
    && DistinctNonempty(ActionNames(c.actions))
    && (forall a :: a in c.actions ==> ActionWellFormed(a))
    && DistinctNonempty(TokenNames(c.tokens))
    && (forall t :: t in c.tokens ==> TokenWellFormed(t, ActionNames(c.actions), tokenFormat))
  }
}
