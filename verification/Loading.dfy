/** `Load`: defaults and trimming, then validation, then the action registry. */
module Loading {
  import opened Prelude
  import opened Text
  import opened Records
  import opened Queries
  import opened Config
  import opened ValidationExact
  import opened Validation

  /** The configuration file after YAML decoding; an absent text is empty. */
  datatype FileAction = FileAction(
    name: string, description: string, command: seq<string>, shellCommand: string, cwd: string, timeout: string,
    env: map<string, string>, policy: string, maxOutputBytes: Option<int>, enabled: Option<bool>)

  datatype FileConfig = FileConfig(
    server: ServerConfig, tokens: seq<Token>, storage: StorageConfig, actions: seq<FileAction>)

  datatype Registry = Registry(ordered: seq<Action>, byName: map<string, Action>, enabledByName: map<string, Action>)

  // ---- normalization ----

  function OrDefault(text: string, default: string): string {
    if TrimSpace(text) != "" then TrimSpace(text) else default
  }

  /** The mode follows from which of the two commands is given; with both or none it stays empty. */
  function NormalMode(command: seq<string>, shellCommand: string): Mode {
    if |command| > 0 && IsBlank(shellCommand) then CommandMode
    else if |command| == 0 && !IsBlank(shellCommand) then ShellMode
    else OtherMode("")
  }

  function NormalTimeout(text: string, parseDuration: string -> Option<int>): int {
    if TrimSpace(text) == "" then 0
    else
      var parsed := parseDuration(TrimSpace(text));
      if parsed.Some? then parsed.value else 0
  }

  function NormalAction(f: FileAction, parseDuration: string -> Option<int>): Action {
    Action(
      TrimSpace(f.name), f.description, NormalMode(f.command, f.shellCommand), f.command, f.shellCommand, f.cwd,
      NormalTimeout(f.timeout, parseDuration), f.env, PolicyOf(OrDefault(f.policy, "allow")),
      if f.maxOutputBytes.Some? then f.maxOutputBytes.value else DEFAULT_MAX_OUTPUT_BYTES,
      if f.enabled.Some? then f.enabled.value else true)
  }

  function TrimAll(names: seq<string>): (trimmed: seq<string>)
    ensures |trimmed| == |names| && forall i | 0 <= i < |names| :: trimmed[i] == TrimSpace(names[i])
  {
    seq(|names|, i requires 0 <= i < |names| => TrimSpace(names[i]))
  }

  function NormalToken(t: Token): Token {
    Token(TrimSpace(t.name), TrimSpace(t.value), TrimAll(t.actions))
  }

  predicate TimeoutParses(text: string, parseDuration: string -> Option<int>) {
    TrimSpace(text) == "" || parseDuration(TrimSpace(text)).Some?
  }

  ghost function TimeoutProblems(i: nat, text: string, parseDuration: string -> Option<int>): seq<Problem> {
    if TimeoutParses(text, parseDuration) then [] else [TimeoutInvalid(i)]
  }

  ghost function TimeoutStep(actions: seq<FileAction>, parseDuration: string -> Option<int>): nat -> seq<Problem> {
    (i: nat) => if i < |actions| then TimeoutProblems(i, actions[i].timeout, parseDuration) else []
  }

  function ActionOf(actions: seq<FileAction>, parseDuration: string -> Option<int>): nat -> Action {
    (i: nat) => NormalAction(
      if i < |actions| then actions[i] else FileAction("", "", [], "", "", "", map[], "", None, None), parseDuration)
  }

  function TokenOf(tokens: seq<Token>): nat -> Token {
    (i: nat) => NormalToken(if i < |tokens| then tokens[i] else Token("", "", []))
  }

  /** `normalize`, as one value. */
  function Normalized(f: FileConfig, parseDuration: string -> Option<int>): Config {
    Config(
      ServerConfig(
        OrDefault(f.server.listen, DEFAULT_LISTEN_ADDRESS), OrDefault(f.server.logFormat, DEFAULT_LOG_FORMAT)),
      Tabulate(|f.tokens|, TokenOf(f.tokens)),
      StorageConfig(TrimSpace(f.storage.path), f.storage.retentionDays, f.storage.maxRuns),
      Tabulate(|f.actions|, ActionOf(f.actions, parseDuration)))
  }

  method NormalizeActions(fileActions: seq<FileAction>, parseDuration: string -> Option<int>)
    returns (actions: seq<Action>, problems: seq<Problem>)
    ensures actions == Tabulate(|fileActions|, ActionOf(fileActions, parseDuration))
    ensures problems == Collect(|fileActions|, TimeoutStep(fileActions, parseDuration))
  {
    actions, problems := NormalizeEachAction(
      fileActions, parseDuration, ActionOf(fileActions, parseDuration), TimeoutStep(fileActions, parseDuration));
  }

  /** The loop of `normalizeActions`; `normal(i)` and `step(i)` are what round `i` appends. */
  method NormalizeEachAction(fileActions: seq<FileAction>, parseDuration: string -> Option<int>,
                             ghost normal: nat -> Action, ghost step: nat -> seq<Problem>)
    returns (actions: seq<Action>, problems: seq<Problem>)
    requires forall i: nat | i < |fileActions| :: normal(i) == NormalAction(fileActions[i], parseDuration)
    requires forall i: nat | i < |fileActions| :: step(i) == TimeoutProblems(i, fileActions[i].timeout, parseDuration)
    ensures actions == Tabulate(|fileActions|, normal)
    ensures problems == Collect(|fileActions|, step)
  {
    actions, problems := [], [];
    for i := 0 to |fileActions|
      invariant actions == Tabulate(i, normal)
      invariant problems == Collect(i, step)
    {
      ghost var next, reported := normal(i), step(i);
      var action, more := NormalizeAction(i, fileActions[i], parseDuration);
      actions, problems := actions + [action], problems + more;
    }
  }

  /** One round of `normalizeActions`: defaults first, then what the file gives. */
  method NormalizeAction(i: nat, f: FileAction, parseDuration: string -> Option<int>)
    returns (action: Action, problems: seq<Problem>)
    ensures action == NormalAction(f, parseDuration)
    ensures problems == TimeoutProblems(i, f.timeout, parseDuration)
  {
    problems := [];
    action := Action(
      TrimSpace(f.name), f.description, OtherMode(""), f.command, f.shellCommand, f.cwd,
      0, f.env, PolicyOf("allow"), DEFAULT_MAX_OUTPUT_BYTES, true);
    var policy := TrimSpace(f.policy);
    if policy != "" { action := action.(policy := PolicyOf(policy)); }
    if f.maxOutputBytes.Some? { action := action.(maxOutputBytes := f.maxOutputBytes.value); }
    if f.enabled.Some? { action := action.(enabled := f.enabled.value); }
    var timeoutText := TrimSpace(f.timeout);
    if timeoutText != "" {
      var timeout := parseDuration(timeoutText);
      if timeout.None? {
        problems := [TimeoutInvalid(i)];
      } else {
        action := action.(timeout := timeout.value);
      }
    }
    var hasCommand, hasShellCommand := |f.command| > 0, !IsBlank(f.shellCommand);
    if hasCommand && !hasShellCommand {
      action := action.(mode := CommandMode);
    } else if !hasCommand && hasShellCommand {
      action := action.(mode := ShellMode);
    }
  }

  method NormalizeTokens(fileTokens: seq<Token>) returns (tokens: seq<Token>)
    ensures tokens == Tabulate(|fileTokens|, TokenOf(fileTokens))
  {
    tokens := [];
    ghost var normal := TokenOf(fileTokens);
    for i := 0 to |fileTokens|
      invariant tokens == Tabulate(i, normal)
    {
      var names := NormalizeActionNames(fileTokens[i].actions);
      var token := Token(TrimSpace(fileTokens[i].name), TrimSpace(fileTokens[i].value), names);
      assert token == normal(i);
      tokens := tokens + [token];
    }
  }

  method NormalizeActionNames(actionNames: seq<string>) returns (normalized: seq<string>)
    ensures normalized == TrimAll(actionNames)
  {
    normalized := [];
    for k := 0 to |actionNames|
      invariant |normalized| == k && forall j | 0 <= j < k :: normalized[j] == TrimSpace(actionNames[j])
    {
      normalized := normalized + [TrimSpace(actionNames[k])];
    }
  }

  // ---- the registry ----

  function RegistryNames(actions: seq<Action>): (names: seq<string>)
    ensures |names| == |actions| && forall i | 0 <= i < |actions| :: names[i] == TrimSpace(actions[i].name)
  {
    seq(|actions|, i requires 0 <= i < |actions| => TrimSpace(actions[i].name))
  }

  ghost function RegistryStep(names: seq<string>): nat -> seq<Problem> {
    (i: nat) => if i < |names| then ActionNameProblems(names, i) else []
  }

  function Extended(r: Registry, a: Action): Registry {
    Registry(r.ordered + [a], r.byName[a.name := a],
             if a.enabled then r.enabledByName[a.name := a] else r.enabledByName)
  }

  function Registered(actions: seq<Action>, n: nat): Registry
    requires n <= |actions|
  {
    if n == 0 then Registry([], map[], map[]) else Extended(Registered(actions, n - 1), actions[n - 1])
  }

  /** The registry lists the first `n` actions and finds each, and only those, under its own name. */
  ghost predicate Registers(r: Registry, actions: seq<Action>, n: nat)
    requires n <= |actions|
  {
    && r.ordered == actions[..n]
    && (forall i | 0 <= i < n :: actions[i].name in r.byName && r.byName[actions[i].name] == actions[i])
    && (forall name :: name in r.byName ==> r.byName[name].name == name && r.byName[name] in actions[..n])
    && (forall name :: name in r.enabledByName <==> name in r.byName && r.byName[name].enabled)
    && (forall name :: name in r.enabledByName && name in r.byName ==> r.enabledByName[name] == r.byName[name])
  }

  lemma {:induction false} RegisteredExact(actions: seq<Action>, n: nat)
    requires n <= |actions|
    requires forall i, j | 0 <= i < j < n :: actions[i].name != actions[j].name
    ensures Registers(Registered(actions, n), actions, n)
  {
    if n > 0 {
      RegisteredExact(actions, n - 1);
      ExtendedExact(Registered(actions, n - 1), actions, n - 1);
    }
  }

  lemma {:induction false} ExtendedExact(r: Registry, actions: seq<Action>, n: nat)
    requires n < |actions| && Registers(r, actions, n)
    requires forall i | 0 <= i < n :: actions[i].name != actions[n].name
    ensures Registers(Extended(r, actions[n]), actions, n + 1)
  {
  }

  method NewActionRegistry(actions: seq<Action>) returns (result: Result<Registry, seq<Problem>>)
    ensures var problems := Collect(|actions|, RegistryStep(RegistryNames(actions)));
            result == if problems == [] then Success(Registered(actions, |actions|)) else Failure(problems)
  {
    var registry, errs := RegisterEach(actions, RegistryNames(actions), RegistryStep(RegistryNames(actions)));
    if errs == [] {
      result := Success(registry);
    } else {
      result := Failure(errs);
    }
  }

  /** The loop of `newActionRegistry`; `step(i)` is what round `i` reports. */
  method RegisterEach(actions: seq<Action>, ghost names: seq<string>, ghost step: nat -> seq<Problem>)
    returns (registry: Registry, errs: seq<Problem>)
    requires names == RegistryNames(actions)
    requires forall i: nat | i < |actions| :: step(i) == ActionNameProblems(names, i)
    ensures errs == Collect(|actions|, step)
    ensures errs == [] ==> registry == Registered(actions, |actions|)
  {
    registry, errs := Registry([], map[], map[]), [];
    var seenNames: map<string, nat> := map[];
    NoPositions(names);
    for i := 0 to |actions|
      invariant FirstPositions(seenNames, names, i)
      invariant errs == Collect(i, step)
      invariant errs == [] ==> registry == Registered(actions, i)
    {
      ghost var reported := step(i);
      var more;
      more, seenNames, registry := Register(actions[i], i, seenNames, registry, names);
      errs := errs + more;
    }
  }

  /** One round of `newActionRegistry`. */
  method Register(action: Action, i: nat, seenNames: map<string, nat>, registry: Registry, ghost names: seq<string>)
    returns (problems: seq<Problem>, longer: map<string, nat>, extended: Registry)
    requires i < |names| && names[i] == TrimSpace(action.name) && FirstPositions(seenNames, names, i)
    ensures problems == ActionNameProblems(names, i)
    ensures FirstPositions(longer, names, i + 1)
    ensures extended == if problems == [] then Extended(registry, action) else registry
  {
    var name := TrimSpace(action.name);
    problems, longer, extended := [], seenNames, registry;
    if name == "" {
      problems := [ActionNameRequired(i)];
    } else if name in seenNames {
      problems := [ActionNameDuplicates(i, seenNames[name], name)];
    } else {
      FreshName(seenNames, names, i);
      longer := seenNames[name := i];
      extended := Registry(
        registry.ordered + [action], registry.byName[action.name := action],
        if action.enabled then registry.enabledByName[action.name := action] else registry.enabledByName);
    }
    PositionsExtend(seenNames, names, i, longer);
  }

  /** A name not seen before differs from every earlier name. */
  lemma {:induction false} FreshName(seen: map<string, nat>, names: seq<string>, n: nat)
    requires n < |names| && FirstPositions(seen, names, n) && names[n] != "" && names[n] !in seen
    ensures forall i | 0 <= i < n :: names[i] != names[n]
    ensures FirstUse(names, names[n]) == n
  {
  }

  // ---- loading ----

  datatype Loaded = Loaded(config: Config, registry: Registry)

  method Load(f: FileConfig, parseDuration: string -> Option<int>, tokenFormat: string -> bool)
    returns (result: Result<Loaded, seq<Problem>>)
    ensures var c := Normalized(f, parseDuration);
            && (result.Success? <==>
                  && (forall a :: a in f.actions ==> TimeoutParses(a.timeout, parseDuration))
                  && WellFormed(c, tokenFormat))
            && (result.Success? ==> result.value == Loaded(c, Registered(c.actions, |c.actions|)))
            && (result.Failure? ==>
                  result.error ==
                  Collect(|f.actions|, TimeoutStep(f.actions, parseDuration)) + Problems(c, tokenFormat))
  {
    var actions, problems := NormalizeActions(f.actions, parseDuration);
    var tokens := NormalizeTokens(f.tokens);
    var server := ServerConfig(DEFAULT_LISTEN_ADDRESS, DEFAULT_LOG_FORMAT);
    var listen, logFormat := TrimSpace(f.server.listen), TrimSpace(f.server.logFormat);
    if listen != "" { server := server.(listen := listen); }
    if logFormat != "" { server := server.(logFormat := logFormat); }
    var storage := StorageConfig(TrimSpace(f.storage.path), f.storage.retentionDays, f.storage.maxRuns);
    var c := Config(server, tokens, storage, actions);
    assert c == Normalized(f, parseDuration);
    var invalid := Validate(c, tokenFormat);
    TimeoutsExact(f.actions, parseDuration);
    ValidateExact(c, tokenFormat);
    if problems + invalid != [] { return Failure(problems + invalid); }
    assert problems == [] && invalid == [];

    NamesAreTrimmed(f, parseDuration, tokenFormat);
    var registered := NewActionRegistry(c.actions);
    result := Success(Loaded(c, registered.value));
  }

  lemma {:induction false} TimeoutsExact(actions: seq<FileAction>, parseDuration: string -> Option<int>)
    ensures Collect(|actions|, TimeoutStep(actions, parseDuration)) == [] <==>
            forall a :: a in actions ==> TimeoutParses(a.timeout, parseDuration)
  {
    var step := TimeoutStep(actions, parseDuration);
    CollectEmpty(|actions|, step);
    assert forall i: nat | i < |actions| :: step(i) == [] <==> TimeoutParses(actions[i].timeout, parseDuration);
  }

  /** Registry construction cannot fail on an accepted configuration, although it checks names again. */
  lemma {:induction false} NamesAreTrimmed(f: FileConfig, parseDuration: string -> Option<int>,
                                           tokenFormat: string -> bool)
    requires WellFormed(Normalized(f, parseDuration), tokenFormat)
    ensures var actions := Normalized(f, parseDuration).actions;
            Collect(|actions|, RegistryStep(RegistryNames(actions))) == []
  {
    var actions := Normalized(f, parseDuration).actions;
    forall i | 0 <= i < |actions| ensures TrimSpace(actions[i].name) == actions[i].name {
      TabulateAt(|f.actions|, ActionOf(f.actions, parseDuration), i);
      TrimSpaceIdempotent(f.actions[i].name);
    }
    assert RegistryNames(actions) == ActionNames(actions);
    DistinctNamesRegister(RegistryNames(actions));
  }

  lemma {:induction false} DistinctNamesRegister(names: seq<string>)
    requires DistinctNonempty(names)
    ensures Collect(|names|, RegistryStep(names)) == []
  {
    DistinctByFirstUse(names);
    CollectEmpty(|names|, RegistryStep(names));
  }

  // ---- what an accepted configuration guarantees downstream ----

  /** `buildCommand` succeeds. */
  predicate CommandBuilds(a: Action) {
    match a.mode
    case CommandMode => |a.command| > 0
    case ShellMode => !IsBlank(a.shellCommand)
    case OtherMode(_) => false
  }

  /** An action that can be looked up by its trimmed name, dispatched, stored and started. */
  ghost predicate Runnable(a: Action, name: string) {
    && a.name == name && name != "" && TrimSpace(name) == name
    && a.policy in {Allow, Reject}
    && SnapshotAccepted(SnapshotOf(a))
    && CommandBuilds(a)
  }

  ghost predicate RegistryRunnable(r: Registry) {
    && (forall name :: name in r.byName ==> Runnable(r.byName[name], name))
    && r.enabledByName.Keys <= r.byName.Keys
  }

  lemma NormalActionRunnable(f: FileAction, parseDuration: string -> Option<int>)
    requires ActionWellFormed(NormalAction(f, parseDuration)) && TrimSpace(f.name) != ""
    ensures Runnable(NormalAction(f, parseDuration), TrimSpace(f.name))
  {
  }

  /** Every action of an accepted configuration can run, whether enabled or not. */
  lemma {:induction false} AcceptedActionsRun(f: FileConfig, parseDuration: string -> Option<int>,
                                              tokenFormat: string -> bool)
    requires WellFormed(Normalized(f, parseDuration), tokenFormat)
    ensures var actions := Normalized(f, parseDuration).actions;
            && Registers(Registered(actions, |actions|), actions, |actions|)
            && RegistryRunnable(Registered(actions, |actions|))
  {
    var actions := Normalized(f, parseDuration).actions;
    DistinctActions(actions);
    RegisteredExact(actions, |actions|);
    forall i | 0 <= i < |actions| ensures Runnable(actions[i], actions[i].name) {
      NormalizedActionRuns(f, parseDuration, tokenFormat, i);
    }
    RegisteredRunnable(Registered(actions, |actions|), actions);
  }

  lemma {:induction false} DistinctActions(actions: seq<Action>)
    requires DistinctNonempty(ActionNames(actions))
    ensures forall i, j | 0 <= i < j < |actions| :: actions[i].name != actions[j].name
  {
    var names := ActionNames(actions);
    assert forall i, j | 0 <= i < j < |actions| :: names[i] != names[j];
  }

  lemma {:induction false} NormalizedActionRuns(f: FileConfig, parseDuration: string -> Option<int>,
                                                tokenFormat: string -> bool, i: nat)
    requires WellFormed(Normalized(f, parseDuration), tokenFormat) && i < |Normalized(f, parseDuration).actions|
    ensures var a := Normalized(f, parseDuration).actions[i]; Runnable(a, a.name)
  {
    assert ActionNames(Normalized(f, parseDuration).actions)[i] != "";
    TabulateAt(|f.actions|, ActionOf(f.actions, parseDuration), i);
    NormalActionRunnable(f.actions[i], parseDuration);
  }

  lemma {:induction false} RegisteredRunnable(r: Registry, actions: seq<Action>)
    requires Registers(r, actions, |actions|)
    requires forall i | 0 <= i < |actions| :: Runnable(actions[i], actions[i].name)
    ensures RegistryRunnable(r)
  {
  }
}
