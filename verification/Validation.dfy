/** `Validate` as it runs: loops over lists that fill maps of first positions and append problems. */
module Validation {
  import opened Prelude
  import opened Text
  import opened Records
  import opened Environment
  import opened Config

  class ValidationErrors {
    var messages: seq<Problem>

    constructor ()
      ensures messages == []
    {
      messages := [];
    }

    method Add(message: Problem)
      modifies this
      ensures messages == old(messages) + [message]
    {
      messages := messages + [message];
    }

    method AddIf(wrong: bool, message: Problem)
      modifies this
      ensures messages == old(messages) + (if wrong then [message] else [])
    {
      if wrong { Add(message); }
    }
  }

  /** `seen` gives the first position of each nonempty name among the first `n`. */
  ghost predicate FirstPositions(seen: map<string, nat>, names: seq<string>, n: nat) {
    && (forall name :: name in seen <==> name != "" && name in names && FirstUse(names, name) < n)
    && (forall name :: name in seen ==> name in names && seen[name] == FirstUse(names, name))
  }

  lemma NoPositions(names: seq<string>)
    ensures FirstPositions(map[], names, 0)
  {
  }

  /** Recording an unseen name keeps the map exact. */
  lemma PositionsExtend(seen: map<string, nat>, names: seq<string>, n: nat, longer: map<string, nat>)
    requires n < |names| && FirstPositions(seen, names, n)
    requires longer == if names[n] != "" && names[n] !in seen then seen[names[n] := n] else seen
    ensures FirstPositions(longer, names, n + 1)
  {
  }

  lemma TwoAppended(start: seq<Problem>, a: seq<Problem>, b: seq<Problem>)
    ensures start + a + b == start + (a + b)
  {
  }

  method ValidateServer(errs: ValidationErrors, server: ServerConfig)
    modifies errs
    ensures errs.messages == old(errs.messages) + ServerProblems(server)
  {
    errs.AddIf(IsBlank(server.listen), ListenRequired);
    if server.logFormat == DEFAULT_LOG_FORMAT || server.logFormat == "text" {
    } else if server.logFormat == "" {
      errs.Add(LogFormatRequired);
    } else {
      errs.Add(LogFormatUnknown);
    }
  }

  method ValidateStorage(errs: ValidationErrors, storage: StorageConfig)
    modifies errs
    ensures errs.messages == old(errs.messages) + StorageProblems(storage)
  {
    errs.AddIf(IsBlank(storage.path), StoragePathRequired);
    errs.AddIf(storage.retentionDays < 0, RetentionDaysNegative);
    errs.AddIf(storage.maxRuns < 0, MaxRunsNegative);
  }

  method ValidateActions(errs: ValidationErrors, actions: seq<Action>) returns (actionNames: map<string, nat>)
    modifies errs
    ensures errs.messages == old(errs.messages) + Collect(|actions|, ActionStep(actions))
    ensures FirstPositions(actionNames, ActionNames(actions), |actions|)
  {
    actionNames := ValidateEachAction(errs, actions, errs.messages, ActionNames(actions), ActionStep(actions));
  }

  /** The loop of `validateActions`; `step(i)` is what round `i` reports. */
  method ValidateEachAction(errs: ValidationErrors, actions: seq<Action>, ghost start: seq<Problem>,
                            ghost names: seq<string>, ghost step: nat -> seq<Problem>)
    returns (actionNames: map<string, nat>)
    requires start == errs.messages && names == ActionNames(actions)
    requires forall i: nat | i < |actions| :: step(i) == ActionNameProblems(names, i) + ActionProblems(i, actions[i])
    modifies errs
    ensures errs.messages == start + Collect(|actions|, step)
    ensures FirstPositions(actionNames, names, |actions|)
  {
    ghost var reported := [];
    actionNames := map[];
    NoPositions(names);
    for i := 0 to |actions|
      invariant errs.messages == start + reported && reported == Collect(i, step)
      invariant FirstPositions(actionNames, names, i)
    {
      ghost var more := step(i);
      actionNames := ValidateNamedAction(errs, actions, i, actionNames, names);
      TwoAppended(start, reported, more);
      reported := reported + more;
    }
  }

  method ValidateNamedAction(errs: ValidationErrors, actions: seq<Action>, i: nat, actionNames: map<string, nat>,
                             ghost names: seq<string>)
    returns (longer: map<string, nat>)
    requires names == ActionNames(actions) && i < |actions| && FirstPositions(actionNames, names, i)
    modifies errs
    ensures errs.messages == old(errs.messages) + (ActionNameProblems(names, i) + ActionProblems(i, actions[i]))
    ensures FirstPositions(longer, names, i + 1)
  {
    ghost var start := errs.messages;
    longer := CheckActionName(errs, ActionNames(actions), i, actionNames);
    ValidateAction(errs, i, actions[i]);
    TwoAppended(start, ActionNameProblems(names, i), ActionProblems(i, actions[i]));
  }

  method CheckActionName(errs: ValidationErrors, names: seq<string>, i: nat, actionNames: map<string, nat>)
    returns (longer: map<string, nat>)
    requires i < |names| && FirstPositions(actionNames, names, i)
    modifies errs
    ensures errs.messages == old(errs.messages) + ActionNameProblems(names, i)
    ensures FirstPositions(longer, names, i + 1)
  {
    longer := actionNames;
    if names[i] == "" {
      errs.Add(ActionNameRequired(i));
    } else if names[i] in actionNames {
      errs.Add(ActionNameDuplicates(i, actionNames[names[i]], names[i]));
    } else {
      longer := actionNames[names[i] := i];
    }
    PositionsExtend(actionNames, names, i, longer);
  }

  method ValidateAction(errs: ValidationErrors, i: nat, action: Action)
    modifies errs
    ensures errs.messages == old(errs.messages) + ActionProblems(i, action)
  {
    ghost var p := ActionParts(i, action);
    SixAppended(errs.messages, p);
    errs.AddIf((|action.command| > 0) == !IsBlank(action.shellCommand), NotExactlyOneCommand(i));
    ValidateCommand(errs, i, action.command);
    ValidatePolicy(errs, i, action.policy);
    errs.AddIf(action.maxOutputBytes < 0, MaxOutputNegative(i));
    errs.AddIf('\0' in action.cwd, CwdContainsNul(i));
    ValidateEnv(errs, i, action.env, SortedKeys(action.env.Keys));
  }

  lemma SixAppended(start: seq<Problem>, p: seq<seq<Problem>>)
    requires |p| == 6
    ensures start + p[0] + p[1] + p[2] + p[3] + p[4] + p[5] == start + Flatten(p)
  {
    assert start + Flatten(p[..0]) == start;
    PartAppended(start, p, 0);
    PartAppended(start, p, 1);
    PartAppended(start, p, 2);
    PartAppended(start, p, 3);
    PartAppended(start, p, 4);
    PartAppended(start, p, 5);
    assert p[..6] == p;
  }

  lemma PartAppended(start: seq<Problem>, parts: seq<seq<Problem>>, k: nat)
    requires k < |parts|
    ensures start + Flatten(parts[..k]) + parts[k] == start + Flatten(parts[..k + 1])
  {
    FlattenNext(parts, k);
    TwoAppended(start, Flatten(parts[..k]), parts[k]);
  }

  method ValidatePolicy(errs: ValidationErrors, i: nat, policy: Policy)
    modifies errs
    ensures errs.messages == old(errs.messages) + PolicyProblems(i, policy)
  {
    if policy.OtherPolicy? {
      if policy.text == "" { errs.Add(PolicyRequired(i)); } else { errs.Add(PolicyUnknown(i)); }
    }
  }

  method ValidateCommand(errs: ValidationErrors, i: nat, command: seq<string>)
    modifies errs
    ensures errs.messages == old(errs.messages) + Collect(|command|, CommandStep(i, command))
  {
    ValidateEachArgument(errs, i, command, errs.messages, CommandStep(i, command));
  }

  method ValidateEachArgument(errs: ValidationErrors, i: nat, command: seq<string>, ghost start: seq<Problem>,
                              ghost step: nat -> seq<Problem>)
    requires start == errs.messages
    requires forall k: nat | k < |command| ::
               step(k) == if IsBlank(command[k]) then [CommandArgumentEmpty(i, k)] else []
    modifies errs
    ensures errs.messages == start + Collect(|command|, step)
  {
    ghost var reported := [];
    for k := 0 to |command|
      invariant errs.messages == start + reported && reported == Collect(k, step)
    {
      ghost var more := step(k);
      errs.AddIf(IsBlank(command[k]), CommandArgumentEmpty(i, k));
      TwoAppended(start, reported, more);
      reported := reported + more;
    }
  }

  /** `validateEnv`, given its sorted keys. */
  method ValidateEnv(errs: ValidationErrors, i: nat, env: map<string, string>, keys: seq<string>)
    requires forall k :: k in keys ==> k in env
    modifies errs
    ensures errs.messages == old(errs.messages) + Collect(|keys|, EnvStep(i, env, keys))
  {
    ValidateEachEntry(errs, i, env, keys, errs.messages, EnvStep(i, env, keys));
  }

  method ValidateEachEntry(errs: ValidationErrors, i: nat, env: map<string, string>, keys: seq<string>,
                           ghost start: seq<Problem>, ghost step: nat -> seq<Problem>)
    requires start == errs.messages && forall k :: k in keys ==> k in env
    requires forall k: nat | k < |keys| :: step(k) == EnvKeyProblems(i, keys[k], env[keys[k]])
    modifies errs
    ensures errs.messages == start + Collect(|keys|, step)
  {
    ghost var reported := [];
    for k := 0 to |keys|
      invariant errs.messages == start + reported && reported == Collect(k, step)
    {
      ghost var more := step(k);
      ValidateEnvEntry(errs, i, keys[k], env[keys[k]]);
      TwoAppended(start, reported, more);
      reported := reported + more;
    }
  }

  method ValidateEnvEntry(errs: ValidationErrors, i: nat, key: string, value: string)
    modifies errs
    ensures errs.messages == old(errs.messages) + EnvKeyProblems(i, key, value)
  {
    if IsBlank(key) {
      errs.Add(EnvKeyEmpty(i));
    } else if '=' in key {
      errs.Add(EnvKeyContainsEquals(i, key));
    } else if '\0' in key {
      errs.Add(EnvKeyContainsNul(i, key));
    } else if '\0' in value {
      errs.Add(EnvValueContainsNul(i, key));
    }
  }

  method ValidateTokens(errs: ValidationErrors, tokens: seq<Token>, actionNames: map<string, nat>,
                        ghost known: seq<string>, tokenFormat: string -> bool)
    requires FirstPositions(actionNames, known, |known|)
    modifies errs
    ensures errs.messages == old(errs.messages) + Collect(|tokens|, TokenStep(tokens, known, tokenFormat))
  {
    ValidateEachToken(errs, tokens, actionNames, known, tokenFormat, errs.messages, TokenNames(tokens),
                      TokenStep(tokens, known, tokenFormat));
  }

  /** The loop of `validateTokens`; `step(i)` is what round `i` reports. */
  method ValidateEachToken(errs: ValidationErrors, tokens: seq<Token>, actionNames: map<string, nat>,
                           ghost known: seq<string>, tokenFormat: string -> bool, ghost start: seq<Problem>,
                           ghost names: seq<string>, ghost step: nat -> seq<Problem>)
    requires start == errs.messages && names == TokenNames(tokens)
    requires forall i: nat | i < |tokens| ::
               step(i) == TokenNameProblems(names, i) + TokenProblems(i, tokens[i], known, tokenFormat)
    requires FirstPositions(actionNames, known, |known|)
    modifies errs
    ensures errs.messages == start + Collect(|tokens|, step)
  {
    ghost var reported := [];
    var tokenNames: map<string, nat> := map[];
    NoPositions(names);
    for i := 0 to |tokens|
      invariant errs.messages == start + reported && reported == Collect(i, step)
      invariant FirstPositions(tokenNames, names, i)
    {
      ghost var more := step(i);
      tokenNames := ValidateNamedToken(errs, tokens, i, tokenNames, actionNames, known, tokenFormat, names);
      TwoAppended(start, reported, more);
      reported := reported + more;
    }
  }

  method ValidateNamedToken(errs: ValidationErrors, tokens: seq<Token>, i: nat, tokenNames: map<string, nat>,
                            actionNames: map<string, nat>, ghost known: seq<string>, tokenFormat: string -> bool,
                            ghost names: seq<string>)
    returns (longer: map<string, nat>)
    requires names == TokenNames(tokens) && i < |tokens| && FirstPositions(tokenNames, names, i)
    requires FirstPositions(actionNames, known, |known|)
    modifies errs
    ensures errs.messages ==
            old(errs.messages) + (TokenNameProblems(names, i) + TokenProblems(i, tokens[i], known, tokenFormat))
    ensures FirstPositions(longer, names, i + 1)
  {
    ghost var start := errs.messages;
    longer := CheckTokenName(errs, TokenNames(tokens), i, tokenNames);
    ValidateToken(errs, i, tokens[i], actionNames, known, tokenFormat);
    TwoAppended(start, TokenNameProblems(names, i), TokenProblems(i, tokens[i], known, tokenFormat));
  }

  method CheckTokenName(errs: ValidationErrors, names: seq<string>, i: nat, tokenNames: map<string, nat>)
    returns (longer: map<string, nat>)
    requires i < |names| && FirstPositions(tokenNames, names, i)
    modifies errs
    ensures errs.messages == old(errs.messages) + TokenNameProblems(names, i)
    ensures FirstPositions(longer, names, i + 1)
  {
    longer := tokenNames;
    if names[i] == "" {
      errs.Add(TokenNameRequired(i));
    } else if names[i] in tokenNames {
      errs.Add(TokenNameDuplicates(i, tokenNames[names[i]], names[i]));
    } else {
      longer := tokenNames[names[i] := i];
    }
    PositionsExtend(tokenNames, names, i, longer);
  }

  method ValidateToken(errs: ValidationErrors, i: nat, token: Token, actionNames: map<string, nat>,
                       ghost known: seq<string>, tokenFormat: string -> bool)
    requires FirstPositions(actionNames, known, |known|)
    modifies errs
    ensures errs.messages == old(errs.messages) + TokenProblems(i, token, known, tokenFormat)
  {
    ValidateTokenValue(errs, i, token.value, tokenFormat);
    ValidateScope(errs, i, token.actions, actionNames, known);
  }

  method ValidateTokenValue(errs: ValidationErrors, i: nat, value: string, tokenFormat: string -> bool)
    modifies errs
    ensures errs.messages == old(errs.messages) + TokenValueProblems(i, value, tokenFormat)
  {
    if value == "" {
      errs.Add(TokenValueRequired(i));
    } else if !tokenFormat(value) {
      errs.Add(TokenValueInvalid(i));
    }
  }

  method ValidateScope(errs: ValidationErrors, i: nat, scope: seq<string>, actionNames: map<string, nat>,
                       ghost known: seq<string>)
    requires FirstPositions(actionNames, known, |known|)
    modifies errs
    ensures errs.messages == old(errs.messages) + Collect(|scope|, ScopeStep(i, scope, known))
  {
    ValidateEachScopeItem(errs, i, scope, actionNames, known, errs.messages, ScopeStep(i, scope, known));
  }

  /** The inner loop of `validateTokens`; `step(k)` is what round `k` reports. */
  method ValidateEachScopeItem(errs: ValidationErrors, i: nat, scope: seq<string>, actionNames: map<string, nat>,
                               ghost known: seq<string>, ghost start: seq<Problem>, ghost step: nat -> seq<Problem>)
    requires start == errs.messages && FirstPositions(actionNames, known, |known|)
    requires forall k: nat | k < |scope| :: step(k) == ScopeItemProblems(i, scope, k, known)
    modifies errs
    ensures errs.messages == start + Collect(|scope|, step)
  {
    ghost var reported := [];
    var seenActions: map<string, nat> := map[];
    NoPositions(scope);
    for k := 0 to |scope|
      invariant errs.messages == start + reported && reported == Collect(k, step)
      invariant FirstPositions(seenActions, scope, k)
    {
      ghost var more := step(k);
      seenActions := CheckScopeItem(errs, i, scope, k, seenActions, actionNames, known);
      TwoAppended(start, reported, more);
      reported := reported + more;
    }
  }

  method CheckScopeItem(errs: ValidationErrors, i: nat, scope: seq<string>, k: nat, seenActions: map<string, nat>,
                        actionNames: map<string, nat>, ghost known: seq<string>)
    returns (longer: map<string, nat>)
    requires k < |scope| && FirstPositions(seenActions, scope, k) && FirstPositions(actionNames, known, |known|)
    modifies errs
    ensures errs.messages == old(errs.messages) + ScopeItemProblems(i, scope, k, known)
    ensures FirstPositions(longer, scope, k + 1)
  {
    var actionName := scope[k];
    longer := seenActions;
    if actionName == "" {
      errs.Add(ScopeEmpty(i, k));
    } else if actionName in seenActions {
      errs.Add(ScopeDuplicates(i, k, seenActions[actionName], actionName));
    } else {
      longer := seenActions[actionName := k];
      if actionName !in actionNames { errs.Add(ScopeUnknown(i, k, actionName)); }
    }
    PositionsExtend(seenActions, scope, k, longer);
  }

  lemma FourAppended(a: seq<Problem>, b: seq<Problem>, c: seq<Problem>, d: seq<Problem>)
    ensures [] + a + b + c + d == a + b + c + d
  {
  }

  method Validate(c: Config, tokenFormat: string -> bool) returns (problems: seq<Problem>)
    ensures problems == Problems(c, tokenFormat)
  {
    var errs := new ValidationErrors();
    FourAppended(ServerProblems(c.server), StorageProblems(c.storage), Collect(|c.actions|, ActionStep(c.actions)),
                 Collect(|c.tokens|, TokenStep(c.tokens, ActionNames(c.actions), tokenFormat)));
    ValidateServer(errs, c.server);
    ValidateStorage(errs, c.storage);
    var actionNames := ValidateActions(errs, c.actions);
    ValidateTokens(errs, c.tokens, actionNames, ActionNames(c.actions), tokenFormat);
    problems := errs.messages;
  }
}
