/** Validation reports no problem exactly for the well-formed configurations. */
module ValidationExact {
  import opened Prelude
  import opened Text
  import opened Records
  import opened Environment
  import opened Config

  /** Names are distinct exactly when each is its own first use. */
  lemma {:induction false} DistinctByFirstUse(names: seq<string>)
    ensures DistinctNonempty(names) <==>
            forall i: nat | i < |names| :: names[i] != "" && FirstUse(names, names[i]) == i
  {
  }

  lemma {:induction false} CommandExact(i: nat, command: seq<string>)
    ensures Collect(|command|, CommandStep(i, command)) == [] <==> forall arg :: arg in command ==> !IsBlank(arg)
  {
    CollectEmpty(|command|, CommandStep(i, command));
    assert forall k: nat | k < |command| :: CommandStep(i, command)(k) == [] <==> !IsBlank(command[k]);
  }

  lemma EnvKeyExact(i: nat, key: string, value: string)
    ensures EnvKeyProblems(i, key, value) == [] <==> EnvEntryWellFormed(key, value)
  {
  }

  lemma {:induction false} EnvExact(i: nat, env: map<string, string>, keys: seq<string>)
    requires forall k :: k in keys <==> k in env
    ensures Collect(|keys|, EnvStep(i, env, keys)) == [] <==> EnvWellFormed(env)
  {
    CollectEmpty(|keys|, EnvStep(i, env, keys));
    forall k: nat | k < |keys| ensures EnvStep(i, env, keys)(k) == [] <==> EnvEntryWellFormed(keys[k], env[keys[k]]) {
      EnvKeyExact(i, keys[k], env[keys[k]]);
    }
  }

  lemma ActionExact(i: nat, a: Action)
    ensures ActionProblems(i, a) == [] <==> ActionWellFormed(a)
  {
    var parts := ActionParts(i, a);
    AllSixEmpty(parts[0], parts[1], parts[2], parts[3], parts[4], parts[5]);
    assert parts == [parts[0], parts[1], parts[2], parts[3], parts[4], parts[5]];
    CommandExact(i, a.command);
    EnvExact(i, a.env, SortedKeys(a.env.Keys));
  }

  lemma {:induction false} AllSixEmpty(a: seq<Problem>, b: seq<Problem>, c: seq<Problem>, d: seq<Problem>,
                                       e: seq<Problem>, f: seq<Problem>)
    ensures Flatten([a, b, c, d, e, f]) == [] <==> a == [] && b == [] && c == [] && d == [] && e == [] && f == []
  {
    var all := [a, b, c, d, e, f];
    FlattenEmpty(all);
    assert all[0] == a && all[1] == b && all[2] == c && all[3] == d && all[4] == e && all[5] == f;
  }

  lemma {:induction false} ActionStepExact(actions: seq<Action>, i: nat)
    requires i < |actions|
    ensures ActionStep(actions)(i) == [] <==>
            && actions[i].name != "" && FirstUse(ActionNames(actions), actions[i].name) == i
            && ActionWellFormed(actions[i])
  {
    ActionExact(i, actions[i]);
    assert FirstUse(ActionNames(actions), ActionNames(actions)[i]) <= i;
  }

  lemma {:induction false} ActionsExact(actions: seq<Action>)
    ensures Collect(|actions|, ActionStep(actions)) == [] <==>
            DistinctNonempty(ActionNames(actions)) && forall a :: a in actions ==> ActionWellFormed(a)
  {
    var step, names := ActionStep(actions), ActionNames(actions);
    CollectEmpty(|actions|, step);
    DistinctByFirstUse(names);
    forall i: nat | i < |actions|
      ensures step(i) == [] <==>
              names[i] != "" && FirstUse(names, names[i]) == i && ActionWellFormed(actions[i])
    {
      ActionStepExact(actions, i);
    }
  }

  lemma {:induction false} ScopeExact(i: nat, scope: seq<string>, known: seq<string>)
    ensures Collect(|scope|, ScopeStep(i, scope, known)) == [] <==>
            DistinctNonempty(scope) && forall name :: name in scope ==> name in known
  {
    var step := ScopeStep(i, scope, known);
    CollectEmpty(|scope|, step);
    DistinctByFirstUse(scope);
    forall k: nat | k < |scope|
      ensures step(k) == [] <==> scope[k] != "" && FirstUse(scope, scope[k]) == k && scope[k] in known
    {
      ScopeItemExact(i, scope, k, known);
    }
  }

  lemma {:induction false} ScopeItemExact(i: nat, scope: seq<string>, k: nat, known: seq<string>)
    requires k < |scope|
    ensures ScopeItemProblems(i, scope, k, known) == [] <==>
            scope[k] != "" && FirstUse(scope, scope[k]) == k && scope[k] in known
  {
    assert FirstUse(scope, scope[k]) <= k;
  }

  lemma {:induction false} TokenExact(i: nat, t: Token, known: seq<string>, tokenFormat: string -> bool)
    ensures TokenProblems(i, t, known, tokenFormat) == [] <==> TokenWellFormed(t, known, tokenFormat)
  {
    ScopeExact(i, t.actions, known);
  }

  lemma {:induction false} TokensExact(tokens: seq<Token>, known: seq<string>, tokenFormat: string -> bool)
    ensures Collect(|tokens|, TokenStep(tokens, known, tokenFormat)) == [] <==>
            DistinctNonempty(TokenNames(tokens)) && forall t :: t in tokens ==> TokenWellFormed(t, known, tokenFormat)
  {
    var step, names := TokenStep(tokens, known, tokenFormat), TokenNames(tokens);
    CollectEmpty(|tokens|, step);
    DistinctByFirstUse(names);
    forall i: nat | i < |tokens|
      ensures step(i) == [] <==>
              names[i] != "" && FirstUse(names, names[i]) == i && TokenWellFormed(tokens[i], known, tokenFormat)
    {
      TokenStepExact(tokens, known, tokenFormat, i);
    }
  }

  lemma {:induction false} TokenStepExact(tokens: seq<Token>, known: seq<string>, tokenFormat: string -> bool, i: nat)
    requires i < |tokens|
    ensures TokenStep(tokens, known, tokenFormat)(i) == [] <==>
            && tokens[i].name != "" && FirstUse(TokenNames(tokens), tokens[i].name) == i
            && TokenWellFormed(tokens[i], known, tokenFormat)
  {
    TokenExact(i, tokens[i], known, tokenFormat);
    assert FirstUse(TokenNames(tokens), TokenNames(tokens)[i]) <= i;
  }

  lemma ServerAndStorageExact(server: ServerConfig, storage: StorageConfig)
    ensures ServerProblems(server) == [] <==> !IsBlank(server.listen) && server.logFormat in {"json", "text"}
    ensures StorageProblems(storage) == [] <==>
            !IsBlank(storage.path) && storage.retentionDays >= 0 && storage.maxRuns >= 0
  {
  }

  lemma {:induction false} AllFourEmpty(a: seq<Problem>, b: seq<Problem>, c: seq<Problem>, d: seq<Problem>)
    ensures a + b + c + d == [] <==> a == [] && b == [] && c == [] && d == []
  {
  }

  lemma {:induction false} ValidateExact(c: Config, tokenFormat: string -> bool)
    ensures Problems(c, tokenFormat) == [] <==> WellFormed(c, tokenFormat)
  {
    var known := ActionNames(c.actions);
    AllFourEmpty(ServerProblems(c.server), StorageProblems(c.storage), Collect(|c.actions|, ActionStep(c.actions)),
                 Collect(|c.tokens|, TokenStep(c.tokens, known, tokenFormat)));
    ServerAndStorageExact(c.server, c.storage);
    ActionsExact(c.actions);
    TokensExact(c.tokens, known, tokenFormat);
  }

  lemma {:induction false} CommandHasNone(i: nat, command: seq<string>, p: Problem)
    requires p.ActionNameDuplicates?
    ensures p !in Collect(|command|, CommandStep(i, command))
  {
    CollectMember(|command|, CommandStep(i, command), p);
  }

  lemma {:induction false} EnvHasNone(i: nat, env: map<string, string>, keys: seq<string>, p: Problem)
    requires p.ActionNameDuplicates?
    ensures p !in Collect(|keys|, EnvStep(i, env, keys))
  {
    CollectMember(|keys|, EnvStep(i, env, keys), p);
    forall k: nat | k < |keys| && keys[k] in env ensures p !in EnvStep(i, env, keys)(k) {
      EnvKeyHasNone(i, keys[k], env[keys[k]], p);
    }
  }

  lemma EnvKeyHasNone(i: nat, key: string, value: string, p: Problem)
    requires p.ActionNameDuplicates?
    ensures p !in EnvKeyProblems(i, key, value)
  {
  }

  lemma OnlyFieldProblems(i: nat, a: Action, p: Problem)
    requires p.ActionNameDuplicates?
    ensures p !in ActionProblems(i, a)
  {
    var parts := ActionParts(i, a);
    CommandHasNone(i, a.command, p);
    EnvHasNone(i, a.env, SortedKeys(a.env.Keys), p);
    InNoneOfSix(parts[0], parts[1], parts[2], parts[3], parts[4], parts[5], p);
    assert parts == [parts[0], parts[1], parts[2], parts[3], parts[4], parts[5]];
  }

  lemma {:induction false} InNoneOfSix(a: seq<Problem>, b: seq<Problem>, c: seq<Problem>, d: seq<Problem>,
                                       e: seq<Problem>, f: seq<Problem>, p: Problem)
    requires p !in a && p !in b && p !in c && p !in d && p !in e && p !in f
    ensures p !in Flatten([a, b, c, d, e, f])
  {
    FlattenMember([a, b, c, d, e, f], p);
  }

  /** Position `i` repeats `name`, which first occurs at `first`. */
  ghost predicate Repeats(names: seq<string>, i: nat, first: nat, name: string) {
    && first < i < |names| && name != ""
    && names[i] == name && names[first] == name
    && (forall j | 0 <= j < first :: names[j] != name)
  }

  lemma {:induction false} DuplicateAt(names: seq<string>, i: nat, p: Problem)
    requires i < |names| && p.ActionNameDuplicates?
    ensures Count(ActionNameProblems(names, i), p) ==
            if p.action == i && Repeats(names, i, p.first, p.name) then 1 else 0
  {
  }

  lemma {:induction false} ActionStepDuplicates(actions: seq<Action>, i: nat, p: Problem)
    requires i < |actions| && p.ActionNameDuplicates?
    ensures Count(ActionStep(actions)(i), p) ==
            if i == p.action && Repeats(ActionNames(actions), p.action, p.first, p.name) then 1 else 0
  {
    OnlyFieldProblems(i, actions[i], p);
    DuplicateAt(ActionNames(actions), i, p);
    CountAppended(ActionNameProblems(ActionNames(actions), i), ActionProblems(i, actions[i]), p);
  }

  /** A repeated action name is reported exactly once for each repetition, against its first use. */
  lemma {:induction false} DuplicatesNameFirstUse(actions: seq<Action>, p: Problem)
    requires p.ActionNameDuplicates?
    ensures Count(Collect(|actions|, ActionStep(actions)), p) ==
            if Repeats(ActionNames(actions), p.action, p.first, p.name) then 1 else 0
  {
    var step, repeats := ActionStep(actions), Repeats(ActionNames(actions), p.action, p.first, p.name);
    forall i: nat | i < |actions| ensures Count(step(i), p) == if i == p.action && repeats then 1 else 0 {
      ActionStepDuplicates(actions, i, p);
    }
    CountCollected(|actions|, step, p, p.action, repeats);
  }

  lemma {:induction false} ScopeHasNone(i: nat, scope: seq<string>, known: seq<string>, p: Problem)
    requires p.TokenNameDuplicates?
    ensures p !in Collect(|scope|, ScopeStep(i, scope, known))
  {
    var step := ScopeStep(i, scope, known);
    forall k: nat | k < |scope| ensures p !in step(k) { ScopeItemHasNone(i, scope, k, known, p); }
    CollectMember(|scope|, step, p);
  }

  lemma {:induction false} ScopeItemHasNone(i: nat, scope: seq<string>, k: nat, known: seq<string>, p: Problem)
    requires k < |scope| && p.TokenNameDuplicates?
    ensures p !in ScopeItemProblems(i, scope, k, known)
  {
  }

  lemma {:induction false} TokenDuplicateAt(names: seq<string>, i: nat, p: Problem)
    requires i < |names| && p.TokenNameDuplicates?
    ensures Count(TokenNameProblems(names, i), p) == if p.token == i && Repeats(names, i, p.first, p.name) then 1 else 0
  {
  }

  lemma {:induction false} TokenStepDuplicates(tokens: seq<Token>, known: seq<string>, tokenFormat: string -> bool,
                                               i: nat, p: Problem)
    requires i < |tokens| && p.TokenNameDuplicates?
    ensures Count(TokenStep(tokens, known, tokenFormat)(i), p) ==
            if i == p.token && Repeats(TokenNames(tokens), p.token, p.first, p.name) then 1 else 0
  {
    ScopeHasNone(i, tokens[i].actions, known, p);
    TokenDuplicateAt(TokenNames(tokens), i, p);
    CountAppended(TokenNameProblems(TokenNames(tokens), i), TokenProblems(i, tokens[i], known, tokenFormat), p);
  }

  /** A repeated token name is reported exactly once for each repetition, against its first use. */
  lemma {:induction false} TokenDuplicatesNameFirstUse(tokens: seq<Token>, known: seq<string>,
                                                       tokenFormat: string -> bool, p: Problem)
    requires p.TokenNameDuplicates?
    ensures Count(Collect(|tokens|, TokenStep(tokens, known, tokenFormat)), p) ==
            if Repeats(TokenNames(tokens), p.token, p.first, p.name) then 1 else 0
  {
    var step, repeats := TokenStep(tokens, known, tokenFormat), Repeats(TokenNames(tokens), p.token, p.first, p.name);
    forall i: nat | i < |tokens| ensures Count(step(i), p) == if i == p.token && repeats then 1 else 0 {
      TokenStepDuplicates(tokens, known, tokenFormat, i, p);
    }
    CountCollected(|tokens|, step, p, p.token, repeats);
  }

  lemma {:induction false} ScopeItemDuplicates(i: nat, scope: seq<string>, k: nat, known: seq<string>, p: Problem)
    requires k < |scope| && p.ScopeDuplicates?
    ensures Count(ScopeItemProblems(i, scope, k, known), p) ==
            if k == p.item && p.token == i && Repeats(scope, p.item, p.first, p.name) then 1 else 0
  {
    assert FirstUse(scope, scope[k]) <= k;
  }

  lemma {:induction false} ScopeDuplicateAt(i: nat, scope: seq<string>, known: seq<string>, p: Problem)
    requires p.ScopeDuplicates?
    ensures Count(Collect(|scope|, ScopeStep(i, scope, known)), p) ==
            if p.token == i && Repeats(scope, p.item, p.first, p.name) then 1 else 0
  {
    var step, repeats := ScopeStep(i, scope, known), p.token == i && Repeats(scope, p.item, p.first, p.name);
    forall k: nat | k < |scope| ensures Count(step(k), p) == if k == p.item && repeats then 1 else 0 {
      ScopeItemDuplicates(i, scope, k, known, p);
    }
    CountCollected(|scope|, step, p, p.item, repeats);
  }

  lemma {:induction false} ScopeStepDuplicates(tokens: seq<Token>, known: seq<string>, tokenFormat: string -> bool,
                                               i: nat, p: Problem)
    requires i < |tokens| && p.ScopeDuplicates?
    ensures Count(TokenStep(tokens, known, tokenFormat)(i), p) ==
            if i == p.token && Repeats(tokens[i].actions, p.item, p.first, p.name) then 1 else 0
  {
    var token, names := tokens[i], TokenNameProblems(TokenNames(tokens), i);
    var value := TokenValueProblems(i, token.value, tokenFormat);
    var scope := Collect(|token.actions|, ScopeStep(i, token.actions, known));
    ScopeDuplicateAt(i, token.actions, known, p);
    CountAppended(value, scope, p);
    CountAppended(names, value + scope, p);
  }

  /** A repeated name in a token's scope is reported exactly once for each repetition, against its first use there. */
  lemma {:induction false} ScopeDuplicatesNameFirstUse(tokens: seq<Token>, known: seq<string>,
                                                       tokenFormat: string -> bool, p: Problem)
    requires p.ScopeDuplicates?
    ensures Count(Collect(|tokens|, TokenStep(tokens, known, tokenFormat)), p) ==
            if p.token < |tokens| && Repeats(tokens[p.token].actions, p.item, p.first, p.name) then 1 else 0
  {
    var step := TokenStep(tokens, known, tokenFormat);
    var repeats := p.token < |tokens| && Repeats(tokens[p.token].actions, p.item, p.first, p.name);
    forall i: nat | i < |tokens| ensures Count(step(i), p) == if i == p.token && repeats then 1 else 0 {
      ScopeStepDuplicates(tokens, known, tokenFormat, i, p);
    }
    CountCollected(|tokens|, step, p, p.token, repeats);
  }
}
