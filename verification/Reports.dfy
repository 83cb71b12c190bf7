/** Every problem that is reported holds of the configuration, every one that holds is reported, and in which order. */
module Reports {
  import opened Prelude
  import opened Text
  import opened Records
  import opened Environment
  import opened Config
  import opened ValidationExact
  import opened Loading

  /** The problem, if any, of one environment entry of action `i`. */
  ghost predicate EntryFault(i: nat, key: string, value: string, p: Problem) {
    || (p == EnvKeyEmpty(i) && IsBlank(key))
    || (p == EnvKeyContainsEquals(i, key) && !IsBlank(key) && '=' in key)
    || (p == EnvKeyContainsNul(i, key) && !IsBlank(key) && '=' !in key && '\0' in key)
    || (p == EnvValueContainsNul(i, key) && !IsBlank(key) && '=' !in key && '\0' !in key && '\0' in value)
  }

  /** `p` is what is wrong with a field of action `a`, which stands at position `i`. */
  ghost predicate FieldFault(i: nat, a: Action, p: Problem) {
    || (p == NotExactlyOneCommand(i) && (a.command != [] <==> !IsBlank(a.shellCommand)))
    || (p.CommandArgumentEmpty? && p.action == i && p.arg < |a.command| && IsBlank(a.command[p.arg]))
    || (p == PolicyRequired(i) && a.policy == OtherPolicy(""))
    || (p == PolicyUnknown(i) && a.policy.OtherPolicy? && a.policy.text != "")
    || (p == MaxOutputNegative(i) && a.maxOutputBytes < 0)
    || (p == CwdContainsNul(i) && '\0' in a.cwd)
    || (exists key :: key in a.env && EntryFault(i, key, a.env[key], p))
  }

  ghost predicate ActionFault(actions: seq<Action>, i: nat, p: Problem)
    requires i < |actions|
  {
    || FieldFault(i, actions[i], p)
    || (p == ActionNameRequired(i) && actions[i].name == "")
    || (p.ActionNameDuplicates? && p.action == i && Repeats(ActionNames(actions), i, p.first, p.name))
  }

  ghost predicate TokenFault(tokens: seq<Token>, known: seq<string>, tokenFormat: string -> bool, i: nat, p: Problem)
    requires i < |tokens|
  {
    var t := tokens[i];
    match p
    case TokenNameRequired(n) => n == i && t.name == ""
    case TokenNameDuplicates(n, first, name) => n == i && Repeats(TokenNames(tokens), i, first, name)
    case TokenValueRequired(n) => n == i && t.value == ""
    case TokenValueInvalid(n) => n == i && t.value != "" && !tokenFormat(t.value)
    case ScopeEmpty(n, k) => n == i && k < |t.actions| && t.actions[k] == ""
    case ScopeDuplicates(n, k, first, name) => n == i && Repeats(t.actions, k, first, name)
    case ScopeUnknown(n, k, name) =>
      && n == i && k < |t.actions| && t.actions[k] == name && name != "" && name !in known
      && (forall j | 0 <= j < k :: t.actions[j] != name)
    case _ => false
  }

  ghost predicate SettingFault(c: Config, p: Problem) {
    match p
    case ListenRequired => IsBlank(c.server.listen)
    case LogFormatRequired => c.server.logFormat == ""
    case LogFormatUnknown => c.server.logFormat !in {"", "json", "text"}
    case StoragePathRequired => IsBlank(c.storage.path)
    case RetentionDaysNegative => c.storage.retentionDays < 0
    case MaxRunsNegative => c.storage.maxRuns < 0
    case _ => false
  }

  /** `p` holds of `c`. */
  ghost predicate Justified(c: Config, tokenFormat: string -> bool, p: Problem) {
    || SettingFault(c, p)
    || (exists i: nat :: i < |c.actions| && ActionFault(c.actions, i, p))
    || (exists i: nat :: i < |c.tokens| && TokenFault(c.tokens, ActionNames(c.actions), tokenFormat, i, p))
  }

  // ---- actions ----

  lemma {:induction false} ArgumentsReported(i: nat, command: seq<string>, p: Problem)
    ensures p in Collect(|command|, CommandStep(i, command)) <==>
            p.CommandArgumentEmpty? && p.action == i && p.arg < |command| && IsBlank(command[p.arg])
  {
    var step := CommandStep(i, command);
    CollectMember(|command|, step, p);
    if p.CommandArgumentEmpty? && p.arg < |command| && IsBlank(command[p.arg]) && p.action == i {
      assert p in step(p.arg);
    }
  }

  lemma EntryReported(i: nat, key: string, value: string, p: Problem)
    ensures p in EnvKeyProblems(i, key, value) <==> EntryFault(i, key, value, p)
  {
  }

  lemma {:induction false} EnvironmentReported(i: nat, env: map<string, string>, keys: seq<string>, p: Problem)
    requires forall k :: k in keys <==> k in env
    ensures p in Collect(|keys|, EnvStep(i, env, keys)) <==>
            exists key :: key in env && EntryFault(i, key, env[key], p)
  {
    var step := EnvStep(i, env, keys);
    CollectMember(|keys|, step, p);
    forall k: nat | k < |keys| ensures p in step(k) <==> EntryFault(i, keys[k], env[keys[k]], p) {
      EntryReported(i, keys[k], env[keys[k]], p);
    }
    if key :| key in env && EntryFault(i, key, env[key], p) {
      var k: nat :| k < |keys| && keys[k] == key;
      assert p in step(k);
    }
  }

  lemma {:induction false} InOneOfSix(a: seq<Problem>, b: seq<Problem>, c: seq<Problem>, d: seq<Problem>,
                                      e: seq<Problem>, f: seq<Problem>, p: Problem)
    ensures p in Flatten([a, b, c, d, e, f]) <==> p in a || p in b || p in c || p in d || p in e || p in f
  {
    var all := [a, b, c, d, e, f];
    FlattenMember(all, p);
    assert all[0] == a && all[1] == b && all[2] == c && all[3] == d && all[4] == e && all[5] == f;
  }

  lemma PolicyReported(i: nat, policy: Policy, p: Problem)
    ensures p in PolicyProblems(i, policy) <==>
            || (p == PolicyRequired(i) && policy == OtherPolicy(""))
            || (p == PolicyUnknown(i) && policy.OtherPolicy? && policy.text != "")
  {
  }

  lemma FieldsReported(i: nat, a: Action, p: Problem)
    ensures p in ActionProblems(i, a) <==> FieldFault(i, a, p)
  {
    var parts := ActionParts(i, a);
    ArgumentsReported(i, a.command, p);
    PolicyReported(i, a.policy, p);
    EnvironmentReported(i, a.env, SortedKeys(a.env.Keys), p);
    InOneOfSix(parts[0], parts[1], parts[2], parts[3], parts[4], parts[5], p);
    assert parts == [parts[0], parts[1], parts[2], parts[3], parts[4], parts[5]];
  }

  lemma {:induction false} NameReported(names: seq<string>, i: nat, p: Problem)
    requires i < |names|
    ensures p in ActionNameProblems(names, i) <==>
            || (p == ActionNameRequired(i) && names[i] == "")
            || (p.ActionNameDuplicates? && p.action == i && Repeats(names, i, p.first, p.name))
  {
    assert FirstUse(names, names[i]) <= i;
  }

  lemma {:induction false} ActionReported(actions: seq<Action>, i: nat, p: Problem)
    requires i < |actions|
    ensures p in ActionStep(actions)(i) <==> ActionFault(actions, i, p)
  {
    var names, fields := ActionNameProblems(ActionNames(actions), i), ActionProblems(i, actions[i]);
    NameReported(ActionNames(actions), i, p);
    FieldsReported(i, actions[i], p);
    assert ActionStep(actions)(i) == names + fields;
  }

  lemma {:induction false} ActionsReported(actions: seq<Action>, p: Problem)
    ensures p in Collect(|actions|, ActionStep(actions)) <==>
            exists i: nat :: i < |actions| && ActionFault(actions, i, p)
  {
    var step := ActionStep(actions);
    CollectMember(|actions|, step, p);
    forall i: nat | i < |actions| ensures p in step(i) <==> ActionFault(actions, i, p) {
      ActionReported(actions, i, p);
    }
  }

  // ---- tokens ----

  lemma {:induction false} ScopeReported(i: nat, scope: seq<string>, known: seq<string>, p: Problem)
    ensures p in Collect(|scope|, ScopeStep(i, scope, known)) <==>
            exists k: nat :: k < |scope| && p in ScopeItemProblems(i, scope, k, known)
  {
    var step := ScopeStep(i, scope, known);
    CollectMember(|scope|, step, p);
    assert forall k: nat | k < |scope| :: step(k) == ScopeItemProblems(i, scope, k, known);
  }

  lemma {:induction false} TokenReported(tokens: seq<Token>, known: seq<string>, tokenFormat: string -> bool,
                                         i: nat, p: Problem)
    requires i < |tokens|
    ensures p in TokenStep(tokens, known, tokenFormat)(i) <==> TokenFault(tokens, known, tokenFormat, i, p)
  {
    var t := tokens[i];
    var names, value := TokenNameProblems(TokenNames(tokens), i), TokenValueProblems(i, t.value, tokenFormat);
    var scope := Collect(|t.actions|, ScopeStep(i, t.actions, known));
    TokenNameReported(TokenNames(tokens), i, p);
    TokenValueReported(i, t.value, tokenFormat, p);
    ScopeReported(i, t.actions, known, p);
    ScopeItemReported(i, t.actions, known, p);
    assert TokenStep(tokens, known, tokenFormat)(i) == names + (value + scope);
  }

  lemma {:induction false} TokenNameReported(names: seq<string>, i: nat, p: Problem)
    requires i < |names|
    ensures p in TokenNameProblems(names, i) <==>
            || (p == TokenNameRequired(i) && names[i] == "")
            || (p.TokenNameDuplicates? && p.token == i && Repeats(names, i, p.first, p.name))
  {
    assert FirstUse(names, names[i]) <= i;
  }

  lemma TokenValueReported(i: nat, value: string, tokenFormat: string -> bool, p: Problem)
    ensures p in TokenValueProblems(i, value, tokenFormat) <==>
            || (p == TokenValueRequired(i) && value == "")
            || (p == TokenValueInvalid(i) && value != "" && !tokenFormat(value))
  {
  }

  lemma {:induction false} ScopeItemReported(i: nat, scope: seq<string>, known: seq<string>, p: Problem)
    ensures (exists k: nat :: k < |scope| && p in ScopeItemProblems(i, scope, k, known)) <==>
            match p
            case ScopeEmpty(n, k) => n == i && k < |scope| && scope[k] == ""
            case ScopeDuplicates(n, k, first, name) => n == i && Repeats(scope, k, first, name)
            case ScopeUnknown(n, k, name) =>
              && n == i && k < |scope| && scope[k] == name && name != "" && name !in known
              && (forall j | 0 <= j < k :: scope[j] != name)
            case _ => false
  {
    forall k: nat | k < |scope| ensures FirstUse(scope, scope[k]) <= k {}
    if (p.ScopeEmpty? || p.ScopeDuplicates? || p.ScopeUnknown?) && p.item < |scope| {
      assert p in ScopeItemProblems(i, scope, p.item, known) <==>
             exists k: nat :: k < |scope| && p in ScopeItemProblems(i, scope, k, known);
    }
  }

  lemma {:induction false} TokensReported(tokens: seq<Token>, known: seq<string>, tokenFormat: string -> bool,
                                          p: Problem)
    ensures p in Collect(|tokens|, TokenStep(tokens, known, tokenFormat)) <==>
            exists i: nat :: i < |tokens| && TokenFault(tokens, known, tokenFormat, i, p)
  {
    var step := TokenStep(tokens, known, tokenFormat);
    CollectMember(|tokens|, step, p);
    forall i: nat | i < |tokens| ensures p in step(i) <==> TokenFault(tokens, known, tokenFormat, i, p) {
      TokenReported(tokens, known, tokenFormat, i, p);
    }
  }

  // ---- everything ----

  lemma SettingsReported(c: Config, p: Problem)
    ensures p in ServerProblems(c.server) + StorageProblems(c.storage) <==> SettingFault(c, p)
  {
  }

  /** Validation reports a problem exactly if it holds of the configuration. */
  lemma {:induction false} ReportedIff(c: Config, tokenFormat: string -> bool, p: Problem)
    ensures p in Problems(c, tokenFormat) <==> Justified(c, tokenFormat, p)
  {
    var known := ActionNames(c.actions);
    SettingsReported(c, p);
    ActionsReported(c.actions, p);
    TokensReported(c.tokens, known, tokenFormat, p);
    var settings := ServerProblems(c.server) + StorageProblems(c.storage);
    var actions := Collect(|c.actions|, ActionStep(c.actions));
    var tokens := Collect(|c.tokens|, TokenStep(c.tokens, known, tokenFormat));
    assert Problems(c, tokenFormat) == settings + actions + tokens;
  }

  /** A timeout is reported exactly if its text is there and does not parse. */
  lemma {:induction false} TimeoutReportedIff(actions: seq<FileAction>, parseDuration: string -> Option<int>,
                                              p: Problem)
    ensures p in Collect(|actions|, TimeoutStep(actions, parseDuration)) <==>
            && p.TimeoutInvalid? && p.action < |actions|
            && TrimSpace(actions[p.action].timeout) != ""
            && parseDuration(TrimSpace(actions[p.action].timeout)).None?
  {
    var step := TimeoutStep(actions, parseDuration);
    CollectMember(|actions|, step, p);
    forall i: nat | i < |actions|
      ensures step(i) == if TimeoutParses(actions[i].timeout, parseDuration) then [] else [TimeoutInvalid(i)]
    {
    }
    if p.TimeoutInvalid? && p.action < |actions| && !TimeoutParses(actions[p.action].timeout, parseDuration) {
      assert p in step(p.action);
    }
  }

  // ---- order ----

  /** The part of the file that a problem is about: server, storage, actions, tokens. */
  function Section(p: Problem): nat {
    if p.ListenRequired? || p.LogFormatRequired? || p.LogFormatUnknown? then 0
    else if p.StoragePathRequired? || p.RetentionDaysNegative? || p.MaxRunsNegative? then 1
    else if p.TokenNameRequired? || p.TokenNameDuplicates? || p.TokenValueRequired? || p.TokenValueInvalid?
            || p.ScopeEmpty? || p.ScopeDuplicates? || p.ScopeUnknown? then 3
    else 2
  }

  /** The position in that part. */
  function Position(p: Problem): nat {
    match p
    case ListenRequired => 0
    case LogFormatRequired => 1
    case LogFormatUnknown => 1
    case StoragePathRequired => 0
    case RetentionDaysNegative => 1
    case MaxRunsNegative => 2
    case TokenNameRequired(i) => i
    case TokenNameDuplicates(i, _, _) => i
    case TokenValueRequired(i) => i
    case TokenValueInvalid(i) => i
    case ScopeEmpty(i, _) => i
    case ScopeDuplicates(i, _, _, _) => i
    case ScopeUnknown(i, _, _) => i
    case _ => p.action
  }

  predicate NotAfter(p: Problem, q: Problem) {
    Section(p) < Section(q) || (Section(p) == Section(q) && Position(p) <= Position(q))
  }

  ghost predicate InFileOrder(ps: seq<Problem>) {
    forall x, y | 0 <= x < y < |ps| :: NotAfter(ps[x], ps[y])
  }

  lemma {:induction false} JoinedInOrder(a: seq<Problem>, b: seq<Problem>)
    requires InFileOrder(a) && InFileOrder(b) && forall p, q :: p in a && q in b ==> NotAfter(p, q)
    ensures InFileOrder(a + b)
  {
    var both := a + b;
    forall x, y | 0 <= x < y < |both| ensures NotAfter(both[x], both[y]) {
      if x < |a| <= y { assert both[x] in a && both[y] in b; }
    }
  }

  /** All of `ps` are about position `i` of one part. */
  ghost predicate InPlace(ps: seq<Problem>, section: nat, i: nat) {
    forall p :: p in ps ==> Section(p) == section && Position(p) == i
  }

  lemma {:induction false} CollectedInOrder(n: nat, step: nat -> seq<Problem>, section: nat)
    requires forall i: nat | i < n :: InPlace(step(i), section, i)
    ensures InFileOrder(Collect(n, step))
    ensures forall p | p in Collect(n, step) :: Section(p) == section && Position(p) < n
  {
    if n > 0 {
      CollectedInOrder(n - 1, step, section);
      assert InPlace(step(n - 1), section, n - 1);
      JoinedInOrder(Collect(n - 1, step), step(n - 1));
    }
  }

  lemma {:induction false} ActionsInOrder(actions: seq<Action>)
    ensures InFileOrder(Collect(|actions|, ActionStep(actions)))
    ensures forall p | p in Collect(|actions|, ActionStep(actions)) :: Section(p) == 2
  {
    var step := ActionStep(actions);
    forall i: nat | i < |actions| ensures InPlace(step(i), 2, i) { ActionInPlace(actions, i, step(i)); }
    CollectedInOrder(|actions|, step, 2);
  }

  lemma {:induction false} ActionInPlace(actions: seq<Action>, i: nat, reported: seq<Problem>)
    requires i < |actions| && reported == ActionStep(actions)(i)
    ensures InPlace(reported, 2, i)
  {
    forall p | p in reported ensures Section(p) == 2 && Position(p) == i { ActionPlace(actions, i, p); }
  }

  lemma {:induction false} ActionPlace(actions: seq<Action>, i: nat, p: Problem)
    requires i < |actions| && p in ActionStep(actions)(i)
    ensures Section(p) == 2 && Position(p) == i
  {
    ActionReported(actions, i, p);
    if FieldFault(i, actions[i], p) { FieldFaultPlace(i, actions[i], p); }
  }

  lemma FieldFaultPlace(i: nat, a: Action, p: Problem)
    requires FieldFault(i, a, p)
    ensures Section(p) == 2 && Position(p) == i
  {
    if key :| key in a.env && EntryFault(i, key, a.env[key], p) {
      EntryFaultPlace(i, key, a.env[key], p);
    }
  }

  lemma EntryFaultPlace(i: nat, key: string, value: string, p: Problem)
    requires EntryFault(i, key, value, p)
    ensures Section(p) == 2 && Position(p) == i
  {
  }

  lemma {:induction false} TokensInOrder(tokens: seq<Token>, known: seq<string>, tokenFormat: string -> bool)
    ensures InFileOrder(Collect(|tokens|, TokenStep(tokens, known, tokenFormat)))
    ensures forall p | p in Collect(|tokens|, TokenStep(tokens, known, tokenFormat)) :: Section(p) == 3
  {
    var step := TokenStep(tokens, known, tokenFormat);
    forall i: nat | i < |tokens| ensures InPlace(step(i), 3, i) {
      forall p | p in step(i) ensures Section(p) == 3 && Position(p) == i {
        TokenReported(tokens, known, tokenFormat, i, p);
      }
    }
    CollectedInOrder(|tokens|, step, 3);
  }

  /** Problems come in the order of the file. */
  lemma {:induction false} ReportedInFileOrder(c: Config, tokenFormat: string -> bool)
    ensures InFileOrder(Problems(c, tokenFormat))
  {
    var known := ActionNames(c.actions);
    var settings := ServerProblems(c.server) + StorageProblems(c.storage);
    var actions := Collect(|c.actions|, ActionStep(c.actions));
    var tokens := Collect(|c.tokens|, TokenStep(c.tokens, known, tokenFormat));
    SettingsInOrder(c);
    ActionsInOrder(c.actions);
    TokensInOrder(c.tokens, known, tokenFormat);
    JoinedInOrder(settings, actions);
    JoinedInOrder(settings + actions, tokens);
    assert Problems(c, tokenFormat) == settings + actions + tokens;
  }

  lemma SettingsInOrder(c: Config)
    ensures InFileOrder(ServerProblems(c.server) + StorageProblems(c.storage))
    ensures forall p :: p in ServerProblems(c.server) + StorageProblems(c.storage) ==> Section(p) < 2
  {
  }
}
