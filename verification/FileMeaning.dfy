/** What each text and value of an accepted file means for the running service, and which calls it lets in. */
module FileMeaning {
  import opened Prelude
  import opened Text
  import opened Records
  import opened Config
  import opened Loading
  import opened Lifecycle

  /** No character other than spaces, so that the text counts as absent. */
  predicate Empty(text: string) {
    TrimSpace(text) == ""
  }

  /** The policy that a file's text asks for: the service allows overlap unless told otherwise. */
  lemma PolicyFromText(text: string)
    ensures var policy := PolicyOf(OrDefault(text, "allow"));
            && (policy == Reject <==> TrimSpace(text) == "reject")
            && (policy == Allow <==> TrimSpace(text) in {"", "allow"})
            && (policy.OtherPolicy? ==> policy.text == TrimSpace(text))
  {
  }

  /** Every field of a loaded action, from the file's own action at the same position. */
  lemma LoadedAction(f: FileConfig, parseDuration: string -> Option<int>, i: nat)
    requires i < |f.actions|
    ensures |Normalized(f, parseDuration).actions| == |f.actions|
    ensures var a, g := Normalized(f, parseDuration).actions[i], f.actions[i];
            && a.name == TrimSpace(g.name) && a.description == g.description
            && a.command == g.command && a.shellCommand == g.shellCommand && a.cwd == g.cwd && a.env == g.env
            && (a.mode == CommandMode <==> g.command != [] && Empty(g.shellCommand))
            && (a.mode == ShellMode <==> g.command == [] && !Empty(g.shellCommand))
            && (a.policy == Reject <==> TrimSpace(g.policy) == "reject")
            && (a.policy == Allow <==> TrimSpace(g.policy) in {"", "allow"})
            && (Empty(g.timeout) ==> a.timeout == 0)
            && (!Empty(g.timeout) && parseDuration(TrimSpace(g.timeout)).Some? ==>
                  parseDuration(TrimSpace(g.timeout)) == Some(a.timeout))
            && (g.maxOutputBytes.None? ==> a.maxOutputBytes == 65536)
            && (g.maxOutputBytes.Some? ==> g.maxOutputBytes == Some(a.maxOutputBytes))
            && (a.enabled <==> g.enabled != Some(false))
  {
    TabulateAt(|f.actions|, ActionOf(f.actions, parseDuration), i);
    PolicyFromText(f.actions[i].policy);
    BlankTrimsToNothing(f.actions[i].shellCommand);
  }

  /** The settings outside the actions. */
  lemma LoadedSettings(f: FileConfig, parseDuration: string -> Option<int>)
    ensures var server, storage := Normalized(f, parseDuration).server, Normalized(f, parseDuration).storage;
            && server.listen == (if Empty(f.server.listen) then "127.0.0.1:9464" else TrimSpace(f.server.listen))
            && server.logFormat == (if Empty(f.server.logFormat) then "json" else TrimSpace(f.server.logFormat))
            && storage.path == TrimSpace(f.storage.path)
            && storage.retentionDays == f.storage.retentionDays && storage.maxRuns == f.storage.maxRuns
  {
  }

  lemma LoadedToken(f: FileConfig, parseDuration: string -> Option<int>, i: nat)
    requires i < |f.tokens|
    ensures |Normalized(f, parseDuration).tokens| == |f.tokens|
    ensures var t, g := Normalized(f, parseDuration).tokens[i], f.tokens[i];
            && t.name == TrimSpace(g.name) && t.value == TrimSpace(g.value) && |t.actions| == |g.actions|
            && forall k | 0 <= k < |g.actions| :: t.actions[k] == TrimSpace(g.actions[k])
  {
    TabulateAt(|f.tokens|, TokenOf(f.tokens), i);
  }

  // ---- admission ----

  /** Each refusal with its exact cause, in the order of the checks, and the mode that the caller's text asks for. */
  lemma AdmissionExact(registry: Registry, q: Request)
    ensures var a, name, mode := Admit(registry, q), TrimSpace(q.actionName), TrimSpace(q.mode);
            var found := name != "" && name in registry.byName;
            var enabled := found && registry.byName[name].enabled;
            var readable := enabled && !q.input.Malformed? && !q.metadata.Malformed?;
            var dispatched := readable && mode in {"", "sync", "async"};
            && (a == Refused(NameRequired) <==> name == "")
            && (a == Refused(ActionNotFound) <==> name != "" && !found)
            && (a == Refused(ActionDisabled) <==> found && !enabled)
            && (a == Refused(InvalidPayload) <==> enabled && !readable)
            && (a == Refused(InvalidMode) <==> readable && !dispatched)
            && (a == Refused(UnsupportedPolicy) <==> dispatched && registry.byName[name].policy.OtherPolicy?)
            && (a.Admitted? <==> dispatched && registry.byName[name].policy in {Allow, Reject})
            && (a.Admitted? ==> a.action == registry.byName[name] && (a.mode == Async <==> mode == "async"))
  {
  }

  /** The file's action at `i` is the one that `q` names, and it is not switched off. */
  predicate Asks(f: FileConfig, q: Request, i: nat) {
    && i < |f.actions| && TrimSpace(f.actions[i].name) == TrimSpace(q.actionName)
    && f.actions[i].enabled != Some(false)
  }

  predicate Acceptable(q: Request) {
    !q.input.Malformed? && !q.metadata.Malformed? && TrimSpace(q.mode) in {"", "sync", "async"}
  }

  lemma FoundByName(f: FileConfig, parseDuration: string -> Option<int>, tokenFormat: string -> bool, i: nat)
    requires WellFormed(Normalized(f, parseDuration), tokenFormat) && i < |f.actions|
    ensures var actions := Normalized(f, parseDuration).actions;
            var registry, name := Registered(actions, |actions|), TrimSpace(f.actions[i].name);
            && |actions| == |f.actions| && RegistryRunnable(registry)
            && name != "" && name in registry.byName && registry.byName[name] == actions[i]
  {
    AcceptedActionsRun(f, parseDuration, tokenFormat);
    LoadedAction(f, parseDuration, i);
    assert ActionNames(Normalized(f, parseDuration).actions)[i] != "";
  }

  lemma NamedInFile(f: FileConfig, parseDuration: string -> Option<int>, tokenFormat: string -> bool, name: string)
    returns (i: nat)
    requires WellFormed(Normalized(f, parseDuration), tokenFormat)
    requires var actions := Normalized(f, parseDuration).actions; name in Registered(actions, |actions|).byName
    ensures i < |f.actions| && TrimSpace(f.actions[i].name) == name
  {
    var actions := Normalized(f, parseDuration).actions;
    AcceptedActionsRun(f, parseDuration, tokenFormat);
    assert actions[..|actions|] == actions;
    var a := Registered(actions, |actions|).byName[name];
    i :| 0 <= i < |actions| && actions[i] == a;
    LoadedAction(f, parseDuration, i);
  }

  /** A service over an accepted file lets a call in exactly if the file has its action, enabled, and it is sound. */
  lemma AcceptedFileAdmitsIff(f: FileConfig, parseDuration: string -> Option<int>, tokenFormat: string -> bool,
                              q: Request)
    requires WellFormed(Normalized(f, parseDuration), tokenFormat)
    ensures var actions := Normalized(f, parseDuration).actions;
            var admission := Admit(Registered(actions, |actions|), q);
            && (admission.Admitted? <==> Acceptable(q) && exists i: nat :: Asks(f, q, i))
            && (admission.Admitted? ==>
                  && (admission.mode == Async <==> TrimSpace(q.mode) == "async")
                  && forall i: nat | Asks(f, q, i) ::
                       admission.action.policy == Reject <==> TrimSpace(f.actions[i].policy) == "reject")
  {
    var actions := Normalized(f, parseDuration).actions;
    var registry, name := Registered(actions, |actions|), TrimSpace(q.actionName);
    AdmissionExact(registry, q);
    forall i: nat | i < |f.actions| && TrimSpace(f.actions[i].name) == name
      ensures name != "" && name in registry.byName && registry.byName[name].policy in {Allow, Reject}
      ensures registry.byName[name].enabled <==> f.actions[i].enabled != Some(false)
      ensures registry.byName[name].policy == Reject <==> TrimSpace(f.actions[i].policy) == "reject"
    {
      FoundByName(f, parseDuration, tokenFormat, i);
      LoadedAction(f, parseDuration, i);
    }
    if name in registry.byName {
      var i := NamedInFile(f, parseDuration, tokenFormat, name);
      assert Asks(f, q, i) <==> f.actions[i].enabled != Some(false);
    }
  }
}
