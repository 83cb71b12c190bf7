/** The run list that a caller sees: the store's listing, compacted in place to what the caller's token allows. */
module RunListing {
  import opened Prelude
  import opened Text
  import opened Records
  import opened Config
  import opened Queries
  import opened Listings
  import opened Repository

  /** `auth.Identity`: a token without actions is global. */
  datatype Identity = Identity(name: string, global: bool, actionSet: set<string>)

  predicate AllowsAction(i: Identity, actionName: string) {
    i.global || actionName in i.actionSet
  }

  method NewIdentity(token: Token) returns (i: Identity)
    ensures i.name == token.name
    ensures forall name :: AllowsAction(i, name) <==> token.actions == [] || name in token.actions
  {
    var actionSet := {};
    for k := 0 to |token.actions|
      invariant actionSet == set j | 0 <= j < k :: token.actions[j]
    {
      actionSet := actionSet + {token.actions[k]};
    }
    i := Identity(token.name, |token.actions| == 0, actionSet);
  }

  function Visible(i: Identity): Run -> bool {
    (r: Run) => AllowsAction(i, r.row.actionName)
  }

  lemma FilterSnoc(runs: seq<Run>, n: nat, keep: Run -> bool)
    requires n < |runs|
    ensures Filter(runs[..n + 1], keep) == Filter(runs[..n], keep) + (if keep(runs[n]) then [runs[n]] else [])
  {
    assert runs[..n + 1][..n] == runs[..n];
  }

  /** `filtered := runs[:0]`, then `append` over the same array: writes never overtake reads. */
  method Compact(runs: array<Run>, identity: Identity) returns (kept: nat)
    modifies runs
    ensures kept <= runs.Length
    ensures runs[..kept] == Filter(old(runs[..]), Visible(identity))
  {
    ghost var all := runs[..];
    kept := 0;
    for i := 0 to runs.Length
      invariant kept <= i
      invariant runs[..kept] == Filter(all[..i], Visible(identity))
      invariant forall j | i <= j < runs.Length :: runs[j] == all[j]
    {
      FilterSnoc(all, i, Visible(identity));
      ghost var before := runs[..kept];
      var run := runs[i];
      if AllowsAction(identity, run.row.actionName) {
        runs[kept] := run;
        kept := kept + 1;
        assert runs[..kept] == before + [run];
      } else {
        assert before + [] == before;
      }
    }
    assert all[..runs.Length] == all;
  }

  datatype ListFailure = Forbidden | BadRequest | ServerError

  /** What a caller may see of what it asked for. */
  function Answer(i: Identity, filter: RunFilter): Run -> bool {
    (r: Run) => Matches(filter, r) && AllowsAction(i, r.row.actionName)
  }

  lemma {:induction false} FilterTwice(runs: seq<Run>, filter: RunFilter, i: Identity)
    ensures Filter(Filter(runs, Matching(filter)), Visible(i)) == Filter(runs, Answer(i, filter))
  {
    if runs != [] {
      var n := |runs| - 1;
      var front := Filter(runs[..n], Matching(filter));
      FilterTwice(runs[..n], filter, i);
      if Matches(filter, runs[n]) {
        assert (front + [runs[n]])[..|front|] == front;
      } else {
        assert front + [] == front;
      }
    }
  }

  /** `GET /runs`: exactly the stored runs that match the filter and that the token allows, newest first. */
  method ListVisibleRuns(store: Store, identity: Identity, action: string, status: string, broken: bool)
    returns (result: Result<seq<Run>, ListFailure>)
    ensures var name := TrimSpace(action);
            var filter := RunFilter(name, status);
            result ==
              if name != "" && !AllowsAction(identity, name) then Failure(Forbidden)
              else if !IsBlank(status) && !StatusAccepted(StatusOf(TrimSpace(status))) then Failure(BadRequest)
              else if broken then Failure(ServerError)
              else Success(Filter(FullList(store.Contents()), Answer(identity, filter)))
  {
    var name := TrimSpace(action);
    if name != "" && !AllowsAction(identity, name) { return Failure(Forbidden); }
    var listed := store.ListRuns(RunFilter(name, status), broken);
    if listed.Failure? { return Failure(if listed.error == InvalidRunState then BadRequest else ServerError); }
    var visible := Scoped(listed.value, identity);
    FilterTwice(FullList(store.Contents()), RunFilter(name, status), identity);
    return Success(visible);
  }

  /** The `if !identity.IsGlobal()` block: a global token skips the compaction. */
  method Scoped(runs: seq<Run>, identity: Identity) returns (visible: seq<Run>)
    ensures visible == Filter(runs, Visible(identity))
  {
    if identity.global {
      GlobalSeesAll(runs, identity);
      return runs;
    }
    var backing := new Run[|runs|](j requires 0 <= j < |runs| => runs[j]);
    assert backing[..] == runs;
    var kept := Compact(backing, identity);
    return backing[..kept];
  }

  lemma {:induction false} FilterKeepsAll(runs: seq<Run>, keep: Run -> bool)
    requires forall i | 0 <= i < |runs| :: keep(runs[i])
    ensures Filter(runs, keep) == runs
  {
    if runs != [] {
      var n := |runs| - 1;
      var front := runs[..n];
      FilterKeepsAll(front, keep);
      assert runs == front + [runs[n]];
    }
  }

  lemma GlobalSeesAll(runs: seq<Run>, i: Identity)
    requires i.global
    ensures Filter(runs, Visible(i)) == runs
  {
    FilterKeepsAll(runs, Visible(i));
  }

  lemma {:induction false} FilterKeepsOrder(runs: seq<Run>, keep: Run -> bool)
    requires NewestFirst(runs)
    ensures NewestFirst(Filter(runs, keep))
  {
    if runs != [] {
      var n := |runs| - 1;
      FilterKeepsOrder(runs[..n], keep);
      FilterMembers(runs[..n], keep);
      var front := Filter(runs[..n], keep);
      forall j | 0 <= j < |front| ensures Newer(KeyOf(front[j]), KeyOf(runs[n])) {
        assert front[j] in runs[..n];
      }
    }
  }

  /** The answer holds exactly the visible matching runs of the store, strictly newest first. */
  lemma AnswerExact(t: Tables, i: Identity, filter: RunFilter)
    ensures var answer := Filter(FullList(t), Answer(i, filter));
            && NewestFirst(answer)
            && forall r: Run :: r in answer <==>
                 r.id in View(t) && View(t)[r.id] == r && Matches(filter, r) && AllowsAction(i, r.row.actionName)
  {
    SelectExact(t, AnyRun());
    FilterMembers(FullList(t), Answer(i, filter));
    FilterKeepsOrder(FullList(t), Answer(i, filter));
  }
}
