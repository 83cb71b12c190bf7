/** What the four list queries return, and which stored rows a status filter can miss. */
module Listings {
  import opened Prelude
  import opened Text
  import opened Ordering
  import opened Records
  import opened Queries

  ghost predicate NewestFirst(runs: seq<Run>) {
    forall i, j | 0 <= i < j < |runs| :: Newer(KeyOf(runs[i]), KeyOf(runs[j]))
  }

  /** Every run of the store, newest first. */
  function FullList(t: Tables): seq<Run> {
    Select(t, AnyRun())
  }

  /** What a filter asks for: each given text must match exactly after trimming. */
  predicate Matches(filter: RunFilter, r: Run) {
    && (IsBlank(filter.actionName) || r.row.actionName == TrimSpace(filter.actionName))
    && (IsBlank(filter.status) || r.row.status == StatusOf(TrimSpace(filter.status)))
  }

  function Matching(filter: RunFilter): Run -> bool {
    (r: Run) => Matches(filter, r)
  }

  /** A selection holds exactly the matching runs of the view, strictly ordered. */
  lemma SelectExact(t: Tables, where: Run -> bool)
    ensures NewestFirst(Select(t, where))
    ensures forall r: Run :: r in Select(t, where) <==> r.id in View(t) && View(t)[r.id] == r && where(r)
  {
    var view := View(t);
    var keys := Newest(SelectedKeys(view, where));
    var runs := Select(t, where);
    forall i | 0 <= i < |runs|
      ensures KeyOf(runs[i]) == keys[i] && where(runs[i])
      ensures runs[i].id in view && view[runs[i].id] == runs[i]
    {
      assert keys[i] in SelectedKeys(view, where);
    }
    forall i, j | 0 <= i < j < |runs| ensures Newer(KeyOf(runs[i]), KeyOf(runs[j])) {
      NewestOrdered(SelectedKeys(view, where), i, j);
    }
    forall r: Run | r in runs ensures r.id in view && view[r.id] == r && where(r) {
      var i :| 0 <= i < |runs| && runs[i] == r;
    }
    forall r: Run | r.id in view && view[r.id] == r && where(r) ensures r in runs {
      assert KeyOf(r) in SelectedKeys(view, where);
      var i :| 0 <= i < |keys| && keys[i] == KeyOf(r);
      assert runs[i] == r;
    }
  }

  lemma {:induction false} FetchFilter(view: map<Id, Run>, keys: seq<Key>, keep: Key -> bool, where: Run -> bool)
    requires forall k :: k in keys ==> k.id in view && (keep(k) <==> where(view[k.id]))
    ensures Fetch(view, Filter(keys, keep)) == Filter(Fetch(view, keys), where)
  {
    if keys != [] {
      var n := |keys| - 1;
      var front, runs := keys[..n], Fetch(view, keys);
      FetchFilter(view, front, keep, where);
      assert runs[..n] == Fetch(view, front);
      assert Filter(runs, where) == Filter(runs[..n], where) + (if where(runs[n]) then [runs[n]] else []);
    }
  }

  lemma NewestFilter(keys: set<Key>, keep: Key -> bool, chosen: set<Key>)
    requires forall k :: k in chosen <==> k in keys && keep(k)
    ensures Newest(chosen) == Filter(Newest(keys), keep)
  {
    NewerIsTotal();
    ArrangeFilter(Newer, keys, keep, chosen);
  }

  /** Filtering in the query equals filtering the full list. */
  lemma SelectFiltersFullList(t: Tables, where: Run -> bool)
    ensures Select(t, where) == Filter(FullList(t), where)
  {
    var view := View(t);
    var all := SelectedKeys(view, AnyRun());
    var keep := (k: Key) => k.id in view && where(view[k.id]);
    var chosen := SelectedKeys(view, where);
    forall k: Key | k in all && keep(k) ensures k in chosen {
      assert KeyOf(view[k.id]) == k;
    }
    NewestFilter(all, keep, chosen);
    FetchFilter(view, Newest(all), keep, where);
  }

  lemma {:induction false} FilterExtensional(runs: seq<Run>, p: Run -> bool, q: Run -> bool)
    requires forall r :: p(r) <==> q(r)
    ensures Filter(runs, p) == Filter(runs, q)
  {
    if runs != [] { FilterExtensional(runs[..|runs| - 1], p, q); }
  }

  /** The four branches of `ListRuns` meet one specification. */
  lemma ListRunsRefinesFilter(t: Tables, filter: RunFilter)
    ensures ListRuns(t, filter) ==
            if !IsBlank(filter.status) && !StatusAccepted(StatusOf(TrimSpace(filter.status)))
            then Failure(InvalidRunState)
            else Success(Filter(FullList(t), Matching(filter)))
  {
    BlankTrimsToNothing(filter.actionName);
    BlankTrimsToNothing(filter.status);
    var name := TrimSpace(filter.actionName);
    var text := TrimSpace(filter.status);
    var status := StatusOf(text);
    var where :=
      if name != "" && text != "" then ByActionAndStatus(name, status)
      else if name != "" then ByAction(name)
      else if text != "" then ByStatus(status)
      else AnyRun();
    SelectFiltersFullList(t, where);
    FilterExtensional(FullList(t), where, Matching(filter));
  }

  lemma ListByStatusText(t: Tables, text: string)
    requires StatusAccepted(StatusOf(text))
    ensures ListRuns(t, RunFilter("", text)) == Success(Select(t, ByStatus(StatusOf(TrimSpace(text)))))
  {
    TrimStatusOfText(text);
    BlankIsNoStatus();
  }

  /** The listing that recovery starts from is never invalid and holds the running rows. */
  lemma RunningFilter(t: Tables)
    ensures var filter := RunFilter("", "running");
            && !(!IsBlank(filter.status) && !StatusAccepted(StatusOf(TrimSpace(filter.status))))
            && Filter(FullList(t), Matching(filter)) == Select(t, ByStatus(Running))
  {
    ListByStatusText(t, "running");
    ListRunsRefinesFilter(t, RunFilter("", "running"));
    assert StatusOf(TrimSpace("running")) == Running by { TrimStatusOfText("running"); }
  }

  /** A listing never fails on a filter whose status text is accepted, and holds exactly the matching runs. */
  lemma ListingExact(t: Tables, filter: RunFilter)
    requires IsBlank(filter.status) || StatusAccepted(StatusOf(TrimSpace(filter.status)))
    ensures ListRuns(t, filter).Success?
    ensures forall r: Run ::
              r in ListRuns(t, filter).value <==> r.id in View(t) && View(t)[r.id] == r && Matches(filter, r)
  {
    ListRunsRefinesFilter(t, filter);
    SelectExact(t, AnyRun());
    FilterMembers(FullList(t), Matching(filter));
  }

  /** `filter` finds run `id`. */
  ghost predicate Finds(t: Tables, filter: RunFilter, id: Id) {
    ListRuns(t, filter).Success? && exists r :: r in ListRuns(t, filter).value && r.id == id
  }

  lemma FindsIff(t: Tables, filter: RunFilter, id: Id)
    requires IsBlank(filter.status) || StatusAccepted(StatusOf(TrimSpace(filter.status)))
    requires id in View(t)
    ensures Finds(t, filter, id) <==> Matches(filter, View(t)[id])
  {
    ListingExact(t, filter);
    assert View(t)[id].id == id;
  }

  /**
   `CreateRun` accepts a status and an action name with outer spaces and stores
   both as given, while `ListRuns` compares with the trimmed filter. A created run
   is found under the action name it was created with, or under the status it was
   accepted as, exactly when that stored text was already trimmed.
   */
  lemma CreatedRunListedIffTrimmed(t: Tables, p: CreateRunParams, now: int, text: string)
    requires Matched(t) && CreateRun(t, p, now).Success?
    requires p.status == StatusOf(text)
    ensures var after := CreateRun(t, p, now).value;
            && (Finds(after, RunFilter("", text), p.id) <==> text == TrimSpace(text))
            && (Finds(after, RunFilter(p.actionName, ""), p.id) <==> p.actionName == TrimSpace(p.actionName))
            && (Finds(after, RunFilter(p.actionName, text), p.id) <==>
                  text == TrimSpace(text) && p.actionName == TrimSpace(p.actionName))
  {
    var after := CreateRun(t, p, now).value;
    TrimStatusOfText(text);
    AcceptedStatusNotBlank(text);
    StatusOfInjective(text, TrimSpace(text));
    assert View(after)[p.id] == Run(p.id, CreatedRow(p, now), p.snapshot);
    FindsIff(after, RunFilter("", text), p.id);
    FindsIff(after, RunFilter(p.actionName, ""), p.id);
    FindsIff(after, RunFilter(p.actionName, text), p.id);
  }

  lemma AcceptedStatusNotBlank(text: string)
    requires StatusAccepted(StatusOf(text))
    ensures !IsBlank(text)
  {
    BlankTrimsToNothing(text);
    TrimStatusOfText(text);
    BlankIsNoStatus();
  }
}
