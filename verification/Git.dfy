/** A repository as a commit graph with branch heads, and the guarded merge of a verified commit into
    a target branch. What the working tree decides (checkouts, merge conflicts, the id of a new merge
    commit) comes in from outside. */
module Git {
  import opened Results
  import opened Digraph

  datatype Commit = Commit(sha: nat)
  datatype Branch = Branch(name: nat)

  /** Each commit with its parents, and each branch with its head. */
  datatype Repo = Repo(history: map<Commit, set<Commit>>, heads: map<Branch, Commit>)
  {
    ghost predicate Valid() {
      Closed(history) && forall b :: b in heads ==> heads[b] in history
    }

    /** `v` is reachable from the head of `b`. */
    ghost predicate Contains(b: Branch, v: Commit) {
      b in heads && WaitsOrSame(history, heads[b], v)
    }
  }

  /** Commits are never rewritten, and every branch keeps what it contained. */
  ghost predicate Grows(r: Repo, r': Repo) {
    && (forall c :: c in r.history ==> c in r'.history && r'.history[c] == r.history[c])
    && (forall b :: b in r.heads ==> r'.Contains(b, r.heads[b]))
  }

  lemma GrowsContains(r: Repo, r': Repo, b: Branch, v: Commit)
    requires Grows(r, r') && r.Contains(b, v)
    ensures r'.Contains(b, v)
  {
    var was := r.heads[b];
    assert r'.Contains(b, was);
    if was != v {
      SubgraphWaits(r.history, r'.history, was, v);
      if r'.heads[b] != was {
        WaitsTransitive(r'.history, r'.heads[b], was, v);
      }
    }
  }

  datatype GitError = DirtyTree | CommitNotFound | TargetMoved | CheckoutFailed | MergeConflict

  /** What the rest of the system may rely on when integration of `v` into `target` takes `r` to `r'`. */
  ghost predicate Integrates(r: Repo, r': Repo, target: Branch, v: Commit, expected: Option<Commit>, err: Option<GitError>) {
    && Grows(r, r') && r'.Valid()
    && HeadsKept(if err.Some? then r.heads else r.heads - {target}, r'.heads)
    && (err.Some? ==> r'.history == r.history)
    && (err == None ==> r'.Contains(target, v))
    && (err == None && target in r.heads && r'.heads[target] != r.heads[target] && expected.Some? ==>
          r.heads[target] == expected.value)
  }

  /** Where HEAD is; a branch is unborn while it has no commit. */
  datatype Head = OnBranch(branch: Branch) | Detached(commit: Commit) | Unborn(branch: Branch)

  /** What one integration meets outside the model. */
  datatype Weather = Weather(checkoutWorks: bool, fastForwardWorks: bool, mergeWorks: bool, mergeCommit: Commit)

  /** `git merge-base --is-ancestor`: a search through the parents. */
  method IsAncestor(history: map<Commit, set<Commit>>, v: Commit, from: Commit) returns (yes: bool)
    requires Closed(history) && from in history
    ensures yes <==> WaitsOrSame(history, from, v)
  {
    var seen, frontier := {from}, {from};
    while frontier != {}
      invariant frontier <= seen <= history.Keys && from in seen
      invariant forall c :: c in seen ==> WaitsOrSame(history, from, c)
      invariant forall c, p :: c in seen - frontier && Edge(history, c, p) ==> p in seen
      decreases history.Keys - seen, frontier
    {
      var c :| c in frontier;
      var found := history[c] - seen;
      forall p | p in found ensures p in history && WaitsOrSame(history, from, p) {
        assert Edge(history, c, p);
        WaitsSnoc(history, from, c, p);
      }
      seen, frontier := seen + found, frontier - {c} + found;
    }
    yes := v in seen;
    if WaitsOrSame(history, from, v) && from != v {
      WaitsStaysIn(history, seen, from, v);
    }
  }

  class Repository {
    var history: map<Commit, set<Commit>>
    var heads: map<Branch, Commit>
    var head: Head
    var clean: bool

    ghost predicate Valid()
      reads this
    {
      && Repo(history, heads).Valid()
      && (head.OnBranch? ==> head.branch in heads)
      && (head.Unborn? ==> head.branch !in heads)
      && (head.Detached? ==> head.commit in history)
    }

    ghost function State(): Repo
      reads this
    {
      Repo(history, heads)
    }

    /** The commit HEAD resolves to. */
    function Tip(): (tip: Option<Commit>)
      requires head.OnBranch? ==> head.branch in heads
      reads this
      ensures tip == None <==> head.Unborn?
    {
      match head
      case OnBranch(b) => Some(heads[b])
      case Detached(c) => Some(c)
      case Unborn(_) => None
    }

    /** Checks out `target`, creating it at HEAD when it does not exist. An unborn HEAD reports no
        branch, and is then left where it is. */
    method SwitchTo(target: Branch, works: bool) returns (ok: bool)
      requires Valid()
      modifies this`heads, this`head
      ensures Valid()
      ensures ok <==> old(head) == OnBranch(target) || old(head).Unborn? || works
      ensures heads == old(heads) || (ok && !old(head).Unborn? && target !in old(heads) && heads == old(heads)[target := old(Tip()).value])
      ensures head == if ok && !old(head).Unborn? then OnBranch(target) else old(head)
    {
      if head == OnBranch(target) || head.Unborn? {
        return true;
      }
      if !works {
        return false;
      }
      var tip := Tip();
      if target !in heads {
        heads := heads[target := tip.value];
      }
      head := OnBranch(target);
      return true;
    }

    /** Moves HEAD, and the branch it is on. */
    method MoveHead(c: Commit)
      requires Valid() && c in history
      modifies this`heads, this`head
      ensures Valid()
      ensures old(head).Detached? ==> head == Detached(c) && heads == old(heads)
      ensures !old(head).Detached? ==> head == OnBranch(old(head).branch) && heads == old(heads)[old(head).branch := c]
    {
      match head
      case OnBranch(b) => heads := heads[b := c];
      case Unborn(b) => heads, head := heads[b := c], OnBranch(b);
      case Detached(_) => head := Detached(c);
    }

    /** `git merge --ff-only`: moves HEAD when the commit lies ahead, and is done when it lies behind. */
    method FastForward(v: Commit, works: bool) returns (ok: bool)
      requires Valid() && v in history
      modifies this`heads, this`head
      ensures Valid()
      ensures ok <==> works && Linear(history, old(Tip()), v)
      ensures ok ==> !head.Unborn? && WaitsOrSame(history, Tip().value, v)
      ensures ok && !old(head).Unborn? ==> WaitsOrSame(history, Tip().value, old(Tip()).value)
      ensures ok ==> Tip() == Some(if Behind(history, old(Tip()), v) then old(Tip()).value else v)
      ensures ok ==> MovedOnlyHead(old(heads), old(head))
      ensures !ok ==> heads == old(heads) && head == old(head)
    {
      var tip := Tip();
      var ahead, behind := true, false;
      if tip.Some? {
        ahead := IsAncestor(history, tip.value, v);
        behind := IsAncestor(history, v, tip.value);
      }
      ok := works && (ahead || behind);
      if ok && !behind {
        MoveHead(v);
      }
    }

    /** `git merge`: a fast-forward where possible, a new commit with both parents otherwise; a
        conflict is aborted and leaves everything as it was. */
    method Merge(v: Commit, works: bool, mergeCommit: Commit) returns (ok: bool)
      requires Valid() && v in history && mergeCommit !in history
      modifies this`heads, this`head, this`history
      ensures Valid()
      ensures ok == works
      ensures ok ==> !head.Unborn? && WaitsOrSame(history, Tip().value, v)
      ensures ok && !old(head).Unborn? ==> WaitsOrSame(history, Tip().value, old(Tip()).value)
      ensures ok ==> MovedOnlyHead(old(heads), old(head))
      ensures history == old(history) || (ok && !old(head).Unborn? && mergeCommit in history && history == old(history)[mergeCommit := history[mergeCommit]])
      ensures ok ==> MergeEnds(old(history), old(Tip()), v, mergeCommit, history, Tip())
      ensures !ok ==> heads == old(heads) && head == old(head)
    {
      ok := FastForward(v, works);
      if ok || !works {
        return;
      }
      var tip := Tip();
      var was := history;
      var parents := {tip.value, v};
      history := history[mergeCommit := parents];
      NewCommit(was, mergeCommit, parents, tip.value, v);
      MoveHead(mergeCommit);
      ok := true;
    }

    ghost predicate MovedOnlyHead(wasHeads: map<Branch, Commit>, wasHead: Head)
      reads this
    {
      if wasHead.Detached? then head.Detached? && heads == wasHeads
      else head == OnBranch(wasHead.branch) && head.branch in heads && heads == wasHeads[head.branch := heads[head.branch]]
    }

    /** The refusals and the early success, before anything is touched. */
    method Precheck(target: Branch, v: Commit, expected: Option<Commit>)
      returns (r: Option<Result<Option<Commit>, GitError>>)
      requires Valid()
      ensures r == Verdict(State(), clean, target, v, expected)
    {
      if !clean {
        return Some(Err(DirtyTree));
      }
      if v !in history {
        return Some(Err(CommitNotFound));
      }
      if target in heads {
        var already := IsAncestor(history, v, heads[target]);
        if already {
          return Some(Ok(None));
        }
        if expected.Some? && expected.value != heads[target] {
          return Some(Err(TargetMoved));
        }
      }
      return None;
    }

    method SwitchAndMerge(target: Branch, v: Commit, w: Weather) returns (r: Result<Option<Commit>, GitError>)
      requires Valid() && v in history && w.mergeCommit !in history
      modifies this`heads, this`head, this`history
      ensures Valid()
      ensures r == Err(CheckoutFailed) <==> SwitchFails(old(head), target, w)
      ensures r == Err(MergeConflict) <==> !SwitchFails(old(head), target, w) && MergeFails(old(State()), old(head), target, v, w)
      ensures r.Err? ==> r.error in {CheckoutFailed, MergeConflict} && history == old(history)
      ensures r.Err? ==> Kept(old(State()), State(), target)
      ensures r == Err(CheckoutFailed) ==> heads == old(heads) && head == old(head)
      ensures r == Err(MergeConflict) ==> head == if old(head).Unborn? then old(head) else OnBranch(target)
      ensures r == Err(MergeConflict) && !old(head).Unborn? ==> target in heads && Some(heads[target]) == TipOf(old(heads), old(head), target)
      ensures r.Ok? ==> head == OnBranch(MovedBranch(old(head), target)) && head.branch in heads && r.value == Some(heads[head.branch])
      ensures r.Ok? ==> Moved(old(State()), State(), MovedBranch(old(head), target), v)
      ensures r.Ok? && old(head).Unborn? ==> history == old(history)
      ensures r.Ok? ==> MergeEnds(old(history), TipOf(old(heads), old(head), target), v, w.mergeCommit, history, r.value)
    {
      var switched := SwitchTo(target, w.checkoutWorks);
      if !switched {
        return Err(CheckoutFailed);
      }
      var merged := FastForward(v, w.fastForwardWorks);
      if !merged {
        merged := Merge(v, w.mergeWorks, w.mergeCommit);
      }
      if !merged {
        return Err(MergeConflict);
      }
      return Ok(Tip());
    }

    /** Brings a verified commit into the target branch, or refuses. */
    method IntegrateGitCommit(target: Branch, v: Commit, expected: Option<Commit>, w: Weather)
      returns (r: Result<Option<Commit>, GitError>)
      requires Valid() && w.mergeCommit !in history
      modifies this`heads, this`head, this`history
      ensures Valid() && Grows(old(State()), State())
      ensures r == Err(DirtyTree) <==> !clean
      ensures r == Err(CommitNotFound) <==> clean && v !in old(history)
      ensures r == Err(TargetMoved) <==>
        && clean && v in old(history) && target in old(heads) && !old(State()).Contains(target, v)
        && expected.Some? && expected.value != old(heads)[target]
      ensures r == Err(CheckoutFailed) <==> Verdict(old(State()), clean, target, v, expected) == None && SwitchFails(old(head), target, w)
      ensures r == Err(CheckoutFailed) ==> old(head) != OnBranch(target) && !old(head).Unborn? && !w.checkoutWorks
      ensures r == Err(MergeConflict) ==> !w.mergeWorks
      ensures w.fastForwardWorks && Linear(old(history), TipOf(old(heads), old(head), target), v) ==> r != Err(MergeConflict)
      ensures !w.mergeWorks && !w.fastForwardWorks && r.Ok? ==> r == Ok(None)
      ensures r == Err(MergeConflict) <==>
        && Verdict(old(State()), clean, target, v, expected) == None
        && !SwitchFails(old(head), target, w) && MergeFails(old(State()), old(head), target, v, w)
      ensures r.Err? <==> Refusal(old(State()), clean, old(head), target, v, expected, w).Some?
      ensures r.Err? ==> Some(r.error) == Refusal(old(State()), clean, old(head), target, v, expected, w)
      ensures r == Ok(None) <==> clean && v in old(history) && old(State()).Contains(target, v)
      ensures r == Ok(None) ==> State() == old(State()) && head == old(head)
      ensures r.Ok? && r.value.Some? ==>
        && head == OnBranch(MovedBranch(old(head), target)) && head.branch in heads && r.value == Some(heads[head.branch])
        && Moved(old(State()), State(), head.branch, v)
        && MergeEnds(old(history), TipOf(old(heads), old(head), target), v, w.mergeCommit, history, r.value)
      ensures !Astray(old(head), target) ==>
        Integrates(old(State()), State(), target, v, expected, if r.Err? then Some(r.error) else None)
      ensures r.Err? ==> HeadsKept(old(heads), heads) && history == old(history)
      ensures r.Ok? ==> (State().Contains(target, v) <==> old(State()).Contains(target, v) || !Astray(old(head), target))
    {
      var verdict := Precheck(target, v, expected);
      if verdict.Some? {
        SameIntegrates(State(), clean, target, v, expected);
        return verdict.value;
      }
      r := SwitchAndMerge(target, v, w);
      if r.Ok? {
        MovedIntegrates(old(State()), State(), old(head), target, v, expected);
      } else {
        KeptIntegrates(old(State()), State(), target, v, expected, r.error);
      }
    }
  }

  /** A commit but no branch yet, and HEAD unborn on another branch than the target: the integration
      reports success and moves that other branch, and the target still lacks the commit. */
  method MergesElsewhere(target: Branch, stray: Branch, v: Commit, w: Weather)
    returns (repo: Repository, r: Result<Option<Commit>, GitError>)
    requires stray != target && w.mergeCommit != v && (w.fastForwardWorks || w.mergeWorks)
    ensures r.Ok? && r.value.Some? && repo.Valid()
    ensures v in repo.history && !repo.State().Contains(target, v) && repo.State().Contains(stray, v)
  {
    repo := new Repository;
    repo.history, repo.heads, repo.head, repo.clean := map[v := {}], map[], Unborn(stray), true;
    r := repo.IntegrateGitCommit(target, v, None, w);
  }

  ghost predicate HeadsKept(was: map<Branch, Commit>, now: map<Branch, Commit>) {
    forall b :: b in was ==> b in now && now[b] == was[b]
  }

  /** What the checks before the merge decide; `Ok(None)` when the target already has the commit. */
  ghost function Verdict(r: Repo, clean: bool, target: Branch, v: Commit, expected: Option<Commit>)
    : Option<Result<Option<Commit>, GitError>>
  {
    if !clean then Some(Err(DirtyTree))
    else if v !in r.history then Some(Err(CommitNotFound))
    else if r.Contains(target, v) then Some(Ok(None))
    else if target in r.heads && expected.Some? && expected.value != r.heads[target] then Some(Err(TargetMoved))
    else None
  }

  /** The tip contains the commit already. */
  ghost predicate Behind(history: map<Commit, set<Commit>>, tip: Option<Commit>, v: Commit) {
    tip.Some? && WaitsOrSame(history, tip.value, v)
  }

  /** Where a merge ends. While one commit lies behind the other no commit is made: the tip stays, or moves to
      `v`. Only where the two have diverged is there a new commit, and its parents are those two. */
  ghost predicate MergeEnds(was: map<Commit, set<Commit>>, tip: Option<Commit>, v: Commit, mergeCommit: Commit,
                            now: map<Commit, set<Commit>>, end: Option<Commit>) {
    if Behind(was, tip, v) then now == was && end == tip
    else if tip == None || WaitsOrSame(was, v, tip.value) then now == was && end == Some(v)
    else now == was[mergeCommit := {tip.value, v}] && end == Some(mergeCommit)
  }

  /** `git merge --ff-only` has nothing to merge: there is no tip yet, or one commit lies behind the other. */
  ghost predicate Linear(history: map<Commit, set<Commit>>, tip: Option<Commit>, v: Commit) {
    tip == None || WaitsOrSame(history, v, tip.value) || WaitsOrSame(history, tip.value, v)
  }

  /** A checkout is needed and does not work. */
  predicate SwitchFails(head: Head, target: Branch, w: Weather) {
    head != OnBranch(target) && !head.Unborn? && !w.checkoutWorks
  }

  /** What HEAD resolves to once the target is checked out. */
  function TipOf(heads: map<Branch, Commit>, head: Head, target: Branch): Option<Commit> {
    match head
    case Unborn(_) => None
    case Detached(c) => if target in heads then Some(heads[target]) else Some(c)
    case OnBranch(b) => if target in heads then Some(heads[target]) else if b in heads then Some(heads[b]) else None
  }

  /** Neither a fast-forward nor a merge works. */
  ghost predicate MergeFails(r: Repo, head: Head, target: Branch, v: Commit, w: Weather) {
    !w.mergeWorks && !(w.fastForwardWorks && Linear(r.history, TipOf(r.heads, head, target), v))
  }

  /** Why an integration is refused, if it is: the first of the causes that is there. */
  ghost function Refusal(r: Repo, clean: bool, head: Head, target: Branch, v: Commit, expected: Option<Commit>, w: Weather)
    : Option<GitError>
  {
    var verdict := Verdict(r, clean, target, v, expected);
    if verdict.Some? then (if verdict.value.Err? then Some(verdict.value.error) else None)
    else if SwitchFails(head, target, w) then Some(CheckoutFailed)
    else if MergeFails(r, head, target, v, w) then Some(MergeConflict)
    else None
  }

  /** The branch a merge moves: an unborn HEAD stays where it is. */
  function MovedBranch(head: Head, target: Branch): Branch {
    if head.Unborn? then head.branch else target
  }

  /** Nothing changed, except that the target may have been created. */
  ghost predicate Kept(r: Repo, r': Repo, target: Branch) {
    && r'.history == r.history
    && (r'.heads == r.heads || (target !in r.heads && target in r'.heads && r'.heads == r.heads[target := r'.heads[target]]))
  }

  /** Only `b` moved, forward, to something that contains `v`. */
  ghost predicate Moved(r: Repo, r': Repo, b: Branch, v: Commit) {
    && (forall c :: c in r.history ==> c in r'.history && r'.history[c] == r.history[c])
    && r'.Contains(b, v) && (b in r.heads ==> r'.Contains(b, r.heads[b]))
    && r'.heads == r.heads[b := r'.heads[b]]
  }

  lemma SameIntegrates(r: Repo, clean: bool, target: Branch, v: Commit, expected: Option<Commit>)
    requires r.Valid() && Verdict(r, clean, target, v, expected).Some?
    ensures Grows(r, r)
    ensures var verdict := Verdict(r, clean, target, v, expected).value;
      Integrates(r, r, target, v, expected, if verdict.Err? then Some(verdict.error) else None)
  {
  }

  lemma KeptIntegrates(r: Repo, r': Repo, target: Branch, v: Commit, expected: Option<Commit>, error: GitError)
    requires r'.Valid() && Kept(r, r', target)
    ensures Grows(r, r') && Integrates(r, r', target, v, expected, Some(error))
  {
    forall b | b in r.heads ensures r'.Contains(b, r.heads[b]) {
    }
  }

  lemma MovedIntegrates(r: Repo, r': Repo, head: Head, target: Branch, v: Commit, expected: Option<Commit>)
    requires r.Valid() && r'.Valid() && Moved(r, r', MovedBranch(head, target), v)
    requires head.Unborn? ==> head.branch !in r.heads && r'.history == r.history
    requires !r.Contains(target, v) && (target in r.heads && expected.Some? ==> expected.value == r.heads[target])
    ensures Grows(r, r')
    ensures r'.Contains(target, v) <==> !Astray(head, target)
    ensures !Astray(head, target) ==> Integrates(r, r', target, v, expected, None)
  {
    forall b | b in r.heads ensures r'.Contains(b, r.heads[b]) {
    }
  }

  /** HEAD is unborn on another branch: the target is then not checked out. */
  predicate Astray(head: Head, target: Branch) {
    head.Unborn? && head.branch != target
  }

  lemma NewCommit(history: map<Commit, set<Commit>>, c: Commit, parents: set<Commit>, tip: Commit, v: Commit)
    requires Closed(history) && c !in history && parents == {tip, v} && tip in history && v in history
    ensures var h := history[c := parents];
      Closed(h) && Subgraph(history, h) && Waits(h, c, tip) && Waits(h, c, v)
  {
    var h := history[c := parents];
    assert Edge(h, c, tip) && Edge(h, c, v);
    EdgeWaits(h, c, tip);
    EdgeWaits(h, c, v);
    forall a, b | Edge(h, a, b) ensures b in h {
      assert a != c ==> Edge(history, a, b);
    }
  }
}
