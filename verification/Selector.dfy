/** Choosing the best idle agent for a task. The score is a parameter: for one task, any function of the
    agent. */
module Selector {
  import opened Results
  import opened Core
  import opened Sorting

  datatype AgentState = Idle | Busy | WaitingForInput | AgentPaused | Terminated | AgentFailed

  datatype Agent = Agent(
    id: AgentId,
    role: string,
    provider: string,
    model: string,
    capabilities: seq<string>,
    state: AgentState,
    currentExecution: Option<nat>)

  datatype ProviderCapabilities = ProviderCapabilities(
    provider: string,
    model: string,
    reasoning: ReasoningTier,
    supportsTools: bool,
    supportsVision: bool,
    contextTokens: nat)

  // ----- eligibility -----

  function LowerAscii(c: char): (r: char)
    ensures 'A' <= c <= 'Z' ==> 'a' <= r <= 'z' && r as int - 'a' as int == c as int - 'A' as int
    ensures !('A' <= c <= 'Z') ==> r == c
  {
    if 'A' <= c <= 'Z' then c - 'A' + 'a' else c
  }

  predicate EqIgnoreCase(a: string, b: string) {
    |a| == |b| && forall i :: 0 <= i < |a| ==> LowerAscii(a[i]) == LowerAscii(b[i])
  }

  /** Two names agree exactly when they have the same letters in the same places, in either case. */
  lemma SameLetters(a: string, b: string)
    ensures EqIgnoreCase(a, b) <==> |a| == |b| && forall i :: 0 <= i < |a| ==> a[i] == b[i] || OtherCase(a[i], b[i]) || OtherCase(b[i], a[i])
  {
  }

  /** A lower-case letter and the capital 32 code points before it. */
  predicate OtherCase(lower: char, upper: char) {
    'a' <= lower <= 'z' && upper as int + 32 == lower as int
  }

  function Find<T>(s: seq<T>, wanted: T -> bool): Option<T> {
    if s == [] then None else if wanted(s[0]) then Some(s[0]) else Find(s[1..], wanted)
  }

  /** The entry for the exact model, else the provider's first entry. */
  function Lookup(matrix: seq<ProviderCapabilities>, a: Agent): Option<ProviderCapabilities> {
    match Find(matrix, (c: ProviderCapabilities) => EqIgnoreCase(c.provider, a.provider) && EqIgnoreCase(c.model, a.model))
    case Some(c) => Some(c)
    case None => Find(matrix, (c: ProviderCapabilities) => EqIgnoreCase(c.provider, a.provider))
  }

  predicate ProviderFits(needs: Requirements, matrix: seq<ProviderCapabilities>, a: Agent) {
    if needs.minReasoning.Rank() > 0 || needs.requiresTools || needs.requiresVision || needs.contextTokens > 0 then
      match Lookup(matrix, a)
      case None => true
      case Some(caps) =>
        && caps.reasoning.Rank() >= needs.minReasoning.Rank()
        && (needs.requiresTools ==> caps.supportsTools)
        && (needs.requiresVision ==> caps.supportsVision)
        && caps.contextTokens >= needs.contextTokens
    else true
  }

  predicate Eligible(needs: Requirements, matrix: seq<ProviderCapabilities>, a: Agent) {
    && a.state == Idle && a.currentExecution == None
    && (forall req :: req in needs.capabilities ==> exists c :: c in a.capabilities && EqIgnoreCase(c, req))
    && ProviderFits(needs, matrix, a)
  }

  predicate NamesAgree(c: ProviderCapabilities, a: Agent, model: bool) {
    EqIgnoreCase(c.provider, a.provider) && (model ==> EqIgnoreCase(c.model, a.model))
  }

  /** Entry `k` is what the matrix says about the agent: the first for its provider and model, or, if there is none,
      the first for its provider. */
  predicate Describes(matrix: seq<ProviderCapabilities>, a: Agent, k: nat)
    requires k < |matrix|
  {
    if exists i :: 0 <= i < |matrix| && NamesAgree(matrix[i], a, true)
    then NamesAgree(matrix[k], a, true) && forall i :: 0 <= i < k ==> !NamesAgree(matrix[i], a, true)
    else NamesAgree(matrix[k], a, false) && forall i :: 0 <= i < k ==> !NamesAgree(matrix[i], a, false)
  }

  lemma {:induction false} FindsFirst<T>(s: seq<T>, wanted: T -> bool)
    ensures Find(s, wanted) == None <==> forall i :: 0 <= i < |s| ==> !wanted(s[i])
    ensures forall k :: 0 <= k < |s| && wanted(s[k]) && (forall i :: 0 <= i < k ==> !wanted(s[i])) ==> Find(s, wanted) == Some(s[k])
  {
    if s != [] && !wanted(s[0]) {
      FindsFirst(s[1..], wanted);
      forall k | 0 <= k < |s| && wanted(s[k]) && (forall i :: 0 <= i < k ==> !wanted(s[i])) ensures Find(s, wanted) == Some(s[k]) {
        assert s[1..][k - 1] == s[k];
        assert forall i :: 0 <= i < k - 1 ==> s[1..][i] == s[i + 1];
      }
    }
  }

  /** An agent qualifies exactly when it is free, has every required capability whatever the case of letters, and the
      matrix entry that describes its provider, if there is one, meets every requirement. */
  lemma EligibleMeans(needs: Requirements, matrix: seq<ProviderCapabilities>, a: Agent, k: nat)
    requires k < |matrix| && Describes(matrix, a, k)
    ensures Eligible(needs, matrix, a) <==>
      && a.state == Idle && a.currentExecution == None
      && (forall req :: req in needs.capabilities ==> exists c :: c in a.capabilities && EqIgnoreCase(c, req))
      && needs.minReasoning.Rank() <= matrix[k].reasoning.Rank() && needs.contextTokens <= matrix[k].contextTokens
      && (matrix[k].supportsTools || !needs.requiresTools) && (matrix[k].supportsVision || !needs.requiresVision)
  {
    FindsFirst(matrix, (c: ProviderCapabilities) => EqIgnoreCase(c.provider, a.provider) && EqIgnoreCase(c.model, a.model));
    FindsFirst(matrix, (c: ProviderCapabilities) => EqIgnoreCase(c.provider, a.provider));
    assert Lookup(matrix, a) == Some(matrix[k]);
  }

  /** An agent of an unknown provider is not held back by what the matrix would have to say. */
  lemma UnknownProviderQualifies(needs: Requirements, matrix: seq<ProviderCapabilities>, a: Agent)
    requires forall i :: 0 <= i < |matrix| ==> !NamesAgree(matrix[i], a, false)
    ensures Eligible(needs, matrix, a) <==>
      && a.state == Idle && a.currentExecution == None
      && (forall req :: req in needs.capabilities ==> exists c :: c in a.capabilities && EqIgnoreCase(c, req))
  {
    FindsFirst(matrix, (c: ProviderCapabilities) => EqIgnoreCase(c.provider, a.provider) && EqIgnoreCase(c.model, a.model));
    FindsFirst(matrix, (c: ProviderCapabilities) => EqIgnoreCase(c.provider, a.provider));
  }

  // ----- selection -----

  /** Higher score first; among equal scores the smaller id. */
  predicate Better(score: Agent -> int, a: Agent, b: Agent) {
    score(a) > score(b) || (score(a) == score(b) && a.id.uuid < b.id.uuid)
  }

  function SelectBest(needs: Requirements, candidates: seq<Agent>, matrix: seq<ProviderCapabilities>,
                      score: Agent -> int): Option<Agent> {
    var eligible := Filter(a => Eligible(needs, matrix, a), candidates);
    var sorted := SortBy((a, b) => Better(score, a, b), eligible);
    if sorted == [] then None else Some(sorted[0])
  }

  ghost predicate DistinctAgents(agents: seq<Agent>) {
    forall i, j :: 0 <= i < j < |agents| ==> agents[i].id != agents[j].id
  }

  /** The choice is an eligible candidate that no other eligible candidate beats, and there is no
      choice exactly when no candidate is eligible. */
  lemma SelectsBest(needs: Requirements, candidates: seq<Agent>, matrix: seq<ProviderCapabilities>, score: Agent -> int)
    ensures var r := SelectBest(needs, candidates, matrix, score);
      && (r == None <==> forall a :: a in candidates ==> !Eligible(needs, matrix, a))
      && (r.Some? ==> r.value in candidates && Eligible(needs, matrix, r.value))
      && (r.Some? ==> forall a :: a in candidates && Eligible(needs, matrix, a) ==> !Better(score, a, r.value))
      && (r.Some? ==> forall a :: a in candidates && Eligible(needs, matrix, a) ==>
            score(a) < score(r.value) || (score(a) == score(r.value) && r.value.id.uuid <= a.id.uuid))
  {
    var keep := a => Eligible(needs, matrix, a);
    var better := (a, b) => Better(score, a, b);
    var eligible := Filter(keep, candidates);
    FilterMembers(keep, candidates);
    SortPermutes(better, eligible);
    SortSorts(better, eligible);
    var sorted := SortBy(better, eligible);
    forall a ensures a in sorted <==> a in candidates && Eligible(needs, matrix, a) {
      assert a in sorted <==> a in multiset(sorted);
      assert a in eligible <==> a in multiset(eligible);
    }
    if sorted != [] {
      assert sorted[0] in sorted;
      forall a | a in sorted ensures !Better(score, a, sorted[0]) {
        var i :| 0 <= i < |sorted| && sorted[i] == a;
        assert i > 0 ==> !better(sorted[i], sorted[0]);
      }
    }
  }

  /** With distinct ids the choice does not depend on the order of the candidates. */
  lemma SelectionIgnoresOrder(needs: Requirements, candidates: seq<Agent>, other: seq<Agent>,
                              matrix: seq<ProviderCapabilities>, score: Agent -> int)
    requires DistinctAgents(candidates)
    requires forall a :: a in candidates <==> a in other
    ensures SelectBest(needs, candidates, matrix, score) == SelectBest(needs, other, matrix, score)
  {
    SelectsBest(needs, candidates, matrix, score);
    SelectsBest(needs, other, matrix, score);
    var r, s := SelectBest(needs, candidates, matrix, score), SelectBest(needs, other, matrix, score);
    if r.Some? && s.Some? {
      assert !Better(score, r.value, s.value) && !Better(score, s.value, r.value);
      assert r.value.id == s.value.id;
    }
  }
}
