/** The request handlers that change missions one store write at a time, and the table of workspace
    locks they share. A handler runs alone here; `Integration` interleaves them. */
module MissionHandlers {
  import opened Results
  import opened Git
  import opened Missions
  import opened Integration

  /** Whether the store takes the writes of one request. */
  datatype Disk = Disk(first: bool, last: bool)

  class MissionDesk {
    var missions: map<MissionId, Mission>

    constructor ()
      ensures missions == map[]
    {
      missions := map[];
    }

    /** Merges the verified commit as the recorded intent says, if there is a repository. */
    method MergeVerified(mission: Mission, target: Branch, repo: Repository?, w: Weather) returns (refused: Option<GitError>)
      requires repo != null ==> repo.Valid() && w.mergeCommit !in repo.history
      requires mission.commit.Some? && mission.intent.Some?
      modifies repo
      ensures repo != null ==> repo.Valid() && Grows(old(repo.State()), repo.State())
      ensures refused == old(MergeRefusal(mission.commit.value, mission.intent.value.expected, target, repo, w))
      ensures refused == None && repo != null && !Astray(old(repo.head), target) ==>
        repo.State().Contains(target, mission.commit.value)
      ensures refused.Some? && repo != null ==> HeadsKept(old(repo.heads), repo.heads)
    {
      if repo == null {
        return None;
      }
      var merged := repo.IntegrateGitCommit(target, mission.commit.value, mission.intent.value.expected, w);
      return if merged.Err? then Some(merged.error) else None;
    }

    /** Integrates a mission that has passed the checks: intent, merge, outcome. */
    method IntegrateAdmitted(id: MissionId, target: Branch, given: Option<Commit>, force: bool,
                             repo: Repository?, w: Weather, disk: Disk)
      returns (reply: Reply)
      requires id in missions && Admit(missions[id]) == None
      requires repo != null ==> repo.Valid() && w.mergeCommit !in repo.history
      modifies `missions, repo
      ensures repo != null ==> repo.Valid() && Grows(old(repo.State()), repo.State())
      ensures reply == ReplyTo(old(GitRefusal(missions[id], target, given, force, repo, w)), disk)
      ensures IntegrationRecorded(old(missions), missions, id, WithIntent(old(missions)[id], target, given, force), target, disk, reply)
      ensures reply == Fresh && repo != null && !Astray(old(repo.head), target) ==>
        repo.State().Contains(target, old(missions)[id].commit.value)
      ensures reply != Fresh && repo != null ==> HeadsKept(old(repo.heads), repo.heads) || (disk.first && !disk.last)
    {
      var mission := WithIntent(missions[id], target, given, force);
      if !disk.first {
        return Refused(Internal);
      }
      missions := missions[id := mission];
      var refused := MergeVerified(mission, target, repo, w);
      if refused.Some? {
        if disk.last {
          missions := missions[id := RolledBack(mission)];
        }
        return Refused(StatusOf(refused.value));
      }
      if !disk.last {
        return Refused(Internal);
      }
      missions := missions[id := Finished(mission, target)];
      return Fresh;
    }

    /** Integrates an accepted (or completed) mission. `repo` is its workspace's repository, null when
        it has none or it cannot be read. */
    method ExecuteCanonicalIntegration(id: MissionId, target: Branch, given: Option<Commit>, force: bool,
                                       repo: Repository?, w: Weather, disk: Disk)
      returns (reply: Reply)
      requires repo != null ==> repo.Valid() && w.mergeCommit !in repo.history
      modifies `missions, repo
      ensures repo != null ==> repo.Valid() && Grows(old(repo.State()), repo.State())
      ensures id !in old(missions) ==> reply == Refused(NotFound) && missions == old(missions)
      ensures id in old(missions) && Admit(old(missions)[id]).Some? ==>
        reply == Admit(old(missions)[id]).value && missions == old(missions)
      ensures reply == Already <==> id in old(missions) && old(missions)[id].state == Integrated
      ensures id in old(missions) && old(missions)[id].state !in {Accepted, Completed, Integrated} ==>
        reply == Refused(Conflict) && missions == old(missions)
      ensures
        && id in old(missions) && old(missions)[id].state in {Accepted, Completed}
        && (old(missions)[id].commit == None || old(missions)[id].outcome == Some(false)) ==>
        reply == Refused(Conflict) && missions == old(missions)
      ensures
        && id in old(missions) && old(missions)[id].state in {Accepted, Completed} && old(missions)[id].commit.Some?
        && old(missions)[id].outcome != Some(false) && repo == null && disk == Disk(true, true) ==>
        reply == Fresh
      ensures reply == Fresh ==> id in old(missions) && old(missions)[id].state in {Accepted, Completed}
      ensures reply == Fresh ==> old(missions)[id].commit.Some? && old(missions)[id].outcome != Some(false)
      ensures reply == Fresh ==> missions == old(missions)[id := AsIntegrated(old(missions)[id], target, given, force)]
      ensures id in old(missions) && Admit(old(missions)[id]) == None ==>
        && reply == ReplyTo(old(GitRefusal(missions[id], target, given, force, repo, w)), disk)
        && IntegrationRecorded(old(missions), missions, id, WithIntent(old(missions)[id], target, given, force), target, disk, reply)
      ensures reply == Fresh && repo != null && !Astray(old(repo.head), target) ==>
        repo.State().Contains(target, old(missions)[id].commit.value)
      ensures reply != Fresh && repo != null ==> HeadsKept(old(repo.heads), repo.heads) || (disk.first && !disk.last)
    {
      if id !in missions {
        return Refused(NotFound);
      }
      var verdict := Admit(missions[id]);
      if verdict.Some? {
        return verdict.value;
      }
      AsIntegratedIsFinished(missions[id], target, given, force);
      reply := IntegrateAdmitted(id, target, given, force, repo, w, disk);
    }

    /** Stores the acceptance; no answer yet means that the integration is to follow. */
    method RecordAcceptance(id: MissionId, integrate: bool, accepted: bool) returns (r: Option<Result<MissionState, Status>>)
      modifies `missions
      ensures r == None <==> id in old(missions) && ToBeAccepted(old(missions)[id], integrate) && accepted && integrate
      ensures id !in old(missions) ==> r == Some(Err(NotFound))
      ensures id in old(missions) && Accepting(old(missions)[id], integrate).Err? ==> r == Some(Err(Conflict))
      ensures id in old(missions) && Settled(old(missions)[id], integrate) ==> r == Some(Ok(old(missions)[id].state))
      ensures id in old(missions) && ToBeAccepted(old(missions)[id], integrate) && !accepted ==> r == Some(Err(Internal))
      ensures id in old(missions) && ToBeAccepted(old(missions)[id], integrate) && accepted && !integrate ==> r == Some(Ok(Accepted))
      ensures missions ==
        if id in old(missions) && ToBeAccepted(old(missions)[id], integrate) && accepted
        then old(missions)[id := old(missions)[id].(state := Accepted)] else old(missions)
    {
      if id !in missions {
        return Some(Err(NotFound));
      }
      var mission := missions[id];
      if mission.state == Integrated || (mission.state == Accepted && !integrate) {
        return Some(Ok(mission.state));
      }
      if mission.state != AwaitingAcceptance && mission.state != Accepted {
        return Some(Err(Conflict));
      }
      if mission.commit == None || mission.outcome == Some(false) {
        return Some(Err(Conflict));
      }
      if !accepted {
        return Some(Err(Internal));
      }
      missions := missions[id := mission.Try(Accepted)];
      return if integrate then None else Some(Ok(Accepted));
    }

    /** Integrates a mission whose acceptance has just been stored. */
    method IntegrateAccepted(id: MissionId, target: Branch, given: Option<Commit>, force: bool,
                             repo: Repository?, w: Weather, disk: Disk)
      returns (r: Result<MissionState, Status>)
      requires id in missions && missions[id].state == Accepted && Admit(missions[id]) == None
      requires repo != null ==> repo.Valid() && w.mergeCommit !in repo.history
      modifies `missions, repo
      ensures var reply := ReplyTo(old(GitRefusal(missions[id], target, given, force, repo, w)), disk);
        && r == (if reply.Refused? then Err(reply.why) else Ok(Integrated))
        && IntegrationRecorded(old(missions), missions, id, WithIntent(old(missions)[id], target, given, force), target, disk, reply)
      ensures id in missions && (r.Ok? ==> missions[id].state == Integrated)
      ensures forall n :: n in old(missions) && n != id ==> n in missions && missions[n] == old(missions)[n]
      ensures r.Ok? && repo != null && !Astray(old(repo.head), target) ==>
        repo.State().Contains(target, old(missions)[id].commit.value)
      ensures repo != null ==> repo.Valid() && Grows(old(repo.State()), repo.State())
    {
      var reply := ExecuteCanonicalIntegration(id, target, given, force, repo, w, disk);
      return if reply.Refused? then Err(reply.why) else Ok(Integrated);
    }

    /** Accepts a mission's deliverable, and integrates it at once when asked to. */
    method AcceptMission(id: MissionId, integrate: bool, target: Branch, given: Option<Commit>, force: bool,
                         repo: Repository?, w: Weather, accepted: bool, disk: Disk)
      returns (r: Result<MissionState, Status>)
      requires repo != null ==> repo.Valid() && w.mergeCommit !in repo.history
      modifies `missions, repo
      ensures id !in old(missions) ==> r == Err(NotFound) && missions == old(missions)
      ensures id in old(missions) && Accepting(old(missions)[id], integrate).Err? ==> r == Err(Conflict) && missions == old(missions)
      ensures id in old(missions) && ToBeAccepted(old(missions)[id], integrate) && !accepted ==>
        r == Err(Internal) && missions == old(missions)
      ensures r.Ok? <==>
        && id in old(missions)
        && (Settled(old(missions)[id], integrate)
            || (ToBeAccepted(old(missions)[id], integrate) && accepted && (integrate ==>
                  disk.first && disk.last && old(GitRefusal(missions[id], target, given, force, repo, w)) == None)))
      ensures r.Ok? ==> id in missions && missions[id].state == r.value && r.value in {Accepted, Integrated}
      ensures r == Ok(Integrated) ==> old(missions)[id].state == Integrated || integrate
      ensures r.Ok? && !integrate ==> missions == old(missions)[id := Accepting(old(missions)[id], false).value]
      ensures id in old(missions) && ToBeAccepted(old(missions)[id], integrate) && accepted && integrate ==>
        var answer := ReplyTo(old(GitRefusal(missions[id], target, given, force, repo, w)), disk);
        && (answer.Refused? ==> r == Err(answer.why))
        && AcceptedThenIntegrated(old(missions), missions, id, target, given, force, disk, answer)
      ensures r == Ok(Integrated) && old(missions)[id].state != Integrated && repo != null && !Astray(old(repo.head), target) ==>
        repo.State().Contains(target, old(missions)[id].commit.value)
      ensures repo != null ==> repo.Valid() && Grows(old(repo.State()), repo.State())
      ensures forall n :: n in old(missions) && n != id ==> n in missions && missions[n] == old(missions)[n]
    {
      var decided := RecordAcceptance(id, integrate, accepted);
      if decided.Some? {
        return decided.value;
      }
      r := IntegrateAccepted(id, target, given, force, repo, w, disk);
    }

    /** Rejects a deliverable, for good or for another planning round. The reply names the state asked
        for; `Missions.RejectReportsTruthfully` says when that is the state stored. */
    method RejectMission(id: MissionId, reasonGiven: bool, replan: bool, stored: bool) returns (r: Result<MissionState, Status>)
      modifies `missions
      ensures !reasonGiven ==> r == Err(BadRequest)
      ensures reasonGiven && id !in old(missions) ==> r == Err(NotFound)
      ensures reasonGiven && id in old(missions) && Rejecting(old(missions)[id], replan).Err? ==> r == Err(Conflict)
      ensures r.Err? ==> missions == old(missions)
      ensures r.Ok? <==> reasonGiven && id in old(missions) && Rejecting(old(missions)[id], replan).Ok? && stored
      ensures r == Err(Internal) <==> reasonGiven && id in old(missions) && Rejecting(old(missions)[id], replan).Ok? && !stored
      ensures r.Ok? ==> missions == old(missions)[id := Rejecting(old(missions)[id], replan).value]
      ensures r.Ok? ==> r.value == if replan then Replanning else Rejected
      ensures r.Ok? ==> old(missions)[id].state in {AwaitingAcceptance, Accepted}
      ensures reasonGiven && id in old(missions) && old(missions)[id].state in {AwaitingAcceptance, Accepted} && stored ==> r.Ok?
      ensures r.Ok? && !replan ==> missions == old(missions)[id := old(missions)[id].(state := Rejected)]
      ensures r.Ok? && replan && old(missions)[id].state == AwaitingAcceptance ==>
        missions == old(missions)[id := old(missions)[id].(state := Replanning)]
      ensures r.Ok? && replan && old(missions)[id].state == Accepted ==> missions == old(missions)
    {
      if !reasonGiven {
        return Err(BadRequest);
      }
      if id !in missions {
        return Err(NotFound);
      }
      var mission := missions[id];
      if mission.state == Integrated || (mission.state != AwaitingAcceptance && mission.state != Accepted) {
        return Err(Conflict);
      }
      if !stored {
        return Err(Internal);
      }
      if replan {
        missions := missions[id := mission.Try(Replanning)];
        return Ok(Replanning);
      }
      missions := missions[id := mission.Try(Rejected)];
      return Ok(Rejected);
    }
  }

  /** The record of an integrated mission. The head expected on the target is the one given, or else the one
      verified against; forcing expects none. */
  function AsIntegrated(m: Mission, target: Branch, given: Option<Commit>, force: bool): Mission
    requires m.commit.Some?
  {
    var expected := if force then None else if given == None then m.verifiedHead else given;
    m.(state := Integrated, target := Some(target), intent := Some(Intent(target, m.commit.value, expected)))
  }

  lemma AsIntegratedIsFinished(m: Mission, target: Branch, given: Option<Commit>, force: bool)
    requires Admit(m) == None
    ensures Finished(WithIntent(m, target, given, force), target) == AsIntegrated(m, target, given, force)
  {
  }

  /** Why git refuses a merge; without a repository it never does. */
  ghost function MergeRefusal(v: Commit, expected: Option<Commit>, target: Branch, repo: Repository?, w: Weather): Option<GitError>
    reads repo
  {
    if repo == null then None else Refusal(repo.State(), repo.clean, repo.head, target, v, expected, w)
  }

  /** Why git refuses to integrate the mission. */
  ghost function GitRefusal(m: Mission, target: Branch, given: Option<Commit>, force: bool, repo: Repository?, w: Weather)
    : Option<GitError>
    requires m.commit.Some?
    reads repo
  {
    MergeRefusal(m.commit.value, ExpectedHead(m, given, force), target, repo, w)
  }

  /** The reply to an admitted integration, by what git says and which writes reach the store. */
  function ReplyTo(refusal: Option<GitError>, disk: Disk): (reply: Reply)
    ensures reply == Fresh <==> disk.first && disk.last && refusal == None
    ensures reply == Refused(Internal) <==> !disk.first || (!disk.last && refusal == None)
    ensures reply == Refused(Conflict) <==> disk.first && refusal in {Some(DirtyTree), Some(MergeConflict), Some(TargetMoved)}
    ensures reply == Refused(BadRequest) <==> disk.first && refusal in {Some(CommitNotFound), Some(CheckoutFailed)}
  {
    if disk.first && refusal.Some? then Refused(StatusOf(refusal.value))
    else if disk.first && disk.last then Fresh
    else Refused(Internal)
  }

  /** There is nothing to write for an accept request. */
  predicate Settled(m: Mission, integrate: bool) {
    m.state == Integrated || (m.state == Accepted && !integrate)
  }

  /** The request passes every check and has something to write. */
  predicate ToBeAccepted(m: Mission, integrate: bool) {
    Accepting(m, integrate).Ok? && !Settled(m, integrate)
  }

  /** The acceptance is stored before the integration starts, and stays when that fails. */
  ghost predicate AcceptedThenIntegrated(was: map<MissionId, Mission>, now: map<MissionId, Mission>, id: MissionId,
                                         target: Branch, given: Option<Commit>, force: bool, disk: Disk, reply: Reply)
    requires id in was && was[id].commit.Some?
  {
    var m := was[id].(state := Accepted);
    IntegrationRecorded(was[id := m], now, id, WithIntent(m, target, given, force), target, disk, reply)
  }

  /** What an admitted integration leaves in the store, reply by reply: nothing new, the bare intent, the
      rolled back record or the finished one. */
  ghost predicate IntegrationRecorded(was: map<MissionId, Mission>, now: map<MissionId, Mission>, id: MissionId,
                                      begun: Mission, target: Branch, disk: Disk, reply: Reply) {
    match reply
    case Fresh => disk.first && disk.last && now == was[id := Finished(begun, target)]
    case Already => false
    case Refused(Internal) => now == if disk.first then was[id := begun] else was
    case Refused(why) => disk.first && now == was[id := if disk.last then RolledBack(begun) else begun]
  }

  /** An admitted mission is `Integrating` while its intent stands. Rolling back restores the record but
      for the intent, and leaves a mission that had merely been completed as an accepted one. */
  lemma WaysOut(m: Mission, target: Branch, given: Option<Commit>, force: bool)
    requires Admit(m) == None
    ensures var begun := WithIntent(m, target, given, force);
      && begun.state == MissionState.Integrating
      && Finished(begun, target).state == Integrated
      && RolledBack(begun) == m.(state := Accepted, intent := begun.intent)
      && (force ==> begun.intent.value.expected == None)
      && (begun.intent.value.expected == None ==> force || (given == None && m.verifiedHead == None))
  {
  }

  /** The table of workspace locks. */
  class WorkspaceLockManager {
    var locks: map<WorkspaceId, LockId>
    var made: nat

    ghost predicate Valid()
      reads this
    {
      && (forall ws :: ws in locks ==> locks[ws].n < made)
      && (forall v, w :: v in locks && w in locks && locks[v] == locks[w] ==> v == w)
    }

    constructor ()
      ensures Valid() && locks == map[]
    {
      locks, made := map[], 0;
    }

    /** The lock of a workspace: the one it has, or a new one nobody else has. */
    method GetLock(ws: WorkspaceId) returns (lock: LockId)
      requires Valid()
      modifies this
      ensures Valid()
      ensures locks == if ws in old(locks) then old(locks) else old(locks)[ws := lock]
      ensures ws in locks && locks[ws] == lock
      ensures forall other :: other in locks && other != ws ==> locks[other] != lock
    {
      if ws in locks {
        return locks[ws];
      }
      if ws !in locks {
        locks, made := locks[ws := LockId(made)], made + 1;
      }
      return locks[ws];
    }
  }
}
