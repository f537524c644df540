/** The screen's state holder, `ExerciseViewModel`
    (presentation/viewmodel/ExerciseViewModel.kt). Every coroutine runs to
    completion before the next call; the permission check, the provider's
    reply and the fresh UUID are inputs. */
module ViewModel {
  import opened Results
  import opened Domain
  import opened Entity
  import opened Sorting
  import opened Conflicts
  import opened Store
  import opened Repository

  /** `UiState`: what the screen shows. */
  datatype UiState = UiState(
    logs: seq<ExerciseLog>,
    conflicts: seq<ConflictPair>,
    loading: bool,
    error: Option<string>)

  /** `UiState()` with every field at its default. */
  const InitialState := UiState([], [], false, None)

  /** The pair names the record with id `id` on one side or the other. */
  predicate Involves(p: ConflictPair, id: string) {
    p.0.id == id || p.1.id == id
  }

  /** `conflicts.flatMap { listOf(it.first.id, it.second.id) }.toSet()`. */
  function ConflictedIds(conflicts: seq<ConflictPair>): (r: set<string>)
    ensures forall id :: id in r <==> exists p :: p in conflicts && Involves(p, id)
  {
    (set p | p in conflicts :: p.0.id) + (set p | p in conflicts :: p.1.id)
  }

  /** `merged.map { log -> log.copy(conflicted = conflictedIds.contains(log.id)) }`. */
  function TagConflicted(merged: seq<ExerciseLog>, ids: set<string>): seq<ExerciseLog> {
    seq(|merged|, i requires 0 <= i < |merged| => merged[i].(conflicted := merged[i].id in ids))
  }

  function StartKey(l: ExerciseLog): int {
    l.start
  }

  /** The list `load` shows: the merged records, flagged, latest start first. */
  function LoadedLogs(merged: seq<ExerciseLog>, conflicts: seq<ConflictPair>): seq<ExerciseLog> {
    SortDescending(TagConflicted(merged, ConflictedIds(conflicts)), StartKey)
  }

  /** Tagging changes only the flag, and sets it exactly on the records some
      returned pair names. */
  lemma TagConflictedSpec(merged: seq<ExerciseLog>, conflicts: seq<ConflictPair>)
    ensures var t := TagConflicted(merged, ConflictedIds(conflicts));
            && |t| == |merged|
            && (forall i :: 0 <= i < |t| ==> t[i].(conflicted := false) == merged[i].(conflicted := false))
            && (forall i :: 0 <= i < |t| ==>
                  (t[i].conflicted <==> exists p :: p in conflicts && Involves(p, merged[i].id)))
  {
  }

  /** The shown list is ordered by start, latest first; it holds the merged
      records, each once, flagged exactly when some returned pair names it. */
  lemma LoadedLogsSpec(merged: seq<ExerciseLog>, conflicts: seq<ConflictPair>)
    ensures SortedDescending(LoadedLogs(merged, conflicts), StartKey)
    ensures multiset(LoadedLogs(merged, conflicts)) == multiset(TagConflicted(merged, ConflictedIds(conflicts)))
    ensures |LoadedLogs(merged, conflicts)| == |merged|
    ensures forall l :: l in LoadedLogs(merged, conflicts) ==>
              (l.conflicted <==> exists p :: p in conflicts && Involves(p, l.id))
  {
    var t := TagConflicted(merged, ConflictedIds(conflicts));
    var r := LoadedLogs(merged, conflicts);
    assert |r| == |multiset(r)| == |multiset(t)| == |t|;
    forall l | l in r ensures l.conflicted <==> exists p :: p in conflicts && Involves(p, l.id) {
      assert l in multiset(t);
      var i :| 0 <= i < |t| && t[i] == l;
    }
  }

  /** The state after `load`: on success the flagged, sorted list and the
      returned pairs, the error left as it was; on an exception the lists
      left as they were and the exception's message as the error. Either way
      `loading` ends false. */
  function AfterLoad(st: UiState, view: Result<(seq<ExerciseLog>, seq<ConflictPair>)>): UiState {
    match view
    case Success((merged, conflicts)) =>
      st.(logs := LoadedLogs(merged, conflicts), conflicts := conflicts, loading := false)
    case Failure(message) =>
      st.(loading := false, error := Some(message))
  }

  /** A successful load shows exactly what the repository returned. */
  lemma LoadSuccess(st: UiState, merged: seq<ExerciseLog>, conflicts: seq<ConflictPair>)
    ensures var r := AfterLoad(st, Success((merged, conflicts)));
            && !r.loading && r.error == st.error && r.conflicts == conflicts
            && SortedDescending(r.logs, StartKey) && |r.logs| == |merged|
            && forall l :: l in r.logs ==> (l.conflicted <==> exists p :: p in conflicts && Involves(p, l.id))
  {
    LoadedLogsSpec(merged, conflicts);
  }

  /** A failed load keeps what was shown and reports the message; from the
      initial state nothing is shown. */
  lemma LoadFailure(st: UiState, message: string)
    ensures var r := AfterLoad(st, Failure(message));
            && !r.loading && r.error == Some(message)
            && r.logs == st.logs && r.conflicts == st.conflicts
    ensures AfterLoad(InitialState, Failure(message)).logs == []
  {
  }

  /** The index of the first pair naming `id` (`conflicts.find { ... }`). */
  function FirstInvolving(conflicts: seq<ConflictPair>, id: string): (r: Option<nat>)
    ensures r.None? <==> forall i :: 0 <= i < |conflicts| ==> !Involves(conflicts[i], id)
    ensures r.Some? ==> r.value < |conflicts| && Involves(conflicts[r.value], id)
                        && forall j :: 0 <= j < r.value ==> !Involves(conflicts[j], id)
  {
    if conflicts == [] then None
    else if Involves(conflicts[0], id) then Some(0)
    else
      match FirstInvolving(conflicts[1..], id)
      case None => None
      case Some(k) => Some(k + 1)
  }

  /** The other side of a pair that names `id`. */
  function Partner(p: ConflictPair, id: string): (r: ExerciseLog)
    requires Involves(p, id)
    ensures r == p.0 || r == p.1
    ensures p.0.id == id ==> r == p.1
    ensures p.0.id != id ==> p.1.id == id && r == p.0
  {
    if p.0.id == id then p.1 else p.0
  }

  /** Every stored row carries the MANUAL tag: the only writer is `addManual`. */
  predicate AllManual(rows: seq<ExerciseEntity>) {
    forall e :: e in rows ==> e.source == "MANUAL"
  }

  class ExerciseViewModel {
    const repository: ExerciseRepository
    var state: UiState
    var showPermissionRationale: bool

    /** The store keeps distinct keys and holds only rows the view model
        wrote. */
    ghost predicate Valid()
      reads this, repository, repository.dao
    {
      repository.dao.Valid() && AllManual(repository.dao.rows)
    }

    constructor (repository: ExerciseRepository)
      requires repository.dao.Valid() && AllManual(repository.dao.rows)
      ensures this.repository == repository
      ensures state == InitialState && !showPermissionRationale
      ensures Valid()
    {
      this.repository := repository;
      state := InitialState;
      showPermissionRationale := false;
    }

    /** `load()`: `loading` is raised while the repository is read, then the
        state becomes `AfterLoad` of what `getMergedLogs` returned. */
    method Load(hasPermission: bool, reply: ProviderReply)
      modifies this
      ensures state == AfterLoad(old(state), MergedView(repository.dao.rows, repository.ignoredHealthConnectIds,
                                                        repository.resolvedConflicts, hasPermission, reply))
      ensures showPermissionRationale == old(showPermissionRationale)
    {
      state := state.(loading := true);
      var st := state;
      var result := repository.GetMergedLogs(hasPermission, reply);
      match result {
        case Success((merged, conflicts)) =>
          state := st.(logs := LoadedLogs(merged, conflicts), conflicts := conflicts, loading := false);
        case Failure(message) =>
          state := st.(loading := false, error := Some(message));
      }
    }

    /** `addManual(type, start, end, calories)`: stores a new MANUAL record
        under the fresh id, then reloads. */
    method AddManual(freshId: string, exerciseType: string, start: int, end: int, calories: Option<int>,
                     hasPermission: bool, reply: ProviderReply)
      requires Valid()
      modifies this, repository.dao
      ensures Valid()
      ensures repository.dao.rows
              == WithoutIds(old(repository.dao.rows), {freshId})
                 + [ToEntity(NewLog(freshId, exerciseType, start, end, calories, Manual))]
      ensures state == AfterLoad(old(state), MergedView(repository.dao.rows, repository.ignoredHealthConnectIds,
                                                        repository.resolvedConflicts, hasPermission, reply))
      ensures showPermissionRationale == old(showPermissionRationale)
    {
      var newLog := NewLog(freshId, exerciseType, start, end, calories, Manual);
      WithoutIdsMembers(repository.dao.rows, {freshId});
      repository.AddManualLog(newLog);
      Load(hasPermission, reply);
    }

    /** `resolveConflict(keep, drop)`: forwards both records, ignores the
        Boolean answer, then reloads. Because the store holds only MANUAL
        rows, the pass applied is also the one the source's tag dispatch
        would apply. */
    method ResolveConflict(keep: ExerciseLog, drop: ExerciseLog, hasPermission: bool, reply: ProviderReply)
      requires Valid()
      modifies this, repository, repository.dao
      ensures Valid()
      ensures ReadManual(old(repository.dao.rows)).Success? && reply.Records? ==>
                repository.State() == Pass(old(repository.State()), keep, reply.records)
                && repository.State() == TagDispatchPass(old(repository.State()), keep, reply.records)
      ensures !(ReadManual(old(repository.dao.rows)).Success? && reply.Records?) ==>
                repository.State() == old(repository.State())
      ensures state == AfterLoad(old(state), MergedView(repository.dao.rows, repository.ignoredHealthConnectIds,
                                                        repository.resolvedConflicts, hasPermission, reply))
      ensures showPermissionRationale == old(showPermissionRationale)
    {
      ghost var s0 := repository.State();
      var _ := repository.ResolveConflict(keep, drop, reply);
      if ReadManual(s0.rows).Success? && reply.Records? {
        TagDispatchAgrees(s0, keep, reply.records);
        WithoutIdsMembers(s0.rows, IdsOf(OverlappingWith(keep, ReadManual(s0.rows).value)));
      }
      Load(hasPermission, reply);
    }

    /** `keepAndRemoveOther(log)`: resolves `log` against the other side of
        the first shown pair that names it; with no such pair nothing
        happens. */
    method KeepAndRemoveOther(log: ExerciseLog, hasPermission: bool, reply: ProviderReply)
      requires Valid()
      modifies this, repository, repository.dao
      ensures Valid()
      ensures FirstInvolving(old(state.conflicts), log.id).None? ==>
                state == old(state) && repository.State() == old(repository.State())
      ensures FirstInvolving(old(state.conflicts), log.id).Some? ==>
                state == AfterLoad(old(state), MergedView(repository.dao.rows, repository.ignoredHealthConnectIds,
                                                          repository.resolvedConflicts, hasPermission, reply))
                && (ReadManual(old(repository.dao.rows)).Success? && reply.Records? ==>
                      repository.State() == Pass(old(repository.State()), log, reply.records)
                      && repository.State() == TagDispatchPass(old(repository.State()), log, reply.records))
                && (!(ReadManual(old(repository.dao.rows)).Success? && reply.Records?) ==>
                      repository.State() == old(repository.State()))
      ensures showPermissionRationale == old(showPermissionRationale)
    {
      var found := FirstInvolving(state.conflicts, log.id);
      if found.Some? {
        var keep := log;
        var drop := Partner(state.conflicts[found.value], log.id);
        ghost var s0 := repository.State();
        var _ := repository.ResolveConflict(keep, drop, reply);
        if ReadManual(s0.rows).Success? && reply.Records? {
          TagDispatchAgrees(s0, keep, reply.records);
          WithoutIdsMembers(s0.rows, IdsOf(OverlappingWith(keep, ReadManual(s0.rows).value)));
        }
        Load(hasPermission, reply);
      }
    }

    /** `onSyncClick`: with every permission granted it loads; otherwise it
        raises the rationale dialog and loads nothing. */
    method OnSyncClick(hasPermission: bool, reply: ProviderReply)
      modifies this
      ensures hasPermission ==>
                showPermissionRationale == old(showPermissionRationale)
                && state == AfterLoad(old(state), MergedView(repository.dao.rows, repository.ignoredHealthConnectIds,
                                                            repository.resolvedConflicts, true, reply))
      ensures !hasPermission ==> showPermissionRationale && state == old(state)
    {
      if hasPermission {
        Load(true, reply);
      } else {
        showPermissionRationale := true;
      }
    }

    /** `launchPermissionsRequest`: hides the dialog before the system
        prompt is launched. */
    method LaunchPermissionsRequest()
      modifies this
      ensures !showPermissionRationale && state == old(state)
    {
      showPermissionRationale := false;
    }

    /** `onPermissionRationaleDismissed`: hides the dialog. */
    method OnPermissionRationaleDismissed()
      modifies this
      ensures !showPermissionRationale && state == old(state)
    {
      showPermissionRationale := false;
    }
  }
}
