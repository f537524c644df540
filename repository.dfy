/** The merge and conflict engine, `ExerciseRepositoryImpl`
    (data/repository/ExerciseRepoInterfaceImpl.kt). The Health Connect
    provider is a reply fixed for the length of one call, and the permission
    check is a Boolean input. */
module Repository {
  import opened Results
  import opened Domain
  import opened Entity
  import opened Text
  import opened Conflicts
  import opened Lists
  import opened Store
  import opened Sorting

  /** What one `readHealthConnectLogs()` call yields: the session records,
      already mapped to HEALTH_CONNECT logs, or the exception it throws. */
  datatype ProviderReply =
    | Records(records: seq<HealthConnectLog>)
    | RemoteFailure(message: string)
    | SecurityFailure(message: string)
    | OtherFailure(message: string)

  /** `map { it.toDomain() }`: the first row whose source is not a `Source`
      name makes the whole read throw. */
  function ToDomainAll(rows: seq<ExerciseEntity>): Result<seq<ExerciseLog>> {
    if rows == [] then Success([])
    else
      var head :- ToDomain(rows[0]);
      var tail :- ToDomainAll(rows[1..]);
      Success([head] + tail)
  }

  /** The read succeeds exactly when every row converts ... */
  lemma {:induction false} ToDomainAllSucceeds(rows: seq<ExerciseEntity>)
    ensures ToDomainAll(rows).Success? <==> forall k :: 0 <= k < |rows| ==> ToDomain(rows[k]).Success?
  {
    if rows != [] {
      var tail := rows[1..];
      ToDomainAllSucceeds(tail);
      if ToDomain(rows[0]).Failure? {
        assert ToDomainAll(rows).Failure?;
      } else if ToDomainAll(tail).Failure? {
        assert ToDomainAll(rows).Failure?;
        var k :| 0 <= k < |tail| && ToDomain(tail[k]).Failure?;
        assert rows[k + 1] == tail[k];
      } else {
        assert ToDomainAll(rows).Success?;
        forall k | 0 < k < |rows| ensures ToDomain(rows[k]).Success? {
          assert rows[k] == tail[k - 1];
        }
      }
    }
  }

  /** ... and then yields the converted rows, one for one. */
  lemma {:induction false} ToDomainAllValues(rows: seq<ExerciseEntity>)
    requires ToDomainAll(rows).Success?
    ensures |ToDomainAll(rows).value| == |rows|
    ensures forall k :: 0 <= k < |rows| ==> ToDomain(rows[k]) == Success(ToDomainAll(rows).value[k])
  {
    if rows != [] {
      ToDomainAllValues(rows[1..]);
      var r := ToDomainAll(rows).value;
      var tail := ToDomainAll(rows[1..]).value;
      assert r == [ToDomain(rows[0]).value] + tail;
      forall k | 0 < k < |rows| ensures ToDomain(rows[k]) == Success(r[k]) {
        assert rows[k] == rows[1..][k - 1] && r[k] == tail[k - 1];
      }
    }
  }

  /** `dao.getAll().map { it.toDomain() }`. */
  function ReadManual(rows: seq<ExerciseEntity>): Result<seq<ExerciseLog>> {
    ToDomainAll(SortDescending(rows, StartOf))
  }

  /** The manual read succeeds exactly when every stored row converts. */
  lemma ReadManualSucceeds(rows: seq<ExerciseEntity>)
    ensures ReadManual(rows).Success? <==> forall e :: e in rows ==> ToDomain(e).Success?
  {
    var sorted := SortDescending(rows, StartOf);
    SortDescendingMembers(rows, StartOf);
    ToDomainAllSucceeds(sorted);
    if ReadManual(rows).Success? {
      forall e | e in rows ensures ToDomain(e).Success? {
        var k :| 0 <= k < |sorted| && sorted[k] == e;
      }
    }
  }

  /** Every log the manual read yields is some stored row, converted ... */
  lemma ReadManualFrom(rows: seq<ExerciseEntity>, l: ExerciseLog)
    requires ReadManual(rows).Success? && l in ReadManual(rows).value
    ensures exists e :: e in rows && ToDomain(e) == Success(l)
  {
    var sorted := SortDescending(rows, StartOf);
    SortDescendingMembers(rows, StartOf);
    ToDomainAllValues(sorted);
    var read := ReadManual(rows).value;
    var k :| 0 <= k < |read| && read[k] == l;
    assert ToDomain(sorted[k]) == Success(l);
    assert sorted[k] in multiset(rows);
  }

  /** ... and every stored row appears in it, converted. */
  lemma ReadManualOf(rows: seq<ExerciseEntity>, e: ExerciseEntity)
    requires ReadManual(rows).Success? && e in rows
    ensures ToDomain(e).Success? && ToDomain(e).value in ReadManual(rows).value
  {
    var sorted := SortDescending(rows, StartOf);
    SortDescendingMembers(rows, StartOf);
    ToDomainAllValues(sorted);
    var k :| 0 <= k < |sorted| && sorted[k] == e;
    assert ReadManual(rows).value[k] == ToDomain(e).value;
  }

  /** `filterNot { ignoredHealthConnectIds.contains(it.id) }` over the
      provider's records. */
  function Visible(records: seq<HealthConnectLog>, ignored: set<string>): seq<ExerciseLog> {
    Filter(records, (l: ExerciseLog) => l.id !in ignored)
  }

  lemma VisibleMembers(records: seq<HealthConnectLog>, ignored: set<string>)
    ensures forall l :: l in Visible(records, ignored) <==> l in records && l.id !in ignored
  {
    FilterMembers(records, (l: ExerciseLog) => l.id !in ignored);
  }

  /** The provider part of `getMergedLogs`: nothing without permission or on
      a RemoteException or SecurityException; any other exception escapes. */
  function HealthPart(hasPermission: bool, reply: ProviderReply, ignored: set<string>): Result<seq<ExerciseLog>> {
    if !hasPermission then Success([])
    else
      match reply
      case Records(rs) => Success(Visible(rs, ignored))
      case RemoteFailure(_) => Success([])
      case SecurityFailure(_) => Success([])
      case OtherFailure(m) => Failure(m)
  }

  /** `isConflictResolved`: the pair was resolved in either order. */
  predicate IsResolved(resolved: set<(string, string)>, a: ExerciseLog, b: ExerciseLog) {
    (a.id, b.id) in resolved || (b.id, a.id) in resolved
  }

  /** `conflicts.filterNot { isConflictResolved(it.first, it.second) }`. */
  function Unresolved(conflicts: seq<ConflictPair>, resolved: set<(string, string)>): seq<ConflictPair> {
    Filter(conflicts, (p: ConflictPair) => !IsResolved(resolved, p.0, p.1))
  }

  lemma UnresolvedMembers(conflicts: seq<ConflictPair>, resolved: set<(string, string)>)
    ensures forall p :: p in Unresolved(conflicts, resolved) <==> p in conflicts && !IsResolved(resolved, p.0, p.1)
  {
    FilterMembers(conflicts, (p: ConflictPair) => !IsResolved(resolved, p.0, p.1));
  }

  /** What `getMergedLogs` returns: the manual logs followed by the visible
      provider logs, and the detected conflicts that are not resolved. */
  function MergedView(rows: seq<ExerciseEntity>, ignored: set<string>, resolved: set<(string, string)>,
                      hasPermission: bool, reply: ProviderReply): Result<(seq<ExerciseLog>, seq<ConflictPair>)>
  {
    var manual :- ReadManual(rows);
    var health :- HealthPart(hasPermission, reply, ignored);
    var merged := manual + health;
    Success((merged, Unresolved(ConflictsOf(merged), resolved)))
  }

  /** The merged view, stated: it fails exactly when the store read fails or
      the provider throws something other than a RemoteException or
      SecurityException while permission is granted; otherwise the list is
      the manual logs then the unsuppressed provider logs (none without
      permission or after a caught exception), and the conflicts are the
      detected ones, in order, minus those resolved in either order. */
  lemma MergedViewSpec(rows: seq<ExerciseEntity>, ignored: set<string>, resolved: set<(string, string)>,
                       hasPermission: bool, reply: ProviderReply)
    ensures var v := MergedView(rows, ignored, resolved, hasPermission, reply);
            v.Failure? <==> ReadManual(rows).Failure? || (hasPermission && reply.OtherFailure?)
    ensures var v := MergedView(rows, ignored, resolved, hasPermission, reply);
            v.Success? ==>
              var manual := ReadManual(rows).value;
              && (hasPermission && reply.Records? ==> v.value.0 == manual + Visible(reply.records, ignored))
              && (!hasPermission || reply.RemoteFailure? || reply.SecurityFailure? ==> v.value.0 == manual)
              && (forall p :: p in v.value.1 <==> p in ConflictsOf(v.value.0) && !IsResolved(resolved, p.0, p.1))
  {
    var v := MergedView(rows, ignored, resolved, hasPermission, reply);
    if v.Success? {
      assert v.value.0 + [] == v.value.0;
      UnresolvedMembers(ConflictsOf(v.value.0), resolved);
    }
  }

  /** The test `resolveConflict` applies to every record: another record of
      `keep`'s trimmed, lower-cased type whose interval overlaps `keep`'s.
      Its last conjunct holds for every record. */
  predicate Removable(keep: ExerciseLog, l: ExerciseLog) {
    l.id != keep.id
    && TypeKey(l.exerciseType) == TypeKey(keep.exerciseType)
    && l.start < keep.end && l.end > keep.start
    && (l.source == Manual || l.source == HealthConnect)
  }

  /** `allLogs.filter { ... }`: the records the pass removes. */
  function OverlappingWith(keep: ExerciseLog, logs: seq<ExerciseLog>): seq<ExerciseLog> {
    Filter(logs, (l: ExerciseLog) => Removable(keep, l))
  }

  lemma OverlappingMembers(keep: ExerciseLog, logs: seq<ExerciseLog>)
    ensures forall l :: l in OverlappingWith(keep, logs) <==> l in logs && Removable(keep, l)
  {
    FilterMembers(logs, (l: ExerciseLog) => Removable(keep, l));
  }

  lemma OverlappingAppend(keep: ExerciseLog, a: seq<ExerciseLog>, b: seq<ExerciseLog>)
    ensures OverlappingWith(keep, a + b) == OverlappingWith(keep, a) + OverlappingWith(keep, b)
  {
    FilterAppend(a, b, (l: ExerciseLog) => Removable(keep, l));
  }

  function IdsOf(logs: seq<ExerciseLog>): set<string> {
    set l | l in logs :: l.id
  }

  /** The pairs `keep.id to r.id` recorded for the removed records. */
  function PairsWith(keepId: string, logs: seq<ExerciseLog>): set<(string, string)> {
    set l | l in logs :: (keepId, l.id)
  }

  /** Recording the pairs of two runs records the pairs of both. */
  lemma PairsWithAppend(keepId: string, a: seq<ExerciseLog>, b: seq<ExerciseLog>)
    ensures PairsWith(keepId, a + b) == PairsWith(keepId, a) + PairsWith(keepId, b)
  {
    assert forall x :: x in a + b <==> x in a || x in b;
  }

  lemma IdsOfSnoc(logs: seq<ExerciseLog>, l: ExerciseLog, keepId: string)
    ensures IdsOf(logs + [l]) == IdsOf(logs) + {l.id}
    ensures PairsWith(keepId, logs + [l]) == PairsWith(keepId, logs) + {(keepId, l.id)}
  {
    assert forall x :: x in logs + [l] <==> x in logs || x == l;
  }

  /** The engine's state: the stored rows and the two memory sets. */
  datatype EngineState = EngineState(rows: seq<ExerciseEntity>, ignored: set<string>, resolved: set<(string, string)>)

  /** The records one read of both sources yields in `resolveConflict`. */
  function CurrentLogs(s: EngineState, records: seq<HealthConnectLog>): seq<ExerciseLog>
    requires ReadManual(s.rows).Success?
  {
    ReadManual(s.rows).value + Visible(records, s.ignored)
  }

  /** One pass of the do-while body: every removable record read from the
      store is deleted by id, every removable provider record is
      suppressed, and each is recorded as resolved against `keep`. */
  function Pass(s: EngineState, keep: ExerciseLog, records: seq<HealthConnectLog>): EngineState
    requires ReadManual(s.rows).Success?
  {
    var fromStore := OverlappingWith(keep, ReadManual(s.rows).value);
    var fromProvider := OverlappingWith(keep, Visible(records, s.ignored));
    EngineState(
      WithoutIds(s.rows, IdsOf(fromStore)),
      s.ignored + IdsOf(fromProvider),
      s.resolved + PairsWith(keep.id, fromStore + fromProvider))
  }

  /** Deleting rows by id keeps the manual read successful, and every log it
      then yields was yielded before and carries none of the deleted ids. */
  lemma ReadAfterDelete(rows: seq<ExerciseEntity>, ids: set<string>)
    requires ReadManual(rows).Success?
    ensures ReadManual(WithoutIds(rows, ids)).Success?
    ensures forall l :: l in ReadManual(WithoutIds(rows, ids)).value ==>
              l in ReadManual(rows).value && l.id !in ids
  {
    var kept := WithoutIds(rows, ids);
    WithoutIdsMembers(rows, ids);
    ReadManualSucceeds(rows);
    ReadManualSucceeds(kept);
    forall l | l in ReadManual(kept).value ensures l in ReadManual(rows).value && l.id !in ids {
      ReadManualFrom(kept, l);
      var e :| e in kept && ToDomain(e) == Success(l);
      ReadManualOf(rows, e);
      EntityRoundTrip(e);
    }
  }

  /** After one pass the store yields no removable record. */
  lemma PassClearsStore(s: EngineState, keep: ExerciseLog, records: seq<HealthConnectLog>)
    requires ReadManual(s.rows).Success?
    ensures ReadManual(Pass(s, keep, records).rows).Success?
    ensures OverlappingWith(keep, ReadManual(Pass(s, keep, records).rows).value) == []
  {
    var manual := ReadManual(s.rows).value;
    var fromStore := OverlappingWith(keep, manual);
    var p := Pass(s, keep, records);
    ReadAfterDelete(s.rows, IdsOf(fromStore));
    OverlappingMembers(keep, manual);
    var after := ReadManual(p.rows).value;
    forall l | l in after ensures !Removable(keep, l) {
      assert l in manual && l.id !in IdsOf(fromStore);
    }
    FilterNone(after, (l: ExerciseLog) => Removable(keep, l));
  }

  /** After one pass the provider yields no removable record. */
  lemma PassClearsProvider(s: EngineState, keep: ExerciseLog, records: seq<HealthConnectLog>)
    requires ReadManual(s.rows).Success?
    ensures OverlappingWith(keep, Visible(records, Pass(s, keep, records).ignored)) == []
  {
    var health := Visible(records, s.ignored);
    var fromProvider := OverlappingWith(keep, health);
    var p := Pass(s, keep, records);
    OverlappingMembers(keep, health);
    VisibleMembers(records, s.ignored);
    VisibleMembers(records, p.ignored);
    var after := Visible(records, p.ignored);
    forall l | l in after ensures !Removable(keep, l) {
      assert l in health && l.id !in IdsOf(fromProvider);
    }
    FilterNone(after, (l: ExerciseLog) => Removable(keep, l));
  }

  /** After one pass the store still reads, and neither source yields a
      removable record any more. */
  lemma PassClears(s: EngineState, keep: ExerciseLog, records: seq<HealthConnectLog>)
    requires ReadManual(s.rows).Success?
    ensures ReadManual(Pass(s, keep, records).rows).Success?
    ensures OverlappingWith(keep, CurrentLogs(Pass(s, keep, records), records)) == []
  {
    var p := Pass(s, keep, records);
    PassClearsStore(s, keep, records);
    PassClearsProvider(s, keep, records);
    OverlappingAppend(keep, ReadManual(p.rows).value, Visible(records, p.ignored));
  }

  /** A second pass changes nothing: the loop's last pass is idle. */
  lemma PassIdempotent(s: EngineState, keep: ExerciseLog, records: seq<HealthConnectLog>)
    requires ReadManual(s.rows).Success?
    ensures ReadManual(Pass(s, keep, records).rows).Success?
    ensures Pass(Pass(s, keep, records), keep, records) == Pass(s, keep, records)
  {
    var p := Pass(s, keep, records);
    PassClears(s, keep, records);
    var manual := ReadManual(p.rows).value;
    var health := Visible(records, p.ignored);
    OverlappingAppend(keep, manual, health);
    assert OverlappingWith(keep, manual) == [] && OverlappingWith(keep, health) == [];
    WithoutNoIds(p.rows);
    assert IdsOf([]) == {};
    assert PairsWith(keep.id, [] + []) == {};
  }

  /** A pass only removes rows, only adds to the two memory sets, and marks
      every record it removes as resolved against `keep`, in either order. */
  lemma PassGrows(s: EngineState, keep: ExerciseLog, records: seq<HealthConnectLog>)
    requires ReadManual(s.rows).Success?
    ensures forall e :: e in Pass(s, keep, records).rows ==> e in s.rows
    ensures s.ignored <= Pass(s, keep, records).ignored
    ensures s.resolved <= Pass(s, keep, records).resolved
    ensures forall l :: l in OverlappingWith(keep, CurrentLogs(s, records)) ==>
              IsResolved(Pass(s, keep, records).resolved, keep, l)
              && IsResolved(Pass(s, keep, records).resolved, l, keep)
  {
    var manual := ReadManual(s.rows).value;
    var health := Visible(records, s.ignored);
    OverlappingAppend(keep, manual, health);
    WithoutIdsMembers(s.rows, IdsOf(OverlappingWith(keep, manual)));
  }

  /** Provider records with distinct ids. */
  predicate DistinctIds(records: seq<HealthConnectLog>) {
    forall i, j :: 0 <= i < j < |records| ==> records[i].id != records[j].id
  }

  /** A stored row whose record is not removable (`keep`'s own row, another
      type, or no overlap) survives a pass, and so does the visibility of a
      provider record that is not removable. */
  lemma PassLeavesAlone(s: EngineState, keep: ExerciseLog, records: seq<HealthConnectLog>)
    requires ReadManual(s.rows).Success? && UniqueIds(s.rows) && DistinctIds(records)
    ensures forall e :: e in s.rows && ToDomain(e).Success? && !Removable(keep, ToDomain(e).value) ==>
              e in Pass(s, keep, records).rows
    ensures forall r :: r in Visible(records, s.ignored) && !Removable(keep, r) ==>
              r in Visible(records, Pass(s, keep, records).ignored)
  {
    var manual := ReadManual(s.rows).value;
    var health := Visible(records, s.ignored);
    var fromStore := OverlappingWith(keep, manual);
    var fromProvider := OverlappingWith(keep, health);
    OverlappingMembers(keep, manual);
    OverlappingMembers(keep, health);
    VisibleMembers(records, s.ignored);
    VisibleMembers(records, Pass(s, keep, records).ignored);
    WithoutIdsMembers(s.rows, IdsOf(fromStore));
    ReadManualSucceeds(s.rows);
    forall e | e in s.rows && ToDomain(e).Success? && !Removable(keep, ToDomain(e).value)
      ensures e.id !in IdsOf(fromStore)
    {
      forall l | l in fromStore ensures l.id != e.id {
        ReadManualFrom(s.rows, l);
        var e' :| e' in s.rows && ToDomain(e') == Success(l);
        EntityRoundTrip(e');
        if l.id == e.id {
          UniqueIdsSame(s.rows, e, e');
        }
      }
    }
    forall r | r in health && !Removable(keep, r) ensures r.id !in IdsOf(fromProvider) {
      forall l | l in fromProvider ensures l.id != r.id {
        var i :| 0 <= i < |records| && records[i] == l;
        var j :| 0 <= j < |records| && records[j] == r;
        assert i != j ==> records[i].id != records[j].id;
      }
    }
  }

  /** One pass from the initial state, or from the state one pass reached,
      reaches that same state, after which the store still reads and no
      removable record is left: the loop's measure. */
  lemma PassStep(s0: EngineState, before: EngineState, keep: ExerciseLog, records: seq<HealthConnectLog>)
    requires ReadManual(s0.rows).Success?
    requires before == s0 || before == Pass(s0, keep, records)
    ensures ReadManual(before.rows).Success?
    ensures Pass(before, keep, records) == Pass(s0, keep, records)
    ensures ReadManual(Pass(s0, keep, records).rows).Success?
    ensures OverlappingWith(keep, CurrentLogs(Pass(s0, keep, records), records)) == []
  {
    PassClears(s0, keep, records);
    if before != s0 {
      PassIdempotent(s0, keep, records);
    }
  }

  /** The records of `logs` whose source tag is `source`. */
  function WithSource(logs: seq<ExerciseLog>, source: Source): seq<ExerciseLog> {
    Filter(logs, (l: ExerciseLog) => l.source == source)
  }

  lemma WithSourceMembers(logs: seq<ExerciseLog>, source: Source)
    ensures forall l :: l in WithSource(logs, source) <==> l in logs && l.source == source
  {
    FilterMembers(logs, (l: ExerciseLog) => l.source == source);
  }

  /** One pass of the do-while as written: the removable records are told
      apart by their source tag (`when (logToDrop.source)`), not by the
      source they were read from. */
  function TagDispatchPass(s: EngineState, keep: ExerciseLog, records: seq<HealthConnectLog>): EngineState
    requires ReadManual(s.rows).Success?
  {
    var overlapping := OverlappingWith(keep, CurrentLogs(s, records));
    EngineState(
      WithoutIds(s.rows, IdsOf(WithSource(overlapping, Manual))),
      s.ignored + IdsOf(WithSource(overlapping, HealthConnect)),
      s.resolved + PairsWith(keep.id, overlapping))
  }

  /** A store of one convertible row reads as that row's record. */
  lemma ReadOneRow(e: ExerciseEntity)
    requires ToDomain(e).Success?
    ensures ReadManual([e]) == Success([ToDomain(e).value])
  {
    assert [e][1..] == [];
    assert SortDescending([e][1..], StartOf) == [];
    assert SortDescending([e], StartOf) == Insert(e, [], StartOf) == [e];
    assert ToDomainAll([e][1..]) == Success([]);
    assert [ToDomain(e).value] + [] == [ToDomain(e).value];
  }

  /** A stored row tagged HEALTH_CONNECT that overlaps `keep` is suppressed
      instead of deleted, and store reads ignore the suppressed ids: after
      the pass as written the row is still stored and still read as a
      removable record. The hypothesis holds again afterwards, so
      `overlapsFound` is true on every pass and the do-while never ends. */
  lemma TagDispatchKeepsTaggedRow(s: EngineState, keep: ExerciseLog, records: seq<HealthConnectLog>, e: ExerciseEntity)
    requires ReadManual(s.rows).Success? && UniqueIds(s.rows)
    requires e in s.rows && e.source == "HEALTH_CONNECT" && Removable(keep, ToDomain(e).value)
    ensures ReadManual(TagDispatchPass(s, keep, records).rows).Success?
    ensures UniqueIds(TagDispatchPass(s, keep, records).rows) && e in TagDispatchPass(s, keep, records).rows
    ensures OverlappingWith(keep, CurrentLogs(TagDispatchPass(s, keep, records), records)) != []
  {
    var p := TagDispatchPass(s, keep, records);
    var overlapping := OverlappingWith(keep, CurrentLogs(s, records));
    var deleted := WithSource(overlapping, Manual);
    OverlappingMembers(keep, CurrentLogs(s, records));
    WithSourceMembers(overlapping, Manual);
    VisibleMembers(records, s.ignored);
    forall l | l in deleted ensures l.id != e.id {
      if l in ReadManual(s.rows).value {
        ReadManualFrom(s.rows, l);
        var e' :| e' in s.rows && ToDomain(e') == Success(l);
        if l.id == e.id {
          EntityRoundTrip(e');
          UniqueIdsSame(s.rows, e, e');
        }
      }
    }
    WithoutIdsMembers(s.rows, IdsOf(deleted));
    WithoutIdsUnique(s.rows, IdsOf(deleted));
    ReadAfterDelete(s.rows, IdsOf(deleted));
    ReadManualOf(p.rows, e);
    var log := ToDomain(e).value;
    assert log in CurrentLogs(p, records);
    OverlappingMembers(keep, CurrentLogs(p, records));
    assert log in OverlappingWith(keep, CurrentLogs(p, records));
  }

  /** One such state: a stored HEALTH_CONNECT-tagged run overlapping the
      manual run the user keeps. */
  lemma TagDispatchStallsOn(e: ExerciseEntity, keep: ExerciseLog)
    requires e == ExerciseEntity("h", "Running", 0, 10, None, "HEALTH_CONNECT")
    requires keep == NewLog("k", "Running", 0, 10, None, Manual)
    ensures ReadManual([e]).Success? && UniqueIds([e])
    ensures Removable(keep, ToDomain(e).value)
  {
    assert e.source[0] != "MANUAL"[0];
    ReadOneRow(e);
  }

  /** Keeping one source tag keeps all of a list that carries only that tag,
      none of one that carries only the other, and splits over `+`. */
  lemma WithSourceSplit(a: seq<ExerciseLog>, b: seq<ExerciseLog>, source: Source)
    requires forall l :: l in a ==> l.source == source
    requires forall l :: l in b ==> l.source != source
    ensures WithSource(a + b, source) == a
  {
    var keep := (l: ExerciseLog) => l.source == source;
    FilterAppend(a, b, keep);
    FilterAll(a, keep);
    FilterNone(b, keep);
    assert a + [] == a;
  }

  lemma WithSourceSplitLast(a: seq<ExerciseLog>, b: seq<ExerciseLog>, source: Source)
    requires forall l :: l in a ==> l.source != source
    requires forall l :: l in b ==> l.source == source
    ensures WithSource(a + b, source) == b
  {
    var keep := (l: ExerciseLog) => l.source == source;
    FilterAppend(a, b, keep);
    FilterNone(a, keep);
    FilterAll(b, keep);
    assert [] + b == b;
  }

  /** A store whose rows are all tagged MANUAL reads as MANUAL logs. */
  lemma ReadManualSources(rows: seq<ExerciseEntity>)
    requires ReadManual(rows).Success?
    requires forall e :: e in rows ==> e.source == "MANUAL"
    ensures forall l :: l in ReadManual(rows).value ==> l.source == Manual
  {
    forall l | l in ReadManual(rows).value ensures l.source == Manual {
      ReadManualFrom(rows, l);
    }
  }

  /** When every stored row is tagged MANUAL, dispatching on the tag is
      dispatching on the origin: the pass as written is `Pass`. */
  lemma TagDispatchAgrees(s: EngineState, keep: ExerciseLog, records: seq<HealthConnectLog>)
    requires ReadManual(s.rows).Success?
    requires forall e :: e in s.rows ==> e.source == "MANUAL"
    ensures TagDispatchPass(s, keep, records) == Pass(s, keep, records)
  {
    var manual := ReadManual(s.rows).value;
    var health := Visible(records, s.ignored);
    var fromStore := OverlappingWith(keep, manual);
    var fromProvider := OverlappingWith(keep, health);
    OverlappingAppend(keep, manual, health);
    OverlappingMembers(keep, manual);
    OverlappingMembers(keep, health);
    VisibleMembers(records, s.ignored);
    ReadManualSources(s.rows);
    WithSourceSplit(fromStore, fromProvider, Manual);
    WithSourceSplitLast(fromStore, fromProvider, HealthConnect);
  }

  /** The engine: the store, the suppressed Health Connect ids and the
      resolved pairs, both sets living as long as the repository. */
  class ExerciseRepository {
    const dao: ExerciseDao
    var ignoredHealthConnectIds: set<string>
    var resolvedConflicts: set<(string, string)>

    constructor (dao: ExerciseDao)
      ensures this.dao == dao
      ensures ignoredHealthConnectIds == {} && resolvedConflicts == {}
    {
      this.dao := dao;
      ignoredHealthConnectIds := {};
      resolvedConflicts := {};
    }

    function State(): EngineState
      reads this, dao
    {
      EngineState(dao.rows, ignoredHealthConnectIds, resolvedConflicts)
    }

    /** `addManualLog`: stores the log, replacing a row with its id. */
    method AddManualLog(log: ExerciseLog)
      requires dao.Valid()
      modifies dao
      ensures dao.Valid()
      ensures dao.rows == WithoutIds(old(dao.rows), {log.id}) + [ToEntity(log)]
    {
      dao.Insert(ToEntity(log));
    }

    /** `isConflictResolved`. */
    predicate IsConflictResolved(a: ExerciseLog, b: ExerciseLog)
      reads this
    {
      IsResolved(resolvedConflicts, a, b)
    }

    /** `getMergedLogs`: reads both sources and changes neither memory set. */
    method GetMergedLogs(hasPermission: bool, reply: ProviderReply)
      returns (r: Result<(seq<ExerciseLog>, seq<ConflictPair>)>)
      ensures r == MergedView(dao.rows, ignoredHealthConnectIds, resolvedConflicts, hasPermission, reply)
    {
      var manualLogs := ToDomainAll(dao.GetAll());
      if manualLogs.Failure? {
        return Failure(manualLogs.error);
      }
      var healthLogs := HealthPart(hasPermission, reply, ignoredHealthConnectIds);
      if healthLogs.Failure? {
        return Failure(healthLogs.error);
      }
      var mergedList := manualLogs.value + healthLogs.value;
      var conflicts := DetectConflicts(mergedList);
      r := Success((mergedList, Unresolved(conflicts, resolvedConflicts)));
    }

    /** The body of the `forEach`: a record read from the store is deleted
        by id, a provider record is suppressed, and either is recorded as
        resolved against `keep`. */
    method DropOne(keep: ExerciseLog, logToDrop: ExerciseLog, fromStore: bool)
      requires dao.Valid()
      modifies this, dao
      ensures dao.Valid()
      ensures dao.rows == if fromStore then WithoutIds(old(dao.rows), {logToDrop.id}) else old(dao.rows)
      ensures ignoredHealthConnectIds
              == if fromStore then old(ignoredHealthConnectIds) else old(ignoredHealthConnectIds) + {logToDrop.id}
      ensures resolvedConflicts == old(resolvedConflicts) + {(keep.id, logToDrop.id)}
    {
      if fromStore {
        dao.Delete(ToEntity(logToDrop));
      } else {
        ignoredHealthConnectIds := ignoredHealthConnectIds + {logToDrop.id};
      }
      resolvedConflicts := resolvedConflicts + {(keep.id, logToDrop.id)};
    }

    /** The `forEach` over a run of records read from the store: each is
        deleted by id and recorded as resolved against `keep`. */
    method DeleteEach(keep: ExerciseLog, logs: seq<ExerciseLog>)
      requires dao.Valid()
      modifies this, dao
      ensures dao.Valid()
      ensures dao.rows == WithoutIds(old(dao.rows), IdsOf(logs))
      ensures ignoredHealthConnectIds == old(ignoredHealthConnectIds)
      ensures resolvedConflicts == old(resolvedConflicts) + PairsWith(keep.id, logs)
    {
      WithoutNoIds(dao.rows);
      assert IdsOf([]) == {} && PairsWith(keep.id, []) == {};
      var k := 0;
      while k < |logs|
        invariant 0 <= k <= |logs|
        invariant dao.Valid()
        invariant dao.rows == WithoutIds(old(dao.rows), IdsOf(logs[..k]))
        invariant ignoredHealthConnectIds == old(ignoredHealthConnectIds)
        invariant resolvedConflicts == old(resolvedConflicts) + PairsWith(keep.id, logs[..k])
      {
        assert logs[..k + 1] == logs[..k] + [logs[k]];
        IdsOfSnoc(logs[..k], logs[k], keep.id);
        WithoutIdsTwice(old(dao.rows), IdsOf(logs[..k]), {logs[k].id});
        DropOne(keep, logs[k], true);
        k := k + 1;
      }
      assert logs[..k] == logs;
    }

    /** The `forEach` over a run of provider records: each id is suppressed
        and recorded as resolved against `keep`; the store is untouched. */
    method SuppressEach(keep: ExerciseLog, logs: seq<ExerciseLog>)
      requires dao.Valid()
      modifies this, dao
      ensures dao.Valid()
      ensures dao.rows == old(dao.rows)
      ensures ignoredHealthConnectIds == old(ignoredHealthConnectIds) + IdsOf(logs)
      ensures resolvedConflicts == old(resolvedConflicts) + PairsWith(keep.id, logs)
    {
      assert IdsOf([]) == {} && PairsWith(keep.id, []) == {};
      var k := 0;
      while k < |logs|
        invariant 0 <= k <= |logs|
        invariant dao.Valid()
        invariant dao.rows == old(dao.rows)
        invariant ignoredHealthConnectIds == old(ignoredHealthConnectIds) + IdsOf(logs[..k])
        invariant resolvedConflicts == old(resolvedConflicts) + PairsWith(keep.id, logs[..k])
      {
        assert logs[..k + 1] == logs[..k] + [logs[k]];
        IdsOfSnoc(logs[..k], logs[k], keep.id);
        DropOne(keep, logs[k], false);
        k := k + 1;
      }
      assert logs[..k] == logs;
    }

    /** The `forEach` over `overlappingLogs`, which lists the records read
        from the store (its first `fromStore` entries) before those read from
        the provider: the first run is deleted by id, the second suppressed,
        and each record is recorded as resolved against `keep`. */
    method DropAll(keep: ExerciseLog, overlappingLogs: seq<ExerciseLog>, fromStore: nat)
      requires dao.Valid() && fromStore <= |overlappingLogs|
      modifies this, dao
      ensures dao.Valid()
      ensures dao.rows == WithoutIds(old(dao.rows), IdsOf(overlappingLogs[..fromStore]))
      ensures ignoredHealthConnectIds == old(ignoredHealthConnectIds) + IdsOf(overlappingLogs[fromStore..])
      ensures resolvedConflicts == old(resolvedConflicts) + PairsWith(keep.id, overlappingLogs)
    {
      DeleteEach(keep, overlappingLogs[..fromStore]);
      SuppressEach(keep, overlappingLogs[fromStore..]);
      assert overlappingLogs == overlappingLogs[..fromStore] + overlappingLogs[fromStore..];
      PairsWithAppend(keep.id, overlappingLogs[..fromStore], overlappingLogs[fromStore..]);
    }

    /** One pass of the do-while body: the records of `keep`'s type that
        overlap `keep` are read from both sources and dropped. */
    method RemoveOverlapping(keep: ExerciseLog, records: seq<HealthConnectLog>)
      requires dao.Valid() && ReadManual(dao.rows).Success?
      modifies this, dao
      ensures dao.Valid()
      ensures State() == Pass(old(State()), keep, records)
    {
      var manualLogs := ToDomainAll(dao.GetAll()).value;
      var healthLogs := Visible(records, ignoredHealthConnectIds);
      var overlappingLogs := OverlappingWith(keep, manualLogs + healthLogs);
      // The store's records come first in `allLogs`, so they are the
      // first `fromStore` entries of `overlappingLogs`.
      var fromStore := |OverlappingWith(keep, manualLogs)|;
      OverlappingAppend(keep, manualLogs, healthLogs);
      assert overlappingLogs[..fromStore] == OverlappingWith(keep, manualLogs);
      assert overlappingLogs[fromStore..] == OverlappingWith(keep, healthLogs);
      DropAll(keep, overlappingLogs, fromStore);
    }

    /** `resolveConflict(keep, drop)`: a do-while that removes every record
        of `keep`'s type overlapping `keep`, re-reads both sources and stops
        after a pass that found nothing. Any exception makes it return
        false; here the only reads that can throw come before the first
        change. `drop` is never read. */
    method ResolveConflict(keep: ExerciseLog, drop: ExerciseLog, reply: ProviderReply) returns (ok: bool)
      requires dao.Valid()
      modifies this, dao
      ensures dao.Valid()
      ensures ok <==> ReadManual(old(dao.rows)).Success? && reply.Records?
      ensures !ok ==> State() == old(State())
      ensures ok ==> State() == Pass(old(State()), keep, reply.records)
      ensures ok ==> ReadManual(dao.rows).Success?
      ensures ok ==> OverlappingWith(keep, CurrentLogs(State(), reply.records)) == []
    {
      var read := ToDomainAll(dao.GetAll());
      if read.Failure? || !reply.Records? {
        return false;
      }
      var records := reply.records;
      ghost var s0 := State();
      var manualLogs := read.value;
      var healthLogs := Visible(records, ignoredHealthConnectIds);
      var allLogs := manualLogs + healthLogs;
      var overlapsFound := true;
      while overlapsFound
        invariant dao.Valid() && ReadManual(dao.rows).Success?
        invariant allLogs == CurrentLogs(State(), records)
        invariant (overlapsFound && State() == s0)
                  || (State() == Pass(s0, keep, records) && OverlappingWith(keep, allLogs) == [])
        decreases |OverlappingWith(keep, allLogs)| + (if overlapsFound then 1 else 0)
      {
        ghost var before := State();
        overlapsFound := |OverlappingWith(keep, allLogs)| > 0;
        RemoveOverlapping(keep, records);
        PassStep(s0, before, keep, records);
        manualLogs := ToDomainAll(dao.GetAll()).value;
        healthLogs := Visible(records, ignoredHealthConnectIds);
        allLogs := manualLogs + healthLogs;
      }
      return true;
    }
  }
}
