/** Conflict detection over the merged list (detectConflicts in
    data/repository/ExerciseRepoInterfaceImpl.kt). */
module Conflicts {
  import opened Domain
  import opened Text

  type ConflictPair = (ExerciseLog, ExerciseLog)

  /** Both types are equal after trimming, ignoring letter case. */
  predicate SameType(a: ExerciseLog, b: ExerciseLog) {
    TypeKey(a.exerciseType) == TypeKey(b.exerciseType)
  }

  /** The half-open intervals [start, end) share some instant; intervals
      that only touch do not overlap. */
  predicate Overlaps(a: ExerciseLog, b: ExerciseLog) {
    a.start < b.end && a.end > b.start
  }

  /** The rule every reported pair satisfies. */
  predicate Conflicting(a: ExerciseLog, b: ExerciseLog) {
    SameType(a, b) && Overlaps(a, b) && (a.source == Manual || b.source == Manual)
  }

  /** A rule deciding whether two records form a conflict. */
  type PairRule = (ExerciseLog, ExerciseLog) -> bool

  /** The pairs (logs[i], logs[k]) with j <= k that satisfy `rule`, in
      ascending k: what the inner loop reports for row i from column j on. */
  function RowMatches(logs: seq<ExerciseLog>, i: nat, j: nat, rule: PairRule): seq<ConflictPair>
    requires i < |logs|
    decreases |logs| - j
  {
    if j >= |logs| then []
    else (if rule(logs[i], logs[j]) then [(logs[i], logs[j])] else []) + RowMatches(logs, i, j + 1, rule)
  }

  /** What rows i, i + 1, ... report, row after row. */
  function MatchesFrom(logs: seq<ExerciseLog>, i: nat, rule: PairRule): seq<ConflictPair>
    decreases |logs| - i
  {
    if i >= |logs| then [] else RowMatches(logs, i, i + 1, rule) + MatchesFrom(logs, i + 1, rule)
  }

  /** Everything detectConflicts reports, in its order. */
  function ConflictsOf(logs: seq<ExerciseLog>): seq<ConflictPair> {
    MatchesFrom(logs, 0, Conflicting)
  }

  /** Positions (i, k), j <= k, of the pairs RowMatches reports. */
  function RowPositions(logs: seq<ExerciseLog>, i: nat, j: nat, rule: PairRule): seq<(int, int)>
    requires i < |logs|
    decreases |logs| - j
  {
    if j >= |logs| then []
    else (if rule(logs[i], logs[j]) then [(i as int, j as int)] else []) + RowPositions(logs, i, j + 1, rule)
  }

  /** Positions of the pairs MatchesFrom reports. */
  function PositionsFrom(logs: seq<ExerciseLog>, i: nat, rule: PairRule): seq<(int, int)>
    decreases |logs| - i
  {
    if i >= |logs| then [] else RowPositions(logs, i, i + 1, rule) + PositionsFrom(logs, i + 1, rule)
  }

  /** The positions (i, j) of the two records of each pair detectConflicts
      reports, in its order. */
  function ConflictPositions(logs: seq<ExerciseLog>): seq<(int, int)> {
    PositionsFrom(logs, 0, Conflicting)
  }

  /** (a, b) comes before (c, d) in row-major order. */
  predicate RowMajorLess(p: (int, int), q: (int, int)) {
    p.0 < q.0 || (p.0 == q.0 && p.1 < q.1)
  }

  /** Row i from column j on: the k-th reported pair is (logs[i], logs[c]) for
      the k-th reported position (i, c), a column c >= j where the rule holds. */
  lemma {:induction false} RowSound(logs: seq<ExerciseLog>, i: nat, j: nat, rule: PairRule)
    requires i < |logs|
    ensures var ps := RowPositions(logs, i, j, rule);
            var cs := RowMatches(logs, i, j, rule);
            |ps| == |cs|
            && forall k :: 0 <= k < |ps| ==>
                 ps[k].0 == i && j <= ps[k].1 < |logs|
                 && cs[k] == (logs[i], logs[ps[k].1]) && rule(logs[i], logs[ps[k].1])
    decreases |logs| - j
  {
    if j < |logs| {
      RowSound(logs, i, j + 1, rule);
      var ps := RowPositions(logs, i, j, rule);
      var cs := RowMatches(logs, i, j, rule);
      var rest := RowPositions(logs, i, j + 1, rule);
      var restC := RowMatches(logs, i, j + 1, rule);
      if rule(logs[i], logs[j]) {
        assert ps == [(i as int, j as int)] + rest;
        assert cs == [(logs[i], logs[j])] + restC;
        forall k | 0 < k < |ps| ensures ps[k] == rest[k - 1] && cs[k] == restC[k - 1] {
        }
      } else {
        assert ps == rest && cs == restC;
      }
    }
  }

  /** Row i from column j on: every reported column is at least j. */
  lemma {:induction false} RowColumnsFrom(logs: seq<ExerciseLog>, i: nat, j: nat, rule: PairRule)
    requires i < |logs|
    ensures forall k :: 0 <= k < |RowPositions(logs, i, j, rule)| ==> j <= RowPositions(logs, i, j, rule)[k].1
    decreases |logs| - j
  {
    if j < |logs| {
      RowColumnsFrom(logs, i, j + 1, rule);
      var ps := RowPositions(logs, i, j, rule);
      var rest := RowPositions(logs, i, j + 1, rule);
      if rule(logs[i], logs[j]) {
        assert ps == [(i as int, j as int)] + rest;
        forall k | 0 < k < |ps| ensures j < ps[k].1 {
          assert ps[k] == rest[k - 1];
        }
      } else {
        assert ps == rest;
      }
    }
  }

  /** Row i from column j on: the reported columns ascend. */
  lemma {:induction false} RowAscending(logs: seq<ExerciseLog>, i: nat, j: nat, rule: PairRule)
    requires i < |logs|
    ensures forall k, l :: 0 <= k < l < |RowPositions(logs, i, j, rule)| ==>
              RowPositions(logs, i, j, rule)[k].1 < RowPositions(logs, i, j, rule)[l].1
    decreases |logs| - j
  {
    if j < |logs| {
      RowAscending(logs, i, j + 1, rule);
      var ps := RowPositions(logs, i, j, rule);
      var rest := RowPositions(logs, i, j + 1, rule);
      if rule(logs[i], logs[j]) {
        RowColumnsFrom(logs, i, j + 1, rule);
        assert ps == [(i as int, j as int)] + rest;
        forall k, l | 0 <= k < l < |ps| ensures ps[k].1 < ps[l].1 {
          assert ps[l] == rest[l - 1];
          if k > 0 {
            assert ps[k] == rest[k - 1];
          }
        }
      } else {
        assert ps == rest;
      }
    }
  }

  /** Row i from column j on: every column where the rule holds is reported. */
  lemma {:induction false} RowComplete(logs: seq<ExerciseLog>, i: nat, j: nat, rule: PairRule)
    requires i < |logs|
    ensures forall m :: j <= m < |logs| && rule(logs[i], logs[m]) ==> (i as int, m as int) in RowPositions(logs, i, j, rule)
    decreases |logs| - j
  {
    if j < |logs| {
      RowComplete(logs, i, j + 1, rule);
      var ps := RowPositions(logs, i, j, rule);
      var rest := RowPositions(logs, i, j + 1, rule);
      assert ps == (if rule(logs[i], logs[j]) then [(i as int, j as int)] else []) + rest;
    }
  }

  /** Rows i on: the k-th reported pair is (logs[a], logs[b]) for the k-th
      reported position (a, b), with i <= a < b, and the rule holds there. */
  lemma {:induction false} FromSound(logs: seq<ExerciseLog>, i: nat, rule: PairRule)
    ensures var ps := PositionsFrom(logs, i, rule);
            var cs := MatchesFrom(logs, i, rule);
            |ps| == |cs|
            && forall k :: 0 <= k < |ps| ==>
                 i <= ps[k].0 < ps[k].1 < |logs|
                 && cs[k] == (logs[ps[k].0], logs[ps[k].1])
                 && rule(logs[ps[k].0], logs[ps[k].1])
    decreases |logs| - i
  {
    if i < |logs| {
      RowSound(logs, i, i + 1, rule);
      FromSound(logs, i + 1, rule);
      var row := RowPositions(logs, i, i + 1, rule);
      var rest := PositionsFrom(logs, i + 1, rule);
      var rowC := RowMatches(logs, i, i + 1, rule);
      var restC := MatchesFrom(logs, i + 1, rule);
      var ps := row + rest;
      var cs := rowC + restC;
      forall k | 0 <= k < |ps|
        ensures i <= ps[k].0 < ps[k].1 < |logs|
        ensures cs[k] == (logs[ps[k].0], logs[ps[k].1])
        ensures rule(logs[ps[k].0], logs[ps[k].1])
      {
        if k < |row| {
          assert ps[k] == row[k] && cs[k] == rowC[k];
        } else {
          assert ps[k] == rest[k - |row|] && cs[k] == restC[k - |row|];
        }
      }
    }
  }

  /** Rows i on: the reported positions ascend in row-major order. */
  lemma {:induction false} FromAscending(logs: seq<ExerciseLog>, i: nat, rule: PairRule)
    ensures var ps := PositionsFrom(logs, i, rule);
            forall k, l :: 0 <= k < l < |ps| ==> RowMajorLess(ps[k], ps[l])
    decreases |logs| - i
  {
    if i < |logs| {
      RowSound(logs, i, i + 1, rule);
      RowAscending(logs, i, i + 1, rule);
      FromSound(logs, i + 1, rule);
      FromAscending(logs, i + 1, rule);
      var row := RowPositions(logs, i, i + 1, rule);
      var rest := PositionsFrom(logs, i + 1, rule);
      var ps := row + rest;
      forall k, l | 0 <= k < l < |ps| ensures RowMajorLess(ps[k], ps[l]) {
        if l < |row| {
          assert ps[k] == row[k] && ps[l] == row[l];
        } else if k < |row| {
          assert ps[k] == row[k] && ps[l] == rest[l - |row|];
        } else {
          assert ps[k] == rest[k - |row|] && ps[l] == rest[l - |row|];
        }
      }
    }
  }

  /** Rows i on: every pair of positions i <= a < b the rule accepts is
      reported. */
  lemma {:induction false} FromComplete(logs: seq<ExerciseLog>, i: nat, rule: PairRule)
    ensures forall a, b :: i <= a < b < |logs| && rule(logs[a], logs[b]) ==> (a as int, b as int) in PositionsFrom(logs, i, rule)
    decreases |logs| - i
  {
    if i < |logs| {
      RowComplete(logs, i, i + 1, rule);
      FromComplete(logs, i + 1, rule);
      var row := RowPositions(logs, i, i + 1, rule);
      var rest := PositionsFrom(logs, i + 1, rule);
      assert PositionsFrom(logs, i, rule) == row + rest;
    }
  }

  /** One step of the inner loop: position (i, j) is checked, then (i, j + 1);
      `found` is what the scan has reported before. */
  lemma RowStep(logs: seq<ExerciseLog>, i: nat, j: nat, found: seq<ConflictPair>, later: seq<ConflictPair>)
    requires i < j < |logs|
    ensures Conflicting(logs[i], logs[j]) ==>
              found + RowMatches(logs, i, j, Conflicting) + later
              == (found + [(logs[i], logs[j])]) + RowMatches(logs, i, j + 1, Conflicting) + later
    ensures !Conflicting(logs[i], logs[j]) ==>
              found + RowMatches(logs, i, j, Conflicting) + later
              == found + RowMatches(logs, i, j + 1, Conflicting) + later
  {
    var rest := RowMatches(logs, i, j + 1, Conflicting);
    if Conflicting(logs[i], logs[j]) {
      assert found + ([(logs[i], logs[j])] + rest) + later
             == (found + [(logs[i], logs[j])]) + rest + later;
    } else {
      assert [] + rest == rest;
    }
  }

  /** The end of a row: the scan moves on to the next row. */
  lemma RowEnd(logs: seq<ExerciseLog>, i: nat, found: seq<ConflictPair>)
    requires i < |logs|
    ensures found + RowMatches(logs, i, |logs|, Conflicting) + MatchesFrom(logs, i + 1, Conflicting)
            == found + MatchesFrom(logs, i + 1, Conflicting)
  {
    assert RowMatches(logs, i, |logs|, Conflicting) == [];
  }

  /** `for (i in logs.indices) for (j in i + 1 until logs.size)`: checks every
      pair of positions once and appends `a to b` when they conflict. */
  method DetectConflicts(logs: seq<ExerciseLog>) returns (conflicts: seq<ConflictPair>)
    ensures conflicts == ConflictsOf(logs)
  {
    conflicts := [];
    var i := 0;
    while i < |logs|
      invariant 0 <= i <= |logs|
      invariant conflicts + MatchesFrom(logs, i, Conflicting) == ConflictsOf(logs)
    {
      ghost var later := MatchesFrom(logs, i + 1, Conflicting);
      var j := i + 1;
      while j < |logs|
        invariant i + 1 <= j <= |logs|
        invariant conflicts + RowMatches(logs, i, j, Conflicting) + later == ConflictsOf(logs)
      {
        var a := logs[i];
        var b := logs[j];
        var sameType := TypeKey(a.exerciseType) == TypeKey(b.exerciseType);
        var overlaps := a.start < b.end && a.end > b.start;
        var validSources := a.source == Manual || b.source == Manual;
        RowStep(logs, i, j, conflicts, later);
        if sameType && overlaps && validSources {
          conflicts := conflicts + [(a, b)];
        }
        j := j + 1;
      }
      RowEnd(logs, i, conflicts);
      i := i + 1;
    }
    assert conflicts + [] == conflicts;
  }

  /** detectConflicts reports exactly the conflicting pairs of positions
      i < j, each once, in row-major order, each as (logs[i], logs[j]). */
  lemma ConflictPositionsSpec(logs: seq<ExerciseLog>)
    ensures var ps := ConflictPositions(logs);
            var cs := ConflictsOf(logs);
            |ps| == |cs|
            && (forall k :: 0 <= k < |ps| ==>
                  0 <= ps[k].0 < ps[k].1 < |logs|
                  && cs[k] == (logs[ps[k].0], logs[ps[k].1])
                  && Conflicting(logs[ps[k].0], logs[ps[k].1]))
            && (forall k, l :: 0 <= k < l < |ps| ==> RowMajorLess(ps[k], ps[l]))
            && (forall a, b :: 0 <= a < b < |logs| && Conflicting(logs[a], logs[b]) ==> (a, b) in ps)
  {
    FromSound(logs, 0, Conflicting);
    FromAscending(logs, 0, Conflicting);
    FromComplete(logs, 0, Conflicting);
  }

  /** Every reported pair satisfies the rule; so two Health Connect records,
      records of different types and intervals that only touch are never
      reported. */
  lemma ReportedPairsConflict(logs: seq<ExerciseLog>, p: ConflictPair)
    requires p in ConflictsOf(logs)
    ensures Conflicting(p.0, p.1)
    ensures p.0.source == Manual || p.1.source == Manual
    ensures TypeKey(p.0.exerciseType) == TypeKey(p.1.exerciseType)
    ensures p.0.end != p.1.start && p.1.end != p.0.start
  {
    FromSound(logs, 0, Conflicting);
    var cs := ConflictsOf(logs);
    var k :| 0 <= k < |cs| && cs[k] == p;
  }

  /** Two records: one pair when they conflict, none otherwise. */
  lemma TwoLogs(a: ExerciseLog, b: ExerciseLog)
    ensures ConflictsOf([a, b]) == if Conflicting(a, b) then [(a, b)] else []
  {
    var logs := [a, b];
    assert RowMatches(logs, 1, 2, Conflicting) == [];
    assert MatchesFrom(logs, 1, Conflicting) == [];
    assert RowMatches(logs, 0, 2, Conflicting) == [];
    assert RowMatches(logs, 0, 1, Conflicting) == (if Conflicting(a, b) then [(a, b)] else []);
  }

  /** A manual record overlapping two Health Connect records of its type
      conflicts with each of them, in list order, and they not with each
      other. */
  lemma ManualOverTwoHealthLogs(keep: ExerciseLog, h1: ExerciseLog, h2: ExerciseLog)
    requires keep.source == Manual && h1.source == HealthConnect && h2.source == HealthConnect
    requires SameType(keep, h1) && SameType(keep, h2)
    requires Overlaps(keep, h1) && Overlaps(keep, h2)
    ensures ConflictsOf([keep, h1, h2]) == [(keep, h1), (keep, h2)]
  {
    var logs := [keep, h1, h2];
    assert RowMatches(logs, 2, 3, Conflicting) == [];
    assert MatchesFrom(logs, 2, Conflicting) == [];
    assert RowMatches(logs, 1, 3, Conflicting) == [];
    assert RowMatches(logs, 1, 2, Conflicting) == [];
    assert MatchesFrom(logs, 1, Conflicting) == [];
    assert RowMatches(logs, 0, 3, Conflicting) == [];
    assert RowMatches(logs, 0, 2, Conflicting) == [(keep, h2)];
    assert RowMatches(logs, 0, 1, Conflicting) == [(keep, h1), (keep, h2)];
  }
}
