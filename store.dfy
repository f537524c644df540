/** The local table of manual logs behind `ExerciseDao` (data/local/ExerciseDao.kt):
    rows keyed by id, read newest first. */
module Store {
  import opened Entity
  import opened Sorting
  import opened Lists

  function StartOf(e: ExerciseEntity): int {
    e.start
  }

  /** No two rows share a primary key. */
  predicate UniqueIds(rows: seq<ExerciseEntity>) {
    forall i, j :: 0 <= i < j < |rows| ==> rows[i].id != rows[j].id
  }

  /** In a table with distinct keys, a key names one row. */
  lemma UniqueIdsSame(rows: seq<ExerciseEntity>, a: ExerciseEntity, b: ExerciseEntity)
    requires UniqueIds(rows) && a in rows && b in rows && a.id == b.id
    ensures a == b
  {
    var i :| 0 <= i < |rows| && rows[i] == a;
    var j :| 0 <= j < |rows| && rows[j] == b;
    assert !(i < j) && !(j < i);
  }

  /** The rows whose id is not in `ids`, in their order. */
  function WithoutIds(rows: seq<ExerciseEntity>, ids: set<string>): seq<ExerciseEntity> {
    Filter(rows, (e: ExerciseEntity) => e.id !in ids)
  }

  /** A row survives exactly when its id is not removed. */
  lemma WithoutIdsMembers(rows: seq<ExerciseEntity>, ids: set<string>)
    ensures forall e :: e in WithoutIds(rows, ids) <==> e in rows && e.id !in ids
  {
    FilterMembers(rows, (e: ExerciseEntity) => e.id !in ids);
  }

  /** Removing ids one batch after another removes their union. */
  lemma {:induction false} WithoutIdsTwice(rows: seq<ExerciseEntity>, a: set<string>, b: set<string>)
    ensures WithoutIds(WithoutIds(rows, a), b) == WithoutIds(rows, a + b)
  {
    if rows != [] {
      WithoutIdsTwice(rows[1..], a, b);
      var head := if rows[0].id !in a then [rows[0]] else [];
      assert WithoutIds(rows, a) == head + WithoutIds(rows[1..], a);
      FilterAppend(head, WithoutIds(rows[1..], a), (e: ExerciseEntity) => e.id !in b);
    }
  }

  /** Removing no ids changes nothing. */
  lemma {:induction false} WithoutNoIds(rows: seq<ExerciseEntity>)
    ensures WithoutIds(rows, {}) == rows
  {
    if rows != [] {
      WithoutNoIds(rows[1..]);
      assert rows == [rows[0]] + rows[1..];
    }
  }

  /** Removing rows keeps the keys distinct. */
  lemma {:induction false} WithoutIdsUnique(rows: seq<ExerciseEntity>, ids: set<string>)
    requires UniqueIds(rows)
    ensures UniqueIds(WithoutIds(rows, ids))
  {
    if rows != [] {
      WithoutIdsUnique(rows[1..], ids);
      var rest := WithoutIds(rows[1..], ids);
      WithoutIdsMembers(rows[1..], ids);
      if rows[0].id !in ids {
        var r := [rows[0]] + rest;
        forall i, j | 0 <= i < j < |r| ensures r[i].id != r[j].id {
          if i == 0 {
            assert r[j] == rest[j - 1] && rest[j - 1] in rows[1..];
          } else {
            assert r[i] == rest[i - 1] && r[j] == rest[j - 1];
          }
        }
      }
    }
  }

  /** `ExerciseDao` over a Room table: `getAll` reads `ORDER BY start DESC`,
      `insert` replaces a row with the same key, `delete` removes by key. */
  class ExerciseDao {
    var rows: seq<ExerciseEntity>

    ghost predicate Valid()
      reads this
    {
      UniqueIds(rows)
    }

    constructor ()
      ensures rows == [] && Valid()
    {
      rows := [];
    }

    /** `SELECT * FROM exercises ORDER BY start DESC`. SQLite leaves the order of
        rows with equal starts open; keeping their stored order is this model's
        choice. */
    function GetAll(): (r: seq<ExerciseEntity>)
      reads this
      ensures SortedDescending(r, StartOf)
      ensures multiset(r) == multiset(rows)
    {
      SortDescending(rows, StartOf)
    }

    /** `@Insert(onConflict = REPLACE)`: a row with the same id is replaced. */
    method Insert(e: ExerciseEntity)
      requires Valid()
      modifies this
      ensures Valid()
      ensures rows == WithoutIds(old(rows), {e.id}) + [e]
    {
      var kept := WithoutIds(rows, {e.id});
      WithoutIdsUnique(rows, {e.id});
      WithoutIdsMembers(rows, {e.id});
      rows := kept + [e];
      forall i, j | 0 <= i < j < |rows| ensures rows[i].id != rows[j].id {
        if j == |rows| - 1 {
          assert rows[i] == kept[i] && kept[i] in kept;
        } else {
          assert rows[i] == kept[i] && rows[j] == kept[j];
        }
      }
    }

    /** `@Delete`: removes the row whose primary key is `e.id`. */
    method Delete(e: ExerciseEntity)
      requires Valid()
      modifies this
      ensures Valid()
      ensures rows == WithoutIds(old(rows), {e.id})
    {
      WithoutIdsUnique(rows, {e.id});
      rows := WithoutIds(rows, {e.id});
    }
  }
}
