/** The `oracle_rounds` table: rows keyed by round identifier, inserted and never updated. */
module Database {
  import opened Wrappers
  import opened OracleContract

  /** A saved copy of a round; `savedAt` is the moment of the insert. */
  datatype Row = Row(data: RoundData, savedAt: int)

  datatype DbError = DuplicateKey

  type Rows = map<nat, Row>

  function Inserted(rows: Rows, row: Row): Rows {
    if row.data.roundId in rows then rows else rows[row.data.roundId := row]
  }

  function Find(rows: Rows, id: nat): Option<Row> {
    if id in rows then Some(rows[id]) else None
  }

  lemma {:induction false} MaxExists(ids: set<nat>)
    requires ids != {}
    ensures exists k :: k in ids && forall j | j in ids :: j <= k
  {
    var k :| k in ids;
    if ids != {k} {
      MaxExists(ids - {k});
      var m :| m in ids - {k} && forall j | j in ids - {k} :: j <= m;
      var top := if m < k then k else m;
      assert forall j | j in ids :: j == k || j in ids - {k};
      assert top in ids && forall j | j in ids :: j <= top;
    }
  }

  function MaxKey(rows: Rows): (k: nat)
    requires rows.Keys != {}
    ensures k in rows && forall j | j in rows :: j <= k
  {
    MaxExists(rows.Keys);
    var k :| k in rows.Keys && forall j | j in rows.Keys :: j <= k;
    k
  }

  /** `ORDER BY round_id DESC` and take the first row. */
  function Newest(rows: Rows): (r: Option<Row>)
    ensures r.None? <==> rows.Keys == {}
    ensures r.Some? ==> exists k: nat :: k in rows && rows[k] == r.value && forall j | j in rows :: j <= k
  {
    if rows.Keys == {} then None else Some(rows[MaxKey(rows)])
  }

  /** The table after a sequence of saves. */
  function Saved(saves: seq<Row>): Rows {
    if saves == [] then map[] else Inserted(Saved(saves[..|saves| - 1]), saves[|saves| - 1])
  }

  /** The i-th save is the first with this identifier. */
  ghost predicate FirstSave(saves: seq<Row>, i: nat, id: nat) {
    && i < |saves| && saves[i].data.roundId == id
    && forall j | 0 <= j < i :: saves[j].data.roundId != id
  }

  /**
   A query by identifier yields the first row saved under it, whatever was saved later, and nothing
   exactly when there was none.
   */
  lemma {:induction false} FindsFirstSave(saves: seq<Row>, id: nat)
    ensures match Find(Saved(saves), id)
            case Some(row) => exists i: nat :: FirstSave(saves, i, id) && saves[i] == row
            case None => forall i | 0 <= i < |saves| :: saves[i].data.roundId != id
  {
    if saves != [] {
      var front, n := saves[..|saves| - 1], |saves| - 1;
      FindsFirstSave(front, id);
      if Find(Saved(front), id).Some? {
        var i: nat :| FirstSave(front, i, id) && front[i] == Find(Saved(front), id).value;
        assert FirstSave(saves, i, id);
      } else if saves[n].data.roundId == id {
        assert FirstSave(saves, n, id);
      }
    }
  }

  class DB {
    var rows: Rows

    /** Every row is stored under its own identifier, the primary key. */
    ghost predicate Valid()
      reads this
    {
      forall id | id in rows :: rows[id].data.roundId == id
    }

    constructor ()
      ensures rows == map[] && Valid()
    {
      rows := map[];
    }

    /** An insert: a second row with the same key fails and changes nothing. */
    method Save(row: Row) returns (r: Result<(), DbError>)
      modifies this
      ensures rows == Inserted(old(rows), row)
      ensures r.Success? <==> row.data.roundId !in old(rows)
      ensures rows == if row.data.roundId in old(rows) then old(rows) else old(rows)[row.data.roundId := row]
      ensures forall id | id in old(rows) :: id in rows && rows[id] == old(rows)[id]
      ensures old(Valid()) ==> Valid()
    {
      if row.data.roundId in rows {
        return Failure(DuplicateKey);
      }
      rows := rows[row.data.roundId := row];
      r := Success(());
    }

    method GetByRoundID(id: nat) returns (r: Option<Row>)
      ensures r == Find(rows, id)
      ensures r.None? <==> id !in rows
      ensures r.Some? ==> r.value == rows[id]
      ensures r.Some? && Valid() ==> r.value.data.roundId == id
    {
      r := if id in rows then Some(rows[id]) else None;
    }

    method GetLatest() returns (r: Option<Row>)
      ensures r == Newest(rows)
      ensures r.None? <==> rows == map[]
      ensures r.Some? && Valid() ==>
                r.value.data.roundId in rows && forall id | id in rows :: id <= r.value.data.roundId
    {
      if rows == map[] {
        return None;
      }
      r := Some(rows[MaxKey(rows)]);
    }
  }
}
