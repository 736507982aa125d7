/** The module-level database handle `db` and the `cart` table it opens.
    Each method is one SQL statement of the app. */
module CartStore {
  import opened CartTable
  import opened CartProperties

  class CartDb {
    /** The handle has been assigned (`db` is no longer null). */
    var ready: bool
    /** The rows of the `cart` table, in insertion order. */
    var lines: seq<Line>
    /** The key the store hands to the next inserted row. */
    var nextId: int

    /** The primary key holds and every key in use is below the next one. */
    ghost predicate Valid()
      reads this
    {
      WellKeyed(Table(lines, nextId))
    }

    function Snapshot(): (r: Table)
      reads this
    {
      Table(lines, nextId)
    }

    /** The app starts with the handle unassigned, while `stored` is what
        the database file already holds from an earlier run. */
    constructor (stored: seq<Line>, freshKey: int)
      requires WellKeyed(Table(stored, freshKey))
      ensures Valid() && !ready && lines == stored && nextId == freshKey
    {
      ready := false;
      lines := stored;
      nextId := freshKey;
    }

    /** `setupDatabase`: assign the handle and create the table if it does
        not exist; the rows already stored are kept. */
    method Setup()
      requires Valid()
      modifies this`ready
      ensures Valid() && ready
    {
      ready := true;
    }

    /** `SELECT * FROM cart WHERE title = ?` with the first row taken: the
        first row titled `t`, or None when no row is. */
    method FirstWithTitle(t: string) returns (row: Option<Line>)
      requires ready
      ensures row.None? <==> !HasTitle(lines, t)
      ensures row.Some? ==> FindTitle(lines, t).Some? && row.value == lines[FindTitle(lines, t).value]
    {
      match FindTitle(lines, t)
      case None => row := None;
      case Some(i) => row := Some(lines[i]);
    }

    /** `SELECT SUM(quantity) FROM cart`: NULL for an empty table, the sum
        of the quantities otherwise. */
    method SumQuantity() returns (total: Option<int>)
      requires ready
      ensures total.None? <==> lines == []
      ensures total.Some? ==> total.value == Sum(lines)
    {
      total := SqlSum(lines);
    }

    /** `SELECT * FROM cart`: every row, in insertion order. */
    method SelectAll() returns (rows: seq<Line>)
      requires ready
      ensures rows == lines
    {
      rows := lines;
    }

    /** `INSERT INTO cart (title, quantity) VALUES (?, 1)` under a fresh key. */
    method InsertOne(t: string)
      requires ready && Valid()
      modifies this`lines, this`nextId
      ensures Valid()
      ensures lines == old(lines) + [Line(old(nextId), t, 1)] && nextId == old(nextId) + 1
    {
      lines := lines + [Line(nextId, t, 1)];
      nextId := nextId + 1;
    }

    /** `UPDATE cart SET quantity = ? WHERE id = ?`. */
    method SetQuantityWhereId(id: int, q: int)
      requires ready && Valid()
      modifies this`lines
      ensures Valid()
      ensures lines == SetQuantityById(old(lines), id, q)
    {
      SetQuantityKeeps(lines, id, q, nextId);
      lines := SetQuantityById(lines, id, q);
    }

    /** `DELETE FROM cart WHERE id = ?`. */
    method DeleteWhereId(id: int)
      requires ready && Valid()
      modifies this`lines
      ensures Valid()
      ensures lines == DeleteById(old(lines), id)
    {
      DeleteKeeps(lines, id, nextId);
      DeleteKeepsUniqueIds(lines, id);
      lines := DeleteById(lines, id);
    }

    /** `DELETE FROM cart`: one statement, so the table is never left half
        cleared. */
    method DeleteAll()
      requires ready && Valid()
      modifies this`lines
      ensures Valid() && lines == []
    {
      lines := [];
    }
  }
}
