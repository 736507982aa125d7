/** The `cart` table of the bookstore app as a value: its rows, the SQL
    statements the screens run against it, and the invariants those
    statements keep. */
module CartTable {

  datatype Option<T> = None | Some(value: T)

  /** One row of `cart(id, title, quantity)`. */
  datatype Line = Line(id: int, title: string, quantity: int)

  /** The rows of the table, in insertion order, and the key the store
      hands to the next inserted row. */
  datatype Table = Table(lines: seq<Line>, nextId: int)

  // ---------------------------------------------------------------------
  // Invariants

  /** The primary key: no two rows share an id. */
  ghost predicate UniqueIds(lines: seq<Line>) {
    forall i, j :: 0 <= i < j < |lines| ==> lines[i].id != lines[j].id
  }

  /** Every key in use is below the next key to be handed out. */
  ghost predicate IdsBelow(lines: seq<Line>, bound: int) {
    forall k :: 0 <= k < |lines| ==> lines[k].id < bound
  }

  /** What the store guarantees about keys. */
  ghost predicate WellKeyed(tb: Table) {
    UniqueIds(tb.lines) && IdsBelow(tb.lines, tb.nextId)
  }

  /** At most one row per title. */
  ghost predicate UniqueTitles(lines: seq<Line>) {
    forall i, j :: 0 <= i < j < |lines| ==> lines[i].title != lines[j].title
  }

  /** No row is persisted with a quantity of zero or less. */
  ghost predicate AllPositive(lines: seq<Line>) {
    forall k :: 0 <= k < |lines| ==> lines[k].quantity >= 1
  }

  /** The invariant the adds keep when they do not overlap, and the
      quantity changes keep always. */
  ghost predicate CartInvariant(lines: seq<Line>) {
    UniqueTitles(lines) && AllPositive(lines)
  }

  ghost predicate HasTitle(lines: seq<Line>, t: string) {
    exists k :: 0 <= k < |lines| && lines[k].title == t
  }

  // ---------------------------------------------------------------------
  // Queries

  /** The sum of the quantities of all rows. */
  function Sum(lines: seq<Line>): (r: int)
    ensures AllPositive(lines) ==> r >= |lines|
  {
    if lines == [] then 0 else lines[0].quantity + Sum(lines[1..])
  }

  /** `SELECT SUM(quantity) FROM cart`: SQL's SUM over no rows is NULL. */
  function SqlSum(lines: seq<Line>): Option<int> {
    if lines == [] then None else Some(Sum(lines))
  }

  /** The cart count, `SUM(quantity) ?? 0`: never NULL, and the sum of the
      quantities for every cart, the empty one included. */
  function CartTotal(lines: seq<Line>): (r: int)
    ensures r == Sum(lines)
    ensures lines == [] ==> r == 0
    ensures AllPositive(lines) && lines != [] ==> r > 0
  {
    match SqlSum(lines)
    case None => 0
    case Some(total) => total
  }

  /** `SELECT * FROM cart WHERE title = ?` with the first row taken: the
      position of the first row titled `t`, or None when there is none. */
  function FindTitle(lines: seq<Line>, t: string): (r: Option<nat>)
    ensures r.Some? ==> r.value < |lines| && lines[r.value].title == t
    ensures r.Some? ==> forall j :: 0 <= j < r.value ==> lines[j].title != t
    ensures r.None? <==> !HasTitle(lines, t)
  {
    if lines == [] then None
    else if lines[0].title == t then Some(0)
    else
      match FindTitle(lines[1..], t)
      case None => None
      case Some(i) => Some(i + 1)
  }

  /** The quantity held for title `t`: that of its first row, 0 if none. */
  function Qty(lines: seq<Line>, t: string): (r: int) {
    match FindTitle(lines, t)
    case None => 0
    case Some(i) => lines[i].quantity
  }

  // ---------------------------------------------------------------------
  // Statements

  /** `DELETE FROM cart WHERE id = ?`: every row with that id goes and
      every other row stays; that the others also keep their order is
      stated by `DeleteAt`. */
  function DeleteById(lines: seq<Line>, id: int): (r: seq<Line>)
    ensures forall l {:trigger l in r} :: l in r <==> l in lines && l.id != id
    ensures |r| <= |lines|
  {
    if lines == [] then []
    else (if lines[0].id == id then [] else [lines[0]]) + DeleteById(lines[1..], id)
  }

  /** `UPDATE cart SET quantity = ? WHERE id = ?`: the rows with that id get
      quantity `q`, nothing else changes. */
  function SetQuantityById(lines: seq<Line>, id: int, q: int): (r: seq<Line>)
    ensures |r| == |lines|
    ensures forall k {:trigger r[k]} :: 0 <= k < |lines| ==>
      r[k] == (if lines[k].id == id then lines[k].(quantity := q) else lines[k])
  {
    if lines == [] then []
    else [if lines[0].id == id then lines[0].(quantity := q) else lines[0]]
         + SetQuantityById(lines[1..], id, q)
  }

  /** `addToCart(t)` on the table: raise the first row titled `t` by one, or
      insert `(t, 1)` under a fresh key. */
  function Add(tb: Table, t: string): (r: Table)
    ensures r.nextId >= tb.nextId
    ensures |r.lines| == |tb.lines| + (if FindTitle(tb.lines, t).Some? then 0 else 1)
  {
    match FindTitle(tb.lines, t)
    case Some(i) =>
      Table(SetQuantityById(tb.lines, tb.lines[i].id, tb.lines[i].quantity + 1), tb.nextId)
    case None =>
      Table(tb.lines + [Line(tb.nextId, t, 1)], tb.nextId + 1)
  }

  /** `updateQuantity(id, q)` on the table: a quantity of zero or less
      deletes the row, any other sets it. */
  function Update(lines: seq<Line>, id: int, q: int): (r: seq<Line>)
    ensures |r| <= |lines|
    ensures q > 0 ==> |r| == |lines|
    ensures forall l {:trigger l in r} :: l in r && l.id == id ==> q > 0 && l.quantity == q
  {
    if q <= 0 then DeleteById(lines, id) else SetQuantityById(lines, id, q)
  }

  /** The adds of `ts`, applied left to right. */
  function AddAll(tb: Table, ts: seq<string>): (r: Table)
    ensures |tb.lines| <= |r.lines| <= |tb.lines| + |ts|
    ensures r.nextId >= tb.nextId
    decreases |ts|
  {
    if ts == [] then tb else AddAll(Add(tb, ts[0]), ts[1..])
  }

  /** How many times `t` occurs in `ts`. */
  function Count(ts: seq<string>, t: string): (r: nat) {
    if ts == [] then 0 else (if ts[0] == t then 1 else 0) + Count(ts[1..], t)
  }
}
