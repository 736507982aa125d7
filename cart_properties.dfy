/** What the cart statements promise: how each one moves the total, which
    rows it touches, and that together they keep one positive row per title. */
module CartProperties {
  import opened CartTable

  // ---------------------------------------------------------------------
  // The total

  lemma {:induction false} SumAppend(a: seq<Line>, b: seq<Line>)
    ensures Sum(a + b) == Sum(a) + Sum(b)
  {
    if a == [] {
      assert a + b == b;
    } else {
      assert (a + b)[1..] == a[1..] + b;
      SumAppend(a[1..], b);
    }
  }

  /** Replacing one row moves the total by the difference in quantity. */
  lemma {:induction false} SumUpdate(lines: seq<Line>, i: nat, x: Line)
    requires i < |lines|
    ensures Sum(lines[i := x]) == Sum(lines) - lines[i].quantity + x.quantity
  {
    if i > 0 {
      assert lines[i := x][1..] == lines[1..][i - 1 := x];
      SumUpdate(lines[1..], i - 1, x);
    }
  }

  // ---------------------------------------------------------------------
  // deleteCartItem

  /** Deleting an id no row carries leaves the table as it was. */
  lemma {:induction false} DeleteMissing(lines: seq<Line>, id: int)
    requires forall k :: 0 <= k < |lines| ==> lines[k].id != id
    ensures DeleteById(lines, id) == lines
  {
    if lines != [] {
      DeleteMissing(lines[1..], id);
      assert [lines[0]] + lines[1..] == lines;
    }
  }

  /** Under the primary key, deleting a row's id removes exactly that row. */
  lemma {:induction false} DeleteAt(lines: seq<Line>, i: nat)
    requires UniqueIds(lines) && i < |lines|
    ensures DeleteById(lines, lines[i].id) == lines[..i] + lines[i + 1..]
  {
    if i == 0 {
      DeleteMissing(lines[1..], lines[0].id);
      assert lines[1..] == lines[..0] + lines[1..];
    } else {
      DeleteAt(lines[1..], i - 1);
      assert lines[1..][i - 1].id == lines[i].id;
      assert lines[..i] + lines[i + 1..] == [lines[0]] + (lines[1..][..i - 1] + lines[1..][i..]);
    }
  }

  /** Deleting a row takes its quantity off the total. */
  lemma DeleteSum(lines: seq<Line>, i: nat)
    requires UniqueIds(lines) && i < |lines|
    ensures Sum(DeleteById(lines, lines[i].id)) == Sum(lines) - lines[i].quantity
  {
    var before, after := lines[..i], lines[i + 1..];
    assert lines[i..] == [lines[i]] + after;
    assert lines == before + lines[i..];
    DeleteAt(lines, i);
    SumAppend(before, after);
    SumAppend(before, lines[i..]);
  }

  /** A filtered table keeps every key below the bound and every quantity
      positive. */
  lemma DeleteKeeps(lines: seq<Line>, id: int, bound: int)
    ensures IdsBelow(lines, bound) ==> IdsBelow(DeleteById(lines, id), bound)
    ensures AllPositive(lines) ==> AllPositive(DeleteById(lines, id))
  {
    var r := DeleteById(lines, id);
    forall k | 0 <= k < |r| ensures exists j :: 0 <= j < |lines| && lines[j] == r[k] {
      assert r[k] in r;
    }
  }

  /** A filtered table keeps its keys distinct. */
  lemma {:induction false} DeleteKeepsUniqueIds(lines: seq<Line>, id: int)
    requires UniqueIds(lines)
    ensures UniqueIds(DeleteById(lines, id))
  {
    if lines != [] {
      var rest := DeleteById(lines[1..], id);
      DeleteKeepsUniqueIds(lines[1..], id);
      if lines[0].id != id {
        forall k | 0 <= k < |rest| ensures rest[k].id != lines[0].id {
          assert rest[k] in rest;
          var j :| 0 <= j < |lines[1..]| && lines[1..][j] == rest[k];
          assert lines[j + 1] == rest[k];
        }
      }
    }
  }

  /** A filtered table keeps its titles distinct. */
  lemma {:induction false} DeleteKeepsUniqueTitles(lines: seq<Line>, id: int)
    requires UniqueTitles(lines)
    ensures UniqueTitles(DeleteById(lines, id))
  {
    if lines != [] {
      var rest := DeleteById(lines[1..], id);
      DeleteKeepsUniqueTitles(lines[1..], id);
      if lines[0].id != id {
        forall k | 0 <= k < |rest| ensures rest[k].title != lines[0].title {
          assert rest[k] in rest;
          var j :| 0 <= j < |lines[1..]| && lines[1..][j] == rest[k];
          assert lines[j + 1] == rest[k];
        }
      }
    }
  }

  // ---------------------------------------------------------------------
  // updateQuantity

  /** Under the primary key, setting a row's id sets exactly that row. */
  lemma SetQuantityAt(lines: seq<Line>, i: nat, q: int)
    requires UniqueIds(lines) && i < |lines|
    ensures SetQuantityById(lines, lines[i].id, q) == lines[i := lines[i].(quantity := q)]
  {
  }

  /** Setting a quantity keeps every key and title where it was, and keeps
      every quantity positive when the new one is. */
  lemma SetQuantityKeeps(lines: seq<Line>, id: int, q: int, bound: int)
    ensures UniqueIds(lines) ==> UniqueIds(SetQuantityById(lines, id, q))
    ensures IdsBelow(lines, bound) ==> IdsBelow(SetQuantityById(lines, id, q), bound)
    ensures UniqueTitles(lines) ==> UniqueTitles(SetQuantityById(lines, id, q))
    ensures AllPositive(lines) && q >= 1 ==> AllPositive(SetQuantityById(lines, id, q))
  {
    var r := SetQuantityById(lines, id, q);
    assert forall k :: 0 <= k < |lines| ==> r[k].id == lines[k].id && r[k].title == lines[k].title;
  }

  /** updateQuantity, whatever the id, never leaves a row with quantity
      zero or less and keeps keys and titles distinct; asked for zero or
      less it leaves no row with that id. */
  lemma UpdateKeeps(lines: seq<Line>, id: int, q: int)
    requires UniqueIds(lines) && CartInvariant(lines)
    ensures UniqueIds(Update(lines, id, q)) && CartInvariant(Update(lines, id, q))
    ensures q <= 0 ==> forall l :: l in Update(lines, id, q) ==> l.id != id
  {
    if q <= 0 {
      DeleteKeeps(lines, id, 0);
      DeleteKeepsUniqueIds(lines, id);
      DeleteKeepsUniqueTitles(lines, id);
    } else {
      SetQuantityKeeps(lines, id, q, 0);
    }
  }

  /** updateQuantity on a row: zero or less takes its quantity off the
      total, any other moves the total by the change to that row. */
  lemma UpdateSum(lines: seq<Line>, i: nat, q: int)
    requires UniqueIds(lines) && i < |lines|
    ensures q <= 0 ==> Sum(Update(lines, lines[i].id, q)) == Sum(lines) - lines[i].quantity
    ensures q > 0 ==> Sum(Update(lines, lines[i].id, q)) == Sum(lines) - lines[i].quantity + q
  {
    if q <= 0 {
      DeleteSum(lines, i);
    } else {
      SetQuantityAt(lines, i, q);
      SumUpdate(lines, i, lines[i].(quantity := q));
    }
  }

  // ---------------------------------------------------------------------
  // addToCart

  /** A repeat title raises its row by exactly one; no row is added and
      every other row is left as it was. */
  lemma AddExisting(tb: Table, t: string, i: nat)
    requires WellKeyed(tb) && UniqueTitles(tb.lines)
    requires i < |tb.lines| && tb.lines[i].title == t
    ensures Add(tb, t).lines == tb.lines[i := tb.lines[i].(quantity := tb.lines[i].quantity + 1)]
    ensures Add(tb, t).nextId == tb.nextId
  {
    FoundAt(tb.lines, t, i);
    SetQuantityAt(tb.lines, i, tb.lines[i].quantity + 1);
  }

  /** With one row per title, the lookup finds the row that carries it. */
  lemma FoundAt(lines: seq<Line>, t: string, i: nat)
    requires UniqueTitles(lines) && i < |lines| && lines[i].title == t
    ensures FindTitle(lines, t) == Some(i)
  {
    var f := FindTitle(lines, t);
    assert HasTitle(lines, t);
    assert !(f.value < i) && !(i < f.value);
  }

  /** A new title appends one row `(fresh key, t, 1)`; no key in use is
      reused and the existing rows are left as they were. */
  lemma AddNew(tb: Table, t: string)
    requires WellKeyed(tb) && !HasTitle(tb.lines, t)
    ensures Add(tb, t).lines == tb.lines + [Line(tb.nextId, t, 1)]
    ensures Add(tb, t).nextId > tb.nextId
    ensures forall k :: 0 <= k < |tb.lines| ==> tb.lines[k].id != tb.nextId
  {
  }

  /** addToCart keeps the keys sound, and keeps one positive row per title
      while adding one to the total. */
  lemma AddPreserves(tb: Table, t: string)
    requires WellKeyed(tb)
    ensures WellKeyed(Add(tb, t))
    ensures CartInvariant(tb.lines) ==> CartInvariant(Add(tb, t).lines)
    ensures CartInvariant(tb.lines) ==> Sum(Add(tb, t).lines) == Sum(tb.lines) + 1
  {
    match FindTitle(tb.lines, t)
    case Some(i) => RaisePreserves(tb, t, i);
    case None => InsertPreserves(tb, t);
  }

  /** The raise half of AddPreserves. */
  lemma RaisePreserves(tb: Table, t: string, i: nat)
    requires WellKeyed(tb) && FindTitle(tb.lines, t) == Some(i)
    ensures WellKeyed(Add(tb, t))
    ensures CartInvariant(tb.lines) ==> CartInvariant(Add(tb, t).lines)
    ensures CartInvariant(tb.lines) ==> Sum(Add(tb, t).lines) == Sum(tb.lines) + 1
  {
    var lines := tb.lines;
    var x := lines[i].(quantity := lines[i].quantity + 1);
    SetQuantityAt(lines, i, x.quantity);
    SetQuantityKeeps(lines, lines[i].id, x.quantity, tb.nextId);
    assert Add(tb, t) == Table(lines[i := x], tb.nextId);
    SumUpdate(lines, i, x);
  }

  /** The insert half of AddPreserves. */
  lemma InsertPreserves(tb: Table, t: string)
    requires WellKeyed(tb) && FindTitle(tb.lines, t) == None
    ensures WellKeyed(Add(tb, t))
    ensures CartInvariant(tb.lines) ==> CartInvariant(Add(tb, t).lines)
    ensures CartInvariant(tb.lines) ==> Sum(Add(tb, t).lines) == Sum(tb.lines) + 1
  {
    var x := Line(tb.nextId, t, 1);
    assert Add(tb, t) == Table(tb.lines + [x], tb.nextId + 1);
    AppendKeeps(tb.lines, x, tb.nextId);
    SumAppend(tb.lines, [x]);
  }

  /** Appending a row under the next key, with a title not yet held and a
      positive quantity, keeps the keys and the cart invariant. */
  lemma AppendKeeps(lines: seq<Line>, x: Line, bound: int)
    requires WellKeyed(Table(lines, bound)) && x.id == bound
    ensures WellKeyed(Table(lines + [x], bound + 1))
    ensures CartInvariant(lines) && !HasTitle(lines, x.title) && x.quantity >= 1 ==>
      CartInvariant(lines + [x])
  {
    var r := lines + [x];
    forall i, j | 0 <= i < j < |r| ensures r[i].id != r[j].id {
      if j == |lines| {
        assert r[i] == lines[i];
      }
    }
    if CartInvariant(lines) && !HasTitle(lines, x.title) {
      forall i, j | 0 <= i < j < |r| ensures r[i].title != r[j].title {
        if j == |lines| {
          assert r[i] == lines[i];
        }
      }
    }
  }

  /** After addToCart the cart holds a row for exactly the titles it held
      before and the title added. */
  lemma AddTitles(tb: Table, t: string, s: string)
    requires WellKeyed(tb) && UniqueTitles(tb.lines)
    ensures HasTitle(Add(tb, t).lines, s) <==> HasTitle(tb.lines, s) || s == t
  {
    var lines := tb.lines;
    var r := Add(tb, t).lines;
    match FindTitle(lines, t)
    case Some(i) =>
      AddExisting(tb, t, i);
      if HasTitle(lines, s) {
        var k :| 0 <= k < |lines| && lines[k].title == s;
        assert r[k].title == s;
      }
      if HasTitle(r, s) {
        var k :| 0 <= k < |r| && r[k].title == s;
        assert lines[k].title == s;
      }
    case None =>
      AddNew(tb, t);
      if HasTitle(lines, s) {
        var k :| 0 <= k < |lines| && lines[k].title == s;
        assert r[k].title == s;
      }
      if s == t {
        assert r[|lines|].title == s;
      }
  }

  /** One add moves the quantity held for `t` by one when it is the title
      added, and leaves it alone otherwise. */
  lemma AddQty(tb: Table, s: string, t: string)
    requires WellKeyed(tb) && CartInvariant(tb.lines)
    ensures Qty(Add(tb, s).lines, t) == Qty(tb.lines, t) + (if t == s then 1 else 0)
  {
    var lines := tb.lines;
    var r := Add(tb, s).lines;
    match FindTitle(lines, s)
    case Some(i) =>
      AddExisting(tb, s, i);
      SameTitlesSameFind(lines, r, t);
    case None =>
      AddNew(tb, s);
      AppendFind(lines, Line(tb.nextId, s, 1), t);
  }

  /** The lookup on a table with one more row: an earlier match wins, else
      the new row if its title matches. */
  lemma {:induction false} AppendFind(lines: seq<Line>, x: Line, t: string)
    ensures FindTitle(lines + [x], t) ==
      if FindTitle(lines, t).Some? then FindTitle(lines, t)
      else if x.title == t then Some(|lines|)
      else None
  {
    if lines == [] {
      assert lines + [x] == [x] && [x][1..] == [];
    } else if lines[0].title != t {
      assert (lines + [x])[1..] == lines[1..] + [x];
      AppendFind(lines[1..], x, t);
    }
  }

  /** The lookup by title sees only titles. */
  lemma SameTitlesSameFind(a: seq<Line>, b: seq<Line>, t: string)
    requires |a| == |b| && forall k :: 0 <= k < |a| ==> a[k].title == b[k].title
    ensures FindTitle(a, t) == FindTitle(b, t)
  {
    var fa, fb := FindTitle(a, t), FindTitle(b, t);
    if fa.Some? {
      assert HasTitle(b, t) by { assert b[fa.value].title == t; }
    }
    if fb.Some? {
      assert HasTitle(a, t) by { assert a[fb.value].title == t; }
    }
    if fa.Some? && fb.Some? {
      assert !(fa.value < fb.value) && !(fb.value < fa.value);
    }
  }

  /** After any sequence of adds the cart keeps its invariants, holds one
      row for exactly the titles it held or was given, and the quantity of
      each title grew by the number of times it was added. */
  lemma {:induction false} AddAllSpec(tb: Table, ts: seq<string>)
    requires WellKeyed(tb) && CartInvariant(tb.lines)
    decreases |ts|
    ensures WellKeyed(AddAll(tb, ts)) && CartInvariant(AddAll(tb, ts).lines)
    ensures forall t :: Qty(AddAll(tb, ts).lines, t) == Qty(tb.lines, t) + Count(ts, t)
    ensures forall t :: HasTitle(AddAll(tb, ts).lines, t) <==> HasTitle(tb.lines, t) || t in ts
    ensures Sum(AddAll(tb, ts).lines) == Sum(tb.lines) + |ts|
  {
    if ts != [] {
      var next := Add(tb, ts[0]);
      AddPreserves(tb, ts[0]);
      AddAllSpec(next, ts[1..]);
      forall t ensures Qty(AddAll(tb, ts).lines, t) == Qty(tb.lines, t) + Count(ts, t) {
        AddQty(tb, ts[0], t);
      }
      forall t ensures HasTitle(AddAll(tb, ts).lines, t) <==> HasTitle(tb.lines, t) || t in ts {
        AddTitles(tb, ts[0], t);
        assert t in ts <==> t == ts[0] || t in ts[1..] by {
          assert ts == [ts[0]] + ts[1..];
        }
      }
    }
  }

  /** Starting from an empty cart, a sequence of adds leaves exactly one row
      per distinct title added, each with the number of times that title
      was added. */
  lemma AddsFromEmpty(nextId: int, ts: seq<string>)
    ensures UniqueTitles(AddAll(Table([], nextId), ts).lines)
    ensures forall t :: HasTitle(AddAll(Table([], nextId), ts).lines, t) <==> t in ts
    ensures forall l :: l in AddAll(Table([], nextId), ts).lines ==> l.quantity == Count(ts, l.title)
  {
    var r := AddAll(Table([], nextId), ts).lines;
    AddAllSpec(Table([], nextId), ts);
    forall l | l in r ensures l.quantity == Count(ts, l.title) {
      var k :| 0 <= k < |r| && r[k] == l;
      assert FindTitle(r, l.title) == Some(k) by {
        var f := FindTitle(r, l.title);
        assert HasTitle(r, l.title);
        assert !(f.value < k) && !(k < f.value);
      }
      assert Qty(r, l.title) == l.quantity;
      assert Qty([], l.title) == 0;
    }
  }

  /** From an empty cart, the total after a sequence of adds, which the
      badge shows, is the number of adds. */
  lemma AddsFromEmptyTotal(nextId: int, ts: seq<string>)
    ensures Sum(AddAll(Table([], nextId), ts).lines) == |ts|
  {
    AddAllSpec(Table([], nextId), ts);
  }
}
