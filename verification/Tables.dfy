/** The two table shapes of the policy store: rows read back in id order, and child
    rows that carry their parent's id and their position. */
module Tables {
  import opened Wrappers
  import Text

  // ------------------------------------------------------------- ORDER BY id

  ghost predicate IdsDistinct<T(!new)>(xs: seq<T>, id: T -> string) {
    forall i, j | 0 <= i < j < |xs| :: id(xs[i]) != id(xs[j])
  }

  ghost predicate InIdOrder<T(!new)>(xs: seq<T>, id: T -> string) {
    forall i, j | 0 <= i < j < |xs| :: Text.Less(id(xs[i]), id(xs[j]))
  }

  function InsertById<T>(x: T, sorted: seq<T>, id: T -> string): (r: seq<T>)
    ensures |r| == |sorted| + 1
  {
    if sorted == [] || Text.Less(id(x), id(sorted[0])) then [x] + sorted
    else [sorted[0]] + InsertById(x, sorted[1..], id)
  }

  function SortById<T>(xs: seq<T>, id: T -> string): (r: seq<T>)
    ensures |r| == |xs|
  {
    if xs == [] then [] else InsertById(xs[0], SortById(xs[1..], id), id)
  }

  lemma {:induction false} InsertMembers<T(!new)>(x: T, sorted: seq<T>, id: T -> string)
    ensures forall y :: y in InsertById(x, sorted, id) <==> y == x || y in sorted
  {
    if sorted != [] && !Text.Less(id(x), id(sorted[0])) {
      InsertMembers(x, sorted[1..], id);
      assert sorted == [sorted[0]] + sorted[1..];
    }
  }

  lemma {:induction false} SortMembers<T(!new)>(xs: seq<T>, id: T -> string)
    ensures forall y :: y in SortById(xs, id) <==> y in xs
  {
    if xs != [] {
      SortMembers(xs[1..], id);
      InsertMembers(xs[0], SortById(xs[1..], id), id);
      assert xs == [xs[0]] + xs[1..];
    }
  }

  lemma {:induction false} InsertKeepsOrder<T(!new)>(x: T, sorted: seq<T>, id: T -> string)
    requires InIdOrder(sorted, id) && forall y | y in sorted :: id(y) != id(x)
    ensures InIdOrder(InsertById(x, sorted, id), id)
  {
    if sorted != [] {
      var head := sorted[0];
      assert head in sorted;
      forall y | y in sorted[1..] ensures Text.Less(id(head), id(y)) && y in sorted {
        var k :| 0 <= k < |sorted| - 1 && sorted[1..][k] == y;
        assert sorted[k + 1] == y;
      }
      if Text.Less(id(x), id(head)) {
        forall y | y in sorted[1..] ensures Text.Less(id(x), id(y)) {
          Text.LessTransitive(id(x), id(head), id(y));
        }
      } else {
        Text.LessTotal(id(x), id(head));
        InsertKeepsOrder(x, sorted[1..], id);
        InsertMembers(x, sorted[1..], id);
      }
    }
  }

  /** Rows with distinct ids come back strictly in id order. */
  lemma {:induction false} SortOrders<T(!new)>(xs: seq<T>, id: T -> string)
    requires IdsDistinct(xs, id)
    ensures InIdOrder(SortById(xs, id), id)
  {
    if xs != [] {
      SortOrders(xs[1..], id);
      SortMembers(xs[1..], id);
      forall y | y in xs[1..] ensures id(y) != id(xs[0]) {
        var k :| 0 <= k < |xs| - 1 && xs[1..][k] == y;
        assert xs[k + 1] == y;
      }
      InsertKeepsOrder(xs[0], SortById(xs[1..], id), id);
    }
  }

  lemma {:induction false} OrderedIsDistinct<T(!new)>(xs: seq<T>, id: T -> string)
    requires InIdOrder(xs, id)
    ensures IdsDistinct(xs, id)
  {
    forall i, j | 0 <= i < j < |xs| ensures id(xs[i]) != id(xs[j]) {
      Text.LessIrreflexive(id(xs[i]));
    }
  }

  /** What is in id order stays as it is. */
  lemma {:induction false} SortOfOrdered<T(!new)>(xs: seq<T>, id: T -> string)
    requires InIdOrder(xs, id)
    ensures SortById(xs, id) == xs
  {
    if xs != [] {
      SortOfOrdered(xs[1..], id);
      assert |xs| > 1 ==> Text.Less(id(xs[0]), id(xs[1]));
      assert xs == [xs[0]] + xs[1..];
    }
  }

  // ------------------------------------------------------------ decoding rows

  function DecodeAll<A, B>(rows: seq<A>, decode: A -> Option<B>): Option<seq<B>> {
    if rows == [] then Some([])
    else
      var first :- decode(rows[0]);
      var rest :- DecodeAll(rows[1..], decode);
      Some([first] + rest)
  }

  lemma {:induction false} DecodeSnoc<A, B>(rows: seq<A>, k: nat, decode: A -> Option<B>)
    requires k < |rows|
    ensures DecodeAll(rows[..k + 1], decode) == match (DecodeAll(rows[..k], decode), decode(rows[k]))
                                                case (Some(done), Some(next)) => Some(done + [next])
                                                case _ => None
  {
    if k == 0 {
      assert rows[..1] == [rows[0]] && [rows[0]][1..] == [];
      assert decode(rows[0]).Some? ==> [decode(rows[0]).value] + [] == [] + [decode(rows[0]).value];
    } else {
      assert rows[..k + 1][1..] == rows[1..][..k] && rows[..k][1..] == rows[1..][..k - 1];
      DecodeSnoc(rows[1..], k - 1, decode);
      var first, middle, last := decode(rows[0]), DecodeAll(rows[1..][..k - 1], decode), decode(rows[k]);
      if first.Some? && middle.Some? && last.Some? {
        assert [first.value] + (middle.value + [last.value]) == ([first.value] + middle.value) + [last.value];
      }
    }
  }

  lemma {:induction false} DecodeFails<A, B>(rows: seq<A>, k: nat, decode: A -> Option<B>)
    requires k < |rows| && decode(rows[k]).None?
    ensures DecodeAll(rows, decode).None?
  {
    if k > 0 {
      DecodeFails(rows[1..], k - 1, decode);
    }
  }

  method DecodeRows<A, B>(rows: seq<A>, decode: A -> Option<B>) returns (r: Option<seq<B>>)
    ensures r == DecodeAll(rows, decode)
  {
    var done: seq<B> := [];
    for k := 0 to |rows|
      invariant DecodeAll(rows[..k], decode) == Some(done)
    {
      DecodeSnoc(rows, k, decode);
      var next := decode(rows[k]);
      if next.None? {
        DecodeFails(rows, k, decode);
        return None;
      }
      done := done + [next.value];
    }
    assert rows[..|rows|] == rows;
    r := Some(done);
  }

  /** `x` was written as a row that decodes to it and carries its id. */
  ghost predicate Encodes<A(!new), B(!new)>(row: B -> A, decode: A -> Option<B>, x: B, rowId: A -> string,
        id: B -> string)
  {
    decode(row(x)) == Some(x) && rowId(row(x)) == id(x)
  }

  function MapSeq<A, B>(xs: seq<B>, f: B -> A): (r: seq<A>)
    ensures |r| == |xs|
    ensures forall k | 0 <= k < |xs| :: r[k] == f(xs[k])
  {
    seq(|xs|, k requires 0 <= k < |xs| => f(xs[k]))
  }

  lemma {:induction false} InsertMap<A(!new), B(!new)>(x: B, sorted: seq<B>, row: B -> A, rowId: A -> string,
        id: B -> string)
    requires rowId(row(x)) == id(x) && forall y | y in sorted :: rowId(row(y)) == id(y)
    ensures InsertById(row(x), MapSeq(sorted, row), rowId) == MapSeq(InsertById(x, sorted, id), row)
  {
    if sorted != [] {
      assert sorted[0] in sorted;
      assert MapSeq(sorted, row)[1..] == MapSeq(sorted[1..], row);
      if !Text.Less(id(x), id(sorted[0])) {
        InsertMap(x, sorted[1..], row, rowId, id);
      }
    }
  }

  lemma {:induction false} SortMap<A(!new), B(!new)>(xs: seq<B>, row: B -> A, rowId: A -> string, id: B -> string)
    requires forall y | y in xs :: rowId(row(y)) == id(y)
    ensures SortById(MapSeq(xs, row), rowId) == MapSeq(SortById(xs, id), row)
  {
    if xs != [] {
      assert xs[0] in xs && forall y | y in xs[1..] :: y in xs;
      assert MapSeq(xs, row)[1..] == MapSeq(xs[1..], row);
      SortMap(xs[1..], row, rowId, id);
      SortMembers(xs[1..], id);
      InsertMap(xs[0], SortById(xs[1..], id), row, rowId, id);
    }
  }

  lemma {:induction false} DecodeMapped<A(!new), B(!new)>(xs: seq<B>, row: B -> A, decode: A -> Option<B>)
    requires forall x | x in xs :: decode(row(x)) == Some(x)
    ensures DecodeAll(MapSeq(xs, row), decode) == Some(xs)
  {
    if xs != [] {
      assert xs[0] in xs && forall y | y in xs[1..] :: y in xs;
      assert MapSeq(xs, row)[1..] == MapSeq(xs[1..], row);
      DecodeMapped(xs[1..], row, decode);
      assert xs == [xs[0]] + xs[1..];
    }
  }

  /** Writing rows in any order and selecting them by id gives the entities back in
      id order. */
  lemma {:induction false} SelectAfterInsert<A(!new), B(!new)>(xs: seq<B>, row: B -> A, decode: A -> Option<B>,
        rowId: A -> string, id: B -> string)
    requires forall x | x in xs :: Encodes(row, decode, x, rowId, id)
    ensures DecodeAll(SortById(MapSeq(xs, row), rowId), decode) == Some(SortById(xs, id))
  {
    SortMap(xs, row, rowId, id);
    SortMembers(xs, id);
    DecodeMapped(SortById(xs, id), row, decode);
  }

  // -------------------------------------------------------------- child tables

  datatype Parent<E> = Parent(id: string, items: seq<E>)

  datatype Child<E> = Child(parent: string, position: nat, payload: E)

  function ChildrenOf<E>(p: Parent<E>): (rows: seq<Child<E>>)
    ensures |rows| == |p.items|
    ensures forall k | 0 <= k < |rows| :: rows[k] == Child(p.id, k, p.items[k])
  {
    seq(|p.items|, k requires 0 <= k < |p.items| => Child(p.id, k, p.items[k]))
  }

  function AllChildren<E>(parents: seq<Parent<E>>): seq<Child<E>> {
    if parents == [] then [] else AllChildren(parents[..|parents| - 1]) + ChildrenOf(parents[|parents| - 1])
  }

  lemma {:induction false} NoChildren<E>()
    ensures AllChildren<E>([]) == []
  {
  }

  lemma {:induction false} ChildrenSnoc<E>(parents: seq<Parent<E>>, i: nat)
    requires i < |parents|
    ensures AllChildren(parents[..i + 1]) == AllChildren(parents[..i]) + ChildrenOf(parents[i])
  {
    assert parents[..i + 1][..i] == parents[..i];
  }

  /** The insert loops. */
  method InsertChildren<E>(parents: seq<Parent<E>>) returns (rows: seq<Child<E>>)
    ensures rows == AllChildren(parents)
  {
    rows := [];
    for i := 0 to |parents|
      invariant rows == AllChildren(parents[..i])
    {
      assert parents[..i + 1][..i] == parents[..i];
      ghost var before := rows;
      for position := 0 to |parents[i].items|
        invariant rows == before + ChildrenOf(parents[i])[..position]
      {
        rows := rows + [Child(parents[i].id, position, parents[i].items[position])];
      }
      assert ChildrenOf(parents[i])[..|parents[i].items|] == ChildrenOf(parents[i]);
    }
    assert parents[..|parents|] == parents;
  }

  function Where<E>(rows: seq<Child<E>>, parent: string): seq<Child<E>> {
    if rows == [] then []
    else Where(rows[..|rows| - 1], parent) + if rows[|rows| - 1].parent == parent then [rows[|rows| - 1]] else []
  }

  function InsertByPosition<E>(x: Child<E>, sorted: seq<Child<E>>): seq<Child<E>> {
    if sorted == [] || x.position <= sorted[0].position then [x] + sorted
    else [sorted[0]] + InsertByPosition(x, sorted[1..])
  }

  function ByPosition<E>(rows: seq<Child<E>>): seq<Child<E>> {
    if rows == [] then [] else InsertByPosition(rows[0], ByPosition(rows[1..]))
  }

  /** SELECT payload ... WHERE parent = ? ORDER BY position. */
  function Select<E>(rows: seq<Child<E>>, parent: string): seq<E> {
    MapSeq(ByPosition(Where(rows, parent)), (c: Child<E>) => c.payload)
  }

  lemma {:induction false} WhereConcat<E>(xs: seq<Child<E>>, ys: seq<Child<E>>, parent: string)
    ensures Where(xs + ys, parent) == Where(xs, parent) + Where(ys, parent)
  {
    if ys == [] {
      assert xs + ys == xs;
    } else {
      assert (xs + ys)[..|xs + ys| - 1] == xs + ys[..|ys| - 1];
      WhereConcat(xs, ys[..|ys| - 1], parent);
    }
  }

  lemma {:induction false} WhereOwn<E>(rows: seq<Child<E>>, parent: string)
    requires forall k | 0 <= k < |rows| :: rows[k].parent == parent
    ensures Where(rows, parent) == rows
  {
    if rows != [] {
      WhereOwn(rows[..|rows| - 1], parent);
    }
  }

  lemma {:induction false} WhereOther<E>(rows: seq<Child<E>>, parent: string)
    requires forall k | 0 <= k < |rows| :: rows[k].parent != parent
    ensures Where(rows, parent) == []
  {
    if rows != [] {
      WhereOther(rows[..|rows| - 1], parent);
    }
  }

  lemma {:induction false} AlreadyByPosition<E>(rows: seq<Child<E>>)
    requires forall i, j | 0 <= i < j < |rows| :: rows[i].position <= rows[j].position
    ensures ByPosition(rows) == rows
  {
    if rows != [] {
      AlreadyByPosition(rows[1..]);
      assert rows == [rows[0]] + rows[1..];
    }
  }

  lemma {:induction false} WhereAll<E>(parents: seq<Parent<E>>, id: string)
    requires forall k | 0 <= k < |parents| :: parents[k].id != id
    ensures Where(AllChildren(parents), id) == []
  {
    if parents != [] {
      var n := |parents| - 1;
      WhereAll(parents[..n], id);
      WhereOther(ChildrenOf(parents[n]), id);
      WhereConcat(AllChildren(parents[..n]), ChildrenOf(parents[n]), id);
    }
  }

  lemma {:induction false} WhereOne<E>(parents: seq<Parent<E>>, k: nat)
    requires k < |parents| && forall i, j | 0 <= i < j < |parents| :: parents[i].id != parents[j].id
    ensures Where(AllChildren(parents), parents[k].id) == ChildrenOf(parents[k])
  {
    var n := |parents| - 1;
    WhereConcat(AllChildren(parents[..n]), ChildrenOf(parents[n]), parents[k].id);
    if k < n {
      WhereOne(parents[..n], k);
      WhereOther(ChildrenOf(parents[n]), parents[k].id);
    } else {
      WhereAll(parents[..n], parents[k].id);
      WhereOwn(ChildrenOf(parents[n]), parents[k].id);
    }
  }

  /** Each parent's items come back, its own and no others, in their order. */
  lemma {:induction false} SelectBack<E>(parents: seq<Parent<E>>, k: nat)
    requires k < |parents| && forall i, j | 0 <= i < j < |parents| :: parents[i].id != parents[j].id
    ensures Select(AllChildren(parents), parents[k].id) == parents[k].items
  {
    WhereOne(parents, k);
    AlreadyByPosition(ChildrenOf(parents[k]));
  }
}
