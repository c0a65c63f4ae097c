/**
 * What the keyed-table services share: the order in which a query with
 * `order_by` returns rows, `offset`/`limit` paging, and the loop
 * `for key, value in data.items(): setattr(row, key, value)` that applies a
 * patch dumped with `model_dump(exclude_unset=True)`.
 */
module Tables {

  predicate Increasing(xs: seq<int>) {
    forall i, j :: 0 <= i < j < |xs| ==> xs[i] < xs[j]
  }

  lemma {:induction false} Member(s: set<int>)
    requires s != {}
    ensures exists x :: x in s
  {
    if forall x :: x !in s { assert false; }
  }

  lemma {:induction false} HasMinimum(s: set<int>)
    requires s != {}
    ensures exists m :: m in s && forall y :: y in s ==> m <= y
    decreases |s|
  {
    Member(s);
    var x :| x in s;
    var rest := s - {x};
    if rest == {} {
      assert s == {x};
    } else {
      HasMinimum(rest);
      var m :| m in rest && forall y :: y in rest ==> m <= y;
      var lo := if x < m then x else m;
      forall y | y in s ensures lo <= y { if y != x { assert y in rest; } }
      assert lo in s;
    }
  }

  ghost function Min(s: set<int>): (m: int)
    requires s != {}
    ensures m in s && forall y :: y in s ==> m <= y
  {
    HasMinimum(s);
    var m :| m in s && forall y :: y in s ==> m <= y;
    m
  }

  /** The elements of `s` in ascending order: the order of `ORDER BY` on a key column. */
  ghost function Ascending(s: set<int>): (xs: seq<int>)
    ensures Increasing(xs)
    ensures forall x :: x in xs <==> x in s
    decreases s
  {
    if s == {} then []
    else
      var m := Min(s);
      var rest := Ascending(s - {m});
      assert forall x :: x in rest ==> m < x;
      [m] + rest
  }

  /** The elements of `s` smaller than `y`. */
  ghost function Below(s: set<int>, y: int): set<int> {
    set x | x in s && x < y
  }

  /** Ordering a set neither drops nor repeats an element. */
  lemma {:induction false} AscendingSize(s: set<int>)
    ensures |Ascending(s)| == |s|
    decreases s
  {
    if s != {} {
      AscendingSize(s - {Min(s)});
    }
  }

  /** The element at position `n` of the ordered set has exactly `n` smaller elements. */
  lemma {:induction false} AscendingRank(s: set<int>, n: nat)
    requires n < |Ascending(s)|
    ensures |Below(s, Ascending(s)[n])| == n
    decreases s
  {
    var m := Min(s);
    var rest := Ascending(s - {m});
    var y := Ascending(s)[n];
    if n == 0 {
      assert Below(s, y) == {};
    } else {
      assert y == rest[n - 1];
      AscendingRank(s - {m}, n - 1);
      assert Below(s, y) == Below(s - {m}, y) + {m};
    }
  }

  /** The second key components paired with `a`, ascending (`WHERE first == a ORDER BY second`). */
  ghost function SecondsOf<V>(m: map<(int, int), V>, a: int): (ids: seq<int>)
    ensures Increasing(ids)
    ensures forall b :: b in ids <==> (a, b) in m
  {
    Ascending(set k | k in m && k.0 == a :: k.1)
  }

  /** The first key components paired with `b`, ascending (`WHERE second == b ORDER BY first`). */
  ghost function FirstsOf<V>(m: map<(int, int), V>, b: int): (ids: seq<int>)
    ensures Increasing(ids)
    ensures forall a :: a in ids <==> (a, b) in m
  {
    Ascending(set k | k in m && k.1 == b :: k.0)
  }

  /** The rows whose key starts with `a`, in ascending order of the key's second part. */
  ghost function RowsWithFirst<V>(m: map<(int, int), V>, a: int): (rows: seq<V>)
    ensures |rows| == |SecondsOf(m, a)|
    ensures forall n :: 0 <= n < |rows| ==> (a, SecondsOf(m, a)[n]) in m && rows[n] == m[(a, SecondsOf(m, a)[n])]
  {
    var ids := SecondsOf(m, a);
    seq(|ids|, n requires 0 <= n < |ids| => m[(a, ids[n])])
  }

  /** The rows whose key ends with `b`, in ascending order of the key's first part. */
  ghost function RowsWithSecond<V>(m: map<(int, int), V>, b: int): (rows: seq<V>)
    ensures |rows| == |FirstsOf(m, b)|
    ensures forall n :: 0 <= n < |rows| ==> (FirstsOf(m, b)[n], b) in m && rows[n] == m[(FirstsOf(m, b)[n], b)]
  {
    var ids := FirstsOf(m, b);
    seq(|ids|, n requires 0 <= n < |ids| => m[(ids[n], b)])
  }

  /** The ids of the rows that `keep` selects. */
  ghost function Matching<V>(m: map<int, V>, keep: V -> bool): set<int> {
    set id | id in m && keep(m[id])
  }

  /** The rows that `keep` selects, in ascending order of their ids (`WHERE … ORDER BY id`). */
  ghost function RowsWhere<V(!new)>(m: map<int, V>, keep: V -> bool): (rows: seq<V>)
    ensures |rows| == |Ascending(Matching(m, keep))|
    ensures forall n :: 0 <= n < |rows| ==>
              Ascending(Matching(m, keep))[n] in m && rows[n] == m[Ascending(Matching(m, keep))[n]]
    ensures forall v :: v in rows <==> v in m.Values && keep(v)
  {
    var ids := Ascending(Matching(m, keep));
    assert forall n :: 0 <= n < |ids| ==> ids[n] in Matching(m, keep);
    var rows := seq(|ids|, n requires 0 <= n < |ids| => m[ids[n]]);
    assert forall v :: v in m.Values && keep(v) ==> v in rows by {
      forall k | k in m && keep(m[k]) ensures m[k] in rows {
        assert k in Matching(m, keep);
        assert k in ids;
        var n :| 0 <= n < |ids| && ids[n] == k;
        assert rows[n] == m[k];
      }
    }
    rows
  }

  function MinNat(a: nat, b: nat): nat {
    if a <= b then a else b
  }

  /** `OFFSET skip LIMIT limit`. */
  function Page<T>(rows: seq<T>, skip: nat, limit: nat): (page: seq<T>)
    ensures skip >= |rows| ==> page == []
    ensures skip < |rows| ==> |page| == MinNat(limit, |rows| - skip)
    ensures forall i :: 0 <= i < |page| ==> skip + i < |rows| && page[i] == rows[skip + i]
  {
    if skip >= |rows| then []
    else if skip + limit >= |rows| then rows[skip..]
    else rows[skip..skip + limit]
  }

  /**
   * The ids of one page of a table ordered by id: `skip` ids skipped, at most
   * `limit` kept, and the id at position `i` has exactly `skip + i` smaller ids.
   */
  ghost function KeyPage<V>(m: map<int, V>, skip: nat, limit: nat): (ids: seq<int>)
    ensures skip >= |m| ==> ids == []
    ensures skip < |m| ==> |ids| == MinNat(limit, |m| - skip)
    ensures Increasing(ids)
    ensures forall i :: 0 <= i < |ids| ==> ids[i] in m && |Below(m.Keys, ids[i])| == skip + i
  {
    var all := Ascending(m.Keys);
    AscendingSize(m.Keys);
    assert |m.Keys| == |m|;
    var ids := Page(all, skip, limit);
    forall i | 0 <= i < |ids| ensures ids[i] in m && |Below(m.Keys, ids[i])| == skip + i {
      AscendingRank(m.Keys, skip + i);
    }
    ids
  }

  /** Reading two consecutive pages is reading one page as long as both. */
  lemma {:induction false} ConsecutivePages<T>(rows: seq<T>, skip: nat, first: nat, second: nat)
    ensures Page(rows, skip, first) + Page(rows, skip + first, second) == Page(rows, skip, first + second)
  {
    var a := Page(rows, skip, first);
    var b := Page(rows, skip + first, second);
    var c := Page(rows, skip, first + second);
    if skip >= |rows| {
    } else if skip + first >= |rows| {
      assert b == [];
      assert a == c;
    } else {
      assert |a| == first;
      assert |a + b| == |c|;
      forall i | 0 <= i < |c| ensures (a + b)[i] == c[i] {
        if i >= first {
          assert (a + b)[i] == b[i - first];
        }
      }
    }
  }

  /** The row after `setattr` of each dumped field, in order. */
  function Applied<R, F>(row: R, data: seq<F>, assign: (R, F) -> R): R
    decreases |data|
  {
    if data == [] then row
    else assign(Applied(row, data[..|data| - 1], assign), data[|data| - 1])
  }

  /** The `setattr` loop. */
  method ApplyPatch<R, F>(row: R, data: seq<F>, assign: (R, F) -> R) returns (r: R)
    ensures r == Applied(row, data, assign)
  {
    r := row;
    for i := 0 to |data|
      invariant r == Applied(row, data[..i], assign)
    {
      assert data[..i + 1][..i] == data[..i];
      r := assign(r, data[i]);
    }
    assert data[..|data|] == data;
  }

  lemma {:induction false} AppliedConcat<R, F>(row: R, a: seq<F>, b: seq<F>, assign: (R, F) -> R)
    ensures Applied(row, a + b, assign) == Applied(Applied(row, a, assign), b, assign)
    decreases |b|
  {
    if b == [] {
      assert a + b == a;
    } else {
      var init := b[..|b| - 1];
      assert (a + b)[..|a + b| - 1] == a + init;
      AppliedConcat(row, a, init, assign);
    }
  }

  /** Applying at most one more field after `data`. */
  lemma {:induction false} AppliedStep<R, F>(row: R, data: seq<F>, more: seq<F>, assign: (R, F) -> R)
    requires |more| <= 1
    ensures Applied(row, data + more, assign) ==
              if more == [] then Applied(row, data, assign) else assign(Applied(row, data, assign), more[0])
  {
    if more == [] {
      assert data + more == data;
    } else {
      assert (data + more)[..|data|] == data;
    }
  }

  lemma AppliedOne<R, F>(row: R, f: F, assign: (R, F) -> R)
    ensures Applied(row, [f], assign) == assign(row, f)
  {
    assert [f][..0] == [];
  }
}
