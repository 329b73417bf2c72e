/**
 The rows of the `TesResult` table (api/index.py) and the two orders the
 service reads them in: `order_by(timestamp.desc())` for the history view and
 `order_by(timestamp.asc())` for the export.
 */
module Records {
  import opened Text

  /** An instant; only its order matters here. Rendering it as text is the
      `fmt` parameter of the readers. */
  type Timestamp = int

  datatype Record = Record(
    id: nat,
    timestamp: Timestamp,
    name: Option<string>,
    note: Option<string>,
    totalScore: int,
    category: string)

  datatype Direction = Asc | Desc

  predicate InOrder(a: Record, b: Record, dir: Direction) {
    match dir
    case Asc => a.timestamp <= b.timestamp
    case Desc => a.timestamp >= b.timestamp
  }

  predicate Sorted(rs: seq<Record>, dir: Direction) {
    forall i, j | 0 <= i < j < |rs| :: InOrder(rs[i], rs[j], dir)
  }

  /** Puts `x` in front of the first row it may precede. */
  function InsertSorted(x: Record, rs: seq<Record>, dir: Direction): (r: seq<Record>)
    requires Sorted(rs, dir)
    ensures Sorted(r, dir)
    ensures multiset(r) == multiset(rs) + multiset{x}
  {
    if rs == [] || InOrder(x, rs[0], dir) then
      [x] + rs
    else
      var tail := InsertSorted(x, rs[1..], dir);
      assert rs == [rs[0]] + rs[1..];
      HeadPrecedes(rs[0], x, rs[1..], tail, dir);
      [rs[0]] + tail
  }

  /** A row that precedes both `x` and every row of `rest` still precedes
      every row of a list holding exactly `rest` and `x`. */
  lemma HeadPrecedes(h: Record, x: Record, rest: seq<Record>, tail: seq<Record>, dir: Direction)
    requires Sorted([h] + rest, dir) && InOrder(h, x, dir)
    requires Sorted(tail, dir) && multiset(tail) == multiset(rest) + multiset{x}
    ensures Sorted([h] + tail, dir)
  {
    forall k | 0 <= k < |tail| ensures InOrder(h, tail[k], dir) {
      assert tail[k] in multiset(tail);
      if tail[k] != x {
        assert tail[k] in multiset(rest);
        var j :| 0 <= j < |rest| && rest[j] == tail[k];
        assert ([h] + rest)[0] == h && ([h] + rest)[j + 1] == rest[j];
        assert InOrder(([h] + rest)[0], ([h] + rest)[j + 1], dir);
      }
    }
  }

  /** The rows of a query ordered by timestamp. Rows with equal timestamps
      keep their table order. */
  function OrderBy(rs: seq<Record>, dir: Direction): (r: seq<Record>)
    ensures Sorted(r, dir)
    ensures multiset(r) == multiset(rs)
    ensures |r| == |rs|
  {
    if rs == [] then []
    else
      assert rs == [rs[0]] + rs[1..];
      InsertSorted(rs[0], OrderBy(rs[1..], dir), dir)
  }

  /** Rows that are already in order (a clock that never goes backwards
      between inserts) come back in table order. */
  lemma {:induction false} OrderByKeepsSorted(rs: seq<Record>, dir: Direction)
    requires Sorted(rs, dir)
    ensures OrderBy(rs, dir) == rs
  {
    if rs != [] {
      OrderByKeepsSorted(rs[1..], dir);
      assert rs == [rs[0]] + rs[1..];
    }
  }

  /** A row whose timestamp is later than every other row's comes first when
      the rows are read newest first. */
  lemma {:induction false} NewestFirst(rs: seq<Record>, r: Record)
    requires forall i | 0 <= i < |rs| :: rs[i].timestamp < r.timestamp
    ensures OrderBy(rs + [r], Desc)[0] == r
  {
    var all := rs + [r];
    if rs == [] {
      assert all == [r];
    } else {
      assert all[1..] == rs[1..] + [r];
      NewestFirst(rs[1..], r);
    }
  }
}
