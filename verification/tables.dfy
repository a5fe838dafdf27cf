/** One SQLite table declared `INTEGER PRIMARY KEY AUTOINCREMENT`: rows keyed
    by rowid, plus the table's entry in `sqlite_sequence`, the largest rowid
    ever handed out. */
module Tables {
  import opened Wrappers

  /** The largest rowid SQLite can store (a signed 64-bit integer). */
  const MaxRowId: nat := 0x7FFF_FFFF_FFFF_FFFF

  /** The Python ints the sqlite3 module can bind as an SQL parameter; any
      other raises OverflowError before the statement runs. */
  predicate IsSqliteInteger(n: int) {
    -0x8000_0000_0000_0000 <= n <= MaxRowId
  }

  predicate Increasing(s: seq<int>) {
    forall i, j :: 0 <= i < j < |s| ==> s[i] < s[j]
  }

  /** The last element of a nonempty ascending list is its largest, and
      the rest are exactly the members below it. */
  lemma LastIsLargest(a: seq<int>)
    requires Increasing(a) && |a| > 0
    ensures forall k :: k in a ==> k <= a[|a| - 1]
    ensures forall k :: k in a[..|a| - 1] <==> k in a && k < a[|a| - 1]
  {
    var n := |a|;
    forall k | k in a ensures k <= a[n - 1] {
      var i :| 0 <= i < n && a[i] == k;
    }
    forall k | k in a && k < a[n - 1] ensures k in a[..n - 1] {
      var i :| 0 <= i < n && a[i] == k;
      assert i < n - 1 && a[..n - 1][i] == k;
    }
  }

  lemma HeadIsMember(s: seq<int>)
    requires |s| > 0
    ensures s[0] in s
  {
  }

  /** Two ascending id lists with the same members are the same list, so a
      listing is fixed by which ids it shows. */
  lemma {:induction false} IncreasingUnique(a: seq<int>, b: seq<int>)
    requires Increasing(a) && Increasing(b)
    requires forall k :: k in a <==> k in b
    ensures a == b
  {
    if |a| > 0 {
      assert a[|a| - 1] in a;
      assert |b| > 0;
      assert b[|b| - 1] in b;
      LastIsLargest(a);
      LastIsLargest(b);
      var x, y := a[|a| - 1], b[|b| - 1];
      assert x == y;
      var a', b' := a[..|a| - 1], b[..|b| - 1];
      forall k ensures k in a' <==> k in b' {
        assert k in a' <==> k in a && k < x;
        assert k in b' <==> k in b && k < y;
      }
      IncreasingUnique(a', b');
      assert a == a' + [x] && b == b' + [y];
    } else if |b| > 0 {
      HeadIsMember(b);
      assert false;
    }
  }

  /** The ids in `1..n` whose row is kept by `keep`, in ascending order:
      the order of a full table scan by rowid. */
  function IdsWhere<T>(rows: map<int, T>, n: nat, keep: T -> bool): (ids: seq<int>)
    ensures Increasing(ids)
    ensures forall k :: k in ids <==> k in rows && 1 <= k <= n && keep(rows[k])
  {
    if n == 0 then []
    else
      var before := IdsWhere(rows, n - 1, keep);
      assert forall i :: 0 <= i < |before| ==> before[i] in before;
      assert forall k :: k in before ==> k <= n - 1;
      before + (if n in rows && keep(rows[n]) then [n] else [])
  }

  /** The rows with the given ids, in that order: the rows a SELECT yields. */
  function Select<T>(rows: map<int, T>, ids: seq<int>): (r: seq<T>)
    requires forall i :: 0 <= i < |ids| ==> ids[i] in rows
    ensures |r| == |ids|
    ensures forall i :: 0 <= i < |r| ==> r[i] == rows[ids[i]]
  {
    seq(|ids|, i requires 0 <= i < |ids| => rows[ids[i]])
  }

  class Table<T> {
    var rows: map<int, T>
    /** The table's `sqlite_sequence` value. */
    var last: nat
    /** Every rowid this table has ever handed out. */
    ghost var issued: set<int>

    ghost predicate Valid()
      reads this
    {
      && rows.Keys <= issued
      && (forall k :: k in issued ==> 1 <= k <= last)
      && last <= MaxRowId
    }

    /** A table just created: no rows and no rowid handed out yet. */
    ghost predicate Fresh()
      reads this
    {
      rows == map[] && last == 0 && issued == {}
    }

    constructor ()
      ensures Valid() && Fresh()
    {
      rows, last, issued := map[], 0, {};
    }

    /** All rowids present, ascending. */
    function Ids(): (ids: seq<int>)
      reads this
      requires Valid()
      ensures Increasing(ids)
      ensures forall k :: k in ids <==> k in rows
    {
      IdsWhere(rows, last, (_: T) => true)
    }

    /** A table holding one row lists just that row's id. */
    lemma IdsOfOne(k: int)
      requires Valid() && rows.Keys == {k}
      ensures Ids() == [k]
    {
      IncreasingUnique(Ids(), [k]);
    }

    /** `INSERT`: the new row gets the rowid after the largest ever used;
        once that is `MaxRowId` the insert fails with SQLITE_FULL
        (`None`) and nothing changes. */
    method Insert(row: T) returns (id: Option<int>)
      requires Valid()
      modifies this
      ensures Valid()
      ensures old(last) == MaxRowId ==> id == None && unchanged(this)
      ensures old(last) < MaxRowId ==>
        && id == Some(old(last) + 1)
        && id.value !in old(issued)
        && rows == old(rows)[id.value := row]
        && issued == old(issued) + {id.value}
        && last == id.value
    {
      if last == MaxRowId {
        id := None;
      } else {
        last := last + 1;
        rows := rows[last := row];
        issued := issued + {last};
        id := Some(last);
      }
    }

    /** `UPDATE … WHERE id = ?`: `assign`, the SET clause, gives the new row from the old one;
        `count` is the cursor's rowcount. */
    method Update(id: int, assign: T -> T) returns (count: nat)
      requires Valid()
      modifies this`rows
      ensures Valid()
      ensures count == (if id in old(rows) then 1 else 0)
      ensures rows == if id in old(rows) then old(rows)[id := assign(old(rows)[id])] else old(rows)
    {
      if id in rows {
        rows := rows[id := assign(rows[id])];
        count := 1;
      } else {
        count := 0;
      }
    }

    /** `DELETE … WHERE id = ?`; `count` is the cursor's rowcount. The rowid
        stays issued, so it is never handed out again. */
    method Delete(id: int) returns (count: nat)
      requires Valid()
      modifies this`rows
      ensures Valid()
      ensures count == (if id in old(rows) then 1 else 0)
      ensures rows == old(rows) - {id}
    {
      count := if id in rows then 1 else 0;
      rows := rows - {id};
    }
  }
}
