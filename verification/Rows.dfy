/** Rows, cursors over them and the record comparator (src/scan, src/materialize/RecordComparator.cpp).

    Values are compared by rank: Constants.RankOrder shows that on the constants of one column this is the
    source's order and equality. */
module Rows {
  import opened Options
  import opened Constants

  type Row = map<string, Constant>

  /** The value of a field. Asking for a field the row does not have throws in the source. The methods that read
      rows have no result then (Option), and what they promise otherwise does not depend on the constant here. */
  function Val(r: Row, f: string): Constant {
    if f in r then r[f] else IntVal(0)
  }

  /** The value as something to compare. */
  function At(r: Row, f: string): real {
    Rank(Val(r, f))
  }

  /** Lexicographic comparison on the fields in fields: negative, zero or positive. */
  function Compare(fields: seq<string>, r: Row, s: Row): (c: int)
    ensures -1 <= c <= 1
  {
    if fields == [] then 0
    else if At(r, fields[0]) < At(s, fields[0]) then -1
    else if At(r, fields[0]) > At(s, fields[0]) then 1
    else Compare(fields[1..], r, s)
  }

  predicate SameGroup(fields: seq<string>, r: Row, s: Row) {
    forall f :: f in fields ==> At(r, f) == At(s, f)
  }

  /** The comparison finds what it reads: up to the first field that decides, both rows have the field, with
      values of one kind. */
  predicate CanCompare(fields: seq<string>, r: Row, s: Row) {
    fields == [] || (fields[0] in r && fields[0] in s && SameKind(r[fields[0]], s[fields[0]])
                     && (At(r, fields[0]) == At(s, fields[0]) ==> CanCompare(fields[1..], r, s)))
  }

  /** compare: the loop over the sort fields. */
  method CompareRows(fields: seq<string>, r: Row, s: Row) returns (c: Option<int>)
    ensures c.Some? <==> CanCompare(fields, r, s)
    ensures c.Some? ==> c.value == Compare(fields, r, s)
  {
    var i := 0;
    assert fields[0..] == fields;
    while i < |fields|
      invariant 0 <= i <= |fields| && Compare(fields, r, s) == Compare(fields[i..], r, s)
      invariant CanCompare(fields, r, s) <==> CanCompare(fields[i..], r, s)
    {
      if fields[i] !in r || fields[i] !in s || !SameKind(r[fields[i]], s[fields[i]]) {
        return None;
      }
      if At(r, fields[i]) < At(s, fields[i]) {
        return Some(-1);
      }
      if At(r, fields[i]) > At(s, fields[i]) {
        return Some(1);
      }
      assert fields[i..][1..] == fields[i + 1..];
      i := i + 1;
    }
    c := Some(0);
  }

  /** The k-th field is the first on which the rows differ, and r has the smaller value there. */
  predicate SmallerAt(fields: seq<string>, r: Row, s: Row, k: nat)
    requires k < |fields|
  {
    At(r, fields[k]) < At(s, fields[k]) && forall j :: 0 <= j < k ==> At(r, fields[j]) == At(s, fields[j])
  }

  predicate Before(fields: seq<string>, r: Row, s: Row) {
    exists k :: 0 <= k < |fields| && SmallerAt(fields, r, s, k)
  }

  lemma {:induction false} SmallerLater(fields: seq<string>, r: Row, s: Row, k: nat)
    requires k + 1 < |fields| && At(r, fields[0]) == At(s, fields[0])
    ensures SmallerAt(fields, r, s, k + 1) <==> SmallerAt(fields[1..], r, s, k)
  {
    if SmallerAt(fields, r, s, k + 1) {
      assert forall j :: 0 <= j < k ==> fields[1..][j] == fields[j + 1];
    }
    if SmallerAt(fields[1..], r, s, k) {
      assert forall j :: 0 < j < k + 1 ==> fields[j] == fields[1..][j - 1];
    }
  }

  lemma {:induction false} NegativeBefore(fields: seq<string>, r: Row, s: Row)
    ensures Compare(fields, r, s) < 0 <==> Before(fields, r, s)
  {
    hide SmallerAt, At;
    if fields != [] {
      NegativeBefore(fields[1..], r, s);
      if At(r, fields[0]) == At(s, fields[0]) {
        forall k | 0 <= k < |fields| - 1 ensures SmallerAt(fields, r, s, k + 1) <==> SmallerAt(fields[1..], r, s, k) {
          SmallerLater(fields, r, s, k);
        }
        FirstSame(fields, r, s);
        if k :| 0 <= k < |fields| && SmallerAt(fields, r, s, k) {
          assert SmallerAt(fields[1..], r, s, k - 1);
        }
        if k :| 0 <= k < |fields[1..]| && SmallerAt(fields[1..], r, s, k) {
          assert SmallerAt(fields, r, s, k + 1);
        }
      } else {
        FirstDiffers(fields, r, s);
      }
    }
  }

  lemma {:induction false} FirstSame(fields: seq<string>, r: Row, s: Row)
    requires fields != [] && At(r, fields[0]) == At(s, fields[0])
    ensures !SmallerAt(fields, r, s, 0)
  {
  }

  lemma {:induction false} FirstDiffers(fields: seq<string>, r: Row, s: Row)
    requires fields != [] && At(r, fields[0]) != At(s, fields[0])
    ensures SmallerAt(fields, r, s, 0) <==> At(r, fields[0]) < At(s, fields[0])
    ensures forall k :: 0 < k < |fields| ==> !SmallerAt(fields, r, s, k)
  {
  }

  /** Negative means that the first row has the smaller value on the first field on which they differ, positive that
      the second one does. */
  lemma {:induction false} CompareBefore(fields: seq<string>, r: Row, s: Row)
    ensures Compare(fields, r, s) < 0 <==> Before(fields, r, s)
    ensures Compare(fields, r, s) > 0 <==> Before(fields, s, r)
  {
    CompareFlips(fields, r, s);
    NegativeBefore(fields, r, s);
    NegativeBefore(fields, s, r);
  }

  /** Comparing goes as far as the deciding field: before it the values are the same, in it they are of one kind, and
      the source's operator puts r's first. */
  lemma {:induction false} BeforeValues(fields: seq<string>, r: Row, s: Row, k: nat)
    requires CanCompare(fields, r, s) && k < |fields| && SmallerAt(fields, r, s, k)
    ensures forall j :: 0 <= j < k ==> fields[j] in r && fields[j] in s && r[fields[j]] == s[fields[j]]
    ensures var f := fields[k]; f in r && f in s && SameKind(r[f], s[f]) && Less(r[f], s[f])
    decreases k
  {
    hide Rank;
    var f := fields[0];
    RankOrder(r[f], s[f]);
    if k > 0 {
      assert At(r, f) == At(s, f);
      SmallerLater(fields, r, s, k - 1);
      BeforeValues(fields[1..], r, s, k - 1);
      assert forall j :: 0 < j < k ==> fields[j] == fields[1..][j - 1];
    }
  }

  lemma {:induction false} SameValues(fields: seq<string>, r: Row, s: Row)
    requires CanCompare(fields, r, s) && Compare(fields, r, s) == 0
    ensures forall j :: 0 <= j < |fields| ==> fields[j] in r && fields[j] in s && r[fields[j]] == s[fields[j]]
  {
    hide Rank;
    if fields != [] {
      RankOrder(r[fields[0]], s[fields[0]]);
      SameValues(fields[1..], r, s);
      assert forall j :: 0 < j < |fields| ==> fields[j] == fields[1..][j - 1];
    }
  }

  lemma {:induction false} CompareFlips(fields: seq<string>, r: Row, s: Row)
    ensures Compare(fields, s, r) == -Compare(fields, r, s)
  {
    if fields != [] {
      CompareFlips(fields[1..], r, s);
    }
  }

  lemma {:induction false} CompareTrans(fields: seq<string>, r: Row, s: Row, t: Row)
    requires Compare(fields, r, s) <= 0 && Compare(fields, s, t) <= 0
    ensures Compare(fields, r, t) <= 0
    ensures Compare(fields, r, s) < 0 || Compare(fields, s, t) < 0 ==> Compare(fields, r, t) < 0
  {
    if fields != [] && At(r, fields[0]) == At(s, fields[0]) == At(t, fields[0]) {
      CompareTrans(fields[1..], r, s, t);
    }
  }

  /** Two rows compare equal exactly when they agree on every field compared. */
  lemma {:induction false} CompareZero(fields: seq<string>, r: Row, s: Row)
    ensures Compare(fields, r, s) == 0 <==> SameGroup(fields, r, s)
  {
    if fields != [] {
      CompareZero(fields[1..], r, s);
      assert fields == [fields[0]] + fields[1..];
    }
  }

  ghost predicate Sorted(fields: seq<string>, rows: seq<Row>) {
    forall i, j :: 0 <= i < j < |rows| ==> Compare(fields, rows[i], rows[j]) <= 0
  }

  /** A scan of stored rows. Before the first row pos is -1. A scan of a table that has rows is not asked
      again once it has answered that there is no next one: the source's table scan would start over in the
      last block. */
  class Cursor {
    const rows: seq<Row>
    var pos: int

    ghost predicate Valid()
      reads this
    {
      -1 <= pos <= |rows|
    }

    /** The rows from the current one on. */
    ghost function Left(): seq<Row>
      requires Valid() && pos >= 0
      reads this
    {
      rows[pos..]
    }

    constructor (rows: seq<Row>)
      ensures Valid() && this.rows == rows && pos == -1
    {
      this.rows := rows;
      pos := -1;
    }

    method BeforeFirst()
      modifies this
      ensures Valid() && pos == -1
    {
      pos := -1;
    }

    method Next() returns (more: bool)
      requires Valid() && (pos < |rows| || rows == [])
      modifies this
      ensures Valid() && pos == (if old(pos) < |rows| then old(pos) + 1 else 0) && more == (pos < |rows|)
    {
      if pos < |rows| {
        pos := pos + 1;
      }
      more := pos < |rows|;
    }
  }
}
