/** Schemas (src/record/Schema.cpp) and what it takes to store a row under one (src/record/TableScan.cpp). */
module Schemas {
  import opened Options
  import opened Constants
  import opened Rows

  datatype FieldType = INTEGER | BOOLEAN | VARCHAR(length: nat)

  /** The fields in the order they were added. */
  type Schema = seq<(string, FieldType)>

  predicate Names(s: Schema, f: string) {
    exists i :: 0 <= i < |s| && s[i].0 == f
  }

  /** The last field of a name counts. */
  function IndexOf(s: Schema, f: string): (i: nat)
    requires Names(s, f)
    ensures i < |s| && s[i].0 == f && forall k :: i < k < |s| ==> s[k].0 != f
  {
    var n := |s| - 1;
    if s[n].0 == f then n else IndexOf(s[..n], f)
  }

  function TypeOf(s: Schema, f: string): FieldType
    requires Names(s, f)
  {
    s[IndexOf(s, f)].1
  }

  function NameSet(s: Schema): (names: set<string>)
    ensures forall f :: f in names <==> Names(s, f)
  {
    set i | 0 <= i < |s| :: s[i].0
  }

  predicate AllNamed(fields: seq<string>, s: Schema) {
    forall i :: 0 <= i < |fields| ==> Names(s, fields[i])
  }

  function FieldNames(s: Schema): (fields: seq<string>)
    ensures |fields| == |s| && forall i :: 0 <= i < |s| ==> fields[i] == s[i].0
  {
    seq(|s|, i requires 0 <= i < |s| => s[i].0)
  }

  /** What adding fields of another schema to an empty one gives. */
  function Sub(fields: seq<string>, s: Schema): (t: Schema)
    requires AllNamed(fields, s)
    ensures |t| == |fields| && forall i :: 0 <= i < |t| ==> t[i] == (fields[i], TypeOf(s, fields[i]))
  {
    seq(|fields|, i requires 0 <= i < |fields| => (fields[i], TypeOf(s, fields[i])))
  }

  /** addAll on an empty schema. */
  function Whole(s: Schema): Schema {
    Sub(FieldNames(s), s)
  }

  lemma {:induction false} SubTypes(fields: seq<string>, s: Schema, f: string)
    requires AllNamed(fields, s)
    ensures Names(Sub(fields, s), f) <==> f in fields
    ensures f in fields ==> TypeOf(Sub(fields, s), f) == TypeOf(s, f)
  {
    if f in fields {
      var i :| 0 <= i < |fields| && fields[i] == f;
      assert Sub(fields, s)[i].0 == f;
    }
  }

  lemma {:induction false} SubNames(fields: seq<string>, s: Schema)
    requires AllNamed(fields, s)
    ensures NameSet(Sub(fields, s)) == set f | f in fields
  {
    forall f ensures Names(Sub(fields, s), f) <==> f in fields {
      SubTypes(fields, s, f);
    }
  }

  /** Of two schemas put together the second one's types count. */
  lemma {:induction false} BothTypes(s: Schema, t: Schema, f: string)
    ensures Names(s + t, f) <==> Names(s, f) || Names(t, f)
    ensures Names(t, f) ==> TypeOf(s + t, f) == TypeOf(t, f)
    ensures Names(s, f) && !Names(t, f) ==> TypeOf(s + t, f) == TypeOf(s, f)
  {
    forall i | 0 <= i < |s| ensures (s + t)[i] == s[i] {
    }
    forall i | 0 <= i < |t| ensures (s + t)[|s| + i] == t[i] {
    }
    if Names(t, f) {
      var i := IndexOf(t, f);
      assert (s + t)[|s| + i].0 == f;
    } else if Names(s, f) {
      assert (s + t)[IndexOf(s, f)].0 == f;
    }
  }

  lemma {:induction false} BothNames(s: Schema, t: Schema)
    ensures NameSet(s + t) == NameSet(s) + NameSet(t)
  {
    hide TypeOf;
    forall f ensures Names(s + t, f) <==> Names(s, f) || Names(t, f) {
      BothTypes(s, t, f);
    }
  }

  // ---------------------------------------------------------------- storing

  /** The value has the kind of the column, and a string its length at most. Storing a value of the other kind
      goes through a null pointer; a longer string runs into what comes after it. */
  predicate FitsColumn(v: Constant, t: FieldType) {
    if t.VARCHAR? then v.StrVal? && |v.s| <= t.length else v.IntVal?
  }

  /** The row has a fitting value for each field. */
  predicate Storable(s: Schema, r: Row) {
    forall f :: f in NameSet(s) ==> f in r && FitsColumn(r[f], TypeOf(s, f))
  }

  /** The copying loop of a temporary table; there is no result when getting or setting a value fails. */
  method CopyRow(s: Schema, r: Row) returns (copy: Option<Row>)
    requires r.Keys <= NameSet(s)
    ensures copy.Some? <==> Storable(s, r)
    ensures copy.Some? ==> copy.value == r
  {
    var out: Row := map[];
    for i := 0 to |s|
      invariant forall k :: 0 <= k < i ==> s[k].0 in r && s[k].0 in out && FitsColumn(r[s[k].0], TypeOf(s, s[k].0))
      invariant forall f :: f in out ==> f in r && out[f] == r[f]
    {
      var f := s[i].0;
      if f !in r || !FitsColumn(r[f], TypeOf(s, f)) {
        return None;
      }
      out := out[f := r[f]];
    }
    assert out == r;
    copy := Some(out);
  }
}
