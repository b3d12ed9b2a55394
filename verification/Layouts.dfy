/** The bytes of a record (src/record/Layout.cpp, src/record/RecordPage.cpp): a flag, then the fields in
    schema order. */
module Layouts {
  import opened Constants
  import opened Pages
  import opened Schemas

  function LengthInBytes(s: Schema, f: string): (n: nat)
    requires Names(s, f)
    ensures n >= 4
  {
    match TypeOf(s, f)
    case INTEGER => 4
    case BOOLEAN => 4
    case VARCHAR(length) => MaxLength(length)
  }

  /** Where the k-th field starts; the flag comes first. */
  function Start(s: Schema, k: nat): (n: nat)
    requires k <= |s|
    ensures n >= 4
  {
    if k == 0 then 4 else Start(s, k - 1) + LengthInBytes(s, s[k - 1].0)
  }

  datatype Layout = Layout(schema: Schema, offsets: map<string, int>, slotSize: int)

  ghost predicate IsLayout(l: Layout) {
    && l.slotSize == Start(l.schema, |l.schema|)
    && (forall f :: f in l.offsets <==> Names(l.schema, f))
    && forall f :: f in l.offsets ==> l.offsets[f] == Start(l.schema, IndexOf(l.schema, f))
  }

  /** One more field. */
  lemma {:induction false} IndexStep(s: Schema, i: nat, f: string)
    requires i < |s|
    ensures Names(s[..i + 1], f) <==> s[i].0 == f || Names(s[..i], f)
    ensures s[i].0 == f ==> IndexOf(s[..i + 1], f) == i
    ensures s[i].0 != f && Names(s[..i], f) ==> IndexOf(s[..i + 1], f) == IndexOf(s[..i], f)
  {
    assert s[..i + 1][..i] == s[..i];
    assert forall k :: 0 <= k < i ==> s[..i + 1][k] == s[..i][k];
    assert s[..i + 1][i] == s[i];
  }

  /** The offsets after the first i fields. */
  ghost predicate OffsetsOf(s: Schema, i: nat, offsets: map<string, int>)
    requires i <= |s|
  {
    && (forall f :: f in offsets <==> Names(s[..i], f))
    && forall f :: f in offsets ==> Names(s[..i], f) && offsets[f] == Start(s, IndexOf(s[..i], f))
  }

  lemma {:induction false} OffsetsStep(s: Schema, i: nat, offsets: map<string, int>)
    requires i < |s| && OffsetsOf(s, i, offsets)
    ensures OffsetsOf(s, i + 1, offsets[s[i].0 := Start(s, i)])
  {
    hide Start, IndexOf, Names;
    var more := offsets[s[i].0 := Start(s, i)];
    forall f ensures f in more <==> Names(s[..i + 1], f) {
      IndexStep(s, i, f);
    }
    forall f | f in more ensures more[f] == Start(s, IndexOf(s[..i + 1], f)) {
      IndexStep(s, i, f);
    }
  }

  /** The layout constructor. */
  method NewLayout(schema: Schema) returns (l: Layout)
    ensures l.schema == schema && IsLayout(l)
  {
    hide OffsetsOf, IndexOf, LengthInBytes;
    var offsets: map<string, int> := map[];
    var pos: int := 4;
    var i := 0;
    NoOffsets(schema);
    while i < |schema|
      invariant 0 <= i <= |schema| && pos == Start(schema, i)
      invariant OffsetsOf(schema, i, offsets)
    {
      var f := schema[i].0;
      OffsetsStep(schema, i, offsets);
      offsets := offsets[f := pos];
      pos := pos + LengthInBytes(schema, f);
      i := i + 1;
    }
    assert schema[..i] == schema;
    l := Layout(schema, offsets, pos);
    AllOffsets(schema, offsets);
  }

  lemma {:induction false} NoOffsets(s: Schema)
    ensures OffsetsOf(s, 0, map[])
  {
  }

  lemma {:induction false} AllOffsets(s: Schema, offsets: map<string, int>)
    requires OffsetsOf(s, |s|, offsets)
    ensures IsLayout(Layout(s, offsets, Start(s, |s|)))
  {
    assert s[..|s|] == s;
  }

  lemma {:induction false} StartsGrow(s: Schema, i: nat, j: nat)
    requires i < j <= |s|
    ensures Start(s, i) + LengthInBytes(s, s[i].0) <= Start(s, j)
    decreases j - i
  {
    if j > i + 1 {
      StartsGrow(s, i, j - 1);
    }
  }

  /** No byte of a slot is left over: it is one of the flag's four, or of one of the fields. */
  lemma {:induction false} NoGaps(s: Schema, k: nat, at: nat) returns (i: nat)
    requires k <= |s| && 4 <= at < Start(s, k)
    ensures i < k && Start(s, i) <= at < Start(s, i) + LengthInBytes(s, s[i].0)
  {
    if at >= Start(s, k - 1) {
      i := k - 1;
    } else {
      i := NoGaps(s, k - 1, at);
    }
  }

  /** A value fits a column exactly when its bytes, the length of a string included, fit the field's. */
  lemma {:induction false} ColumnRoom(s: Schema, f: string, v: Constant)
    requires Names(s, f) && (v.StrVal? <==> TypeOf(s, f).VARCHAR?)
    ensures FitsColumn(v, TypeOf(s, f)) <==> (if v.StrVal? then 4 + |v.s| else 4) <= LengthInBytes(s, f)
  {
  }

  /** A field lies between the flag and the end of the slot. */
  lemma {:induction false} FieldInSlot(l: Layout, f: string)
    requires IsLayout(l) && f in l.offsets
    ensures 4 <= l.offsets[f] && l.offsets[f] + LengthInBytes(l.schema, f) <= l.slotSize
  {
    StartsGrow(l.schema, IndexOf(l.schema, f), |l.schema|);
  }

  /** Two fields do not overlap. */
  lemma {:induction false} FieldsApart(l: Layout, f: string, g: string)
    requires IsLayout(l) && f in l.offsets && g in l.offsets && f != g
    ensures l.offsets[f] + LengthInBytes(l.schema, f) <= l.offsets[g] || l.offsets[g] + LengthInBytes(l.schema, g) <= l.offsets[f]
  {
    hide LengthInBytes, Start;
    var i, j := IndexOf(l.schema, f), IndexOf(l.schema, g);
    if i < j {
      StartsGrow(l.schema, i, j);
    } else {
      StartsGrow(l.schema, j, i);
    }
  }

  /** RecordPage::offset. */
  function SlotAt(l: Layout, slot: int): int {
    slot * l.slotSize
  }

  predicate IsValidSlot(l: Layout, slot: int, blockSize: int) {
    SlotAt(l, slot + 1) <= blockSize
  }

  function FieldAt(l: Layout, slot: int, f: string): int
    requires f in l.offsets
  {
    SlotAt(l, slot) + l.offsets[f]
  }

  /** The valid slots of a block are those below blockSize / slotSize. */
  lemma ValidSlots(l: Layout, slot: int, blockSize: int)
    requires l.slotSize >= 4 && blockSize >= 0
    ensures IsValidSlot(l, slot, blockSize) <==> slot < blockSize / l.slotSize
  {
    var n := blockSize / l.slotSize;
    assert n * l.slotSize <= blockSize < (n + 1) * l.slotSize by {
      assert blockSize == n * l.slotSize + blockSize % l.slotSize;
      assert (n + 1) * l.slotSize == n * l.slotSize + l.slotSize;
    }
    if slot + 1 <= n {
      Monotone(slot + 1, n, l.slotSize);
    } else {
      Monotone(n + 1, slot + 1, l.slotSize);
    }
  }

  lemma Monotone(a: int, b: int, c: int)
    requires a <= b && c >= 0
    ensures a * c <= b * c
  {
    assert (b - a) * c >= 0;
    assert b * c == a * c + (b - a) * c;
  }

  lemma SlotsApart(l: Layout, s: int, t: int)
    requires l.slotSize >= 4 && s < t
    ensures SlotAt(l, s) + l.slotSize <= SlotAt(l, t)
  {
    Monotone(s + 1, t, l.slotSize);
    assert (s + 1) * l.slotSize == s * l.slotSize + l.slotSize;
  }

  /** A part of a slot: its flag or one of its fields, as bytes from the start of the slot. */
  datatype Part = Flag | FieldPart(name: string)

  predicate HasPart(l: Layout, p: Part) {
    p.FieldPart? ==> p.name in l.offsets && Names(l.schema, p.name)
  }

  function PartStart(l: Layout, slot: int, p: Part): int
    requires HasPart(l, p)
  {
    if p.Flag? then SlotAt(l, slot) else FieldAt(l, slot, p.name)
  }

  function PartLength(l: Layout, p: Part): nat
    requires HasPart(l, p)
  {
    if p.Flag? then 4 else LengthInBytes(l.schema, p.name)
  }

  /** Different parts, of one slot or of two, do not overlap. */
  lemma {:induction false} PartsApart(l: Layout, s: int, p: Part, t: int, q: Part)
    requires IsLayout(l) && HasPart(l, p) && HasPart(l, q) && (s != t || p != q)
    ensures PartStart(l, s, p) + PartLength(l, p) <= PartStart(l, t, q) || PartStart(l, t, q) + PartLength(l, q) <= PartStart(l, s, p)
  {
    PartInSlot(l, s, p);
    PartInSlot(l, t, q);
    if s < t {
      SlotsApart(l, s, t);
    } else if t < s {
      SlotsApart(l, t, s);
    } else if p.FieldPart? && q.FieldPart? {
      FieldsApart(l, p.name, q.name);
    }
  }

  lemma {:induction false} PartInSlot(l: Layout, s: int, p: Part)
    requires IsLayout(l) && HasPart(l, p)
    ensures SlotAt(l, s) <= PartStart(l, s, p) && PartStart(l, s, p) + PartLength(l, p) <= SlotAt(l, s) + l.slotSize
    ensures p.FieldPart? ==> SlotAt(l, s) + 4 <= PartStart(l, s, p)
  {
    if p.FieldPart? {
      FieldInSlot(l, p.name);
    }
  }

  /** A valid slot lies in the block. */
  lemma {:induction false} PartInBlock(l: Layout, s: int, p: Part, blockSize: int)
    requires IsLayout(l) && HasPart(l, p) && 0 <= s && IsValidSlot(l, s, blockSize)
    ensures 0 <= PartStart(l, s, p) && PartStart(l, s, p) + PartLength(l, p) <= blockSize
  {
    PartInSlot(l, s, p);
    Monotone(0, s, l.slotSize);
    assert (s + 1) * l.slotSize == s * l.slotSize + l.slotSize;
  }

  /** The bytes of a part. */
  function PartBytes(page: Bytes, l: Layout, s: int, p: Part): Bytes
    requires IsLayout(l) && HasPart(l, p) && 0 <= s && IsValidSlot(l, s, |page|)
  {
    PartInBlock(l, s, p, |page|);
    page[PartStart(l, s, p)..PartStart(l, s, p) + PartLength(l, p)]
  }

  lemma PutIntSlice(page: Bytes, at: int, n: int32, i: int, j: int)
    requires Fits(page, at) && 0 <= i <= j <= |page| && (at + 4 <= i || j <= at)
    ensures PutInt(page, at, n)[i..j] == page[i..j]
  {
    hide IntBytes;
    forall k | i <= k < j ensures PutInt(page, at, n)[k] == page[k] {
    }
  }

  lemma PutBytesSlice(page: Bytes, at: int, b: Bytes, i: int, j: int)
    requires FitsBytes(page, at, b) && 0 <= i <= j <= |page| && (at + 4 + |b| <= i || j <= at)
    ensures PutBytes(page, at, b)[i..j] == page[i..j]
  {
    hide IntBytes;
    forall k | i <= k < j ensures PutBytes(page, at, b)[k] == page[k] {
    }
  }

  /** Writing an integer field or a flag changes no other field, slot or flag. */
  lemma {:induction false} SetIntLocal(page: Bytes, l: Layout, s: int, p: Part, n: int32, t: int, q: Part)
    requires IsLayout(l) && HasPart(l, p) && HasPart(l, q) && (s != t || p != q)
    requires 0 <= s && IsValidSlot(l, s, |page|) && 0 <= t && IsValidSlot(l, t, |page|)
    ensures Fits(page, PartStart(l, s, p))
    ensures PartBytes(PutInt(page, PartStart(l, s, p), n), l, t, q) == PartBytes(page, l, t, q)
    ensures GetInt(PutInt(page, PartStart(l, s, p), n), PartStart(l, s, p)) == n
  {
    hide IntBytes, BytesInt, PutInt, GetInt, PartStart, IsLayout, IsValidSlot;
    PartInBlock(l, s, p, |page|);
    PartInBlock(l, t, q, |page|);
    PartsApart(l, s, p, t, q);
    PutIntSlice(page, PartStart(l, s, p), n, PartStart(l, t, q), PartStart(l, t, q) + PartLength(l, q));
    GetPut(page, PartStart(l, s, p), n);
  }

  /** Nor does writing a string that is no longer than declared. */
  lemma {:induction false} SetStringLocal(page: Bytes, l: Layout, s: int, f: string, b: Bytes, t: int, q: Part)
    requires IsLayout(l) && f in l.offsets && HasPart(l, q) && (s != t || q != FieldPart(f))
    requires var ft := l.schema[IndexOf(l.schema, f)].1; ft.VARCHAR? && |b| <= ft.length
    requires 0 <= s && IsValidSlot(l, s, |page|) && 0 <= t && IsValidSlot(l, t, |page|) && |page| < 0x8000_0000
    ensures FitsBytes(page, FieldAt(l, s, f), b)
    ensures var w := PutBytes(page, FieldAt(l, s, f), b);
      && PartBytes(w, l, t, q) == PartBytes(page, l, t, q)
      && HasBytes(w, FieldAt(l, s, f)) && GetBytes(w, FieldAt(l, s, f)) == b
  {
    var p := FieldPart(f);
    assert HasPart(l, p) && PartStart(l, s, p) == FieldAt(l, s, f) && PartLength(l, p) >= 4 + |b|;
    StringLocal(page, l, s, p, b, t, q);
  }

  lemma {:induction false} StringLocal(page: Bytes, l: Layout, s: int, p: Part, b: Bytes, t: int, q: Part)
    requires IsLayout(l) && HasPart(l, p) && HasPart(l, q) && (s != t || p != q) && PartLength(l, p) >= 4 + |b|
    requires 0 <= s && IsValidSlot(l, s, |page|) && 0 <= t && IsValidSlot(l, t, |page|) && |page| < 0x8000_0000
    ensures FitsBytes(page, PartStart(l, s, p), b)
    ensures var w := PutBytes(page, PartStart(l, s, p), b);
      && PartBytes(w, l, t, q) == PartBytes(page, l, t, q)
      && HasBytes(w, PartStart(l, s, p)) && GetBytes(w, PartStart(l, s, p)) == b
  {
    hide IntBytes, BytesInt, PutBytes, GetInt, PartStart, PartLength, IsLayout, IsValidSlot;
    PartInBlock(l, s, p, |page|);
    PartInBlock(l, t, q, |page|);
    PartsApart(l, s, p, t, q);
    PutBytesSlice(page, PartStart(l, s, p), b, PartStart(l, t, q), PartStart(l, t, q) + PartLength(l, q));
    GetPutBytes(page, PartStart(l, s, p), b);
  }
}
