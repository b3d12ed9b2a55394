/** The byte form of log records (src/tx/LogRecord). */
module LogRecords {
  import opened Options
  import opened Pages
  import opened RecoveryLog

  const CHECKPOINT := 0
  const START := 1
  const COMMIT := 2
  const ROLLBACK := 3
  const SETINT := 4

  predicate IsInt(n: int) {
    -0x8000_0000 <= n < 0x8000_0000
  }

  /** A file name of single-byte characters. */
  predicate IsName(s: string) {
    |s| < 0x8000_0000 - 64 && forall i :: 0 <= i < |s| ==> (s[i] as int) < 256
  }

  function NameBytes(s: string): (b: Bytes)
    requires IsName(s)
    ensures |b| == |s|
  {
    seq(|s|, i requires 0 <= i < |s| => s[i] as int)
  }

  function BytesName(b: Bytes): (s: string)
    ensures |s| == |b|
  {
    seq(|b|, i requires 0 <= i < |b| => (b[i] as int) as char)
  }

  lemma NameRoundTrip(s: string)
    requires IsName(s)
    ensures BytesName(NameBytes(s)) == s
  {
  }

  /** The record's fields fit the source's types. */
  predicate Encodable(r: Rec) {
    match r
    case Checkpoint => true
    case Start(t) => IsInt(t)
    case Commit(t) => IsInt(t)
    case Rollback(t) => IsInt(t)
    case SetInt(t, blk, offset, was) => IsInt(t) && IsName(blk.fileName) && IsInt(blk.number) && IsInt(offset)
  }

  function Encode(r: Rec): Bytes
    requires Encodable(r)
  {
    match r
    case Checkpoint => IntBytes(CHECKPOINT)
    case Start(t) => IntBytes(START) + IntBytes(t)
    case Commit(t) => IntBytes(COMMIT) + IntBytes(t)
    case Rollback(t) => IntBytes(ROLLBACK) + IntBytes(t)
    case SetInt(t, blk, offset, was) =>
      IntBytes(SETINT) + IntBytes(t) + IntBytes(|blk.fileName|) + NameBytes(blk.fileName)
      + IntBytes(blk.number) + IntBytes(offset) + IntBytes(was)
  }

  /** The decoding constructor of SetIntRecord: each field's place follows from the ones before it. */
  function DecodeSetInt(p: Bytes): Option<Rec> {
    var tpos := 4;
    var fpos := tpos + 4;
    if !HasBytes(p, fpos) || GetInt(p, tpos) < 0 then None
    else
      var fileName := BytesName(GetBytes(p, fpos));
      var bpos := fpos + MaxLength(|fileName|);
      var opos := bpos + 4;
      var vpos := opos + 4;
      if !Fits(p, vpos) then None
      else Some(SetInt(GetInt(p, tpos), BlockId(fileName, GetInt(p, bpos)), GetInt(p, opos), GetInt(p, vpos)))
  }

  /** createLogRecord. None stands for an unknown kind and for the reads outside the record at which the
      source exits. */
  function Decode(p: Bytes): Option<Rec> {
    if !Fits(p, 0) then None
    else
      var op := GetInt(p, 0);
      if op == CHECKPOINT then Some(Checkpoint)
      else if op == SETINT then DecodeSetInt(p)
      else if !Fits(p, 4) || GetInt(p, 4) < 0 then None
      else if op == START then Some(Start(GetInt(p, 4)))
      else if op == COMMIT then Some(Commit(GetInt(p, 4)))
      else if op == ROLLBACK then Some(Rollback(GetInt(p, 4)))
      else None
  }

  lemma IntAt(a: Bytes, n: int32, c: Bytes)
    ensures var p := a + IntBytes(n) + c; Fits(p, |a|) && GetInt(p, |a|) == n
  {
    var p := a + IntBytes(n) + c;
    assert p[|a|..|a| + 4] == IntBytes(n);
    IntRoundTrip(n);
  }

  lemma {:induction false} Slices(o: Bytes, t: Bytes, l: Bytes, name: Bytes, n: Bytes, f: Bytes, w: Bytes)
    requires |o| == |t| == |l| == |n| == |f| == |w| == 4
    ensures var e := o + t + l + name + n + f + w;
      var k := |name|;
      && |e| == 24 + k
      && e[0..4] == o && e[4..8] == t && e[8..12] == l && e[12..12 + k] == name
      && e[12 + k..16 + k] == n && e[16 + k..20 + k] == f && e[20 + k..24 + k] == w
  {
  }

  /** A record with these fields at these places is decoded to them. */
  lemma {:induction false} DecodeFields(p: Bytes, t: nat, s: string, number: int, offset: int, was: int)
    requires IsName(s) && |p| == 24 + |s|
    requires GetInt(p, 0) == SETINT && GetInt(p, 4) == t && GetInt(p, 8) == |s| && p[12..12 + |s|] == NameBytes(s)
    requires GetInt(p, 12 + |s|) == number && GetInt(p, 16 + |s|) == offset && GetInt(p, 20 + |s|) == was
    ensures Decode(p) == Some(SetInt(t, BlockId(s, number), offset, was))
  {
    NameRoundTrip(s);
  }

  lemma {:induction false} SetIntRoundTrip(r: Rec)
    requires r.SetInt? && Encodable(r)
    ensures Decode(Encode(r)) == Some(r)
  {
    var e := Encode(r);
    var name := NameBytes(r.blk.fileName);
    Slices(IntBytes(SETINT), IntBytes(r.tx), IntBytes(|name|), name, IntBytes(r.blk.number), IntBytes(r.offset), IntBytes(r.was));
    IntRoundTrip(SETINT);
    IntRoundTrip(r.tx);
    IntRoundTrip(|name|);
    IntRoundTrip(r.blk.number);
    IntRoundTrip(r.offset);
    IntRoundTrip(r.was);
    DecodeFields(e, r.tx, r.blk.fileName, r.blk.number, r.offset, r.was);
  }

  /** The bytes of a record: its kind and the number of its transaction, four bytes each, and for an update the length
      and the characters of the file name, the block number, the offset and the old value. */
  lemma {:induction false} RecordBytes(r: Rec)
    requires Encodable(r)
    ensures Fits(Encode(r), 0) && GetInt(Encode(r), 0) == (match r case Checkpoint => 0 case Start(_) => 1 case Commit(_) => 2 case Rollback(_) => 3 case SetInt(_, _, _, _) => 4)
    ensures |Encode(r)| == (match r case Checkpoint => 4 case SetInt(_, b, _, _) => 24 + |b.fileName| case _ => 8)
    ensures !r.Checkpoint? ==> GetInt(Encode(r), 4) == r.tx
    ensures r.SetInt? ==> var e, k := Encode(r), |r.blk.fileName|;
      && GetInt(e, 8) == k && (forall i :: 0 <= i < k ==> e[12 + i] as int == r.blk.fileName[i] as int)
      && GetInt(e, 12 + k) == r.blk.number && GetInt(e, 16 + k) == r.offset && GetInt(e, 20 + k) == r.was
  {
    hide IntBytes, GetInt;
    match r
    case Checkpoint => assert Encode(r) == [] + IntBytes(CHECKPOINT) + []; IntAt([], CHECKPOINT, []);
    case Start(t) => TxRoundTrip(START, t);
    case Commit(t) => TxRoundTrip(COMMIT, t);
    case Rollback(t) => TxRoundTrip(ROLLBACK, t);
    case SetInt(_, _, _, _) => UpdateBytes(r);
  }

  lemma {:induction false} UpdateBytes(r: Rec)
    requires r.SetInt? && Encodable(r)
    ensures var e, k := Encode(r), |r.blk.fileName|;
      && |e| == 24 + k && GetInt(e, 0) == 4 && GetInt(e, 4) == r.tx && GetInt(e, 8) == k
      && (forall i :: 0 <= i < k ==> e[12 + i] as int == r.blk.fileName[i] as int)
      && GetInt(e, 12 + k) == r.blk.number && GetInt(e, 16 + k) == r.offset && GetInt(e, 20 + k) == r.was
  {
    hide IntBytes, BytesInt;
    var e, k := Encode(r), |r.blk.fileName|;
    var name := NameBytes(r.blk.fileName);
    Slices(IntBytes(SETINT), IntBytes(r.tx), IntBytes(|name|), name, IntBytes(r.blk.number), IntBytes(r.offset), IntBytes(r.was));
    IntRoundTrip(SETINT);
    IntRoundTrip(r.tx);
    IntRoundTrip(|name|);
    IntRoundTrip(r.blk.number);
    IntRoundTrip(r.offset);
    IntRoundTrip(r.was);
    forall i | 0 <= i < k ensures e[12 + i] as int == r.blk.fileName[i] as int {
      assert e[12 + i] == e[12..12 + k][i];
    }
  }

  /** Every record is read back as it was written. */
  lemma {:induction false} RecordRoundTrip(r: Rec)
    requires Encodable(r)
    ensures Decode(Encode(r)) == Some(r)
  {
    match r
    case Checkpoint => assert Encode(r) == [] + IntBytes(CHECKPOINT) + []; IntAt([], CHECKPOINT, []);
    case Start(t) => TxRoundTrip(START, t);
    case Commit(t) => TxRoundTrip(COMMIT, t);
    case Rollback(t) => TxRoundTrip(ROLLBACK, t);
    case SetInt(_, _, _, _) => SetIntRoundTrip(r);
  }

  lemma {:induction false} TxRoundTrip(op: int32, t: int32)
    ensures var p := IntBytes(op) + IntBytes(t); GetInt(p, 0) == op && GetInt(p, 4) == t
  {
    var p := IntBytes(op) + IntBytes(t);
    assert p == [] + IntBytes(op) + IntBytes(t);
    IntAt([], op, IntBytes(t));
    assert p == IntBytes(op) + IntBytes(t) + [];
    IntAt(IntBytes(op), t, []);
  }

  lemma PutNext(p: Bytes, a: Bytes, n: int32)
    requires Fits(p, |a|) && p[..|a|] == a
    ensures PutInt(p, |a|, n)[..|a| + 4] == a + IntBytes(n)
  {
    hide IntBytes;
  }

  lemma PutNextBytes(p: Bytes, a: Bytes, b: Bytes)
    requires FitsBytes(p, |a|, b) && p[..|a|] == a
    ensures PutBytes(p, |a|, b)[..|a| + 4 + |b|] == a + IntBytes(|b|) + b
  {
    hide IntBytes;
  }

  /** The next integer after the bytes a. */
  method NextInt(page: PageBuffer, pos: int, n: int32, ghost a: Bytes) returns (ghost b: Bytes)
    requires |a| == pos && Fits(page.bb[..], pos) && page.bb[..pos] == a
    modifies page.bb
    ensures b == a + IntBytes(n) && page.bb[..pos + 4] == b
  {
    hide IntBytes, PutInt;
    b := a + IntBytes(n);
    ghost var p := page.bb[..];
    assert p[..pos] == a;
    PutNext(p, a, n);
    page.SetInt(pos, n);
    assert page.bb[..pos + 4] == page.bb[..][..pos + 4];
  }

  method NextBytes(page: PageBuffer, pos: int, c: Bytes, ghost a: Bytes) returns (ghost b: Bytes)
    requires |a| == pos && FitsBytes(page.bb[..], pos, c) && page.bb[..pos] == a
    modifies page.bb
    ensures b == a + IntBytes(|c|) + c && page.bb[..pos + 4 + |c|] == b
  {
    hide IntBytes, PutBytes;
    b := a + IntBytes(|c|) + c;
    ghost var p := page.bb[..];
    assert p[..pos] == a;
    PutNextBytes(p, a, c);
    page.SetBytes(pos, c);
    assert page.bb[..pos + 4 + |c|] == page.bb[..][..pos + 4 + |c|];
  }

  /** SetIntRecord::writeToLog fills the record field by field. */
  method WriteSetInt(txNum: nat, blk: BlockId, offset: int, val: int32) returns (bytes: Bytes)
    requires Encodable(SetInt(txNum, blk, offset, val))
    ensures bytes == Encode(SetInt(txNum, blk, offset, val))
  {
    var name := NameBytes(blk.fileName);
    hide IntBytes, BytesInt, NameBytes;
    var tpos := 4;
    var fpos := tpos + 4;
    var bpos := fpos + MaxLength(|blk.fileName|);
    var opos := bpos + 4;
    var vpos := opos + 4;
    var recSize := vpos + 4;
    var page := new PageBuffer(recSize);
    ghost var a := NextInt(page, 0, SETINT, []);
    a := NextInt(page, tpos, txNum, a);
    a := NextBytes(page, fpos, name, a);
    a := NextInt(page, bpos, blk.number, a);
    a := NextInt(page, opos, offset, a);
    a := NextInt(page, vpos, val, a);
    bytes := page.bb[..];
    assert bytes == a;
  }

  /** The records of a log as the iterator returns them, newest first, turned into a history, oldest first. */
  function History(log: seq<Bytes>): Option<seq<Rec>> {
    if log == [] then Some([])
    else
      var earlier := History(log[1..]);
      var r := Decode(log[0]);
      if earlier.Some? && r.Some? then Some(earlier.value + [r.value]) else None
  }

  function EncodeAll(recs: seq<Rec>): seq<Bytes>
    requires forall k :: 0 <= k < |recs| ==> Encodable(recs[k])
  {
    if recs == [] then [] else [Encode(recs[|recs| - 1])] + EncodeAll(recs[..|recs| - 1])
  }

  /** A log of encoded records gives the history back. */
  lemma {:induction false} HistoryRoundTrip(recs: seq<Rec>)
    requires forall k :: 0 <= k < |recs| ==> Encodable(recs[k])
    ensures History(EncodeAll(recs)) == Some(recs)
  {
    if recs != [] {
      var n := |recs| - 1;
      HistoryRoundTrip(recs[..n]);
      RecordRoundTrip(recs[n]);
      HistoryStep(Encode(recs[n]), EncodeAll(recs[..n]));
      assert recs == recs[..n] + [recs[n]];
    }
  }

  lemma {:induction false} HistoryStep(e: Bytes, log: seq<Bytes>)
    requires Decode(e).Some? && History(log).Some?
    ensures History([e] + log) == Some(History(log).value + [Decode(e).value])
  {
    assert ([e] + log)[1..] == log;
  }
}
