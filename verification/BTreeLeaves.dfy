/** The leaves of a B-tree index (src/indexing/BTreeLeaf.cpp): a leaf page and the chain of overflow
    pages its flag starts, which hold further records of the leaf's first key. */
module BTreeLeaves {
  import opened Options
  import opened Rids
  import opened BTreePages
  import opened BTreeDirectory

  datatype Block = Block(blk: nat, page: Page)

  /** A page with one record must not be full, see LeafCapacity. */
  predicate LeafRoomy(g: Geometry) {
    2 <= g.full <= g.cap
  }

  /** A leaf: its primary block and its overflow blocks in chain order. */
  datatype Chain = Chain(blk: nat, page: Page, over: seq<Block>)

  function RidOf(s: Slot): Rid {
    Rid(s.block, s.id)
  }

  /** Records in key order, equal keys allowed. */
  predicate Ordered(s: seq<Slot>) {
    forall i, j :: 0 <= i < j < |s| ==> s[i].key <= s[j].key
  }

  /** The flag of a page whose overflow continues with rest. */
  function FlagFor(rest: seq<Block>): int {
    if rest == [] then -1 else rest[0].blk
  }

  /** An overflow chain for one key: no block is empty, every record has the key, and each flag names the
      next block or ends the chain. */
  ghost predicate OverShape(over: seq<Block>, key: Key, g: Geometry) {
    over != [] ==>
      && 1 <= over[0].page.n < g.full <= g.cap == |over[0].page.slots|
      && (forall i :: 0 <= i < over[0].page.n ==> Live(over[0].page)[i].key == key)
      && over[0].page.flag == FlagFor(over[1..])
      && OverShape(over[1..], key, g)
  }

  predicate LeafPage(p: Page, lo: Key, hi: Bound, g: Geometry) {
    && p.n < g.full <= g.cap == |p.slots|
    && Ordered(Live(p))
    && forall i :: 0 <= i < p.n ==> lo <= Live(p)[i].key && Under(Live(p)[i].key, hi)
  }

  /** A leaf for the keys from lo up to hi. */
  ghost predicate ChainShape(c: Chain, lo: Key, hi: Bound, g: Geometry) {
    && LeafPage(c.page, lo, hi, g)
    && c.page.flag == FlagFor(c.over)
    && (c.over != [] ==> 1 <= c.page.n && OverShape(c.over, c.page.slots[0].key, g))
  }

  // ----- Contents -----

  function OverRecords(over: seq<Block>): seq<Slot> {
    if over == [] then [] else Live(over[0].page) + OverRecords(over[1..])
  }

  /** All records of a leaf, overflow last. */
  function Records(c: Chain): seq<Slot> {
    Live(c.page) + OverRecords(c.over)
  }

  /** The rids of the records with a key, in order. */
  function Matching(s: seq<Slot>, key: Key): seq<Rid> {
    if s == [] then [] else (if s[0].key == key then [RidOf(s[0])] else []) + Matching(s[1..], key)
  }

  lemma {:induction false} MatchingFirst(s: seq<Slot>, key: Key)
    requires s != []
    ensures Matching(s, key) == (if s[0].key == key then [RidOf(s[0])] else []) + Matching(s[1..], key)
  {
  }

  lemma {:induction false} MatchingConcat(s: seq<Slot>, t: seq<Slot>, key: Key)
    ensures Matching(s + t, key) == Matching(s, key) + Matching(t, key)
  {
    hide Matching;
    if s == [] {
      assert s + t == t;
      MatchingNone(s, key);
    } else {
      assert (s + t)[0] == s[0] && (s + t)[1..] == s[1..] + t;
      MatchingFirst(s, key);
      MatchingFirst(s + t, key);
      MatchingConcat(s[1..], t, key);
    }
  }

  lemma {:induction false} MatchingNone(s: seq<Slot>, key: Key)
    requires forall i :: 0 <= i < |s| ==> s[i].key != key
    ensures Matching(s, key) == []
  {
    if s != [] {
      MatchingNone(s[1..], key);
    }
  }

  // ----- Lookup as the cursor does it -----

  /** The records a cursor standing on slot i of page p returns before it leaves the page. */
  function RunFrom(p: Page, i: nat, key: Key): seq<Rid>
    requires p.n <= |p.slots|
    decreases p.n - i
  {
    if i < p.n && p.slots[i].key == key then [RidOf(p.slots[i])] + RunFrom(p, i + 1, key) else []
  }

  /** tryOverflow succeeds: the key is the one in slot 0, live or not, and the flag names a block. */
  predicate Overflows(p: Page, key: Key)
    requires p.slots != []
  {
    p.slots[0].key == key && p.flag >= 0
  }

  /** Entering an overflow block returns its slot 0 without asking whether it is live. */
  function OverRun(over: seq<Block>, key: Key): seq<Rid>
    requires forall b :: b in over ==> 1 <= |b.page.slots| && b.page.n <= |b.page.slots|
  {
    if over == [] then [] else
      var p := over[0].page;
      [RidOf(p.slots[0])] + RunFrom(p, 1, key) + if Overflows(p, key) then OverRun(over[1..], key) else []
  }

  /** What next returns from beforeFirst(key) until it says false. */
  function Lookup(c: Chain, key: Key): seq<Rid>
    requires 1 <= |c.page.slots| && c.page.n <= |c.page.slots|
    requires forall b :: b in c.over ==> 1 <= |b.page.slots| && b.page.n <= |b.page.slots|
  {
    RunFrom(c.page, CountBefore(Live(c.page), key), key) + if Overflows(c.page, key) then OverRun(c.over, key) else []
  }

  /** The blocks of a chain are physically sound, whatever their records. */
  predicate Readable(c: Chain) {
    && 1 <= |c.page.slots| && c.page.n <= |c.page.slots|
    && forall b :: b in c.over ==> 1 <= |b.page.slots| && b.page.n <= |b.page.slots|
  }

  lemma {:induction false} RunMatches(p: Page, i: nat, key: Key)
    requires i <= p.n <= |p.slots| && Ordered(Live(p)) && (i < p.n ==> key <= p.slots[i].key)
    ensures RunFrom(p, i, key) == Matching(Live(p)[i..], key)
    decreases p.n - i
  {
    var s := Live(p)[i..];
    if i < p.n {
      assert s[1..] == Live(p)[i + 1..];
      if p.slots[i].key == key {
        assert i + 1 < p.n ==> Live(p)[i].key <= Live(p)[i + 1].key;
        RunMatches(p, i + 1, key);
      } else {
        assert forall j :: 0 <= j < |s| ==> s[0].key <= s[j].key;
        MatchingNone(s, key);
      }
    }
  }

  lemma {:induction false} OverReadable(over: seq<Block>, key: Key, g: Geometry)
    requires OverShape(over, key, g)
    ensures forall b :: b in over ==> 1 <= |b.page.slots| && b.page.n <= |b.page.slots|
  {
    if over != [] {
      OverReadable(over[1..], key, g);
    }
  }

  lemma {:induction false} OverRunMatches(over: seq<Block>, key: Key, g: Geometry)
    requires OverShape(over, key, g)
    requires forall b :: b in over ==> 1 <= |b.page.slots| && b.page.n <= |b.page.slots|
    ensures OverRun(over, key) == Matching(OverRecords(over), key)
  {
    hide Matching, RunFrom;
    if over == [] {
      MatchingNone([], key);
    } else {
      var p := over[0].page;
      var first := Live(p);
      OverRunMatches(over[1..], key, g);
      assert p.slots[0] == first[0];
      assert 1 < p.n ==> p.slots[1] == first[1];
      RunMatches(p, 1, key);
      MatchingFirst(first, key);
      MatchingConcat(first, OverRecords(over[1..]), key);
      if p.flag < 0 {
        assert over[1..] == [];
        MatchingNone([], key);
      }
    }
  }

  lemma {:induction false} OverOther(over: seq<Block>, first: Key, key: Key, g: Geometry)
    requires OverShape(over, first, g) && key != first
    ensures Matching(OverRecords(over), key) == []
  {
    if over != [] {
      OverOther(over[1..], first, key, g);
      MatchingNone(Live(over[0].page), key);
      MatchingConcat(Live(over[0].page), OverRecords(over[1..]), key);
    }
  }

  lemma {:induction false} ChainReadable(c: Chain, lo: Key, hi: Bound, g: Geometry)
    requires ChainShape(c, lo, hi, g) && LeafRoomy(g)
    ensures Readable(c)
  {
    if c.over != [] {
      OverReadable(c.over, c.page.slots[0].key, g);
    }
  }

  /** A cursor before the first record of the key returns the key's records on the page. */
  lemma {:induction false} PageMatches(p: Page, key: Key)
    requires p.n <= |p.slots| && Ordered(Live(p))
    ensures RunFrom(p, CountBefore(Live(p), key), key) == Matching(Live(p), key)
  {
    hide Matching, RunFrom;
    var s := Live(p);
    var i := CountBefore(s, key);
    RunMatches(p, i, key);
    MatchingNone(s[..i], key);
    assert s == s[..i] + s[i..];
    MatchingConcat(s[..i], s[i..], key);
  }

  lemma {:induction false} NoOverRecords(key: Key)
    ensures OverRecords([]) == [] && Matching([], key) == []
  {
  }

  /** A lookup in a well-formed leaf returns exactly the records with the key. */
  lemma {:induction false} LookupExact(c: Chain, lo: Key, hi: Bound, g: Geometry, key: Key)
    requires ChainShape(c, lo, hi, g) && LeafRoomy(g)
    ensures Readable(c) && Lookup(c, key) == Matching(Records(c), key)
  {
    hide Matching, RunFrom, OverRun, OverRecords, CountBefore, LeafRoomy;
    ChainReadable(c, lo, hi, g);
    var s := Live(c.page);
    PageMatches(c.page, key);
    MatchingConcat(s, OverRecords(c.over), key);
    if c.over == [] {
      NoOverRecords(key);
    } else {
      assert s[0] == c.page.slots[0];
      if key == s[0].key {
        OverRunMatches(c.over, key, g);
      } else {
        OverOther(c.over, s[0].key, key, g);
      }
    }
  }

  // ----- Insert -----

  /** A leaf after an insertion, and the new leaf when it split, with its least key. */
  datatype LeafOutcome = LeafOutcome(chain: Chain, up: Option<Chain>, upKey: Key, next: nat)

  /** The first position from i on whose key differs from key. */
  function RightEdge(s: seq<Slot>, i: nat, key: Key): (j: nat)
    requires i <= |s|
    ensures i <= j <= |s| && (j < |s| ==> s[j].key != key)
    ensures forall k :: i <= k < j ==> s[k].key == key
    decreases |s| - i
  {
    if i < |s| && s[i].key == key then RightEdge(s, i + 1, key) else i
  }

  /** The first position of the run of keys that ends at i. */
  function LeftEdge(s: seq<Slot>, i: nat, key: Key): (j: nat)
    requires i < |s| && s[i].key == key
    ensures j <= i && (0 < j ==> s[j - 1].key != key)
    ensures forall k :: j <= k <= i ==> s[k].key == key
  {
    if 0 < i && s[i - 1].key == key then LeftEdge(s, i - 1, key) else i
  }

  /** Where a full page of more than one key is split: the key boundary next to its middle. */
  function SplitPos(s: seq<Slot>): (pos: nat)
    requires 2 <= |s| && Ordered(s) && s[0].key != s[|s| - 1].key
    ensures 0 < pos < |s| && s[pos - 1].key < s[pos].key
  {
    var mid := |s| / 2;
    if s[mid].key == s[0].key then RightEdge(s, mid, s[0].key) else LeftEdge(s, mid, s[mid].key)
  }

  /** insert: a key below the first key of a leaf with overflow gets a leaf of its own; otherwise the
      record goes to its place, and a page this fills either sheds all but its first record into an
      overflow block or splits at a key boundary. */
  function LeafInsert(c: Chain, key: Key, rid: Rid, next: nat, g: Geometry): LeafOutcome
    requires c.page.n < g.full <= g.cap == |c.page.slots| && Ordered(Live(c.page))
  {
    var r := Slot(key, rid.block, rid.slot);
    if c.page.flag >= 0 && c.page.slots[0].key > key then
      var p := Inserted(LeftPart(c.page, 0).(flag := -1), 0, r);
      LeafOutcome(Chain(c.blk, p, []), Some(Chain(next, RightPart(c.page, 0, c.page.flag), c.over)), c.page.slots[0].key, next + 1)
    else
      var p := Inserted(c.page, CountBefore(Live(c.page), key), r);
      OrderedInserted(Live(c.page), r);
      if p.n < g.full then LeafOutcome(c.(page := p), None, key, next) else SplitFull(c, p, next)
  }

  /** Page p, full of one key, keeps its first record and puts the others at the head of the overflow. */
  function ShedOverflow(c: Chain, p: Page, next: nat): LeafOutcome
    requires 1 <= p.n <= |p.slots|
  {
    var over := [Block(next, RightPart(p, 1, p.flag))] + c.over;
    LeafOutcome(Chain(c.blk, LeftPart(p, 1).(flag := next), over), None, p.slots[0].key, next + 1)
  }

  /** Page p is cut at pos; its overflow stays with the left part. */
  function CutAt(c: Chain, p: Page, pos: nat, next: nat): LeafOutcome
    requires pos < p.n <= |p.slots|
  {
    LeafOutcome(c.(page := LeftPart(p, pos)), Some(Chain(next, RightPart(p, pos, -1), [])), p.slots[pos].key, next + 1)
  }

  /** What insert does with a primary page p that has become full. */
  function SplitFull(c: Chain, p: Page, next: nat): LeafOutcome
    requires 1 <= p.n <= |p.slots| && Ordered(Live(p))
  {
    assert Live(p)[0] == p.slots[0] && Live(p)[p.n - 1] == p.slots[p.n - 1];
    if p.slots[p.n - 1].key == p.slots[0].key then ShedOverflow(c, p, next) else CutAt(c, p, SplitPos(Live(p)), next)
  }

  lemma OrderedInserted(s: seq<Slot>, r: Slot)
    requires Ordered(s)
    ensures var c := CountBefore(s, r.key); Ordered(s[..c] + [r] + s[c..])
  {
    var c := CountBefore(s, r.key);
    assert forall i :: c <= i < |s| ==> r.key <= s[i].key;
  }

  function OutcomeRecords(o: LeafOutcome): seq<Slot> {
    if o.up.None? then Records(o.chain) else Records(o.chain) + Records(o.up.value)
  }

  ghost predicate LeafSound(o: LeafOutcome, c: Chain, lo: Key, hi: Bound, g: Geometry) {
    && o.chain.blk == c.blk
    && ChainShape(o.chain, lo, if o.up.None? then hi else Upto(o.upKey), g)
    && (o.up.Some? ==>
          && ChainShape(o.up.value, o.upKey, hi, g) && lo < o.upKey && Under(o.upKey, hi)
          && 1 <= o.chain.page.n && 1 <= o.up.value.page.n)
  }

  lemma {:induction false} SmallerKeyCase(c: Chain, key: Key, rid: Rid, next: nat, lo: Key, hi: Bound, g: Geometry) returns (o: LeafOutcome)
    requires LeafRoomy(g) && ChainShape(c, lo, hi, g) && lo <= key && Under(key, hi)
    requires c.page.flag >= 0 && c.page.slots[0].key > key
    ensures o == LeafInsert(c, key, rid, next, g)
    ensures LeafSound(o, c, lo, hi, g)
    ensures multiset(OutcomeRecords(o)) == multiset(Records(c)) + multiset{Slot(key, rid.block, rid.slot)}
  {
    hide CutAt, Drained, Filled, Formatted, Inserted, LeftEdge, LeftPart, OverShape, RightEdge, ShedOverflow, SplitFull,
      SplitPos;
    o := LeafInsert(c, key, rid, next, g);
    var r := Slot(key, rid.block, rid.slot);
    assert Live(o.chain.page) == [r];
    var q := RightPart(c.page, 0, c.page.flag);
    assert Live(q) == Live(c.page);
    assert Live(q)[0] == q.slots[0] && Live(c.page)[0] == c.page.slots[0];
    assert Records(o.chain) == [r] && Records(o.up.value) == Records(c);
  }

  lemma MultisetPlaced(s: seq<Slot>, k: nat, r: Slot, t: seq<Slot>)
    requires k <= |s|
    ensures multiset((s[..k] + [r] + s[k..]) + t) == multiset(s + t) + multiset{r}
  {
    assert s == s[..k] + s[k..];
  }

  lemma BoundsPlaced(s: seq<Slot>, k: nat, r: Slot, lo: Key, hi: Bound)
    requires k <= |s| && lo <= r.key && Under(r.key, hi)
    requires forall i :: 0 <= i < |s| ==> lo <= s[i].key && Under(s[i].key, hi)
    ensures var t := s[..k] + [r] + s[k..]; forall i :: 0 <= i < |t| ==> lo <= t[i].key && Under(t[i].key, hi)
  {
  }

  /** The page with the record in its place. */
  lemma {:induction false} PlacedPage(c: Chain, key: Key, rid: Rid, lo: Key, hi: Bound, g: Geometry) returns (p: Page)
    requires LeafRoomy(g) && ChainShape(c, lo, hi, g) && lo <= key && Under(key, hi)
    requires !(c.page.flag >= 0 && c.page.slots[0].key > key)
    ensures p == Inserted(c.page, CountBefore(Live(c.page), key), Slot(key, rid.block, rid.slot))
    ensures p.flag == FlagFor(c.over) && p.n == c.page.n + 1 && |p.slots| == g.cap && OverShape(c.over, p.slots[0].key, g)
    ensures Ordered(Live(p)) && forall i :: 0 <= i < p.n ==> lo <= Live(p)[i].key && Under(Live(p)[i].key, hi)
    ensures multiset(Live(p) + OverRecords(c.over)) == multiset(Records(c)) + multiset{Slot(key, rid.block, rid.slot)}
  {
    var s, r := Live(c.page), Slot(key, rid.block, rid.slot);
    var k := CountBefore(s, key);
    p := Inserted(c.page, k, r);
    OrderedInserted(s, r);
    MultisetPlaced(s, k, r, OverRecords(c.over));
    BoundsPlaced(s, k, r, lo, hi);
    assert Live(p)[0] == p.slots[0];
    if c.over != [] {
      assert s[0] == c.page.slots[0] && s[0].key <= key;
      assert Live(p)[0] == if k == 0 then r else s[0];
    }
  }

  /** The parts l and q of a full page p of one key. */
  lemma ShedPages(p: Page, l: Page, q: Page, lo: Key, hi: Bound, g: Geometry)
    requires p.n == g.full <= g.cap == |p.slots| && LeafRoomy(g) && Ordered(Live(p))
    requires forall i :: 0 <= i < p.n ==> lo <= Live(p)[i].key && Under(Live(p)[i].key, hi)
    requires p.slots[p.n - 1].key == p.slots[0].key
    requires l.n == 1 && |l.slots| == g.cap && Live(l) == Live(p)[..1]
    requires q.n == p.n - 1 && |q.slots| == g.cap && Live(q) == Live(p)[1..]
    ensures LeafPage(l, lo, hi, g) && l.slots[0] == p.slots[0] && Live(l) + Live(q) == Live(p)
    ensures forall i :: 0 <= i < q.n ==> Live(q)[i].key == p.slots[0].key
  {
    var s := Live(p);
    assert s[0] == p.slots[0] && s[p.n - 1] == p.slots[p.n - 1] && l.slots[0] == Live(l)[0];
    assert forall i :: 0 < i < p.n - 1 ==> s[0].key <= s[i].key <= s[p.n - 1].key;
  }

  lemma {:induction false} OverflowCase(c: Chain, p: Page, next: nat, lo: Key, hi: Bound, g: Geometry)
    requires LeafRoomy(g) && p.n == g.full <= g.cap == |p.slots| && p.flag == FlagFor(c.over)
    requires Ordered(Live(p)) && forall i :: 0 <= i < p.n ==> lo <= Live(p)[i].key && Under(Live(p)[i].key, hi)
    requires p.slots[p.n - 1].key == p.slots[0].key && OverShape(c.over, p.slots[0].key, g)
    ensures LeafSound(ShedOverflow(c, p, next), c, lo, hi, g)
    ensures OutcomeRecords(ShedOverflow(c, p, next)) == Live(p) + OverRecords(c.over)
  {
    hide Filled, Formatted, LeftPart, OverRecords, OverShape, Under;
    var q, l := RightPart(p, 1, p.flag), LeftPart(p, 1).(flag := next);
    assert Live(l) == Live(LeftPart(p, 1));
    ShedPages(p, l, q, lo, hi, g);
    LongerChain(next, q, c.over, p.slots[0].key, g);
    assert (Live(l) + Live(q)) + OverRecords(c.over) == Live(l) + (Live(q) + OverRecords(c.over));
  }

  lemma {:induction false} LongerChain(blk: nat, q: Page, over: seq<Block>, key: Key, g: Geometry)
    requires 1 <= q.n < g.full <= g.cap == |q.slots| && q.flag == FlagFor(over) && OverShape(over, key, g)
    requires forall i :: 0 <= i < q.n ==> Live(q)[i].key == key
    ensures OverShape([Block(blk, q)] + over, key, g) && FlagFor([Block(blk, q)] + over) == blk
    ensures OverRecords([Block(blk, q)] + over) == Live(q) + OverRecords(over)
  {
    assert ([Block(blk, q)] + over)[1..] == over;
  }

  /** The halves a and b of an ordered page p cut at a key boundary. */
  lemma BoundaryPages(p: Page, pos: nat, a: Page, b: Page, lo: Key, hi: Bound, g: Geometry)
    requires p.n == g.full <= g.cap == |p.slots| && Ordered(Live(p))
    requires forall i :: 0 <= i < p.n ==> lo <= Live(p)[i].key && Under(Live(p)[i].key, hi)
    requires 0 < pos < p.n && Live(p)[pos - 1].key < Live(p)[pos].key
    requires a.n == pos && |a.slots| == g.cap && Live(a) == Live(p)[..pos]
    requires b.n == p.n - pos && |b.slots| == g.cap && Live(b) == Live(p)[pos..]
    ensures LeafPage(a, lo, Upto(p.slots[pos].key), g) && LeafPage(b, p.slots[pos].key, hi, g)
    ensures lo < p.slots[pos].key && Under(p.slots[pos].key, hi)
    ensures a.slots[0] == p.slots[0] && Live(a) + Live(b) == Live(p)
  {
    var s := Live(p);
    assert s[pos] == p.slots[pos] && s[0] == p.slots[0] && a.slots[0] == Live(a)[0];
    hide Live, Under;
    assert forall i :: 0 <= i < pos ==> s[i].key <= s[pos - 1].key;
    assert forall i :: pos <= i < p.n ==> s[pos].key <= s[i].key;
  }

  lemma {:induction false} BoundaryCase(c: Chain, p: Page, pos: nat, next: nat, lo: Key, hi: Bound, g: Geometry)
    requires LeafRoomy(g) && p.n == g.full <= g.cap == |p.slots| && p.flag == FlagFor(c.over)
    requires Ordered(Live(p)) && forall i :: 0 <= i < p.n ==> lo <= Live(p)[i].key && Under(Live(p)[i].key, hi)
    requires OverShape(c.over, p.slots[0].key, g)
    requires 0 < pos < p.n && Live(p)[pos - 1].key < Live(p)[pos].key
    ensures LeafSound(CutAt(c, p, pos, next), c, lo, hi, g)
    ensures multiset(OutcomeRecords(CutAt(c, p, pos, next))) == multiset(Live(p) + OverRecords(c.over))
  {
    var a, b := LeftPart(p, pos), RightPart(p, pos, -1);
    BoundaryPages(p, pos, a, b, lo, hi, g);
    ShuffledRecords(Live(a), Live(b), OverRecords(c.over));
  }

  lemma ShuffledRecords(a: seq<Slot>, b: seq<Slot>, o: seq<Slot>)
    ensures multiset((a + o) + (b + [])) == multiset((a + b) + o)
  {
  }

  lemma {:induction false} FullPageCase(c: Chain, p: Page, next: nat, lo: Key, hi: Bound, g: Geometry) returns (o: LeafOutcome)
    requires LeafRoomy(g) && p.n == g.full <= g.cap == |p.slots| && p.flag == FlagFor(c.over) && OverShape(c.over, p.slots[0].key, g)
    requires Ordered(Live(p)) && forall i :: 0 <= i < p.n ==> lo <= Live(p)[i].key && Under(Live(p)[i].key, hi)
    ensures o == SplitFull(c, p, next)
    ensures LeafSound(o, c, lo, hi, g)
    ensures multiset(OutcomeRecords(o)) == multiset(Live(p) + OverRecords(c.over))
  {
    hide CutAt, FlagFor, LeafSound, OutcomeRecords, OverRecords, OverShape, ShedOverflow, Under;
    assert Live(p)[0] == p.slots[0] && Live(p)[p.n - 1] == p.slots[p.n - 1];
    if p.slots[p.n - 1].key == p.slots[0].key {
      o := ShedOverflow(c, p, next);
      OverflowCase(c, p, next, lo, hi, g);
    } else {
      var pos := SplitPos(Live(p));
      o := CutAt(c, p, pos, next);
      BoundaryCase(c, p, pos, next, lo, hi, g);
    }
  }

  /** Insertion keeps leaves well formed and loses no record. Equal keys stay in one leaf and its
      overflow chain, the chain holds only the leaf's first key, every new page has a record, and a new
      leaf starts at the separator it is announced with. */
  lemma {:induction false} LeafInsertSound(c: Chain, key: Key, rid: Rid, next: nat, lo: Key, hi: Bound, g: Geometry) returns (o: LeafOutcome)
    requires LeafRoomy(g) && ChainShape(c, lo, hi, g) && lo <= key && Under(key, hi)
    ensures o == LeafInsert(c, key, rid, next, g)
    ensures LeafSound(o, c, lo, hi, g)
    ensures multiset(OutcomeRecords(o)) == multiset(Records(c)) + multiset{Slot(key, rid.block, rid.slot)}
  {
    if c.page.flag >= 0 && c.page.slots[0].key > key {
      o := SmallerKeyCase(c, key, rid, next, lo, hi, g);
    } else {
      var p := PlacedPage(c, key, rid, lo, hi, g);
      if p.n == g.full {
        o := FullPageCase(c, p, next, lo, hi, g);
      } else {
        o := LeafOutcome(c.(page := p), None, key, next);
      }
    }
  }

  /** Exactly from two records on a page, no page is full after an insert. A leaf that is full with one record stays
      full, and starts an overflow chain with an empty block. */
  lemma {:induction false} LeafCapacity(c: Chain, key: Key, rid: Rid, next: nat, lo: Key, hi: Bound, g: Geometry) returns (o: LeafOutcome)
    requires ChainShape(c, lo, hi, g) && lo <= key && Under(key, hi)
    ensures o == LeafInsert(c, key, rid, next, g)
    ensures o.chain.page.n < g.full && (o.up.Some? ==> o.up.value.page.n < g.full) <==> LeafRoomy(g)
    ensures g.full == 1 ==> o.chain.over != [] && o.chain.over[0].page.n == 0
  {
    o := LeafInsert(c, key, rid, next, g);
    if 2 <= g.full {
      var sound := LeafInsertSound(c, key, rid, next, lo, hi, g);
    } else {
      var p := Inserted(c.page, CountBefore(Live(c.page), key), Slot(key, rid.block, rid.slot));
      assert o == SplitFull(c, p, next) == ShedOverflow(c, p, next);
    }
  }

  // ----- Remove -----

  /** The slot from i on, within the run of key, whose record has the rid. */
  function PageHit(p: Page, i: nat, key: Key, rid: Rid): (h: Option<nat>)
    requires p.n <= |p.slots|
    ensures h.Some? ==> i <= h.value < p.n && p.slots[h.value] == Slot(key, rid.block, rid.slot)
    decreases p.n - i
  {
    if i < p.n && p.slots[i].key == key then
      if RidOf(p.slots[i]) == rid then Some(i) else PageHit(p, i + 1, key, rid)
    else None
  }

  /** Where a cursor that has just entered an overflow page finds the rid. */
  function OverHit(p: Page, key: Key, rid: Rid): (h: Option<nat>)
    requires 1 <= p.n <= |p.slots|
    ensures h.Some? ==> h.value < p.n && RidOf(p.slots[h.value]) == rid
  {
    if RidOf(p.slots[0]) == rid then Some(0) else PageHit(p, 1, key, rid)
  }

  predicate Stocked(over: seq<Block>) {
    forall b :: b in over ==> 1 <= b.page.n <= |b.page.slots|
  }

  function OverRemoved(over: seq<Block>, key: Key, rid: Rid): seq<Block>
    requires Stocked(over)
  {
    if over == [] then [] else
      var p := over[0].page;
      var h := OverHit(p, key, rid);
      if h.Some? then [Block(over[0].blk, Removed(p, h.value))] + over[1..]
      else if Overflows(p, key) then [over[0]] + OverRemoved(over[1..], key, rid)
      else over
  }

  /** remove: the first record the cursor returns with the rid leaves its page. */
  function ChainRemoved(c: Chain, key: Key, rid: Rid): Chain
    requires Readable(c) && Stocked(c.over)
  {
    var h := PageHit(c.page, CountBefore(Live(c.page), key), key, rid);
    if h.Some? then c.(page := Removed(c.page, h.value))
    else if Overflows(c.page, key) then c.(over := OverRemoved(c.over, key, rid))
    else c
  }

  /** The overflow block the record leaves keeps another. */
  predicate OverSafe(over: seq<Block>, key: Key, rid: Rid)
    requires Stocked(over)
  {
    over == [] ||
    if OverHit(over[0].page, key, rid).Some? then 2 <= over[0].page.n
    else OverSafe(over[1..], key, rid)
  }

  /** A record may leave a leaf when that leaves the overflow chain its key and every overflow block a
      record; a leaf without overflow may lose any record. */
  predicate RemoveSafe(c: Chain, key: Key, rid: Rid)
    requires Readable(c) && Stocked(c.over)
  {
    var h := PageHit(c.page, CountBefore(Live(c.page), key), key, rid);
    if h.Some? then c.over == [] || 0 < h.value || (2 <= c.page.n && c.page.slots[1].key == key)
    else Overflows(c.page, key) ==> OverSafe(c.over, key, rid)
  }

  /** The only record of the primary page leaves, with overflow behind it. */
  predicate RemovesLast(c: Chain, key: Key, rid: Rid)
    requires Readable(c) && Stocked(c.over)
  {
    c.over != [] && c.page.n == 1 && PageHit(c.page, CountBefore(Live(c.page), key), key, rid).Some?
  }

  lemma {:induction false} OverStocked(over: seq<Block>, key: Key, g: Geometry)
    requires OverShape(over, key, g)
    ensures Stocked(over)
  {
    if over != [] {
      OverStocked(over[1..], key, g);
    }
  }

  lemma {:induction false} ChainStocked(c: Chain, lo: Key, hi: Bound, g: Geometry)
    requires ChainShape(c, lo, hi, g) && LeafRoomy(g)
    ensures Readable(c) && Stocked(c.over)
  {
    ChainReadable(c, lo, hi, g);
    if c.over != [] {
      OverStocked(c.over, c.page.slots[0].key, g);
    }
  }

  lemma MultisetRemoved(s: seq<Slot>, i: nat, t: seq<Slot>)
    requires i < |s|
    ensures multiset((s[..i] + s[i + 1..]) + t) == multiset(s + t) - multiset{s[i]}
  {
    assert s == s[..i] + [s[i]] + s[i + 1..];
  }

  lemma {:induction false} NoPageHit(p: Page, i: nat, key: Key, rid: Rid)
    requires p.n <= |p.slots| && i <= p.n && Ordered(Live(p)) && (i < p.n ==> key <= p.slots[i].key)
    requires PageHit(p, i, key, rid).None?
    ensures forall j :: i <= j < p.n ==> Live(p)[j] != Slot(key, rid.block, rid.slot)
    decreases p.n - i
  {
    if i < p.n && p.slots[i].key == key {
      assert i + 1 < p.n ==> Live(p)[i].key <= Live(p)[i + 1].key;
      NoPageHit(p, i + 1, key, rid);
    } else {
      assert forall j :: i <= j < p.n ==> Live(p)[i].key <= Live(p)[j].key;
    }
  }

  lemma {:induction false} NoOverHit(p: Page, key: Key, rid: Rid)
    requires 1 <= p.n <= |p.slots| && (forall i :: 0 <= i < p.n ==> Live(p)[i].key == key) && OverHit(p, key, rid).None?
    ensures Slot(key, rid.block, rid.slot) !in Live(p)
  {
    assert p.slots[0] == Live(p)[0] && (1 < p.n ==> p.slots[1] == Live(p)[1]);
    NoPageHit(p, 1, key, rid);
  }

  /** What the overflow chain loses. */
  lemma {:induction false} OverRemovedRecords(over: seq<Block>, key: Key, rid: Rid, g: Geometry)
    requires OverShape(over, key, g) && Stocked(over)
    ensures var r := Slot(key, rid.block, rid.slot);
      multiset(OverRecords(OverRemoved(over, key, rid))) == multiset(OverRecords(over)) - multiset{r}
  {
    if over != [] {
      var p, rest := over[0].page, over[1..];
      var h := OverHit(p, key, rid);
      if h.Some? {
        OverHitHere(over, key, rid, h.value);
      } else {
        NoOverHit(p, key, rid);
        assert p.slots[0] == Live(p)[0];
        if p.flag >= 0 {
          OverRemovedRecords(rest, key, rid, g);
          assert OverRemoved(over, key, rid) == [over[0]] + OverRemoved(rest, key, rid);
          OverLater(over, OverRemoved(rest, key, rid), Slot(key, rid.block, rid.slot));
        }
      }
    }
  }

  lemma {:induction false} OverHitHere(over: seq<Block>, key: Key, rid: Rid, h: nat)
    requires over != [] && Stocked(over) && OverHit(over[0].page, key, rid) == Some(h)
    requires forall i :: 0 <= i < over[0].page.n ==> Live(over[0].page)[i].key == key
    ensures multiset(OverRecords(OverRemoved(over, key, rid))) == multiset(OverRecords(over)) - multiset{Slot(key, rid.block, rid.slot)}
  {
    var p := over[0].page;
    assert Live(p)[h] == p.slots[h] == Slot(key, rid.block, rid.slot);
    MultisetRemoved(Live(p), h, OverRecords(over[1..]));
    assert OverRemoved(over, key, rid)[1..] == over[1..];
  }

  lemma {:induction false} OverLater(over: seq<Block>, rest: seq<Block>, r: Slot)
    requires over != [] && r !in Live(over[0].page)
    requires multiset(OverRecords(rest)) == multiset(OverRecords(over[1..])) - multiset{r}
    ensures multiset(OverRecords([over[0]] + rest)) == multiset(OverRecords(over)) - multiset{r}
  {
    assert ([over[0]] + rest)[1..] == rest;
    var s := Live(over[0].page);
    MinusLater(s, OverRecords(rest), OverRecords(over[1..]), r);
  }

  lemma MinusLater(s: seq<Slot>, t: seq<Slot>, t0: seq<Slot>, r: Slot)
    requires r !in s && multiset(t) == multiset(t0) - multiset{r}
    ensures multiset(s + t) == multiset(s + t0) - multiset{r}
  {
    assert multiset(s)[r] == 0;
    assert multiset(s + t) == multiset(s) + multiset(t);
    assert multiset(s + t0) == multiset(s) + multiset(t0);
  }

  /** When the overflow chain keeps its shape. */
  lemma {:induction false} OverRemovedShape(over: seq<Block>, key: Key, rid: Rid, g: Geometry)
    requires OverShape(over, key, g) && Stocked(over)
    ensures OverShape(OverRemoved(over, key, rid), key, g) <==> OverSafe(over, key, rid)
    ensures FlagFor(OverRemoved(over, key, rid)) == FlagFor(over)
  {
    if over != [] {
      var p, rest := over[0].page, over[1..];
      var h := OverHit(p, key, rid);
      assert p.slots[0] == Live(p)[0];
      if h.Some? {
        assert Live(Removed(p, h.value)) == Live(p)[..h.value] + Live(p)[h.value + 1..];
        assert OverRemoved(over, key, rid)[1..] == rest;
      } else {
        OverRemovedShape(rest, key, rid, g);
        if p.flag >= 0 {
          assert OverRemoved(over, key, rid)[1..] == OverRemoved(rest, key, rid);
        }
      }
    }
  }

  lemma AbsentMinus(s: seq<Slot>, r: Slot)
    requires forall i :: 0 <= i < |s| ==> s[i] != r
    ensures multiset(s) == multiset(s) - multiset{r}
  {
    assert r !in s;
    assert multiset(s)[r] == 0;
  }

  /** Of another key than its own, the overflow of a leaf has no record. */
  lemma {:induction false} NoOtherKey(c: Chain, r: Slot, lo: Key, hi: Bound, g: Geometry)
    requires LeafRoomy(g) && ChainShape(c, lo, hi, g) && r !in Live(c.page)
    requires c.over != [] ==> r.key != c.page.slots[0].key
    ensures multiset(Records(c)) == multiset(Records(c)) - multiset{r}
  {
    if c.over != [] {
      OverOther(c.over, c.page.slots[0].key, r.key, g);
    }
    NoneMatching(OverRecords(c.over), r.key) by {
      if c.over == [] {
        assert OverRecords(c.over) == [];
      }
    }
    AbsentMinus(Records(c), r);
  }

  /** The overflow part of a remove that finds nothing on the primary page. */
  lemma {:induction false} RemoveOverRecords(c: Chain, key: Key, rid: Rid, lo: Key, hi: Bound, g: Geometry)
    requires LeafRoomy(g) && ChainShape(c, lo, hi, g) && Readable(c) && Stocked(c.over)
    requires Slot(key, rid.block, rid.slot) !in Live(c.page)
    requires PageHit(c.page, CountBefore(Live(c.page), key), key, rid).None?
    ensures multiset(Records(ChainRemoved(c, key, rid))) == multiset(Records(c)) - multiset{Slot(key, rid.block, rid.slot)}
  {
    var r := Slot(key, rid.block, rid.slot);
    if c.over != [] && key == c.page.slots[0].key {
      OverRemovedRecords(c.over, key, rid, g);
      MinusLater(Live(c.page), OverRecords(OverRemoved(c.over, key, rid)), OverRecords(c.over), r);
    } else {
      NoOtherKey(c, r, lo, hi, g);
    }
  }

  lemma {:induction false} NotOnPage(p: Page, key: Key, rid: Rid)
    requires p.n <= |p.slots| && Ordered(Live(p)) && PageHit(p, CountBefore(Live(p), key), key, rid).None?
    ensures Slot(key, rid.block, rid.slot) !in Live(p)
  {
    var s, i := Live(p), CountBefore(Live(p), key);
    assert i < p.n ==> p.slots[i] == s[i];
    NoPageHit(p, i, key, rid);
    forall j | 0 <= j < |s| ensures s[j] != Slot(key, rid.block, rid.slot) {
      assert j < i ==> s[j].key < key;
    }
  }

  /** Remove takes exactly one record with the key and the rid out of the leaf, if there is one. */
  lemma {:induction false} RemoveRecords(c: Chain, key: Key, rid: Rid, lo: Key, hi: Bound, g: Geometry)
    requires LeafRoomy(g) && ChainShape(c, lo, hi, g)
    ensures Readable(c) && Stocked(c.over)
    ensures multiset(Records(ChainRemoved(c, key, rid))) == multiset(Records(c)) - multiset{Slot(key, rid.block, rid.slot)}
  {
    hide FlagFor, OverHit, OverRemoved, OverShape, Overflows, Under, Records, ChainRemoved, PageHit, CountBefore;
    ChainStocked(c, lo, hi, g);
    assert Ordered(Live(c.page)) && c.page.n <= |c.page.slots|;
    hide ChainShape, LeafRoomy, Ordered, Live, Stocked;
    if PageHit(c.page, CountBefore(Live(c.page), key), key, rid).Some? {
      RemoveHit(c, key, rid);
    } else {
      NotOnPage(c.page, key, rid);
      RemoveOverRecords(c, key, rid, lo, hi, g);
    }
  }

  /** The record is on the primary page. */
  lemma {:induction false} RemoveHit(c: Chain, key: Key, rid: Rid)
    requires Readable(c) && Stocked(c.over)
    requires PageHit(c.page, CountBefore(Live(c.page), key), key, rid).Some?
    ensures multiset(Records(ChainRemoved(c, key, rid))) == multiset(Records(c)) - multiset{Slot(key, rid.block, rid.slot)}
  {
    hide OverHit, OverRemoved, OverRecords, Overflows, PageHit, CountBefore, Stocked;
    var s, i := Live(c.page), CountBefore(Live(c.page), key);
    var h := PageHit(c.page, i, key, rid);
    assert s[h.value] == c.page.slots[h.value];
    MultisetRemoved(s, h.value, OverRecords(c.over));
  }

  lemma {:induction false} NoneMatching(s: seq<Slot>, key: Key)
    requires Matching(s, key) == []
    ensures forall i :: 0 <= i < |s| ==> s[i].key != key
  {
    if s != [] {
      NoneMatching(s[1..], key);
    }
  }

  /** Remove keeps a leaf well formed exactly when it is safe. */
  lemma {:induction false} RemoveShape(c: Chain, key: Key, rid: Rid, lo: Key, hi: Bound, g: Geometry)
    requires LeafRoomy(g) && ChainShape(c, lo, hi, g)
    ensures Readable(c) && Stocked(c.over)
    ensures ChainShape(ChainRemoved(c, key, rid), lo, hi, g) <==> RemoveSafe(c, key, rid)
  {
    hide LeafRoomy, LeafPage, PageHit, OverShape, OverSafe, OverRemoved, Live, CountBefore, Stocked;
    ChainStocked(c, lo, hi, g);
    var h := PageHit(c.page, CountBefore(Live(c.page), key), key, rid);
    if h.Some? {
      HitShape(c, h.value, lo, hi, g);
    } else if Overflows(c.page, key) {
      OverRemovedShape(c.over, key, rid, g);
      NewOverflow(c, OverRemoved(c.over, key, rid), lo, hi, g);
    }
  }

  lemma {:induction false} HitShape(c: Chain, h: nat, lo: Key, hi: Bound, g: Geometry)
    requires LeafRoomy(g) && ChainShape(c, lo, hi, g) && h < c.page.n
    ensures h < c.page.n <= |c.page.slots|
    ensures ChainShape(c.(page := Removed(c.page, h)), lo, hi, g)
            <==> c.over == [] || 0 < h || (2 <= c.page.n && c.page.slots[1].key == c.page.slots[0].key)
  {
    hide FlagFor, OverShape, Under;
    var s, q := Live(c.page), Removed(c.page, h);
    assert LeafPage(q, lo, hi, g);
    if c.over != [] && 1 <= q.n {
      assert q.slots[0] == Live(q)[0] && s[0] == c.page.slots[0] && s[1] == c.page.slots[1];
      if h == 0 {
        assert Live(q)[0] == s[1];
        OverKey(c.over, s[0].key, s[1].key, g);
      }
    }
  }

  lemma {:induction false} NewOverflow(c: Chain, over: seq<Block>, lo: Key, hi: Bound, g: Geometry)
    requires LeafRoomy(g) && ChainShape(c, lo, hi, g) && c.over != [] && FlagFor(over) == FlagFor(c.over)
    ensures ChainShape(c.(over := over), lo, hi, g) <==> OverShape(over, c.page.slots[0].key, g)
  {
    hide LeafPage, LeafRoomy;
    assert over == [] ==> FlagFor(c.over) < 0;
  }

  lemma OverKey(over: seq<Block>, a: Key, b: Key, g: Geometry)
    requires over != [] && OverShape(over, a, g)
    ensures OverShape(over, b, g) <==> a == b
  {
    assert Live(over[0].page)[0].key == a;
  }

  /** Every lookup in the leaf returns exactly the records with its key. */
  ghost predicate Answers(c: Chain) {
    Readable(c) && forall k :: Lookup(c, k) == Matching(Records(c), k)
  }

  /** The only record of an overflow block leaves it: the block is still entered. */
  lemma {:induction false} OverEmptied(over: seq<Block>, key: Key, rid: Rid, g: Geometry)
    requires over != [] && OverShape(over, key, g) && Stocked(over)
    requires over[0].page.n == 1 && OverHit(over[0].page, key, rid).Some?
    ensures var o := OverRemoved(over, key, rid);
      AllReadable(o) && |OverRun(o, key)| == |Matching(OverRecords(o), key)| + 1
  {
    hide OverHit, Matching;
    var p, rest := over[0].page, over[1..];
    var q := Removed(p, 0);
    var o := OverRemoved(over, key, rid);
    assert o == [Block(over[0].blk, q)] + rest && q.slots[0] == p.slots[0] == Live(p)[0];
    assert Live(q) == [];
    assert OverRecords(o) == OverRecords(rest);
    OverRunMatches(rest, key, g);
    OverRunStep(o, key);
  }

  lemma {:induction false} OverKept(over: seq<Block>, key: Key, rid: Rid, g: Geometry)
    requires |over| >= 2 && OverShape(over, key, g) && Stocked(over) && OverHit(over[0].page, key, rid).None?
    requires var o := OverRemoved(over[1..], key, rid);
      AllReadable(o) && |OverRun(o, key)| == |Matching(OverRecords(o), key)| + 1
    ensures var o := OverRemoved(over, key, rid);
      AllReadable(o) && |OverRun(o, key)| == |Matching(OverRecords(o), key)| + 1
  {
    hide OverHit, Matching, RunFrom;
    var p := over[0].page;
    var o, o1 := OverRemoved(over, key, rid), OverRemoved(over[1..], key, rid);
    assert p.slots[0] == Live(p)[0];
    assert o == [over[0]] + o1 && o[1..] == o1;
    assert OverRecords(o) == Live(p) + OverRecords(o1);
    OverRunStep(o, key);
    MatchingConcat(Live(p), OverRecords(o1), key);
    FullMatches(p, key);
  }

  /** A block of records of the key gives all of them. */
  lemma {:induction false} FullMatches(p: Page, key: Key)
    requires 1 <= p.n <= |p.slots| && forall i :: 0 <= i < p.n ==> Live(p)[i].key == key
    ensures [RidOf(p.slots[0])] + RunFrom(p, 1, key) == Matching(Live(p), key)
  {
    hide RunFrom;
    assert Live(p) == [Live(p)[0]] + Live(p)[1..] && p.slots[0] == Live(p)[0];
    assert 1 < p.n ==> p.slots[1] == Live(p)[1];
    RunMatches(p, 1, key);
  }

  lemma {:induction false} OverUnsafe(over: seq<Block>, key: Key, rid: Rid, g: Geometry)
    requires OverShape(over, key, g) && Stocked(over) && !OverSafe(over, key, rid)
    ensures var o := OverRemoved(over, key, rid);
      && (forall b :: b in o ==> 1 <= |b.page.slots| && b.page.n <= |b.page.slots|)
      && |OverRun(o, key)| == |Matching(OverRecords(o), key)| + 1
  {
    hide OverRemoved, OverRun, OverHit, Overflows, RunFrom, Matching, Removed, OverRecords, Live;
    var p, rest := over[0].page, over[1..];
    if OverHit(p, key, rid).Some? {
      OverEmptied(over, key, rid, g);
    } else {
      OverUnsafe(rest, key, rid, g);
      OverKept(over, key, rid, g);
    }
  }

  lemma {:induction false} OverHasKey(over: seq<Block>, key: Key, g: Geometry)
    requires over != [] && OverShape(over, key, g)
    ensures Matching(OverRecords(over), key) != []
  {
    assert OverRecords(over)[0] == Live(over[0].page)[0];
  }

  /** The first record leaves and the next has another key: the chain can no longer be found. */
  lemma {:induction false} OrphanedChain(c: Chain, key: Key, rid: Rid, lo: Key, hi: Bound, g: Geometry)
    requires LeafRoomy(g) && ChainShape(c, lo, hi, g) && c.over != [] && 2 <= c.page.n
    requires CountBefore(Live(c.page), key) == 0 && PageHit(c.page, 0, key, rid) == Some(0) && c.page.slots[1].key != key
    ensures var q := Chain(c.blk, Removed(c.page, 0), c.over);
      Readable(q) && Lookup(q, key) == [] && Matching(Records(q), key) != []
  {
    ChainReadable(c, lo, hi, g);
    var s, q := Live(c.page), Chain(c.blk, Removed(c.page, 0), c.over);
    assert s[0] == c.page.slots[0] && s[1] == c.page.slots[1] && s[0].key <= s[1].key;
    assert Live(q.page)[0] == s[1] && q.page.slots[0] == Live(q.page)[0];
    OverHasKey(c.over, key, g);
    MatchingConcat(Live(q.page), OverRecords(c.over), key);
  }

  /** The only primary record leaves: its dead copy still leads lookups to the chain. */
  lemma {:induction false} LastRecord(c: Chain, key: Key, rid: Rid, lo: Key, hi: Bound, g: Geometry)
    requires LeafRoomy(g) && ChainShape(c, lo, hi, g) && Readable(c) && Stocked(c.over) && RemovesLast(c, key, rid)
    ensures Answers(ChainRemoved(c, key, rid))
  {
    var q := ChainRemoved(c, key, rid);
    assert Live(q.page) == [] && q.page.slots[0] == c.page.slots[0];
    assert Records(q) == OverRecords(c.over);
    forall k ensures Lookup(q, k) == Matching(Records(q), k) {
      if k == c.page.slots[0].key {
        OverRunMatches(c.over, k, g);
      } else {
        OverOther(c.over, c.page.slots[0].key, k, g);
      }
    }
  }

  /** After a remove every lookup is right exactly when the remove is safe or takes the only primary
      record of a leaf with overflow. Otherwise the chain is orphaned or an emptied block's dead record
      is returned. */
  lemma {:induction false} RemoveAnswers(c: Chain, key: Key, rid: Rid, lo: Key, hi: Bound, g: Geometry)
    requires LeafRoomy(g) && ChainShape(c, lo, hi, g)
    ensures Readable(c) && Stocked(c.over)
    ensures Answers(ChainRemoved(c, key, rid)) <==> RemoveSafe(c, key, rid) || RemovesLast(c, key, rid)
  {
    ChainStocked(c, lo, hi, g);
    RemoveShape(c, key, rid, lo, hi, g);
    var q := ChainRemoved(c, key, rid);
    if RemoveSafe(c, key, rid) {
      ShapeAnswers(q, lo, hi, g);
    } else if RemovesLast(c, key, rid) {
      LastRecord(c, key, rid, lo, hi, g);
    } else {
      UnsafeLookup(c, key, rid, lo, hi, g);
    }
  }

  lemma {:induction false} ShapeAnswers(c: Chain, lo: Key, hi: Bound, g: Geometry)
    requires LeafRoomy(g) && ChainShape(c, lo, hi, g)
    ensures Answers(c)
  {
    ChainReadable(c, lo, hi, g);
    forall k ensures Lookup(c, k) == Matching(Records(c), k) {
      LookupExact(c, lo, hi, g, k);
    }
  }

  lemma {:induction false} UnsafeLookup(c: Chain, key: Key, rid: Rid, lo: Key, hi: Bound, g: Geometry)
    requires LeafRoomy(g) && ChainShape(c, lo, hi, g) && Readable(c) && Stocked(c.over)
    requires !RemoveSafe(c, key, rid) && !RemovesLast(c, key, rid)
    ensures !Answers(ChainRemoved(c, key, rid))
  {
    var q, s := ChainRemoved(c, key, rid), Live(c.page);
    var i := CountBefore(s, key);
    if PageHit(c.page, i, key, rid).Some? {
      OrphanedChain(c, key, rid, lo, hi, g);
    } else {
      OverUnsafe(c.over, key, rid, g);
      assert s == s[..i] + s[i..];
      RunMatches(c.page, i, key);
      MatchingNone(s[..i], key);
      MatchingConcat(s[..i], s[i..], key);
      MatchingConcat(s, OverRecords(q.over), key);
      assert |Lookup(q, key)| == |Matching(Records(q), key)| + 1;
    }
  }

  // ----- The leaf in its file -----

  ghost predicate OverStored(over: seq<Block>, f: seq<Page>) {
    forall i :: 0 <= i < |over| ==> over[i].blk < |f| && f[over[i].blk] == over[i].page
  }

  ghost predicate ChainStored(c: Chain, f: seq<Page>) {
    c.blk < |f| && f[c.blk] == c.page && OverStored(c.over, f)
  }

  ghost function ChainBlocks(c: Chain): set<nat> {
    {c.blk} + set i | 0 <= i < |c.over| :: c.over[i].blk
  }

  ghost predicate OverDistinct(over: seq<Block>) {
    forall i, j :: 0 <= i < j < |over| ==> over[i].blk != over[j].blk
  }

  ghost predicate ChainDistinct(c: Chain) {
    OverDistinct(c.over) && forall i :: 0 <= i < |c.over| ==> c.over[i].blk != c.blk
  }

  /** Each flag names the block after it. */
  ghost predicate Linked(flag: int, rest: seq<Block>)
    decreases rest
  {
    flag == FlagFor(rest) && (rest != [] ==> Linked(rest[0].page.flag, rest[1..]))
  }

  lemma {:induction false} OverLinked(over: seq<Block>, key: Key, g: Geometry)
    requires OverShape(over, key, g)
    ensures Linked(FlagFor(over), over)
  {
    if over != [] {
      OverLinked(over[1..], key, g);
    }
  }

  predicate AllReadable(over: seq<Block>) {
    forall b :: b in over ==> 1 <= |b.page.slots| && b.page.n <= |b.page.slots|
  }

  /** What a cursor about to look at slot i of page p returns when rest follows the page. */
  function Yet(p: Page, i: nat, key: Key, rest: seq<Block>): seq<Rid>
    requires 1 <= |p.slots| && p.n <= |p.slots| && AllReadable(rest)
  {
    RunFrom(p, i, key) + if Overflows(p, key) then OverRun(rest, key) else []
  }

  lemma {:induction false} Regroup(a: seq<Rid>, b: seq<Rid>, c: seq<Rid>)
    ensures a + b + c == a + (b + c)
  {
  }

  lemma {:induction false} RunStep(p: Page, i: nat, key: Key)
    requires p.n <= |p.slots|
    ensures RunFrom(p, i, key) == if i < p.n && p.slots[i].key == key then [RidOf(p.slots[i])] + RunFrom(p, i + 1, key) else []
  {
  }

  lemma {:induction false} LookupIs(c: Chain, key: Key)
    requires Readable(c)
    ensures AllReadable(c.over) && Lookup(c, key) == Yet(c.page, CountBefore(Live(c.page), key), key, c.over)
  {
    hide RunFrom, OverRun, CountBefore;
  }

  lemma {:induction false} ChainLinked(c: Chain, lo: Key, hi: Bound, g: Geometry)
    requires ChainShape(c, lo, hi, g)
    ensures Linked(c.page.flag, c.over) && c.page.n <= |c.page.slots|
  {
    if c.over != [] {
      OverLinked(c.over, c.page.slots[0].key, g);
    }
  }

  lemma {:induction false} YetStep(p: Page, i: nat, key: Key, rest: seq<Block>)
    requires 1 <= |p.slots| && p.n <= |p.slots| && AllReadable(rest) && p.flag == FlagFor(rest)
    ensures if i < p.n && p.slots[i].key == key then Yet(p, i, key, rest) == [RidOf(p.slots[i])] + Yet(p, i + 1, key, rest)
            else if Overflows(p, key) then
              rest != [] && AllReadable(rest[1..])
              && Yet(p, i, key, rest) == [RidOf(rest[0].page.slots[0])] + Yet(rest[0].page, 1, key, rest[1..])
            else Yet(p, i, key, rest) == []
  {
    hide OverRun, RidOf, RunFrom;
    RunStep(p, i, key);
    if i < p.n && p.slots[i].key == key {
      Regroup([RidOf(p.slots[i])], RunFrom(p, i + 1, key), if Overflows(p, key) then OverRun(rest, key) else []);
    } else if Overflows(p, key) {
      OverRunStep(rest, key);
    }
  }

  lemma {:induction false} OverRunStep(rest: seq<Block>, key: Key)
    requires rest != [] && AllReadable(rest)
    ensures AllReadable(rest[1..]) && OverRun(rest, key) == [RidOf(rest[0].page.slots[0])] + Yet(rest[0].page, 1, key, rest[1..])
  {
    hide RunFrom;
    assert forall b :: b in rest[1..] ==> b in rest;
    var p := rest[0].page;
    Regroup([RidOf(p.slots[0])], RunFrom(p, 1, key), if Overflows(p, key) then OverRun(rest[1..], key) else []);
  }

  lemma StoredReadable(rest: seq<Block>, file: BlockFile)
    requires file.Valid() && OverStored(rest, file.blocks) && 1 <= Capacity(file.blockSize, file.slotSize)
    ensures AllReadable(rest)
  {
    forall b | b in rest ensures 1 <= |b.page.slots| && b.page.n <= |b.page.slots| {
      var i :| 0 <= i < |rest| && rest[i] == b;
    }
  }

  /** The directory entry an insertion into a leaf returns. */
  function EntryOf(o: LeafOutcome): Option<Slot> {
    if o.up.None? then None else Some(Slot(o.upKey, o.up.value.blk, 0))
  }

  /** The leaf file after an insertion: the primary page is rewritten, and a new leaf or the new head of
      the overflow chain is appended. */
  ghost function LeafPages(f: seq<Page>, o: LeafOutcome): seq<Page> {
    if o.chain.blk < |f| then
      f[o.chain.blk := o.chain.page]
      + if o.next == |f| then [] else if o.up.Some? then [o.up.value.page] else if o.chain.over != [] then [o.chain.over[0].page] else []
    else f
  }

  lemma LeafPagesTwice(f: seq<Page>, p: Page, o: LeafOutcome)
    requires o.chain.blk < |f|
    ensures LeafPages(f[o.chain.blk := p], o) == LeafPages(f, o)
  {
    assert f[o.chain.blk := p][o.chain.blk := o.chain.page] == f[o.chain.blk := o.chain.page];
  }

  /** The ways an insertion can rearrange the blocks of a leaf: one page changes, a block joins the
      overflow chain, or a new leaf appears and the overflow goes with one of the two. */
  ghost predicate Rearranged(o: LeafOutcome, c: Chain, next: nat) {
    && o.chain.blk == c.blk
    && if o.next == next then o.up.None? && o.chain.over == c.over
       else
         && o.next == next + 1
         && if o.up.None? then exists q :: o.chain.over == [Block(next, q)] + c.over
            else o.up.value.blk == next && (if o.chain.over == [] then o.up.value.over == c.over else o.chain.over == c.over && o.up.value.over == [])
  }

  lemma {:induction false} LeafInsertRearranges(c: Chain, key: Key, rid: Rid, next: nat, lo: Key, hi: Bound, g: Geometry)
    requires LeafRoomy(g) && ChainShape(c, lo, hi, g)
    ensures Rearranged(LeafInsert(c, key, rid, next, g), c, next)
  {
  }

  lemma {:induction false} RearrangedStored(o: LeafOutcome, c: Chain, f: seq<Page>)
    requires Rearranged(o, c, |f|) && ChainStored(c, f) && ChainDistinct(c)
    ensures ChainStored(o.chain, LeafPages(f, o)) && |LeafPages(f, o)| == o.next
    ensures o.up.Some? ==> ChainStored(o.up.value, LeafPages(f, o))
  {
    var f' := LeafPages(f, o);
    assert forall b :: 0 <= b < |f| && b != c.blk ==> f'[b] == f[b];
    assert OverStored(c.over, f');
    if o.next != |f| && o.up.None? {
      assert forall i :: 0 < i < |o.chain.over| ==> o.chain.over[i] == c.over[i - 1];
    }
  }

  lemma {:induction false} RearrangedBlocks(o: LeafOutcome, c: Chain, next: nat)
    requires Rearranged(o, c, next) && ChainDistinct(c) && forall b :: b in ChainBlocks(c) ==> b < next
    ensures ChainDistinct(o.chain) && forall b :: b in ChainBlocks(o.chain) ==> b in ChainBlocks(c) || (b == next && o.next == next + 1)
    ensures o.up.Some? ==>
              && ChainDistinct(o.up.value) && ChainBlocks(o.chain) !! ChainBlocks(o.up.value)
              && forall b :: b in ChainBlocks(o.up.value) ==> b in ChainBlocks(c) || (b == next && o.next == next + 1)
  {
    assert forall i :: 0 <= i < |c.over| ==> c.over[i].blk in ChainBlocks(c);
    assert c.blk in ChainBlocks(c);
    if o.next != next && o.up.None? {
      assert forall i :: 0 < i < |o.chain.over| ==> o.chain.over[i] == c.over[i - 1];
      assert o.chain.over[0].blk == next;
    }
  }

  datatype Place = Place(blk: nat, slot: int)

  /** The block and slot a cursor about to look at slot i of page p finds the rid in. */
  function Find(p: Page, blk: nat, i: nat, rest: seq<Block>, key: Key, rid: Rid): (at: Option<Place>)
    requires 1 <= |p.slots| && p.n <= |p.slots| && Stocked(rest)
    decreases rest, p.n - i
  {
    if i < p.n && p.slots[i].key == key then
      if RidOf(p.slots[i]) == rid then Some(Place(blk, i)) else Find(p, blk, i + 1, rest, key, rid)
    else if Overflows(p, key) && rest != [] then
      if RidOf(rest[0].page.slots[0]) == rid then Some(Place(rest[0].blk, 0))
      else
        assert Stocked(rest[1..]);
        Find(rest[0].page, rest[0].blk, 1, rest[1..], key, rid)
    else None
  }

  /** The same for a cursor that stands on slot i. */
  function FindFrom(p: Page, blk: nat, i: nat, rest: seq<Block>, key: Key, rid: Rid): (at: Option<Place>)
    requires i < p.n <= |p.slots| && Stocked(rest)
  {
    if RidOf(p.slots[i]) == rid then Some(Place(blk, i)) else Find(p, blk, i + 1, rest, key, rid)
  }

  lemma {:induction false} FindStep(p: Page, blk: nat, i: nat, rest: seq<Block>, key: Key, rid: Rid)
    requires 1 <= |p.slots| && p.n <= |p.slots| && Stocked(rest)
    ensures Find(p, blk, i, rest, key, rid)
         == if i < p.n && p.slots[i].key == key then FindFrom(p, blk, i, rest, key, rid)
            else if Overflows(p, key) && rest != [] then (assert Stocked(rest[1..]); FindFrom(rest[0].page, rest[0].blk, 0, rest[1..], key, rid))
            else None
    ensures rest != [] ==> Stocked(rest[1..])
  {
    assert rest != [] ==> forall b :: b in rest[1..] ==> b in rest;
  }

  /** The file with the record at a place taken out. */
  ghost function TakenOut(f: seq<Page>, at: Option<Place>): seq<Page> {
    if at.Some? && at.value.blk < |f| && 0 <= at.value.slot < f[at.value.blk].n <= |f[at.value.blk].slots|
    then f[at.value.blk := Removed(f[at.value.blk], at.value.slot)] else f
  }

  lemma {:induction false} FindOnPage(p: Page, blk: nat, i: nat, rest: seq<Block>, key: Key, rid: Rid)
    requires 1 <= |p.slots| && p.n <= |p.slots| && Stocked(rest)
    ensures var h := PageHit(p, i, key, rid);
      if h.Some? then Find(p, blk, i, rest, key, rid) == Some(Place(blk, h.value))
      else Find(p, blk, i, rest, key, rid) == Find(p, blk, p.n, rest, key, rid)
    decreases p.n - i
  {
    if i < p.n && p.slots[i].key == key && RidOf(p.slots[i]) != rid {
      FindOnPage(p, blk, i + 1, rest, key, rid);
    }
  }

  lemma {:induction false} FindOver(over: seq<Block>, p: Page, blk: nat, key: Key, rid: Rid, f: seq<Page>)
    requires 1 <= |p.slots| && p.n <= |p.slots| && Stocked(over) && Overflows(p, key)
    requires OverStored(over, f) && OverDistinct(over)
    ensures OverStored(OverRemoved(over, key, rid), TakenOut(f, Find(p, blk, p.n, over, key, rid)))
    ensures forall b :: 0 <= b < |f| && (forall i :: 0 <= i < |over| ==> over[i].blk != b)
              ==> b < |TakenOut(f, Find(p, blk, p.n, over, key, rid))| && TakenOut(f, Find(p, blk, p.n, over, key, rid))[b] == f[b]
    decreases over
  {
    if over != [] {
      var q, rest := over[0].page, over[1..];
      assert Stocked(rest);
      var h := OverHit(q, key, rid);
      FindOnPage(q, over[0].blk, 1, rest, key, rid);
      if h.Some? {
        assert forall i :: 0 <= i < |rest| ==> rest[i] == over[i + 1];
      } else if Overflows(q, key) {
        assert forall i :: 0 <= i < |rest| ==> rest[i] == over[i + 1];
        FindOver(rest, q, over[0].blk, key, rid, f);
      }
    }
  }

  /** Taking out the record the cursor finds is what ChainRemoved says. */
  lemma {:induction false} FindRemoved(c: Chain, rid: Rid, key: Key, f: seq<Page>)
    requires Readable(c) && Stocked(c.over) && ChainStored(c, f) && ChainDistinct(c)
    ensures var f' := TakenOut(f, Find(c.page, c.blk, CountBefore(Live(c.page), key), c.over, key, rid));
      && |f'| == |f| && ChainStored(ChainRemoved(c, key, rid), f')
      && forall b :: 0 <= b < |f| && b !in ChainBlocks(c) ==> f'[b] == f[b]
  {
    FindOnPage(c.page, c.blk, CountBefore(Live(c.page), key), c.over, key, rid);
    if PageHit(c.page, CountBefore(Live(c.page), key), key, rid).None? && Overflows(c.page, key) {
      FindOver(c.over, c.page, c.blk, key, rid, f);
      assert forall i :: 0 <= i < |c.over| ==> c.over[i].blk in ChainBlocks(c);
    }
  }

  /** The blocks of the file that serve leaf pages of geometry g. */
  ghost predicate LeafFits(file: BlockFile, g: Geometry)
    reads file
  {
    file.Valid() && LeafRoomy(g) && g.full == file.Limit() && g.cap == Capacity(file.blockSize, file.slotSize)
  }

  /** A cursor on one key of a leaf. rest is what follows of the overflow chain. */
  class BTreeLeaf {
    const file: BlockFile
    const key: Key
    var contents: nat
    var currentSlot: int
    ghost var rest: seq<Block>

    ghost predicate Valid()
      reads this, file
    {
      && file.Valid() && 1 <= Capacity(file.blockSize, file.slotSize)
      && contents < |file.blocks| && -1 <= currentSlot
      && OverStored(rest, file.blocks) && Linked(file.blocks[contents].flag, rest)
    }

    /** What next is still going to return. */
    ghost function Remaining(): seq<Rid>
      requires Valid()
      reads this, file
    {
      StoredReadable(rest, file);
      Yet(file.blocks[contents], currentSlot + 1, key, rest)
    }

    constructor (file: BlockFile, blk: nat, key: Key, ghost c: Chain, ghost lo: Key, ghost hi: Bound, ghost g: Geometry)
      requires LeafFits(file, g) && ChainStored(c, file.blocks) && blk == c.blk && ChainShape(c, lo, hi, g)
      ensures Valid() && this.file == file && this.key == key && rest == c.over && contents == blk
      ensures currentSlot == CountBefore(Live(c.page), key) - 1
      ensures Readable(c) && Remaining() == Lookup(c, key)
    {
      hide OverStored, Yet, Lookup, ChainShape, Linked, Live, CountBefore;
      this.file, this.key := file, key;
      contents := blk;
      rest := c.over;
      new;
      ChainReadable(c, lo, hi, g);
      ChainLinked(c, lo, hi, g);
      LookupIs(c, key);
      currentSlot := file.FindSlotBefore(blk, key);
    }

    method GetDataRid() returns (rid: Rid)
      requires Valid() && 0 <= currentSlot < |file.blocks[contents].slots|
      ensures rid == RidOf(file.blocks[contents].slots[currentSlot])
    {
      rid := RidOf(file.blocks[contents].slots[currentSlot]);
    }

    method TryOverflow() returns (more: bool)
      requires Valid()
      modifies this
      ensures Valid()
      ensures more <==> Overflows(old(file.blocks[contents]), key)
      ensures more ==> rest == old(rest)[1..] && old(rest) != [] && contents == old(rest)[0].blk && currentSlot == 0
      ensures !more ==> unchanged(this)
    {
      var firstKey := file.blocks[contents].slots[0].key;
      var flag := file.blocks[contents].flag;
      if key != firstKey || flag < 0 {
        return false;
      }
      contents := flag;
      currentSlot := 0;
      rest := rest[1..];
      return true;
    }

    /** Where next moves the cursor. */
    method Advance() returns (more: bool)
      requires Valid()
      modifies this
      ensures Valid()
      ensures var p, i := old(file.blocks[contents]), old(currentSlot) + 1;
        if i < p.n && p.slots[i].key == key then more && contents == old(contents) && currentSlot == i && rest == old(rest)
        else if Overflows(p, key) then more && old(rest) != [] && contents == old(rest)[0].blk && currentSlot == 0 && rest == old(rest)[1..]
        else !more && contents == old(contents) && currentSlot == i && rest == old(rest)
    {
      currentSlot := currentSlot + 1;
      if currentSlot >= file.blocks[contents].n {
        more := TryOverflow();
      } else if file.blocks[contents].slots[currentSlot].key == key {
        return true;
      } else {
        more := TryOverflow();
      }
    }

    /** next pops the remaining rids one by one and returns false when none is left. */
    method Next() returns (more: bool)
      requires Valid()
      modifies this
      ensures Valid()
      ensures more <==> old(Remaining()) != []
      ensures more ==> 0 <= currentSlot < |file.blocks[contents].slots|
      ensures more ==> RidOf(file.blocks[contents].slots[currentSlot]) == old(Remaining())[0] && Remaining() == old(Remaining())[1..]
    {
      hide Yet, Overflows;
      StoredReadable(rest, file);
      YetStep(file.blocks[contents], currentSlot + 1, key, rest);
      more := Advance();
    }

    /** insert, when the key is below the first key of a leaf with overflow. */
    method InsertSmaller(rid: Rid) returns (entry: Slot)
      requires Valid() && 2 <= Capacity(file.blockSize, file.slotSize)
      modifies this`currentSlot, file
      ensures file.Valid()
      ensures var f, p := old(file.blocks), old(file.blocks[contents]);
        && entry == Slot(p.slots[0].key, |f|, 0)
        && file.blocks == f[contents := Inserted(LeftPart(p, 0).(flag := -1), 0, Slot(key, rid.block, rid.slot))] + [RightPart(p, 0, p.flag)]
    {
      ghost var f, p := file.blocks, file.blocks[contents];
      var firstVal := file.blocks[contents].slots[0].key;
      var newBlk := file.Split(contents, 0, file.blocks[contents].flag);
      currentSlot := 0;
      file.SetFlag(contents, -1);
      UpdateAppended(f, contents, LeftPart(p, 0), RightPart(p, 0, p.flag), LeftPart(p, 0).(flag := -1));
      file.Insert(contents, currentSlot, Slot(key, rid.block, rid.slot));
      UpdateAppended(f, contents, LeftPart(p, 0).(flag := -1), RightPart(p, 0, p.flag), Inserted(LeftPart(p, 0).(flag := -1), 0, Slot(key, rid.block, rid.slot)));
      return Slot(firstVal, newBlk, 0);
    }

    /** insert, when the full page holds one key only. */
    method MakeOverflow()
      requires file.Valid() && contents < |file.blocks| && 2 <= file.blocks[contents].n
      modifies file
      ensures file.Valid()
      ensures var f, p := old(file.blocks), old(file.blocks[contents]);
        file.blocks == f[contents := LeftPart(p, 1).(flag := |f|)] + [RightPart(p, 1, p.flag)]
    {
      ghost var f, p := file.blocks, file.blocks[contents];
      var newBlk := file.Split(contents, 1, file.blocks[contents].flag);
      file.SetFlag(contents, newBlk);
      UpdateAppended(f, contents, LeftPart(p, 1), RightPart(p, 1, p.flag), LeftPart(p, 1).(flag := |f|));
    }

    /** The search for the key boundary nearest the middle of a page of several keys. */
    method FindSplitPos() returns (splitPos: nat)
      requires file.Valid() && contents < |file.blocks| && 2 <= file.blocks[contents].n && Ordered(Live(file.blocks[contents]))
      requires var s := Live(file.blocks[contents]); s[0].key != s[|s| - 1].key
      ensures splitPos == SplitPos(Live(file.blocks[contents]))
    {
      var p := file.blocks[contents];
      ghost var s := Live(p);
      splitPos := p.n / 2;
      var firstKey := p.slots[0].key;
      var splitKey := p.slots[splitPos].key;
      assert splitKey == s[splitPos].key && firstKey == s[0].key;
      if splitKey == firstKey {
        ghost var goal := RightEdge(s, splitPos, firstKey);
        assert s[|s| - 1].key != firstKey;
        while p.slots[splitPos].key == splitKey
          invariant splitPos < p.n && goal == RightEdge(s, splitPos, firstKey)
          decreases p.n - splitPos
        {
          assert s[splitPos].key == firstKey && splitPos != |s| - 1;
          splitPos := splitPos + 1;
        }
        assert s[splitPos].key != firstKey;
      } else {
        ghost var goal := LeftEdge(s, splitPos, splitKey);
        while p.slots[splitPos - 1].key == splitKey
          invariant 0 < splitPos < p.n && s[splitPos].key == splitKey && goal == LeftEdge(s, splitPos, splitKey)
          decreases splitPos
        {
          assert s[splitPos - 1].key == splitKey && splitPos != 1;
          splitPos := splitPos - 1;
        }
        assert s[splitPos - 1].key != splitKey;
      }
    }

    /** insert, when the page has become full. */
    method SplitLeaf(ghost c: Chain) returns (entry: Option<Slot>)
      requires file.Valid() && contents < |file.blocks| && 2 <= file.blocks[contents].n && Ordered(Live(file.blocks[contents])) && contents == c.blk
      modifies file
      ensures file.Valid()
      ensures var o := SplitFull(c, old(file.blocks[contents]), |old(file.blocks)|);
        entry == EntryOf(o) && file.blocks == LeafPages(old(file.blocks), o)
    {
      hide CutAt, LeftEdge, LeftPart, Ordered, RightEdge, RightPart, SplitPos;
      ghost var p := file.blocks[contents];
      assert Live(p)[0] == p.slots[0] && Live(p)[p.n - 1] == p.slots[p.n - 1];
      var firstKey := file.blocks[contents].slots[0].key;
      var lastKey := file.blocks[contents].slots[file.blocks[contents].n - 1].key;
      if lastKey == firstKey {
        MakeOverflow();
        return None;
      } else {
        entry := CutLeaf(c);
      }
    }

    /** insert, when the full page holds several keys. */
    method CutLeaf(ghost c: Chain) returns (entry: Option<Slot>)
      requires file.Valid() && contents < |file.blocks| && 2 <= file.blocks[contents].n && Ordered(Live(file.blocks[contents])) && contents == c.blk
      requires var s := Live(file.blocks[contents]); s[0].key != s[|s| - 1].key
      modifies file
      ensures file.Valid()
      ensures var p := old(file.blocks[contents]);
        var o := CutAt(c, p, SplitPos(Live(p)), |old(file.blocks)|);
        entry == EntryOf(o) && file.blocks == LeafPages(old(file.blocks), o)
    {
      var splitPos := FindSplitPos();
      var splitKey := file.blocks[contents].slots[splitPos].key;
      var newBlk := file.Split(contents, splitPos, -1);
      return Some(Slot(splitKey, newBlk, 0));
    }

    /** insert, when the record belongs on this page. */
    method PlaceRecord(rid: Rid, ghost c: Chain, ghost g: Geometry) returns (entry: Option<Slot>)
      requires LeafFits(file, g) && contents < |file.blocks| && file.blocks[contents] == c.page && contents == c.blk
      requires c.page.n < g.full && Ordered(Live(c.page)) && currentSlot == CountBefore(Live(c.page), key)
      modifies file
      ensures LeafFits(file, g)
      ensures var p := Inserted(c.page, currentSlot, Slot(key, rid.block, rid.slot));
        if p.n < g.full then entry == None && file.blocks == old(file.blocks)[c.blk := p]
        else Ordered(Live(p)) && var o := SplitFull(c, p, |old(file.blocks)|);
          entry == EntryOf(o) && file.blocks == LeafPages(old(file.blocks), o)
    {
      ghost var f := file.blocks;
      file.Insert(contents, currentSlot, Slot(key, rid.block, rid.slot));
      var full := file.IsFull(contents);
      ghost var p := file.blocks[contents];
      if !full {
        return None;
      }
      OrderedInserted(Live(c.page), Slot(key, rid.block, rid.slot));
      entry := SplitLeaf(c);
      LeafPagesTwice(f, p, SplitFull(c, p, |f|));
    }

    /** insert, in the source's order of cases. */
    method Insert(rid: Rid, ghost c: Chain, ghost lo: Key, ghost hi: Bound, ghost g: Geometry) returns (entry: Option<Slot>)
      requires Valid() && LeafFits(file, g) && ChainStored(c, file.blocks) && contents == c.blk
      requires ChainShape(c, lo, hi, g) && currentSlot == CountBefore(Live(c.page), key) - 1
      modifies this`currentSlot, file
      ensures LeafFits(file, g)
      ensures var o := LeafInsert(c, key, rid, |old(file.blocks)|, g);
        entry == EntryOf(o) && file.blocks == LeafPages(old(file.blocks), o)
    {
      if file.blocks[contents].flag >= 0 && file.blocks[contents].slots[0].key > key {
        var e := InsertSmaller(rid);
        return Some(e);
      } else {
        currentSlot := currentSlot + 1;
        entry := PlaceRecord(rid, c, g);
      }
    }

    /** The loop of remove: advance until next returns the rid. */
    method Seek(rid: Rid) returns (found: bool)
      requires Valid() && Stocked(rest)
      modifies this
      ensures Valid()
      ensures found ==> 0 <= currentSlot < file.blocks[contents].n
      ensures Find(old(file.blocks[contents]), old(contents), old(currentSlot) + 1, old(rest), key, rid)
           == if found then Some(Place(contents, currentSlot)) else None
    {
      hide Overflows, RidOf;
      ghost var goal := Find(file.blocks[contents], contents, currentSlot + 1, rest, key, rid);
      FindStep(file.blocks[contents], contents, currentSlot + 1, rest, key, rid);
      found := Advance();
      while found
        invariant Valid() && Stocked(rest)
        invariant found ==> 0 <= currentSlot < file.blocks[contents].n
        invariant goal == if found then FindFrom(file.blocks[contents], contents, currentSlot, rest, key, rid) else None
        decreases |rest|, file.blocks[contents].n - currentSlot
      {
        var r := GetDataRid();
        if r == rid {
          return;
        }
        FindStep(file.blocks[contents], contents, currentSlot + 1, rest, key, rid);
        found := Advance();
      }
    }

    /** remove: the first record next returns with the rid is taken off its page. */
    method Remove(rid: Rid, ghost c: Chain, ghost lo: Key, ghost hi: Bound, ghost g: Geometry)
      requires Valid() && LeafFits(file, g) && ChainStored(c, file.blocks) && ChainDistinct(c) && contents == c.blk && rest == c.over
      requires ChainShape(c, lo, hi, g) && currentSlot == CountBefore(Live(c.page), key) - 1
      modifies this, file
      ensures LeafFits(file, g) && |file.blocks| == |old(file.blocks)|
      ensures Readable(c) && Stocked(c.over) && ChainStored(ChainRemoved(c, key, rid), file.blocks)
      ensures forall b :: 0 <= b < |file.blocks| && b !in ChainBlocks(c) ==> file.blocks[b] == old(file.blocks[b])
    {
      hide Capacity, FlagFor, LeafPage, Ordered, OverDistinct, OverHit, OverRemoved, OverShape, OverStored, Overflows,
        PageHit, Removed, RidOf, Under;
      ChainStocked(c, lo, hi, g);
      FindRemoved(c, rid, key, file.blocks);
      var found := Seek(rid);
      if found {
        file.Remove(contents, currentSlot);
      }
    }
  }
}
