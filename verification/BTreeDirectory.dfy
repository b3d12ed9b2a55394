/** The directory of a B-tree index (src/indexing/BTreeDir.cpp).

    A directory is a tree of pages in one file. Dir is the tree as a value; the functions on it say what
    the operations do, the lemmas what that means for the sorted list of (separator, leaf block) entries
    the tree stands for, and class BTreeDir is the source's page-at-a-time code, proved against them. */
module BTreeDirectory {
  import opened Options
  import opened BTreePages

  /** An exclusive upper bound on keys. */
  datatype Bound = Upto(key: Key) | NoBound

  predicate Under(k: Key, b: Bound) {
    b.NoBound? || k < b.key
  }

  /** The record count at which a directory page is full, and the slots of a block. */
  datatype Geometry = Geometry(full: nat, cap: nat)

  /** A page with two records must not be full, see GrownRoot. */
  predicate Roomy(g: Geometry) {
    3 <= g.full <= g.cap
  }

  /** A subtree: its root block and page, and the subtrees of its entries when its level is above 0. */
  datatype Dir = Dir(blk: nat, page: Page, kids: seq<Dir>)

  /** A new right sibling on its way up: the entry for the parent, and the subtree it points to. */
  datatype Sibling = Sibling(entry: Slot, dir: Dir)

  datatype Outcome = Outcome(dir: Dir, up: Option<Sibling>, next: nat)

  predicate Sorted(s: seq<Slot>) {
    forall i, j :: 0 <= i < j < |s| ==> s[i].key < s[j].key
  }

  predicate Fresh(s: seq<Slot>, key: Key) {
    forall i :: 0 <= i < |s| ==> s[i].key != key
  }

  /** The bound the i-th entry's subtree lies under. */
  function Top(s: seq<Slot>, i: nat, hi: Bound): Bound {
    if i + 1 < |s| then Upto(s[i + 1].key) else hi
  }

  predicate PageShape(p: Page, hi: Bound, g: Geometry) {
    && 0 <= p.flag
    && 1 <= p.n <= g.full <= g.cap == |p.slots|
    && Sorted(Live(p))
    && forall i :: 0 <= i < p.n ==> Under(Live(p)[i].key, hi)
  }

  /** What kid says of its entry e in the parent page p. */
  predicate KidShape(p: Page, kid: Dir, e: Slot, g: Geometry) {
    && kid.blk == e.block
    && kid.page.flag == p.flag - 1
    && g.full / 2 <= kid.page.n < g.full
    && 1 <= kid.page.n <= |kid.page.slots|
    && kid.page.slots[0].key == e.key
  }

  /** A directory subtree under hi: separators strictly increase and bound the subtrees, every subtree
      starts at its entry's separator, levels fall by one, and no page below the top is full or less
      than half filled. */
  ghost predicate Shape(d: Dir, hi: Bound, g: Geometry) {
    && PageShape(d.page, hi, g)
    && |d.kids| == (if d.page.flag == 0 then 0 else d.page.n)
    && forall i :: 0 <= i < |d.kids| ==>
         KidShape(d.page, d.kids[i], Live(d.page)[i], g) && Shape(d.kids[i], Top(Live(d.page), i, hi), g)
  }

  /** The (separator, leaf block) list of a subtree, left to right. */
  ghost function Entries(d: Dir): seq<Slot>
    decreases d, 1
  {
    if d.kids == [] then Live(d.page) else Flatten(d.kids)
  }

  ghost function Flatten(kids: seq<Dir>): seq<Slot>
    decreases kids, 0
  {
    if kids == [] then [] else Entries(kids[0]) + Flatten(kids[1..])
  }

  lemma {:induction false} FlattenFirst(kids: seq<Dir>)
    ensures Flatten(kids) == if kids == [] then [] else Entries(kids[0]) + Flatten(kids[1..])
  {
  }

  lemma {:induction false} FlattenConcat(a: seq<Dir>, b: seq<Dir>)
    ensures Flatten(a + b) == Flatten(a) + Flatten(b)
  {
    hide Flatten, Entries;
    FlattenFirst(a);
    if a == [] {
      assert a + b == b;
    } else {
      assert (a + b)[0] == a[0] && (a + b)[1..] == a[1..] + b;
      FlattenFirst(a + b);
      FlattenConcat(a[1..], b);
    }
  }

  lemma {:induction false} FlattenCons(kid: Dir, rest: seq<Dir>)
    ensures Flatten([kid] + rest) == Entries(kid) + Flatten(rest)
  {
    assert ([kid] + rest)[1..] == rest;
  }

  lemma {:induction false} FlattenSplit(kids: seq<Dir>, i: nat)
    requires i < |kids|
    ensures Flatten(kids) == Flatten(kids[..i]) + Entries(kids[i]) + Flatten(kids[i + 1..])
  {
    var a, k, b := kids[..i], kids[i], kids[i + 1..];
    assert kids == a + ([k] + b);
    FlattenConcat(a, [k] + b);
    FlattenCons(k, b);
    assert Flatten(a) + (Entries(k) + Flatten(b)) == Flatten(a) + Entries(k) + Flatten(b);
  }

  /** Entries are sorted, start at the subtree's first separator and stay under its bound. */
  lemma {:induction false} EntriesSorted(d: Dir, hi: Bound, g: Geometry)
    requires Shape(d, hi, g)
    ensures Entries(d) != [] && Sorted(Entries(d)) && Entries(d)[0].key == d.page.slots[0].key
    ensures forall i :: 0 <= i < |Entries(d)| ==> Under(Entries(d)[i].key, hi)
    decreases d, 1
  {
    if d.kids != [] {
      TailSorted(d, 0, hi, g);
    }
  }

  /** What the shape of a directory says about one kid. */
  lemma {:induction false} KidFacts(d: Dir, i: nat, hi: Bound, g: Geometry)
    requires Shape(d, hi, g) && i < |d.kids|
    ensures |d.kids| == d.page.n == |Live(d.page)| <= |d.page.slots| && Live(d.page)[i] == d.page.slots[i]
    ensures Shape(d.kids[i], Top(Live(d.page), i, hi), g)
    ensures d.kids[i].page.slots != [] && d.kids[i].page.slots[0].key == d.page.slots[i].key
    ensures Under(Live(d.page)[i].key, hi)
    ensures i + 1 < |d.kids| ==> Live(d.page)[i + 1] == d.page.slots[i + 1] && Under(d.page.slots[i + 1].key, hi)
    ensures i + 1 < |d.kids| ==> d.page.slots[i].key < d.page.slots[i + 1].key
  {
    hide Shape;
    ShapeParts(d, i, hi, g);
  }

  lemma {:induction false} ShapeParts(d: Dir, i: nat, hi: Bound, g: Geometry)
    requires Shape(d, hi, g) && i < |d.kids|
    ensures PageShape(d.page, hi, g) && |d.kids| == d.page.n
    ensures KidShape(d.page, d.kids[i], Live(d.page)[i], g) && Shape(d.kids[i], Top(Live(d.page), i, hi), g)
  {
  }

  lemma {:induction false} TailSorted(d: Dir, i: nat, hi: Bound, g: Geometry)
    requires Shape(d, hi, g) && i < |d.kids|
    ensures Flatten(d.kids[i..]) != [] && Sorted(Flatten(d.kids[i..])) && i < |d.page.slots|
    ensures Flatten(d.kids[i..])[0].key == d.page.slots[i].key
    ensures forall j :: 0 <= j < |Flatten(d.kids[i..])| ==> Under(Flatten(d.kids[i..])[j].key, hi)
    decreases d, 0, |d.kids| - i
  {
    KidFacts(d, i, hi, g);
    FlattenAt(d.kids, i);
    hide Shape, KidShape, PageShape, Flatten, Entries;
    var kid := d.kids[i];
    var a, b := Entries(kid), Flatten(d.kids[i + 1..]);
    EntriesSorted(kid, Top(Live(d.page), i, hi), g);
    if i + 1 < |d.kids| {
      TailSorted(d, i + 1, hi, g);
      SortedJoin(a, b, hi);
    } else {
      assert a + b == a;
    }
  }

  lemma {:induction false} FlattenAt(kids: seq<Dir>, i: nat)
    requires i < |kids|
    ensures Flatten(kids[i..]) == Entries(kids[i]) + Flatten(kids[i + 1..])
    ensures i + 1 == |kids| ==> Flatten(kids[i + 1..]) == []
  {
    assert kids[i..][1..] == kids[i + 1..];
  }

  lemma {:induction false} SortedJoin(a: seq<Slot>, b: seq<Slot>, hi: Bound)
    requires Sorted(a) && b != [] && Sorted(b) && Under(b[0].key, hi)
    requires forall j :: 0 <= j < |a| ==> a[j].key < b[0].key
    requires forall j :: 0 <= j < |b| ==> Under(b[j].key, hi)
    ensures Sorted(a + b) && forall j :: 0 <= j < |a + b| ==> Under((a + b)[j].key, hi)
  {
    forall i, j | 0 <= i < j < |a + b| ensures (a + b)[i].key < (a + b)[j].key {
      if i < |a| <= j && j > |a| {
        assert b[0].key < b[j - |a|].key;
      }
    }
  }

  lemma {:induction false} HeadUnder(d: Dir, i: nat, hi: Bound, g: Geometry)
    requires Shape(d, hi, g) && i < |d.kids|
    ensures i < |d.page.slots|
    ensures forall j :: 0 <= j < |Flatten(d.kids[..i])| ==> Flatten(d.kids[..i])[j].key < d.page.slots[i].key
  {
    assert Entries(d) == Flatten(d.kids);
    hide *;
    EntriesSorted(d, hi, g);
    TailSorted(d, i, hi, g);
    CutFlat(d.kids, i);
    SortedCut(Flatten(d.kids[..i]), Flatten(d.kids[i..]));
  }

  lemma {:induction false} CutFlat(kids: seq<Dir>, i: nat)
    requires i <= |kids|
    ensures Flatten(kids) == Flatten(kids[..i]) + Flatten(kids[i..])
  {
    hide *;
    FlattenConcat(kids[..i], kids[i..]);
    assert kids[..i] + kids[i..] == kids;
  }

  lemma {:induction false} SortedCut(a: seq<Slot>, b: seq<Slot>)
    requires Sorted(a + b) && b != []
    ensures forall j :: 0 <= j < |a| ==> a[j].key < b[0].key
  {
    forall j | 0 <= j < |a| ensures a[j].key < b[0].key {
      assert (a + b)[j] == a[j] && (a + b)[|a|] == b[0];
    }
  }

  // ----- Search -----

  /** The position of the last entry at or below key. */
  function Route(s: seq<Slot>, key: Key): (r: nat)
    requires s != [] && Sorted(s) && s[0].key <= key
    ensures r < |s| && s[r].key <= key
    ensures r + 1 < |s| ==> key < s[r + 1].key
  {
    var c := CountBefore(s, key);
    if c < |s| && s[c].key == key then c else c - 1
  }

  lemma {:induction false} RouteIs(s: seq<Slot>, key: Key, r: nat)
    requires Sorted(s) && r < |s| && s[r].key <= key
    requires r + 1 < |s| ==> key < s[r + 1].key
    ensures s[0].key <= key && Route(s, key) == r
  {
    assert 0 < r ==> s[0].key < s[r].key;
    assert forall i :: r < i < |s| ==> key < s[i].key;
    var q := Route(s, key);
    assert forall i :: q < i < |s| ==> key < s[i].key;
  }

  /** The entry a search for key should end at. */
  function Floor(s: seq<Slot>, key: Key): (e: Slot)
    requires s != [] && Sorted(s) && s[0].key <= key
  {
    s[Route(s, key)]
  }

  /** findChildBlock as written: the slot after the last key below the search key is read without
      asking whether it is live. */
  function FindChild(p: Page, key: Key): int
    requires p.n < |p.slots| && 1 <= p.n && p.slots[0].key <= key
  {
    var c := CountBefore(Live(p), key);
    p.slots[if p.slots[c].key == key then c else c - 1].block
  }

  /** Every live separator is below key, and the dead slot behind them repeats key with another block. */
  predicate DeadHit(p: Page, key: Key)
    requires 1 <= p.n < |p.slots|
  {
    && p.slots[p.n - 1].key < key
    && p.slots[p.n].key == key
    && p.slots[p.n].block != p.slots[p.n - 1].block
  }

  /** The unguarded read picks the right child exactly when it does not hit the dead slot. */
  lemma {:induction false} FindChildExact(p: Page, key: Key)
    requires 1 <= p.n < |p.slots| && Sorted(Live(p)) && p.slots[0].key <= key
    ensures FindChild(p, key) == Live(p)[Route(Live(p), key)].block <==> !DeadHit(p, key)
  {
    var c := CountBefore(Live(p), key);
    assert c == p.n <==> p.slots[p.n - 1].key < key;
  }

  /** No page on the way down from d to key's entry has a dead hit. */
  ghost predicate Clean(d: Dir, hi: Bound, g: Geometry, key: Key)
    requires Shape(d, hi, g) && d.page.n < g.full && d.page.slots[0].key <= key
  {
    && !DeadHit(d.page, key)
    && (d.kids != [] ==> var i := Route(Live(d.page), key); Clean(d.kids[i], Top(Live(d.page), i, hi), g, key))
  }

  /** One step down: the floor entry of a node is the floor entry of the child its page routes to. */
  lemma {:induction false} FloorStep(d: Dir, hi: Bound, g: Geometry, key: Key)
    requires Shape(d, hi, g) && d.kids != [] && d.page.slots[0].key <= key && Under(key, hi)
    ensures var i := Route(Live(d.page), key);
      && Under(key, Top(Live(d.page), i, hi))
      && Sorted(Entries(d)) && Entries(d) != [] && Entries(d)[0].key <= key
      && Sorted(Entries(d.kids[i])) && Entries(d.kids[i]) != [] && Entries(d.kids[i])[0].key <= key
      && Floor(Entries(d), key) == Floor(Entries(d.kids[i]), key)
  {
    var i := Route(Live(d.page), key);
    var top := Top(Live(d.page), i, hi);
    KidFacts(d, i, hi, g);
    assert Live(d.page)[0] == d.page.slots[0] && Entries(d) == Flatten(d.kids);
    hide Shape, PageShape, KidShape, Flatten, Entries, Route;
    EntriesSorted(d, hi, g);
    EntriesSorted(d.kids[i], top, g);
    FlattenSplit(d.kids, i);
    var a, m, b := Flatten(d.kids[..i]), Entries(d.kids[i]), Flatten(d.kids[i + 1..]);
    if i + 1 < |d.kids| {
      TailSorted(d, i + 1, hi, g);
    } else {
      FlattenAt(d.kids, i);
    }
    FloorWithin(a, m, b, key);
  }

  lemma {:induction false} FloorWithin(a: seq<Slot>, m: seq<Slot>, b: seq<Slot>, key: Key)
    requires Sorted(a + m + b) && m != [] && Sorted(m) && m[0].key <= key
    requires b != [] ==> key < b[0].key
    ensures (a + m + b)[0].key <= key && Floor(a + m + b, key) == Floor(m, key)
  {
    var s := a + m + b;
    assert s[|a|] == m[0] && s[0].key <= s[|a|].key;
    var r := Route(m, key);
    assert s[|a| + r] == m[r];
    if r + 1 < |m| {
      assert s[|a| + r + 1] == m[r + 1];
    } else if b != [] {
      assert s[|a| + r + 1] == b[0];
    }
    RouteIs(s, key, |a| + r);
  }

  // ----- Insert -----

  function InsertSorted(s: seq<Slot>, e: Slot): seq<Slot> {
    var c := CountBefore(s, e.key);
    s[..c] + [e] + s[c..]
  }

  lemma CountIs(s: seq<Slot>, key: Key, c: nat)
    requires c <= |s| && forall i :: 0 <= i < c ==> s[i].key < key
    requires c < |s| ==> key <= s[c].key
    ensures CountBefore(s, key) == c
  {
  }

  lemma SpliceMiddle(a: seq<Slot>, m: seq<Slot>, b: seq<Slot>, c: nat, e: Slot)
    requires c <= |m|
    ensures var s := a + m + b; s[..|a| + c] + [e] + s[|a| + c..] == a + (m[..c] + [e] + m[c..]) + b
  {
    var s := a + m + b;
    assert s[..|a| + c] == a + m[..c];
    assert s[|a| + c..] == m[c..] + b;
  }

  lemma InsertInMiddle(a: seq<Slot>, m: seq<Slot>, b: seq<Slot>, e: Slot)
    requires forall i :: 0 <= i < |a| ==> a[i].key < e.key
    requires b != [] ==> e.key < b[0].key
    ensures InsertSorted(a + m + b, e) == a + InsertSorted(m, e) + b
  {
    var s, c := a + m + b, CountBefore(m, e.key);
    forall i | 0 <= i < |a| + c ensures s[i].key < e.key {
      assert s[i] == if i < |a| then a[i] else m[i - |a|];
    }
    if |a| + c < |s| {
      assert s[|a| + c] == if c < |m| then m[c] else b[0];
    }
    CountIs(s, e.key, |a| + c);
    SpliceMiddle(a, m, b, c, e);
  }

  function TakeKids(kids: seq<Dir>, n: nat): seq<Dir> {
    if n <= |kids| then kids[..n] else kids
  }

  function DropKids(kids: seq<Dir>, n: nat): seq<Dir> {
    if n <= |kids| then kids[n..] else []
  }

  /** insertEntry: add an entry, with its subtree above level 0, and split the page in the middle when
      that makes it full. next is the number the file gives its next block. */
  function AddEntry(d: Dir, e: Slot, kid: seq<Dir>, next: nat, g: Geometry): Outcome
    requires 2 <= g.full && d.page.n < |d.page.slots|
  {
    var w := Widened(d, e, kid);
    if w.page.n < g.full then Outcome(w, None, next) else SplitMiddle(w, next)
  }

  /** The node with the entry added, full or not. */
  function Widened(d: Dir, e: Slot, kid: seq<Dir>): Dir
    requires d.page.n < |d.page.slots|
  {
    var c := CountBefore(Live(d.page), e.key);
    Dir(d.blk, Inserted(d.page, c, e), TakeKids(d.kids, c) + kid + DropKids(d.kids, c))
  }

  function SplitMiddle(w: Dir, next: nat): Outcome
    requires 2 <= w.page.n <= |w.page.slots|
  {
    var pos := w.page.n / 2;
    var right := Dir(next, RightPart(w.page, pos, w.page.flag), DropKids(w.kids, pos));
    Outcome(Dir(w.blk, LeftPart(w.page, pos), TakeKids(w.kids, pos)),
            Some(Sibling(Slot(w.page.slots[pos].key, next, 0), right)), next + 1)
  }

  /** What a node does with the outcome of inserting into its i-th child. */
  function Absorb(d: Dir, i: nat, r: Outcome, g: Geometry): Outcome
    requires i < |d.kids| && Roomy(g) && d.page.n < |d.page.slots|
  {
    var d1 := d.(kids := d.kids[i := r.dir]);
    if r.up.None? then Outcome(d1, None, r.next)
    else AddEntry(d1, r.up.value.entry, [r.up.value.dir], r.next, g)
  }

  /** BTreeDir.insert: descend to level 0 and add the entry there; a split on the way back up adds an
      entry one level higher. */
  ghost function InsertDir(d: Dir, e: Slot, next: nat, hi: Bound, g: Geometry): Outcome
    requires Roomy(g) && Shape(d, hi, g) && d.page.n < g.full && d.page.slots[0].key <= e.key
    decreases d
  {
    if d.kids == [] then AddEntry(d, e, [], next, g)
    else
      var i := Route(Live(d.page), e.key);
      Absorb(d, i, InsertDir(d.kids[i], e, next, Top(Live(d.page), i, hi), g), g)
  }

  /** The bound of the left part of an outcome. */
  function LeftBound(r: Outcome, hi: Bound): Bound {
    if r.up.None? then hi else Upto(r.up.value.entry.key)
  }

  /** An outcome of inserting into d: the subtree keeps its block, level and first separator, neither
      part is full, and a new sibling takes over the upper part of the key range. */
  ghost predicate Sound(r: Outcome, d: Dir, hi: Bound, g: Geometry) {
    && Shape(r.dir, LeftBound(r, hi), g) && r.dir.page.n < g.full
    && r.dir.blk == d.blk && r.dir.page.flag == d.page.flag
    && d.page.slots != [] && r.dir.page.slots[0] == d.page.slots[0]
    && (r.up.None? ==> d.page.n <= r.dir.page.n)
    && (r.up.Some? ==>
          var u := r.up.value;
          && Shape(u.dir, hi, g) && u.dir.blk == u.entry.block
          && u.dir.page.flag == d.page.flag
          && g.full / 2 <= u.dir.page.n < g.full && g.full / 2 <= r.dir.page.n
          && u.dir.page.slots[0].key == u.entry.key
          && Under(u.entry.key, hi) && d.page.slots[0].key < u.entry.key)
  }

  lemma LeftPage(w: Page, pos: nat, p: Page, hi: Bound, g: Geometry)
    requires PageShape(w, hi, g) && 1 <= pos < w.n
    requires p.flag == w.flag && p.n == pos && |p.slots| == |w.slots| && Live(p) == Live(w)[..pos]
    ensures PageShape(p, Upto(w.slots[pos].key), g)
    ensures forall i :: 0 <= i < pos ==> Live(p)[i] == Live(w)[i] && Top(Live(p), i, Upto(w.slots[pos].key)) == Top(Live(w), i, hi)
  {
  }

  /** A node with only its first pos entries, under the separator that followed them. */
  lemma {:induction false} LeftShape(w: Dir, pos: nat, p: Page, hi: Bound, g: Geometry)
    requires Shape(w, hi, g) && 1 <= pos < w.page.n
    requires p.flag == w.page.flag && p.n == pos && |p.slots| == |w.page.slots| && Live(p) == Live(w.page)[..pos]
    ensures Shape(Dir(w.blk, p, TakeKids(w.kids, pos)), Upto(w.page.slots[pos].key), g)
  {
    var left := Dir(w.blk, p, TakeKids(w.kids, pos));
    LeftPage(w.page, pos, p, hi, g);
    forall i | 0 <= i < |left.kids|
      ensures KidShape(p, left.kids[i], Live(p)[i], g)
      ensures Shape(left.kids[i], Top(Live(p), i, Upto(w.page.slots[pos].key)), g)
    {
      assert left.kids[i] == w.kids[i];
    }
  }

  lemma {:induction false} RightShape(w: Dir, pos: nat, blk: nat, hi: Bound, g: Geometry)
    requires Shape(w, hi, g) && 1 <= pos < w.page.n
    ensures Shape(Dir(blk, RightPart(w.page, pos, w.page.flag), DropKids(w.kids, pos)), hi, g)
  {
    var s := Live(w.page);
    var right := Dir(blk, RightPart(w.page, pos, w.page.flag), DropKids(w.kids, pos));
    var t := Live(right.page);
    assert t == s[pos..];
    forall i | 0 <= i < |right.kids|
      ensures KidShape(right.page, right.kids[i], t[i], g) && Shape(right.kids[i], Top(t, i, hi), g)
    {
      assert KidShape(w.page, w.kids[pos + i], s[pos + i], g) && Shape(w.kids[pos + i], Top(s, pos + i, hi), g);
    }
  }

  lemma {:induction false} SplitShape(w: Dir, next: nat, hi: Bound, g: Geometry)
    requires Roomy(g) && Shape(w, hi, g) && w.page.n == g.full
    ensures Sound(SplitMiddle(w, next), w, hi, g)
  {
    var pos := w.page.n / 2;
    LeftShape(w, pos, LeftPart(w.page, pos), hi, g);
    RightShape(w, pos, next, hi, g);
    assert LeftPart(w.page, pos).slots[0] == Live(LeftPart(w.page, pos))[0];
    assert RightPart(w.page, pos, w.page.flag).slots[0] == Live(RightPart(w.page, pos, w.page.flag))[0];
  }

  /** Adding a fresh entry to a level-0 page. */
  lemma {:induction false} WidenedLevel0(d: Dir, e: Slot, hi: Bound, g: Geometry)
    requires Shape(d, hi, g) && d.page.n < g.full && d.kids == []
    requires d.page.slots[0].key <= e.key && Under(e.key, hi) && Fresh(Live(d.page), e.key)
    ensures var w := Widened(d, e, []);
      Shape(w, hi, g) && w.page.slots[0] == d.page.slots[0]
  {
    var c := CountBefore(Live(d.page), e.key);
    var w := Widened(d, e, []);
    assert Live(w.page) == Live(d.page)[..c] + [e] + Live(d.page)[c..];
    assert w.page.slots[0] == Live(w.page)[0];
  }

  lemma {:induction false} ShapePage(d: Dir, hi: Bound, g: Geometry)
    requires Shape(d, hi, g)
    ensures PageShape(d.page, hi, g)
  {
  }

  /** A new sibling's entry goes right behind the entry of the child it split from. */
  lemma {:induction false} SiblingSlot(d: Dir, i: nat, r: Outcome, hi: Bound, g: Geometry)
    requires Shape(d, hi, g) && i < |d.kids| && r.up.Some?
    requires Sound(r, d.kids[i], Top(Live(d.page), i, hi), g)
    ensures CountBefore(Live(d.page), r.up.value.entry.key) == i + 1
    ensures KidShape(d.page, r.dir, Live(d.page)[i], g) && Shape(r.dir, Upto(r.up.value.entry.key), g)
    ensures KidShape(d.page, r.up.value.dir, r.up.value.entry, g) && Shape(r.up.value.dir, Top(Live(d.page), i, hi), g)
    ensures Live(d.page)[i].key < r.up.value.entry.key && Under(r.up.value.entry.key, Top(Live(d.page), i, hi))
  {
    hide Shape, CountBefore;
    ShapeParts(d, i, hi, g);
    ShapePage(r.dir, Upto(r.up.value.entry.key), g);
    ShapePage(r.up.value.dir, Top(Live(d.page), i, hi), g);
    var key, s := r.up.value.entry.key, Live(d.page);
    assert s[i] == d.page.slots[i];
    KeysAround(s, i, key, hi);
  }

  /** A key between an entry and the next one. */
  lemma {:induction false} KeysAround(s: seq<Slot>, i: nat, key: Key, hi: Bound)
    requires Sorted(s) && i < |s| && s[i].key < key && Under(key, Top(s, i, hi))
    ensures CountBefore(s, key) == i + 1
  {
    hide CountBefore;
    forall j | 0 <= j <= i ensures s[j].key < key {
      assert j == i || s[j].key < s[i].key;
    }
    CountIs(s, key, i + 1);
  }

  /** Where the elements of a sequence go when x is put behind the i-th. */
  lemma SpliceIndex<T>(s: seq<T>, i: nat, x: T, t: seq<T>)
    requires i < |s| && t == s[..i + 1] + [x] + s[i + 1..]
    ensures |t| == |s| + 1 && t[i + 1] == x
    ensures forall j :: 0 <= j <= i ==> t[j] == s[j]
    ensures forall j :: i + 1 < j < |t| ==> t[j] == s[j - 1]
  {
  }

  /** The i-th kid is replaced by l, and r comes behind it. */
  lemma SpliceKids(s: seq<Dir>, i: nat, l: Dir, r: Dir, t: seq<Dir>)
    requires i < |s| && t == s[..i] + [l, r] + s[i + 1..]
    ensures |t| == |s| + 1 && t[i] == l && t[i + 1] == r
    ensures forall j :: 0 <= j < i ==> t[j] == s[j]
    ensures forall j :: i + 1 < j < |t| ==> t[j] == s[j - 1]
  {
  }

  lemma SortedSplice(s: seq<Slot>, i: nat, e: Slot, t: seq<Slot>, hi: Bound)
    requires Sorted(s) && i < |s| && t == s[..i + 1] + [e] + s[i + 1..]
    requires s[i].key < e.key && Under(e.key, Top(s, i, hi))
    ensures Sorted(t)
  {
    SpliceIndex(s, i, e, t);
    forall j, k | 0 <= j < k < |t| ensures t[j].key < t[k].key {
      if k == i + 1 {
        assert j == i || s[j].key < s[i].key;
      } else if j == i + 1 {
        assert k == i + 2 || s[i + 1].key < s[k - 1].key;
      }
    }
  }

  lemma WidenedPage(d: Page, i: nat, e: Slot, p: Page, hi: Bound, g: Geometry)
    requires PageShape(d, hi, g) && d.n < g.full && i < d.n
    requires d.slots[i].key < e.key && Under(e.key, Top(Live(d), i, hi))
    requires p.flag == d.flag && p.n == d.n + 1 && |p.slots| == |d.slots|
    requires Live(p) == Live(d)[..i + 1] + [e] + Live(d)[i + 1..]
    ensures PageShape(p, hi, g) && Live(p)[i + 1] == e
    ensures forall j :: 0 <= j <= i ==> Live(p)[j] == Live(d)[j]
    ensures forall j :: 0 <= j < i ==> Top(Live(p), j, hi) == Top(Live(d), j, hi)
    ensures Top(Live(p), i, hi) == Upto(e.key) && Top(Live(p), i + 1, hi) == Top(Live(d), i, hi)
    ensures forall j :: i + 1 < j <= d.n ==> Live(p)[j] == Live(d)[j - 1] && Top(Live(p), j, hi) == Top(Live(d), j - 1, hi)
  {
    SpliceIndex(Live(d), i, e, Live(p));
    SortedSplice(Live(d), i, e, Live(p), hi);
    forall j | 0 <= j < p.n ensures Under(Live(p)[j].key, hi) {
      if j == i + 1 && j < d.n {
        assert Under(Live(d)[j].key, hi);
      }
    }
  }

  /** The i-th child is split: l and u take its place, u under a new entry of page p. */
  ghost predicate SplitKid(d: Dir, i: nat, l: Dir, u: Sibling, p: Page, hi: Bound, g: Geometry)
    requires PageShape(d.page, hi, g) && i < d.page.n
  {
    && KidShape(d.page, l, Live(d.page)[i], g) && Shape(l, Upto(u.entry.key), g)
    && KidShape(d.page, u.dir, u.entry, g) && Shape(u.dir, Top(Live(d.page), i, hi), g)
    && d.page.slots[i].key < u.entry.key && Under(u.entry.key, Top(Live(d.page), i, hi))
    && p.flag == d.page.flag && p.n == d.page.n + 1 && |p.slots| == |d.page.slots|
    && Live(p) == Live(d.page)[..i + 1] + [u.entry] + Live(d.page)[i + 1..]
  }

  lemma {:induction false} KidOf(d: Dir, j: nat, hi: Bound, g: Geometry)
    requires Shape(d, hi, g) && j < |d.kids|
    ensures KidShape(d.page, d.kids[j], Live(d.page)[j], g) && Shape(d.kids[j], Top(Live(d.page), j, hi), g)
  {
  }

  lemma {:induction false} WidenedKid(d: Dir, i: nat, l: Dir, u: Sibling, p: Page, hi: Bound, g: Geometry, j: nat)
    requires Shape(d, hi, g) && d.page.n < g.full && i < |d.kids| && j <= |d.kids|
    requires SplitKid(d, i, l, u, p, hi, g)
    ensures var kid := (d.kids[..i] + [l, u.dir] + d.kids[i + 1..])[j];
      KidShape(p, kid, Live(p)[j], g) && Shape(kid, Top(Live(p), j, hi), g)
  {
    WidenedPage(d.page, i, u.entry, p, hi, g);
    SpliceKids(d.kids, i, l, u.dir, d.kids[..i] + [l, u.dir] + d.kids[i + 1..]);
    if j < i {
      KidOf(d, j, hi, g);
    } else if j > i + 1 {
      KidOf(d, j - 1, hi, g);
    }
  }

  /** Adding a new sibling behind the i-th child, whose key range it shares. */
  lemma {:induction false} WidenedInner(d: Dir, i: nat, l: Dir, u: Sibling, p: Page, hi: Bound, g: Geometry)
    requires Shape(d, hi, g) && d.page.n < g.full && i < |d.kids|
    requires SplitKid(d, i, l, u, p, hi, g)
    ensures Shape(Dir(d.blk, p, d.kids[..i] + [l, u.dir] + d.kids[i + 1..]), hi, g)
  {
    WidenedPage(d.page, i, u.entry, p, hi, g);
    var w := Dir(d.blk, p, d.kids[..i] + [l, u.dir] + d.kids[i + 1..]);
    forall j | 0 <= j < |w.kids|
      ensures KidShape(p, w.kids[j], Live(p)[j], g) && Shape(w.kids[j], Top(Live(p), j, hi), g)
    {
      WidenedKid(d, i, l, u, p, hi, g, j);
    }
  }

  /** Replacing the i-th child by one of the same range. */
  lemma {:induction false} ReplacedKid(d: Dir, i: nat, l: Dir, hi: Bound, g: Geometry)
    requires Shape(d, hi, g) && i < |d.kids|
    requires KidShape(d.page, l, Live(d.page)[i], g) && Shape(l, Top(Live(d.page), i, hi), g)
    ensures Shape(d.(kids := d.kids[i := l]), hi, g)
  {
    var w := d.(kids := d.kids[i := l]);
    forall j | 0 <= j < |w.kids|
      ensures KidShape(d.page, w.kids[j], Live(d.page)[j], g)
      ensures Shape(w.kids[j], Top(Live(d.page), j, hi), g)
    {
      assert w.kids[j] == if j == i then l else d.kids[j];
    }
  }

  lemma {:induction false} AddEntrySound(d: Dir, e: Slot, kid: seq<Dir>, next: nat, hi: Bound, g: Geometry)
    requires Roomy(g) && d.page.n < |d.page.slots| && d.page.n < g.full
    requires Shape(Widened(d, e, kid), hi, g) && Widened(d, e, kid).page.slots[0] == d.page.slots[0]
    ensures Sound(AddEntry(d, e, kid, next, g), d, hi, g)
  {
    var w := Widened(d, e, kid);
    if w.page.n == g.full {
      SplitShape(w, next, hi, g);
    }
  }

  /** A key that is no separator of the kids is none of any one of them. */
  lemma {:induction false} FreshBelow(kids: seq<Dir>, i: nat, key: Key)
    requires i < |kids| && Fresh(Flatten(kids), key)
    ensures Fresh(Entries(kids[i]), key)
  {
    FlattenSplit(kids, i);
    var a, m, b := Flatten(kids[..i]), Entries(kids[i]), Flatten(kids[i + 1..]);
    forall j | 0 <= j < |m| ensures m[j].key != key {
      assert (a + m + b)[|a| + j] == m[j];
    }
  }

  lemma {:induction false} AbsorbSound(d: Dir, i: nat, r: Outcome, hi: Bound, g: Geometry)
    requires Roomy(g) && Shape(d, hi, g) && d.page.n < g.full && i < |d.kids|
    requires Sound(r, d.kids[i], Top(Live(d.page), i, hi), g)
    ensures Sound(Absorb(d, i, r, g), d, hi, g)
  {
    assert KidShape(d.page, d.kids[i], Live(d.page)[i], g);
    var d1 := d.(kids := d.kids[i := r.dir]);
    if r.up.None? {
      ReplacedKid(d, i, r.dir, hi, g);
    } else {
      var u := r.up.value;
      SiblingSlot(d, i, r, hi, g);
      WidenedInner(d, i, r.dir, u, Inserted(d.page, i + 1, u.entry), hi, g);
      WidenedIs(d, i, r.dir, u);
      AddEntrySound(d1, u.entry, [u.dir], r.next, hi, g);
    }
  }

  lemma {:induction false} WidenedIs(d: Dir, i: nat, l: Dir, u: Sibling)
    requires i < |d.kids| == d.page.n < |d.page.slots| && CountBefore(Live(d.page), u.entry.key) == i + 1
    ensures Widened(d.(kids := d.kids[i := l]), u.entry, [u.dir])
         == Dir(d.blk, Inserted(d.page, i + 1, u.entry), d.kids[..i] + [l, u.dir] + d.kids[i + 1..])
    ensures Inserted(d.page, i + 1, u.entry).slots[0] == d.page.slots[0]
  {
    var k := d.kids[i := l];
    assert k[..i + 1] + [u.dir] + k[i + 1..] == d.kids[..i] + [l, u.dir] + d.kids[i + 1..];
    var p := Inserted(d.page, i + 1, u.entry);
    assert Live(p)[0] == Live(d.page)[0];
  }

  /** Inserting a fresh separator keeps the shape of the directory: no page is left full, half-filled
      pages stay half filled, and a split hands a well-formed sibling to the parent. */
  lemma {:induction false} InsertSound(d: Dir, e: Slot, next: nat, hi: Bound, g: Geometry)
    requires Roomy(g) && Shape(d, hi, g) && d.page.n < g.full
    requires d.page.slots[0].key <= e.key && Under(e.key, hi) && Fresh(Entries(d), e.key)
    ensures Sound(InsertDir(d, e, next, hi, g), d, hi, g)
    decreases d
  {
    if d.kids == [] {
      WidenedLevel0(d, e, hi, g);
      AddEntrySound(d, e, [], next, hi, g);
    } else {
      var i := Route(Live(d.page), e.key);
      var top := Top(Live(d.page), i, hi);
      FreshBelow(d.kids, i, e.key);
      InsertSound(d.kids[i], e, next, top, g);
      AbsorbSound(d, i, InsertDir(d.kids[i], e, next, top, g), hi, g);
    }
  }

  ghost function OutcomeEntries(r: Outcome): seq<Slot> {
    if r.up.None? then Entries(r.dir) else Entries(r.dir) + Entries(r.up.value.dir)
  }

  lemma {:induction false} AddEntryEntries(d: Dir, e: Slot, kid: seq<Dir>, next: nat, g: Geometry)
    requires Roomy(g) && d.page.n < |d.page.slots|
    requires var w := Widened(d, e, kid); w.kids == [] || |w.kids| == w.page.n
    ensures OutcomeEntries(AddEntry(d, e, kid, next, g)) == Entries(Widened(d, e, kid))
  {
    hide Inserted, CountBefore, SplitMiddle, Entries, Live;
    var w := Widened(d, e, kid);
    if w.page.n >= g.full {
      SplitEntries(w, next);
    }
  }

  lemma {:induction false} SplitEntries(w: Dir, next: nat)
    requires 2 <= w.page.n <= |w.page.slots| && (w.kids == [] || |w.kids| == w.page.n)
    ensures OutcomeEntries(SplitMiddle(w, next)) == Entries(w)
  {
    hide Flatten, LeftPart, RightPart;
    var pos, r := w.page.n / 2, SplitMiddle(w, next);
    if w.kids == [] {
      assert Live(r.dir.page) + Live(r.up.value.dir.page) == Live(w.page);
    } else {
      hide Live;
      FlattenConcat(w.kids[..pos], w.kids[pos..]);
      assert w.kids[..pos] + w.kids[pos..] == w.kids;
    }
  }

  lemma {:induction false} FlattenTwo(a: seq<Dir>, l: Dir, r: Dir, b: seq<Dir>)
    ensures Flatten(a + [l, r] + b) == Flatten(a) + (Entries(l) + Entries(r)) + Flatten(b)
  {
    assert a + [l, r] + b == a + ([l] + ([r] + b));
    FlattenConcat(a, [l] + ([r] + b));
    FlattenCons(l, [r] + b);
    FlattenCons(r, b);
  }

  lemma {:induction false} FlattenOne(a: seq<Dir>, l: Dir, b: seq<Dir>)
    ensures Flatten(a + [l] + b) == Flatten(a) + Entries(l) + Flatten(b)
  {
    assert a + [l] + b == a + ([l] + b);
    FlattenConcat(a, [l] + b);
    FlattenCons(l, b);
  }

  lemma {:induction false} AbsorbSibling(d: Dir, i: nat, r: Outcome, g: Geometry)
    requires Roomy(g) && i < |d.kids| == d.page.n < |d.page.slots| && r.up.Some?
    requires CountBefore(Live(d.page), r.up.value.entry.key) == i + 1
    ensures OutcomeEntries(Absorb(d, i, r, g))
         == Flatten(d.kids[..i]) + (Entries(r.dir) + Entries(r.up.value.dir)) + Flatten(d.kids[i + 1..])
  {
    var u, d1 := r.up.value, d.(kids := d.kids[i := r.dir]);
    WidenedIs(d, i, r.dir, u);
    AddEntryEntries(d1, u.entry, [u.dir], r.next, g);
    assert Widened(d1, u.entry, [u.dir]).kids != [];
    FlattenTwo(d.kids[..i], r.dir, u.dir, d.kids[i + 1..]);
  }

  /** Absorbing an outcome puts its entries where the i-th child's entries were. */
  lemma {:induction false} AbsorbEntries(d: Dir, i: nat, r: Outcome, hi: Bound, g: Geometry)
    requires Roomy(g) && Shape(d, hi, g) && d.page.n < g.full && i < |d.kids|
    requires Sound(r, d.kids[i], Top(Live(d.page), i, hi), g)
    ensures OutcomeEntries(Absorb(d, i, r, g)) == Flatten(d.kids[..i]) + OutcomeEntries(r) + Flatten(d.kids[i + 1..])
  {
    var a, b := d.kids[..i], d.kids[i + 1..];
    if r.up.None? {
      assert d.kids[i := r.dir] == a + [r.dir] + b;
      FlattenOne(a, r.dir, b);
    } else {
      SiblingSlot(d, i, r, hi, g);
      AbsorbSibling(d, i, r, g);
    }
  }

  lemma {:induction false} InsertSpliced(d: Dir, i: nat, e: Slot, hi: Bound, g: Geometry)
    requires Shape(d, hi, g) && i < |d.kids|
    requires d.page.slots[i].key <= e.key && Under(e.key, Top(Live(d.page), i, hi))
    requires Fresh(Entries(d.kids[i]), e.key)
    ensures InsertSorted(Entries(d), e)
         == Flatten(d.kids[..i]) + InsertSorted(Entries(d.kids[i]), e) + Flatten(d.kids[i + 1..])
  {
    HeadUnder(d, i, hi, g);
    FlattenSplit(d.kids, i);
    if i + 1 < |d.kids| {
      TailSorted(d, i + 1, hi, g);
    }
    InsertInMiddle(Flatten(d.kids[..i]), Entries(d.kids[i]), Flatten(d.kids[i + 1..]), e);
  }

  /** What insert means: the sorted entry list gets the new entry at its place and nothing else
      changes, however far the split propagates. */
  lemma {:induction false} InsertEntries(d: Dir, e: Slot, next: nat, hi: Bound, g: Geometry)
    requires Roomy(g) && Shape(d, hi, g) && d.page.n < g.full
    requires d.page.slots[0].key <= e.key && Under(e.key, hi) && Fresh(Entries(d), e.key)
    ensures OutcomeEntries(InsertDir(d, e, next, hi, g)) == InsertSorted(Entries(d), e)
    decreases d
  {
    if d.kids == [] {
      AddEntryEntries(d, e, [], next, g);
    } else {
      var i := Route(Live(d.page), e.key);
      var top := Top(Live(d.page), i, hi);
      KidOf(d, i, hi, g);
      FreshBelow(d.kids, i, e.key);
      InsertEntries(d.kids[i], e, next, top, g);
      InsertSound(d.kids[i], e, next, top, g);
      AbsorbEntries(d, i, InsertDir(d.kids[i], e, next, top, g), hi, g);
      InsertSpliced(d, i, e, hi, g);
    }
  }

  // ----- The root -----

  /** A whole directory: every key is covered and the root is not full at rest. */
  ghost predicate RootShape(d: Dir, g: Geometry) {
    && Shape(d, NoBound, g) && d.page.n < g.full
    && (d.page.flag > 0 ==> 2 <= d.page.n)
  }

  /** makeNewRoot: the old root's page moves to a new block and the root keeps its own block with the
      two entries one level up. */
  function NewRoot(d: Dir, u: Sibling, next: nat): Dir
    requires 1 <= d.page.n <= |d.page.slots| && 2 <= |d.page.slots|
  {
    var first := Slot(d.page.slots[0].key, next, 0);
    var p1 := Inserted(LeftPart(d.page, 0), 0, first);
    var p2 := Inserted(p1, CountBefore(Live(p1), u.entry.key), u.entry);
    Dir(d.blk, p2.(flag := d.page.flag + 1), [Dir(next, RightPart(d.page, 0, d.page.flag), d.kids), u.dir])
  }

  /** The whole insertion of a directory entry, as BTreeIndex.insert runs it on the root. */
  ghost function InsertRoot(d: Dir, e: Slot, next: nat, g: Geometry): (r: Dir)
    requires Roomy(g) && RootShape(d, g) && d.page.slots[0].key <= e.key && Fresh(Entries(d), e.key)
  {
    InsertSound(d, e, next, NoBound, g);
    var r := InsertDir(d, e, next, NoBound, g);
    if r.up.None? then r.dir else NewRoot(r.dir, r.up.value, r.next)
  }

  /** How many blocks the directory file has after that, when it had next. */
  ghost function InsertRootSize(d: Dir, e: Slot, next: nat, g: Geometry): nat
    requires Roomy(g) && RootShape(d, g) && d.page.slots[0].key <= e.key
  {
    var r := InsertDir(d, e, next, NoBound, g);
    if r.up.None? then r.next else r.next + 1
  }

  lemma {:induction false} MovedShape(d: Dir, p: Page, blk: nat, hi: Bound, g: Geometry)
    requires Shape(d, hi, g)
    requires p.flag == d.page.flag && p.n == d.page.n && |p.slots| == |d.page.slots| && Live(p) == Live(d.page)
    ensures Shape(Dir(blk, p, d.kids), hi, g) && Entries(Dir(blk, p, d.kids)) == Entries(d)
    ensures p.slots[0] == d.page.slots[0]
  {
    assert Live(p)[0] == Live(d.page)[0];
    var w := Dir(blk, p, d.kids);
    forall i | 0 <= i < |w.kids|
      ensures KidShape(p, w.kids[i], Live(p)[i], g) && Shape(w.kids[i], Top(Live(p), i, hi), g)
    {
      KidOf(d, i, hi, g);
    }
  }

  lemma {:induction false} NewRootPage(p: Page, u: Slot, next: nat)
    requires 1 <= p.n <= |p.slots| && 2 <= |p.slots| && p.slots[0].key < u.key
    ensures var first := Slot(p.slots[0].key, next, 0);
      var p1 := Inserted(LeftPart(p, 0), 0, first);
      var p2 := Inserted(p1, CountBefore(Live(p1), u.key), u);
      Live(p2) == [first, u] && p2.n == 2 && |p2.slots| == |p.slots|
  {
    var first := Slot(p.slots[0].key, next, 0);
    var p1 := Inserted(LeftPart(p, 0), 0, first);
    assert Live(p1) == [first];
    assert CountBefore(Live(p1), u.key) == 1;
  }

  /** A root page with two entries over two subtrees that divide the keys. */
  lemma {:induction false} TwoKids(w: Dir, a: Slot, u: Slot, g: Geometry)
    requires Roomy(g) && PageShape(w.page, NoBound, g) && w.page.flag > 0 && Live(w.page) == [a, u] && |w.kids| == 2
    requires KidShape(w.page, w.kids[0], a, g) && Shape(w.kids[0], Upto(u.key), g)
    requires KidShape(w.page, w.kids[1], u, g) && Shape(w.kids[1], NoBound, g)
    ensures RootShape(w, g) && Entries(w) == Entries(w.kids[0]) + Entries(w.kids[1])
  {
    forall i | 0 <= i < |w.kids|
      ensures KidShape(w.page, w.kids[i], Live(w.page)[i], g) && Shape(w.kids[i], Top(Live(w.page), i, NoBound), g)
    {
      assert i == 0 || i == 1;
    }
    FlattenTwo([], w.kids[0], w.kids[1], []);
    assert [] + [w.kids[0], w.kids[1]] + [] == w.kids;
  }

  lemma {:induction false} NewRootSound(r: Outcome, d: Dir, g: Geometry)
    requires Roomy(g) && Sound(r, d, NoBound, g) && r.up.Some?
    ensures var w := NewRoot(r.dir, r.up.value, r.next);
      && RootShape(w, g) && w.blk == d.blk && Entries(w) == OutcomeEntries(r)
      && w.page.slots[0].key == d.page.slots[0].key
  {
    var u, w := r.up.value, NewRoot(r.dir, r.up.value, r.next);
    var a := Slot(r.dir.page.slots[0].key, r.next, 0);
    NewRootPage(r.dir.page, u.entry, r.next);
    assert Live(w.page) == [a, u.entry] && w.page.slots[0] == Live(w.page)[0];
    MovedShape(r.dir, RightPart(r.dir.page, 0, r.dir.page.flag), r.next, LeftBound(r, NoBound), g);
    TwoKids(w, a, u.entry, g);
  }

  /** Every insertion of a fresh entry keeps the directory well formed, in the same root block, and
      adds exactly that entry to the sorted list it stands for. */
  lemma {:induction false} InsertRootCorrect(d: Dir, e: Slot, next: nat, g: Geometry)
    requires Roomy(g) && RootShape(d, g) && d.page.slots[0].key <= e.key && Fresh(Entries(d), e.key)
    ensures var w := InsertRoot(d, e, next, g);
      && RootShape(w, g) && w.blk == d.blk && w.page.slots[0].key == d.page.slots[0].key
      && Entries(w) == InsertSorted(Entries(d), e)
  {
    InsertSound(d, e, next, NoBound, g);
    InsertEntries(d, e, next, NoBound, g);
    var r := InsertDir(d, e, next, NoBound, g);
    if r.up.Some? {
      NewRootSound(r, d, g);
    }
  }

  /** A root that has grown is not full exactly when pages are full from three entries on. */
  lemma {:induction false} GrownRoot(r: Outcome, hi: Bound, g: Geometry)
    requires r.up.Some? && Shape(r.dir, LeftBound(r, hi), g) && 2 <= g.cap && r.dir.page.slots[0].key < r.up.value.entry.key
    ensures NewRoot(r.dir, r.up.value, r.next).page.n < g.full <==> 3 <= g.full
  {
    NewRootPage(r.dir.page, r.up.value.entry, r.next);
  }

  /** With pages of two entries already the second insertion into a new directory leaves a full root, and no slot
      for the third. */
  lemma {:induction false} TwoEntryPages(d: Dir, e: Slot, next: nat, g: Geometry) returns (r: Outcome)
    requires g.full == g.cap == 2 && Shape(d, NoBound, g) && d.kids == [] && d.page.n == 1 && d.page.slots[0].key < e.key
    ensures r == AddEntry(d, e, [], next, g) && r.up.Some?
    ensures var w := NewRoot(r.dir, r.up.value, r.next); w.page.n == g.full == |w.page.slots|
  {
    r := AddEntry(d, e, [], next, g);
    var w := Widened(d, e, []);
    assert Live(d.page)[0] == d.page.slots[0];
    assert CountBefore(Live(d.page), e.key) == 1;
    assert Live(w.page) == [d.page.slots[0], e] && w.page.slots[1] == Live(w.page)[1];
    assert LeftPart(w.page, 1).slots[0] == Live(LeftPart(w.page, 1))[0];
    NewRootPage(r.dir.page, r.up.value.entry, r.next);
  }

  // ----- Height -----

  function Power(b: nat, n: nat): nat {
    if n == 0 then 1 else b * Power(b, n - 1)
  }

  lemma {:induction false} FlattenSize(kids: seq<Dir>, p: nat)
    requires forall i :: 0 <= i < |kids| ==> p <= |Entries(kids[i])|
    ensures |kids| * p <= |Flatten(kids)|
  {
    if kids != [] {
      FlattenSize(kids[1..], p);
      assert |kids| * p == |kids[1..]| * p + p;
    }
  }

  /** A subtree whose pages are at least half filled has exponentially many leaf blocks. */
  lemma {:induction false} SubtreeSize(d: Dir, hi: Bound, g: Geometry)
    requires Shape(d, hi, g) && g.full / 2 <= d.page.n
    ensures Power(g.full / 2, d.page.flag + 1) <= |Entries(d)|
    decreases d, 1
  {
    var m := g.full / 2;
    if d.kids == [] {
      assert Power(m, 1) == m * Power(m, 0) == m;
    } else {
      KidsSize(d, hi, g);
      MulMono(m, d.page.n, Power(m, d.page.flag));
    }
  }

  lemma {:induction false} KidsSize(d: Dir, hi: Bound, g: Geometry)
    requires Shape(d, hi, g) && d.kids != []
    ensures d.page.n * Power(g.full / 2, d.page.flag) <= |Entries(d)|
    decreases d, 0
  {
    hide Power, Top, Live, Flatten;
    forall i | 0 <= i < |d.kids|
      ensures Power(g.full / 2, d.page.flag) <= |Entries(d.kids[i])|
    {
      KidOf(d, i, hi, g);
      SubtreeSize(d.kids[i], Top(Live(d.page), i, hi), g);
    }
    FlattenSize(d.kids, Power(g.full / 2, d.page.flag));
  }

  /** A root at level L >= 1 has at least 2 * floor(full / 2)^L leaf blocks under it: the height of an
      insert-only index is logarithmic in its leaf blocks. */
  lemma {:induction false} HeightBound(d: Dir, g: Geometry)
    requires RootShape(d, g) && d.page.flag >= 1
    ensures 2 * Power(g.full / 2, d.page.flag) <= |Entries(d)|
  {
    KidsSize(d, NoBound, g);
    MulMono(2, d.page.n, Power(g.full / 2, d.page.flag));
  }

  // ----- The tree in its file -----

  ghost function Blocks(d: Dir): set<nat>
    decreases d, 1
  {
    {d.blk} + BlocksAll(d.kids)
  }

  ghost function BlocksAll(kids: seq<Dir>): set<nat>
    decreases kids, 0
  {
    if kids == [] then {} else Blocks(kids[0]) + BlocksAll(kids[1..])
  }

  /** No block is used twice. */
  ghost predicate Distinct(d: Dir)
    decreases d, 1
  {
    d.blk !in BlocksAll(d.kids) && DistinctAll(d.kids)
  }

  ghost predicate DistinctAll(kids: seq<Dir>)
    decreases kids, 0
  {
    kids != [] ==> Distinct(kids[0]) && Blocks(kids[0]) !! BlocksAll(kids[1..]) && DistinctAll(kids[1..])
  }

  /** Every page of the tree is in the file, at its block. */
  ghost predicate Stored(d: Dir, f: seq<Page>)
    decreases d, 1
  {
    d.blk < |f| && f[d.blk] == d.page && StoredAll(d.kids, f)
  }

  ghost predicate StoredAll(kids: seq<Dir>, f: seq<Page>)
    decreases kids, 0
  {
    kids != [] ==> Stored(kids[0], f) && StoredAll(kids[1..], f)
  }

  lemma {:induction false} ConcatBlocks(a: seq<Dir>, b: seq<Dir>, f: seq<Page>)
    ensures BlocksAll(a + b) == BlocksAll(a) + BlocksAll(b)
    ensures DistinctAll(a + b) <==> DistinctAll(a) && DistinctAll(b) && BlocksAll(a) !! BlocksAll(b)
    ensures StoredAll(a + b, f) <==> StoredAll(a, f) && StoredAll(b, f)
  {
    if a == [] {
      assert a + b == b;
    } else {
      assert (a + b)[1..] == a[1..] + b;
      ConcatBlocks(a[1..], b, f);
    }
  }

  lemma {:induction false} SplitBlocks(kids: seq<Dir>, i: nat, f: seq<Page>)
    requires i < |kids|
    ensures var a, b := kids[..i], kids[i + 1..];
      && BlocksAll(kids) == BlocksAll(a) + Blocks(kids[i]) + BlocksAll(b)
      && (DistinctAll(kids) ==>
            && DistinctAll(a) && Distinct(kids[i]) && DistinctAll(b)
            && BlocksAll(a) !! Blocks(kids[i]) && BlocksAll(a) !! BlocksAll(b) && Blocks(kids[i]) !! BlocksAll(b))
      && (StoredAll(kids, f) ==> StoredAll(a, f) && Stored(kids[i], f) && StoredAll(b, f))
  {
    var a, k, b := kids[..i], kids[i], kids[i + 1..];
    assert kids == a + ([k] + b);
    ConcatBlocks(a, [k] + b, f);
    assert ([k] + b)[1..] == b;
  }

  /** A tree stays stored when only other blocks change. */
  lemma {:induction false} StoredFrame(kids: seq<Dir>, f: seq<Page>, f': seq<Page>)
    requires StoredAll(kids, f)
    requires forall b :: b in BlocksAll(kids) && b < |f| ==> b < |f'| && f'[b] == f[b]
    ensures StoredAll(kids, f')
    ensures forall b :: b in BlocksAll(kids) ==> b < |f|
  {
    if kids != [] {
      var d := kids[0];
      assert d.blk in Blocks(d);
      StoredFrame(d.kids, f, f');
      StoredFrame(kids[1..], f, f');
    }
  }

  /** The one or two subtrees an outcome consists of. */
  function Parts(r: Outcome): seq<Dir> {
    if r.up.None? then [r.dir] else [r.dir, r.up.value.dir]
  }

  /** kids with the i-th replaced by the parts of r. */
  function Spliced(kids: seq<Dir>, i: nat, r: Outcome): seq<Dir>
    requires i < |kids|
  {
    kids[..i] + Parts(r) + kids[i + 1..]
  }

  /** New blocks are numbered from next to r.next; nothing else joins the tree. */
  ghost predicate Grown(r: Outcome, was: set<nat>, next: nat) {
    && next <= r.next && DistinctAll(Parts(r))
    && forall b :: b in BlocksAll(Parts(r)) ==> b in was || next <= b < r.next
  }

  lemma {:induction false} OneBlocks(d: Dir, f: seq<Page>)
    ensures BlocksAll([d]) == Blocks(d)
    ensures DistinctAll([d]) <==> Distinct(d)
    ensures StoredAll([d], f) <==> Stored(d, f)
  {
    assert [d][1..] == [];
  }

  lemma {:induction false} PartsBlocks(r: Outcome, f: seq<Page>)
    ensures BlocksAll(Parts(r)) == Blocks(r.dir) + if r.up.None? then {} else Blocks(r.up.value.dir)
    ensures DistinctAll(Parts(r)) <==> Distinct(r.dir) && (r.up.Some? ==> Distinct(r.up.value.dir) && Blocks(r.dir) !! Blocks(r.up.value.dir))
    ensures StoredAll(Parts(r), f) <==> Stored(r.dir, f) && (r.up.Some? ==> Stored(r.up.value.dir, f))
  {
    OneBlocks(r.dir, f);
    if r.up.Some? {
      var u := r.up.value.dir;
      OneBlocks(u, f);
      ConcatBlocks([r.dir], [u], f);
      assert Parts(r) == [r.dir] + [u];
    }
  }

  /** Dividing a node's kids between it and a new block keeps blocks distinct and stored. */
  lemma {:induction false} DividedBlocks(blk: nat, kids: seq<Dir>, pos: nat, next: nat, f: seq<Page>)
    requires blk !in BlocksAll(kids) && DistinctAll(kids)
    requires next !in BlocksAll(kids) && next != blk
    ensures var a, b := TakeKids(kids, pos), DropKids(kids, pos);
      && BlocksAll(a) + BlocksAll(b) == BlocksAll(kids) && BlocksAll(a) !! BlocksAll(b)
      && DistinctAll(a) && DistinctAll(b)
      && (StoredAll(kids, f) ==> StoredAll(a, f) && StoredAll(b, f))
  {
    var a, b := TakeKids(kids, pos), DropKids(kids, pos);
    assert a + b == kids;
    ConcatBlocks(a, b, f);
  }

  /** A node around spliced kids, divided or not: what AddEntry makes of the blocks. */
  lemma {:induction false} AddEntryGrown(d: Dir, e: Slot, kid: seq<Dir>, next: nat, g: Geometry, f: seq<Page>)
    requires Roomy(g) && d.page.n < |d.page.slots|
    requires var kids := Widened(d, e, kid).kids;
      && d.blk !in BlocksAll(kids) && DistinctAll(kids) && d.blk < next
      && forall b :: b in BlocksAll(kids) ==> b < next
    ensures var r := AddEntry(d, e, kid, next, g);
      && Grown(r, {d.blk} + BlocksAll(Widened(d, e, kid).kids), next)
      && (StoredAll(Widened(d, e, kid).kids, f) ==> StoredAll(r.dir.kids, f) && (r.up.Some? ==> StoredAll(r.up.value.dir.kids, f)))
  {
    var w := Widened(d, e, kid);
    var r := AddEntry(d, e, kid, next, g);
    PartsBlocks(r, f);
    if r.up.Some? {
      DividedBlocks(d.blk, w.kids, w.page.n / 2, next, f);
    }
  }

  /** Splicing grown parts into the kids of a node. */
  lemma {:induction false} SplicedGrown(d: Dir, i: nat, r: Outcome, next: nat)
    requires Distinct(d) && i < |d.kids| && Grown(r, Blocks(d.kids[i]), next)
    requires forall b :: b in Blocks(d) ==> b < next
    ensures var kids := Spliced(d.kids, i, r);
      && d.blk !in BlocksAll(kids) && DistinctAll(kids)
      && forall b :: b in BlocksAll(kids) ==> b in Blocks(d) || next <= b < r.next
  {
    var a, b := d.kids[..i], d.kids[i + 1..];
    assert d.blk in Blocks(d) && BlocksAll(d.kids) <= Blocks(d);
    SplitBlocks(d.kids, i, []);
    ConcatBlocks(a, Parts(r), []);
    ConcatBlocks(a + Parts(r), b, []);
  }

  lemma {:induction false} AbsorbGrown(d: Dir, i: nat, r: Outcome, next: nat, hi: Bound, g: Geometry)
    requires Roomy(g) && Shape(d, hi, g) && d.page.n < g.full && i < |d.kids|
    requires Sound(r, d.kids[i], Top(Live(d.page), i, hi), g)
    requires Distinct(d) && Grown(r, Blocks(d.kids[i]), next)
    requires forall b :: b in Blocks(d) ==> b < next
    ensures Grown(Absorb(d, i, r, g), Blocks(d), next)
  {
    SplicedGrown(d, i, r, next);
    assert d.blk in Blocks(d);
    if r.up.None? {
      AbsorbGrownNone(d, i, r, next, g);
    } else {
      SiblingSlot(d, i, r, hi, g);
      AbsorbGrownSome(d, i, r, next, g);
    }
  }

  lemma {:induction false} AbsorbGrownNone(d: Dir, i: nat, r: Outcome, next: nat, g: Geometry)
    requires Roomy(g) && i < |d.kids| && d.page.n < |d.page.slots| && r.up.None? && next <= r.next
    requires var kids := Spliced(d.kids, i, r);
      d.blk !in BlocksAll(kids) && DistinctAll(kids) && forall b :: b in BlocksAll(kids) ==> b in Blocks(d) || next <= b < r.next
    requires d.blk in Blocks(d)
    ensures Grown(Absorb(d, i, r, g), Blocks(d), next)
  {
    assert d.kids[i := r.dir] == Spliced(d.kids, i, r);
    PartsBlocks(Absorb(d, i, r, g), []);
  }

  lemma {:induction false} AbsorbGrownSome(d: Dir, i: nat, r: Outcome, next: nat, g: Geometry)
    requires Roomy(g) && i < |d.kids| == d.page.n < |d.page.slots| && r.up.Some? && next <= r.next
    requires CountBefore(Live(d.page), r.up.value.entry.key) == i + 1
    requires var kids := Spliced(d.kids, i, r);
      d.blk !in BlocksAll(kids) && DistinctAll(kids) && forall b :: b in BlocksAll(kids) ==> b in Blocks(d) || next <= b < r.next
    requires d.blk in Blocks(d) && forall b :: b in Blocks(d) ==> b < next
    ensures Grown(Absorb(d, i, r, g), Blocks(d), next)
  {
    var u := r.up.value;
    WidenedIs(d, i, r.dir, u);
    AddEntryGrown(d.(kids := d.kids[i := r.dir]), u.entry, [u.dir], r.next, g, []);
  }

  /** Insertion shares no block: the tree's blocks stay distinct, and the only ones that join are those
      the file appended. */
  lemma {:induction false} InsertGrown(d: Dir, e: Slot, next: nat, hi: Bound, g: Geometry)
    requires Roomy(g) && Shape(d, hi, g) && d.page.n < g.full
    requires d.page.slots[0].key <= e.key && Under(e.key, hi) && Fresh(Entries(d), e.key)
    requires Distinct(d) && forall b :: b in Blocks(d) ==> b < next
    ensures Grown(InsertDir(d, e, next, hi, g), Blocks(d), next)
    decreases d
  {
    if d.kids == [] {
      assert d.blk in Blocks(d);
      AddEntryGrown(d, e, [], next, g, []);
    } else {
      var i := Route(Live(d.page), e.key);
      var top := Top(Live(d.page), i, hi);
      KidOf(d, i, hi, g);
      FreshBelow(d.kids, i, e.key);
      assert BlocksAll(d.kids) <= Blocks(d);
      SplitBlocks(d.kids, i, []);
      InsertGrown(d.kids[i], e, next, top, g);
      InsertSound(d.kids[i], e, next, top, g);
      AbsorbGrown(d, i, InsertDir(d.kids[i], e, next, top, g), next, hi, g);
    }
  }

  /** After the i-th child's insertion changed only its own blocks and appended new ones, the spliced
      kids are stored. */
  lemma {:induction false} SplicedStored(d: Dir, i: nat, r: Outcome, f: seq<Page>, f': seq<Page>)
    requires Distinct(d) && i < |d.kids| && Stored(d, f) && |f| <= |f'|
    requires StoredAll(Parts(r), f')
    requires forall b :: 0 <= b < |f| && b !in Blocks(d.kids[i]) ==> f'[b] == f[b]
    ensures StoredAll(Spliced(d.kids, i, r), f') && d.blk < |f| && f'[d.blk] == d.page
  {
    var a, b := d.kids[..i], d.kids[i + 1..];
    SplitBlocks(d.kids, i, f);
    StoredFrame(a, f, f');
    StoredFrame(b, f, f');
    ConcatBlocks(a, Parts(r), f');
    ConcatBlocks(a + Parts(r), b, f');
  }

  /** insertEntry on the page of one block, whatever hangs below it. */
  function PageOutcome(f: seq<Page>, blk: nat, e: Slot, g: Geometry): Outcome
    requires blk < |f| && Roomy(g) && f[blk].n < |f[blk].slots|
  {
    AddEntry(Dir(blk, f[blk], []), e, [], |f|, g)
  }

  function PagesAfter(f: seq<Page>, blk: nat, e: Slot, g: Geometry): seq<Page>
    requires blk < |f| && Roomy(g) && f[blk].n < |f[blk].slots|
  {
    var r := PageOutcome(f, blk, e, g);
    f[blk := r.dir.page] + if r.up.None? then [] else [r.up.value.dir.page]
  }

  /** The parts of an added entry are stored once its one or two pages are written. */
  lemma {:induction false} AddEntryStored(d: Dir, e: Slot, kid: seq<Dir>, g: Geometry, f: seq<Page>)
    requires Roomy(g) && d.page.n < |d.page.slots| && d.blk < |f| && f[d.blk] == d.page
    requires var kids := Widened(d, e, kid).kids;
      d.blk !in BlocksAll(kids) && DistinctAll(kids) && StoredAll(kids, f)
    ensures var r := AddEntry(d, e, kid, |f|, g);
      && StoredAll(Parts(r), PagesAfter(f, d.blk, e, g)) && |PagesAfter(f, d.blk, e, g)| == r.next
      && (r.up.Some? <==> PageOutcome(f, d.blk, e, g).up.Some?)
      && (r.up.Some? ==> r.up.value.entry == PageOutcome(f, d.blk, e, g).up.value.entry)
  {
    hide AddEntry, PageOutcome, BlocksAll, DistinctAll, StoredAll, Inserted, CountBefore, Grown;
    SamePages(d, e, kid, |f|, g);
    var w, r := Widened(d, e, kid), AddEntry(d, e, kid, |f|, g);
    var f' := PagesAfter(f, d.blk, e, g);
    assert PageOutcome(f, d.blk, e, g) == AddEntry(Dir(d.blk, d.page, []), e, [], |f|, g) by {
      PageOutcomeIs(f, d.blk, e, g);
    }
    StoredFrame(w.kids, f, f');
    AddEntryGrown(d, e, kid, |f|, g, f');
    PartsBlocks(r, f');
  }

  lemma {:induction false} PageOutcomeIs(f: seq<Page>, blk: nat, e: Slot, g: Geometry)
    requires blk < |f| && Roomy(g) && f[blk].n < |f[blk].slots|
    ensures PageOutcome(f, blk, e, g) == AddEntry(Dir(blk, f[blk], []), e, [], |f|, g)
  {
    hide AddEntry;
  }

  /** The pages do not depend on the kids. */
  lemma {:induction false} SamePages(d: Dir, e: Slot, kid: seq<Dir>, next: nat, g: Geometry)
    requires 2 <= g.full && d.page.n < |d.page.slots|
    ensures var r, q := AddEntry(d, e, kid, next, g), AddEntry(Dir(d.blk, d.page, []), e, [], next, g);
      && r.dir.blk == d.blk && r.dir.page == q.dir.page && r.next == q.next == (if r.up.None? then next else next + 1)
      && (r.up.Some? <==> q.up.Some?)
      && (r.up.Some? ==> r.up.value.entry == q.up.value.entry && r.up.value.dir.blk == next && r.up.value.dir.page == q.up.value.dir.page)
  {
    hide Inserted, CountBefore, LeftPart, RightPart, Live;
  }

  predicate NewRootOk(r: Outcome) {
    r.up.Some? && 1 <= r.dir.page.n <= |r.dir.page.slots| && 2 <= |r.dir.page.slots|
  }

  function UpEntry(r: Outcome): Option<Slot> {
    if r.up.None? then None else Some(r.up.value.entry)
  }

  /** The file holds the parts of r, and ends where r says. */
  ghost predicate Landed(r: Outcome, f: seq<Page>) {
    StoredAll(Parts(r), f) && |f| == r.next
  }

  /** The i-th child has been replaced by the parts of r in the file, but the page of d does not say so
      yet when there are two of them. */
  ghost predicate Awaiting(d: Dir, i: nat, r: Outcome, f: seq<Page>)
    requires i < |d.kids|
  {
    var d1 := d.(kids := d.kids[i := r.dir]);
    && d.blk < |f| && f[d.blk] == d.page
    && if r.up.None? then StoredAll([d1], f)
       else if d.page.n < |d.page.slots| then
         var w := Widened(d1, r.up.value.entry, [r.up.value.dir]);
         d.blk !in BlocksAll(w.kids) && DistinctAll(w.kids) && StoredAll(w.kids, f)
       else false
  }

  /** What Insert asks of a subtree and an entry. */
  ghost predicate Insertable(d: Dir, e: Slot, hi: Bound, g: Geometry) {
    && Roomy(g) && Shape(d, hi, g) && d.page.n < g.full
    && d.page.slots[0].key <= e.key && Under(e.key, hi) && Fresh(Entries(d), e.key)
  }

  /** The child an entry is routed to is ready for it. */
  lemma {:induction false} Descend(d: Dir, e: Slot, hi: Bound, g: Geometry, f: seq<Page>)
    requires Insertable(d, e, hi, g) && Clean(d, hi, g, e.key) && d.kids != []
    requires Stored(d, f) && Distinct(d)
    ensures var i := Route(Live(d.page), e.key);
      var kid, top := d.kids[i], Top(Live(d.page), i, hi);
      && FindChild(d.page, e.key) == kid.blk && kid.blk < |f|
      && Insertable(kid, e, top, g) && Clean(kid, top, g, e.key) && Stored(kid, f) && Distinct(kid)
      && Blocks(kid) <= Blocks(d) && d.blk !in Blocks(kid)
  {
    var i := Route(Live(d.page), e.key);
    KidOf(d, i, hi, g);
    FreshBelow(d.kids, i, e.key);
    SplitBlocks(d.kids, i, f);
    FindChildExact(d.page, e.key);
  }

  /** The node after its child's insertion: the splice is stored, and what is left to do is to add the
      sibling's entry if there is one. */
  lemma {:induction false} Ascend(d: Dir, i: nat, r: Outcome, hi: Bound, g: Geometry, f: seq<Page>, f': seq<Page>)
    requires Shape(d, hi, g) && d.page.n < g.full && i < |d.kids|
    requires Sound(r, d.kids[i], Top(Live(d.page), i, hi), g) && Grown(r, Blocks(d.kids[i]), |f|)
    requires Stored(d, f) && Distinct(d) && |f| <= |f'|
    requires StoredAll(Parts(r), f')
    requires forall b :: 0 <= b < |f| && b !in Blocks(d.kids[i]) ==> f'[b] == f[b]
    ensures Awaiting(d, i, r, f')
  {
    OneBlocks(d, f);
    BlocksUnder([d], f);
    SplicedStored(d, i, r, f, f');
    SplicedGrown(d, i, r, |f|);
    Awaits(d, i, r, hi, g, f');
  }

  lemma {:induction false} Awaits(d: Dir, i: nat, r: Outcome, hi: Bound, g: Geometry, f: seq<Page>)
    requires Shape(d, hi, g) && d.page.n < g.full && i < |d.kids|
    requires Sound(r, d.kids[i], Top(Live(d.page), i, hi), g)
    requires d.blk < |f| && f[d.blk] == d.page && StoredAll(Spliced(d.kids, i, r), f)
    requires DistinctAll(Spliced(d.kids, i, r)) && d.blk !in BlocksAll(Spliced(d.kids, i, r))
    ensures Awaiting(d, i, r, f)
  {
    if r.up.None? {
      AwaitsNothing(d, i, r, f);
    } else {
      SiblingSlot(d, i, r, hi, g);
      AwaitsSibling(d, i, r, f);
    }
  }

  lemma {:induction false} AwaitsNothing(d: Dir, i: nat, r: Outcome, f: seq<Page>)
    requires i < |d.kids| && r.up.None? && d.blk < |f| && f[d.blk] == d.page && StoredAll(Spliced(d.kids, i, r), f)
    ensures Awaiting(d, i, r, f)
  {
    assert d.kids[i := r.dir] == Spliced(d.kids, i, r);
    OneBlocks(d.(kids := d.kids[i := r.dir]), f);
  }

  lemma {:induction false} AwaitsSibling(d: Dir, i: nat, r: Outcome, f: seq<Page>)
    requires i < |d.kids| == d.page.n < |d.page.slots| && r.up.Some? && CountBefore(Live(d.page), r.up.value.entry.key) == i + 1
    requires d.blk < |f| && f[d.blk] == d.page && StoredAll(Spliced(d.kids, i, r), f)
    requires DistinctAll(Spliced(d.kids, i, r)) && d.blk !in BlocksAll(Spliced(d.kids, i, r))
    ensures Awaiting(d, i, r, f)
  {
    WidenedIs(d, i, r.dir, r.up.value);
  }

  /** What the child's insertion leaves the node with. */
  lemma {:induction false} ChildOutcome(d: Dir, e: Slot, hi: Bound, g: Geometry, f: seq<Page>)
    requires Insertable(d, e, hi, g) && Clean(d, hi, g, e.key) && d.kids != [] && Stored(d, f) && Distinct(d)
    ensures var i := Route(Live(d.page), e.key);
      var top := Top(Live(d.page), i, hi);
      var r := InsertDir(d.kids[i], e, |f|, top, g);
      && Sound(r, d.kids[i], top, g) && Grown(r, Blocks(d.kids[i]), |f|)
      && InsertDir(d, e, |f|, hi, g) == Absorb(d, i, r, g)
  {
    var i := Route(Live(d.page), e.key);
    Descend(d, e, hi, g, f);
    OneBlocks(d.kids[i], f);
    BlocksUnder([d.kids[i]], f);
    InsertSound(d.kids[i], e, |f|, Top(Live(d.page), i, hi), g);
    InsertGrown(d.kids[i], e, |f|, Top(Live(d.page), i, hi), g);
  }

  lemma {:induction false} BlocksUnder(kids: seq<Dir>, f: seq<Page>)
    requires StoredAll(kids, f)
    ensures forall b :: b in BlocksAll(kids) ==> b < |f|
  {
    StoredFrame(kids, f, f);
  }

  /** An entry that leaves the page with room only shifts records. */
  lemma RoomyEntry(f: seq<Page>, blk: nat, e: Slot, g: Geometry)
    requires Roomy(g) && blk < |f| && f[blk].n + 1 < g.full && f[blk].n < |f[blk].slots|
    ensures PagesAfter(f, blk, e, g) == f[blk := Inserted(f[blk], CountBefore(Live(f[blk]), e.key), e)]
    ensures PageOutcome(f, blk, e, g).up.None?
  {
  }

  /** Two entries into the emptied root of a file that has just grown by one block. */
  lemma {:induction false} TwoEntries(f: seq<Page>, blk: nat, p: Page, right: Page, a: Slot, b: Slot, g: Geometry)
    requires Roomy(g) && blk < |f| && p.n == 0 && |p.slots| == g.cap
    ensures var f0 := f[blk := p] + [right];
      var p1 := Inserted(p, 0, a);
      var f1 := f[blk := p1] + [right];
      var p2 := Inserted(p1, CountBefore(Live(p1), b.key), b);
      && PageOutcome(f0, blk, a, g).up.None? && PagesAfter(f0, blk, a, g) == f1
      && PageOutcome(f1, blk, b, g).up.None? && PagesAfter(f1, blk, b, g) == f[blk := p2] + [right]
  {
    var f0 := f[blk := p] + [right];
    assert Live(p) == [];
    RoomyEntry(f0, blk, a, g);
    var p1 := Inserted(p, 0, a);
    var f1 := f[blk := p1] + [right];
    assert f0[blk := p1] == f1;
    RoomyEntry(f1, blk, b, g);
    var p2 := Inserted(p1, CountBefore(Live(p1), b.key), b);
    assert f1[blk := p2] == f[blk := p2] + [right];
  }

  lemma {:induction false} RootParts(r: Outcome, d: Dir, g: Geometry, f: seq<Page>)
    requires Roomy(g) && Sound(r, d, NoBound, g) && DistinctAll(Parts(r)) && Landed(r, f) && r.up.Some?
    ensures r.dir.blk < |f| && f[r.dir.blk] == r.dir.page && 1 <= r.dir.page.n
    ensures NewRoot(r.dir, r.up.value, r.next).page.n == 2
  {
    PartsBlocks(r, f);
    NewRootPage(r.dir.page, r.up.value.entry, r.next);
  }

  lemma {:induction false} RootStored(r: Outcome, d: Dir, g: Geometry, f: seq<Page>, f': seq<Page>)
    requires Roomy(g) && Sound(r, d, NoBound, g) && Landed(r, f) && r.up.Some?
    requires DistinctAll(Parts(r)) && r.dir.blk < |f|
    requires var w := NewRoot(r.dir, r.up.value, r.next);
      f' == f[r.dir.blk := w.page] + [w.kids[0].page]
    ensures Stored(NewRoot(r.dir, r.up.value, r.next), f')
  {
    hide BlocksAll, KidShape, LeftBound, Top, Under;
    PartsBlocks(r, f);
    assert r.dir.blk in Blocks(r.dir);
    hide Sound, Shape;
    var w := NewRoot(r.dir, r.up.value, r.next);
    StoredFrame(r.dir.kids, f, f');
    StoredFrame([r.up.value.dir], f, f');
    OneBlocks(r.up.value.dir, f);
    OneBlocks(r.up.value.dir, f');
    OneBlocks(w.kids[0], f');
    ConcatBlocks([w.kids[0]], [r.up.value.dir], f');
    assert w.kids == [w.kids[0]] + [r.up.value.dir];
  }

  /** The page NewRoot gives the root block, which held p. */
  function RootPage(p: Page, a: Slot, e: Slot): Page
    requires p.n <= |p.slots| && 2 <= |p.slots|
  {
    var p1 := Inserted(LeftPart(p, 0), 0, a);
    Inserted(p1, CountBefore(Live(p1), e.key), e).(flag := p.flag + 1)
  }

  /** The file while makeNewRoot runs: after the split, after each entry, and at the end. */
  lemma NewRootSteps(f: seq<Page>, blk: nat, p: Page, a: Slot, e: Slot, g: Geometry) returns (f0: seq<Page>, f1: seq<Page>, f2: seq<Page>)
    requires Roomy(g) && blk < |f| && f[blk] == p && p.n <= |p.slots| == g.cap
    ensures f0 == f[blk := LeftPart(p, 0)] + [RightPart(p, 0, p.flag)]
    ensures f1 == PagesAfter(f0, blk, a, g) && |f1| == |f0|
    ensures f1[blk].n < g.full && f1[blk].n < |f1[blk].slots|
    ensures f2 == PagesAfter(f1, blk, e, g) && |f2| == |f1| && f2[blk].flag == p.flag
    ensures f2[blk := f2[blk].(flag := p.flag + 1)] == f[blk := RootPage(p, a, e)] + [RightPart(p, 0, p.flag)]
  {
    hide Drained, Filled, Formatted, PageOutcome;
    assert |LeftPart(p, 0).slots| == g.cap && LeftPart(p, 0).n == 0;
    hide PageOutcome;
    var right := RightPart(p, 0, p.flag);
    TwoEntries(f, blk, LeftPart(p, 0), right, a, e, g);
    f0 := f[blk := LeftPart(p, 0)] + [right];
    f1 := PagesAfter(f0, blk, a, g);
    f2 := PagesAfter(f1, blk, e, g);
    var p1 := Inserted(LeftPart(p, 0), 0, a);
    UpdateAppended(f, blk, Inserted(p1, CountBefore(Live(p1), e.key), e), right, RootPage(p, a, e));
  }

  lemma UpdateAppended(f: seq<Page>, b: nat, x: Page, y: Page, z: Page)
    requires b < |f|
    ensures (f[b := x] + [y])[b := z] == f[b := z] + [y] && (f[b := x] + [y])[b] == x
    ensures forall c :: 0 <= c < |f| && c != b ==> (f[b := z] + [y])[c] == f[c]
  {
  }

  lemma {:induction false} RootReady(d: Dir, e: Slot, next: nat, g: Geometry)
    requires RootShape(d, g) && Insertable(d, e, NoBound, g) && Distinct(d) && forall b :: b in Blocks(d) ==> b < next
    ensures var r := InsertDir(d, e, next, NoBound, g);
      && Sound(r, d, NoBound, g) && Grown(r, Blocks(d), next)
      && (r.up.None? ==> Distinct(r.dir))
      && (r.up.Some? ==> Distinct(NewRoot(r.dir, r.up.value, r.next)))
  {
    InsertSound(d, e, next, NoBound, g);
    InsertGrown(d, e, next, NoBound, g);
    var r := InsertDir(d, e, next, NoBound, g);
    PartsBlocks(r, []);
    if r.up.Some? {
      var w := NewRoot(r.dir, r.up.value, r.next);
      assert d.blk in Blocks(d);
      NewRootDistinct(r, w.page, w.kids[0].page);
    }
  }

  lemma {:induction false} BlocksBelow(d: Dir, f: seq<Page>)
    requires Stored(d, f)
    ensures forall b :: b in Blocks(d) ==> b < |f|
  {
    OneBlocks(d, f);
    BlocksUnder([d], f);
  }

  /** Inserting at the root uses no block twice and only blocks of the grown file. */
  lemma {:induction false} InsertRootBlocks(d: Dir, e: Slot, next: nat, g: Geometry)
    requires RootShape(d, g) && Insertable(d, e, NoBound, g) && Distinct(d) && forall b :: b in Blocks(d) ==> b < next
    ensures Distinct(InsertRoot(d, e, next, g))
    ensures forall b :: b in Blocks(InsertRoot(d, e, next, g)) ==> b < InsertRootSize(d, e, next, g)
  {
    RootReady(d, e, next, g);
    var r := InsertDir(d, e, next, NoBound, g);
    PartsBlocks(r, []);
    if r.up.Some? {
      NewRootBlocks(r, NewRoot(r.dir, r.up.value, r.next));
    }
  }

  lemma {:induction false} NewRootBlocks(r: Outcome, w: Dir)
    requires r.up.Some? && w.blk == r.dir.blk && |w.kids| == 2
    requires w.kids[0] == Dir(r.next, w.kids[0].page, r.dir.kids) && w.kids[1] == r.up.value.dir
    requires forall b :: b in BlocksAll(Parts(r)) ==> b < r.next
    ensures forall b :: b in Blocks(w) ==> b <= r.next
  {
    PartsBlocks(r, []);
    assert r.dir.blk in Blocks(r.dir) && BlocksAll(r.dir.kids) <= Blocks(r.dir);
    assert w.kids == [w.kids[0]] + [w.kids[1]];
    ConcatBlocks([w.kids[0]], [w.kids[1]], []);
    OneBlocks(w.kids[0], []);
    OneBlocks(w.kids[1], []);
  }

  lemma {:induction false} NewRootDistinct(r: Outcome, p: Page, q: Page)
    requires r.up.Some? && DistinctAll(Parts(r)) && forall b :: b in BlocksAll(Parts(r)) ==> b < r.next
    ensures Distinct(Dir(r.dir.blk, p, [Dir(r.next, q, r.dir.kids), r.up.value.dir]))
  {
    var k, u := Dir(r.next, q, r.dir.kids), r.up.value.dir;
    PartsBlocks(r, []);
    assert r.dir.blk in Blocks(r.dir) && BlocksAll(r.dir.kids) <= Blocks(r.dir);
    ConcatBlocks([k], [u], []);
    OneBlocks(k, []);
    OneBlocks(u, []);
    assert [k, u] == [k] + [u];
  }

  /** The blocks of the file that serve directory pages of geometry g. */
  ghost predicate Fits(file: BlockFile, g: Geometry)
    reads file
  {
    file.Valid() && Roomy(g) && g.full == file.Limit() && g.cap == Capacity(file.blockSize, file.slotSize)
  }

  // ----- The search as written, page by page -----

  /** The search can ask the page where key belongs. */
  predicate Askable(p: Page, key: Key) {
    1 <= p.n < |p.slots| && p.slots[0].key <= key
  }

  /** The search for key, standing on block blk of the directory file, reads n more pages and ends at leaf. Outside
      the file it ends nowhere. */
  ghost predicate Ends(f: seq<Page>, blk: int, key: Key, n: nat, leaf: int)
    decreases n
  {
    && 0 <= blk < |f| && Askable(f[blk], key)
    && var child := FindChild(f[blk], key);
       if f[blk].flag > 0 then n > 0 && Ends(f, child, key, n - 1, leaf) else n == 0 && leaf == child
  }

  lemma {:induction false} EndsOnce(f: seq<Page>, blk: int, key: Key, m: nat, a: int, n: nat, b: int)
    requires Ends(f, blk, key, m, a) && Ends(f, blk, key, n, b)
    ensures m == n && a == b
    decreases m
  {
    if f[blk].flag > 0 {
      EndsOnce(f, FindChild(f[blk], key), key, m - 1, a, n - 1, b);
    }
  }

  /** The blocks a search for key should read from d on, and the leaf block where it should end. */
  ghost function Way(d: Dir, hi: Bound, g: Geometry, key: Key): (way: seq<int>)
    requires Shape(d, hi, g) && d.page.n < g.full && d.page.slots[0].key <= key
    ensures |way| == d.page.flag + 2 && way[0] == d.blk
  {
    var i := Route(Live(d.page), key);
    if d.kids == [] then [d.blk, Live(d.page)[i].block] else [d.blk] + Way(d.kids[i], Top(Live(d.page), i, hi), g, key)
  }

  /** Each page on the way sends the search to the next block. */
  ghost predicate Takes(f: seq<Page>, way: seq<int>, key: Key) {
    forall i :: 0 <= i < |way| - 1 ==> Sends(f, way[i], key, way[i + 1])
  }

  predicate Sends(f: seq<Page>, blk: int, key: Key, next: int) {
    0 <= blk < |f| && Askable(f[blk], key) && FindChild(f[blk], key) == next
  }

  lemma {:induction false} TakesFirst(f: seq<Page>, blk: int, way: seq<int>, key: Key)
    requires way != []
    ensures Takes(f, [blk] + way, key) <==> Sends(f, blk, key, way[0]) && Takes(f, way, key)
  {
    hide Sends;
    var more := [blk] + way;
    assert more[0] == blk && more[1] == way[0];
    if Takes(f, more, key) {
      forall i | 0 <= i < |way| - 1 ensures Sends(f, way[i], key, way[i + 1]) {
        assert more[i + 1] == way[i] && more[i + 2] == way[i + 1];
      }
    }
  }

  /** One page of the way. */
  lemma {:induction false} WayStep(d: Dir, hi: Bound, g: Geometry, key: Key, f: seq<Page>)
    requires Shape(d, hi, g) && d.page.n < g.full && d.page.slots[0].key <= key && Stored(d, f)
    ensures 1 <= d.page.n < |d.page.slots| && d.blk < |f| && f[d.blk] == d.page && Sorted(Live(d.page)) && Live(d.page)[0].key <= key
    ensures var i := Route(Live(d.page), key);
      && (Sends(f, d.blk, key, Live(d.page)[i].block) <==> !DeadHit(d.page, key))
      && (d.kids == [] <==> d.page.flag == 0) && 0 <= d.page.flag
      && (d.kids != [] ==>
            && i < |d.kids| && Shape(d.kids[i], Top(Live(d.page), i, hi), g) && d.kids[i].page.n < g.full
            && d.kids[i].page.slots[0].key <= key && Stored(d.kids[i], f) && d.kids[i].blk == Live(d.page)[i].block)
  {
    hide FindChild, Route;
    FindChildExact(d.page, key);
    if d.kids != [] {
      var i := Route(Live(d.page), key);
      ShapeParts(d, i, hi, g);
      SplitBlocks(d.kids, i, f);
    }
  }

  /** The search reads the pages it should, and no other, exactly when no dead slot misleads it. */
  lemma {:induction false} WayExact(d: Dir, hi: Bound, g: Geometry, key: Key, f: seq<Page>)
    requires Shape(d, hi, g) && d.page.n < g.full && d.page.slots[0].key <= key && Stored(d, f)
    ensures Takes(f, Way(d, hi, g, key), key) <==> Clean(d, hi, g, key)
  {
    hide Sends, DeadHit, Route, Takes, Stored, Shape;
    WayStep(d, hi, g, key, f);
    var i := Route(Live(d.page), key);
    if d.kids == [] {
      TakesFirst(f, d.blk, [Live(d.page)[i].block], key);
      TakesNothing(f, Live(d.page)[i].block, key);
      assert Way(d, hi, g, key) == [d.blk] + [Live(d.page)[i].block];
    } else {
      WayExact(d.kids[i], Top(Live(d.page), i, hi), g, key, f);
      TakesFirst(f, d.blk, Way(d.kids[i], Top(Live(d.page), i, hi), g, key), key);
    }
  }

  lemma {:induction false} TakesNothing(f: seq<Page>, leaf: int, key: Key)
    ensures Takes(f, [leaf], key)
  {
  }

  /** No page above the last one of the way misleads the search. */
  ghost predicate CleanAbove(d: Dir, hi: Bound, g: Geometry, key: Key)
    requires Shape(d, hi, g) && d.page.n < g.full && d.page.slots[0].key <= key
  {
    d.kids != [] ==> !DeadHit(d.page, key) && var i := Route(Live(d.page), key); CleanAbove(d.kids[i], Top(Live(d.page), i, hi), g, key)
  }

  /** Then the search ends, and it ends at the floor entry's leaf exactly when the last page does not mislead it
      either. */
  lemma {:induction false} SearchExact(d: Dir, hi: Bound, g: Geometry, key: Key, f: seq<Page>) returns (leaf: int)
    requires Shape(d, hi, g) && d.page.n < g.full && d.page.slots[0].key <= key && Under(key, hi) && Stored(d, f)
    requires CleanAbove(d, hi, g, key)
    ensures 0 <= d.page.flag && Ends(f, d.blk, key, d.page.flag, leaf)
    ensures Sorted(Entries(d)) && Entries(d) != [] && Entries(d)[0].key <= key
    ensures leaf == Floor(Entries(d), key).block <==> Clean(d, hi, g, key)
  {
    hide DeadHit, Route, Stored, Shape, FindChild;
    WayStep(d, hi, g, key, f);
    var i := Route(Live(d.page), key);
    if d.kids == [] {
      leaf := FindChild(d.page, key);
      assert Entries(d) == Live(d.page);
    } else {
      hide Floor, Entries;
      FloorStep(d, hi, g, key);
      leaf := SearchExact(d.kids[i], Top(Live(d.page), i, hi), g, key, f);
      KidLevel(d, i, hi, g);
    }
  }

  lemma {:induction false} KidLevel(d: Dir, i: nat, hi: Bound, g: Geometry)
    requires Shape(d, hi, g) && i < |d.kids|
    ensures d.kids[i].page.flag == d.page.flag - 1
  {
  }

  lemma {:induction false} CleanIsAbove(d: Dir, hi: Bound, g: Geometry, key: Key)
    requires Shape(d, hi, g) && d.page.n < g.full && d.page.slots[0].key <= key && Clean(d, hi, g, key)
    ensures CleanAbove(d, hi, g, key)
  {
    hide DeadHit, Route;
    if d.kids != [] {
      var i := Route(Live(d.page), key);
      ShapeParts(d, i, hi, g);
      CleanIsAbove(d.kids[i], Top(Live(d.page), i, hi), g, key);
    }
  }

  /** A cursor on one directory page (src/indexing/BTreeDir.cpp). The ghost parameter d of its methods is
      the subtree under that page. */
  class BTreeDir {
    const file: BlockFile
    var contents: nat

    constructor (file: BlockFile, blk: nat)
      ensures this.file == file && contents == blk
    {
      this.file, contents := file, blk;
    }

    method FindChildBlock(key: Key) returns (child: int)
      requires file.Valid() && contents < |file.blocks|
      requires var p := file.blocks[contents]; 1 <= p.n < |p.slots| && p.slots[0].key <= key
      ensures child == FindChild(file.blocks[contents], key)
    {
      var slot := file.FindSlotBefore(contents, key);
      if file.blocks[contents].slots[slot + 1].key == key {
        slot := slot + 1;
      }
      child := file.blocks[contents].slots[slot].block;
    }

    /** search, wherever it ends: dead slots are followed as the code follows them. */
    method Search(key: Key, ghost n: nat, ghost end: int) returns (leaf: int)
      requires file.Valid() && Ends(file.blocks, contents, key, n, end)
      modifies this
      ensures leaf == end
    {
      hide FindChild;
      ghost var left := n;
      leaf := FindChildBlock(key);
      while file.blocks[contents].flag > 0
        invariant contents < |file.blocks| && Ends(file.blocks, contents, key, left, end)
        invariant leaf == FindChild(file.blocks[contents], key)
        decreases left
      {
        contents := leaf;
        left := left - 1;
        leaf := FindChildBlock(key);
      }
    }

    /** insertEntry, on one page. */
    method InsertEntry(e: Slot, ghost g: Geometry) returns (up: Option<Slot>)
      requires Fits(file, g) && contents < |file.blocks|
      requires file.blocks[contents].n < g.full
      modifies file
      ensures Fits(file, g)
      ensures var r := PageOutcome(old(file.blocks), contents, e, g);
        && up == (if r.up.None? then None else Some(r.up.value.entry))
        && file.blocks == PagesAfter(old(file.blocks), contents, e, g)
    {
      hide Inserted, LeftPart, RightPart, CountBefore, Capacity;
      var slot := file.FindSlotBefore(contents, e.key);
      file.Insert(contents, slot + 1, e);
      var full := file.IsFull(contents);
      if !full {
        return None;
      }
      var level := file.blocks[contents].flag;
      var splitPos := file.blocks[contents].n / 2;
      var splitVal := file.blocks[contents].slots[splitPos].key;
      var newBlk := file.Split(contents, splitPos, level);
      return Some(Slot(splitVal, newBlk, 0));
    }

    /** The descent of insert: the entry goes into the child it is routed to. */
    method InsertBelow(e: Slot, ghost d: Dir, ghost hi: Bound, ghost g: Geometry) returns (newEntry: Option<Slot>, ghost r: Outcome)
      requires Fits(file, g) && Stored(d, file.blocks) && Distinct(d) && contents == d.blk
      requires Insertable(d, e, hi, g) && Clean(d, hi, g, e.key) && d.kids != []
      modifies file
      ensures Fits(file, g) && |old(file.blocks)| <= |file.blocks| == r.next
      ensures InsertDir(d, e, |old(file.blocks)|, hi, g) == Absorb(d, Route(Live(d.page), e.key), r, g)
      ensures newEntry == UpEntry(r)
      ensures Awaiting(d, Route(Live(d.page), e.key), r, file.blocks)
      ensures forall b :: 0 <= b < |old(file.blocks)| && b !in Blocks(d) ==> file.blocks[b] == old(file.blocks[b])
      decreases d, 0
    {
      ghost var f := file.blocks;
      Descend(d, e, hi, g, f);
      ghost var i := Route(Live(d.page), e.key);
      ghost var top := Top(Live(d.page), i, hi);
      var childBlk := FindChildBlock(e.key);
      var child := new BTreeDir(file, childBlk);
      newEntry := child.Insert(e, d.kids[i], top, g);
      r := InsertDir(d.kids[i], e, |f|, top, g);
      ChildOutcome(d, e, hi, g, f);
      Ascend(d, i, r, hi, g, f, file.blocks);
    }

    /** The ascent of insert: a sibling of the i-th child, if there is one, gets an entry here. */
    method AddSibling(newEntry: Option<Slot>, ghost d: Dir, ghost i: nat, ghost r: Outcome, ghost g: Geometry) returns (up: Option<Slot>)
      requires Fits(file, g) && contents == d.blk && |file.blocks| == r.next
      requires i < |d.kids| && d.page.n < g.full && |d.page.slots| == g.cap
      requires newEntry == UpEntry(r) && Awaiting(d, i, r, file.blocks)
      modifies file
      ensures Fits(file, g) && |old(file.blocks)| <= |file.blocks|
      ensures Landed(Absorb(d, i, r, g), file.blocks) && up == UpEntry(Absorb(d, i, r, g))
      ensures forall b :: 0 <= b < |old(file.blocks)| && b != d.blk ==> file.blocks[b] == old(file.blocks[b])
    {
      if newEntry.None? {
        return None;
      }
      ghost var f := file.blocks;
      up := InsertEntry(newEntry.value, g);
      AddEntryStored(d.(kids := d.kids[i := r.dir]), newEntry.value, [r.up.value.dir], g, f);
    }

    /** insert on a level-0 page. */
    method InsertLevel0(e: Slot, ghost d: Dir, ghost g: Geometry) returns (up: Option<Slot>)
      requires Fits(file, g) && Stored(d, file.blocks) && contents == d.blk && d.kids == [] && d.page.n < g.full && |d.page.slots| == g.cap
      modifies file
      ensures Fits(file, g) && |old(file.blocks)| <= |file.blocks|
      ensures var r := AddEntry(d, e, [], |old(file.blocks)|, g);
        Landed(r, file.blocks) && up == UpEntry(r)
      ensures forall b :: 0 <= b < |old(file.blocks)| && b != d.blk ==> file.blocks[b] == old(file.blocks[b])
    {
      ghost var f := file.blocks;
      up := InsertEntry(e, g);
      AddEntryStored(d, e, [], g, f);
    }

    /** insert, down to level 0 and back up through the pages that split. */
    method Insert(e: Slot, ghost d: Dir, ghost hi: Bound, ghost g: Geometry) returns (up: Option<Slot>)
      requires Fits(file, g) && Stored(d, file.blocks) && Distinct(d) && contents == d.blk
      requires Insertable(d, e, hi, g) && Clean(d, hi, g, e.key)
      modifies file
      ensures Fits(file, g) && |old(file.blocks)| <= |file.blocks|
      ensures var r := InsertDir(d, e, |old(file.blocks)|, hi, g);
        Landed(r, file.blocks) && up == UpEntry(r)
      ensures forall b :: 0 <= b < |old(file.blocks)| && b !in Blocks(d) ==> file.blocks[b] == old(file.blocks[b])
      decreases d, 1
    {
      assert d.blk in Blocks(d);
      if file.blocks[contents].flag == 0 {
        up := InsertLevel0(e, d, g);
      } else {
        var newEntry, r := InsertBelow(e, d, hi, g);
        up := AddSibling(newEntry, d, Route(Live(d.page), e.key), r, g);
      }
    }

    /** makeNewRoot, on the root page. */
    method MakeNewRoot(e: Slot, ghost g: Geometry)
      requires Fits(file, g) && contents < |file.blocks| && 1 <= file.blocks[contents].n
      modifies file
      ensures Fits(file, g)
      ensures var f, p := old(file.blocks), old(file.blocks[contents]);
        file.blocks == f[contents := RootPage(p, Slot(p.slots[0].key, |f|, 0), e)] + [RightPart(p, 0, p.flag)]
    {
      hide RootPage, PagesAfter, PageOutcome, LeftPart, RightPart;
      ghost var f, p := file.blocks, file.blocks[contents];
      ghost var f0, f1, f2 := NewRootSteps(f, contents, p, Slot(p.slots[0].key, |f|, 0), e, g);
      var firstVal := file.blocks[contents].slots[0].key;
      var level := file.blocks[contents].flag;
      var newBlk := file.Split(contents, 0, level);
      var none := InsertEntry(Slot(firstVal, newBlk, 0), g);
      none := InsertEntry(e, g);
      file.SetFlag(contents, level + 1);
    }

    /** The root after an insertion below it has returned newEntry. */
    method SettleRoot(newEntry: Option<Slot>, ghost r: Outcome, ghost d: Dir, ghost g: Geometry)
      requires Fits(file, g) && Sound(r, d, NoBound, g) && DistinctAll(Parts(r)) && Landed(r, file.blocks)
      requires newEntry == UpEntry(r) && contents == r.dir.blk
      modifies file
      ensures Fits(file, g)
      ensures if r.up.None? then Stored(r.dir, file.blocks) && |file.blocks| == r.next
              else NewRootOk(r) && Stored(NewRoot(r.dir, r.up.value, r.next), file.blocks) && |file.blocks| == r.next + 1
    {
      ghost var f := file.blocks;
      if newEntry.Some? {
        RootParts(r, d, g, f);
        MakeNewRoot(newEntry.value, g);
        RootStored(r, d, g, f, file.blocks);
      } else {
        OneBlocks(r.dir, f);
      }
    }

    /** What BTreeIndex.insert does with the entry of a new leaf block: insert it below the root, and
        grow the root when that leaves it a sibling. */
    method InsertAtRoot(e: Slot, ghost d: Dir, ghost g: Geometry)
      requires Fits(file, g) && Stored(d, file.blocks) && Distinct(d) && contents == d.blk
      requires RootShape(d, g) && Insertable(d, e, NoBound, g) && Clean(d, NoBound, g, e.key)
      modifies file
      ensures Fits(file, g)
      ensures Stored(InsertRoot(d, e, |old(file.blocks)|, g), file.blocks)
      ensures |file.blocks| == InsertRootSize(d, e, |old(file.blocks)|, g)
    {
      ghost var n := |file.blocks|;
      BlocksBelow(d, file.blocks);
      RootReady(d, e, n, g);
      var newEntry := Insert(e, d, NoBound, g);
      SettleRoot(newEntry, InsertDir(d, e, n, NoBound, g), d, g);
    }
  }
}
