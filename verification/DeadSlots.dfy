/** What the dead slots of directory pages hold (src/indexing/BTreePage.cpp:31-38 and :175-187,
    src/indexing/BTreeDir.cpp:25-61). Below the root it is the value format leaves, or a key beyond the range of the
    page, so only the root's page can mislead a search for another key. */
module DeadSlots {
  import opened Options
  import opened BTreePages
  import opened BTreeDirectory

  /** No search for a key in the page's range, other than the default, finds its key in a dead slot. */
  predicate DeadOut(p: Page, hi: Bound) {
    p.n <= |p.slots| && forall j :: p.n <= j < |p.slots| ==> p.slots[j].key == DEFAULT.key || !Under(p.slots[j].key, hi)
  }

  /** So it is on every page below d, and on d's own page if own says so. */
  ghost predicate Neat(d: Dir, hi: Bound, own: bool)
    decreases d
  {
    && (own ==> DeadOut(d.page, hi))
    && |d.kids| <= d.page.n <= |d.page.slots|
    && forall i :: 0 <= i < |d.kids| ==> Neat(d.kids[i], Top(Live(d.page), i, hi), true)
  }

  lemma {:induction false} NeatKid(d: Dir, hi: Bound, own: bool, i: nat)
    requires Neat(d, hi, own) && i < |d.kids|
    ensures i < d.page.n <= |d.page.slots| && Neat(d.kids[i], Top(Live(d.page), i, hi), true)
  {
  }

  // ---------------------------------------------------------------- what it means for a search

  /** Below the root no dead slot is hit. */
  lemma {:induction false} NeatClean(d: Dir, hi: Bound, g: Geometry, key: Key)
    requires Shape(d, hi, g) && d.page.n < g.full && d.page.slots[0].key <= key && Under(key, hi)
    requires Neat(d, hi, true) && key != DEFAULT.key
    ensures Clean(d, hi, g, key)
    decreases d, 1
  {
    hide KidShape;
    assert !DeadHit(d.page, key);
    if d.kids != [] {
      KidClean(d, hi, g, key, true);
    }
  }

  lemma {:induction false} KidClean(d: Dir, hi: Bound, g: Geometry, key: Key, own: bool)
    requires Shape(d, hi, g) && d.page.n < g.full && d.page.slots[0].key <= key && Under(key, hi)
    requires Neat(d, hi, own) && key != DEFAULT.key && d.kids != []
    ensures var i := Route(Live(d.page), key);
      && i < |d.kids| && Shape(d.kids[i], Top(Live(d.page), i, hi), g) && d.kids[i].page.n < g.full
      && d.kids[i].page.slots[0].key <= key && Clean(d.kids[i], Top(Live(d.page), i, hi), g, key)
    decreases d, 0
  {
    hide Clean, Neat, Route;
    var i := Route(Live(d.page), key);
    ShapeParts(d, i, hi, g);
    NeatKid(d, hi, own, i);
    NeatClean(d.kids[i], Top(Live(d.page), i, hi), g, key);
  }

  /** So whether a search is misled shows at the root: at most one key can be in its first dead slot. */
  lemma {:induction false} RootDecides(d: Dir, g: Geometry, key: Key)
    requires RootShape(d, g) && d.page.slots[0].key <= key && Neat(d, NoBound, false) && key != DEFAULT.key
    ensures Clean(d, NoBound, g, key) <==> !DeadHit(d.page, key)
  {
    hide KidShape, DeadHit;
    if d.kids != [] {
      KidClean(d, NoBound, g, key, false);
    }
  }

  // ---------------------------------------------------------------- what insertion does to dead slots

  lemma {:induction false} DeadInserted(p: Page, i: nat, r: Slot, hi: Bound)
    requires i <= p.n < |p.slots| && DeadOut(p, hi)
    ensures DeadOut(Inserted(p, i, r), hi)
  {
  }

  /** A split leaves the last record of the page behind, which lies to the right. */
  lemma {:induction false} DeadLeft(p: Page, pos: nat, hi: Bound)
    requires pos < p.n <= |p.slots| && Sorted(Live(p)) && Under(p.slots[pos].key, hi) && DeadOut(p, hi)
    ensures DeadOut(LeftPart(p, pos), Upto(p.slots[pos].key))
  {
    assert p.slots[pos] == Live(p)[pos] && p.slots[p.n - 1] == Live(p)[p.n - 1];
  }

  lemma {:induction false} DeadRight(p: Page, pos: nat, flag: int, hi: Bound)
    requires pos <= p.n <= |p.slots|
    ensures DeadOut(RightPart(p, pos, flag), hi)
  {
  }

  /** An outcome of inserting into a subtree under hi. */
  ghost predicate OutcomeNeat(r: Outcome, hi: Bound, own: bool) {
    && Neat(r.dir, LeftBound(r, hi), own)
    && (r.up.Some? ==> Neat(r.up.value.dir, hi, true))
  }

  lemma {:induction false} LeftNeat(w: Dir, pos: nat, hi: Bound, own: bool)
    requires Neat(w, hi, own) && pos < w.page.n && Sorted(Live(w.page)) && Under(w.page.slots[pos].key, hi)
    requires w.kids == [] || |w.kids| == w.page.n
    ensures Neat(Dir(w.blk, LeftPart(w.page, pos), TakeKids(w.kids, pos)), Upto(w.page.slots[pos].key), own)
  {
    hide DeadOut, LeftPart, Sorted;
    if own {
      DeadLeft(w.page, pos, hi);
    }
    var p := LeftPart(w.page, pos);
    forall i | 0 <= i < |TakeKids(w.kids, pos)| ensures Neat(TakeKids(w.kids, pos)[i], Top(Live(p), i, Upto(w.page.slots[pos].key)), true) {
      NeatKid(w, hi, own, i);
      assert Live(w.page)[pos] == w.page.slots[pos];
      assert Top(Live(p), i, Upto(w.page.slots[pos].key)) == Top(Live(w.page), i, hi);
    }
  }

  lemma {:induction false} RightNeat(w: Dir, pos: nat, next: nat, flag: int, hi: Bound, own: bool)
    requires Neat(w, hi, own) && pos < w.page.n && (w.kids == [] || |w.kids| == w.page.n)
    ensures Neat(Dir(next, RightPart(w.page, pos, flag), DropKids(w.kids, pos)), hi, true)
  {
    hide DeadOut, RightPart;
    DeadRight(w.page, pos, flag, hi);
    var p := RightPart(w.page, pos, flag);
    forall i | 0 <= i < |DropKids(w.kids, pos)| ensures Neat(DropKids(w.kids, pos)[i], Top(Live(p), i, hi), true) {
      NeatKid(w, hi, own, pos + i);
      assert Top(Live(p), i, hi) == Top(Live(w.page), pos + i, hi);
    }
  }

  /** The page with the entry added, cut in two if it is full. */
  lemma {:induction false} AddEntryNeat(d: Dir, e: Slot, kid: seq<Dir>, next: nat, hi: Bound, g: Geometry, own: bool)
    requires Roomy(g) && d.page.n < |d.page.slots|
    requires var w := Widened(d, e, kid);
      && Neat(w, hi, own) && Sorted(Live(w.page)) && (w.kids == [] || |w.kids| == w.page.n)
      && forall i :: 0 <= i < w.page.n ==> Under(Live(w.page)[i].key, hi)
    ensures OutcomeNeat(AddEntry(d, e, kid, next, g), hi, own)
  {
    hide Neat, LeftPart, RightPart, Sorted, Widened;
    var w := Widened(d, e, kid);
    if w.page.n >= g.full {
      NeatSizes(w, hi, own);
      var pos := w.page.n / 2;
      assert w.page.slots[pos] == Live(w.page)[pos];
      LeftNeat(w, pos, hi, own);
      RightNeat(w, pos, next, w.page.flag, hi, own);
    }
  }

  lemma {:induction false} NeatSizes(d: Dir, hi: Bound, own: bool)
    requires Neat(d, hi, own)
    ensures |d.kids| <= d.page.n <= |d.page.slots|
  {
  }

  lemma {:induction false} Level0Neat(d: Dir, e: Slot, next: nat, hi: Bound, g: Geometry, own: bool)
    requires Roomy(g) && Shape(d, hi, g) && d.page.n < g.full && d.kids == []
    requires d.page.slots[0].key <= e.key && Under(e.key, hi) && Fresh(Entries(d), e.key) && Neat(d, hi, own)
    ensures OutcomeNeat(AddEntry(d, e, [], next, g), hi, own)
  {
    hide Inserted, Sorted, AddEntry;
    WidenedLevel0(d, e, hi, g);
    var w := Widened(d, e, []);
    if own {
      DeadInserted(d.page, CountBefore(Live(d.page), e.key), e, hi);
    }
    AddEntryNeat(d, e, [], next, hi, g, own);
  }

  /** The i-th kid is replaced by one under the same bound. */
  lemma {:induction false} ReplacedNeat(d: Dir, i: nat, l: Dir, hi: Bound, own: bool)
    requires Neat(d, hi, own) && i < |d.kids| && Neat(l, Top(Live(d.page), i, hi), true)
    ensures Neat(d.(kids := d.kids[i := l]), hi, own)
  {
    hide DeadOut;
    var w := d.(kids := d.kids[i := l]);
    forall j | 0 <= j < |w.kids| ensures Neat(w.kids[j], Top(Live(w.page), j, hi), true) {
      if j != i {
        NeatKid(d, hi, own, j);
      }
    }
  }

  /** The i-th kid is replaced by two, the second one under a new entry. */
  lemma {:induction false} WidenedNeat(d: Dir, i: nat, l: Dir, u: Sibling, hi: Bound, g: Geometry, own: bool)
    requires Shape(d, hi, g) && d.page.n < g.full && i < |d.kids| && Neat(d, hi, own) && d.page.n < |d.page.slots|
    requires d.page.slots[i].key < u.entry.key && Under(u.entry.key, Top(Live(d.page), i, hi))
    requires Neat(l, Upto(u.entry.key), true) && Neat(u.dir, Top(Live(d.page), i, hi), true)
    ensures var p := Inserted(d.page, i + 1, u.entry);
      PageShape(p, hi, g) && Neat(Dir(d.blk, p, d.kids[..i] + [l, u.dir] + d.kids[i + 1..]), hi, own)
  {
    hide DeadOut, Inserted, KidShape;
    var p, kids := Inserted(d.page, i + 1, u.entry), d.kids[..i] + [l, u.dir] + d.kids[i + 1..];
    if own {
      DeadInserted(d.page, i + 1, u.entry, hi);
    }
    WidenedPage(d.page, i, u.entry, p, hi, g);
    SpliceKids(d.kids, i, l, u.dir, kids);
    hide Live, Top, Shape, PageShape;
    forall j | 0 <= j < |kids| ensures Neat(kids[j], Top(Live(p), j, hi), true) {
      if j < i {
        NeatKid(d, hi, own, j);
      } else if j > i + 1 {
        NeatKid(d, hi, own, j - 1);
      }
    }
  }

  lemma {:induction false} AbsorbNeat(d: Dir, i: nat, r: Outcome, hi: Bound, g: Geometry, own: bool)
    requires Roomy(g) && Shape(d, hi, g) && d.page.n < g.full && i < |d.kids| && Neat(d, hi, own)
    requires Sound(r, d.kids[i], Top(Live(d.page), i, hi), g) && OutcomeNeat(r, Top(Live(d.page), i, hi), true)
    ensures OutcomeNeat(Absorb(d, i, r, g), hi, own)
  {
    hide Neat, Inserted, AddEntry, Shape;
    ShapeParts(d, i, hi, g);
    if r.up.None? {
      ReplacedNeat(d, i, r.dir, hi, own);
    } else {
      var u, d1 := r.up.value, d.(kids := d.kids[i := r.dir]);
      SiblingSlot(d, i, r, hi, g);
      WidenedIs(d, i, r.dir, u);
      WidenedNeat(d, i, r.dir, u, hi, g, own);
      AddEntryNeat(d1, u.entry, [u.dir], r.next, hi, g, own);
    }
  }

  /** Insertion keeps the dead slots below the root harmless. */
  lemma {:induction false} InsertDirNeat(d: Dir, e: Slot, next: nat, hi: Bound, g: Geometry, own: bool)
    requires Roomy(g) && Shape(d, hi, g) && d.page.n < g.full && Neat(d, hi, own)
    requires d.page.slots[0].key <= e.key && Under(e.key, hi) && Fresh(Entries(d), e.key)
    ensures OutcomeNeat(InsertDir(d, e, next, hi, g), hi, own)
    decreases d
  {
    hide Neat, AddEntry, Absorb, OutcomeNeat, Sound, Route, KidShape;
    if d.kids == [] {
      Level0Neat(d, e, next, hi, g, own);
    } else {
      var i := Route(Live(d.page), e.key);
      var top := Top(Live(d.page), i, hi);
      ShapeParts(d, i, hi, g);
      NeatKid(d, hi, own, i);
      FreshBelow(d.kids, i, e.key);
      InsertDirNeat(d.kids[i], e, next, top, g, true);
      InsertSound(d.kids[i], e, next, top, g);
      AbsorbNeat(d, i, InsertDir(d.kids[i], e, next, top, g), hi, g, own);
    }
  }

  /** makeNewRoot writes the old root into a fresh block; what it leaves in its own dead slots is the root's. */
  lemma {:induction false} NewRootNeat(d: Dir, u: Sibling, next: nat)
    requires 1 <= d.page.n <= |d.page.slots| && 2 <= |d.page.slots| && (d.kids == [] || |d.kids| == d.page.n)
    requires d.page.slots[0].key < u.entry.key && Neat(d, Upto(u.entry.key), false) && Neat(u.dir, NoBound, true)
    ensures Neat(NewRoot(d, u, next), NoBound, false)
  {
    hide DeadOut, Inserted, LeftPart, RightPart;
    RightNeat(d, 0, next, d.page.flag, Upto(u.entry.key), false);
    var first := Slot(d.page.slots[0].key, next, 0);
    var p1 := Inserted(LeftPart(d.page, 0), 0, first);
    assert Live(p1) == [first] && CountBefore(Live(p1), u.entry.key) == 1;
    var root := NewRoot(d, u, next);
    assert Live(root.page) == [first, u.entry];
    assert root.kids[0] == Dir(next, RightPart(d.page, 0, d.page.flag), DropKids(d.kids, 0)) && root.kids[1] == u.dir;
  }

  lemma {:induction false} InsertRootNeat(d: Dir, e: Slot, next: nat, g: Geometry)
    requires Roomy(g) && RootShape(d, g) && d.page.slots[0].key <= e.key && Fresh(Entries(d), e.key) && Neat(d, NoBound, false)
    ensures Neat(InsertRoot(d, e, next, g), NoBound, false)
  {
    hide Neat, NewRoot, InsertDir, KidShape;
    InsertDirNeat(d, e, next, NoBound, g, false);
    InsertSound(d, e, next, NoBound, g);
    var r := InsertDir(d, e, next, NoBound, g);
    if r.up.Some? {
      NewRootNeat(r.dir, r.up.value, r.next);
    }
  }
}
