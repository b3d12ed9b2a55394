/** Column values (src/scan/Constant.cpp) and the order the engine compares them in.

    A constant is an integer or a string. Both operands of a comparison come from one column, so they
    are of one kind; comparing an integer with a string dereferences a null pointer in the source.
    The index modules work on the rank of a constant, a real number. RankOrder shows that ranks order
    and identify the constants of one kind exactly as the source's operators do, so results about
    ranks are results about integer keys and about string keys. */
module Constants {

  datatype Constant = IntVal(i: int) | StrVal(s: string)

  predicate SameKind(a: Constant, b: Constant) {
    a.IntVal? == b.IntVal?
  }

  /** Lexicographic order on strings, a proper prefix being smaller. */
  predicate StrLess(s: string, t: string) {
    t != "" && (s == "" || s[0] < t[0] || (s[0] == t[0] && StrLess(s[1..], t[1..])))
  }

  /** operator< on two constants of one kind. */
  predicate Less(a: Constant, b: Constant)
    requires SameKind(a, b)
  {
    match a
    case IntVal(i) => i < b.i
    case StrVal(s) => StrLess(s, b.s)
  }

  /** One more than the number of characters: leaves room for a digit and the end of the string. */
  const RADIX: real := 1114113.0

  function StrRank(s: string): (r: real)
    ensures 0.0 <= r < 1.0
    ensures r == 0.0 <==> s == ""
  {
    if s == "" then 0.0 else ((s[0] as int + 1) as real + StrRank(s[1..])) / RADIX
  }

  function Rank(c: Constant): real {
    match c
    case IntVal(i) => i as real
    case StrVal(s) => StrRank(s)
  }

  lemma {:induction false} StrRankOrder(s: string, t: string)
    ensures StrLess(s, t) <==> StrRank(s) < StrRank(t)
    ensures s == t <==> StrRank(s) == StrRank(t)
  {
    if s != "" && t != "" {
      var a, b := (s[0] as int + 1) as real, (t[0] as int + 1) as real;
      var x, y := StrRank(s[1..]), StrRank(t[1..]);
      assert StrRank(s) * RADIX == a + x && StrRank(t) * RADIX == b + y;
      StrRankOrder(s[1..], t[1..]);
      if s[0] < t[0] {
        assert a + 1.0 <= b;
      } else if t[0] < s[0] {
        assert b + 1.0 <= a;
      } else {
        assert s == [s[0]] + s[1..] && t == [t[0]] + t[1..];
      }
    }
  }

  /** Ranks embed the constants of one kind: the order and equality agree, and the key that starts a
      new index (INT_MIN or the empty string) is below every key of its kind. */
  lemma RankOrder(a: Constant, b: Constant)
    requires SameKind(a, b)
    ensures Less(a, b) <==> Rank(a) < Rank(b)
    ensures a == b <==> Rank(a) == Rank(b)
    ensures b.StrVal? ==> Rank(StrVal("")) <= Rank(b)
    ensures b.IntVal? && b.i >= -0x8000_0000 ==> Rank(IntVal(-0x8000_0000)) <= Rank(b)
  {
    if a.StrVal? {
      StrRankOrder(a.s, b.s);
    }
  }
}
