/** What the parser reads conditions as (src/parse/Parser.cpp:12-54, src/parse/StreamTokenizer.cpp). */
module Conditions {
  import opened Options
  import opened Constants
  import opened Predicates
  import opened Tokens
  import opened Printing
  import opened Parsing

  // ---------------------------------------------------------------- numbers

  function Pow10(n: nat): nat {
    if n == 0 then 1 else 10 * Pow10(n - 1)
  }

  lemma {:induction false} DigitsBoth(a: string, b: string)
    ensures AllDigits(a + b) <==> AllDigits(a) && AllDigits(b)
  {
    if AllDigits(a + b) {
      forall i | 0 <= i < |a| ensures IsDigit(a[i]) {
        assert (a + b)[i] == a[i];
      }
      forall i | 0 <= i < |b| ensures IsDigit(b[i]) {
        assert (a + b)[|a| + i] == b[i];
      }
    }
  }

  /** A digit counts as many times ten as there are digits after it. */
  lemma {:induction false} PlaceValue(a: string, b: string)
    requires AllDigits(a) && AllDigits(b)
    ensures AllDigits(a + b) && NatOf(a + b) == NatOf(a) * Pow10(|b|) + NatOf(b)
    decreases |b|
  {
    DigitsBoth(a, b);
    if b == "" {
      assert a + b == a;
    } else {
      var n := |b| - 1;
      PlaceValue(a, b[..n]);
      assert (a + b)[..|a + b| - 1] == a + b[..n];
      LastDigit(NatOf(a), Pow10(n), NatOf(b[..n]), b[n] as int - '0' as int);
    }
  }

  lemma LastDigit(x: nat, y: nat, z: nat, d: int)
    ensures (x * y + z) * 10 + d == x * (10 * y) + (z * 10 + d)
  {
    assert x * y * 10 == x * (10 * y);
  }

  /** A number is read back from its text. */
  lemma {:induction false} NumberBack(n: nat)
    ensures NatOf(ShowNat(n)) == n
  {
    if n >= 10 {
      NumberBack(n / 10);
      var s := ShowNat(n);
      assert s[..|s| - 1] == ShowNat(n / 10);
    } else {
      assert [Digit(n)][..0] == "";
    }
  }

  /** And the text of a number is its digits. */
  lemma {:induction false} NumberDigits(n: nat, d: nat)
    requires d < 10
    ensures ShowNat(d) == [('0' as int + d) as char]
    ensures n > 0 ==> ShowNat(10 * n + d) == ShowNat(n) + ShowNat(d)
  {
    if n > 0 {
      assert (10 * n + d) / 10 == n && (10 * n + d) % 10 == d;
    }
  }

  /** Different numbers have different texts, negative ones too. */
  lemma {:induction false} NumbersApart(i: int, j: int, st: Style)
    requires ShowConstant(IntVal(i), st) == ShowConstant(IntVal(j), st)
    ensures i == j
  {
    var m, n := if i < 0 then -i else i, if j < 0 then -j else j;
    NumberBack(m);
    NumberBack(n);
    assert IsDigit(ShowNat(m)[0]) && IsDigit(ShowNat(n)[0]) && "-"[0] == '-';
    if i < 0 && j < 0 {
      assert ("-" + ShowNat(m))[1..] == ShowNat(m) && ("-" + ShowNat(n))[1..] == ShowNat(n);
    }
  }

  // ---------------------------------------------------------------- sides

  /** A side that can be written so that it is read back: a name, a number that is not negative, or a string without
      separators and capitals. */
  predicate Writable(e: Expression) {
    match e
    case Field(f) => IsName(f)
    case Const(IntVal(i)) => i >= 0
    case Const(StrVal(s)) => NoSeparators(s) && Lower(s) == s
  }

  predicate WritableTerms(p: Predicate) {
    forall i :: 0 <= i < |p| ==> Writable(p[i].lhs) && Writable(p[i].rhs)
  }

  /** The one token of a side. */
  function SideToken(e: Expression): string {
    ShowExpression(e, SPACED)
  }

  lemma {:induction false} NumberToken(n: nat, rest: seq<string>)
    ensures ParseExpression([ShowNat(n)] + rest) == Some(Read(Const(IntVal(n)), rest))
  {
    hide NatOf, Lower;
    NumberBack(n);
    var ts := [ShowNat(n)] + rest;
    assert ts[1..] == rest && Kind(ts) == "NUMBER";
    assert "NUMBER"[0] == 'N';
  }

  lemma {:induction false} LowerQuoted(s: string)
    requires Lower(s) == s
    ensures Lower("'" + s + "'") == "'" + s + "'"
  {
    var q := "'" + s + "'";
    forall i | 0 <= i < |q| ensures ToLower(q[i]) == q[i] {
      if 0 < i < |q| - 1 {
        assert q[i] == s[i - 1] && Lower(s)[i - 1] == ToLower(s[i - 1]);
      }
    }
  }

  lemma {:induction false} StringToken(s: string, rest: seq<string>)
    requires Lower(s) == s
    ensures ParseExpression(["'" + s + "'"] + rest) == Some(Read(Const(StrVal(s)), rest))
  {
    hide NatOf, Lower;
    var q := "'" + s + "'";
    var ts := [q] + rest;
    assert q[0] == '\'' && q[|q| - 1] == '\'' && q[1..|q| - 1] == s && ts[1..] == rest;
    assert !IsDigit(q[0]) && !IsAlnum(q[0]);
    assert !AllDigits(q) && !AllAlnum(q);
    LowerQuoted(s);
  }

  lemma {:induction false} FieldToken(f: string, rest: seq<string>)
    requires IsName(f)
    ensures ParseExpression([f] + rest) == Some(Read(Field(f), rest))
  {
    forall i | 0 <= i < |f| ensures Lower(f)[i] == f[i] {
    }
    assert Lower(f) == f;
    assert ([f] + rest)[1..] == rest;
  }

  /** Truth values are numbers, in capitals or not. */
  lemma {:induction false} TruthToken(w: string, rest: seq<string>)
    requires AllAlnum(w) && !AllDigits(w) && Lower(w) in ["true", "false"]
    ensures ParseExpression([w] + rest) == Some(Read(Const(IntVal(if Lower(w) == "true" then 1 else 0)), rest))
  {
    hide NatOf, Lower;
    assert ([w] + rest)[1..] == rest;
  }

  /** A side is read as what it is. */
  lemma {:induction false} SideRead(e: Expression, rest: seq<string>)
    requires Writable(e)
    ensures ParseExpression([SideToken(e)] + rest) == Some(Read(e, rest))
  {
    hide ParseExpression, ShowNat, Lower, IsName;
    match e
    case Field(f) => FieldToken(f, rest);
    case Const(IntVal(i)) => NumberToken(i, rest);
    case Const(StrVal(s)) => StringToken(s, rest);
  }

  // ---------------------------------------------------------------- conditions

  function TermTokens(t: Term): seq<string> {
    [SideToken(t.lhs), "=", SideToken(t.rhs)]
  }

  /** l = r and l = r ... */
  function AndTokens(p: Predicate): seq<string>
    requires p != []
  {
    if |p| == 1 then TermTokens(p[0]) else TermTokens(p[0]) + ["and"] + AndTokens(p[1..])
  }

  lemma {:induction false} EqualsSign(rest: seq<string>)
    ensures MatchDelimiter(["="] + rest, '=') && (["="] + rest)[1..] == rest
  {
    assert !IsDigit("="[0]) && !IsAlnum("="[0]);
    assert Lower("=") == ['='] + Lower("="[1..]);
  }

  lemma {:induction false} TermRead(t: Term, rest: seq<string>)
    requires Writable(t.lhs) && Writable(t.rhs)
    ensures ParseTerm(TermTokens(t) + rest) == Some(Read(t, rest))
  {
    hide ParseExpression, Kind, Writable, SideToken;
    var l, r := SideToken(t.lhs), SideToken(t.rhs);
    assert TermTokens(t) + rest == [l] + (["="] + ([r] + rest));
    SideRead(t.lhs, ["="] + ([r] + rest));
    EqualsSign([r] + rest);
    SideRead(t.rhs, rest);
  }

  lemma {:induction false} AndToken(rest: seq<string>)
    ensures MatchKeyword(["and"] + rest, "and") && (["and"] + rest)[1..] == rest
  {
    assert !IsDigit("and"[0]);
    var w := "and";
    forall i | 0 <= i < |w| ensures Lower(w)[i] == w[i] {
    }
    assert Lower(w) == w;
  }

  /** The conditions are read as exactly these terms, in order, with their sides. */
  lemma {:induction false} ConditionsRead(p: Predicate, rest: seq<string>)
    requires p != [] && WritableTerms(p) && !MatchKeyword(rest, "and")
    ensures ParsePredicate(AndTokens(p) + rest) == Some(Read(p, rest))
  {
    hide ParseTerm, MatchKeyword, Writable, TermTokens;
    if |p| == 1 {
      TermRead(p[0], rest);
      assert p == [p[0]];
    } else {
      var more := AndTokens(p[1..]) + rest;
      assert AndTokens(p) + rest == TermTokens(p[0]) + (["and"] + more);
      TermRead(p[0], ["and"] + more);
      AndToken(more);
      assert forall i :: 0 <= i < |p| - 1 ==> p[1..][i] == p[i + 1];
      ConditionsRead(p[1..], rest);
      assert p == [p[0]] + p[1..];
    }
  }

  // ---------------------------------------------------------------- their text

  lemma {:induction false} NumberWord(n: nat)
    ensures NoSeparators(ShowNat(n)) && ShowNat(n) != ""
  {
    assert forall k :: 0 <= k < |ShowNat(n)| ==> IsDigit(ShowNat(n)[k]);
  }

  lemma {:induction false} SideLexes(e: Expression)
    requires Writable(e)
    ensures Lexes(ShowExpression(e, SPACED), [SideToken(e)])
  {
    hide Lexes, ShowNat, Lower;
    if e.Const? && e.value.IntVal? {
      NumberWord(e.value.i);
    }
    WordLexes(SideToken(e));
  }

  lemma {:induction false} TermLexes(t: Term)
    requires Writable(t.lhs) && Writable(t.rhs)
    ensures Lexes(ShowTerm(t, SPACED), TermTokens(t))
  {
    hide Lexes, Writable, ShowExpression;
    SideLexes(t.lhs);
    SideLexes(t.rhs);
    WordLexes("=");
    var l, r := ShowExpression(t.lhs, SPACED), ShowExpression(t.rhs, SPACED);
    Spaced("=", ["="], r, [r], "= " + r, ["=", r]);
    Spaced(l, [l], "= " + r, ["=", r], ShowTerm(t, SPACED), TermTokens(t));
  }

  lemma {:induction false} AndAppend(p: Predicate, t: Term)
    requires p != []
    ensures AndTokens(p + [t]) == AndTokens(p) + (["and"] + TermTokens(t))
  {
    hide TermTokens;
    var q := p + [t];
    if |p| == 1 {
      assert q[1..] == [t];
    } else {
      AndAppend(p[1..], t);
      assert q[1..] == p[1..] + [t];
    }
  }

  /** The tokens of conditions written with spaces. */
  lemma {:induction false} ConditionsLex(p: Predicate)
    requires p != [] && WritableTerms(p)
    ensures Lexes(ShowPredicate(p, SPACED), AndTokens(p))
  {
    hide Lexes, Writable, ShowTerm, TermTokens;
    var n := |p| - 1;
    TermLexes(p[n]);
    if n > 0 {
      assert forall i :: 0 <= i < n ==> p[..n][i] == p[i];
      ConditionsLex(p[..n]);
      var a, b := ShowPredicate(p[..n], SPACED), ShowTerm(p[n], SPACED);
      var ta, tb := AndTokens(p[..n]), TermTokens(p[n]);
      WordLexes("and");
      Spaced("and", ["and"], b, tb, "and " + b, ["and"] + tb);
      AndAppend(p[..n], p[n]);
      assert p == p[..n] + [p[n]];
      assert a + " and " + b == a + " " + ("and " + b);
      Spaced(a, ta, "and " + b, ["and"] + tb, ShowPredicate(p, SPACED), AndTokens(p));
    }
  }
}
