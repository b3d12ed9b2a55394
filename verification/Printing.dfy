/** The text of a query (src/parse/QueryData.cpp) and its tokens. */
module Printing {
  import opened Constants
  import opened Predicates
  import opened QueryDatas
  import opened Tokens

  function Digit(d: int): char
    requires 0 <= d < 10
  {
    (d + '0' as int) as char
  }

  function ShowNat(n: nat): (s: string)
    ensures s != "" && AllDigits(s)
  {
    if n < 10 then [Digit(n)] else ShowNat(n / 10) + [Digit(n % 10)]
  }

  /** How conditions are written: what stands between the two sides, and on both sides of a string. */
  datatype Style = Style(equals: string, quote: string)

  /** As the source prints them. */
  const PRINTED := Style("=", "")
  /** As the tokenizer and the parser need them. */
  const SPACED := Style(" = ", "'")

  function ShowConstant(c: Constant, st: Style): string {
    match c
    case IntVal(i) => if i < 0 then "-" + ShowNat(-i) else ShowNat(i)
    case StrVal(s) => st.quote + s + st.quote
  }

  function ShowExpression(e: Expression, st: Style): string {
    match e
    case Const(c) => ShowConstant(c, st)
    case Field(f) => f
  }

  function ShowTerm(t: Term, st: Style): string {
    ShowExpression(t.lhs, st) + st.equals + ShowExpression(t.rhs, st)
  }

  function ShowPredicate(p: Predicate, st: Style): string {
    if p == [] then ""
    else if |p| == 1 then ShowTerm(p[0], st)
    else ShowPredicate(p[..|p| - 1], st) + " and " + ShowTerm(p[|p| - 1], st)
  }

  /** The lists the parser never leaves empty. */
  predicate Printable(q: QueryData) {
    && q.fields != [] && (q.tables != [] || q.subqueries != [])
    && forall i :: 0 <= i < |q.subqueries| ==> Printable(q.subqueries[i])
  }

  function ShowItems(q: QueryData, st: Style): (items: seq<string>)
    requires Printable(q)
    ensures |items| == |q.tables| + |q.subqueries|
    decreases q, 0
  {
    q.tables + seq(|q.subqueries|, i requires 0 <= i < |q.subqueries| => "( " + Show(q.subqueries[i], st) + " )")
  }

  function ShowClause(head: string, fields: seq<string>): string {
    if fields == [] then "" else head + Commas(fields)
  }

  function Show(q: QueryData, st: Style): string
    requires Printable(q)
    decreases q, 1
  {
    "select " + Commas(q.fields) + " from " + Commas(ShowItems(q, st))
    + (if q.pred == [] then "" else " where " + ShowPredicate(q.pred, st))
    + ShowClause(" group by ", q.group) + ShowClause(" order by ", q.sort)
  }

  // ---------------------------------------------------------------- toString

  /** The loop that puts a comma and a space after each name; the last two characters go afterwards. */
  method AppendNames(start: string, names: seq<string>) returns (result: string)
    ensures names == [] ==> result == start
    ensures names != [] ==> result == start + Commas(names) + ", "
  {
    result := start;
    var i := 0;
    while i < |names|
      invariant 0 <= i <= |names| && result == start + Separated(names[..i])
    {
      SeparatedStep(names, i);
      result := result + names[i] + ", ";
      i := i + 1;
    }
    assert names[..i] == names;
    if names != [] {
      SeparatedCommas(names);
    }
  }

  function Separated(names: seq<string>): string {
    if names == [] then "" else names[0] + ", " + Separated(names[1..])
  }

  lemma {:induction false} SeparatedAppend(a: seq<string>, b: seq<string>)
    ensures Separated(a + b) == Separated(a) + Separated(b)
  {
    if a == [] {
      assert a + b == b;
    } else {
      assert (a + b)[1..] == a[1..] + b;
      SeparatedAppend(a[1..], b);
    }
  }

  lemma {:induction false} SeparatedStep(names: seq<string>, i: nat)
    requires i < |names|
    ensures Separated(names[..i + 1]) == Separated(names[..i]) + names[i] + ", "
  {
    assert names[..i + 1] == names[..i] + [names[i]];
    SeparatedAppend(names[..i], [names[i]]);
    assert Separated([names[i]]) == names[i] + ", ";
  }

  lemma {:induction false} SeparatedCommas(names: seq<string>)
    requires names != []
    ensures Separated(names) == Commas(names) + ", "
  {
    if |names| == 1 {
      assert Separated(names[1..]) == "";
    } else {
      SeparatedCommas(names[1..]);
    }
  }

  method PredicateText(p: Predicate) returns (result: string)
    ensures result == ShowPredicate(p, PRINTED)
  {
    result := "";
    var cnt := 0;
    while cnt < |p|
      invariant 0 <= cnt <= |p| && result == ShowPredicate(p[..cnt], PRINTED)
    {
      assert p[..cnt + 1][..cnt] == p[..cnt];
      if cnt == 0 {
        result := result + ShowTerm(p[cnt], PRINTED);
      } else {
        result := result + " and " + ShowTerm(p[cnt], PRINTED);
      }
      cnt := cnt + 1;
    }
    assert p[..cnt] == p;
  }

  lemma {:induction false} PredicateTextEmpty(p: Predicate)
    ensures ShowPredicate(p, PRINTED) == "" <==> p == []
  {
  }

  method AppendClause(start: string, head: string, fields: seq<string>) returns (result: string)
    ensures result == start + ShowClause(head, fields)
  {
    result := start;
    if |fields| > 0 {
      result := AppendNames(result + head, fields);
      result := result[..|result| - 2];
    }
  }

  method ToString(q: QueryData) returns (result: string)
    requires Printable(q)
    ensures result == Show(q, PRINTED)
    decreases q, 1
  {
    hide ShowClause, ShowItems, ShowPredicate;
    result := AppendNames("select ", q.fields);
    result := result[..|result| - 2];
    assert result == "select " + Commas(q.fields);
    result := result + " from ";
    ghost var head := result;
    var items := ItemTexts(q);
    result := AppendNames(result, items);
    result := result[..|result| - 2];
    assert result == head + Commas(items);
    var predicateStr := PredicateText(q.pred);
    PredicateTextEmpty(q.pred);
    if predicateStr != "" {
      result := result + " where " + predicateStr;
    }
    result := AppendClause(result, " group by ", q.group);
    result := AppendClause(result, " order by ", q.sort);
  }

  /** The tables, then each subquery in parentheses. */
  method ItemTexts(q: QueryData) returns (items: seq<string>)
    requires Printable(q)
    ensures items == ShowItems(q, PRINTED)
    decreases q, 0
  {
    hide Show;
    items := q.tables;
    var i := 0;
    while i < |q.subqueries|
      invariant 0 <= i <= |q.subqueries| && items == ShowItems(q, PRINTED)[..|q.tables| + i]
    {
      var text := ToString(q.subqueries[i]);
      items := items + ["( " + text + " )"];
      i := i + 1;
    }
  }

  // ---------------------------------------------------------------- tokens of the text

  /** A name the lexer reads as one identifier, unchanged. */
  predicate IsName(s: string) {
    && s != "" && s !in KEYWORDS && !AllDigits(s)
    && forall i :: 0 <= i < |s| ==> IsDigit(s[i]) || 'a' <= s[i] <= 'z'
  }

  predicate AllNames(names: seq<string>) {
    forall i :: 0 <= i < |names| ==> IsName(names[i])
  }

  /** Names are names, and tables are a set in order. Conditions may be any. */
  predicate Good(q: QueryData) {
    && q.fields != [] && (q.tables != [] || q.subqueries != [])
    && AllNames(q.fields) && AllNames(q.tables) && AllNames(q.group) && AllNames(q.sort)
    && (forall i, j :: 0 <= i < j < |q.tables| ==> StrLess(q.tables[i], q.tables[j]))
    && forall i :: 0 <= i < |q.subqueries| ==> Good(q.subqueries[i])
  }

  lemma {:induction false} GoodPrintable(q: QueryData)
    requires Good(q)
    ensures Printable(q)
    decreases q
  {
    forall i | 0 <= i < |q.subqueries| ensures Printable(q.subqueries[i]) {
      GoodPrintable(q.subqueries[i]);
    }
  }

  function Singles(names: seq<string>): (ts: seq<seq<string>>)
    ensures |ts| == |names| && forall i :: 0 <= i < |names| ==> ts[i] == [names[i]]
  {
    seq(|names|, i requires 0 <= i < |names| => [names[i]])
  }

  function ClauseTokens(w: string, fields: seq<string>): seq<string> {
    if fields == [] then [] else [w, "by"] + CommaTokens(Singles(fields))
  }

  function ItemTokens(q: QueryData, st: Style): (ts: seq<seq<string>>)
    requires Good(q)
    ensures |ts| == |q.tables| + |q.subqueries|
    decreases q, 0
  {
    Singles(q.tables) + seq(|q.subqueries|, i requires 0 <= i < |q.subqueries| => ["("] + QueryTokens(q.subqueries[i], st) + [")"])
  }

  function WhereTokens(p: Predicate, st: Style): seq<string> {
    if p == [] then [] else ["where"] + Tokenize(ShowPredicate(p, st), "")
  }

  function QueryTokens(q: QueryData, st: Style): seq<string>
    requires Good(q)
    decreases q, 1
  {
    ["select"] + CommaTokens(Singles(q.fields)) + ["from"] + CommaTokens(ItemTokens(q, st))
    + WhereTokens(q.pred, st) + ClauseTokens("group", q.group) + ClauseTokens("order", q.sort)
  }

  lemma {:induction false} NamesLex(names: seq<string>)
    requires names != [] && AllNames(names)
    ensures Lexes(Commas(names), CommaTokens(Singles(names)))
  {
    hide Lexes;
    forall i | 0 <= i < |names| ensures Lexes(names[i], Singles(names)[i]) {
      NameLexes(names[i]);
    }
    CommasLex(names, Singles(names));
  }

  lemma {:induction false} NameLexes(s: string)
    requires IsName(s)
    ensures Lexes(s, [s])
  {
    hide Lexes;
    WordLexes(s);
  }

  /** A clause after a text. */
  lemma {:induction false} ClauseLexes(s: string, ts: seq<string>, w: string, fields: seq<string>)
    requires Lexes(s, ts) && AllNames(fields) && NoSeparators(w) && w != ""
    ensures Lexes(s + ShowClause(" " + w + " by ", fields), ts + ClauseTokens(w, fields))
  {
    hide Flush, Lexes;
    if fields == [] {
      assert s + "" == s && ts + [] == ts;
    } else {
      NamesLex(fields);
      var c, ct := Commas(fields), CommaTokens(Singles(fields));
      ByLexes(w, c, ct);
      ClauseIs(s, w, fields);
      hide *;
      Spaced(s, ts, w + " by " + c, [w, "by"] + ct, s + ShowClause(" " + w + " by ", fields), ts + ClauseTokens(w, fields));
    }
  }

  lemma {:induction false} ClauseIs(s: string, w: string, fields: seq<string>)
    requires fields != []
    ensures s + ShowClause(" " + w + " by ", fields) == s + " " + (w + " by " + Commas(fields))
    ensures ClauseTokens(w, fields) == [w, "by"] + CommaTokens(Singles(fields))
  {
    hide Commas, CommaTokens, Singles;
  }

  lemma {:induction false} ByLexes(w: string, c: string, ct: seq<string>)
    requires Lexes(c, ct) && NoSeparators(w) && w != ""
    ensures Lexes(w + " by " + c, [w, "by"] + ct)
  {
    hide Lexes, Flush;
    WordLexes(w);
    WordLexes("by");
    Spaced("by", ["by"], c, ct, "by " + c, ["by"] + ct);
    Spaced(w, [w], "by " + c, ["by"] + ct, w + " by " + c, [w, "by"] + ct);
  }

  lemma {:induction false} WhereLexes(s: string, ts: seq<string>, p: Predicate, st: Style)
    requires Lexes(s, ts)
    ensures Lexes(s + if p == [] then "" else " where " + ShowPredicate(p, st), ts + WhereTokens(p, st))
  {
    hide Lexes, Tokenize;
    if p == [] {
      assert s + "" == s && ts + [] == ts;
    } else {
      TextLexes(ShowPredicate(p, st));
      WordLexes("where");
      var c, ct := ShowPredicate(p, st), Tokenize(ShowPredicate(p, st), "");
      Spaced("where", ["where"], c, ct, "where " + c, ["where"] + ct);
      Spaced(s, ts, "where " + c, ["where"] + ct, s + " where " + c, ts + WhereTokens(p, st));
      assert s + (" where " + c) == s + " where " + c;
    }
  }

  lemma {:induction false} HeadLexes(f: string, tf: seq<string>, i: string, ti: seq<string>)
    requires Lexes(f, tf) && Lexes(i, ti)
    ensures Lexes("select " + f + " from " + i, ["select"] + tf + ["from"] + ti)
  {
    hide Lexes;
    WordLexes("select");
    WordLexes("from");
    Spaced("from", ["from"], i, ti, "from " + i, ["from"] + ti);
    Spaced(f, tf, "from " + i, ["from"] + ti, f + " from " + i, tf + ["from"] + ti);
    Spaced("select", ["select"], f + " from " + i, tf + ["from"] + ti, "select " + f + " from " + i, ["select"] + tf + ["from"] + ti);
  }

  lemma {:induction false} ParenLexes(s: string, ts: seq<string>)
    requires Lexes(s, ts)
    ensures Lexes("( " + s + " )", ["("] + ts + [")"])
  {
    hide Lexes;
    WordLexes("(");
    WordLexes(")");
    Spaced("(", ["("], s, ts, "( " + s, ["("] + ts);
    Spaced("( " + s, ["("] + ts, ")", [")"], "( " + s + " )", ["("] + ts + [")"]);
  }

  /** The tokens of a query's text, nested subqueries included. */
  lemma {:induction false} QueryLexes(q: QueryData, st: Style)
    requires Good(q)
    ensures Printable(q) && Lexes(Show(q, st), QueryTokens(q, st))
    decreases q, 1
  {
    hide Lexes, Commas, CommaTokens, Singles, ShowItems, ItemTokens, WhereTokens, ClauseTokens, ShowClause, ShowPredicate;
    GoodPrintable(q);
    NamesLex(q.fields);
    ItemsLex(q, st);
    var s := "select " + Commas(q.fields) + " from " + Commas(ShowItems(q, st));
    var ts := ["select"] + CommaTokens(Singles(q.fields)) + ["from"] + CommaTokens(ItemTokens(q, st));
    HeadLexes(Commas(q.fields), CommaTokens(Singles(q.fields)), Commas(ShowItems(q, st)), CommaTokens(ItemTokens(q, st)));
    WhereLexes(s, ts, q.pred, st);
    var w := s + if q.pred == [] then "" else " where " + ShowPredicate(q.pred, st);
    var tw := ts + WhereTokens(q.pred, st);
    ClauseLexes(w, tw, "group", q.group);
    assert " " + "group" + " by " == " group by " && " " + "order" + " by " == " order by ";
    ClauseLexes(w + ShowClause(" group by ", q.group), tw + ClauseTokens("group", q.group), "order", q.sort);
  }

  lemma {:induction false} ItemsLex(q: QueryData, st: Style)
    requires Good(q) && Printable(q)
    ensures Lexes(Commas(ShowItems(q, st)), CommaTokens(ItemTokens(q, st)))
    decreases q, 0
  {
    hide Lexes, Commas, CommaTokens;
    var items, toks := ShowItems(q, st), ItemTokens(q, st);
    forall i | 0 <= i < |items| ensures Lexes(items[i], toks[i]) {
      ItemLexes(q, i, st);
    }
    CommasLex(items, toks);
  }

  lemma {:induction false} ItemLexes(q: QueryData, i: nat, st: Style)
    requires Good(q) && Printable(q) && i < |q.tables| + |q.subqueries|
    ensures Lexes(ShowItems(q, st)[i], ItemTokens(q, st)[i])
    decreases q, 0, 0
  {
    hide Lexes, Show, QueryTokens;
    if i < |q.tables| {
      NameLexes(q.tables[i]);
    } else {
      var k := i - |q.tables|;
      QueryLexes(q.subqueries[k], st);
      ParenLexes(Show(q.subqueries[k], st), QueryTokens(q.subqueries[k], st));
    }
  }
}
