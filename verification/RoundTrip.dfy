/** Printing a query and parsing the text gives the query back, exactly when it has no predicate. */
module RoundTrip {
  import opened Options
  import opened Constants
  import opened Predicates
  import opened QueryDatas
  import opened Tokens
  import opened Printing
  import opened Parsing
  import opened Conditions

  /** No query in q has conditions. */
  predicate NoPredicates(q: QueryData) {
    q.pred == [] && forall i :: 0 <= i < |q.subqueries| ==> NoPredicates(q.subqueries[i])
  }

  /** Each query in q has legible conditions or none. */
  predicate AllLegible(q: QueryData, st: Style) {
    Legible(q.pred, st) && forall i :: 0 <= i < |q.subqueries| ==> AllLegible(q.subqueries[i], st)
  }

  /** What can follow a query: the end of the text or a closing parenthesis. */
  predicate Ends(tail: seq<string>) {
    tail == [] || tail[0] == ")"
  }

  // ---------------------------------------------------------------- single tokens

  lemma {:induction false} LowerName(s: string)
    requires forall i :: 0 <= i < |s| ==> IsDigit(s[i]) || 'a' <= s[i] <= 'z'
    ensures Lower(s) == s
  {
    forall i | 0 <= i < |s| ensures Lower(s)[i] == s[i] {
    }
  }

  /** A name is read as an identifier. */
  lemma {:induction false} NameToken(s: string, rest: seq<string>)
    requires IsName(s)
    ensures var ts := [s] + rest;
      Kind(ts) == "WORD" && Lower(s) == s && MatchIdentifier(ts) && EatIdentifier(ts) == Some(Read(s, rest))
  {
    hide Lower;
    LowerName(s);
    assert ([s] + rest)[1..] == rest;
  }

  /** A word of the language is read as that keyword and no other. */
  lemma {:induction false} WordToken(w: string, rest: seq<string>)
    requires w in ["select", "from", "where", "group", "order", "by", "and"]
    ensures var ts := [w] + rest;
      && Kind(ts) == "WORD" && (forall v :: MatchKeyword(ts, v) <==> v == w)
      && ts[1..] == rest && (forall c :: c != 'W' ==> !MatchDelimiter(ts, c))
  {
    hide Lower;
    LowerName(w);
    assert !AllDigits(w) by {
      assert !IsDigit(w[0]);
    }
    assert AllAlnum(w);
    assert ([w] + rest)[1..] == rest;
  }

  lemma {:induction false} MarkToken(m: string, rest: seq<string>)
    requires m == "," || m == "(" || m == ")"
    ensures var ts := [m] + rest;
      && Kind(ts) == m && (forall c :: MatchDelimiter(ts, c) <==> c == m[0])
      && (forall v :: !MatchKeyword(ts, v)) && !MatchIdentifier(ts) && ts[1..] == rest
  {
    assert !IsDigit(m[0]) && !IsAlnum(m[0]);
    assert !AllDigits(m) && !AllAlnum(m);
    assert Lower(m[1..]) == "";
    assert Lower(m) == [ToLower(m[0])] + Lower(m[1..]);
    assert Lower(m) == m;
    assert ([m] + rest)[1..] == rest;
  }

  lemma {:induction false} EndsTokens(tail: seq<string>)
    requires Ends(tail)
    ensures forall v :: !MatchKeyword(tail, v)
    ensures forall c :: c != ')' && c != 'E' ==> !MatchDelimiter(tail, c)
  {
    if tail != [] {
      MarkToken(")", tail[1..]);
      assert tail == [")"] + tail[1..];
    }
  }

  // ---------------------------------------------------------------- lists

  lemma {:induction false} ListParses(names: seq<string>, tail: seq<string>)
    requires names != [] && AllNames(names) && !MatchDelimiter(tail, ',')
    ensures FieldList(CommaTokens(Singles(names)) + tail) == Some(Read(names, tail))
  {
    hide Kind, Lower, IsName;
    var ts := CommaTokens(Singles(names)) + tail;
    if |names| == 1 {
      NameToken(names[0], tail);
      assert ts == [names[0]] + tail;
      assert names == [names[0]];
    } else {
      var rest := CommaTokens(Singles(names[1..])) + tail;
      assert Singles(names)[1..] == Singles(names[1..]);
      assert ts == [names[0]] + ([","] + rest);
      NameToken(names[0], [","] + rest);
      MarkToken(",", rest);
      ListParses(names[1..], tail);
      assert names == [names[0]] + names[1..];
    }
  }

  lemma {:induction false} ClauseParses(w: string, fields: seq<string>, tail: seq<string>)
    requires AllNames(fields) && (w == "group" || w == "order")
    requires !MatchDelimiter(tail, ',') && !MatchKeyword(tail, w)
    ensures ClauseList(ClauseTokens(w, fields) + tail, w) == Some(Read(fields, tail))
  {
    hide Kind, Lower, FieldList;
    if fields == [] {
      assert [] + tail == tail;
    } else {
      var rest := CommaTokens(Singles(fields)) + tail;
      assert ClauseTokens(w, fields) + tail == [w] + (["by"] + rest);
      WordToken(w, ["by"] + rest);
      WordToken("by", rest);
      ListParses(fields, tail);
    }
  }

  /** The clause, if there is one, starts with its word; otherwise the tail does not start so. */
  lemma {:induction false} ClauseStarts(w: string, fields: seq<string>, tail: seq<string>)
    requires w == "group" || w == "order"
    requires !MatchDelimiter(tail, ',')
    ensures !MatchDelimiter(ClauseTokens(w, fields) + tail, ',')
    ensures forall v :: v != w && !MatchKeyword(tail, v) ==> !MatchKeyword(ClauseTokens(w, fields) + tail, v)
  {
    if fields == [] {
      assert [] + tail == tail;
    } else {
      var rest := ["by"] + CommaTokens(Singles(fields)) + tail;
      assert ClauseTokens(w, fields) + tail == [w] + rest;
      WordToken(w, rest);
    }
  }

  // ---------------------------------------------------------------- conditions

  /** A condition whose text is one token and does not start with a quote. */
  predicate PlainTerm(t: Term) {
    NoSeparators(ShowTerm(t, PRINTED)) && ShowTerm(t, PRINTED)[0] != '\''
  }

  /** All conditions are plain, those of subqueries too. */
  predicate Plain(q: QueryData) {
    (forall i :: 0 <= i < |q.pred| ==> PlainTerm(q.pred[i])) && forall i :: 0 <= i < |q.subqueries| ==> Plain(q.subqueries[i])
  }

  /** A token with an equals sign is no name, keyword or number; with a quote in front it is a string. */
  lemma {:induction false} EqualsToken(s: string, k: nat, rest: seq<string>)
    requires k < |s| && s[k] == '='
    ensures ParseExpression([s] + rest) == if s[0] == '\'' then Some(Read(Const(StrVal(Unquote(Lower(s)))), rest)) else None
  {
    assert !IsAlnum(s[k]);
    assert !AllDigits(s) && !AllAlnum(s);
    var ts := [s] + rest;
    assert ts[1..] == rest;
    assert ToLower('=') == '=' && Lower(s)[k] == '=' && Lower(s)[0] == ToLower(s[0]);
    assert Lower(s) != "WORD" by {
      assert "WORD"[0] == 'W' && "WORD"[1] == 'O' && "WORD"[2] == 'R' && "WORD"[3] == 'D';
    }
  }

  /** What a token is read as is never longer than the token. */
  lemma {:induction false} ReadShort(s: string, rest: seq<string>)
    requires s != ""
    ensures var e := ParseExpression([s] + rest); e.Some? ==>
      match e.value.value
      case Field(f) => |f| <= |s|
      case Const(StrVal(v)) => |v| <= |s|
      case Const(IntVal(_)) => true
  {
    hide Kind, NatOf;
  }

  lemma {:induction false} CommaIsNothing(rest: seq<string>)
    ensures ParseExpression([","] + rest) == None
  {
    MarkToken(",", rest);
    var ts := [","] + rest;
    assert !AllDigits(ts[0]) by {
      assert !IsDigit(ts[0][0]);
    }
  }

  /** The text of a constant that is a number has no separators. */
  lemma {:induction false} NumberText(i: int)
    ensures NoSeparators(ShowConstant(IntVal(i), PRINTED))
  {
    var n := if i < 0 then -i else i;
    assert forall k :: 0 <= k < |ShowNat(n)| ==> !IsSeparator(ShowNat(n)[k]);
  }

  /** A string in quotes does not survive with an equals sign and a quote behind it. */
  lemma {:induction false} NoShift(s: string, t: string)
    requires t == s + "='" && s != "" && s[0] == '\''
    ensures Unquote(Lower(t)) != s
  {
    if Unquote(Lower(t)) == s {
      var n := |s| - 1;
      assert forall i :: 0 <= i < |s| ==> Unquote(Lower(t))[i] == ToLower(t[i + 1]);
      assert s[n] == ToLower(t[n + 1]) == '=';
      AllEquals(s, t, 0);
    }
  }

  lemma {:induction false} AllEquals(s: string, t: string, k: nat)
    requires t == s + "='" && k < |s| && forall i :: 0 <= i < |s| ==> s[i] == ToLower(t[i + 1])
    ensures s[k] == '='
    decreases |s| - k
  {
    if k + 1 < |s| {
      AllEquals(s, t, k + 1);
    }
  }

  /** The first token of a condition's text is never read as the condition's left side: it runs on into the equals
      sign, or stops short at a separator. */
  lemma {:induction false} NotReadBack(t: Term, more: string, tail: seq<string>)
    ensures var ts := Tokenize(ShowTerm(t, PRINTED) + more, "");
      ts != [] && (ParseExpression(ts + tail) == None || ParseExpression(ts + tail).value.value != t.lhs)
  {
    hide Tokenize, Kind, Lower, NatOf, ParseExpression, ShowNat;
    var l := ShowExpression(t.lhs, PRINTED);
    var text := ShowTerm(t, PRINTED) + more;
    assert text[|l|] == '=' && text[..|l|] == l;
    var k, m := FirstToken(text, |l|);
    var ts := Tokenize(text, "");
    assert ts + tail == [ts[0]] + (ts[1..] + tail);
    if m == 0 {
      CommaIsNothing(ts[1..] + tail);
    } else if k + m > |l| {
      assert ts[0][|l| - k] == '=';
      EqualsToken(ts[0], |l| - k, ts[1..] + tail);
      if t.lhs.Const? && t.lhs.value.StrVal? {
        OverRun(l, text, k, m);
      }
    } else {
      assert IsSeparator(text[k + m]) && text[k + m] == l[k + m];
      ReadShort(ts[0], ts[1..] + tail);
      if t.lhs.Const? && t.lhs.value.IntVal? {
        NumberText(t.lhs.value.i);
        assert false;
      }
    }
  }

  lemma {:induction false} NoSpaces(s: string)
    requires NoSeparators(s)
    ensures forall i :: 0 <= i < |Unquote(Lower(s))| ==> Unquote(Lower(s))[i] != ' '
  {
    hide Lower;
    var v := Unquote(Lower(s));
    forall i | 0 <= i < |v| ensures v[i] != ' ' {
      var j := if v == Lower(s) then i else i + 1;
      assert v[i] == ToLower(s[j]) && !IsSeparator(s[j]);
    }
  }

  /** A token that runs on into the equals sign is not the string before it. */
  lemma {:induction false} OverRun(l: string, text: string, k: nat, m: nat)
    requires k <= |l| < k + m <= |text| && text[..|l|] == l && text[|l|] == '=' && NoSeparators(text[k..k + m])
    requires forall i :: 0 <= i < k ==> text[i] == ' '
    ensures text[k] == '\'' ==> Unquote(Lower(text[k..k + m])) != l
  {
    var s := text[k..k + m];
    var v := Unquote(Lower(s));
    if text[k] == '\'' {
      if k > 0 {
        assert l[0] == ' ';
        NoSpaces(s);
      } else if |v| == |l| {
        assert |s| == |l| + 2 && s[|s| - 1] == '\'';
        assert s == l + "='";
        NoShift(l, s);
      }
    }
  }

  /** The text of conditions starts with that of the first one. */
  lemma {:induction false} PredicateHead(p: Predicate) returns (more: string)
    requires p != []
    ensures ShowPredicate(p, PRINTED) == ShowTerm(p[0], PRINTED) + more && Breaks(more)
  {
    hide ShowTerm;
    if |p| == 1 {
      more := "";
    } else {
      var n := |p| - 1;
      var rest := PredicateHead(p[..n]);
      more := rest + " and " + ShowTerm(p[n], PRINTED);
    }
  }

  /** Conditions are not read back from their text. */
  lemma {:induction false} PredicateNotBack(p: Predicate, tail: seq<string>)
    requires p != []
    ensures var r := ParsePredicate(Tokenize(ShowPredicate(p, PRINTED), "") + tail); r == None || r.value.value != p
  {
    hide Tokenize, ShowTerm, ParseExpression;
    var more := PredicateHead(p);
    NotReadBack(p[0], more, tail);
  }

  /** Plain ones stop the parser. */
  lemma {:induction false} PlainStops(p: Predicate, tail: seq<string>)
    requires p != [] && PlainTerm(p[0])
    ensures ParsePredicate(Tokenize(ShowPredicate(p, PRINTED), "") + tail) == None
  {
    hide ParseExpression;
    var more := PredicateHead(p);
    var s := ShowTerm(p[0], PRINTED);
    LexWord(s, more, "");
    assert "" + s == s;
    var ts := Tokenize(ShowPredicate(p, PRINTED), "");
    assert ts[0] == s && ts + tail == [s] + (ts[1..] + tail);
    assert s[|ShowExpression(p[0].lhs, PRINTED)|] == '=';
    EqualsToken(s, |ShowExpression(p[0].lhs, PRINTED)|, ts[1..] + tail);
  }

  /** These conditions are read back from their text: there are none, or they are written with spaces and quotes and
      each side can be. */
  predicate Legible(p: Predicate, st: Style) {
    p == [] || (st == SPACED && WritableTerms(p))
  }

  /** As printed, conditions are never read back. */
  ghost predicate NotBack(p: Predicate, r: Option<Read<Predicate>>, st: Style) {
    st == PRINTED ==> (r == None || r.value.value != p) && (p != [] && PlainTerm(p[0]) ==> r == None)
  }

  lemma {:induction false} WhereParses(p: Predicate, tail: seq<string>, st: Style)
    requires !MatchKeyword(tail, "where") && !MatchKeyword(tail, "and")
    ensures var r := ParseWhere(WhereTokens(p, st) + tail); if Legible(p, st) then r == Some(Read(p, tail)) else NotBack(p, r, st)
  {
    hide Kind, Lower, ShowTerm, Tokenize, PlainTerm, ParsePredicate, WritableTerms;
    if p == [] {
      assert [] + tail == tail;
    } else {
      var rest := Tokenize(ShowPredicate(p, st), "") + tail;
      assert WhereTokens(p, st) + tail == ["where"] + rest;
      WordToken("where", rest);
      if Legible(p, st) {
        ConditionsLex(p);
        LexesText(ShowPredicate(p, SPACED), AndTokens(p));
        ConditionsRead(p, tail);
      } else if st == PRINTED {
        PredicateNotBack(p, tail);
        if PlainTerm(p[0]) {
          PlainStops(p, tail);
        }
      }
    }
  }

  // ---------------------------------------------------------------- names in order

  lemma {:induction false} NotLess(s: string, t: string)
    requires StrLess(s, t)
    ensures s != t && !StrLess(t, s)
  {
    StrRankOrder(s, t);
    StrRankOrder(t, s);
  }

  /** A name above all others goes to the end. */
  lemma {:induction false} AddLast(names: seq<string>, s: string)
    requires forall i :: 0 <= i < |names| ==> StrLess(names[i], s)
    ensures AddName(names, s) == names + [s]
  {
    if names != [] {
      NotLess(names[0], s);
      AddLast(names[1..], s);
      assert names + [s] == [names[0]] + (names[1..] + [s]);
    }
  }

  ghost predicate Ascending(names: seq<string>) {
    forall i, j :: 0 <= i < j < |names| ==> StrLess(names[i], names[j])
  }

  /** The tables of a query are a set: in order, each once, whatever order they are named in. */
  lemma {:induction false} TablesAreSet(names: seq<string>, s: string)
    requires Ascending(names)
    ensures Ascending(AddName(names, s)) && forall n :: n in AddName(names, s) <==> n in names || n == s
  {
    hide StrLess;
    if names != [] {
      LessTrans(s, names);
      if !StrLess(s, names[0]) && s != names[0] {
        assert forall i, j :: 0 <= i < j < |names| - 1 ==> names[1..][i] == names[i + 1] && names[1..][j] == names[j + 1];
        TablesAreSet(names[1..], s);
        var more := AddName(names[1..], s);
        assert names == [names[0]] + names[1..];
        forall j | 0 <= j < |more| ensures StrLess(names[0], more[j]) {
          assert more[j] in more;
          if more[j] != s {
            var k :| 0 <= k < |names[1..]| && names[1..][k] == more[j];
            assert names[k + 1] == more[j];
          }
        }
      }
    }
  }

  lemma {:induction false} LessTrans(s: string, names: seq<string>)
    requires names != [] && Ascending(names)
    ensures StrLess(s, names[0]) ==> forall i :: 0 <= i < |names| ==> StrLess(s, names[i])
    ensures StrLess(s, names[0]) || s == names[0] || StrLess(names[0], s)
  {
    hide StrLess, StrRank;
    StrRankOrder(s, names[0]);
    StrRankOrder(names[0], s);
    if StrLess(s, names[0]) {
      forall i | 0 <= i < |names| ensures StrLess(s, names[i]) {
        StrRankOrder(names[0], names[i]);
        StrRankOrder(s, names[i]);
      }
    }
  }

  // ---------------------------------------------------------------- whole queries

  function RestTokens(q: QueryData, st: Style): seq<string> {
    WhereTokens(q.pred, st) + ClauseTokens("group", q.group) + ClauseTokens("order", q.sort)
  }

  /** A query was not read back: the parser has failed, or has read another one. */
  ghost predicate Missed(q: QueryData, r: Option<Read<QueryData>>, st: Style) {
    st == PRINTED ==> (r == None || r.value.value != q) && (Plain(q) ==> r == None)
  }

  /** The clauses are read back when the conditions are legible, and as printed only then. */
  lemma {:induction false} RestParses(q: QueryData, tail: seq<string>, st: Style)
    requires Good(q) && Ends(tail)
    ensures var r := ParseRest(q.fields, Read(TableData(q.tables, q.subqueries), RestTokens(q, st) + tail));
      if Legible(q.pred, st) then r == Some(Read(q, tail)) else Missed(q, r, st)
    ensures !MatchDelimiter(RestTokens(q, st) + tail, ',')
  {
    hide Kind, Lower, ClauseTokens, WhereTokens, ClauseList, ParseWhere, PlainTerm;
    EndsTokens(tail);
    var o := ClauseTokens("order", q.sort) + tail;
    var g := ClauseTokens("group", q.group) + o;
    ClauseStarts("order", q.sort, tail);
    ClauseStarts("group", q.group, o);
    ClauseParses("order", q.sort, tail);
    ClauseParses("group", q.group, o);
    WhereParses(q.pred, g, st);
    WhereStarts(q.pred, g, st);
    assert RestTokens(q, st) + tail == WhereTokens(q.pred, st) + g;
  }

  lemma {:induction false} WhereStarts(p: Predicate, tail: seq<string>, st: Style)
    requires !MatchDelimiter(tail, ',')
    ensures !MatchDelimiter(WhereTokens(p, st) + tail, ',')
  {
    if p == [] {
      assert [] + tail == tail;
    } else {
      var rest := Tokenize(ShowPredicate(p, st), "") + tail;
      assert WhereTokens(p, st) + tail == ["where"] + rest;
      WordToken("where", rest);
    }
  }

  /** The tables and subqueries before item i. */
  function Before(q: QueryData, i: nat): TableData
    requires i <= |q.tables| + |q.subqueries|
  {
    if i <= |q.tables| then TableData(q.tables[..i], []) else TableData(q.tables, q.subqueries[..i - |q.tables|])
  }

  predicate LegibleFrom(q: QueryData, i: nat, st: Style) {
    forall k :: 0 <= k < |q.subqueries| && i <= |q.tables| + k ==> AllLegible(q.subqueries[k], st)
  }

  /** The list of tables was not read back, and will not be: the k-th subquery is another one. */
  ghost predicate MissedAt(q: QueryData, k: nat, r: Option<Read<TableData>>, st: Style) {
    st == PRINTED ==>
      && (r.Some? ==> k < |q.subqueries| && k < |r.value.value.queries| && r.value.value.queries[k] != q.subqueries[k])
      && (Plain(q) ==> r == None)
  }

  /** One item is read and added, or it is a subquery with conditions. */
  lemma {:induction false} ItemParses(q: QueryData, i: nat, after: seq<string>, st: Style)
    requires Good(q) && i < |q.tables| + |q.subqueries|
    ensures var r := ParseItem(ItemTokens(q, st)[i] + after, Before(q, i));
      if i < |q.tables| || AllLegible(q.subqueries[i - |q.tables|], st) then r == Some(Read(Before(q, i + 1), after))
      else MissedAt(q, i - |q.tables|, r, st)
    decreases q, 0
  {
    hide ParseItem, ParseQuery, QueryTokens, ItemTokens, Before, Kind, Lower, AllLegible, MissedAt, Missed;
    if i < |q.tables| {
      NameItem(q, i, after, st);
    } else {
      var k := i - |q.tables|;
      QueryParses(q.subqueries[k], [")"] + after, st);
      SubItem(q, k, after, st);
    }
  }

  lemma {:induction false} NameItem(q: QueryData, i: nat, after: seq<string>, st: Style)
    requires Good(q) && i < |q.tables|
    ensures ParseItem(ItemTokens(q, st)[i] + after, Before(q, i)) == Some(Read(Before(q, i + 1), after))
  {
    hide Kind, Lower, ParseQuery;
    assert ItemTokens(q, st)[i] == [q.tables[i]];
    NameToken(q.tables[i], after);
    assert !MatchDelimiter([q.tables[i]] + after, '(') by {
      assert "WORD"[0] == 'W';
    }
    AddLast(q.tables[..i], q.tables[i]);
    assert q.tables[..i + 1] == q.tables[..i] + [q.tables[i]];
  }

  lemma {:induction false} SubItem(q: QueryData, k: nat, after: seq<string>, st: Style)
    requires Good(q) && k < |q.subqueries|
    requires var sub := q.subqueries[k]; var r := ParseQuery(QueryTokens(sub, st) + ([")"] + after));
      if AllLegible(sub, st) then r == Some(Read(sub, [")"] + after)) else Missed(sub, r, st)
    ensures var r := ParseItem(ItemTokens(q, st)[|q.tables| + k] + after, Before(q, |q.tables| + k));
      if AllLegible(q.subqueries[k], st) then r == Some(Read(Before(q, |q.tables| + k + 1), after)) else MissedAt(q, k, r, st)
  {
    hide ParseItem, ParseQuery, QueryTokens, ItemTokens, Before, Kind, Lower, AllLegible, PlainTerm;
    assert Good(q.subqueries[k]);
    SubTokens(q, k, st);
    BeforeSub(q, k);
    ParenItem(QueryTokens(q.subqueries[k], st), after, Before(q, |q.tables| + k));
  }

  /** A subquery in parentheses is read as what the parser makes of the inside. */
  lemma {:induction false} ParenItem(inner: seq<string>, after: seq<string>, d: TableData)
    ensures var r := ParseQuery(inner + ([")"] + after)); var item := ParseItem(["("] + inner + [")"] + after, d);
      && (r == None ==> item == None)
      && (item.Some? ==> r.Some? && item.value.value == d.(queries := d.queries + [r.value.value]))
      && (r.Some? && r.value.rest == [")"] + after ==> item == Some(Read(d.(queries := d.queries + [r.value.value]), after)))
  {
    hide Kind, Lower, ParseQuery;
    var more := inner + ([")"] + after);
    assert ["("] + inner + [")"] + after == ["("] + more;
    MarkToken("(", more);
    MarkToken(")", after);
  }

  lemma {:induction false} SubTokens(q: QueryData, k: nat, st: Style)
    requires Good(q) && k < |q.subqueries|
    ensures ItemTokens(q, st)[|q.tables| + k] == ["("] + QueryTokens(q.subqueries[k], st) + [")"]
  {
    hide QueryTokens;
  }

  lemma {:induction false} BeforeSub(q: QueryData, k: nat)
    requires k < |q.subqueries|
    ensures Before(q, |q.tables| + k) == TableData(q.tables, q.subqueries[..k])
    ensures Before(q, |q.tables| + k + 1) == TableData(q.tables, q.subqueries[..k] + [q.subqueries[k]])
  {
    assert q.subqueries[..k + 1] == q.subqueries[..k] + [q.subqueries[k]];
    if k == 0 {
      assert q.tables[..|q.tables|] == q.tables;
      assert q.subqueries[..0] == [];
    }
  }

  /** Reading on does not change the subqueries read so far. */
  lemma {:induction false} TablesExtend(ts: seq<string>, d: TableData)
    ensures var r := ParseTables(ts, d); r.Some? ==> d.queries <= r.value.value.queries
    decreases |ts|
  {
    hide Kind, Lower, ParseQuery, AddName;
    var item := ParseItem(ts, d);
    if item.Some? && MatchDelimiter(item.value.rest, ',') {
      TablesExtend(EatDelimiter(item.value.rest, ',').value, item.value.value);
    }
  }

  /** All items from the i-th on; k is the first subquery with conditions, if there is one. */
  lemma {:induction false} ItemsParse(q: QueryData, i: nat, after: seq<string>, st: Style) returns (k: nat)
    requires Good(q) && i < |q.tables| + |q.subqueries| && !MatchDelimiter(after, ',')
    ensures var r := ParseTables(CommaTokens(ItemTokens(q, st)[i..]) + after, Before(q, i));
      if LegibleFrom(q, i, st) then r == Some(Read(TableData(q.tables, q.subqueries), after)) else MissedAt(q, k, r, st)
    decreases q, 1, |q.tables| + |q.subqueries| - i
  {
    hide Kind, Lower, ParseQuery, QueryTokens, Good, ParseItem, ItemTokens, AllLegible, PlainTerm;
    k := 0;
    var n := |q.tables| + |q.subqueries|;
    var toks := ItemTokens(q, st)[i..];
    var ts := CommaTokens(toks) + after;
    var next := after;
    if i + 1 < n {
      next := [","] + (CommaTokens(ItemTokens(q, st)[i + 1..]) + after);
      assert toks[1..] == ItemTokens(q, st)[i + 1..];
      MarkToken(",", CommaTokens(ItemTokens(q, st)[i + 1..]) + after);
    }
    assert ts == ItemTokens(q, st)[i] + next;
    ItemParses(q, i, next, st);
    PlainStep(q, i, st);
    if i >= |q.tables| && !AllLegible(q.subqueries[i - |q.tables|], st) {
      k := i - |q.tables|;
      MissedStays(q, k, ts, Before(q, i), st);
    } else if i + 1 == n {
      AllBefore(q);
    } else {
      k := ItemsParse(q, i + 1, after, st);
      assert ParseTables(ts, Before(q, i)) == ParseTables(CommaTokens(ItemTokens(q, st)[i + 1..]) + after, Before(q, i + 1));
    }
  }

  lemma {:induction false} MissedStays(q: QueryData, k: nat, ts: seq<string>, d: TableData, st: Style)
    requires MissedAt(q, k, ParseItem(ts, d), st)
    ensures MissedAt(q, k, ParseTables(ts, d), st)
  {
    hide Kind, Lower, ParseItem, PlainTerm;
    var item := ParseItem(ts, d);
    if item.Some? && MatchDelimiter(item.value.rest, ',') {
      TablesExtend(EatDelimiter(item.value.rest, ',').value, item.value.value);
    }
  }

  lemma {:induction false} AllBefore(q: QueryData)
    ensures Before(q, |q.tables| + |q.subqueries|) == TableData(q.tables, q.subqueries)
  {
    assert q.tables[..|q.tables|] == q.tables;
    assert q.subqueries[..|q.subqueries|] == q.subqueries;
  }

  lemma {:induction false} PlainStep(q: QueryData, i: nat, st: Style)
    requires i < |q.tables| + |q.subqueries|
    ensures LegibleFrom(q, i, st) <==> (i < |q.tables| || AllLegible(q.subqueries[i - |q.tables|], st)) && LegibleFrom(q, i + 1, st)
    ensures LegibleFrom(q, |q.tables| + |q.subqueries|, st)
  {
    hide AllLegible;
  }

  /** A good query's tokens are parsed to the query exactly when it has no conditions. */
  lemma {:induction false} QueryParses(q: QueryData, tail: seq<string>, st: Style)
    requires Good(q) && Ends(tail)
    ensures var r := ParseQuery(QueryTokens(q, st) + tail); if AllLegible(q, st) then r == Some(Read(q, tail)) else Missed(q, r, st)
    decreases q, 2
  {
    hide AllNames, ClauseList, ClauseTokens, CommaTokens, Ends, FieldList, ItemTokens, Kind, Lower, ParseTables,
      ParseWhere, Plain, PlainTerm, QueryTokens, RestTokens, Singles, StrLess, WhereTokens;
    var after := RestTokens(q, st) + tail;
    var items := CommaTokens(ItemTokens(q, st)) + after;
    var fields := CommaTokens(Singles(q.fields)) + (["from"] + items);
    TokensOf(q, tail, after, items, fields, st);
    RestParses(q, tail, st);
    WordToken("select", fields);
    WordToken("from", items);
    ListParses(q.fields, ["from"] + items);
    assert ItemTokens(q, st)[0..] == ItemTokens(q, st);
    var k := ItemsParse(q, 0, after, st);
    assert Before(q, 0) == TableData([], []);
    assert LegibleFrom(q, 0, st) && Legible(q.pred, st) <==> AllLegible(q, st);
  }

  lemma {:induction false} TokensOf(q: QueryData, tail: seq<string>, after: seq<string>, items: seq<string>, fields: seq<string>, st: Style)
    requires Good(q) && after == RestTokens(q, st) + tail && items == CommaTokens(ItemTokens(q, st)) + after
    requires fields == CommaTokens(Singles(q.fields)) + (["from"] + items)
    ensures QueryTokens(q, st) + tail == ["select"] + fields
  {
    hide Good, ItemTokens, CommaTokens, ClauseTokens, WhereTokens, Singles;
  }

  lemma {:induction false} GroupDropped(fields: seq<string>, d: TableData, rest: seq<string>)
    requires !MatchKeyword(rest, "by") && !MatchKeyword(rest, "order")
    ensures ParseRest(fields, Read(d, ["group"] + rest)) == Some(Read(QueryData(fields, d.names, d.queries, [], [], []), rest))
  {
    hide Kind, Lower, FieldList, ParsePredicate, MatchKeyword, MatchDelimiter;
    WordToken("group", rest);
  }

  /** The word group without by behind it is dropped: the query is read without groups. */
  lemma {:induction false} GroupWithoutBy(q: QueryData, rest: seq<string>)
    requires Good(q) && NoPredicates(q) && q.group == [] && q.sort == []
    requires !MatchKeyword(rest, "by") && !MatchKeyword(rest, "order")
    ensures ParseQuery(QueryTokens(q, PRINTED) + (["group"] + rest)) == Some(Read(q, rest))
  {
    hide AllNames, CommaTokens, FieldList, ItemTokens, Kind, Lower, ParseTables, ParseRest, QueryTokens, Singles, StrLess, AllLegible;
    var after := ["group"] + rest;
    var items := CommaTokens(ItemTokens(q, PRINTED)) + after;
    var fields := CommaTokens(Singles(q.fields)) + (["from"] + items);
    assert RestTokens(q, PRINTED) + after == after;
    TokensOf(q, after, after, items, fields, PRINTED);
    WordToken("group", rest);
    GroupDropped(q.fields, TableData(q.tables, q.subqueries), rest);
    WordToken("select", fields);
    WordToken("from", items);
    ListParses(q.fields, ["from"] + items);
    assert ItemTokens(q, PRINTED)[0..] == ItemTokens(q, PRINTED);
    forall k | 0 <= k < |q.subqueries| ensures AllLegible(q.subqueries[k], PRINTED) {
      PrintedLegible(q.subqueries[k]);
    }
    var k := ItemsParse(q, 0, after, PRINTED);
    assert Before(q, 0) == TableData([], []);
  }

  lemma {:induction false} PrintedLegible(q: QueryData)
    ensures AllLegible(q, PRINTED) <==> NoPredicates(q)
  {
    forall i | 0 <= i < |q.subqueries| ensures AllLegible(q.subqueries[i], PRINTED) <==> NoPredicates(q.subqueries[i]) {
      PrintedLegible(q.subqueries[i]);
    }
  }

  /** The parser on the text of a query. */
  lemma {:induction false} TextParses(q: QueryData, st: Style)
    requires Good(q)
    ensures Printable(q)
    ensures if AllLegible(q, st) then Parse(Show(q, st)) == Some(q)
            else st == PRINTED ==> Parse(Show(q, st)) != Some(q) && (Plain(q) ==> Parse(Show(q, st)) == None)
  {
    hide Lexes, ParseQuery, QueryTokens, Show, Good, AllLegible, Plain;
    QueryLexes(q, st);
    LexesText(Show(q, st), QueryTokens(q, st));
    assert QueryTokens(q, st) + [] == QueryTokens(q, st);
    QueryParses(q, [], st);
  }

  /** Parsing the text of a query gives the same query back, nested subqueries, tables, group and order lists
      included, exactly when no condition is in it: conditions are printed without the spaces that the
      tokenizer needs. Plain conditions make the parser fail; others may be read as something else. */
  lemma {:induction false} PrintParse(q: QueryData)
    requires Good(q)
    ensures Printable(q) && (Parse(Show(q, PRINTED)) == Some(q) <==> NoPredicates(q))
    ensures !NoPredicates(q) && Plain(q) ==> Parse(Show(q, PRINTED)) == None
  {
    hide ParseQuery, Show, Good, AllLegible, NoPredicates, Plain;
    PrintedLegible(q);
    TextParses(q, PRINTED);
  }

  /** Written with spaces around the equals sign and strings in quotes, it gives the query back with all its
      conditions, those of subqueries too. */
  lemma {:induction false} SpacedParse(q: QueryData)
    requires Good(q) && AllLegible(q, SPACED)
    ensures Printable(q) && Parse(Show(q, SPACED)) == Some(q)
  {
    TextParses(q, SPACED);
  }
}
