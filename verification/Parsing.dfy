/** The recursive-descent parser for queries (src/parse/Parser.cpp), and its round trip with the printer.

    The grammar functions take the tokens left and give what they have read and the tokens left then; None
    stands for the exceptions. Class Parser is the source's parser over a moving position. */
module Parsing {
  import opened Options
  import opened Constants
  import opened Predicates
  import opened QueryDatas
  import opened Tokens

  /** What a rule has read, and the tokens after it. */
  datatype Read<T> = Read(value: T, rest: seq<string>)

  function EatDelimiter(ts: seq<string>, c: char): (r: Option<seq<string>>)
    ensures r.Some? && c != 'E' ==> |r.value| < |ts|
  {
    if MatchDelimiter(ts, c) then Some(if ts == [] then [] else ts[1..]) else None
  }

  function EatKeyword(ts: seq<string>, w: string): (r: Option<seq<string>>)
    ensures r.Some? ==> |r.value| < |ts|
  {
    if MatchKeyword(ts, w) then Some(ts[1..]) else None
  }

  function EatIdentifier(ts: seq<string>): (r: Option<Read<string>>)
    ensures r.Some? ==> |r.value.rest| < |ts|
  {
    if MatchIdentifier(ts) then Some(Read(Lower(ts[0]), ts[1..])) else None
  }

  /** selectList and fieldList. */
  function FieldList(ts: seq<string>): (r: Option<Read<seq<string>>>)
    ensures r.Some? ==> |r.value.rest| < |ts|
    decreases |ts|
  {
    var first := EatIdentifier(ts);
    if first == None then None
    else if !MatchDelimiter(first.value.rest, ',') then Some(Read([first.value.value], first.value.rest))
    else
      var more := FieldList(EatDelimiter(first.value.rest, ',').value);
      if more == None then None else Some(Read([first.value.value] + more.value.value, more.value.rest))
  }

  /** "group by" and "order by". The word without "by" after it is read and dropped. */
  function ClauseList(ts: seq<string>, w: string): (r: Option<Read<seq<string>>>)
    ensures r.Some? ==> |r.value.rest| <= |ts|
  {
    if !MatchKeyword(ts, w) then Some(Read([], ts))
    else if !MatchKeyword(ts[1..], "by") then Some(Read([], ts[1..]))
    else FieldList(ts[1..][1..])
  }

  function NatOf(s: string): nat
    requires AllDigits(s)
  {
    if s == "" then 0 else NatOf(s[..|s| - 1]) * 10 + (s[|s| - 1] as int - '0' as int)
  }

  function Unquote(s: string): string {
    if |s| >= 2 && s[0] == '\'' && s[|s| - 1] == '\'' then s[1..|s| - 1] else s
  }

  function ParseConstant(ts: seq<string>): (r: Option<Read<Constant>>)
    ensures r.Some? ==> |r.value.rest| < |ts|
  {
    if MatchKeyword(ts, "true") then Some(Read(IntVal(1), ts[1..]))
    else if MatchKeyword(ts, "false") then Some(Read(IntVal(0), ts[1..]))
    else if ts != [] && MatchDelimiter(ts, '\'') then Some(Read(StrVal(Unquote(Lower(ts[0]))), ts[1..]))
    else if ts != [] && AllDigits(ts[0]) then Some(Read(IntVal(NatOf(ts[0])), ts[1..]))
    else None
  }

  function ParseExpression(ts: seq<string>): (r: Option<Read<Expression>>)
    ensures r.Some? ==> |r.value.rest| < |ts|
  {
    if MatchIdentifier(ts) then Some(Read(Field(Lower(ts[0])), ts[1..]))
    else
      var c := ParseConstant(ts);
      if c == None then None else Some(Read(Const(c.value.value), c.value.rest))
  }

  function ParseTerm(ts: seq<string>): (r: Option<Read<Term>>)
    ensures r.Some? ==> |r.value.rest| < |ts|
  {
    var lhs := ParseExpression(ts);
    if lhs == None || !MatchDelimiter(lhs.value.rest, '=') then None
    else
      var rhs := ParseExpression(EatDelimiter(lhs.value.rest, '=').value);
      if rhs == None then None else Some(Read(Term(lhs.value.value, rhs.value.value), rhs.value.rest))
  }

  function ParsePredicate(ts: seq<string>): (r: Option<Read<Predicate>>)
    ensures r.Some? ==> |r.value.rest| < |ts|
    decreases |ts|
  {
    var t := ParseTerm(ts);
    if t == None then None
    else if !MatchKeyword(t.value.rest, "and") then Some(Read([t.value.value], t.value.rest))
    else
      var more := ParsePredicate(t.value.rest[1..]);
      if more == None then None else Some(Read([t.value.value] + more.value.value, more.value.rest))
  }

  function ParseWhere(ts: seq<string>): (r: Option<Read<Predicate>>)
    ensures r.Some? ==> |r.value.rest| <= |ts|
  {
    if MatchKeyword(ts, "where") then ParsePredicate(ts[1..]) else Some(Read([], ts))
  }

  /** std::set::insert on the names in order. */
  function AddName(names: seq<string>, s: string): seq<string> {
    if names == [] then [s]
    else if StrLess(s, names[0]) then [s] + names
    else if s == names[0] then names
    else [names[0]] + AddName(names[1..], s)
  }

  datatype TableData = TableData(names: seq<string>, queries: seq<QueryData>)

  /** One table or one subquery in parentheses. */
  function ParseItem(ts: seq<string>, d: TableData): (r: Option<Read<TableData>>)
    ensures r.Some? ==> |r.value.rest| < |ts|
    decreases |ts|, 0
  {
    if MatchDelimiter(ts, '(') then
      var q := ParseQuery(EatDelimiter(ts, '(').value);
      if q == None || !MatchDelimiter(q.value.rest, ')') then None
      else Some(Read(d.(queries := d.queries + [q.value.value]), EatDelimiter(q.value.rest, ')').value))
    else
      var name := EatIdentifier(ts);
      if name == None then None else Some(Read(d.(names := AddName(d.names, name.value.value)), name.value.rest))
  }

  function ParseTables(ts: seq<string>, d: TableData): (r: Option<Read<TableData>>)
    ensures r.Some? ==> |r.value.rest| < |ts|
    decreases |ts|, 1
  {
    var item := ParseItem(ts, d);
    if item == None then None
    else if !MatchDelimiter(item.value.rest, ',') then item
    else ParseTables(EatDelimiter(item.value.rest, ',').value, item.value.value)
  }

  function ParseQuery(ts: seq<string>): (r: Option<Read<QueryData>>)
    ensures r.Some? ==> |r.value.rest| < |ts|
    decreases |ts|, 2
  {
    var t0 := EatKeyword(ts, "select");
    if t0 == None then None else
    var fields := FieldList(t0.value);
    if fields == None then None else
    var t1 := EatKeyword(fields.value.rest, "from");
    if t1 == None then None else
    var tables := ParseTables(t1.value, TableData([], []));
    if tables == None then None else
    ParseRest(fields.value.value, tables.value)
  }

  /** The clauses after the tables. */
  function ParseRest(fields: seq<string>, tables: Read<TableData>): (r: Option<Read<QueryData>>)
    ensures r.Some? ==> |r.value.rest| <= |tables.rest|
  {
    var pred := ParseWhere(tables.rest);
    if pred == None then None else
    var group := ClauseList(pred.value.rest, "group");
    if group == None then None else
    var sort := ClauseList(group.value.rest, "order");
    if sort == None then None else
    Some(Read(QueryData(fields, tables.value.names, tables.value.queries, pred.value.value, group.value.value, sort.value.value),
              sort.value.rest))
  }

  /** Parser(text).query(). Tokens after the query are not looked at. */
  function Parse(s: string): Option<QueryData> {
    var r := ParseQuery(Tokenize(s, ""));
    if r == None then None else Some(r.value.value)
  }

  // ---------------------------------------------------------------- the parser

  /** A rule has done what its grammar function says. */
  ghost predicate Did<T>(r: Option<T>, after: seq<string>, spec: Option<Read<T>>) {
    match spec
    case None => r == None
    case Some(s) => r == Some(s.value) && after == s.rest
  }

  class Parser {
    const tokens: seq<string>
    var pos: nat

    ghost predicate Valid()
      reads this
    {
      pos <= |tokens|
    }

    /** The tokens left. */
    function Left(): seq<string>
      requires Valid()
      reads this
    {
      tokens[pos..]
    }

    constructor (query: string)
      ensures Valid() && Left() == Tokenize(query, "")
    {
      tokens := Tokenize(query, "");
      pos := 0;
    }

    method NextToken()
      requires Valid()
      modifies this
      ensures Valid() && Left() == if old(Left()) == [] then [] else old(Left())[1..]
    {
      if pos < |tokens| {
        pos := pos + 1;
      }
    }

    method Delimiter(c: char) returns (ok: bool)
      requires Valid()
      modifies this
      ensures Valid() && ok == MatchDelimiter(old(Left()), c) && (ok ==> Left() == EatDelimiter(old(Left()), c).value)
    {
      ok := MatchDelimiter(Left(), c);
      if ok {
        NextToken();
      }
    }

    method Keyword(w: string) returns (ok: bool)
      requires Valid()
      modifies this
      ensures Valid() && ok == MatchKeyword(old(Left()), w) && (ok ==> Left() == old(Left())[1..])
    {
      ok := MatchKeyword(Left(), w);
      if ok {
        NextToken();
      }
    }

    method Identifier() returns (r: Option<string>)
      requires Valid()
      modifies this
      ensures Valid() && Did(r, Left(), EatIdentifier(old(Left())))
    {
      if MatchIdentifier(Left()) {
        r := Some(Lower(Left()[0]));
        NextToken();
      } else {
        r := None;
      }
    }

    method Fields() returns (r: Option<seq<string>>)
      requires Valid()
      modifies this
      ensures Valid() && Did(r, Left(), FieldList(old(Left())))
      decreases |Left()|
    {
      hide Kind, Lower;
      var first := Identifier();
      if first == None {
        return None;
      }
      if !MatchDelimiter(Left(), ',') {
        return Some([first.value]);
      }
      var ok := Delimiter(',');
      var more := Fields();
      r := if more == None then None else Some([first.value] + more.value);
    }

    method Clause(w: string) returns (r: Option<seq<string>>)
      requires Valid()
      modifies this
      ensures Valid() && Did(r, Left(), ClauseList(old(Left()), w))
    {
      hide Kind, Lower, FieldList;
      var ok := MatchKeyword(Left(), w);
      if !ok {
        return Some([]);
      }
      ok := Keyword(w);
      if !MatchKeyword(Left(), "by") {
        return Some([]);
      }
      ok := Keyword("by");
      r := Fields();
    }

    method ConstantValue() returns (r: Option<Constant>)
      requires Valid()
      modifies this
      ensures Valid() && Did(r, Left(), ParseConstant(old(Left())))
    {
      hide Kind, Lower, NatOf;
      if MatchKeyword(Left(), "true") {
        r := Some(IntVal(1));
      } else if MatchKeyword(Left(), "false") {
        r := Some(IntVal(0));
      } else if Left() != [] && MatchDelimiter(Left(), '\'') {
        r := Some(StrVal(Unquote(Lower(Left()[0]))));
      } else if Left() != [] && AllDigits(Left()[0]) {
        r := Some(IntVal(NatOf(Left()[0])));
      } else {
        return None;
      }
      NextToken();
    }

    method Expr() returns (r: Option<Expression>)
      requires Valid()
      modifies this
      ensures Valid() && Did(r, Left(), ParseExpression(old(Left())))
    {
      hide Kind, Lower, ParseConstant;
      if MatchIdentifier(Left()) {
        var name := Identifier();
        return Some(Field(name.value));
      }
      var c := ConstantValue();
      r := if c == None then None else Some(Const(c.value));
    }

    method Condition() returns (r: Option<Term>)
      requires Valid()
      modifies this
      ensures Valid() && Did(r, Left(), ParseTerm(old(Left())))
    {
      hide Kind, Lower, ParseExpression;
      var lhs := Expr();
      if lhs == None {
        return None;
      }
      var ok := Delimiter('=');
      if !ok {
        return None;
      }
      var rhs := Expr();
      r := if rhs == None then None else Some(Term(lhs.value, rhs.value));
    }

    method Conditions() returns (r: Option<Predicate>)
      requires Valid()
      modifies this
      ensures Valid() && Did(r, Left(), ParsePredicate(old(Left())))
      decreases |Left()|
    {
      hide Kind, Lower, ParseTerm;
      var t := Condition();
      if t == None {
        return None;
      }
      if !MatchKeyword(Left(), "and") {
        return Some([t.value]);
      }
      var ok := Keyword("and");
      var more := Conditions();
      r := if more == None then None else Some([t.value] + more.value);
    }

    method Where() returns (r: Option<Predicate>)
      requires Valid()
      modifies this
      ensures Valid() && Did(r, Left(), ParseWhere(old(Left())))
    {
      hide Kind, Lower, ParsePredicate;
      if !MatchKeyword(Left(), "where") {
        return Some([]);
      }
      var ok := Keyword("where");
      r := Conditions();
    }

    method Item(d: TableData) returns (r: Option<TableData>)
      requires Valid()
      modifies this
      ensures Valid() && Did(r, Left(), ParseItem(old(Left()), d))
      decreases |Left()|, 0
    {
      hide Kind, Lower, ParseQuery, AddName;
      if MatchDelimiter(Left(), '(') {
        var ok := Delimiter('(');
        var q := QueryRule();
        if q == None {
          return None;
        }
        ok := Delimiter(')');
        if !ok {
          return None;
        }
        r := Some(d.(queries := d.queries + [q.value]));
      } else {
        var name := Identifier();
        r := if name == None then None else Some(d.(names := AddName(d.names, name.value)));
      }
    }

    method Tables() returns (r: Option<TableData>)
      requires Valid()
      modifies this
      ensures Valid() && Did(r, Left(), ParseTables(old(Left()), TableData([], [])))
      decreases |Left()|, 1
    {
      hide Kind, Lower, ParseItem;
      ghost var spec := ParseTables(Left(), TableData([], []));
      ghost var here := Left();
      r := Item(TableData([], []));
      while r != None && MatchDelimiter(Left(), ',')
        invariant Valid()
        invariant r == None ==> spec == None
        invariant r != None ==> |Left()| < |old(Left())|
        invariant r != None ==> spec == if MatchDelimiter(Left(), ',') then ParseTables(EatDelimiter(Left(), ',').value, r.value) else Some(Read(r.value, Left()))
        decreases if r == None then 0 else 1 + |Left()|
      {
        var ok := Delimiter(',');
        r := Item(r.value);
      }
    }

    method QueryRule() returns (r: Option<QueryData>)
      requires Valid()
      modifies this
      ensures Valid() && Did(r, Left(), ParseQuery(old(Left())))
      decreases |Left()|, 2
    {
      hide Kind, Lower, FieldList, ParseTables, ParseRest;
      var ok := Keyword("select");
      if !ok {
        return None;
      }
      var fields := Fields();
      if fields == None {
        return None;
      }
      ok := Keyword("from");
      if !ok {
        return None;
      }
      var tables := Tables();
      if tables == None {
        return None;
      }
      r := Clauses(fields.value, tables.value);
    }

    method Clauses(fields: seq<string>, d: TableData) returns (r: Option<QueryData>)
      requires Valid()
      modifies this
      ensures Valid() && Did(r, Left(), ParseRest(fields, Read(d, old(Left()))))
    {
      hide Kind, Lower, ParseWhere, ClauseList;
      var pred := Where();
      if pred == None {
        return None;
      }
      var group := Clause("group");
      if group == None {
        return None;
      }
      var sort := Clause("order");
      if sort == None {
        return None;
      }
      r := Some(QueryData(fields, d.names, d.queries, pred.value, group.value, sort.value));
    }
  }

  /** Parsing a text from its start. */
  method ParseText(text: string) returns (q: Option<QueryData>)
    ensures q == Parse(text)
  {
    hide ParseQuery;
    var p := new Parser(text);
    q := p.QueryRule();
  }
}
