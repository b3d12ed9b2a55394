/** Tokens (src/parse/StreamTokenizer.cpp, src/parse/Lexer.cpp): spaces separate tokens, a comma is a token. */
module Tokens {

  /** A token that has ended, if it has any characters. */
  function Flush(cur: string): seq<string> {
    if cur == "" then [] else [cur]
  }

  /** The tokens of a text; cur is the part of the current token read so far. */
  function Tokenize(s: string, cur: string): seq<string> {
    if s == "" then Flush(cur)
    else if s[0] == ' ' then Flush(cur) + Tokenize(s[1..], "")
    else if s[0] == ',' then Flush(cur) + [","] + Tokenize(s[1..], "")
    else Tokenize(s[1..], cur + [s[0]])
  }

  predicate IsDigit(c: char) {
    '0' <= c <= '9'
  }

  predicate IsAlnum(c: char) {
    IsDigit(c) || 'a' <= c <= 'z' || 'A' <= c <= 'Z'
  }

  function ToLower(c: char): char {
    if 'A' <= c <= 'Z' then ((c as int) + 32) as char else c
  }

  function Lower(s: string): (t: string)
    ensures |t| == |s| && forall i :: 0 <= i < |s| ==> t[i] == ToLower(s[i])
  {
    if s == "" then "" else [ToLower(s[0])] + Lower(s[1..])
  }

  predicate AllDigits(s: string) {
    forall i :: 0 <= i < |s| ==> IsDigit(s[i])
  }

  predicate AllAlnum(s: string) {
    forall i :: 0 <= i < |s| ==> IsAlnum(s[i])
  }

  /** ttype of the first token left. */
  function Kind(ts: seq<string>): (k: string)
    ensures k != ""
  {
    if ts == [] then "EOF"
    else if AllDigits(ts[0]) then "NUMBER"
    else if AllAlnum(ts[0]) then "WORD"
    else if ts[0][0] == '\'' then "'"
    else Lower(ts[0])
  }

  const KEYWORDS := [
    "select", "from", "where", "and", "insert", "into", "values", "delete", "update", "set", "create", "table",
    "varchar", "int", "bool", "true", "false", "view", "as", "index", "on"]

  predicate MatchDelimiter(ts: seq<string>, c: char) {
    Kind(ts)[0] == c
  }

  predicate MatchKeyword(ts: seq<string>, w: string) {
    Kind(ts) == "WORD" && ts != [] && Lower(ts[0]) == w
  }

  predicate MatchIdentifier(ts: seq<string>) {
    Kind(ts) == "WORD" && ts != [] && Lower(ts[0]) !in KEYWORDS
  }

  function ToUpper(c: char): char {
    if 'a' <= c <= 'z' then ((c as int) - 32) as char else c
  }

  function Upper(s: string): (t: string)
    ensures |t| == |s| && forall i :: 0 <= i < |s| ==> t[i] == ToUpper(s[i])
  {
    if s == "" then "" else [ToUpper(s[0])] + Upper(s[1..])
  }

  /** Capitals make no difference to keywords and identifiers. */
  lemma {:induction false} CapitalsSame(s: string, rest: seq<string>, w: string)
    ensures Lower(Upper(s)) == Lower(s) && forall i :: 0 <= i < |s| ==> !('A' <= Lower(s)[i] <= 'Z')
    ensures MatchKeyword([Upper(s)] + rest, w) <==> MatchKeyword([s] + rest, w)
    ensures MatchIdentifier([Upper(s)] + rest) <==> MatchIdentifier([s] + rest)
  {
    hide Lower, Upper;
    var u := Upper(s);
    forall i | 0 <= i < |s| ensures Lower(u)[i] == Lower(s)[i] && (IsDigit(u[i]) <==> IsDigit(s[i])) && (IsAlnum(u[i]) <==> IsAlnum(s[i])) {
    }
    assert Lower(u) == Lower(s);
    assert AllDigits(u) <==> AllDigits(s);
    assert AllAlnum(u) <==> AllAlnum(s);
    if s != "" && !AllDigits(s) && !AllAlnum(s) {
      NotWord(s, rest);
      NotWord(u, rest);
    }
  }

  /** What is neither letters nor digits is no word. */
  lemma {:induction false} NotWord(s: string, rest: seq<string>)
    requires !AllDigits(s) && !AllAlnum(s)
    ensures Kind([s] + rest) != "WORD"
  {
    assert "WORD"[0] == 'W';
    assert s != "" && Lower(s)[0] == ToLower(s[0]);
  }

  // ---------------------------------------------------------------- texts and their tokens

  predicate IsSeparator(c: char) {
    c == ' ' || c == ','
  }

  predicate NoSeparators(s: string) {
    forall i :: 0 <= i < |s| ==> !IsSeparator(s[i])
  }

  /** What follows a text ends its last token. */
  predicate Breaks(rest: string) {
    rest == "" || IsSeparator(rest[0])
  }

  /** The text s has the tokens ts, whatever follows. */
  ghost predicate Lexes(s: string, ts: seq<string>) {
    forall rest :: Breaks(rest) ==> Tokenize(s + rest, "") == ts + Tokenize(rest, "")
  }

  lemma {:induction false} LexWord(w: string, rest: string, cur: string)
    requires NoSeparators(w) && Breaks(rest) && cur + w != ""
    ensures Tokenize(w + rest, cur) == [cur + w] + Tokenize(rest, "")
    decreases |w|
  {
    if w == "" {
      assert w + rest == rest;
      assert cur + w == cur;
    } else {
      assert (w + rest)[0] == w[0] && (w + rest)[1..] == w[1..] + rest;
      assert cur + w == (cur + [w[0]]) + w[1..];
      LexWord(w[1..], rest, cur + [w[0]]);
    }
  }

  lemma {:induction false} LexBreak(s: string, rest: string, cur: string)
    requires Breaks(rest)
    ensures Tokenize(s + rest, cur) == Tokenize(s, cur) + Tokenize(rest, "")
    decreases |s|
  {
    if s == "" {
      assert s + rest == rest;
    } else {
      assert (s + rest)[0] == s[0] && (s + rest)[1..] == s[1..] + rest;
      LexBreak(s[1..], rest, if IsSeparator(s[0]) then "" else cur + [s[0]]);
    }
  }

  /** A text keeps its tokens whatever follows. */
  lemma {:induction false} TextLexes(s: string)
    ensures Lexes(s, Tokenize(s, ""))
  {
    forall rest | Breaks(rest) ensures Tokenize(s + rest, "") == Tokenize(s, "") + Tokenize(rest, "") {
      LexBreak(s, rest, "");
    }
  }

  /** Where the first separator is. */
  function WordEnd(s: string): (n: nat)
    ensures n <= |s| && NoSeparators(s[..n]) && (n < |s| ==> IsSeparator(s[n]))
  {
    if s == "" || IsSeparator(s[0]) then 0
    else
      var n := WordEnd(s[1..]);
      assert s[..n + 1] == [s[0]] + s[1..][..n];
      n + 1
  }

  /** The first token of a text: a comma, or what is between the leading spaces and the next separator. */
  lemma {:induction false} FirstToken(s: string, at: nat) returns (k: nat, m: nat)
    requires at < |s| && !IsSeparator(s[at])
    ensures Tokenize(s, "") != [] && k <= at && forall i :: 0 <= i < k ==> s[i] == ' '
    ensures m == 0 ==> Tokenize(s, "")[0] == ","
    ensures m > 0 ==> k + m <= |s| && Tokenize(s, "")[0] == s[k..k + m] && NoSeparators(s[k..k + m])
    ensures m > 0 && k + m < |s| ==> IsSeparator(s[k + m])
    decreases |s|
  {
    if s[0] == ' ' {
      var rest := s[1..];
      k, m := FirstToken(rest, at - 1);
      if m > 0 {
        assert rest[k..k + m] == s[k + 1..k + 1 + m];
      }
      k := k + 1;
    } else if s[0] == ',' {
      k, m := 0, 0;
    } else {
      k, m := 0, WordEnd(s);
      assert s == s[..m] + s[m..];
      LexWord(s[..m], s[m..], "");
    }
  }

  lemma {:induction false} WordLexes(w: string)
    requires NoSeparators(w) && w != ""
    ensures Lexes(w, [w])
  {
    forall rest | Breaks(rest) ensures Tokenize(w + rest, "") == [w] + Tokenize(rest, "") {
      LexWord(w, rest, "");
      assert "" + w == w;
    }
  }

  lemma {:induction false} SpaceLexes(a: string, ta: seq<string>, b: string, tb: seq<string>)
    requires Lexes(a, ta) && Lexes(b, tb)
    ensures Lexes(a + " " + b, ta + tb)
  {
    forall rest | Breaks(rest) ensures Tokenize(a + " " + b + rest, "") == ta + tb + Tokenize(rest, "") {
      var more := " " + (b + rest);
      assert a + " " + b + rest == a + more;
      assert Breaks(more) && more[1..] == b + rest;
    }
  }

  /** The same for a text and tokens put together in another way. */
  lemma {:induction false} Spaced(a: string, ta: seq<string>, b: string, tb: seq<string>, s: string, ts: seq<string>)
    requires Lexes(a, ta) && Lexes(b, tb) && s == a + " " + b && ts == ta + tb
    ensures Lexes(s, ts)
  {
    hide Lexes;
    SpaceLexes(a, ta, b, tb);
  }

  lemma {:induction false} AfterComma(s: string)
    ensures Tokenize(", " + s, "") == [","] + Tokenize(s, "")
  {
    var t := ", " + s;
    assert t[1..] == " " + s && t[1..][1..] == s;
    assert Tokenize(t, "") == Flush("") + [","] + Tokenize(t[1..], "");
    assert Tokenize(t[1..], "") == Flush("") + Tokenize(s, "");
  }

  lemma {:induction false} CommaLexes(a: string, ta: seq<string>, b: string, tb: seq<string>)
    requires Lexes(a, ta) && Lexes(b, tb)
    ensures Lexes(a + ", " + b, ta + [","] + tb)
  {
    hide Tokenize;
    forall rest | Breaks(rest) ensures Tokenize(a + ", " + b + rest, "") == ta + [","] + tb + Tokenize(rest, "") {
      var more := ", " + (b + rest);
      assert a + ", " + b + rest == a + more && Breaks(more);
      AfterComma(b + rest);
    }
  }

  lemma {:induction false} LexesText(s: string, ts: seq<string>)
    requires Lexes(s, ts)
    ensures Tokenize(s, "") == ts
  {
    assert s + "" == s && Breaks("");
    assert Tokenize(s + "", "") == ts + Tokenize("", "");
  }

  /** The items with a comma and a space in between. */
  function Commas(items: seq<string>): string
    requires items != []
  {
    if |items| == 1 then items[0] else items[0] + ", " + Commas(items[1..])
  }

  function CommaTokens(items: seq<seq<string>>): seq<string>
    requires items != []
  {
    if |items| == 1 then items[0] else items[0] + [","] + CommaTokens(items[1..])
  }

  lemma {:induction false} CommasLex(items: seq<string>, toks: seq<seq<string>>)
    requires |items| == |toks| > 0 && forall i :: 0 <= i < |items| ==> Lexes(items[i], toks[i])
    ensures Lexes(Commas(items), CommaTokens(toks))
  {
    hide Lexes;
    if |items| > 1 {
      CommasLex(items[1..], toks[1..]);
      CommaLexes(items[0], toks[0], Commas(items[1..]), CommaTokens(toks[1..]));
    }
  }
}
