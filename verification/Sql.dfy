/** The fragment of SQL the writer emits: lexer, syntax tree, parser.
    Delimited identifiers follow section 5.2 of ISO/IEC 9075-2: a doubled quote
    stands for a quote and the body must not be empty. */
module Sql {
  import opened Wrappers
  import opened Connector
  import opened Text

  // ---- Lexer ----

  datatype Token = Ident(name: string) | Word(text: string) | Param(n: nat) | Sym(c: char)

  predicate IsLetter(c: char) {
    'A' <= c <= 'Z' || 'a' <= c <= 'z' || c == '_'
  }

  predicate IsPunct(c: char) {
    c == '(' || c == ')' || c == ',' || c == '.' || c == '='
  }

  /** Length of the longest prefix of letters (or of digits). */
  function Letters(s: string): (n: nat)
    ensures n <= |s| && (n < |s| ==> !IsLetter(s[n]))
    ensures forall i :: 0 <= i < n ==> IsLetter(s[i])
  {
    if s == "" || !IsLetter(s[0]) then 0 else 1 + Letters(s[1..])
  }

  function Digits(s: string): (n: nat)
    ensures n <= |s| && (n < |s| ==> !IsDigit(s[n]))
    ensures forall i :: 0 <= i < n ==> IsDigit(s[i])
  {
    if s == "" || !IsDigit(s[0]) then 0 else 1 + Digits(s[1..])
  }

  /** The body of a delimited identifier, opening quote already consumed. */
  function Quoted(s: string): (r: Option<(string, string)>)
    ensures r.Some? ==> |r.value.1| < |s|
  {
    if s == "" then None
    else if s[0] != '"' then
      var (name, rest) :- Quoted(s[1..]);
      Some(([s[0]] + name, rest))
    else if |s| > 1 && s[1] == '"' then
      var (name, rest) :- Quoted(s[2..]);
      Some((['"'] + name, rest))
    else Some(("", s[1..]))
  }

  /** Concatenation of token streams; an unlexable part spoils the whole. */
  function Cat(a: Option<seq<Token>>, b: Option<seq<Token>>): Option<seq<Token>> {
    if a.Some? && b.Some? then Some(a.value + b.value) else None
  }

  /** The first lexeme: its token (none for a space) and the text after it. */
  function Lexeme(s: string): (r: Option<(seq<Token>, string)>)
    requires s != ""
    ensures r.Some? ==> |r.value.1| < |s|
  {
    if s[0] == ' ' then Some(([], s[1..]))
    else if s[0] == '"' then
      var (name, rest) :- Quoted(s[1..]);
      if name == "" then None else Some(([Ident(name)], rest))
    else if s[0] == '$' then
      var n := Digits(s[1..]);
      if n == 0 then None else Some(([Param(ParseDecimal(s[1..][..n]))], s[1..][n..]))
    else if IsLetter(s[0]) then Some(([Word(s[..Letters(s)])], s[Letters(s)..]))
    else if IsPunct(s[0]) then Some(([Sym(s[0])], s[1..]))
    else None
  }

  function Lex(s: string): Option<seq<Token>>
    decreases |s|
  {
    if s == "" then Some([])
    else
      var (ts, rest) :- Lexeme(s);
      Cat(Some(ts), Lex(rest))
  }

  // ---- Syntax tree ----

  datatype Stmt =
    | InsertInto(into: TableRef, cols: seq<string>, params: seq<nat>, conflict: seq<string>, action: Action)
    | DeleteFrom(from: TableRef, filter: seq<(string, nat)>)

  /** What ON CONFLICT does; each pair (c, e) is `c = EXCLUDED.e`. */
  datatype Action = DoNothing | DoUpdate(sets: seq<(string, string)>)

  // ---- Parser ----

  type Parsed<T> = Option<(T, seq<Token>)>

  function Expect(prefix: seq<Token>, ts: seq<Token>): Option<seq<Token>> {
    if prefix <= ts then Some(ts[|prefix|..]) else None
  }

  function ParseIdent(ts: seq<Token>): Parsed<string> {
    if ts != [] && ts[0].Ident? then Some((ts[0].name, ts[1..])) else None
  }

  function ParseParam(ts: seq<Token>): Parsed<nat> {
    if ts != [] && ts[0].Param? then Some((ts[0].n, ts[1..])) else None
  }

  function ParseTable(ts: seq<Token>): Parsed<TableRef> {
    var (first, r) :- ParseIdent(ts);
    if r != [] && r[0] == Sym('.') then
      var (second, r') :- ParseIdent(r[1..]);
      Some((TableRef(first, second), r'))
    else Some((TableRef("", first), r))
  }

  /** `c = EXCLUDED.e` */
  function ParseSet(ts: seq<Token>): Parsed<(string, string)> {
    var (c, r) :- ParseIdent(ts);
    var r :- Expect([Sym('='), Word("EXCLUDED"), Sym('.')], r);
    var (e, r) :- ParseIdent(r);
    Some(((c, e), r))
  }

  /** `c = $n` */
  function ParseTest(ts: seq<Token>): Parsed<(string, nat)> {
    var (c, r) :- ParseIdent(ts);
    var r :- Expect([Sym('=')], r);
    var (n, r) :- ParseParam(r);
    Some(((c, n), r))
  }

  /** One or more items separated by `sep`. */
  function ParseList<T>(item: seq<Token> -> Parsed<T>, sep: Token, ts: seq<Token>): Parsed<seq<T>>
    decreases |ts|
  {
    var (x, r) :- item(ts);
    if r != [] && r[0] == sep && |r| <= |ts| then
      var (xs, r') :- ParseList(item, sep, r[1..]);
      Some(([x] + xs, r'))
    else Some(([x], r))
  }

  /** `) DO NOTHING` or `) DO UPDATE SET ...`, to the end of the statement. */
  function ParseAction(ts: seq<Token>): Option<Action> {
    var r :- Expect([Sym(')'), Word("DO")], ts);
    if r == [Word("NOTHING")] then Some(DoNothing)
    else
      var r :- Expect([Word("UPDATE"), Word("SET")], r);
      var (sets, r) :- ParseList(ParseSet, Sym(','), r);
      if r == [] then Some(DoUpdate(sets)) else None
  }

  function ParseConflict(ts: seq<Token>): Option<(seq<string>, Action)> {
    var r :- Expect([Sym(')'), Word("ON"), Word("CONFLICT"), Sym('(')], ts);
    var (conflict, r) :- ParseList(ParseIdent, Sym(','), r);
    var action :- ParseAction(r);
    Some((conflict, action))
  }

  function ParseInsert(ts: seq<Token>): Option<Stmt> {
    var r :- Expect([Word("INSERT"), Word("INTO")], ts);
    var (t, r) :- ParseTable(r);
    var r :- Expect([Sym('(')], r);
    var (cols, r) :- ParseList(ParseIdent, Sym(','), r);
    var r :- Expect([Sym(')'), Word("VALUES"), Sym('(')], r);
    var (params, r) :- ParseList(ParseParam, Sym(','), r);
    var (conflict, action) :- ParseConflict(r);
    Some(InsertInto(t, cols, params, conflict, action))
  }

  function ParseDelete(ts: seq<Token>): Option<Stmt> {
    var r :- Expect([Word("DELETE"), Word("FROM")], ts);
    var (t, r) :- ParseTable(r);
    var r :- Expect([Word("WHERE")], r);
    var (filter, r) :- ParseList(ParseTest, Word("AND"), r);
    if r == [] then Some(DeleteFrom(t, filter)) else None
  }

  /** Text to statement: what the database server makes of a query string. */
  function Parse(text: string): Option<Stmt> {
    var ts :- Lex(text);
    if ts != [] && ts[0] == Word("INSERT") then ParseInsert(ts) else ParseDelete(ts)
  }

  // ---- Lexing a concatenation ----

  lemma CatAssociative(a: Option<seq<Token>>, b: Option<seq<Token>>, c: Option<seq<Token>>)
    ensures Cat(a, Cat(b, c)) == Cat(Cat(a, b), c)
  {
    if a.Some? && b.Some? && c.Some? {
      assert a.value + (b.value + c.value) == (a.value + b.value) + c.value;
    }
  }

  /** A text that cannot extend the token before it. */
  predicate Boundary(s: string) {
    s == "" || s[0] == ' ' || IsPunct(s[0])
  }

  predicate Closed(s: string) {
    s != "" && (s[|s| - 1] == ' ' || IsPunct(s[|s| - 1]))
  }

  lemma {:induction false} LettersAppend(a: string, rest: string)
    requires Boundary(rest) || (Closed(a))
    ensures Letters(a + rest) == Letters(a)
  {
    if a != "" && IsLetter(a[0]) {
      assert (a + rest)[1..] == a[1..] + rest;
      LettersAppend(a[1..], rest);
    }
  }

  lemma {:induction false} DigitsAppend(a: string, rest: string)
    requires Boundary(rest) || (Closed(a))
    ensures Digits(a + rest) == Digits(a)
  {
    if a != "" && IsDigit(a[0]) {
      assert (a + rest)[1..] == a[1..] + rest;
      DigitsAppend(a[1..], rest);
    }
  }

  lemma {:induction false} QuotedAppend(a: string, rest: string)
    requires Quoted(a).Some? && (Boundary(rest) || Closed(a))
    ensures Quoted(a + rest) == Some((Quoted(a).value.0, Quoted(a).value.1 + rest))
    ensures Closed(a) ==> Quoted(a).value.1 == "" || Closed(Quoted(a).value.1)
  {
    if a[0] != '"' {
      assert (a + rest)[1..] == a[1..] + rest;
      QuotedAppend(a[1..], rest);
    } else if |a| == 1 {
      assert !Closed(a) && a[1..] == "" && (a + rest)[1..] == rest;
      assert rest != "" ==> (a + rest)[1] == rest[0] && rest[0] != '"';
      assert Quoted(a + rest) == Some(("", rest)) && Quoted(a) == Some(("", "")) && "" + rest == rest;
    } else if a[1] == '"' {
      assert (a + rest)[2..] == a[2..] + rest;
      QuotedAppend(a[2..], rest);
    } else {
      assert (a + rest)[1..] == a[1..] + rest && (a + rest)[1] == a[1];
    }
  }

  lemma LexemeAppend(a: string, rest: string)
    requires a != "" && Lexeme(a).Some? && (Boundary(rest) || Closed(a))
    ensures Lexeme(a + rest) == Some((Lexeme(a).value.0, Lexeme(a).value.1 + rest))
    ensures Boundary(rest) || Lexeme(a).value.1 == "" || Closed(Lexeme(a).value.1)
  {
    assert (a + rest)[1..] == a[1..] + rest;
    if a[0] == '"' {
      QuotedAppend(a[1..], rest);
    } else if a[0] == '$' {
      DigitsAppend(a[1..], rest);
      SplitAppend(a[1..], Digits(a[1..]), rest);
    } else if IsLetter(a[0]) {
      LettersAppend(a, rest);
      SplitAppend(a, Letters(a), rest);
    }
  }

  lemma SplitAppend(a: string, n: nat, rest: string)
    requires n <= |a|
    ensures (a + rest)[..n] == a[..n] && (a + rest)[n..] == a[n..] + rest
  {}

  /** Tokens never straddle a boundary, so a lexable prefix lexes on its own. */
  lemma {:induction false} LexAppend(a: string, rest: string)
    requires Lex(a).Some? && (a == "" || Boundary(rest) || Closed(a))
    ensures Lex(a + rest) == Cat(Lex(a), Lex(rest))
    decreases |a|
  {
    if a == "" {
      assert a + rest == rest;
      assert forall ts: seq<Token> :: [] + ts == ts;
    } else {
      LexemeAppend(a, rest);
      var (ts, tail) := Lexeme(a).value;
      LexAppend(tail, rest);
      CatAssociative(Some(ts), Lex(tail), Lex(rest));
    }
  }

  /** `text` lexes to `toks` (None: to no tokens at all) before any boundary. */
  ghost predicate LexesAs(text: string, toks: Option<seq<Token>>) {
    forall rest :: Boundary(rest) ==> Lex(text + rest) == Cat(toks, Lex(rest))
  }

  function JoinToks(items: seq<Option<seq<Token>>>, sep: seq<Token>): Option<seq<Token>> {
    if items == [] then Some([])
    else if |items| == 1 then items[0]
    else Cat(items[0], Cat(Some(sep), JoinToks(items[1..], sep)))
  }

  lemma {:induction false} JoinToksLexable(items: seq<Option<seq<Token>>>, sep: seq<Token>)
    ensures JoinToks(items, sep).Some? <==> forall i :: 0 <= i < |items| ==> items[i].Some?
  {
    if |items| > 1 {
      JoinToksLexable(items[1..], sep);
      assert forall i :: 1 <= i < |items| ==> items[i] == items[1..][i - 1];
    }
  }

  /** Three parts, the middle one a literal closed at both ends. */
  lemma LexAround(a: string, ta: Option<seq<Token>>, lit: string, b: string, tb: Option<seq<Token>>)
    requires LexesAs(a, ta) && LexesAs(b, tb)
    requires Boundary(lit) && Closed(lit) && Lex(lit).Some?
    ensures LexesAs(a + (lit + b), Cat(ta, Cat(Lex(lit), tb)))
  {
    forall rest | Boundary(rest)
      ensures Lex((a + (lit + b)) + rest) == Cat(Cat(ta, Cat(Lex(lit), tb)), Lex(rest))
    {
      assert (a + (lit + b)) + rest == a + (lit + (b + rest));
      LexAppend(lit, b + rest);
      CatAssociative(Lex(lit), tb, Lex(rest));
      CatAssociative(ta, Cat(Lex(lit), tb), Lex(rest));
    }
  }

  lemma {:induction false} LexJoin(parts: seq<string>, items: seq<Option<seq<Token>>>, sep: string)
    requires |parts| == |items| && forall i :: 0 <= i < |parts| ==> LexesAs(parts[i], items[i])
    requires Boundary(sep) && Closed(sep) && Lex(sep).Some?
    ensures LexesAs(Join(parts, sep), JoinToks(items, Lex(sep).value))
  {
    if |parts| > 1 {
      LexJoin(parts[1..], items[1..], sep);
      LexAround(parts[0], items[0], sep, Join(parts[1..], sep), JoinToks(items[1..], Lex(sep).value));
    } else if parts == [] {
      forall rest ensures "" + rest == rest && Cat(Some([]), Lex(rest)) == Lex(rest) {
        assert forall ts: seq<Token> :: [] + ts == ts;
      }
    }
  }

  /** Printing a list and parsing it back recovers it. */
  lemma {:induction false} ParseListPrinted<T>(item: seq<Token> -> Parsed<T>, vals: seq<T>,
      items: seq<Option<seq<Token>>>, sep: Token, rest: seq<Token>)
    requires |vals| == |items| > 0
    requires forall i :: 0 <= i < |items| ==> items[i].Some?
    requires forall i, r :: 0 <= i < |items| ==> item(items[i].value + r) == Some((vals[i], r))
    requires rest == [] || rest[0] != sep
    requires JoinToks(items, [sep]).Some?
    ensures ParseList(item, sep, JoinToks(items, [sep]).value + rest) == Some((vals, rest))
  {
    if |items| > 1 {
      var toks := JoinToks(items, [sep]).value;
      JoinToksLexable(items[1..], [sep]);
      var more := JoinToks(items[1..], [sep]).value;
      var tail := [sep] + (more + rest);
      assert toks + rest == items[0].value + tail;
      assert item(items[0].value + tail) == Some((vals[0], tail));
      ParseListPrinted(item, vals[1..], items[1..], sep, rest);
      assert tail[1..] == more + rest;
      assert vals == [vals[0]] + vals[1..];
    } else {
      assert item(items[0].value + rest) == Some((vals[0], rest));
      assert vals == [vals[0]];
    }
  }
}
