/** The statement texts of internal/connector/postgres/apply.go and what they parse to. */
module SqlGen {
  import opened Wrappers
  import opened Connector
  import opened Text
  import opened Sql

  // ---- The texts ----

  function Doubled(name: string): string {
    if name == "" then "" else (if name[0] == '"' then "\"\"" else [name[0]]) + Doubled(name[1..])
  }

  function QuoteIdent(name: string): string {
    "\"" + (Doubled(name) + "\"")
  }

  function QuoteTable(schema: string, table: string): string {
    if schema == "" then QuoteIdent(table) else QuoteIdent(schema) + ("." + QuoteIdent(table))
  }

  function Placeholder(n: nat): string {
    "$" + Decimal(n)
  }

  function SetClause(col: string): string {
    QuoteIdent(col) + (" = EXCLUDED." + QuoteIdent(col))
  }

  function TestClause(col: string, n: nat): string {
    QuoteIdent(col) + (" = " + Placeholder(n))
  }

  function NonKey(cols: seq<string>, pks: seq<string>): seq<string> {
    if cols == [] then []
    else (if cols[0] in pks then [] else [cols[0]]) + NonKey(cols[1..], pks)
  }

  function QuotedAll(cols: seq<string>): seq<string> {
    seq(|cols|, i requires 0 <= i < |cols| => QuoteIdent(cols[i]))
  }

  function Placeholders(n: nat): seq<string> {
    seq(n, i requires 0 <= i => Placeholder(i + 1))
  }

  function SetClauses(cols: seq<string>): seq<string> {
    seq(|cols|, i requires 0 <= i < |cols| => SetClause(cols[i]))
  }

  function TestClauses(cols: seq<string>): seq<string> {
    seq(|cols|, i requires 0 <= i < |cols| => TestClause(cols[i], i + 1))
  }

  function ActionText(sets: seq<string>): string {
    if sets == [] then ") DO NOTHING" else ") DO UPDATE SET " + Join(SetClauses(sets), ", ")
  }

  function ConflictText(cols: seq<string>, pks: seq<string>): string {
    ") ON CONFLICT (" + (Join(QuotedAll(pks), ", ") + ActionText(NonKey(cols, pks)))
  }

  function UpsertText(schema: string, table: string, cols: seq<string>, pks: seq<string>): string {
    "INSERT INTO " + (QuoteTable(schema, table) + (" (" + (Join(QuotedAll(cols), ", ") +
      (") VALUES (" + (Join(Placeholders(|cols|), ", ") + ConflictText(cols, pks))))))
  }

  function DeleteText(schema: string, table: string, pks: seq<string>): string {
    "DELETE FROM " + (QuoteTable(schema, table) + (" WHERE " + Join(TestClauses(pks), " AND ")))
  }

  // ---- The statements they stand for ----

  function Numbers(n: nat): seq<nat> {
    seq(n, i requires 0 <= i => i + 1)
  }

  function Sets(cols: seq<string>): seq<(string, string)> {
    seq(|cols|, i requires 0 <= i < |cols| => (cols[i], cols[i]))
  }

  function Tests(cols: seq<string>): seq<(string, nat)> {
    seq(|cols|, i requires 0 <= i < |cols| => (cols[i], i + 1))
  }

  function ActionOf(sets: seq<string>): Action {
    if sets == [] then DoNothing else DoUpdate(Sets(sets))
  }

  function UpsertStmt(schema: string, table: string, cols: seq<string>, pks: seq<string>): Stmt {
    InsertInto(TableRef(schema, table), cols, Numbers(|cols|), pks, ActionOf(NonKey(cols, pks)))
  }

  function DeleteStmt(schema: string, table: string, pks: seq<string>): Stmt {
    DeleteFrom(TableRef(schema, table), Tests(pks))
  }

  predicate Named(cols: seq<string>) {
    cols != [] && "" !in cols
  }

  // ---- Lexing the literal parts, last lexeme first ----

  predicate Lexical(head: string) {
    && head != ""
    && ((|head| == 1 && (head[0] == ' ' || IsPunct(head[0]))) || forall i :: 0 <= i < |head| ==> IsLetter(head[i]))
  }

  function HeadToks(head: string): seq<Token>
    requires Lexical(head)
  {
    if head == " " then [] else if IsLetter(head[0]) then [Word(head)] else [Sym(head[0])]
  }

  lemma LettersAll(w: string)
    requires forall i :: 0 <= i < |w| ==> IsLetter(w[i])
    ensures Letters(w) == |w|
  {}

  datatype Spelling = End | Put(head: string, tail: Spelling)

  function Spell(s: Spelling): string {
    if s.End? then "" else s.head + Spell(s.tail)
  }

  predicate Regular(s: Spelling) {
    s.Put? ==>
      && Lexical(s.head) && Regular(s.tail)
      && (IsLetter(s.head[0]) && s.tail.Put? ==> !IsLetter(s.tail.head[0]))
  }

  function SpellToks(s: Spelling): seq<Token>
    requires Regular(s)
  {
    if s.End? then [] else HeadToks(s.head) + SpellToks(s.tail)
  }

  lemma {:induction false} Spelled(s: Spelling, text: string, toks: seq<Token>)
    requires Regular(s) && text == Spell(s) && toks == SpellToks(s)
    ensures Lex(text) == Some(toks)
  {
    if s.Put? {
      Spelled(s.tail, Spell(s.tail), SpellToks(s.tail));
      assert text[|s.head|..] == Spell(s.tail) && text[..|s.head|] == s.head;
      if IsLetter(s.head[0]) {
        LettersAll(s.head);
        LettersAppend(s.head, Spell(s.tail));
      }
    }
  }

  lemma LexDot()
    ensures Lex(".") == Some([Sym('.')])
  {
    Spelled(Put(".", End), ".", [Sym('.')]);
  }

  lemma LexExcluded()
    ensures Lex(" = EXCLUDED.") == Some([Sym('='), Word("EXCLUDED"), Sym('.')])
  {
    Spelled(Put(" ", Put("=", Put(" ", Put("EXCLUDED", Put(".", End))))), " = EXCLUDED.",
            [Sym('='), Word("EXCLUDED"), Sym('.')]);
  }

  lemma LexEquals()
    ensures Lex(" = ") == Some([Sym('=')])
  {
    Spelled(Put(" ", Put("=", Put(" ", End))), " = ", [Sym('=')]);
  }

  lemma LexComma()
    ensures Lex(", ") == Some([Sym(',')])
  {
    Spelled(Put(",", Put(" ", End)), ", ", [Sym(',')]);
  }

  lemma LexAnd()
    ensures Lex(" AND ") == Some([Word("AND")])
  {
    Spelled(Put(" ", Put("AND", Put(" ", End))), " AND ", [Word("AND")]);
  }

  lemma LexInsertInto()
    ensures Lex("INSERT INTO ") == Some([Word("INSERT"), Word("INTO")])
  {
    Spelled(Put("INSERT", Put(" ", Put("INTO", Put(" ", End)))), "INSERT INTO ", [Word("INSERT"), Word("INTO")]);
  }

  lemma LexOpen()
    ensures Lex(" (") == Some([Sym('(')])
  {
    Spelled(Put(" ", Put("(", End)), " (", [Sym('(')]);
  }

  lemma LexValues()
    ensures Lex(") VALUES (") == Some([Sym(')'), Word("VALUES"), Sym('(')])
  {
    Spelled(Put(")", Put(" ", Put("VALUES", Put(" ", Put("(", End))))), ") VALUES (",
            [Sym(')'), Word("VALUES"), Sym('(')]);
  }

  lemma LexOnConflict()
    ensures Lex(") ON CONFLICT (") == Some([Sym(')'), Word("ON"), Word("CONFLICT"), Sym('(')])
  {
    var s := Put(")", Put(" ", Put("ON", Put(" ", Put("CONFLICT", Put(" ", Put("(", End)))))));
    assert Regular(s) && Spell(s) == ") ON CONFLICT (";
    Spelled(s, ") ON CONFLICT (", [Sym(')'), Word("ON"), Word("CONFLICT"), Sym('(')]);
  }

  lemma LexDoNothing()
    ensures Lex(") DO NOTHING") == Some([Sym(')'), Word("DO"), Word("NOTHING")])
  {
    var s := Put(")", Put(" ", Put("DO", Put(" ", Put("NOTHING", End)))));
    assert Regular(s) && Spell(s) == ") DO NOTHING";
    Spelled(s, ") DO NOTHING", [Sym(')'), Word("DO"), Word("NOTHING")]);
  }

  lemma LexDoUpdate()
    ensures Lex(") DO UPDATE SET ") == Some([Sym(')'), Word("DO"), Word("UPDATE"), Word("SET")])
  {
    var s := Put(")", Put(" ", Put("DO", Put(" ", Put("UPDATE", Put(" ", Put("SET", Put(" ", End))))))));
    assert Regular(s) && Spell(s) == ") DO UPDATE SET ";
    Spelled(s, ") DO UPDATE SET ", [Sym(')'), Word("DO"), Word("UPDATE"), Word("SET")]);
  }

  lemma LexDeleteFrom()
    ensures Lex("DELETE FROM ") == Some([Word("DELETE"), Word("FROM")])
  {
    Spelled(Put("DELETE", Put(" ", Put("FROM", Put(" ", End)))), "DELETE FROM ", [Word("DELETE"), Word("FROM")]);
  }

  lemma LexWhere()
    ensures Lex(" WHERE ") == Some([Word("WHERE")])
  {
    Spelled(Put(" ", Put("WHERE", Put(" ", End))), " WHERE ", [Word("WHERE")]);
  }

  // ---- Lexing the parts ----

  function IdentToks(name: string): Option<seq<Token>> {
    if name == "" then None else Some([Ident(name)])
  }

  function TableToks(schema: string, table: string): Option<seq<Token>> {
    if schema == "" then IdentToks(table)
    else Cat(IdentToks(schema), Cat(Some([Sym('.')]), IdentToks(table)))
  }

  function SetToks(col: string): Option<seq<Token>> {
    Cat(IdentToks(col), Cat(Some([Sym('='), Word("EXCLUDED"), Sym('.')]), IdentToks(col)))
  }

  function TestToks(col: string, n: nat): Option<seq<Token>> {
    Cat(IdentToks(col), Cat(Some([Sym('=')]), Some([Param(n)])))
  }

  /** Whatever the name contains, the closing quote is found where it was written. */
  lemma {:induction false} QuotedDoubled(name: string, rest: string)
    requires rest == "" || rest[0] != '"'
    ensures Quoted(Doubled(name) + ("\"" + rest)) == Some((name, rest))
  {
    var text := Doubled(name) + ("\"" + rest);
    if name == "" {
      assert text == "\"" + rest && text[1..] == rest;
    } else {
      QuotedDoubled(name[1..], rest);
      var tail := Doubled(name[1..]) + ("\"" + rest);
      if name[0] == '"' {
        assert text == "\"\"" + tail && text[2..] == tail;
      } else {
        assert text == [name[0]] + tail && text[1..] == tail;
      }
      assert name == [name[0]] + name[1..];
    }
  }

  lemma LexIdent(name: string)
    ensures LexesAs(QuoteIdent(name), IdentToks(name))
  {
    forall rest | Boundary(rest) ensures Lex(QuoteIdent(name) + rest) == Cat(IdentToks(name), Lex(rest)) {
      QuotedDoubled(name, rest);
      var text := QuoteIdent(name) + rest;
      assert text[1..] == Doubled(name) + ("\"" + rest);
    }
  }

  lemma LexPlaceholder(n: nat)
    ensures LexesAs(Placeholder(n), Some([Param(n)]))
  {
    forall rest | Boundary(rest) ensures Lex(Placeholder(n) + rest) == Cat(Some([Param(n)]), Lex(rest)) {
      var d := Decimal(n);
      var text := Placeholder(n) + rest;
      assert text[1..] == d + rest;
      DigitsAppend(d, rest);
      assert Digits(d) == |d|;
      assert (d + rest)[..|d|] == d && (d + rest)[|d|..] == rest;
      DecimalRoundTrip(n);
    }
  }

  lemma LexTable(schema: string, table: string)
    ensures LexesAs(QuoteTable(schema, table), TableToks(schema, table))
  {
    LexIdent(table);
    if schema != "" {
      LexIdent(schema);
      LexDot();
      LexAround(QuoteIdent(schema), IdentToks(schema), ".", QuoteIdent(table), IdentToks(table));
    }
  }

  lemma LexSet(col: string)
    ensures LexesAs(SetClause(col), SetToks(col))
  {
    LexIdent(col);
    LexExcluded();
    LexAround(QuoteIdent(col), IdentToks(col), " = EXCLUDED.", QuoteIdent(col), IdentToks(col));
  }

  lemma LexTest(col: string, n: nat)
    ensures LexesAs(TestClause(col, n), TestToks(col, n))
  {
    LexIdent(col);
    LexPlaceholder(n);
    LexEquals();
    LexAround(QuoteIdent(col), IdentToks(col), " = ", Placeholder(n), Some([Param(n)]));
  }

  // ---- Lexing a whole statement ----

  function IdentItems(cols: seq<string>): seq<Option<seq<Token>>> {
    seq(|cols|, i requires 0 <= i < |cols| => IdentToks(cols[i]))
  }

  function ParamItems(n: nat): seq<Option<seq<Token>>> {
    seq(n, i requires 0 <= i => Some([Param(i + 1)]))
  }

  function SetItems(cols: seq<string>): seq<Option<seq<Token>>> {
    seq(|cols|, i requires 0 <= i < |cols| => SetToks(cols[i]))
  }

  function TestItems(cols: seq<string>): seq<Option<seq<Token>>> {
    seq(|cols|, i requires 0 <= i < |cols| => TestToks(cols[i], i + 1))
  }

  function List(items: seq<Option<seq<Token>>>): Option<seq<Token>> {
    JoinToks(items, [Sym(',')])
  }

  const VALUES := [Sym(')'), Word("VALUES"), Sym('(')]
  const ON_CONFLICT := [Sym(')'), Word("ON"), Word("CONFLICT"), Sym('(')]
  const DO_NOTHING := [Sym(')'), Word("DO"), Word("NOTHING")]
  const DO_UPDATE := [Sym(')'), Word("DO"), Word("UPDATE"), Word("SET")]

  function ActionToks(sets: seq<string>): Option<seq<Token>> {
    if sets == [] then Some(DO_NOTHING) else Cat(Some(DO_UPDATE), List(SetItems(sets)))
  }

  function ConflictToks(cols: seq<string>, pks: seq<string>): Option<seq<Token>> {
    Cat(Some(ON_CONFLICT), Cat(List(IdentItems(pks)), ActionToks(NonKey(cols, pks))))
  }

  function UpsertToks(schema: string, table: string, cols: seq<string>, pks: seq<string>): Option<seq<Token>> {
    Cat(Some([Word("INSERT"), Word("INTO")]), Cat(TableToks(schema, table), Cat(Some([Sym('(')]),
      Cat(List(IdentItems(cols)), Cat(Some(VALUES), Cat(List(ParamItems(|cols|)), ConflictToks(cols, pks)))))))
  }

  function DeleteToks(schema: string, table: string, pks: seq<string>): Option<seq<Token>> {
    Cat(Some([Word("DELETE"), Word("FROM")]), Cat(TableToks(schema, table),
      Cat(Some([Word("WHERE")]), JoinToks(TestItems(pks), [Word("AND")]))))
  }

  lemma LexAlone(text: string, toks: Option<seq<Token>>)
    requires LexesAs(text, toks)
    ensures Lex(text) == toks
  {
    assert text + "" == text;
    if toks.Some? {
      assert toks.value + [] == toks.value;
    }
  }

  lemma LexIdents(cols: seq<string>)
    ensures LexesAs(Join(QuotedAll(cols), ", "), List(IdentItems(cols)))
  {
    LexComma();
    forall i | 0 <= i < |cols| ensures LexesAs(QuotedAll(cols)[i], IdentItems(cols)[i]) {
      LexIdent(cols[i]);
    }
    LexJoin(QuotedAll(cols), IdentItems(cols), ", ");
  }

  lemma LexPlaceholders(n: nat)
    ensures LexesAs(Join(Placeholders(n), ", "), List(ParamItems(n)))
  {
    var parts, items := Placeholders(n), ParamItems(n);
    forall i | 0 <= i < n ensures LexesAs(parts[i], items[i]) {
      assert parts[i] == Placeholder(i + 1) && items[i] == Some([Param(i + 1)]);
      LexPlaceholder(i + 1);
    }
    LexComma();
    LexJoin(parts, items, ", ");
  }

  lemma LexSets(cols: seq<string>)
    ensures LexesAs(Join(SetClauses(cols), ", "), List(SetItems(cols)))
  {
    LexComma();
    forall i | 0 <= i < |cols| ensures LexesAs(SetClauses(cols)[i], SetItems(cols)[i]) {
      LexSet(cols[i]);
    }
    LexJoin(SetClauses(cols), SetItems(cols), ", ");
  }

  lemma LexTests(cols: seq<string>)
    ensures LexesAs(Join(TestClauses(cols), " AND "), JoinToks(TestItems(cols), [Word("AND")]))
  {
    var parts, items := TestClauses(cols), TestItems(cols);
    forall i | 0 <= i < |parts| ensures LexesAs(parts[i], items[i]) {
      assert parts[i] == TestClause(cols[i], i + 1) && items[i] == TestToks(cols[i], i + 1);
      LexTest(cols[i], i + 1);
    }
    LexAnd();
    LexJoin(parts, items, " AND ");
  }

  lemma LexAction(sets: seq<string>)
    ensures Lex(ActionText(sets)) == ActionToks(sets) && Boundary(ActionText(sets))
  {
    if sets == [] {
      LexDoNothing();
    } else {
      LexDoUpdate();
      LexSets(sets);
      LexAlone(Join(SetClauses(sets), ", "), List(SetItems(sets)));
      LexAppend(") DO UPDATE SET ", Join(SetClauses(sets), ", "));
    }
  }

  /** A literal and a part in front of the rest of a statement. */
  lemma LexFront(lit: string, toks: seq<Token>, part: string, partToks: Option<seq<Token>>, rest: string)
    requires Lex(lit) == Some(toks) && Closed(lit) && LexesAs(part, partToks) && Boundary(rest)
    ensures Lex(lit + (part + rest)) == Cat(Some(toks), Cat(partToks, Lex(rest)))
  {
    LexAppend(lit, part + rest);
  }

  lemma LexConflict(cols: seq<string>, pks: seq<string>)
    ensures Lex(ConflictText(cols, pks)) == ConflictToks(cols, pks) && Boundary(ConflictText(cols, pks))
  {
    LexAction(NonKey(cols, pks));
    LexIdents(pks);
    LexOnConflict();
    LexFront(") ON CONFLICT (", ON_CONFLICT, Join(QuotedAll(pks), ", "), List(IdentItems(pks)),
             ActionText(NonKey(cols, pks)));
  }

  lemma LexValuesPart(cols: seq<string>, pks: seq<string>, text: string)
    requires text == ") VALUES (" + (Join(Placeholders(|cols|), ", ") + ConflictText(cols, pks))
    ensures Lex(text) == Cat(Some(VALUES), Cat(List(ParamItems(|cols|)), ConflictToks(cols, pks))) && Boundary(text)
  {
    LexConflict(cols, pks);
    LexPlaceholders(|cols|);
    LexValues();
    LexFront(") VALUES (", VALUES, Join(Placeholders(|cols|), ", "), List(ParamItems(|cols|)), ConflictText(cols, pks));
  }

  lemma LexNamesPart(cols: seq<string>, rest: string, text: string)
    requires text == " (" + (Join(QuotedAll(cols), ", ") + rest) && Boundary(rest)
    ensures Lex(text) == Cat(Some([Sym('(')]), Cat(List(IdentItems(cols)), Lex(rest))) && Boundary(text)
  {
    LexIdents(cols);
    LexOpen();
    LexFront(" (", [Sym('(')], Join(QuotedAll(cols), ", "), List(IdentItems(cols)), rest);
  }

  lemma LexUpsert(schema: string, table: string, cols: seq<string>, pks: seq<string>)
    ensures Lex(UpsertText(schema, table, cols, pks)) == UpsertToks(schema, table, cols, pks)
  {
    var values := ") VALUES (" + (Join(Placeholders(|cols|), ", ") + ConflictText(cols, pks));
    var names := " (" + (Join(QuotedAll(cols), ", ") + values);
    LexValuesPart(cols, pks, values);
    LexNamesPart(cols, values, names);
    LexTable(schema, table);
    LexInsertInto();
    LexFront("INSERT INTO ", [Word("INSERT"), Word("INTO")], QuoteTable(schema, table), TableToks(schema, table),
             names);
  }

  lemma LexDelete(schema: string, table: string, pks: seq<string>)
    ensures Lex(DeleteText(schema, table, pks)) == DeleteToks(schema, table, pks)
  {
    var tests := Join(TestClauses(pks), " AND ");
    LexTests(pks);
    LexAlone(tests, JoinToks(TestItems(pks), [Word("AND")]));
    LexWhere();
    LexAppend(" WHERE ", tests);
    LexTable(schema, table);
    LexDeleteFrom();
    LexFront("DELETE FROM ", [Word("DELETE"), Word("FROM")], QuoteTable(schema, table), TableToks(schema, table),
             " WHERE " + tests);
  }

  // ---- Parsing what was lexed ----

  lemma ExpectFound(prefix: seq<Token>, rest: seq<Token>)
    ensures Expect(prefix, prefix + rest) == Some(rest)
  {
    assert (prefix + rest)[|prefix|..] == rest;
  }

  lemma ParseTableFound(schema: string, table: string, rest: seq<Token>)
    requires TableToks(schema, table).Some? && (rest == [] || rest[0] != Sym('.'))
    ensures ParseTable(TableToks(schema, table).value + rest) == Some((TableRef(schema, table), rest))
  {
    var ts := TableToks(schema, table).value + rest;
    if schema == "" {
      assert ts[1..] == rest;
    } else {
      assert ts[1..] == [Sym('.')] + ([Ident(table)] + rest) && ts[1..][1..] == [Ident(table)] + rest;
    }
  }

  lemma ParseIdents(cols: seq<string>, rest: seq<Token>)
    requires cols != [] && (rest == [] || rest[0] != Sym(','))
    requires List(IdentItems(cols)).Some?
    ensures ParseList(ParseIdent, Sym(','), List(IdentItems(cols)).value + rest) == Some((cols, rest))
  {
    JoinToksLexable(IdentItems(cols), [Sym(',')]);
    ParseListPrinted(ParseIdent, cols, IdentItems(cols), Sym(','), rest);
  }

  lemma ParseParams(n: nat, rest: seq<Token>)
    requires n > 0 && (rest == [] || rest[0] != Sym(','))
    ensures List(ParamItems(n)).Some?
    ensures ParseList(ParseParam, Sym(','), List(ParamItems(n)).value + rest) == Some((Numbers(n), rest))
  {
    JoinToksLexable(ParamItems(n), [Sym(',')]);
    ParseListPrinted(ParseParam, Numbers(n), ParamItems(n), Sym(','), rest);
  }

  lemma ParseSetFound(col: string, rest: seq<Token>)
    requires SetToks(col).Some?
    ensures ParseSet(SetToks(col).value + rest) == Some(((col, col), rest))
  {
    var mid := [Sym('='), Word("EXCLUDED"), Sym('.')];
    assert SetToks(col).value + rest == [Ident(col)] + (mid + ([Ident(col)] + rest));
    ExpectFound(mid, [Ident(col)] + rest);
  }

  lemma ParseTestFound(col: string, n: nat, rest: seq<Token>)
    requires TestToks(col, n).Some?
    ensures ParseTest(TestToks(col, n).value + rest) == Some(((col, n), rest))
  {
    assert TestToks(col, n).value + rest == [Ident(col)] + ([Sym('=')] + ([Param(n)] + rest));
    ExpectFound([Sym('=')], [Param(n)] + rest);
  }

  lemma ParseSets(cols: seq<string>)
    requires cols != [] && List(SetItems(cols)).Some?
    ensures ParseList(ParseSet, Sym(','), List(SetItems(cols)).value) == Some((Sets(cols), []))
  {
    var toks := List(SetItems(cols)).value;
    JoinToksLexable(SetItems(cols), [Sym(',')]);
    forall i, r | 0 <= i < |cols| ensures ParseSet(SetItems(cols)[i].value + r) == Some((Sets(cols)[i], r)) {
      assert SetItems(cols)[i].Some? && SetItems(cols)[i] == SetToks(cols[i]);
      ParseSetFound(cols[i], r);
    }
    ParseListPrinted(ParseSet, Sets(cols), SetItems(cols), Sym(','), []);
    assert toks + [] == toks;
  }

  lemma ParseTests(cols: seq<string>)
    requires cols != [] && JoinToks(TestItems(cols), [Word("AND")]).Some?
    ensures ParseList(ParseTest, Word("AND"), JoinToks(TestItems(cols), [Word("AND")]).value) == Some((Tests(cols), []))
  {
    var toks := JoinToks(TestItems(cols), [Word("AND")]).value;
    JoinToksLexable(TestItems(cols), [Word("AND")]);
    forall i, r | 0 <= i < |cols| ensures ParseTest(TestItems(cols)[i].value + r) == Some((Tests(cols)[i], r)) {
      assert TestItems(cols)[i].Some? && TestItems(cols)[i] == TestToks(cols[i], i + 1);
      ParseTestFound(cols[i], i + 1, r);
    }
    ParseListPrinted(ParseTest, Tests(cols), TestItems(cols), Word("AND"), []);
    assert toks + [] == toks;
  }

  /** The names the lexer accepts. */
  lemma Lexable(cols: seq<string>)
    ensures List(IdentItems(cols)).Some? <==> "" !in cols
    ensures List(SetItems(cols)).Some? <==> "" !in cols
    ensures JoinToks(TestItems(cols), [Word("AND")]).Some? <==> "" !in cols
  {
    JoinToksLexable(IdentItems(cols), [Sym(',')]);
    JoinToksLexable(SetItems(cols), [Sym(',')]);
    JoinToksLexable(TestItems(cols), [Word("AND")]);
    forall i | 0 <= i < |cols|
      ensures IdentItems(cols)[i].Some? <==> cols[i] != ""
      ensures SetItems(cols)[i].Some? <==> cols[i] != ""
      ensures TestItems(cols)[i].Some? <==> cols[i] != ""
    {}
  }

  lemma {:induction false} NonKeyMembers(cols: seq<string>, pks: seq<string>)
    ensures forall c :: c in NonKey(cols, pks) <==> c in cols && c !in pks
  {
    if cols != [] {
      NonKeyMembers(cols[1..], pks);
    }
  }

  /** A delete round-trips for every table and column name SQL can express, and is
      rejected for the rest: an empty name, or no key column at all. */
  lemma DeleteRoundTrip(schema: string, table: string, pks: seq<string>)
    ensures Parse(DeleteText(schema, table, pks)) ==
      if table != "" && Named(pks) then Some(DeleteStmt(schema, table, pks)) else None
  {
    LexDelete(schema, table, pks);
    Lexable(pks);
    if table != "" && "" !in pks {
      var tests := JoinToks(TestItems(pks), [Word("AND")]).value;
      ExpectFound([Word("DELETE"), Word("FROM")], TableToks(schema, table).value + ([Word("WHERE")] + tests));
      ParseTableFound(schema, table, [Word("WHERE")] + tests);
      ExpectFound([Word("WHERE")], tests);
      if pks != [] {
        ParseTests(pks);
      }
    }
  }

  lemma ParseActionFound(sets: seq<string>)
    requires ActionToks(sets).Some?
    ensures ParseAction(ActionToks(sets).value) == Some(ActionOf(sets))
  {
    var head := [Sym(')'), Word("DO")];
    if sets == [] {
      assert DO_NOTHING == head + [Word("NOTHING")];
      ExpectFound(head, [Word("NOTHING")]);
    } else {
      var list := List(SetItems(sets)).value;
      var mid := [Word("UPDATE"), Word("SET")];
      assert DO_UPDATE + list == head + (mid + list);
      ExpectFound(head, mid + list);
      ExpectFound(mid, list);
      assert (mid + list)[0] == Word("UPDATE");
      ParseSets(sets);
    }
  }

  lemma ParseConflictFound(cols: seq<string>, pks: seq<string>)
    requires ConflictToks(cols, pks).Some?
    ensures ParseConflict(ConflictToks(cols, pks).value) ==
      if pks == [] then None else Some((pks, ActionOf(NonKey(cols, pks))))
  {
    var sets := NonKey(cols, pks);
    var action := ActionToks(sets).value;
    ExpectFound(ON_CONFLICT, List(IdentItems(pks)).value + action);
    ParseActionFound(sets);
    if pks != [] {
      ParseIdents(pks, action);
    }
  }

  lemma UpsertLexable(schema: string, table: string, cols: seq<string>, pks: seq<string>)
    ensures UpsertToks(schema, table, cols, pks).Some? <==> table != "" && "" !in cols && "" !in pks
  {
    Lexable(cols);
    Lexable(pks);
    Lexable(NonKey(cols, pks));
    NonKeyMembers(cols, pks);
    JoinToksLexable(ParamItems(|cols|), [Sym(',')]);
  }

  lemma ParseUpsertFound(schema: string, table: string, cols: seq<string>, pks: seq<string>)
    requires UpsertToks(schema, table, cols, pks).Some?
    ensures ParseInsert(UpsertToks(schema, table, cols, pks).value) ==
      if cols != [] && pks != [] then Some(UpsertStmt(schema, table, cols, pks)) else None
  {
    var conflict := ConflictToks(cols, pks).value;
    var params := List(ParamItems(|cols|)).value + conflict;
    var names := List(IdentItems(cols)).value + (VALUES + params);
    var open := [Sym('(')] + names;
    ExpectFound([Word("INSERT"), Word("INTO")], TableToks(schema, table).value + open);
    ParseTableFound(schema, table, open);
    ExpectFound([Sym('(')], names);
    if cols != [] {
      ParseIdents(cols, VALUES + params);
      ExpectFound(VALUES, params);
      ParseParams(|cols|, conflict);
      ParseConflictFound(cols, pks);
    }
  }

  /** An upsert round-trips for every table and column name SQL can express, and is
      rejected for the rest: an empty name, no column, or no conflict column. */
  lemma UpsertRoundTrip(schema: string, table: string, cols: seq<string>, pks: seq<string>)
    ensures Parse(UpsertText(schema, table, cols, pks)) ==
      if table != "" && Named(cols) && Named(pks) then Some(UpsertStmt(schema, table, cols, pks)) else None
  {
    LexUpsert(schema, table, cols, pks);
    UpsertLexable(schema, table, cols, pks);
    var toks := UpsertToks(schema, table, cols, pks);
    if toks.Some? {
      ParseUpsertFound(schema, table, cols, pks);
      assert toks.value[0] == Word("INSERT");
    }
  }
}
