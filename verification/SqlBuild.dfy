/** The loops that scan, substitute and build statements. */
module SqlBuild {
  import opened Wrappers
  import opened SqlTemplate

  // ---------------------------------------------------------------------------
  // Scanning and substituting

  /** Where the placeholders are, `at` being the position of s[0]. */
  function Holes(l: Lex, s: string, at: nat): seq<nat>
    decreases |s|
  {
    if s == [] then []
    else if IsHole(l, s[0]) then [at] + Holes(Step(l, s[0]), s[1..], at + 1)
    else Holes(Step(l, s[0]), s[1..], at + 1)
  }

  lemma {:induction false} HolesCount(l: Lex, s: string, at: nat)
    ensures |Holes(l, s, at)| == Count(l, s)
    decreases |s|
  {
    if s != [] { HolesCount(Step(l, s[0]), s[1..], at + 1); }
  }

  function LexOf(quote: char): Lex { if quote == '\0' then Code else In(quote) }

  lemma HolesAt(l: Lex, s: string, i: nat)
    requires i < |s|
    ensures Holes(l, s[i..], i) ==
      if IsHole(l, s[i]) then [i] + Holes(Step(l, s[i]), s[i + 1..], i + 1) else Holes(Step(l, s[i]), s[i + 1..], i + 1)
  {
    assert s[i..][1..] == s[i + 1..];
  }

  lemma MoreHoles(a: seq<nat>, i: nat, b: seq<nat>)
    ensures a + ([i] + b) == a + [i] + b
  {
  }

  /** scan_placeholders; the callback's positions are collected in order. */
  method ScanPlaceholders(sql: string) returns (holes: seq<nat>)
    ensures holes == Holes(Code, sql, 0)
  {
    holes := [];
    var quote, i := '\0', 0;
    assert sql[0..] == sql;
    while i < |sql|
      invariant i <= |sql| && (quote == '\0' || IsQuote(quote))
      invariant holes + Holes(LexOf(quote), sql[i..], i) == Holes(Code, sql, 0)
    {
      var c := sql[i];
      HolesAt(LexOf(quote), sql, i);
      if quote != '\0' {
        if c == '\\' && i + 1 < |sql| {
          HolesAt(Step(LexOf(quote), c), sql, i + 1);
          i := i + 1;
        } else if c == quote {
          quote := '\0';
        } else {
          assert c == '\\' ==> sql[i + 1..] == [];
        }
      } else if c == '\'' || c == '\"' {
        quote := c;
      } else if c == '?' {
        MoreHoles(holes, i, Holes(Code, sql[i + 1..], i + 1));
        holes := holes + [i];
      }
      i := i + 1;
    }
  }

  method CountPlaceholders(sql: string) returns (n: nat)
    ensures n == Count(Code, sql)
  {
    var holes := ScanPlaceholders(sql);
    HolesCount(Code, sql, 0);
    n := |holes|;
  }

  lemma {:induction false} NoHoles(l: Lex, s: string, at: nat, params: seq<Param>)
    requires Holes(l, s, at) == []
    ensures Subst(l, s, params) == s
    decreases |s|
  {
    if s != [] { NoHoles(Step(l, s[0]), s[1..], at + 1, params); }
  }

  /** What a placeholder followed by s becomes. */
  function Filled(s: string, params: seq<Param>): string {
    if params == [] then Subst(Code, s, []) else Literal(params[0]) + Subst(Code, s, params[1..])
  }

  lemma Behind(c: string, a: string, b: string)
    ensures c + (a + b) == (c + a) + b && |c + a| == |c| + |a|
  {
  }

  /** Up to its first placeholder a text goes through as it is. */
  lemma {:induction false} FirstHole(l: Lex, s: string, at: nat, params: seq<Param>) returns (a: string, b: string)
    requires Holes(l, s, at) != []
    ensures s == a + "?" + b && Holes(l, s, at)[0] == at + |a|
    ensures Subst(l, s, params) == a + Filled(b, params)
    ensures Holes(Code, b, at + |a| + 1) == Holes(l, s, at)[1..]
    decreases |s|
  {
    if IsHole(l, s[0]) {
      a, b := "", s[1..];
    } else {
      var t, l' := s[1..], Step(l, s[0]);
      var c := [s[0]];
      assert s == c + t;
      var front;
      front, b := FirstHole(l', t, at + 1, params);
      assert Holes(l, s, at) == Holes(l', t, at + 1);
      assert Subst(l, s, params) == c + (front + Filled(b, params));
      Behind(c, front, Filled(b, params));
      Behind(c, front, "?" + b);
      a := c + front;
    }
  }

  lemma Cut(s: string, i: nat, a: string, b: string)
    requires i <= |s| && s[i..] == a + "?" + b
    ensures i + |a| < |s| && s[i..i + |a|] == a && s[i + |a| + 1..] == b
  {
    var t := s[i..];
    assert t[..|a|] == a && t[|a| + 1..] == b;
  }

  /** Part of the template has been copied out, its placeholders filled. */
  ghost predicate Filling(sql: string, params: seq<Param>, holes: seq<nat>, out: string, cursor: nat, next: nat,
      k: nat) {
    && k <= |holes| && cursor <= |sql| && next <= |params|
    && Holes(Code, sql[cursor..], cursor) == holes[k..]
    && out + Subst(Code, sql[cursor..], params[next..]) == Subst(Code, sql, params)
  }

  lemma FillStart(sql: string, params: seq<Param>)
    ensures Filling(sql, params, Holes(Code, sql, 0), "", 0, 0, 0)
  {
    assert sql[0..] == sql && params[0..] == params && Holes(Code, sql, 0)[0..] == Holes(Code, sql, 0);
  }

  lemma FirstOfRest(holes: seq<nat>, k: nat)
    requires k < |holes|
    ensures holes[k..] != [] && holes[k..][0] == holes[k] && holes[k..][1..] == holes[k + 1..]
  {
  }

  lemma RestOfParams(params: seq<Param>, next: nat)
    requires next < |params|
    ensures params[next..] != [] && params[next..][0] == params[next] && params[next..][1..] == params[next + 1..]
  {
  }

  lemma FillStep(sql: string, params: seq<Param>, holes: seq<nat>, out: string, cursor: nat, next: nat, k: nat)
    requires Filling(sql, params, holes, out, cursor, next, k) && k < |holes|
    ensures var pos := holes[k]; cursor <= pos < |sql|
    ensures var pos := holes[k]; var more := out + sql[cursor..pos];
      if next < |params| then Filling(sql, params, holes, more + Literal(params[next]), pos + 1, next + 1, k + 1)
      else Filling(sql, params, holes, more, pos + 1, next, k + 1)
  {
    FirstOfRest(holes, k);
    var a, b := FirstHole(Code, sql[cursor..], cursor, params[next..]);
    Cut(sql, cursor, a, b);
    if next < |params| {
      RestOfParams(params, next);
      AssociateParam(out, a, b, params[next..]);
    } else {
      AssociateNone(out, a, b);
    }
  }

  lemma FillEnd(sql: string, params: seq<Param>, holes: seq<nat>, out: string, cursor: nat, next: nat)
    requires Filling(sql, params, holes, out, cursor, next, |holes|)
    ensures out + sql[cursor..] == Subst(Code, sql, params)
  {
    NoHoles(Code, sql[cursor..], cursor, params[next..]);
  }

  /** build_sql */
  method BuildSql(sql: string, params: seq<Param>) returns (out: string)
    ensures out == Subst(Code, sql, params)
  {
    var holes := ScanPlaceholders(sql);
    out := "";
    var next, cursor, k := 0, 0, 0;
    FillStart(sql, params);
    while k < |holes|
      invariant 0 <= k <= |holes| && 0 <= next && 0 <= cursor && Filling(sql, params, holes, out, cursor, next, k)
    {
      var pos := holes[k];
      FillStep(sql, params, holes, out, cursor, next, k);
      out := out + sql[cursor..pos];
      if next < |params| {
        out := out + Literal(params[next]);
        next := next + 1;
      }
      cursor := pos + 1;
      k := k + 1;
    }
    FillEnd(sql, params, holes, out, cursor, next);
    out := out + sql[cursor..];
  }

  lemma AssociateParam(out: string, a: string, b: string, params: seq<Param>)
    requires params != []
    ensures out + (a + Filled(b, params)) == out + a + Literal(params[0]) + Subst(Code, b, params[1..])
  {
    Regroup(out, a, Literal(params[0]), Subst(Code, b, params[1..]));
  }

  lemma AssociateNone(out: string, a: string, b: string)
    ensures out + (a + Filled(b, [])) == out + a + Subst(Code, b, [])
  {
    Regroup(out, a, [], Subst(Code, b, []));
  }

  lemma Regroup(a: string, b: string, c: string, d: string)
    ensures a + (b + (c + d)) == a + b + c + d
    ensures a + (b + d) == a + b + d
  {
  }

  // ---------------------------------------------------------------------------
  // The builders

  /** A statement under construction: outside quotes, as many placeholders as parameters, and once they are
      filled in, this text. */
  ghost predicate Builds(sql: string, params: seq<Param>, text: string) {
    && Scan(Code, sql) == Code
    && Count(Code, sql) == |params|
    && Subst(Code, sql, params) == text
  }

  lemma {:induction false} PlainSubst(s: string, params: seq<Param>)
    requires Plain(s)
    ensures Subst(Code, s, params) == s
  {
    if s != [] { PlainSubst(s[1..], params); }
  }

  lemma {:induction false} SubstMore(l: Lex, s: string, params: seq<Param>, more: seq<Param>)
    requires Count(l, s) <= |params|
    ensures Subst(l, s, params + more) == Subst(l, s, params)
    decreases |s|
  {
    if s != [] {
      if !IsHole(l, s[0]) {
        SubstMore(Step(l, s[0]), s[1..], params, more);
      } else {
        assert (params + more)[1..] == params[1..] + more;
        SubstMore(l, s[1..], params[1..], more);
      }
    }
  }

  lemma AddPlain(sql: string, params: seq<Param>, text: string, more: string)
    requires Builds(sql, params, text) && Plain(more)
    ensures Builds(sql + more, params, text + more)
  {
    ScanConcat(Code, sql, more);
    PlainScans(more);
    SubstConcat(Code, sql, more, params);
    PlainSubst(more, Drop(params, Count(Code, sql)));
  }

  lemma AddHole(sql: string, params: seq<Param>, text: string, p: Param)
    requires Builds(sql, params, text)
    ensures Builds(sql + "?", params + [p], text + Literal(p))
  {
    ScanConcat(Code, sql, "?");
    SubstConcat(Code, sql, "?", params + [p]);
    SubstMore(Code, sql, params, [p]);
    assert Drop(params + [p], |params|) == [p];
    assert "?"[1..] == [];
    assert Subst(Code, "?", [p]) == Literal(p) + [];
  }

  predicate IdentChar(c: char) { 'a' <= c <= 'z' || 'A' <= c <= 'Z' || '0' <= c <= '9' || c == '_' }

  lemma IdentPlain(s: string)
    requires ValidIdent(s)
    ensures Plain(s)
  {
    forall i | 0 <= i < |s| ensures !IsQuote(s[i]) && s[i] != '?' { assert IdentChar(s[i]); }
  }

  /** Names are made of digits, capitals, the underscore and small letters. */
  lemma IdentSays(s: string)
    ensures ValidIdent(s) <==> s != [] && forall i :: 0 <= i < |s| ==>
      var c := s[i] as int; 48 <= c <= 57 || 65 <= c <= 90 || c == 95 || 97 <= c <= 122
  {
    forall i | 0 <= i < |s| ensures var c := s[i] as int;
      IdentChar(s[i]) <==> 48 <= c <= 57 || 65 <= c <= 90 || c == 95 || 97 <= c <= 122
    {
    }
  }

  /** valid_ident */
  predicate ValidIdent(s: string) {
    s != [] && forall i :: 0 <= i < |s| ==> IdentChar(s[i])
  }

  /** One Lua table as lua_next walks it. */
  type Pairs = seq<(string, Param)>

  predicate ColumnsOk(pairs: Pairs) { forall i :: 0 <= i < |pairs| ==> ValidIdent(pairs[i].0) }

  /** `text` followed by "col = value" per pair, with the values in place. */
  function Assigned(text: string, pairs: Pairs, first: string, rest: string): string {
    if pairs == [] then text else
      var n := |pairs| - 1;
      Assigned(text, pairs[..n], first, rest) + (if n == 0 then first else rest) + pairs[n].0 + " = "
          + Literal(pairs[n].1)
  }

  /** The parts with the separator between them. */
  function Join(sep: string, parts: seq<string>): string {
    if parts == [] then "" else
      var n := |parts| - 1;
      if n == 0 then parts[0] else Join(sep, parts[..n]) + sep + parts[n]
  }

  /** One and two parts joined; any others likewise, by one more at the end. */
  lemma JoinSays(sep: string, parts: seq<string>, a: string, b: string)
    ensures Join(sep, []) == "" && Join(sep, [a]) == a && Join(sep, [a, b]) == a + sep + b
    ensures parts != [] ==> Join(sep, parts + [b]) == Join(sep, parts) + sep + b
  {
    assert [a, b][..1] == [a];
    assert (parts + [b])[..|parts|] == parts;
  }

  /** One condition or assignment. */
  function Term(pair: (string, Param)): string { pair.0 + " = " + Literal(pair.1) }

  function Terms(pairs: Pairs): seq<string> { seq(|pairs|, i requires 0 <= i < |pairs| => Term(pairs[i])) }

  lemma {:induction false} AssignedIs(text: string, pairs: Pairs, first: string, rest: string)
    ensures Assigned(text, pairs, first, rest) ==
      if pairs == [] then text else text + (first + Join(rest, Terms(pairs)))
    decreases |pairs|
  {
    if pairs != [] {
      var n := |pairs| - 1;
      AssignedIs(text, pairs[..n], first, rest);
      TermsMore(pairs, rest);
      OneMore(text, first, Join(rest, Terms(pairs[..n])), rest, pairs[n].0, Literal(pairs[n].1));
    }
  }

  lemma TermsMore(pairs: Pairs, sep: string)
    requires pairs != []
    ensures var n := |pairs| - 1;
      Join(sep, Terms(pairs)) == if n == 0 then Term(pairs[n]) else Join(sep, Terms(pairs[..n])) + sep + Term(pairs[n])
  {
    assert Terms(pairs)[..|pairs| - 1] == Terms(pairs[..|pairs| - 1]);
  }

  lemma OneMore(text: string, first: string, front: string, rest: string, col: string, value: string)
    ensures text + (first + front) + rest + col + " = " + value ==
      text + (first + (front + rest + (col + " = " + value)))
    ensures text + first + col + " = " + value == text + (first + (col + " = " + value))
  {
  }

  lemma AddPair(sql: string, params: seq<Param>, text: string, sep: string, col: string, value: Param)
    requires Builds(sql, params, text) && Plain(sep) && ValidIdent(col)
    ensures Builds(sql + sep + col + " = ?", params + [value], text + sep + col + " = " + Literal(value))
  {
    IdentPlain(col);
    AddPlain(sql, params, text, sep);
    AddPlain(sql + sep, params, text + sep, col);
    AddPlain(sql + sep + col, params, text + sep + col, " = ");
    AddHole(sql + sep + col + " = ", params, text + sep + col + " = ", value);
    assert sql + sep + col + " = " + "?" == sql + sep + col + " = ?";
  }

  lemma AddNext(sql: string, params: seq<Param>, text: string, pairs: Pairs, n: nat, first: string, rest: string)
    requires n < |pairs| && ValidIdent(pairs[n].0) && Plain(first) && Plain(rest)
    requires Builds(sql, params, Assigned(text, pairs[..n], first, rest))
    ensures var sep := if n == 0 then first else rest;
      Builds(sql + sep + pairs[n].0 + " = ?", params + [pairs[n].1], Assigned(text, pairs[..n + 1], first, rest))
  {
    AddPair(sql, params, Assigned(text, pairs[..n], first, rest),
            if n == 0 then first else rest, pairs[n].0, pairs[n].1);
    assert pairs[..n + 1][..n] == pairs[..n];
  }

  /** append_assignments */
  method AppendAssignments(pairs: Pairs, first: string, rest: string, sql0: string, params0: seq<Param>,
      ghost text: string)
    returns (ok: bool, sql: string, params: seq<Param>)
    requires Builds(sql0, params0, text) && Plain(first) && Plain(rest)
    ensures ok == ColumnsOk(pairs)
    ensures ok ==> Builds(sql, params, Assigned(text, pairs, first, rest))
  {
    ok, sql, params := true, sql0, params0;
    var n := 0;
    while n < |pairs|
      invariant ok && 0 <= n && Appending(pairs, n, sql, params, text, first, rest)
    {
      ok, sql, params := AppendNext(pairs, n, sql, params, text, first, rest);
      if !ok { return; }
      n := n + 1;
    }
    assert pairs[..|pairs|] == pairs;
  }

  ghost predicate Appending(pairs: Pairs, n: nat, sql: string, params: seq<Param>, text: string, first: string,
      rest: string) {
    && n <= |pairs| && (forall i :: 0 <= i < n ==> ValidIdent(pairs[i].0))
    && Builds(sql, params, Assigned(text, pairs[..n], first, rest))
  }

  method AppendNext(pairs: Pairs, n: nat, sql: string, params: seq<Param>, ghost text: string, first: string,
      rest: string)
    returns (ok: bool, sql': string, params': seq<Param>)
    requires n < |pairs| && Appending(pairs, n, sql, params, text, first, rest) && Plain(first) && Plain(rest)
    ensures ok == ValidIdent(pairs[n].0)
    ensures ok ==> Appending(pairs, n + 1, sql', params', text, first, rest)
  {
    var col, value := pairs[n].0, pairs[n].1;
    if !ValidIdent(col) { return false, sql, params; }
    AddNext(sql, params, text, pairs, n, first, rest);
    var sep := if n == 0 then first else rest;
    return true, sql + sep + col + " = ?", params + [value];
  }

  datatype Built = Refused | Query(sql: string, params: seq<Param>)

  lemma StartPlain(s: string)
    requires Plain(s)
    ensures Builds(s, [], s)
  {
    PlainScans(s);
    PlainSubst(s, []);
  }

  const UPDATE := "UPDATE "
  const SET := " SET "
  const WHERE := " WHERE "
  const AND := " AND "
  const COMMA := ", "
  const DELETE := "DELETE FROM "
  const INSERT := "INSERT INTO "
  const OPEN := " ("
  const VALUES := ") VALUES ("
  const CLOSE := ")"
  const SELECT := "SELECT "
  const ALL := "*"
  const FROM := " FROM "
  const ORDER := " ORDER BY "
  const LIMIT := " LIMIT "
  const OFFSET := " OFFSET "
  const SPACE := " "

  lemma KeywordsPlain()
    ensures Plain(UPDATE) && Plain(SET) && Plain(WHERE) && Plain(AND) && Plain(COMMA) && Plain(DELETE)
    ensures Plain(INSERT) && Plain(OPEN) && Plain(VALUES) && Plain(CLOSE)
    ensures Plain(SELECT) && Plain(ALL) && Plain(FROM) && Plain(ORDER) && Plain(LIMIT) && Plain(OFFSET) && Plain(SPACE)
    ensures Plain("")
  {
  }

  lemma UpdateTextIs(table: string, set_: Pairs, where_: Pairs)
    requires set_ != [] && where_ != []
    ensures Assigned(Assigned(UPDATE + table + SET, set_, "", COMMA), where_, WHERE, AND) ==
      "UPDATE " + table + " SET " + Join(", ", Terms(set_)) + (" WHERE " + Join(" AND ", Terms(where_)))
  {
    var head := UPDATE + table + SET;
    AssignedIs(head, set_, "", COMMA);
    assert "" + Join(", ", Terms(set_)) == Join(", ", Terms(set_));
    AssignedIs(head + Join(", ", Terms(set_)), where_, WHERE, AND);
  }

  /** conn:update */
  method BuildUpdate(table: string, set_: Pairs, where_: Pairs) returns (q: Built)
    ensures q.Query? <==> ValidIdent(table) && set_ != [] && where_ != [] && ColumnsOk(set_) && ColumnsOk(where_)
    ensures q.Query? ==> Builds(q.sql, q.params,
      "UPDATE " + table + " SET " + Join(", ", Terms(set_)) + (" WHERE " + Join(" AND ", Terms(where_))))
  {
    if !ValidIdent(table) { return Refused; }
    KeywordsPlain();
    IdentPlain(table);
    StartPlain(UPDATE);
    AddPlain(UPDATE, [], UPDATE, table);
    AddPlain(UPDATE + table, [], UPDATE + table, SET);
    var head := UPDATE + table + SET;
    var ok, sql, params := AppendAssignments(set_, "", COMMA, head, [], head);
    if !ok || set_ == [] { return Refused; }
    ok, sql, params := AppendAssignments(where_, WHERE, AND, sql, params, Assigned(head, set_, "", COMMA));
    if !ok || where_ == [] { return Refused; }
    UpdateTextIs(table, set_, where_);
    return Query(sql, params);
  }

  /** conn:delete */
  method BuildDelete(table: string, where_: Pairs) returns (q: Built)
    ensures q.Query? <==> ValidIdent(table) && where_ != [] && ColumnsOk(where_)
    ensures q.Query? ==>
      Builds(q.sql, q.params, "DELETE FROM " + table + (" WHERE " + Join(" AND ", Terms(where_))))
  {
    if !ValidIdent(table) { return Refused; }
    KeywordsPlain();
    IdentPlain(table);
    StartPlain(DELETE);
    AddPlain(DELETE, [], DELETE, table);
    var ok, sql, params := AppendAssignments(where_, WHERE, AND, DELETE + table, [], DELETE + table);
    if !ok || where_ == [] { return Refused; }
    AssignedIs(DELETE + table, where_, WHERE, AND);
    return Query(sql, params);
  }

  // ---------------------------------------------------------------------------
  // conn:create and conn:find

  function Columns(pairs: Pairs): seq<string> { seq(|pairs|, i requires 0 <= i < |pairs| => pairs[i].0) }

  function Literals(pairs: Pairs): seq<string> { seq(|pairs|, i requires 0 <= i < |pairs| => Literal(pairs[i].1)) }

  function Values(pairs: Pairs): seq<Param> { seq(|pairs|, i requires 0 <= i < |pairs| => pairs[i].1) }

  /** The two lists conn:create writes while it walks the table: the columns and their placeholders. */
  method CreateLists(data: Pairs) returns (ok: bool, cols: string, holes: string, params: seq<Param>)
    ensures ok == ColumnsOk(data)
    ensures ok ==>
              cols == Join(COMMA, Columns(data)) && Plain(cols) && (cols == "" <==> data == [])
              && params == Values(data)
    ensures ok ==> Builds(holes, params, Join(COMMA, Literals(data)))
  {
    ok, cols, holes, params := true, "", "", [];
    var n := 0;
    StartPlain("");
    while n < |data|
      invariant ok && n <= |data| && (forall i :: 0 <= i < n ==> ValidIdent(data[i].0))
      invariant Listed(data, n, cols, holes, params)
    {
      var col, value := data[n].0, data[n].1;
      var usable := ValidIdent(col);
      if !usable { return false, cols, holes, params; }
      var sep := if cols != "" then COMMA else "";
      ListMore(data, n, cols, holes, params);
      cols := cols + sep + col;
      holes := holes + sep + "?";
      params := params + [value];
      n := n + 1;
    }
    assert data[..|data|] == data;
  }

  ghost predicate Listed(data: Pairs, n: nat, cols: string, holes: string, params: seq<Param>)
    requires n <= |data|
  {
    && cols == Join(COMMA, Columns(data[..n])) && Plain(cols) && (cols == "" <==> n == 0)
    && Builds(holes, params, Join(COMMA, Literals(data[..n]))) && params == Values(data[..n])
  }

  lemma ListMore(data: Pairs, n: nat, cols: string, holes: string, params: seq<Param>)
    requires n < |data| && ValidIdent(data[n].0) && Listed(data, n, cols, holes, params)
    ensures var sep := if cols != "" then COMMA else "";
      Listed(data, n + 1, cols + sep + data[n].0, holes + sep + "?", params + [data[n].1])
  {
    var sep := if cols != "" then COMMA else "";
    JoinedMore(data, n);
    AddColumn(cols, holes, params, Join(COMMA, Literals(data[..n])), sep, data[n].0, data[n].1);
  }

  lemma AddColumn(cols: string, holes: string, params: seq<Param>, text: string, sep: string, col: string, value: Param)
    requires Plain(cols) && Builds(holes, params, text) && (sep == COMMA || sep == "") && ValidIdent(col)
    ensures Plain(cols + sep + col) && cols + sep + col != ""
    ensures Builds(holes + sep + "?", params + [value], text + sep + Literal(value))
  {
    IdentPlain(col);
    AddPlain(holes, params, text, sep);
    AddHole(holes + sep, params, text + sep, value);
  }

  /** conn:create */
  method BuildCreate(table: string, data: Pairs) returns (q: Built)
    ensures q.Query? <==> ValidIdent(table) && data != [] && ColumnsOk(data)
    ensures q.Query? ==> q.params == Values(data)
    ensures q.Query? ==>
      Builds(q.sql, q.params,
        "INSERT INTO " + table + " (" + Join(", ", Columns(data)) + ") VALUES (" + Join(", ", Literals(data)) + ")")
  {
    if !ValidIdent(table) { return Refused; }
    var ok, cols, holes, params := CreateLists(data);
    if !ok || cols == "" { return Refused; }
    var head := INSERT + table + OPEN + cols + VALUES;
    IdentPlain(table);
    KeywordsPlain();
    StartPlain(head);
    AppendBuilt(head, holes, params, Join(COMMA, Literals(data)));
    AddPlain(head + holes, params, head + Join(COMMA, Literals(data)), CLOSE);
    return Query(head + holes + CLOSE, params);
  }

  lemma JoinedMore(data: Pairs, n: nat)
    requires n < |data|
    ensures Values(data[..n + 1]) == Values(data[..n]) + [data[n].1]
    ensures Join(COMMA, Columns(data[..n + 1])) ==
      Join(COMMA, Columns(data[..n])) + (if n == 0 then "" else COMMA) + data[n].0
    ensures Join(COMMA, Literals(data[..n + 1])) == Join(COMMA, Literals(data[..n])) + (if n == 0 then "" else COMMA)
      + Literal(data[n].1)
  {
    assert Columns(data[..n + 1])[..n] == Columns(data[..n]);
    assert Literals(data[..n + 1])[..n] == Literals(data[..n]);
  }

  lemma AppendBuilt(head: string, sql: string, params: seq<Param>, text: string)
    requires Builds(head, [], head) && Builds(sql, params, text)
    ensures Builds(head + sql, params, head + text)
  {
    ScanConcat(Code, head, sql);
    SubstConcat(Code, head, sql, params);
    SubstMore(Code, head, [], params);
    assert [] + params == params;
  }

  /** The options of conn:find; a table that is not there stays None. */
  datatype Find = Find(select: Option<seq<string>>, where_: Option<Pairs>, order: Option<seq<string>>,
                       limit: Option<int>, offset: Option<int>)

  function SpaceAt(s: string): (i: nat)
    ensures i <= |s| && (i < |s| ==> s[i] == ' ')
  {
    if s == "" || s[0] == ' ' then 0 else 1 + SpaceAt(s[1..])
  }

  /** "column", "column ASC" and so on, as the statement gets it. */
  function OrderColumn(piece: string): string { piece[..SpaceAt(piece)] }

  function OrderDirection(piece: string): string {
    if SpaceAt(piece) == |piece| then "" else piece[SpaceAt(piece) + 1..]
  }

  predicate Direction(d: string) { d == "" || d == "ASC" || d == "DESC" || d == "asc" || d == "desc" }

  predicate OrderOk(piece: string) {
    && ValidIdent(OrderColumn(piece))
    && Direction(OrderDirection(piece))
  }

  function Ordered(piece: string): string {
    OrderColumn(piece) + if OrderDirection(piece) == "" then "" else SPACE + OrderDirection(piece)
  }

  function OrderText(pieces: seq<string>): string {
    if pieces == [] then "" else
      var n := |pieces| - 1;
      OrderText(pieces[..n]) + Separator(n) + Ordered(pieces[n])
  }

  function Separator(i: nat): string { if i == 0 then ORDER else COMMA }

  predicate SelectOk(f: Find) {
    f.select.None? || forall i :: 0 <= i < |f.select.value| ==> ValidIdent(f.select.value[i])
  }

  predicate FindOk(table: string, f: Find) {
    && ValidIdent(table) && SelectOk(f)
    && (f.where_.Some? ==> ColumnsOk(f.where_.value)) && TailOk(f)
  }

  function SelectText(f: Find): string {
    if f.select.None? || f.select.value == [] then ALL else Join(COMMA, f.select.value)
  }

  function NumberOption(keyword: string, o: Option<int>): string {
    if o.None? then "" else keyword + IntText(o.value)
  }

  function TailText(f: Find): string {
    (if f.order.None? then "" else OrderText(f.order.value)) + NumberOption(LIMIT, f.limit)
        + NumberOption(OFFSET, f.offset)
  }

  method JoinIdents(parts: seq<string>) returns (ok: bool, s: string)
    ensures ok == forall i :: 0 <= i < |parts| ==> ValidIdent(parts[i])
    ensures ok ==> s == Join(COMMA, parts) && Plain(s)
  {
    ok, s := true, "";
    var i := 0;
    while i < |parts|
      invariant ok && i <= |parts| && (forall j :: 0 <= j < i ==> ValidIdent(parts[j]))
      invariant s == Join(COMMA, parts[..i]) && Plain(s)
    {
      if !ValidIdent(parts[i]) { return false, s; }
      IdentPlain(parts[i]);
      assert parts[..i + 1][..i] == parts[..i];
      if i > 0 { s := s + COMMA; }
      s := s + parts[i];
      i := i + 1;
    }
    assert parts[..|parts|] == parts;
  }

  lemma PlainConcat(a: string, b: string, c: string)
    requires Plain(a) && Plain(b) && Plain(c)
    ensures Plain(a + b + c)
  {
  }

  lemma OrderMore(pieces: seq<string>, i: nat)
    requires i < |pieces|
    ensures OrderText(pieces[..i + 1]) == OrderText(pieces[..i]) + Separator(i) + Ordered(pieces[i])
  {
    assert pieces[..i + 1][..i] == pieces[..i];
  }

  method CheckOrder(piece: string) returns (ok: bool, text: string)
    ensures ok == OrderOk(piece)
    ensures ok ==> text == Ordered(piece) && Plain(text)
  {
    ok, text := OrderOk(piece), Ordered(piece);
    if ok { OrderPlain(piece); }
  }

  predicate OrdersOk(pieces: seq<string>) {
    pieces == [] || (OrdersOk(pieces[..|pieces| - 1]) && OrderOk(pieces[|pieces| - 1]))
  }

  lemma {:induction false} OrdersPrefix(pieces: seq<string>, i: nat)
    requires i <= |pieces| && OrdersOk(pieces)
    ensures OrdersOk(pieces[..i])
  {
    if i < |pieces| {
      OrdersPrefix(pieces[..|pieces| - 1], i);
      assert pieces[..|pieces| - 1][..i] == pieces[..i];
    } else {
      assert pieces[..i] == pieces;
    }
  }

  method BuildOrder(pieces: seq<string>) returns (ok: bool, s: string)
    ensures ok == OrdersOk(pieces)
    ensures ok ==> s == OrderText(pieces) && Plain(s)
  {
    ok, s := true, "";
    KeywordsPlain();
    var i := 0;
    while i < |pieces|
      invariant ok && 0 <= i && Ordering(pieces, i, s)
    {
      ok, s := OrderNext(pieces, i, s);
      if !ok { return; }
      i := i + 1;
    }
    assert pieces[..|pieces|] == pieces;
  }

  ghost predicate Ordering(pieces: seq<string>, i: nat, s: string) {
    i <= |pieces| && OrdersOk(pieces[..i]) && s == OrderText(pieces[..i]) && Plain(s)
  }

  method OrderNext(pieces: seq<string>, i: nat, s: string) returns (ok: bool, s': string)
    requires i < |pieces| && Ordering(pieces, i, s)
    ensures ok ==> Ordering(pieces, i + 1, s')
    ensures !ok ==> !OrdersOk(pieces)
  {
    var text;
    ok, text := CheckOrder(pieces[i]);
    s' := s;
    OrdersMore(pieces, i);
    if !ok { return; }
    OrderMore(pieces, i);
    SeparatorPlain(i);
    PlainConcat(s, Separator(i), text);
    s' := s + Separator(i) + text;
  }

  lemma SeparatorPlain(i: nat)
    ensures Plain(Separator(i))
  {
    KeywordsPlain();
  }

  lemma OrdersMore(pieces: seq<string>, i: nat)
    requires i < |pieces|
    ensures OrdersOk(pieces[..i + 1]) <==> OrdersOk(pieces[..i]) && OrderOk(pieces[i])
    ensures OrdersOk(pieces) ==> OrdersOk(pieces[..i + 1])
  {
    assert pieces[..i + 1][..i] == pieces[..i];
    if OrdersOk(pieces) { OrdersPrefix(pieces, i + 1); }
  }

  lemma OrderPlain(piece: string)
    requires OrderOk(piece)
    ensures Plain(Ordered(piece))
  {
    IdentPlain(OrderColumn(piece));
    DirectionPlain(OrderDirection(piece));
    PlainConcat(OrderColumn(piece), SPACE, OrderDirection(piece));
  }

  lemma DirectionPlain(d: string)
    requires Direction(d)
    ensures Plain(d) && Plain(SPACE)
  {
    if d == "" {} else if d == "ASC" {} else if d == "DESC" {} else if d == "asc" {} else { assert d == "desc"; }
  }

  lemma NumberPlain(keyword: string, o: Option<int>)
    requires Plain(keyword) && (o.Some? ==> o.value >= 0)
    ensures Plain(NumberOption(keyword, o))
  {
    if o.Some? { PlainConcat("", keyword, IntText(o.value)); }
  }

  predicate TailOk(f: Find) {
    && (f.order.Some? ==> OrdersOk(f.order.value))
    && (f.limit.Some? ==> f.limit.value >= 0) && (f.offset.Some? ==> f.offset.value >= 0)
  }

  method BuildTail(f: Find) returns (ok: bool, tail: string)
    ensures ok == TailOk(f) && (ok ==> tail == TailText(f) && Plain(tail))
  {
    tail := "";
    KeywordsPlain();
    if f.order.Some? {
      var ordered, s := BuildOrder(f.order.value);
      if !ordered { return false, ""; }
      tail := s;
    }
    if f.limit.Some? && f.limit.value < 0 { return false, ""; }
    if f.offset.Some? && f.offset.value < 0 { return false, ""; }
    NumberPlain(LIMIT, f.limit);
    NumberPlain(OFFSET, f.offset);
    PlainConcat(tail, NumberOption(LIMIT, f.limit), NumberOption(OFFSET, f.offset));
    return true, tail + NumberOption(LIMIT, f.limit) + NumberOption(OFFSET, f.offset);
  }

  method BuildColumns(f: Find) returns (ok: bool, cols: string)
    ensures ok == SelectOk(f) && (ok ==> cols == SelectText(f) && Plain(cols))
  {
    KeywordsPlain();
    if f.select.None? || f.select.value == [] { return true, ALL; }
    ok, cols := JoinIdents(f.select.value);
  }

  /** The statement conn:find asks for. */
  function FindText(table: string, f: Find): string {
    "SELECT " + (if f.select.None? || f.select.value == [] then "*" else Join(", ", f.select.value))
    + " FROM " + table
    + (if f.where_.None? || f.where_.value == [] then "" else " WHERE " + Join(" AND ", Terms(f.where_.value)))
    + ((if f.order.None? || f.order.value == [] then "" else " ORDER BY " + Join(", ", Orders(f.order.value)))
       + (if f.limit.None? then "" else " LIMIT " + IntText(f.limit.value))
       + (if f.offset.None? then "" else " OFFSET " + IntText(f.offset.value)))
  }

  lemma FindTextIs(table: string, f: Find)
    ensures var head := SELECT + SelectText(f) + FROM + table;
      (if f.where_.None? then head else Assigned(head, f.where_.value, WHERE, AND)) + TailText(f) == FindText(table, f)
  {
    var head := SELECT + SelectText(f) + FROM + table;
    if f.where_.Some? { AssignedIs(head, f.where_.value, WHERE, AND); }
    if f.order.Some? { OrderTextIs(f.order.value); }
  }

  function Orders(pieces: seq<string>): seq<string> {
    seq(|pieces|, i requires 0 <= i < |pieces| => Ordered(pieces[i]))
  }

  lemma {:induction false} OrderTextIs(pieces: seq<string>)
    ensures OrderText(pieces) == if pieces == [] then "" else " ORDER BY " + Join(", ", Orders(pieces))
    decreases |pieces|
  {
    if pieces != [] {
      var n := |pieces| - 1;
      OrderTextIs(pieces[..n]);
      OrdersJoin(pieces);
      OneOrder(OrderText(pieces[..n]), n, Join(", ", Orders(pieces[..n])), Ordered(pieces[n]));
    }
  }

  lemma OneOrder(text: string, n: nat, front: string, piece: string)
    requires text == if n == 0 then "" else " ORDER BY " + front
    ensures text + Separator(n) + piece == " ORDER BY " + if n == 0 then piece else front + ", " + piece
  {
  }

  lemma OrdersJoin(pieces: seq<string>)
    requires pieces != []
    ensures var n := |pieces| - 1;
      Join(", ", Orders(pieces)) ==
        if n == 0 then Ordered(pieces[n]) else Join(", ", Orders(pieces[..n])) + ", " + Ordered(pieces[n])
  {
    assert Orders(pieces)[..|pieces| - 1] == Orders(pieces[..|pieces| - 1]);
  }

  /** An order is a column by itself, or with a direction after one space, which goes into the statement as given; a
      space with nothing after it is left out. */
  lemma OrderSays(col: string, d: string)
    requires ValidIdent(col)
    ensures OrderOk(col) && Ordered(col) == col && OrderOk(col + " ") && Ordered(col + " ") == col
    ensures d == "ASC" || d == "DESC" || d == "asc" || d == "desc" ==>
      OrderOk(col + " " + d) && Ordered(col + " " + d) == col + " " + d
    ensures d !in {"", "ASC", "DESC", "asc", "desc"} ==> !OrderOk(col + " " + d)
  {
    forall i | 0 <= i < |col| ensures col[i] != ' ' { assert IdentChar(col[i]); }
    SpaceIs(col, "");
    SpaceIs(col, " ");
    SpaceIs(col, " " + d);
    assert col + "" == col && (col + (" " + d))[|col| + 1..] == d && col + (" " + d) == col + " " + d;
  }

  lemma {:induction false} SpaceIs(a: string, b: string)
    requires (forall i :: 0 <= i < |a| ==> a[i] != ' ') && (b == "" || b[0] == ' ')
    ensures SpaceAt(a + b) == |a| && (a + b)[..|a|] == a
  {
    if a == "" {
      assert a + b == b;
    } else {
      assert (a + b)[1..] == a[1..] + b;
      SpaceIs(a[1..], b);
    }
  }

  /** conn:find */
  method BuildFind(table: string, f: Find) returns (q: Built)
    ensures q.Query? <==> FindOk(table, f)
    ensures q.Query? ==> Builds(q.sql, q.params, FindText(table, f))
  {
    if !ValidIdent(table) { return Refused; }
    var ok, cols := BuildColumns(f);
    if !ok { return Refused; }
    KeywordsPlain();
    IdentPlain(table);
    var head := SELECT + cols + FROM + table;
    StartPlain(head);
    var sql, params := head, [];
    if f.where_.Some? {
      ok, sql, params := AppendAssignments(f.where_.value, WHERE, AND, head, [], head);
      if !ok { return Refused; }
    }
    var tail;
    ok, tail := BuildTail(f);
    if !ok { return Refused; }
    AddPlain(sql, params, if f.where_.None? then head else Assigned(head, f.where_.value, WHERE, AND), tail);
    FindTextIs(table, f);
    return Query(sql + tail, params);
  }
}
