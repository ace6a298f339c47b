/** Which errors the LIB reader drops when nobody handles a statement: the reader against a
    strict one that passes every nested error on (parse_stmt and parse_stmts). */
module LibErrors {
  import opened LibSkip

  /** What a statement is nested in. */
  datatype Encloser = InComplex | InGroup

  /** The strict reader's result; a failure knows what its first error is nested in, outermost first. */
  datatype Strict = Fine(rest: seq<Token>) | Failed(rest: seq<Token>, under: seq<Encloser>)

  function Nested(e: Encloser, s: Strict): Strict {
    if s.Fine? then s else Failed(s.rest, [e] + s.under)
  }

  function StrictStmt(ts: seq<Token>): (s: Strict)
    ensures |s.rest| <= |ts| && (s.Fine? ==> |s.rest| < |ts|)
    decreases |ts|, 0
  {
    if !IsIdent(ts) then Failed(ts, [])
    else if Is(ts[1..], COLON) then
      if !IsIdent(ts[2..]) then Failed(ts[2..], [])
      else if !Is(ts[3..], SEMICOLON) then Failed(ts[3..], [])
      else Fine(ts[4..])
    else if Is(ts[1..], LPAREN) then
      var p := ReadParams(ts[2..]);
      if !p.ok then Failed(p.rest, [])
      else if Is(p.rest, SEMICOLON) then Nested(InComplex, StrictStmts(p.rest[1..]))
      else if Is(p.rest, LBRACE) then
        var s := Nested(InGroup, StrictStmts(p.rest[1..]));
        if s.Failed? then s
        else if Is(s.rest, RBRACE) then Fine(s.rest[1..]) else Failed(s.rest, [])
      else Failed(p.rest, [])
    else Failed(ts[1..], [])
  }

  function StrictStmts(ts: seq<Token>): (s: Strict)
    ensures |s.rest| <= |ts| && (s.Fine? ==> AtEnd(s.rest))
    decreases |ts|, 1
  {
    if AtEnd(ts) then Fine(ts)
    else
      var s := StrictStmt(ts);
      if s.Fine? then StrictStmts(s.rest) else s
  }

  /** Whether an error that stops at z survives what it is nested in: behind the end of the
      file the outermost statement decides, at a brace any nesting hides it, at a name any
      complex attribute does, and elsewhere nothing. */
  predicate Kept(z: seq<Token>, under: seq<Encloser>) {
    under == []
    || if z == [] then under[0] == InGroup
       else if z[0] == RBRACE then false
       else z[0].IDENT? ==> InComplex !in under
  }

  // A reading that has left an error at z behind.
  predicate Past(z: seq<Token>, r: Reading) {
    |r.rest| < |z| || (r == Reading(true, z) && AtEnd(z))
  }

  // --- The reader against the strict one ----------------------------------------------

  // From a name on a list makes progress, at any other token it stops.
  lemma {:induction false} ReadFrom(z: seq<Token>)
    ensures z == [] || z[0] == RBRACE ==> ReadStmts(z) == Reading(true, z)
    ensures z != [] && z[0] != RBRACE && !z[0].IDENT? ==> ReadStmts(z) == Reading(false, z)
    ensures z != [] && z[0].IDENT? ==> |ReadStmts(z).rest| < |z|
  {
    if z != [] && z[0].IDENT? {
      assert |ReadStmt(z).rest| < |z|;
    }
  }

  lemma {:induction false} StmtAgrees(ts: seq<Token>)
    ensures var s, r := StrictStmt(ts), ReadStmt(ts);
            match s
            case Fine(rest) => r == Reading(true, rest)
            case Failed(z, under) =>
              if under == [] || under[0] == InGroup then (if Kept(z, under) then r == Reading(false, z) else |r.rest| < |z|)
              else r.ok && (if Kept(z, under[1..]) then r.rest == z else Past(z, r))
    decreases |ts|, 0
  {
    if IsIdent(ts) && !Is(ts[1..], COLON) && Is(ts[1..], LPAREN) {
      var p := ReadParams(ts[2..]);
      if p.ok && (Is(p.rest, SEMICOLON) || Is(p.rest, LBRACE)) {
        ListAgrees(p.rest[1..]);
        var s := StrictStmts(p.rest[1..]);
        if s.Failed? {
          assert ([InComplex] + s.under)[1..] == s.under && ([InGroup] + s.under)[1..] == s.under;
        }
      }
    }
  }

  /** On every token list: where the strict reader succeeds the reader does the same, and its
      first error comes out at the same place exactly when it is kept. */
  lemma {:induction false} ListAgrees(ts: seq<Token>)
    ensures var s, r := StrictStmts(ts), ReadStmts(ts);
            match s
            case Fine(rest) => r == Reading(true, rest)
            case Failed(z, under) => if Kept(z, under) then r == Reading(false, z) else Past(z, r)
    decreases |ts|, 1
  {
    if !AtEnd(ts) {
      StmtAgrees(ts);
      var s := StrictStmt(ts);
      if s.Fine? {
        ListAgrees(s.rest);
      } else {
        ReadFrom(s.rest);
      }
    }
  }

  /** The reader reports what the strict reader does exactly when there is no error or the first
      one is kept. */
  lemma {:induction false} AgreesIff(ts: seq<Token>)
    ensures var s := StrictStmts(ts);
            ReadStmts(ts) == Reading(s.Fine?, s.rest) <==> (s.Fine? || Kept(s.rest, s.under))
  {
    ListAgrees(ts);
  }

  // --- What strict reading accepts --------------------------------------------------------

  lemma {:induction false} ParamsAreRendered(ts: seq<Token>) returns (ps: seq<Param>)
    requires ReadParams(ts).ok
    ensures ts == RenderParams(ps) + [RPAREN] + ReadParams(ts).rest
    decreases |ts|
  {
    if Is(ts, RPAREN) {
      ps := [];
      assert ts == [RPAREN] + ts[1..];
    } else {
      var comma := Is(ts[1..], COMMA);
      var k := if comma then 2 else 1;
      var rest := ParamsAreRendered(ts[k..]);
      ps := [Param(ts[0].text, comma)] + rest;
      assert ts == ts[..k] + ts[k..] && ts[..k] == [IDENT(ts[0].text)] + (if comma then [COMMA] else []);
      assert ps[1..] == rest;
    }
  }

  lemma {:induction false} HeaderIsRendered(ts: seq<Token>) returns (ps: seq<Param>)
    requires IsIdent(ts) && Is(ts[1..], LPAREN) && ReadParams(ts[2..]).ok
    ensures ts == Header(ts[0].text, ps) + ReadParams(ts[2..]).rest
  {
    ps := ParamsAreRendered(ts[2..]);
    assert ts == [ts[0], ts[1]] + ts[2..];
  }

  lemma {:induction false} OneRendered(s: Stmt)
    ensures RenderAll([s]) == Render(s)
  {
    assert RenderAll([s][1..]) == [];
  }

  lemma {:induction false} SimpleIsRendered(ts: seq<Token>)
    requires |ts| >= 4 && ts[0].IDENT? && ts[1] == COLON && ts[2].IDENT? && ts[3] == SEMICOLON
    ensures ts == RenderAll([Simple(ts[0].text, ts[2].text)]) + ts[4..]
  {
    OneRendered(Simple(ts[0].text, ts[2].text));
    assert ts == [ts[0], ts[1], ts[2], ts[3]] + ts[4..];
  }

  lemma {:induction false} ComplexIsRendered(ts: seq<Token>, s: Stmt, inner: seq<Stmt>, after: seq<Token>, rest: seq<Token>)
    requires s.Complex? && ts == Header(s.name, s.params) + after && Is(after, SEMICOLON) && after[1..] == RenderAll(inner) + rest
    ensures ts == RenderAll([s] + inner) + rest
  {
    assert after == [SEMICOLON] + (RenderAll(inner) + rest);
    assert ([s] + inner)[1..] == inner;
    assert RenderAll([s] + inner) + rest == Header(s.name, s.params) + [SEMICOLON] + RenderAll(inner) + rest;
  }

  lemma {:induction false} GroupIsRendered(ts: seq<Token>, s: Stmt, after: seq<Token>, rest: seq<Token>)
    requires s.Group? && ts == Header(s.name, s.params) + after && Is(after, LBRACE) && Is(rest, RBRACE)
    requires after[1..] == RenderAll(s.body) + rest
    ensures ts == RenderAll([s]) + rest[1..]
  {
    OneRendered(s);
    assert rest == [RBRACE] + rest[1..];
    assert after == [LBRACE] + (RenderAll(s.body) + ([RBRACE] + rest[1..]));
    assert Render(s) + rest[1..] == Header(s.name, s.params) + [LBRACE] + RenderAll(s.body) + [RBRACE] + rest[1..];
  }

  /** A statement that the strict reader takes is rendered there, with its later siblings if it
      is a complex attribute. */
  lemma {:induction false} FineStmtIsRendered(ts: seq<Token>) returns (body: seq<Stmt>)
    requires StrictStmt(ts).Fine?
    ensures ts == RenderAll(body) + StrictStmt(ts).rest
    decreases |ts|, 0
  {
    if Is(ts[1..], COLON) {
      body := [Simple(ts[0].text, ts[2].text)];
      SimpleIsRendered(ts);
    } else {
      body := FineNestIsRendered(ts);
    }
  }

  lemma {:induction false} FineNestIsRendered(ts: seq<Token>) returns (body: seq<Stmt>)
    requires StrictStmt(ts).Fine? && !Is(ts[1..], COLON)
    ensures ts == RenderAll(body) + StrictStmt(ts).rest
    decreases |ts|, 0, 0
  {
    var ps := HeaderIsRendered(ts);
    var after := ReadParams(ts[2..]).rest;
    var inner := FineIsRendered(after[1..]);
    var rest := StrictStmts(after[1..]).rest;
    if Is(after, SEMICOLON) {
      body := [Complex(ts[0].text, ps)] + inner;
      ComplexIsRendered(ts, Complex(ts[0].text, ps), inner, after, rest);
    } else {
      body := [Group(ts[0].text, ps, inner)];
      GroupIsRendered(ts, body[0], after, rest);
    }
  }

  lemma {:induction false} RenderAppend(a: seq<Stmt>, b: seq<Stmt>)
    ensures RenderAll(a + b) == RenderAll(a) + RenderAll(b)
    decreases |a|
  {
    if a == [] {
      assert a + b == b;
    } else {
      RenderAppend(a[1..], b);
      assert (a + b)[0] == a[0] && (a + b)[1..] == a[1..] + b;
    }
  }

  lemma {:induction false} FineIsRendered(ts: seq<Token>) returns (body: seq<Stmt>)
    requires StrictStmts(ts).Fine?
    ensures ts == RenderAll(body) + StrictStmts(ts).rest
    decreases |ts|, 1
  {
    if AtEnd(ts) {
      body := [];
    } else {
      var first := FineStmtIsRendered(ts);
      var later := FineIsRendered(StrictStmt(ts).rest);
      body := first + later;
      AppendRendered(ts, first, StrictStmt(ts).rest, later, StrictStmts(ts).rest);
    }
  }

  lemma {:induction false} AppendRendered(ts: seq<Token>, first: seq<Stmt>, mid: seq<Token>, later: seq<Stmt>, rest: seq<Token>)
    requires ts == RenderAll(first) + mid && mid == RenderAll(later) + rest
    ensures ts == RenderAll(first + later) + rest
  {
    RenderAppend(first, later);
    assert RenderAll(first) + (RenderAll(later) + rest) == RenderAll(first) + RenderAll(later) + rest;
  }

  // Rendered statements have no error.
  lemma {:induction false} RenderedStmtIsFine(s: Stmt, later: seq<Stmt>, ts: seq<Token>)
    requires AtEnd(ts)
    ensures StrictStmt(Render(s) + (RenderAll(later) + ts)) == Fine(if s.Complex? then ts else RenderAll(later) + ts)
    decreases |Render(s)| + |RenderAll(later)|, 1
  {
    var tail := RenderAll(later) + ts;
    match s
    case Simple(name, value) =>
      var all := Render(s) + tail;
      assert all[1..][0] == COLON && all[2..][0] == IDENT(value) && all[3..][0] == SEMICOLON && all[4..] == tail;
    case Complex(name, ps) =>
      assert Render(s) + tail == Header(name, ps) + ([SEMICOLON] + tail);
      HeaderRead(name, ps, [SEMICOLON] + tail);
      assert ([SEMICOLON] + tail)[1..] == tail;
      RenderedIsFine(later, ts);
    case Group(name, ps, body) =>
      RenderedGroupIsFine(s, tail);
  }

  lemma {:induction false} RenderedGroupIsFine(s: Stmt, tail: seq<Token>)
    requires s.Group?
    ensures StrictStmt(Render(s) + tail) == Fine(tail)
    decreases |Render(s)|, 0
  {
    var rest := [LBRACE] + (RenderAll(s.body) + ([RBRACE] + tail));
    assert Render(s) + tail == Header(s.name, s.params) + rest;
    HeaderRead(s.name, s.params, rest);
    assert rest[1..] == RenderAll(s.body) + ([RBRACE] + tail);
    RenderedIsFine(s.body, [RBRACE] + tail);
    assert ([RBRACE] + tail)[1..] == tail;
  }

  lemma {:induction false} RenderedIsFine(body: seq<Stmt>, ts: seq<Token>)
    requires AtEnd(ts)
    ensures StrictStmts(RenderAll(body) + ts) == Fine(ts)
    decreases |RenderAll(body)|, 2
  {
    if body == [] {
      assert RenderAll(body) + ts == ts;
    } else {
      var s, later := body[0], body[1..];
      assert RenderAll(body) + ts == Render(s) + (RenderAll(later) + ts);
      NameFirst(s);
      assert (RenderAll(body) + ts)[0] == Render(s)[0];
      RenderedStmtIsFine(s, later, ts);
      if !s.Complex? {
        RenderedIsFine(later, ts);
      }
    }
  }

  ghost predicate RenderedUpTo(ts: seq<Token>, rest: seq<Token>) {
    AtEnd(rest) && exists body :: ts == RenderAll(body) + rest
  }

  /** No error was dropped exactly when what was read is a rendered list of statements. */
  lemma {:induction false} NoErrorIff(ts: seq<Token>)
    ensures StrictStmts(ts).Fine? <==> RenderedUpTo(ts, ReadStmts(ts).rest)
  {
    ListAgrees(ts);
    if StrictStmts(ts).Fine? {
      var body := FineIsRendered(ts);
      assert ts == RenderAll(body) + ReadStmts(ts).rest;
    }
    if RenderedUpTo(ts, ReadStmts(ts).rest) {
      var body :| ts == RenderAll(body) + ReadStmts(ts).rest;
      RenderedIsFine(body, ReadStmts(ts).rest);
    }
  }

  /** Without any complex attribute: `c() { x: }` is accepted although x has no value. */
  lemma {:induction false} ErrorAtBraceExample()
    ensures var ts := [IDENT("c"), LPAREN, RPAREN, LBRACE, IDENT("x"), COLON, RBRACE];
            ReadStmts(ts) == Reading(true, []) && StrictStmts(ts) == Failed([RBRACE], [InGroup])
  {
    hide RenderParams;
    var x := [IDENT("x"), COLON, RBRACE];
    var ts := [IDENT("c"), LPAREN, RPAREN, LBRACE] + x;
    assert ReadParams(ts[2..]) == Reading(true, [LBRACE] + x) by {
      assert ts[2..] == [RPAREN] + ([LBRACE] + x);
    }
    assert ([LBRACE] + x)[1..] == x && x[2..] == [RBRACE];
    assert ReadStmt(x) == Reading(false, [RBRACE]) && StrictStmt(x) == Failed([RBRACE], []);
    assert ReadStmt(ts) == Reading(true, []);
    assert ts == [IDENT("c"), LPAREN, RPAREN, LBRACE, IDENT("x"), COLON, RBRACE];
  }
}
