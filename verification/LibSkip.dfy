/** Skipping LIB groups that nobody handles: the nested statements are read and dropped,
    and reading ends exactly at the group's own closing brace. */
module LibSkip {

  datatype Token = LPAREN | RPAREN | LBRACE | RBRACE | COLON | SEMICOLON | COMMA | IDENT(text: string)

  // --- The grammar -----------------------------------------------------------

  /** A parameter may be followed by a comma. */
  datatype Param = Param(text: string, comma: bool)

  datatype Stmt =
    | Simple(name: string, value: string)
    | Complex(name: string, params: seq<Param>)
    | Group(name: string, params: seq<Param>, body: seq<Stmt>)

  function RenderParams(ps: seq<Param>): seq<Token> {
    if ps == [] then [] else [IDENT(ps[0].text)] + (if ps[0].comma then [COMMA] else []) + RenderParams(ps[1..])
  }

  function Header(name: string, ps: seq<Param>): seq<Token> {
    [IDENT(name), LPAREN] + RenderParams(ps) + [RPAREN]
  }

  function Render(s: Stmt): seq<Token>
    decreases s, 0
  {
    match s
    case Simple(name, value) => [IDENT(name), COLON, IDENT(value), SEMICOLON]
    case Complex(name, ps) => Header(name, ps) + [SEMICOLON]
    case Group(name, ps, body) => Header(name, ps) + [LBRACE] + RenderAll(body) + [RBRACE]
  }

  function RenderAll(body: seq<Stmt>): seq<Token>
    decreases body
  {
    if body == [] then [] else Render(body[0]) + RenderAll(body[1..])
  }

  // --- Reading without a handler, as a function of the remaining tokens -----------

  /** Whether reading succeeded, and where it stopped in either case. */
  datatype Reading = Reading(ok: bool, rest: seq<Token>)

  predicate Is(ts: seq<Token>, t: Token) {
    ts != [] && ts[0] == t
  }

  predicate IsIdent(ts: seq<Token>) {
    ts != [] && ts[0].IDENT?
  }

  // At a closing brace or the end of the file.
  predicate AtEnd(ts: seq<Token>) {
    ts == [] || ts[0] == RBRACE
  }

  function ReadParams(ts: seq<Token>): (r: Reading)
    ensures |r.rest| <= |ts| && (r.ok ==> |r.rest| < |ts|)
    decreases |ts|
  {
    if Is(ts, RPAREN) then Reading(true, ts[1..])
    else if !IsIdent(ts) then Reading(false, ts)
    else ReadParams(if Is(ts[1..], COMMA) then ts[2..] else ts[1..])
  }

  /** A complex attribute without a handler goes on to read statements, as a group does,
      and what that returns is ignored. */
  function ReadStmt(ts: seq<Token>): (r: Reading)
    ensures |r.rest| <= |ts| && (r.ok ==> |r.rest| < |ts|)
    decreases |ts|, 0
  {
    if !IsIdent(ts) then Reading(false, ts)
    else if Is(ts[1..], COLON) then
      if !IsIdent(ts[2..]) then Reading(false, ts[2..])
      else if !Is(ts[3..], SEMICOLON) then Reading(false, ts[3..])
      else Reading(true, ts[4..])
    else if Is(ts[1..], LPAREN) then
      var p := ReadParams(ts[2..]);
      if !p.ok then p
      else if Is(p.rest, SEMICOLON) then Reading(true, ReadStmts(p.rest[1..]).rest)
      else if Is(p.rest, LBRACE) then
        var rest := ReadStmts(p.rest[1..]).rest;
        if Is(rest, RBRACE) then Reading(true, rest[1..]) else Reading(false, rest)
      else Reading(false, p.rest)
    else Reading(false, ts[1..])
  }

  function ReadStmts(ts: seq<Token>): (r: Reading)
    ensures |r.rest| <= |ts|
    decreases |ts|, 1
  {
    if AtEnd(ts) then Reading(true, ts)
    else
      var s := ReadStmt(ts);
      if s.ok then ReadStmts(s.rest) else s
  }

  // --- Where reading lands ---------------------------------------------------------

  lemma {:induction false} ParamsRead(ps: seq<Param>, ts: seq<Token>)
    ensures ReadParams(RenderParams(ps) + [RPAREN] + ts) == Reading(true, ts)
    decreases |ps|
  {
    var all := RenderParams(ps) + [RPAREN] + ts;
    if ps == [] {
      assert all[0] == RPAREN && all[1..] == ts;
    } else {
      var rest := RenderParams(ps[1..]) + [RPAREN] + ts;
      ParamsRead(ps[1..], ts);
      assert all[0] == IDENT(ps[0].text);
      if ps[0].comma {
        assert all[1..][0] == COMMA && all[2..] == rest;
      } else {
        assert all[1..] == rest;
        assert rest[0] == if ps[1..] == [] then RPAREN else IDENT(ps[1..][0].text);
      }
    }
  }

  lemma {:induction false} HeaderRead(name: string, ps: seq<Param>, ts: seq<Token>)
    ensures var all := Header(name, ps) + ts;
            IsIdent(all) && Is(all[1..], LPAREN) && ReadParams(all[2..]) == Reading(true, ts)
  {
    var all := Header(name, ps) + ts;
    assert all[2..] == RenderParams(ps) + [RPAREN] + ts;
    ParamsRead(ps, ts);
  }

  /** One statement among others: a group ends at its own closing brace, whatever is nested
      in it; a complex attribute takes all its later siblings with it. */
  lemma {:induction false} StmtRead(s: Stmt, later: seq<Stmt>, ts: seq<Token>)
    requires AtEnd(ts)
    ensures ReadStmt(Render(s) + (RenderAll(later) + ts)) == Reading(true, if s.Complex? then ts else RenderAll(later) + ts)
    decreases |Render(s)| + |RenderAll(later)|, 1
  {
    match s
    case Simple(name, value) => SimpleStmtRead(s, RenderAll(later) + ts);
    case Complex(name, ps) => ComplexRead(s, later, ts);
    case Group(name, ps, body) => GroupRead(s, RenderAll(later) + ts);
  }

  lemma {:induction false} SimpleStmtRead(s: Stmt, tail: seq<Token>)
    requires s.Simple?
    ensures ReadStmt(Render(s) + tail) == Reading(true, tail)
  {
    var all := Render(s) + tail;
    assert all[1..][0] == COLON && all[2..][0] == IDENT(s.value) && all[3..][0] == SEMICOLON && all[4..] == tail;
  }

  lemma {:induction false} ComplexRead(s: Stmt, later: seq<Stmt>, ts: seq<Token>)
    requires s.Complex? && AtEnd(ts)
    ensures ReadStmt(Render(s) + (RenderAll(later) + ts)) == Reading(true, ts)
    decreases |Render(s)| + |RenderAll(later)|, 0
  {
    var tail := RenderAll(later) + ts;
    assert Render(s) + tail == Header(s.name, s.params) + ([SEMICOLON] + tail);
    HeaderRead(s.name, s.params, [SEMICOLON] + tail);
    assert ([SEMICOLON] + tail)[1..] == tail;
    StmtsRead(later, ts);
  }

  lemma {:induction false} GroupRead(s: Stmt, tail: seq<Token>)
    requires s.Group?
    ensures ReadStmt(Render(s) + tail) == Reading(true, tail)
    decreases |Render(s)|, 0
  {
    hide RenderParams, ReadParams;
    var rest := [LBRACE] + (RenderAll(s.body) + ([RBRACE] + tail));
    assert Render(s) + tail == Header(s.name, s.params) + rest;
    HeaderRead(s.name, s.params, rest);
    assert rest[1..] == RenderAll(s.body) + ([RBRACE] + tail);
    StmtsRead(s.body, [RBRACE] + tail);
    assert ([RBRACE] + tail)[1..] == tail;
  }

  /** A list of statements is read up to the brace or the end of the file behind it. */
  lemma {:induction false} StmtsRead(body: seq<Stmt>, ts: seq<Token>)
    requires AtEnd(ts)
    ensures ReadStmts(RenderAll(body) + ts) == Reading(true, ts)
    decreases |RenderAll(body)|, 2
  {
    if body == [] {
      assert RenderAll(body) + ts == ts;
    } else {
      var s, later := body[0], body[1..];
      assert RenderAll(body) + ts == Render(s) + (RenderAll(later) + ts);
      NameFirst(s);
      assert (RenderAll(body) + ts)[0] == Render(s)[0];
      StmtRead(s, later, ts);
      if !s.Complex? {
        StmtsRead(later, ts);
      }
    }
  }

  lemma {:induction false} NameFirst(s: Stmt)
    ensures Render(s) != [] && Render(s)[0] == IDENT(s.name)
  {
  }

  /** Skipping an unhandled group lands on its own closing brace, however deep it nests. */
  lemma {:induction false} SkipLandsOnOwnBrace(body: seq<Stmt>, ts: seq<Token>)
    ensures ReadStmts(RenderAll(body) + ([RBRACE] + ts)) == Reading(true, [RBRACE] + ts)
  {
    StmtsRead(body, [RBRACE] + ts);
  }

  // An error inside a group is dropped, but not the missing brace behind it.
  lemma {:induction false} ErrorInGroup(name: string, x: seq<Token>, z: seq<Token>)
    requires ReadStmts(x).rest == z && !Is(z, RBRACE)
    ensures ReadStmts(Header(name, []) + ([LBRACE] + x)) == Reading(false, z)
  {
    var all := Header(name, []) + ([LBRACE] + x);
    HeaderRead(name, [], [LBRACE] + x);
    assert ([LBRACE] + x)[1..] == x && all[0] == IDENT(name);
  }

  // A complex attribute drops errors and goes on where they stopped.
  lemma {:induction false} ErrorAfterComplex(name: string, c: seq<Token>)
    ensures ReadStmts(Header(name, []) + ([SEMICOLON] + c)) == ReadStmts(ReadStmts(c).rest)
  {
    var all := Header(name, []) + ([SEMICOLON] + c);
    HeaderRead(name, [], [SEMICOLON] + c);
    assert ([SEMICOLON] + c)[1..] == c && all[0] == IDENT(name);
  }

  /** Outside the grammar skipping may land elsewhere: in `a(); c() { x: y z: w; } }` the
      error inside c is dropped by a, and c's brace is taken for the one after it. */
  lemma {:induction false} IgnoredErrorExample()
    ensures var x := [IDENT("x"), COLON, IDENT("y"), IDENT("z"), COLON, IDENT("w"), SEMICOLON, RBRACE, RBRACE];
            ReadStmts(Header("a", []) + ([SEMICOLON] + (Header("c", []) + ([LBRACE] + x)))) == Reading(true, [RBRACE, RBRACE])
  {
    var z := [IDENT("z"), COLON, IDENT("w"), SEMICOLON, RBRACE, RBRACE];
    var x := [IDENT("x"), COLON, IDENT("y")] + z;
    SimpleRead(z, [RBRACE, RBRACE]);
    assert x[1..][0] == COLON && x[2..][0] == IDENT("y") && x[3..] == z;
    assert ReadStmt(x) == Reading(false, z);
    ErrorInGroup("c", x, z);
    ErrorAfterComplex("a", Header("c", []) + ([LBRACE] + x));
    assert x == [IDENT("x"), COLON, IDENT("y"), IDENT("z"), COLON, IDENT("w"), SEMICOLON, RBRACE, RBRACE];
  }

  lemma {:induction false} SimpleRead(z: seq<Token>, ts: seq<Token>)
    requires z == [IDENT("z"), COLON, IDENT("w"), SEMICOLON] + ts && AtEnd(ts)
    ensures ReadStmts(z) == Reading(true, ts)
  {
    assert z[1..][0] == COLON && z[2..][0] == IDENT("w") && z[3..][0] == SEMICOLON && z[4..] == ts;
    assert ReadStmt(z) == Reading(true, ts);
  }

  // --- The parser that advances -----------------------------------------------------

  class Parser {
    const toks: seq<Token>
    var pos: nat
    var params: seq<string>

    constructor (toks: seq<Token>)
      ensures this.toks == toks && pos == 0 && params == []
    {
      this.toks, pos, params := toks, 0, [];
    }

    ghost predicate Valid()
      reads this
    {
      pos <= |toks|
    }

    function Rest(): seq<Token>
      requires pos <= |toks|
      reads this
    {
      toks[pos..]
    }

    predicate At(t: Token)
      requires pos <= |toks|
      reads this
      ensures At(t) == Is(Rest(), t)
    {
      pos < |toks| && toks[pos] == t
    }

    predicate AtIdent()
      requires pos <= |toks|
      reads this
      ensures AtIdent() == IsIdent(Rest())
    {
      pos < |toks| && toks[pos].IDENT?
    }

    method Next()
      requires Valid()
      modifies this
      ensures Valid() && Rest() == (if old(Rest()) == [] then [] else old(Rest())[1..]) && params == old(params)
    {
      if pos < |toks| {
        pos := pos + 1;
      }
    }

    // The loop over the parameters, which replace those of the last group.
    method ParseParams() returns (ok: bool)
      requires Valid()
      modifies this
      ensures Valid() && Reading(ok, Rest()) == ReadParams(old(Rest()))
    {
      params := [];
      while !At(RPAREN)
        invariant Valid() && ReadParams(old(Rest())) == ReadParams(Rest())
        decreases |Rest()|
      {
        if !AtIdent() {
          return false;
        }
        params := params + [toks[pos].text];
        Next();
        if At(COMMA) {
          Next();
        }
      }
      Next();
      ok := true;
    }

    /** parse_stmt without a handler. */
    method ParseStmt() returns (ok: bool)
      requires Valid()
      modifies this
      ensures Valid() && Reading(ok, Rest()) == ReadStmt(old(Rest()))
      decreases |Rest()|, 0
    {
      hide At;
      if !AtIdent() {
        return false;
      }
      Next();
      if At(COLON) {
        Next();
        if !AtIdent() {
          return false;
        }
        Next();
        if !At(SEMICOLON) {
          return false;
        }
        Next();
        return true;
      }
      if !At(LPAREN) {
        return false;
      }
      Next();
      ok := ParseParams();
      if !ok {
        return;
      }
      var group := At(LBRACE);
      if !group && !At(SEMICOLON) {
        return false;
      }
      Next();
      var _ := ParseStmts();
      if group {
        if !At(RBRACE) {
          return false;
        }
        Next();
      }
      ok := true;
    }

    /** parse_stmts without a handler. */
    method ParseStmts() returns (ok: bool)
      requires Valid()
      modifies this
      ensures Valid() && Reading(ok, Rest()) == ReadStmts(old(Rest()))
      decreases |Rest()|, 1
    {
      while pos < |toks| && !At(RBRACE)
        invariant Valid() && ReadStmts(old(Rest())) == ReadStmts(Rest()) && |Rest()| <= |old(Rest())|
        decreases |Rest()|
      {
        ok := ParseStmt();
        if !ok {
          return;
        }
      }
      ok := true;
    }
  }
}
