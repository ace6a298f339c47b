/** Skipping LEF statements: the skip that makes unknown constructs ignorable takes exactly
    one statement, of the grammar that it implies. */
module LefSkip {

  datatype Keyword =
    | BUSBITCHARS | BY | DIVIDERCHAR | END | LIBRARY | MACRO | NAMESCASESENSITIVE | OBS | OFF | ON | ORIGIN | PIN
    | PROPERTYDEFINITIONS | R90 | SITE | SIZE | SYMMETRY | VERSION | X | Y | PORT | NONE | CORE | BUMP | LAYER | VIA
    | CLASS | WIDTH | PATH | RECT | POLYGON

  datatype Kind = LPAREN | RPAREN | SEMICOLON | IDENT | STRING | KW(kw: Keyword)

  /** A token with its spelling; keywords are recognised whatever their case. */
  datatype Token = Token(kind: Kind, text: string)

  datatype Result<T> = Ok(value: T) | Err

  // Everything from identifiers on can be a name.
  predicate IsName(t: Token) {
    t.kind != LPAREN && t.kind != RPAREN && t.kind != SEMICOLON
  }

  predicate Is(ts: seq<Token>, k: Kind) {
    ts != [] && ts[0].kind == k
  }

  predicate IsEnd(ts: seq<Token>) {
    Is(ts, KW(END))
  }

  // --- The grammar -----------------------------------------------------------

  datatype Stmt =
    | Empty(semi: Token)
    | Plain(toks: seq<Token>, semi: Token)
    | Named(kw: Token, name: Token, body: seq<Stmt>, end: Token, again: Token)
    | Short(kw: Token, name: Token, semi: Token)
    | Repeated(kw: Token, body: seq<Stmt>, end: Token, again: Token)
    | Block(kw: Token, body: seq<Stmt>, end: Token)

  // What a group can be called.
  predicate Nameable(k: Kind) {
    match k
    case IDENT => true
    case STRING => true
    case KW(_) => true
    case _ => false
  }

  // Anything but the semicolon and the six keywords that open groups.
  predicate Plainly(k: Kind) {
    match k
    case SEMICOLON => false
    case KW(kw) => kw !in {PIN, MACRO, SITE, OBS, PORT, PROPERTYDEFINITIONS}
    case _ => true
  }

  /** A named group does not start with an empty statement: that semicolon would end it. */
  predicate Wf(s: Stmt)
    decreases s, 0
  {
    match s
    case Empty(semi) => semi.kind == SEMICOLON
    case Plain(toks, semi) =>
      && toks != [] && semi.kind == SEMICOLON && Plainly(toks[0].kind)
      && forall i :: 0 <= i < |toks| ==> toks[i].kind != SEMICOLON && toks[i].kind != KW(END)
    case Named(kw, name, body, end, again) =>
      && (kw.kind == KW(PIN) || kw.kind == KW(MACRO) || kw.kind == KW(SITE)) && Nameable(name.kind)
      && end.kind == KW(END) && Nameable(again.kind) && again.text == name.text
      && AllWf(body) && (body != [] ==> !body[0].Empty?)
    case Short(kw, name, semi) =>
      (kw.kind == KW(PIN) || kw.kind == KW(MACRO) || kw.kind == KW(SITE)) && Nameable(name.kind) && semi.kind == SEMICOLON
    case Repeated(kw, body, end, again) =>
      kw.kind == KW(PROPERTYDEFINITIONS) && AllWf(body) && end.kind == KW(END) && again.kind == KW(PROPERTYDEFINITIONS)
    case Block(kw, body, end) => (kw.kind == KW(OBS) || kw.kind == KW(PORT)) && AllWf(body) && end.kind == KW(END)
  }

  predicate AllWf(body: seq<Stmt>)
    decreases body
  {
    body == [] || (Wf(body[0]) && AllWf(body[1..]))
  }

  function Render(s: Stmt): (ts: seq<Token>)
    decreases s, 0
  {
    match s
    case Empty(semi) => [semi]
    case Plain(toks, semi) => toks + [semi]
    case Named(kw, name, body, end, again) => [kw, name] + RenderAll(body) + [end, again]
    case Short(kw, name, semi) => [kw, name, semi]
    case Repeated(kw, body, end, again) => [kw] + RenderAll(body) + [end, again]
    case Block(kw, body, end) => [kw] + RenderAll(body) + [end]
  }

  function RenderAll(body: seq<Stmt>): (ts: seq<Token>)
    decreases body
  {
    if body == [] then [] else Render(body[0]) + RenderAll(body[1..])
  }

  // --- What skip does, as a function of the remaining tokens --------------------

  predicate OpensNamed(k: Kind) {
    k == KW(PIN) || k == KW(MACRO) || k == KW(SITE)
  }

  predicate OpensBlock(k: Kind) {
    k == KW(OBS) || k == KW(PORT)
  }

  function Skip(ts: seq<Token>): (r: Result<seq<Token>>)
    ensures r.Ok? ==> |r.value| < |ts|
    decreases |ts|, 1
  {
    if ts == [] then Err
    else if ts[0].kind == SEMICOLON then Ok(ts[1..])
    else if OpensNamed(ts[0].kind) then
      if |ts| == 1 || !IsName(ts[1]) then Err
      else if Is(ts[2..], SEMICOLON) then Ok(ts[3..])
      else
        var b := SkipBody(ts[2..]);
        if b.Ok? && |b.value| >= 2 && IsName(b.value[1]) && b.value[1].text == ts[1].text then Ok(b.value[2..]) else Err
    else if ts[0].kind == KW(PROPERTYDEFINITIONS) then
      var b := SkipBody(ts[1..]);
      if b.Ok? && |b.value| >= 2 && b.value[1].kind == KW(PROPERTYDEFINITIONS) then Ok(b.value[2..]) else Err
    else if OpensBlock(ts[0].kind) then
      var b := SkipBody(ts[1..]);
      if b.Ok? then Ok(b.value[1..]) else Err
    else SkipPlain(ts)
  }

  // Statements up to END, which is left.
  function SkipBody(ts: seq<Token>): (r: Result<seq<Token>>)
    ensures r.Ok? ==> |r.value| <= |ts| && IsEnd(r.value)
    decreases |ts|, 2
  {
    if ts == [] then Err
    else if IsEnd(ts) then Ok(ts)
    else
      var r := Skip(ts);
      if r.Ok? then SkipBody(r.value) else Err
  }

  function SkipPlain(ts: seq<Token>): (r: Result<seq<Token>>)
    ensures r.Ok? ==> |r.value| < |ts|
    decreases |ts|, 0
  {
    if ts == [] || ts[0].kind == KW(END) then Err
    else if ts[0].kind == SEMICOLON then Ok(ts[1..])
    else SkipPlain(ts[1..])
  }

  // --- Skip takes exactly one statement -------------------------------------------

  /** Every well-formed statement is skipped, and nothing after it. */
  lemma {:induction false} SkipRendered(s: Stmt, ts: seq<Token>)
    requires Wf(s)
    ensures Skip(Render(s) + ts) == Ok(ts)
    decreases s, 0
  {
    hide Skip, IsName, Nameable;
    match s
    case Empty(semi) => EmptySkipped(semi, ts);
    case Plain(toks, semi) => PlainSkipped(toks, semi, ts);
    case Named(kw, name, body, end, again) =>
      SkipBodyRendered(body, [end, again] + ts);
      NamedSkipped(s, ts);
    case Short(kw, name, semi) => ShortSkipped(s, ts);
    case Repeated(kw, body, end, again) =>
      SkipBodyRendered(body, [end, again] + ts);
      RepeatedSkipped(s, ts);
    case Block(kw, body, end) =>
      SkipBodyRendered(body, [end] + ts);
      BlockSkipped(s, ts);
  }

  lemma {:induction false} EmptySkipped(semi: Token, ts: seq<Token>)
    requires semi.kind == SEMICOLON
    ensures Skip([semi] + ts) == Ok(ts)
  {
    assert ([semi] + ts)[1..] == ts;
  }

  lemma {:induction false} ShortSkipped(s: Stmt, ts: seq<Token>)
    requires s.Short? && Wf(s)
    ensures Skip(Render(s) + ts) == Ok(ts)
  {
    hide SkipBody, IsName, Nameable;
    var all := Render(s) + ts;
    NameableIsName(s.name);
    assert all[0] == s.kw && all[1] == s.name && all[2..][0] == s.semi && all[3..] == ts;
  }

  lemma {:induction false} RepeatedSkipped(s: Stmt, ts: seq<Token>)
    requires s.Repeated? && Wf(s) && SkipBody(RenderAll(s.body) + ([s.end, s.again] + ts)) == Ok([s.end, s.again] + ts)
    ensures Skip(Render(s) + ts) == Ok(ts)
  {
    hide SkipBody, AllWf, RenderAll;
    assert (Render(s) + ts)[1..] == RenderAll(s.body) + ([s.end, s.again] + ts);
    assert ([s.end, s.again] + ts)[2..] == ts;
  }

  lemma {:induction false} BlockSkipped(s: Stmt, ts: seq<Token>)
    requires s.Block? && Wf(s) && SkipBody(RenderAll(s.body) + ([s.end] + ts)) == Ok([s.end] + ts)
    ensures Skip(Render(s) + ts) == Ok(ts)
  {
    hide SkipBody, AllWf, RenderAll;
    assert (Render(s) + ts)[1..] == RenderAll(s.body) + ([s.end] + ts);
    assert ([s.end] + ts)[1..] == ts;
  }

  lemma {:induction false} NameableIsName(t: Token)
    ensures Nameable(t.kind) <==> IsName(t)
  {
  }

  lemma {:induction false} PlainSkipped(toks: seq<Token>, semi: Token, ts: seq<Token>)
    requires Wf(Plain(toks, semi))
    ensures Skip(toks + [semi] + ts) == Ok(ts)
  {
    SkipPlainRendered(toks, semi, ts);
    assert (toks + [semi] + ts)[0] == toks[0];
  }

  lemma {:induction false} NamedSkipped(s: Stmt, ts: seq<Token>)
    requires s.Named? && Wf(s) && SkipBody(RenderAll(s.body) + ([s.end, s.again] + ts)) == Ok([s.end, s.again] + ts)
    ensures Skip(Render(s) + ts) == Ok(ts)
  {
    hide SkipBody, AllWf, RenderAll, IsName, Nameable;
    var all := Render(s) + ts;
    assert all[2..] == RenderAll(s.body) + ([s.end, s.again] + ts);
    assert all[0] == s.kw && all[1] == s.name;
    FirstOfBody(s.body, [s.end, s.again] + ts);
    NameableIsName(s.name);
    NameableIsName(s.again);
    assert ([s.end, s.again] + ts)[2..] == ts;
  }

  lemma {:induction false} SkipBodyRendered(body: seq<Stmt>, ts: seq<Token>)
    requires AllWf(body) && IsEnd(ts)
    ensures SkipBody(RenderAll(body) + ts) == Ok(ts)
    decreases body
  {
    if body == [] {
      assert RenderAll(body) + ts == ts;
    } else {
      var rest := RenderAll(body[1..]) + ts;
      assert RenderAll(body) + ts == Render(body[0]) + rest;
      SkipRendered(body[0], rest);
      SkipBodyRendered(body[1..], ts);
      NotEnd(body[0], rest);
    }
  }

  lemma {:induction false} NotEnd(s: Stmt, ts: seq<Token>)
    requires Wf(s)
    ensures Render(s) != [] && Render(s)[0].kind != KW(END)
    ensures !IsEnd(Render(s) + ts) && Render(s) + ts != []
    ensures Is(Render(s) + ts, SEMICOLON) ==> s.Empty?
  {
    assert (Render(s) + ts)[0] == Render(s)[0];
  }

  // A semicolon in front would be an empty first statement.
  lemma {:induction false} FirstOfBody(body: seq<Stmt>, ts: seq<Token>)
    requires AllWf(body) && IsEnd(ts) && (body != [] ==> !body[0].Empty?)
    ensures !Is(RenderAll(body) + ts, SEMICOLON)
  {
    if body == [] {
      assert RenderAll(body) + ts == ts;
    } else {
      NotEnd(body[0], RenderAll(body[1..]) + ts);
      assert RenderAll(body) + ts == Render(body[0]) + (RenderAll(body[1..]) + ts);
    }
  }

  lemma {:induction false} SkipPlainRendered(toks: seq<Token>, semi: Token, ts: seq<Token>)
    requires semi.kind == SEMICOLON
    requires forall i :: 0 <= i < |toks| ==> toks[i].kind != SEMICOLON && toks[i].kind != KW(END)
    ensures SkipPlain(toks + [semi] + ts) == Ok(ts)
    decreases |toks|
  {
    var all := toks + [semi] + ts;
    if toks == [] {
      assert all[1..] == ts;
    } else {
      assert all[1..] == toks[1..] + [semi] + ts;
      SkipPlainRendered(toks[1..], semi, ts);
    }
  }

  /** And only well-formed statements are skipped: what skip accepts starts with one, and
      the rest is what it leaves. */
  lemma {:induction false} SkippedIsRendered(ts: seq<Token>) returns (s: Stmt)
    requires Skip(ts).Ok?
    ensures Wf(s) && ts == Render(s) + Skip(ts).value
    decreases |ts|, 1
  {
    hide SkipBody;
    if ts[0].kind == SEMICOLON {
      s := Empty(ts[0]);
    } else if OpensNamed(ts[0].kind) {
      if Is(ts[2..], SEMICOLON) {
        s := Short(ts[0], ts[1], ts[2]);
      } else {
        var b := SkipBody(ts[2..]).value;
        var body := SkippedBody(ts[2..]);
        s := Named(ts[0], ts[1], body, b[0], b[1]);
      }
    } else if ts[0].kind == KW(PROPERTYDEFINITIONS) {
      var b := SkipBody(ts[1..]).value;
      var body := SkippedBody(ts[1..]);
      s := Repeated(ts[0], body, b[0], b[1]);
    } else if OpensBlock(ts[0].kind) {
      var b := SkipBody(ts[1..]).value;
      var body := SkippedBody(ts[1..]);
      s := Block(ts[0], body, b[0]);
    } else {
      var n := SkippedPlain(ts);
      s := Plain(ts[..n], ts[n]);
    }
  }

  lemma {:induction false} SkippedBody(ts: seq<Token>) returns (body: seq<Stmt>)
    requires SkipBody(ts).Ok?
    ensures AllWf(body) && ts == RenderAll(body) + SkipBody(ts).value
    decreases |ts|, 2
  {
    if IsEnd(ts) {
      body := [];
    } else {
      var s := SkippedIsRendered(ts);
      var rest := SkippedBody(Skip(ts).value);
      body := [s] + rest;
      assert body[1..] == rest;
    }
  }

  lemma {:induction false} SkippedPlain(ts: seq<Token>) returns (n: nat)
    requires SkipPlain(ts).Ok?
    ensures n < |ts| && ts[n].kind == SEMICOLON && SkipPlain(ts).value == ts[n + 1..]
    ensures forall i :: 0 <= i < n ==> ts[i].kind != SEMICOLON && ts[i].kind != KW(END)
    decreases |ts|, 0
  {
    if ts[0].kind == SEMICOLON {
      n := 0;
    } else {
      var m := SkippedPlain(ts[1..]);
      n := m + 1;
    }
  }

  /** With the keywords that open them written out, groups are skipped whole. */
  lemma {:induction false} GroupsSkipped(kw: Token, name: Token, body: seq<Stmt>, end: Token, again: Token, ts: seq<Token>)
    requires AllWf(body) && end.kind == KW(END)
    ensures (kw.kind == KW(PIN) || kw.kind == KW(MACRO) || kw.kind == KW(SITE))
            && name.kind != LPAREN && name.kind != RPAREN && name.kind != SEMICOLON
            && again.kind != LPAREN && again.kind != RPAREN && again.kind != SEMICOLON && again.text == name.text
            && (body != [] ==> Render(body[0]) != [] && Render(body[0])[0].kind != SEMICOLON)
            ==> Skip([kw, name] + RenderAll(body) + [end, again] + ts) == Ok(ts)
    ensures kw.kind == KW(OBS) || kw.kind == KW(PORT) ==> Skip([kw] + RenderAll(body) + [end] + ts) == Ok(ts)
    ensures kw.kind == again.kind == KW(PROPERTYDEFINITIONS) ==> Skip([kw] + RenderAll(body) + [end, again] + ts) == Ok(ts)
  {
    hide Skip, RenderAll;
    var named, repeated, block := Named(kw, name, body, end, again), Repeated(kw, body, end, again), Block(kw, body, end);
    if Wf(named) {
      SkipRendered(named, ts);
    }
    if Wf(repeated) {
      SkipRendered(repeated, ts);
    }
    if Wf(block) {
      SkipRendered(block, ts);
    }
  }

  /** Behind any other first token a statement ends at the first semicolon, in front of which
      there must be no END. */
  lemma {:induction false} OthersEndAtSemicolon(ts: seq<Token>, n: nat)
    requires n < |ts| && forall i :: 0 <= i < n ==> ts[i].kind != SEMICOLON
    requires ts[0].kind !in {KW(PIN), KW(MACRO), KW(SITE), KW(OBS), KW(PORT), KW(PROPERTYDEFINITIONS)}
    ensures ts[n].kind == SEMICOLON ==>
              Skip(ts) == if exists i :: 0 <= i < n && ts[i].kind == KW(END) then Err else Ok(ts[n + 1..])
    ensures n == |ts| - 1 && ts[n].kind != SEMICOLON ==> Skip(ts) == Err
  {
    hide *;
    SkipsPlain(ts);
    PlainEnd(ts, n);
  }

  lemma {:induction false} SkipsPlain(ts: seq<Token>)
    requires ts != [] && ts[0].kind !in {KW(PIN), KW(MACRO), KW(SITE), KW(OBS), KW(PORT), KW(PROPERTYDEFINITIONS)}
    ensures Skip(ts) == SkipPlain(ts)
  {
  }

  lemma {:induction false} PlainEnd(ts: seq<Token>, n: nat)
    requires n < |ts| && forall i :: 0 <= i < n ==> ts[i].kind != SEMICOLON
    ensures ts[n].kind == SEMICOLON ==>
              SkipPlain(ts) == if exists i :: 0 <= i < n && ts[i].kind == KW(END) then Err else Ok(ts[n + 1..])
    ensures n == |ts| - 1 && ts[n].kind != SEMICOLON ==> SkipPlain(ts) == Err
    decreases n
  {
    if ts[0].kind != SEMICOLON && ts[0].kind != KW(END) {
      if n > 0 {
        PlainEnd(ts[1..], n - 1);
        forall i | 0 <= i < n && ts[i].kind == KW(END) ensures ts[1..][i - 1].kind == KW(END) {
        }
      }
    }
  }

  // --- The lexer and the skip that advances it ------------------------------------

  class Lexer {
    const toks: seq<Token>
    var pos: nat

    constructor (toks: seq<Token>)
      ensures this.toks == toks && pos == 0 && Valid() && Rest() == toks
    {
      this.toks, pos := toks, 0;
    }

    ghost predicate Valid()
      reads this
    {
      pos <= |toks|
    }

    function Rest(): seq<Token>
      requires pos <= |toks|
      reads this
    {
      toks[pos..]
    }

    // The end of the file counts as a token of no kind.
    predicate At(k: Kind)
      requires pos <= |toks|
      reads this
      ensures At(k) == Is(Rest(), k)
    {
      pos < |toks| && toks[pos].kind == k
    }

    predicate AtEof()
      requires pos <= |toks|
      reads this
      ensures AtEof() == (Rest() == [])
    {
      pos == |toks|
    }

    /** lex_next: the lexer stays at the end of the file. */
    method Next()
      requires Valid()
      modifies this
      ensures Valid() && Rest() == if old(Rest()) == [] then [] else old(Rest())[1..]
    {
      if pos < |toks| {
        pos := pos + 1;
      }
    }

    /** skip. */
    method SkipStatement() returns (ok: bool)
      requires Valid()
      modifies this
      ensures Valid() && ok == Skip(old(Rest())).Ok?
      ensures ok ==> Rest() == Skip(old(Rest())).value
      ensures |Rest()| <= |old(Rest())|
      decreases |Rest()|, 1
    {
      if AtEof() {
        return false;
      }
      var tkn := toks[pos].kind;
      if tkn == SEMICOLON {
        Next();
        return true;
      }
      if tkn == KW(PIN) || tkn == KW(MACRO) || tkn == KW(SITE) {
        ok := SkipNamed();
      } else if tkn == KW(PROPERTYDEFINITIONS) {
        Next();
        ok := SkipToEnd();
        if !ok {
          return;
        }
        Next();
        if !At(tkn) {
          return false;
        }
        Next();
      } else if tkn == KW(OBS) || tkn == KW(PORT) {
        Next();
        ok := SkipToEnd();
        if ok {
          Next();
        }
      } else {
        ok := SkipToSemicolon();
      }
    }

    // The groups that repeat their name at the end.
    method SkipNamed() returns (ok: bool)
      requires Valid() && !AtEof() && OpensNamed(Rest()[0].kind)
      modifies this
      ensures Valid() && ok == Skip(old(Rest())).Ok?
      ensures ok ==> Rest() == Skip(old(Rest())).value
      ensures |Rest()| <= |old(Rest())|
      decreases |Rest()|, 0
    {
      ghost var ts := Rest();
      Next();
      if AtEof() || !IsName(toks[pos]) {
        return false;
      }
      var name := toks[pos].text;
      Next();
      assert Rest() == ts[2..];
      if At(SEMICOLON) {
        Next();
        return true;
      }
      ok := SkipToEnd();
      if !ok {
        return;
      }
      Next();
      if AtEof() || !IsName(toks[pos]) || toks[pos].text != name {
        return false;
      }
      Next();
    }

    // The loop over the statements of a group.
    method SkipToEnd() returns (ok: bool)
      requires Valid()
      modifies this
      ensures Valid() && ok == SkipBody(old(Rest())).Ok?
      ensures ok ==> Rest() == SkipBody(old(Rest())).value
      ensures |Rest()| <= |old(Rest())|
      decreases |Rest()|, 2
    {
      while !At(KW(END))
        invariant Valid() && SkipBody(old(Rest())) == SkipBody(Rest()) && |Rest()| <= |old(Rest())|
        decreases |Rest()|
      {
        if AtEof() {
          return false;
        }
        ok := SkipStatement();
        if !ok {
          return;
        }
      }
      ok := true;
    }

    method SkipToSemicolon() returns (ok: bool)
      requires Valid()
      modifies this
      ensures Valid() && ok == SkipPlain(old(Rest())).Ok?
      ensures ok ==> Rest() == SkipPlain(old(Rest())).value
      ensures |Rest()| <= |old(Rest())|
    {
      while !At(SEMICOLON)
        invariant Valid() && SkipPlain(old(Rest())) == SkipPlain(Rest()) && |Rest()| <= |old(Rest())|
        decreases |Rest()|
      {
        if AtEof() || At(KW(END)) {
          return false;
        }
        Next();
      }
      Next();
      ok := true;
    }
  }
}
