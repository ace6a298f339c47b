/** The parser as it runs: recursive descent that advances the lexer in loops
    (parse_with_rules, parse). */
module LefReader {
  import opened LefSkip
  import opened LefParse

  // lex_real.
  method ReadReal(lex: Lexer, e: Env) returns (r: Result<real>)
    requires lex.Valid()
    modifies lex
    ensures lex.Valid() && |lex.Rest()| <= |old(lex.Rest())|
    ensures var f := RealOf(e, old(lex.Rest())); if f.Ok? then r == Ok(f.value.0) && lex.Rest() == f.value.1 else r == Err
  {
    if lex.AtEof() || !IsName(lex.toks[lex.pos]) {
      return Err;
    }
    var x := e.number(lex.toks[lex.pos].text);
    if x.Err? {
      return Err;
    }
    lex.Next();
    r := Ok(x.value);
  }

  // lex_xy.
  method ReadPair(lex: Lexer, e: Env) returns (r: Result<XY>)
    requires lex.Valid()
    modifies lex
    ensures lex.Valid() && |lex.Rest()| <= |old(lex.Rest())|
    ensures var f := PairOf(e, old(lex.Rest())); if f.Ok? then r == Ok(f.value.0) && lex.Rest() == f.value.1 else r == Err
  {
    var paren := lex.At(LPAREN);
    if paren {
      lex.Next();
    }
    var x := ReadReal(lex, e);
    if x.Err? {
      return Err;
    }
    var y := ReadReal(lex, e);
    if y.Err? {
      return Err;
    }
    if paren {
      if !lex.At(RPAREN) {
        return Err;
      }
      lex.Next();
    }
    r := Ok(XY(x.value, y.value));
  }

  // What the functions called in front report.
  datatype Start = Start(into: Node, arg: Node)

  ghost predicate Reports(r: Result<Start>, f: Result<Begun>, rest: seq<Token>) {
    if f.Ok? then r == Ok(Start(f.value.into, f.value.arg)) && rest == f.value.rest else r == Err
  }

  method ReadSize(lex: Lexer, e: Env, into: Node) returns (r: Result<Start>)
    requires lex.Valid() && into.MacroNode?
    modifies lex
    ensures lex.Valid() && |lex.Rest()| <= |old(lex.Rest())|
    ensures Reports(r, Begin(e, ParseSize, "", into, old(lex.Rest())), lex.Rest())
  {
    var x := ReadReal(lex, e);
    if x.Err? || !lex.At(KW(BY)) {
      return Err;
    }
    lex.Next();
    var y := ReadReal(lex, e);
    if y.Err? {
      return Err;
    }
    r := Ok(Start(MacroNode(into.macro.(size := XY(x.value, y.value))), Nothing));
  }

  method ReadClass(lex: Lexer, e: Env, into: Node) returns (r: Result<Start>)
    requires lex.Valid() && into.PortNode?
    modifies lex
    ensures lex.Valid() && |lex.Rest()| <= |old(lex.Rest())|
    ensures Reports(r, Begin(e, ParseClass, "", into, old(lex.Rest())), lex.Rest())
  {
    var cls;
    if lex.At(KW(NONE)) {
      cls := NoneClass;
    } else if lex.At(KW(CORE)) {
      cls := CoreClass;
    } else if lex.At(KW(BUMP)) {
      cls := BumpClass;
    } else {
      return Err;
    }
    lex.Next();
    r := Ok(Start(PortNode(into.port.(cls := cls)), Nothing));
  }

  method ReadRect(lex: Lexer, e: Env, into: Node) returns (r: Result<Start>)
    requires lex.Valid() && into.PortNode?
    modifies lex
    ensures lex.Valid() && |lex.Rest()| <= |old(lex.Rest())|
    ensures Reports(r, Begin(e, ParseRect, "", into, old(lex.Rest())), lex.Rest())
  {
    if into.port.layers == [] {
      return Err;
    }
    var p := ReadPair(lex, e);
    if p.Err? {
      return Err;
    }
    var q := ReadPair(lex, e);
    if q.Err? {
      return Err;
    }
    var l := into.port.layers[|into.port.layers| - 1];
    r := Ok(Start(PortNode(WithLast(into.port, l.(rects := l.rects + [(p.value, q.value)]))), Nothing));
  }

  method RunAction(lex: Lexer, e: Env, a: Action, name: string, into: Node) returns (r: Result<Start>)
    requires lex.Valid()
    modifies lex
    ensures lex.Valid() && |lex.Rest()| <= |old(lex.Rest())|
    ensures Reports(r, Begin(e, a, name, into, old(lex.Rest())), lex.Rest())
  {
    match a
    case NoAction => r := Ok(Start(into, Nothing));
    case BeginMacro => r := Ok(Start(into, MacroNode(Macro(name, XY(0.0, 0.0), XY(0.0, 0.0), []))));
    case BeginPin => r := Ok(Start(into, PinNode(Pin(name, []))));
    case BeginPort => r := Ok(Start(into, PortNode(Port(NoClass, []))));
    case ParseSize =>
      if !into.MacroNode? {
        return Err;
      }
      r := ReadSize(lex, e, into);
    case ParseOrigin =>
      if !into.MacroNode? {
        return Err;
      }
      var p := ReadPair(lex, e);
      r := if p.Err? then Err else Ok(Start(MacroNode(into.macro.(origin := p.value)), Nothing));
    case ParseClass =>
      if !into.PortNode? {
        return Err;
      }
      r := ReadClass(lex, e, into);
    case ParseLayer =>
      if !into.PortNode? {
        return Err;
      }
      r := Ok(Start(PortNode(into.port.(layers := into.port.layers + [Layer(name, 0.0, [])])), Nothing));
    case ParseWidth =>
      if !into.PortNode? || into.port.layers == [] {
        return Err;
      }
      var x := ReadReal(lex, e);
      if x.Err? {
        return Err;
      }
      var l := into.port.layers[|into.port.layers| - 1];
      r := Ok(Start(PortNode(WithLast(into.port, l.(width := x.value))), Nothing));
    case ParseRect =>
      if !into.PortNode? {
        return Err;
      }
      r := ReadRect(lex, e, into);
    case NotImplemented => r := Err;
  }

  // The status and the lexer agree with the function's result.
  ghost predicate Agrees(r: Result<Node>, f: Result<Parsed>, rest: seq<Token>) {
    if f.Ok? then r == Ok(f.value.node) && rest == f.value.rest else r == Err
  }

  method FindRule(lex: Lexer, rules: seq<Rule>) returns (n: nat)
    requires lex.Valid()
    ensures n == Match(rules, lex.Rest())
  {
    n := 0;
    while n < |rules|
      invariant n <= |rules| && forall i :: 0 <= i < n ==> !Is(lex.Rest(), KW(rules[i].tkn))
    {
      if lex.At(KW(rules[n].tkn)) {
        break;
      }
      n := n + 1;
    }
  }

  /** parse_with_rules: each success takes at least one token. */
  method ParseStatement(lex: Lexer, e: Env, into: Node, rules: seq<Rule>) returns (r: Result<Node>)
    requires lex.Valid()
    modifies lex
    ensures lex.Valid() && |lex.Rest()| <= |old(lex.Rest())| && Agrees(r, ParseStmt(e, old(lex.Rest()), into, rules), lex.Rest())
    decreases |lex.Rest()|, 1
  {
    ghost var ts := lex.Rest();
    var n := FindRule(lex, rules);
    if n == |rules| {
      var ok := lex.SkipStatement();
      return if ok then Ok(into) else Err;
    }
    var rule := rules[n];
    var name := "";
    var kw := lex.toks[lex.pos].text;
    lex.Next();
    if rule.named {
      name := if lex.AtEof() then kw else lex.toks[lex.pos].text;
      lex.Next();
    }
    r := ParseRule(lex, e, into, rules, n, ts, name);
  }

  // Behind the keyword and the name of a rule.
  method ParseRule(lex: Lexer, e: Env, into: Node, rules: seq<Rule>, n: nat, ghost ts: seq<Token>, name: string) returns (r: Result<Node>)
    requires lex.Valid() && n == Match(rules, ts) < |rules| && ts != []
    requires name == (if rules[n].named then NameOf(ts[0], ts[1..]) else "")
    requires lex.Rest() == (if rules[n].named then Tail(ts[1..]) else ts[1..])
    modifies lex
    ensures lex.Valid() && |lex.Rest()| <= |old(lex.Rest())| && Agrees(r, ParseStmt(e, ts, into, rules), lex.Rest())
    decreases |lex.Rest()|, 4
  {
    var rule := rules[n];
    var s := RunAction(lex, e, rule.pre, name, into);
    if s.Err? {
      return Err;
    }
    if rule.StmtRule? {
      if !lex.At(SEMICOLON) {
        return Err;
      }
      lex.Next();
      return Ok(s.value.into);
    }
    r := ParseGroup(lex, e, rule, name, s.value.into, s.value.arg);
  }

  method ParseGroup(lex: Lexer, e: Env, rule: Rule, name: string, into: Node, arg: Node) returns (r: Result<Node>)
    requires lex.Valid() && rule.GroupRule?
    modifies lex
    ensures lex.Valid() && |lex.Rest()| <= |old(lex.Rest())| && Agrees(r, GroupOf(e, rule, name, into, arg, old(lex.Rest())), lex.Rest())
    decreases |lex.Rest()|, 3
  {
    hide ParseBody, ParseStmt, Finish;
    var unset := rule.pre == NoAction && lex.At(KW(END));
    var g := ParseItems(lex, e, arg, rule.rules);
    if g.Err? {
      return Err;
    }
    lex.Next();
    if rule.endName {
      if lex.AtEof() || lex.toks[lex.pos].text != name {
        return Err;
      }
      lex.Next();
    }
    // The status of a group without statements is whatever was there.
    r := if unset && e.stale then Err else Ok(Finish(into, g.value));
  }

  // The loop over the statements of a group.
  method ParseItems(lex: Lexer, e: Env, arg: Node, rules: seq<Rule>) returns (r: Result<Node>)
    requires lex.Valid()
    modifies lex
    ensures lex.Valid() && |lex.Rest()| <= |old(lex.Rest())| && Agrees(r, ParseBody(e, old(lex.Rest()), arg, rules), lex.Rest())
    decreases |lex.Rest()|, 2
  {
    var node := arg;
    while !lex.At(KW(END))
      invariant lex.Valid() && |lex.Rest()| <= |old(lex.Rest())|
      invariant ParseBody(e, old(lex.Rest()), arg, rules) == ParseBody(e, lex.Rest(), node, rules)
      decreases |lex.Rest()|
    {
      if lex.AtEof() {
        return Err;
      }
      var s := ParseStatement(lex, e, node, rules);
      if s.Err? {
        return Err;
      }
      node := s.value;
    }
    r := Ok(node);
  }

  /** parse. */
  method Parse(lex: Lexer, e: Env, lib: Node) returns (r: Result<Node>)
    requires lex.Valid()
    modifies lex
    ensures lex.Valid() && r == ParseFile(e, old(lex.Rest()), lib)
  {
    var node := lib;
    while !lex.AtEof()
      invariant lex.Valid() && ParseFile(e, old(lex.Rest()), lib) == ParseFile(e, lex.Rest(), node)
      decreases |lex.Rest()|
    {
      if lex.At(KW(END)) {
        lex.Next();
        if !lex.At(KW(LIBRARY)) {
          return Err;
        }
        lex.Next();
        return if lex.AtEof() then Ok(node) else Err;
      }
      var s := ParseStatement(lex, e, node, ROOT_RULES);
      if s.Err? {
        return Err;
      }
      node := s.value;
    }
    r := Err;
  }
}
