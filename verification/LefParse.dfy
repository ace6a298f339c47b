/** Parsing LEF with the rule tables: statements that no rule matches are skipped, so that
    unknown constructs leave the result as it is. */
module LefParse {
  import opened LefSkip

  // --- The result ------------------------------------------------------------

  datatype XY = XY(x: real, y: real)

  datatype Layer = Layer(name: string, width: real, rects: seq<(XY, XY)>)

  datatype PortClass = NoClass | NoneClass | CoreClass | BumpClass

  /** The last layer is the one that widths and rectangles go to. */
  datatype Port = Port(cls: PortClass, layers: seq<Layer>)

  datatype Pin = Pin(name: string, ports: seq<Port>)

  datatype Macro = Macro(name: string, size: XY, origin: XY, pins: seq<Pin>)

  /** What a group's statements write into; obstructions write into nothing. */
  datatype Node = Nothing | Library(macros: seq<Macro>) | MacroNode(macro: Macro) | PinNode(pin: Pin) | PortNode(port: Port)

  // --- The rules -----------------------------------------------------------------

  datatype Action =
    | NoAction | BeginMacro | ParseSize | ParseOrigin | BeginPin | BeginPort
    | ParseClass | ParseLayer | ParseWidth | ParseRect | NotImplemented

  datatype Rule =
    | StmtRule(tkn: Keyword, named: bool, pre: Action)
    | GroupRule(tkn: Keyword, named: bool, endName: bool, rules: seq<Rule>, pre: Action)

  const PORT_RULES: seq<Rule> := [
    StmtRule(CLASS, false, ParseClass),
    StmtRule(LAYER, true, ParseLayer),
    StmtRule(VIA, false, NotImplemented),
    StmtRule(WIDTH, false, ParseWidth),
    StmtRule(PATH, false, NotImplemented),
    StmtRule(RECT, false, ParseRect),
    StmtRule(POLYGON, false, NotImplemented)
  ]

  const PIN_RULES: seq<Rule> := [GroupRule(PORT, false, false, PORT_RULES, BeginPort)]

  const OBS_RULES: seq<Rule> := []

  const MACRO_RULES: seq<Rule> := [
    StmtRule(SIZE, false, ParseSize),
    StmtRule(ORIGIN, false, ParseOrigin),
    GroupRule(PIN, true, true, PIN_RULES, BeginPin),
    GroupRule(OBS, false, false, OBS_RULES, NoAction)
  ]

  const ROOT_RULES: seq<Rule> := [GroupRule(MACRO, true, true, MACRO_RULES, BeginMacro)]

  /** What the parser is given from outside: the conversion of a spelling to a number, which
      fails out of range only, and what an uninitialised status happens to hold. */
  datatype Env = Env(number: string -> Result<real>, stale: bool)

  // --- Values ------------------------------------------------------------------

  function RealOf(e: Env, ts: seq<Token>): (r: Result<(real, seq<Token>)>)
    ensures r.Ok? ==> |r.value.1| < |ts|
  {
    if ts == [] || !IsName(ts[0]) then Err
    else if e.number(ts[0].text).Ok? then Ok((e.number(ts[0].text).value, ts[1..]))
    else Err
  }

  // A coordinate pair in optional parentheses.
  function PairOf(e: Env, ts: seq<Token>): (r: Result<(XY, seq<Token>)>)
    ensures r.Ok? ==> |r.value.1| < |ts|
  {
    var paren := Is(ts, LPAREN);
    var x := RealOf(e, if paren then ts[1..] else ts);
    if x.Err? then Err
    else
      var y := RealOf(e, x.value.1);
      if y.Err? then Err
      else if !paren then Ok((XY(x.value.0, y.value.0), y.value.1))
      else if Is(y.value.1, RPAREN) then Ok((XY(x.value.0, y.value.0), y.value.1[1..]))
      else Err
  }

  // The functions called in front of a statement's end or a group's body.
  datatype Begun = Begun(into: Node, arg: Node, rest: seq<Token>)

  function WithLast(p: Port, l: Layer): Port
    requires p.layers != []
  {
    Port(p.cls, p.layers[..|p.layers| - 1] + [l])
  }

  function Begin(e: Env, a: Action, name: string, into: Node, ts: seq<Token>): (r: Result<Begun>)
    ensures r.Ok? ==> |r.value.rest| <= |ts|
  {
    match a
    case NoAction => Ok(Begun(into, Nothing, ts))
    case BeginMacro => Ok(Begun(into, MacroNode(Macro(name, XY(0.0, 0.0), XY(0.0, 0.0), [])), ts))
    case BeginPin => Ok(Begun(into, PinNode(Pin(name, [])), ts))
    case BeginPort => Ok(Begun(into, PortNode(Port(NoClass, [])), ts))
    case ParseSize =>
      if !into.MacroNode? then Err
      else
        var x := RealOf(e, ts);
        if x.Err? || !Is(x.value.1, KW(BY)) then Err
        else
          var y := RealOf(e, x.value.1[1..]);
          if y.Err? then Err
          else Ok(Begun(MacroNode(into.macro.(size := XY(x.value.0, y.value.0))), Nothing, y.value.1))
    case ParseOrigin =>
      if !into.MacroNode? then Err
      else
        var p := PairOf(e, ts);
        if p.Err? then Err else Ok(Begun(MacroNode(into.macro.(origin := p.value.0)), Nothing, p.value.1))
    case ParseClass =>
      if !into.PortNode? || ts == [] then Err
      else if ts[0].kind == KW(NONE) then Ok(Begun(PortNode(into.port.(cls := NoneClass)), Nothing, ts[1..]))
      else if ts[0].kind == KW(CORE) then Ok(Begun(PortNode(into.port.(cls := CoreClass)), Nothing, ts[1..]))
      else if ts[0].kind == KW(BUMP) then Ok(Begun(PortNode(into.port.(cls := BumpClass)), Nothing, ts[1..]))
      else Err
    case ParseLayer =>
      if !into.PortNode? then Err
      else Ok(Begun(PortNode(into.port.(layers := into.port.layers + [Layer(name, 0.0, [])])), Nothing, ts))
    case ParseWidth =>
      if !into.PortNode? || into.port.layers == [] then Err
      else
        var x := RealOf(e, ts);
        if x.Err? then Err
        else
          var l := into.port.layers[|into.port.layers| - 1];
          Ok(Begun(PortNode(WithLast(into.port, l.(width := x.value.0))), Nothing, x.value.1))
    case ParseRect =>
      if !into.PortNode? || into.port.layers == [] then Err
      else
        var p := PairOf(e, ts);
        if p.Err? then Err
        else
          var q := PairOf(e, p.value.1);
          if q.Err? then Err
          else
            var l := into.port.layers[|into.port.layers| - 1];
            Ok(Begun(PortNode(WithLast(into.port, l.(rects := l.rects + [(p.value.0, q.value.0)]))), Nothing, q.value.1))
    case NotImplemented => Err
  }

  // The functions called after a group: the new object joins the one around it.
  function Finish(into: Node, arg: Node): Node {
    match arg
    case MacroNode(m) => if into.Library? then Library(into.macros + [m]) else into
    case PinNode(p) => if into.MacroNode? then MacroNode(into.macro.(pins := into.macro.pins + [p])) else into
    case PortNode(p) => if into.PinNode? then PinNode(into.pin.(ports := into.pin.ports + [p])) else into
    case _ => into
  }

  // --- The parser as a function of the remaining tokens --------------------------

  datatype Parsed = Parsed(node: Node, rest: seq<Token>)

  /** The first rule for the token. */
  function Match(rules: seq<Rule>, ts: seq<Token>): (n: nat)
    ensures n <= |rules|
    ensures n < |rules| ==> Is(ts, KW(rules[n].tkn))
    ensures forall i :: 0 <= i < n ==> !Is(ts, KW(rules[i].tkn))
  {
    if rules == [] || Is(ts, KW(rules[0].tkn)) then 0 else 1 + Match(rules[1..], ts)
  }

  // The name is whatever token comes next, or the text of the last one at the end of the file.
  function NameOf(kw: Token, ts: seq<Token>): string {
    if ts == [] then kw.text else ts[0].text
  }

  function Tail(ts: seq<Token>): seq<Token> {
    if ts == [] then [] else ts[1..]
  }

  function ParseStmt(e: Env, ts: seq<Token>, into: Node, rules: seq<Rule>): (r: Result<Parsed>)
    ensures r.Ok? ==> |r.value.rest| < |ts|
    decreases |ts|, 1
  {
    var n := Match(rules, ts);
    if n == |rules| then
      var s := Skip(ts);
      if s.Ok? then Ok(Parsed(into, s.value)) else Err
    else
      var rule := rules[n];
      var name := if rule.named then NameOf(ts[0], ts[1..]) else "";
      var after := if rule.named then Tail(ts[1..]) else ts[1..];
      var b := Begin(e, rule.pre, name, into, after);
      if b.Err? then Err
      else if rule.StmtRule? then
        if Is(b.value.rest, SEMICOLON) then Ok(Parsed(b.value.into, b.value.rest[1..])) else Err
      else GroupOf(e, rule, name, b.value.into, b.value.arg, b.value.rest)
  }

  // From the body of a group to its end.  A group without a function in front and without
  // statements returns a status that was never set.
  function GroupOf(e: Env, rule: Rule, name: string, into: Node, arg: Node, ts: seq<Token>): (r: Result<Parsed>)
    requires rule.GroupRule?
    ensures r.Ok? ==> |r.value.rest| < |ts|
    decreases |ts|, 3
  {
    var g := ParseBody(e, ts, arg, rule.rules);
    if g.Err? then Err
    else
      var rest := g.value.rest[1..];
      if rule.pre == NoAction && IsEnd(ts) && e.stale then Err
      else if !rule.endName then Ok(Parsed(Finish(into, g.value.node), rest))
      else if rest == [] || rest[0].text != name then Err
      else Ok(Parsed(Finish(into, g.value.node), rest[1..]))
  }

  // The statements of a group, up to END, which is left.
  function ParseBody(e: Env, ts: seq<Token>, arg: Node, rules: seq<Rule>): (r: Result<Parsed>)
    ensures r.Ok? ==> |r.value.rest| <= |ts| && IsEnd(r.value.rest)
    decreases |ts|, 2
  {
    if IsEnd(ts) then Ok(Parsed(arg, ts))
    else if ts == [] then Err
    else
      var s := ParseStmt(e, ts, arg, rules);
      if s.Err? then Err else ParseBody(e, s.value.rest, s.value.node, rules)
  }

  /** parse: macros and anything else up to END LIBRARY, which must end the file. */
  function ParseFile(e: Env, ts: seq<Token>, lib: Node): (r: Result<Node>)
    decreases |ts|
  {
    if ts == [] then Err
    else if IsEnd(ts) then
      if |ts| == 2 && ts[1].kind == KW(LIBRARY) then Ok(lib) else Err
    else
      var s := ParseStmt(e, ts, lib, ROOT_RULES);
      if s.Err? then Err else ParseFile(e, s.value.rest, s.value.node)
  }

  // --- Unknown statements are ignored ----------------------------------------------

  /** No rule is for the statement's first token. */
  ghost predicate Unknown(s: Stmt, rules: seq<Rule>) {
    Wf(s) && forall i :: 0 <= i < |rules| ==> !Is(Render(s), KW(rules[i].tkn))
  }

  lemma {:induction false} UnknownIsSkipped(e: Env, s: Stmt, ts: seq<Token>, into: Node, rules: seq<Rule>)
    requires Unknown(s, rules)
    ensures ParseStmt(e, Render(s) + ts, into, rules) == Ok(Parsed(into, ts))
  {
    NotEnd(s, ts);
    var all := Render(s) + ts;
    assert all[0] == Render(s)[0];
    var n := Match(rules, all);
    assert n == |rules|;
    SkipRendered(s, ts);
  }

  /** In front of any statement of a body, or of its END, an unknown statement changes
      nothing, whatever follows. */
  lemma {:induction false} UnknownInBody(e: Env, s: Stmt, ts: seq<Token>, arg: Node, rules: seq<Rule>)
    requires Unknown(s, rules)
    ensures ParseBody(e, Render(s) + ts, arg, rules) == ParseBody(e, ts, arg, rules)
  {
    NotEnd(s, ts);
    UnknownIsSkipped(e, s, ts, arg, rules);
  }
}
