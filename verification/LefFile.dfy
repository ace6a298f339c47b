/** LEF files as trees: the parser computes the meaning of the tree, in which statements
    unknown at their place do not count. */
module LefFile {
  import opened LefSkip
  import opened LefParse

  datatype Pair = Bare(x: Token, y: Token) | Parenthesized(open: Token, x: Token, y: Token, close: Token)

  datatype Item =
    | Ignored(stmt: Stmt)
    | Size(kw: Token, x: Token, mid: Token, y: Token, semi: Token)
    | Origin(kw: Token, at: Pair, semi: Token)
    | Class(kw: Token, cls: Token, semi: Token)
    | OnLayer(kw: Token, name: Token, semi: Token)
    | Width(kw: Token, x: Token, semi: Token)
    | Rect(kw: Token, a: Pair, b: Pair, semi: Token)
    | Group(kw: Token, body: seq<Item>, end: Token)
    | NamedGroup(kw: Token, name: Token, body: seq<Item>, end: Token, again: Token)

  // Where an item stands.
  datatype Level = Root | InMacro | InPin | InPort | InObs

  function RulesAt(l: Level): seq<Rule> {
    match l
    case Root => ROOT_RULES
    case InMacro => MACRO_RULES
    case InPin => PIN_RULES
    case InPort => PORT_RULES
    case InObs => OBS_RULES
  }

  predicate WfPair(p: Pair) {
    && Nameable(p.x.kind) && Nameable(p.y.kind)
    && (p.Parenthesized? ==> p.open.kind == LPAREN && p.close.kind == RPAREN)
  }

  // The level of the items inside a group.
  function Inside(l: Level, item: Item): Level
    requires item.Group? || item.NamedGroup?
  {
    if item.NamedGroup? then if l == Root then InMacro else InPin
    else if l == InMacro then InObs
    else InPort
  }

  // The keywords that mean something at each level, or are refused there.
  predicate Known(l: Level, k: Kind) {
    match l
    case Root => k == KW(MACRO)
    case InMacro => k == KW(SIZE) || k == KW(ORIGIN) || k == KW(PIN) || k == KW(OBS)
    case InPin => k == KW(PORT)
    case InPort =>
      k == KW(CLASS) || k == KW(LAYER) || k == KW(VIA) || k == KW(WIDTH) || k == KW(PATH) || k == KW(RECT) || k == KW(POLYGON)
    case InObs => false
  }

  predicate WfItem(l: Level, item: Item)
    decreases item, 0
  {
    match item
    case Ignored(s) => Wf(s) && Render(s) != [] && !Known(l, Render(s)[0].kind)
    case Size(kw, x, mid, y, semi) =>
      l == InMacro && kw.kind == KW(SIZE) && Nameable(x.kind) && mid.kind == KW(BY) && Nameable(y.kind) && semi.kind == SEMICOLON
    case Origin(kw, at, semi) => l == InMacro && kw.kind == KW(ORIGIN) && WfPair(at) && semi.kind == SEMICOLON
    case Class(kw, cls, semi) => l == InPort && kw.kind == KW(CLASS) && semi.kind == SEMICOLON
    case OnLayer(kw, name, semi) => l == InPort && kw.kind == KW(LAYER) && semi.kind == SEMICOLON
    case Width(kw, x, semi) => l == InPort && kw.kind == KW(WIDTH) && Nameable(x.kind) && semi.kind == SEMICOLON
    case Rect(kw, a, b, semi) => l == InPort && kw.kind == KW(RECT) && WfPair(a) && WfPair(b) && semi.kind == SEMICOLON
    case Group(kw, body, end) =>
      && ((l == InMacro && kw.kind == KW(OBS)) || (l == InPin && kw.kind == KW(PORT)))
      && WfItems(Inside(l, item), body) && end.kind == KW(END)
    case NamedGroup(kw, name, body, end, again) =>
      && ((l == Root && kw.kind == KW(MACRO)) || (l == InMacro && kw.kind == KW(PIN)))
      && WfItems(Inside(l, item), body) && end.kind == KW(END) && again.text == name.text
  }

  predicate WfItems(l: Level, items: seq<Item>)
    decreases items
  {
    items == [] || (WfItem(l, items[0]) && WfItems(l, items[1..]))
  }

  function RenderPair(p: Pair): seq<Token> {
    match p
    case Bare(x, y) => [x, y]
    case Parenthesized(open, x, y, close) => [open, x, y, close]
  }

  function RenderItem(item: Item): (ts: seq<Token>)
    decreases item, 0
  {
    match item
    case Ignored(s) => Render(s)
    case Size(kw, x, mid, y, semi) => [kw, x, mid, y, semi]
    case Origin(kw, at, semi) => [kw] + RenderPair(at) + [semi]
    case Class(kw, cls, semi) => [kw, cls, semi]
    case OnLayer(kw, name, semi) => [kw, name, semi]
    case Width(kw, x, semi) => [kw, x, semi]
    case Rect(kw, a, b, semi) => [kw] + RenderPair(a) + RenderPair(b) + [semi]
    case Group(kw, body, end) => [kw] + RenderItems(body) + [end]
    case NamedGroup(kw, name, body, end, again) => [kw, name] + RenderItems(body) + [end, again]
  }

  function RenderItems(items: seq<Item>): (ts: seq<Token>)
    decreases items
  {
    if items == [] then [] else RenderItem(items[0]) + RenderItems(items[1..])
  }

  // --- What a file means -----------------------------------------------------------

  function PairValue(e: Env, p: Pair): Result<XY> {
    if e.number(p.x.text).Ok? && e.number(p.y.text).Ok? then Ok(XY(e.number(p.x.text).value, e.number(p.y.text).value)) else Err
  }

  function ClassValue(k: Kind): Result<PortClass> {
    if k == KW(NONE) then Ok(NoneClass)
    else if k == KW(CORE) then Ok(CoreClass)
    else if k == KW(BUMP) then Ok(BumpClass)
    else Err
  }

  function NewNode(l: Level, item: Item): Node
    requires item.Group? || item.NamedGroup?
  {
    if item.NamedGroup? then
      if l == Root then MacroNode(Macro(item.name.text, XY(0.0, 0.0), XY(0.0, 0.0), [])) else PinNode(Pin(item.name.text, []))
    else if l == InMacro then Nothing
    else PortNode(Port(NoClass, []))
  }

  predicate Fits(l: Level, n: Node) {
    match l
    case Root => n.Library?
    case InMacro => n.MacroNode?
    case InPin => n.PinNode?
    case InPort => n.PortNode?
    case InObs => n.Nothing?
  }

  function Meaning(e: Env, l: Level, item: Item, n: Node): (r: Result<Node>)
    requires Fits(l, n)
    ensures r.Ok? ==> Fits(l, r.value)
    decreases item, 0
  {
    match item
    case Ignored(_) => Ok(n)
    case Size(_, x, _, y, _) =>
      var p := PairValue(e, Bare(x, y));
      if l == InMacro && p.Ok? then Ok(MacroNode(n.macro.(size := p.value))) else Err
    case Origin(_, at, _) =>
      var p := PairValue(e, at);
      if l == InMacro && p.Ok? then Ok(MacroNode(n.macro.(origin := p.value))) else Err
    case Class(_, cls, _) =>
      if l == InPort && ClassValue(cls.kind).Ok? then Ok(PortNode(n.port.(cls := ClassValue(cls.kind).value))) else Err
    case OnLayer(_, name, _) =>
      if l == InPort then Ok(PortNode(n.port.(layers := n.port.layers + [Layer(name.text, 0.0, [])]))) else Err
    case Width(_, x, _) =>
      if l == InPort && n.port.layers != [] && e.number(x.text).Ok? then
        var k := |n.port.layers| - 1;
        Ok(PortNode(n.port.(layers := n.port.layers[k := n.port.layers[k].(width := e.number(x.text).value)])))
      else Err
    case Rect(_, a, b, _) =>
      var p, q := PairValue(e, a), PairValue(e, b);
      if l == InPort && n.port.layers != [] && p.Ok? && q.Ok? then
        var k := |n.port.layers| - 1;
        Ok(PortNode(n.port.(layers := n.port.layers[k := n.port.layers[k].(rects := n.port.layers[k].rects + [(p.value, q.value)])])))
      else Err
    case Group(_, body, _) =>
      if l == InMacro then
        if body == [] && e.stale then Err
        else if MeaningAll(e, InObs, body, Nothing).Ok? then Ok(n) else Err
      else if l == InPin then
        var g := MeaningAll(e, InPort, body, PortNode(Port(NoClass, [])));
        if g.Ok? then Ok(PinNode(n.pin.(ports := n.pin.ports + [g.value.port]))) else Err
      else Err
    case NamedGroup(_, name, body, _, _) =>
      if l == Root then
        var g := MeaningAll(e, InMacro, body, MacroNode(Macro(name.text, XY(0.0, 0.0), XY(0.0, 0.0), [])));
        if g.Ok? then Ok(Library(n.macros + [g.value.macro])) else Err
      else if l == InMacro then
        var g := MeaningAll(e, InPin, body, PinNode(Pin(name.text, [])));
        if g.Ok? then Ok(MacroNode(n.macro.(pins := n.macro.pins + [g.value.pin]))) else Err
      else Err
  }

  function MeaningAll(e: Env, l: Level, items: seq<Item>, n: Node): (r: Result<Node>)
    requires Fits(l, n)
    ensures r.Ok? ==> Fits(l, r.value)
    decreases items
  {
    if items == [] then Ok(n)
    else
      var r := Meaning(e, l, items[0], n);
      if r.Ok? then MeaningAll(e, l, items[1..], r.value) else Err
  }

  // --- Without the unknown statements ------------------------------------------------

  /** The same items without the unknown ones, outside obstructions, which are nothing but. */
  function Strip(l: Level, item: Item): Item
    decreases item, 0
  {
    match item
    case Group(kw, body, end) => if l == InMacro then item else Group(kw, StripAll(Inside(l, item), body), end)
    case NamedGroup(kw, name, body, end, again) => NamedGroup(kw, name, StripAll(Inside(l, item), body), end, again)
    case _ => item
  }

  function StripAll(l: Level, items: seq<Item>): seq<Item>
    decreases items
  {
    if items == [] then []
    else if items[0].Ignored? then StripAll(l, items[1..])
    else [Strip(l, items[0])] + StripAll(l, items[1..])
  }

  lemma {:induction false} StripKeepsMeaning(e: Env, l: Level, item: Item, n: Node)
    requires Fits(l, n)
    ensures Meaning(e, l, Strip(l, item), n) == Meaning(e, l, item, n)
    decreases item, 0
  {
    if item.NamedGroup? || (item.Group? && l != InMacro) {
      var arg := NewNode(l, item);
      if Fits(Inside(l, item), arg) {
        StripAllKeepsMeaning(e, Inside(l, item), item.body, arg);
      }
    }
  }

  lemma {:induction false} StripAllKeepsMeaning(e: Env, l: Level, items: seq<Item>, n: Node)
    requires Fits(l, n)
    ensures MeaningAll(e, l, StripAll(l, items), n) == MeaningAll(e, l, items, n)
    decreases items
  {
    if items != [] {
      if items[0].Ignored? {
        StripAllKeepsMeaning(e, l, items[1..], n);
      } else {
        StripKeepsMeaning(e, l, items[0], n);
        var r := Meaning(e, l, items[0], n);
        if r.Ok? {
          StripAllKeepsMeaning(e, l, items[1..], r.value);
        }
        assert StripAll(l, items)[1..] == StripAll(l, items[1..]);
      }
    }
  }

  lemma {:induction false} StripIsWf(l: Level, items: seq<Item>)
    requires WfItems(l, items)
    ensures WfItems(l, StripAll(l, items))
    decreases items
  {
    if items != [] {
      StripIsWf(l, items[1..]);
      if !items[0].Ignored? {
        StripItemIsWf(l, items[0]);
        assert StripAll(l, items)[1..] == StripAll(l, items[1..]);
      }
    }
  }

  lemma {:induction false} StripItemIsWf(l: Level, item: Item)
    requires WfItem(l, item)
    ensures WfItem(l, Strip(l, item))
    decreases item, 0
  {
    if item.NamedGroup? || (item.Group? && l != InMacro) {
      StripIsWf(Inside(l, item), item.body);
    }
  }

  // --- The parser computes the meaning ---------------------------------------------------

  lemma {:induction false} PairParsed(e: Env, p: Pair, ts: seq<Token>)
    requires WfPair(p)
    ensures PairOf(e, RenderPair(p) + ts) == if PairValue(e, p).Ok? then Ok((PairValue(e, p).value, ts)) else Err
  {
    var all := RenderPair(p) + ts;
    if p.Bare? {
      assert all[0] == p.x && all[1..][0] == p.y && all[1..][1..] == ts;
    } else {
      assert all[1..][0] == p.x && all[2..][0] == p.y && all[3..][0] == p.close && all[4..] == ts;
      assert all[1..][1..] == all[2..] && all[2..][1..] == all[3..] && all[3..][1..] == all[4..];
    }
  }

  function Outcome(r: Result<Node>, ts: seq<Token>): Result<Parsed> {
    if r.Ok? then Ok(Parsed(r.value, ts)) else Err
  }

  lemma {:induction false} MatchIs(rules: seq<Rule>, ts: seq<Token>, n: nat)
    requires n < |rules| && Is(ts, KW(rules[n].tkn)) && forall i :: 0 <= i < n ==> rules[i].tkn != rules[n].tkn
    ensures Match(rules, ts) == n
  {
  }

  // The tables have rules for the known keywords and no others.
  lemma {:induction false} RulesAreKnown(l: Level, k: Kind)
    ensures Known(l, k) <==> exists i :: 0 <= i < |RulesAt(l)| && k == KW(RulesAt(l)[i].tkn)
  {
    match l
    case Root => assert RulesAt(l)[0].tkn == MACRO;
    case InMacro => MacroRulesAreKnown(k);
    case InPin => assert RulesAt(l)[0].tkn == PORT;
    case InPort => PortRulesAreKnown(k);
    case InObs =>
  }

  lemma {:induction false} MacroRulesAreKnown(k: Kind)
    ensures Known(InMacro, k) <==> exists i :: 0 <= i < |RulesAt(InMacro)| && k == KW(RulesAt(InMacro)[i].tkn)
  {
    assert RulesAt(InMacro)[0].tkn == SIZE && RulesAt(InMacro)[1].tkn == ORIGIN && RulesAt(InMacro)[2].tkn == PIN && RulesAt(InMacro)[3].tkn == OBS;
  }

  lemma {:induction false} PortRulesAreKnown(k: Kind)
    ensures Known(InPort, k) <==> exists i :: 0 <= i < |RulesAt(InPort)| && k == KW(RulesAt(InPort)[i].tkn)
  {
    hide RulesAt;
    PortTable();
  }

  lemma {:induction false} PortTable()
    ensures var rs := RulesAt(InPort);
            && |rs| == 7 && rs[0].tkn == CLASS && rs[1].tkn == LAYER && rs[2].tkn == VIA && rs[3].tkn == WIDTH
            && rs[4].tkn == PATH && rs[5].tkn == RECT && rs[6].tkn == POLYGON
  {
  }

  // Replacing the last layer.
  lemma {:induction false} LastReplaced(p: Port, l: Layer)
    requires p.layers != []
    ensures PortNode(WithLast(p, l)) == PortNode(p.(layers := p.layers[|p.layers| - 1 := l]))
  {
    assert p.layers[..|p.layers| - 1] + [l] == p.layers[|p.layers| - 1 := l];
  }

  /** One item: the parser takes exactly its tokens and does what the item means. */
  lemma {:induction false} ItemParsed(e: Env, l: Level, item: Item, ts: seq<Token>, n: Node)
    requires WfItem(l, item) && Fits(l, n)
    ensures ParseStmt(e, RenderItem(item) + ts, n, RulesAt(l)) == Outcome(Meaning(e, l, item, n), ts)
    decreases item, 1
  {
    match item
    case Ignored(s) =>
      RulesAreKnown(l, Render(s)[0].kind);
      UnknownIsSkipped(e, s, ts, n, RulesAt(l));
    case Size(_, _, _, _, _) => SizeParsed(e, item, ts, n);
    case Origin(_, _, _) => OriginParsed(e, item, ts, n);
    case Class(_, _, _) => ClassParsed(e, item, ts, n);
    case OnLayer(_, _, _) => LayerParsed(e, item, ts, n);
    case Width(_, _, _) => WidthParsed(e, item, ts, n);
    case Rect(_, _, _, _) => RectParsed(e, item, ts, n);
    case Group(_, _, _) => GroupParsed(e, l, item, ts, n);
    case NamedGroup(_, _, _, _, _) => NamedGroupParsed(e, l, item, ts, n);
  }

  lemma {:induction false} SizeParsed(e: Env, item: Item, ts: seq<Token>, n: Node)
    requires item.Size? && WfItem(InMacro, item) && Fits(InMacro, n)
    ensures ParseStmt(e, RenderItem(item) + ts, n, MACRO_RULES) == Outcome(Meaning(e, InMacro, item, n), ts)
  {
    var all := RenderItem(item) + ts;
    MatchIs(MACRO_RULES, all, 0);
    assert all[1..][0] == item.x && all[2..][0] == item.mid && all[3..][0] == item.y && all[4..][0] == item.semi && all[5..] == ts;
    assert all[1..][1..] == all[2..] && all[2..][1..] == all[3..] && all[3..][1..] == all[4..] && all[4..][1..] == all[5..];
  }

  lemma {:induction false} OriginParsed(e: Env, item: Item, ts: seq<Token>, n: Node)
    requires item.Origin? && WfItem(InMacro, item) && Fits(InMacro, n)
    ensures ParseStmt(e, RenderItem(item) + ts, n, MACRO_RULES) == Outcome(Meaning(e, InMacro, item, n), ts)
  {
    var all := RenderItem(item) + ts;
    MatchIs(MACRO_RULES, all, 1);
    assert all[1..] == RenderPair(item.at) + ([item.semi] + ts);
    PairParsed(e, item.at, [item.semi] + ts);
    assert ([item.semi] + ts)[1..] == ts;
  }

  lemma {:induction false} ClassParsed(e: Env, item: Item, ts: seq<Token>, n: Node)
    requires item.Class? && WfItem(InPort, item) && Fits(InPort, n)
    ensures ParseStmt(e, RenderItem(item) + ts, n, PORT_RULES) == Outcome(Meaning(e, InPort, item, n), ts)
  {
    var all := RenderItem(item) + ts;
    MatchIs(PORT_RULES, all, 0);
    assert all[1..][0] == item.cls && all[2..][0] == item.semi && all[3..] == ts;
    assert all[1..][1..] == all[2..] && all[2..][1..] == all[3..];
  }

  lemma {:induction false} LayerParsed(e: Env, item: Item, ts: seq<Token>, n: Node)
    requires item.OnLayer? && WfItem(InPort, item) && Fits(InPort, n)
    ensures ParseStmt(e, RenderItem(item) + ts, n, PORT_RULES) == Outcome(Meaning(e, InPort, item, n), ts)
  {
    var all := RenderItem(item) + ts;
    MatchIs(PORT_RULES, all, 1);
    assert all[1..][0] == item.name && all[2..][0] == item.semi && all[3..] == ts;
    assert all[1..][1..] == all[2..] && all[2..][1..] == all[3..];
  }

  lemma {:induction false} WidthParsed(e: Env, item: Item, ts: seq<Token>, n: Node)
    requires item.Width? && WfItem(InPort, item) && Fits(InPort, n)
    ensures ParseStmt(e, RenderItem(item) + ts, n, PORT_RULES) == Outcome(Meaning(e, InPort, item, n), ts)
  {
    hide Skip, Match;
    var all := RenderItem(item) + ts;
    MatchIs(PORT_RULES, all, 3);
    assert all[1..][0] == item.x && all[2..][0] == item.semi && all[3..] == ts;
    assert all[1..][1..] == all[2..] && all[2..][1..] == all[3..];
    if n.port.layers != [] && e.number(item.x.text).Ok? {
      LastReplaced(n.port, n.port.layers[|n.port.layers| - 1].(width := e.number(item.x.text).value));
    }
  }

  lemma {:induction false} RectParsed(e: Env, item: Item, ts: seq<Token>, n: Node)
    requires item.Rect? && WfItem(InPort, item) && Fits(InPort, n)
    ensures ParseStmt(e, RenderItem(item) + ts, n, PORT_RULES) == Outcome(Meaning(e, InPort, item, n), ts)
  {
    hide PairOf, Match;
    var all := RenderItem(item) + ts;
    MatchIs(PORT_RULES, all, 5);
    var rest := [item.semi] + ts;
    assert all[1..] == RenderPair(item.a) + (RenderPair(item.b) + rest);
    PairParsed(e, item.a, RenderPair(item.b) + rest);
    PairParsed(e, item.b, rest);
    assert rest[1..] == ts;
    var p, q := PairValue(e, item.a), PairValue(e, item.b);
    if n.port.layers != [] && p.Ok? && q.Ok? {
      var last := n.port.layers[|n.port.layers| - 1];
      LastReplaced(n.port, last.(rects := last.rects + [(p.value, q.value)]));
    }
  }

  lemma {:induction false} GroupParsed(e: Env, l: Level, item: Item, ts: seq<Token>, n: Node)
    requires item.Group? && WfItem(l, item) && Fits(l, n)
    ensures ParseStmt(e, RenderItem(item) + ts, n, RulesAt(l)) == Outcome(Meaning(e, l, item, n), ts)
    decreases item, 0
  {
    hide ParseBody, Match;
    var all, rest := RenderItem(item) + ts, [item.end] + ts;
    var arg := NewNode(l, item);
    MatchIs(RulesAt(l), all, if l == InMacro then 3 else 0);
    assert all[1..] == RenderItems(item.body) + rest && rest[1..] == ts;
    ItemsParsed(e, Inside(l, item), item.body, rest, arg);
    BodyIsEnd(Inside(l, item), item.body, rest);
  }

  lemma {:induction false} NamedTokens(item: Item, ts: seq<Token>)
    requires item.NamedGroup?
    ensures var all, rest := RenderItem(item) + ts, [item.end, item.again] + ts;
            && |all| >= 2 && all[0] == item.kw && all[1..] != [] && all[1..][0] == item.name
            && all[1..][1..] == RenderItems(item.body) + rest
            && |rest| >= 2 && rest[0] == item.end && rest[1..] != [] && rest[1..][0] == item.again && rest[1..][1..] == ts
  {
    var all, rest := RenderItem(item) + ts, [item.end, item.again] + ts;
    assert all == [item.kw, item.name] + (RenderItems(item.body) + rest);
  }

  lemma {:induction false} NamedGroupParsed(e: Env, l: Level, item: Item, ts: seq<Token>, n: Node)
    requires item.NamedGroup? && WfItem(l, item) && Fits(l, n)
    ensures ParseStmt(e, RenderItem(item) + ts, n, RulesAt(l)) == Outcome(Meaning(e, l, item, n), ts)
    decreases item, 0
  {
    var all, rest := RenderItem(item) + ts, [item.end, item.again] + ts;
    NamedTokens(item, ts);
    ItemsParsed(e, Inside(l, item), item.body, rest, NewNode(l, item));
    NamedGroupStep(e, l, item, all, rest, ts, n);
  }

  // The rule that a named group is parsed with.
  lemma {:induction false} NamedRule(l: Level, item: Item, all: seq<Token>)
    requires item.NamedGroup? && WfItem(l, item) && all != [] && all[0] == item.kw
    ensures var n := Match(RulesAt(l), all);
            && n < |RulesAt(l)| && RulesAt(l)[n].GroupRule? && RulesAt(l)[n].named && RulesAt(l)[n].endName
            && RulesAt(l)[n].rules == RulesAt(Inside(l, item))
            && RulesAt(l)[n].pre == if l == Root then BeginMacro else BeginPin
  {
    MatchIs(RulesAt(l), all, if l == InMacro then 2 else 0);
  }

  lemma {:induction false} NamedGroupStep(e: Env, l: Level, item: Item, all: seq<Token>, rest: seq<Token>, ts: seq<Token>, n: Node)
    requires item.NamedGroup? && WfItem(l, item) && Fits(l, n)
    requires |all| >= 2 && all[0] == item.kw && all[1..][0] == item.name && all[1..][1..] == RenderItems(item.body) + rest
    requires |rest| >= 2 && rest[0] == item.end && rest[1..][0] == item.again && rest[1..][1..] == ts
    requires ParseBody(e, RenderItems(item.body) + rest, NewNode(l, item), RulesAt(Inside(l, item)))
             == Outcome(MeaningAll(e, Inside(l, item), item.body, NewNode(l, item)), rest)
    ensures ParseStmt(e, all, n, RulesAt(l)) == Outcome(Meaning(e, l, item, n), ts)
  {
    hide ParseBody, MeaningAll, WfItems, RenderItems, Skip, Match, RulesAt;
    NamedRule(l, item, all);
  }

  // Only an empty body starts with END.
  lemma {:induction false} BodyIsEnd(l: Level, items: seq<Item>, ts: seq<Token>)
    requires WfItems(l, items) && IsEnd(ts)
    ensures IsEnd(RenderItems(items) + ts) <==> items == []
  {
    if items == [] {
      assert RenderItems(items) + ts == ts;
    } else {
      ItemNotEnd(l, items[0]);
      assert (RenderItems(items) + ts)[0] == RenderItem(items[0])[0];
    }
  }

  lemma {:induction false} ItemNotEnd(l: Level, item: Item)
    requires WfItem(l, item)
    ensures RenderItem(item) != [] && RenderItem(item)[0].kind != KW(END)
  {
    if item.Ignored? {
      NotEnd(item.stmt, []);
    }
  }

  /** The items of a body, up to its END. */
  lemma {:induction false} ItemsParsed(e: Env, l: Level, items: seq<Item>, ts: seq<Token>, n: Node)
    requires WfItems(l, items) && Fits(l, n) && IsEnd(ts)
    ensures ParseBody(e, RenderItems(items) + ts, n, RulesAt(l)) == Outcome(MeaningAll(e, l, items, n), ts)
    decreases items
  {
    BodyIsEnd(l, items, ts);
    if items == [] {
      assert RenderItems(items) + ts == ts;
    } else {
      var rest := RenderItems(items[1..]) + ts;
      assert RenderItems(items) + ts == RenderItem(items[0]) + rest;
      ItemParsed(e, l, items[0], rest, n);
      var r := Meaning(e, l, items[0], n);
      if r.Ok? {
        ItemsParsed(e, l, items[1..], ts, r.value);
      }
    }
  }

  function Trailer(end: Token, library: Token): seq<Token> {
    [end, library]
  }

  /** A whole file means what its items mean. */
  lemma {:induction false} FileParsed(e: Env, items: seq<Item>, end: Token, library: Token, n: Node)
    requires WfItems(Root, items) && n.Library? && end.kind == KW(END) && library.kind == KW(LIBRARY)
    ensures ParseFile(e, RenderItems(items) + Trailer(end, library), n) == MeaningAll(e, Root, items, n)
    decreases items
  {
    var ts := Trailer(end, library);
    BodyIsEnd(Root, items, ts);
    if items == [] {
      assert RenderItems(items) + ts == ts;
    } else {
      var rest := RenderItems(items[1..]) + ts;
      assert RenderItems(items) + ts == RenderItem(items[0]) + rest;
      ItemParsed(e, Root, items[0], rest, n);
      var r := Meaning(e, Root, items[0], n);
      if r.Ok? {
        FileParsed(e, items[1..], end, library, r.value);
      }
    }
  }

  /** Unknown statements anywhere in the file, or in the body of a macro, a pin or a port,
      leave the parsed result as it is. */
  lemma {:induction false} UnknownIsIgnorable(e: Env, items: seq<Item>, end: Token, library: Token, n: Node)
    requires WfItems(Root, items) && n.Library? && end.kind == KW(END) && library.kind == KW(LIBRARY)
    ensures ParseFile(e, RenderItems(items) + Trailer(end, library), n) ==
            ParseFile(e, RenderItems(StripAll(Root, items)) + Trailer(end, library), n)
  {
    FileParsed(e, items, end, library, n);
    StripIsWf(Root, items);
    FileParsed(e, StripAll(Root, items), end, library, n);
    StripAllKeepsMeaning(e, Root, items, n);
  }
}
