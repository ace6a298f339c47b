/** LEF files as a whole: which token sequences are accepted, and what the groups of a file,
    a macro and a pin amount to. */
module LefLaws {
  import opened LefSkip
  import opened LefParse
  import opened LefFile

  // --- Only trees are accepted ---------------------------------------------------

  lemma {:induction false} PairTaken(e: Env, ts: seq<Token>) returns (p: Pair)
    requires PairOf(e, ts).Ok?
    ensures WfPair(p) && ts == RenderPair(p) + PairOf(e, ts).value.1
  {
    if ts[0].kind == LPAREN {
      p := Parenthesized(ts[0], ts[1], ts[2], ts[3]);
    } else {
      p := Bare(ts[0], ts[1]);
    }
  }

  lemma {:induction false} MacroStatementTaken(e: Env, ts: seq<Token>, n: Node) returns (item: Item)
    requires n.MacroNode? && Match(MACRO_RULES, ts) < 2 && ParseStmt(e, ts, n, MACRO_RULES).Ok?
    ensures WfItem(InMacro, item) && ts == RenderItem(item) + ParseStmt(e, ts, n, MACRO_RULES).value.rest
  {
    hide Match, RenderItem, WfItem;
    if Match(MACRO_RULES, ts) == 0 {
      item := SizeTaken(e, ts, n);
    } else {
      item := OriginTaken(e, ts, n);
    }
  }

  lemma {:induction false} SizeTaken(e: Env, ts: seq<Token>, n: Node) returns (item: Item)
    requires n.MacroNode? && Match(MACRO_RULES, ts) == 0 && ParseStmt(e, ts, n, MACRO_RULES).Ok?
    ensures WfItem(InMacro, item) && ts == RenderItem(item) + ParseStmt(e, ts, n, MACRO_RULES).value.rest
  {
    hide Match;
    item := Size(ts[0], ts[1], ts[2], ts[3], ts[4]);
  }

  lemma {:induction false} OriginTaken(e: Env, ts: seq<Token>, n: Node) returns (item: Item)
    requires n.MacroNode? && Match(MACRO_RULES, ts) == 1 && ParseStmt(e, ts, n, MACRO_RULES).Ok?
    ensures WfItem(InMacro, item) && ts == RenderItem(item) + ParseStmt(e, ts, n, MACRO_RULES).value.rest
  {
    hide Match, PairOf;
    var p := PairTaken(e, ts[1..]);
    var rest := PairOf(e, ts[1..]).value.1;
    item := Origin(ts[0], p, rest[0]);
    assert ts == [ts[0]] + RenderPair(p) + [rest[0]] + rest[1..];
  }

  lemma {:induction false} PortStatementTaken(e: Env, ts: seq<Token>, n: Node) returns (item: Item)
    requires n.PortNode? && Match(PORT_RULES, ts) < |PORT_RULES| && ParseStmt(e, ts, n, PORT_RULES).Ok?
    ensures WfItem(InPort, item) && ts == RenderItem(item) + ParseStmt(e, ts, n, PORT_RULES).value.rest
  {
    hide Match, RenderItem, WfItem, PairOf, RealOf;
    var i := Match(PORT_RULES, ts);
    if i == 0 {
      item := ClassTaken(e, ts, n);
    } else if i == 1 {
      item := LayerTaken(e, ts, n);
    } else if i == 3 {
      item := WidthTaken(e, ts, n);
    } else if i == 5 {
      item := RectTaken(e, ts, n);
    } else {
      assert false;
    }
  }

  lemma {:induction false} ClassTaken(e: Env, ts: seq<Token>, n: Node) returns (item: Item)
    requires n.PortNode? && Match(PORT_RULES, ts) == 0 && ParseStmt(e, ts, n, PORT_RULES).Ok?
    ensures WfItem(InPort, item) && ts == RenderItem(item) + ParseStmt(e, ts, n, PORT_RULES).value.rest
  {
    hide Match;
    item := Class(ts[0], ts[1], ts[2]);
  }

  lemma {:induction false} LayerTaken(e: Env, ts: seq<Token>, n: Node) returns (item: Item)
    requires n.PortNode? && Match(PORT_RULES, ts) == 1 && ParseStmt(e, ts, n, PORT_RULES).Ok?
    ensures WfItem(InPort, item) && ts == RenderItem(item) + ParseStmt(e, ts, n, PORT_RULES).value.rest
  {
    hide Match;
    item := OnLayer(ts[0], ts[1], ts[2]);
  }

  lemma {:induction false} WidthTaken(e: Env, ts: seq<Token>, n: Node) returns (item: Item)
    requires n.PortNode? && Match(PORT_RULES, ts) == 3 && ParseStmt(e, ts, n, PORT_RULES).Ok?
    ensures WfItem(InPort, item) && ts == RenderItem(item) + ParseStmt(e, ts, n, PORT_RULES).value.rest
  {
    hide Match;
    item := Width(ts[0], ts[1], ts[2]);
  }

  lemma {:induction false} RectTaken(e: Env, ts: seq<Token>, n: Node) returns (item: Item)
    requires n.PortNode? && Match(PORT_RULES, ts) == 5 && ParseStmt(e, ts, n, PORT_RULES).Ok?
    ensures WfItem(InPort, item) && ts == RenderItem(item) + ParseStmt(e, ts, n, PORT_RULES).value.rest
  {
    hide Match, PairOf;
    var p := PairTaken(e, ts[1..]);
    var rest := PairOf(e, ts[1..]).value.1;
    var q := PairTaken(e, rest);
    var end := PairOf(e, rest).value.1;
    item := Rect(ts[0], p, q, end[0]);
    assert ts == [ts[0]] + RenderPair(p) + RenderPair(q) + [end[0]] + end[1..];
  }

  // The level and the new object inside a group without a name.
  function BlockLevel(l: Level): Level {
    if l == InMacro then InObs else InPort
  }

  function BlockNode(l: Level): Node {
    if l == InMacro then Nothing else PortNode(Port(NoClass, []))
  }

  ghost predicate AtGroup(e: Env, l: Level, ts: seq<Token>, n: Node) {
    && Fits(l, n) && ParseStmt(e, ts, n, RulesAt(l)).Ok?
    && Match(RulesAt(l), ts) < |RulesAt(l)| && RulesAt(l)[Match(RulesAt(l), ts)].GroupRule?
  }

  // The rules for groups.
  lemma {:induction false} GroupRules(l: Level, i: nat)
    requires i < |RulesAt(l)| && RulesAt(l)[i].GroupRule?
    ensures l == Root ==> RulesAt(l)[i] == GroupRule(MACRO, true, true, RulesAt(InMacro), BeginMacro)
    ensures l == InMacro ==> RulesAt(l)[i] == GroupRule(PIN, true, true, RulesAt(InPin), BeginPin)
                             || RulesAt(l)[i] == GroupRule(OBS, false, false, RulesAt(InObs), NoAction)
    ensures l == InPin ==> RulesAt(l)[i] == GroupRule(PORT, false, false, RulesAt(InPort), BeginPort)
    ensures l == Root || l == InMacro || l == InPin
  {
  }

  lemma {:induction false} BlockOpened(e: Env, l: Level, ts: seq<Token>, n: Node)
    requires AtGroup(e, l, ts, n) && (l == InPin || (l == InMacro && Is(ts, KW(OBS))))
    ensures Fits(BlockLevel(l), BlockNode(l)) && ts != [] && (l == InPin ==> ts[0].kind == KW(PORT))
    ensures var b := ParseBody(e, ts[1..], BlockNode(l), RulesAt(BlockLevel(l)));
            b.Ok? && ParseStmt(e, ts, n, RulesAt(l)).value.rest == b.value.rest[1..]
  {
    hide Match, ParseBody, RulesAt, Finish;
    var rule := RulesAt(l)[Match(RulesAt(l), ts)];
    GroupRules(l, Match(RulesAt(l), ts));
    assert ParseStmt(e, ts, n, RulesAt(l)) == GroupOf(e, rule, "", n, BlockNode(l), ts[1..]);
  }

  // Likewise for a group with a name.
  function NamedLevel(l: Level): Level {
    if l == Root then InMacro else InPin
  }

  function NamedNode(l: Level, name: string): Node {
    if l == Root then MacroNode(Macro(name, XY(0.0, 0.0), XY(0.0, 0.0), [])) else PinNode(Pin(name, []))
  }

  lemma {:induction false} NamedOpened(e: Env, l: Level, ts: seq<Token>, n: Node)
    requires AtGroup(e, l, ts, n) && (l == Root || (l == InMacro && !Is(ts, KW(OBS))))
    ensures |ts| >= 2 && ts[0].kind == KW(if l == Root then MACRO else PIN) && Fits(NamedLevel(l), NamedNode(l, ts[1].text))
    ensures var b := ParseBody(e, ts[2..], NamedNode(l, ts[1].text), RulesAt(NamedLevel(l)));
            && b.Ok? && |b.value.rest| >= 2 && b.value.rest[1].text == ts[1].text
            && ParseStmt(e, ts, n, RulesAt(l)).value.rest == b.value.rest[2..]
  {
    hide Match, RulesAt, Finish;
    var rule := RulesAt(l)[Match(RulesAt(l), ts)];
    GroupRules(l, Match(RulesAt(l), ts));
    if |ts| >= 2 {
      assert ts[1..][1..] == ts[2..];
      assert ParseStmt(e, ts, n, RulesAt(l)) == GroupOf(e, rule, ts[1].text, n, NamedNode(l, ts[1].text), ts[2..]);
    }
  }

  lemma {:induction false} GroupTaken(e: Env, l: Level, ts: seq<Token>, n: Node) returns (item: Item)
    requires AtGroup(e, l, ts, n)
    ensures WfItem(l, item) && ts == RenderItem(item) + ParseStmt(e, ts, n, RulesAt(l)).value.rest
    decreases |ts|, 0
  {
    hide Match, ParseBody, ParseStmt, RulesAt, AtGroup, BlockNode, NamedNode, Fits;
    if l == InPin || (l == InMacro && Is(ts, KW(OBS))) {
      BlockOpened(e, l, ts, n);
      var body := BodyTaken(e, BlockLevel(l), ts[1..], BlockNode(l));
      var rest := ParseBody(e, ts[1..], BlockNode(l), RulesAt(BlockLevel(l))).value.rest;
      item := Group(ts[0], body, rest[0]);
    } else {
      GroupLevel(e, l, ts, n);
      NamedOpened(e, l, ts, n);
      var arg := NamedNode(l, ts[1].text);
      var body := BodyTaken(e, NamedLevel(l), ts[2..], arg);
      var rest := ParseBody(e, ts[2..], arg, RulesAt(NamedLevel(l))).value.rest;
      item := NamedGroup(ts[0], ts[1], body, rest[0], rest[1]);
    }
  }

  lemma {:induction false} GroupLevel(e: Env, l: Level, ts: seq<Token>, n: Node)
    requires AtGroup(e, l, ts, n)
    ensures l == Root || l == InMacro || l == InPin
  {
    hide RulesAt;
    GroupRules(l, Match(RulesAt(l), ts));
  }

  /** Whatever is parsed as a statement is an item, and what the parser leaves is behind it. */
  lemma {:induction false} ItemTaken(e: Env, l: Level, ts: seq<Token>, n: Node) returns (item: Item)
    requires Fits(l, n) && ParseStmt(e, ts, n, RulesAt(l)).Ok?
    ensures WfItem(l, item) && ts == RenderItem(item) + ParseStmt(e, ts, n, RulesAt(l)).value.rest
    decreases |ts|, 1
  {
    var i := Match(RulesAt(l), ts);
    if i == |RulesAt(l)| {
      var s := SkippedIsRendered(ts);
      NotEnd(s, Skip(ts).value);
      RulesAreKnown(l, ts[0].kind);
      item := Ignored(s);
    } else if RulesAt(l)[i].GroupRule? {
      item := GroupTaken(e, l, ts, n);
    } else if l == InMacro {
      item := MacroStatementTaken(e, ts, n);
    } else {
      item := PortStatementTaken(e, ts, n);
    }
  }

  lemma {:induction false} BodyTaken(e: Env, l: Level, ts: seq<Token>, n: Node) returns (items: seq<Item>)
    requires Fits(l, n) && ParseBody(e, ts, n, RulesAt(l)).Ok?
    ensures WfItems(l, items) && ts == RenderItems(items) + ParseBody(e, ts, n, RulesAt(l)).value.rest
    decreases |ts|, 2
  {
    hide ParseStmt, ParseBody, RulesAt, WfItem, RenderItem, Fits, Meaning;
    BodyStep(e, ts, n, RulesAt(l));
    if IsEnd(ts) {
      items := [];
    } else {
      var item := ItemTaken(e, l, ts, n);
      var s := ParseStmt(e, ts, n, RulesAt(l)).value;
      ItemParsed(e, l, item, s.rest, n);
      var rest := BodyTaken(e, l, s.rest, s.node);
      items := [item] + rest;
      assert items[1..] == rest;
    }
  }

  lemma {:induction false} BodyStep(e: Env, ts: seq<Token>, n: Node, rules: seq<Rule>)
    requires ParseBody(e, ts, n, rules).Ok?
    ensures IsEnd(ts) ==> ParseBody(e, ts, n, rules).value.rest == ts
    ensures !IsEnd(ts) ==> ParseStmt(e, ts, n, rules).Ok?
                           && var s := ParseStmt(e, ts, n, rules).value; ParseBody(e, ts, n, rules) == ParseBody(e, s.rest, s.node, rules)
  {
  }

  /** A file is accepted only if it is a list of items in front of END LIBRARY. */
  lemma {:induction false} FileTaken(e: Env, ts: seq<Token>, n: Node) returns (items: seq<Item>, end: Token, library: Token)
    requires n.Library? && ParseFile(e, ts, n).Ok?
    ensures WfItems(Root, items) && end.kind == KW(END) && library.kind == KW(LIBRARY) && ts == RenderItems(items) + [end, library]
    decreases |ts|
  {
    if IsEnd(ts) {
      items, end, library := [], ts[0], ts[1];
    } else {
      var item := ItemTaken(e, Root, ts, n);
      var s := ParseStmt(e, ts, n, ROOT_RULES).value;
      ItemParsed(e, Root, item, s.rest, n);
      var rest;
      rest, end, library := FileTaken(e, s.rest, s.node);
      items := [item] + rest;
      assert items[1..] == rest;
    }
  }

  // --- What groups amount to ---------------------------------------------------------

  /** The groups among the items that the keyword opens, in order. */
  function GroupsOf(items: seq<Item>, k: Keyword): (gs: seq<Item>)
    ensures forall j :: 0 <= j < |gs| ==> (gs[j].Group? || gs[j].NamedGroup?) && gs[j].kw.kind == KW(k)
  {
    if items == [] then []
    else
      (if (items[0].Group? || items[0].NamedGroup?) && items[0].kw.kind == KW(k) then [items[0]] else []) + GroupsOf(items[1..], k)
  }

  lemma {:induction false} MacrosMeant(e: Env, items: seq<Item>, ms: seq<Macro>) returns (more: seq<Macro>)
    requires WfItems(Root, items) && MeaningAll(e, Root, items, Library(ms)).Ok?
    ensures var gs := GroupsOf(items, MACRO);
            && MeaningAll(e, Root, items, Library(ms)) == Ok(Library(ms + more)) && |more| == |gs|
            && forall j :: 0 <= j < |gs| ==>
                 gs[j].NamedGroup? && more[j].name == gs[j].name.text && Meaning(e, Root, gs[j], Library([])) == Ok(Library([more[j]]))
  {
    if items == [] {
      more := [];
      assert ms + [] == ms;
    } else {
      var after := Meaning(e, Root, items[0], Library(ms)).value;
      var rest := MacrosMeant(e, items[1..], after.macros);
      if items[0].NamedGroup? {
        var m := after.macros[|ms|];
        NameKept(e, InMacro, items[0].body, MacroNode(Macro(items[0].name.text, XY(0.0, 0.0), XY(0.0, 0.0), [])));
        assert [] + [m] == [m];
        more := [m] + rest;
        assert ms + more == after.macros + rest;
      } else {
        more := rest;
      }
    }
  }

  // Nothing inside a group renames its object.
  lemma {:induction false} NameKept(e: Env, l: Level, items: seq<Item>, n: Node)
    requires Fits(l, n) && MeaningAll(e, l, items, n).Ok?
    ensures l == InMacro ==> MeaningAll(e, l, items, n).value.macro.name == n.macro.name
    ensures l == InPin ==> MeaningAll(e, l, items, n).value.pin.name == n.pin.name
  {
    if items != [] {
      NameKept(e, l, items[1..], Meaning(e, l, items[0], n).value);
    }
  }

  /** A file adds one macro for every MACRO group, in order: it has the group's name, and is what
      the file with that group alone gives. */
  lemma {:induction false} MacrosOfFile(e: Env, items: seq<Item>, end: Token, library: Token, ms: seq<Macro>) returns (more: seq<Macro>)
    requires WfItems(Root, items) && end.kind == KW(END) && library.kind == KW(LIBRARY)
    requires ParseFile(e, RenderItems(items) + [end, library], Library(ms)).Ok?
    ensures var gs := GroupsOf(items, MACRO);
            && ParseFile(e, RenderItems(items) + [end, library], Library(ms)) == Ok(Library(ms + more)) && |more| == |gs|
            && forall j :: 0 <= j < |gs| ==>
                 && gs[j].NamedGroup? && more[j].name == gs[j].name.text
                 && ParseFile(e, RenderItem(gs[j]) + [end, library], Library([])) == Ok(Library([more[j]]))
  {
    FileParsed(e, items, end, library, Library(ms));
    more := MacrosMeant(e, items, ms);
    var gs := GroupsOf(items, MACRO);
    forall j | 0 <= j < |gs|
      ensures ParseFile(e, RenderItem(gs[j]) + [end, library], Library([])) == Ok(Library([more[j]]))
    {
      GroupsAreWf(Root, items, MACRO, j);
      OneItem(e, Root, gs[j], Library([]));
      FileParsed(e, [gs[j]], end, library, Library([]));
    }
  }

  lemma {:induction false} GroupsAreWf(l: Level, items: seq<Item>, k: Keyword, j: nat)
    requires WfItems(l, items) && j < |GroupsOf(items, k)|
    ensures WfItem(l, GroupsOf(items, k)[j])
  {
    var own := if (items[0].Group? || items[0].NamedGroup?) && items[0].kw.kind == KW(k) then 1 else 0;
    if j >= own {
      GroupsAreWf(l, items[1..], k, j - own);
    }
  }

  lemma {:induction false} OneItem(e: Env, l: Level, item: Item, n: Node)
    requires Fits(l, n)
    ensures RenderItems([item]) == RenderItem(item) && MeaningAll(e, l, [item], n) == Meaning(e, l, item, n)
    ensures WfItem(l, item) ==> WfItems(l, [item])
  {
    assert [item][1..] == [];
    assert RenderItem(item) + [] == RenderItem(item);
  }

  // The groups as far as they tell what the pins are.
  ghost predicate PinsOf(e: Env, gs: seq<Item>, pins: seq<Pin>) {
    && |pins| == |gs|
    && forall j :: 0 <= j < |gs| ==> PinOf(e, gs[j], pins[j])
  }

  ghost predicate PinOf(e: Env, g: Item, p: Pin) {
    g.NamedGroup? && p.name == g.name.text && MeaningAll(e, InPin, g.body, PinNode(Pin(g.name.text, []))) == Ok(PinNode(p))
  }

  lemma {:induction false} PinsMeant(e: Env, items: seq<Item>, m: Macro) returns (more: seq<Pin>)
    requires WfItems(InMacro, items) && MeaningAll(e, InMacro, items, MacroNode(m)).Ok?
    ensures var r := MeaningAll(e, InMacro, items, MacroNode(m)).value.macro;
            r.name == m.name && r.pins == m.pins + more && PinsOf(e, GroupsOf(items, PIN), more)
  {
    hide PinOf, WfItem, Meaning;
    if items == [] {
      more := [];
      assert m.pins + [] == m.pins;
    } else {
      var after := Meaning(e, InMacro, items[0], MacroNode(m)).value.macro;
      var rest := PinsMeant(e, items[1..], after);
      var own := PinMeant(e, items[0], m);
      more := own + rest;
      assert m.pins + more == after.pins + rest;
    }
  }

  // One statement in a macro adds a pin if it is a PIN group.
  lemma {:induction false} PinMeant(e: Env, item: Item, m: Macro) returns (own: seq<Pin>)
    requires WfItem(InMacro, item) && Meaning(e, InMacro, item, MacroNode(m)).Ok?
    ensures var r := Meaning(e, InMacro, item, MacroNode(m)).value.macro; r.name == m.name && r.pins == m.pins + own
    ensures if (item.Group? || item.NamedGroup?) && item.kw.kind == KW(PIN) then |own| == 1 && PinOf(e, item, own[0]) else own == []
  {
    hide WfItems;
    var r := Meaning(e, InMacro, item, MacroNode(m)).value.macro;
    if item.NamedGroup? {
      NameKept(e, InPin, item.body, PinNode(Pin(item.name.text, [])));
      own := [r.pins[|m.pins|]];
    } else {
      own := [];
    }
  }

  /** The body of a macro adds one pin for every PIN group, in order, each with the group's name and
      what the group's body gives by itself; the macro keeps its name and the pins it had. */
  lemma {:induction false} PinsOfMacro(e: Env, items: seq<Item>, ts: seq<Token>, m: Macro) returns (more: seq<Pin>)
    requires WfItems(InMacro, items) && IsEnd(ts) && ParseBody(e, RenderItems(items) + ts, MacroNode(m), MACRO_RULES).Ok?
    ensures var gs, r := GroupsOf(items, PIN), ParseBody(e, RenderItems(items) + ts, MacroNode(m), MACRO_RULES).value;
            && r.rest == ts && r.node.MacroNode? && r.node.macro.name == m.name && r.node.macro.pins == m.pins + more && |more| == |gs|
            && forall j :: 0 <= j < |gs| ==>
                 && gs[j].NamedGroup? && more[j].name == gs[j].name.text
                 && ParseBody(e, RenderItems(gs[j].body) + ts, PinNode(Pin(more[j].name, [])), PIN_RULES) == Ok(Parsed(PinNode(more[j]), ts))
  {
    ItemsParsed(e, InMacro, items, ts, MacroNode(m));
    more := PinsMeant(e, items, m);
    var gs := GroupsOf(items, PIN);
    forall j | 0 <= j < |gs|
      ensures gs[j].NamedGroup? && more[j].name == gs[j].name.text
      ensures ParseBody(e, RenderItems(gs[j].body) + ts, PinNode(Pin(more[j].name, [])), PIN_RULES) == Ok(Parsed(PinNode(more[j]), ts))
    {
      assert PinOf(e, gs[j], more[j]);
      GroupsAreWf(InMacro, items, PIN, j);
      ItemsParsed(e, InPin, gs[j].body, ts, PinNode(Pin(gs[j].name.text, [])));
    }
  }

  lemma {:induction false} PortsMeant(e: Env, items: seq<Item>, p: Pin) returns (more: seq<Port>)
    requires WfItems(InPin, items) && MeaningAll(e, InPin, items, PinNode(p)).Ok?
    ensures var gs, r := GroupsOf(items, PORT), MeaningAll(e, InPin, items, PinNode(p)).value.pin;
            && r == Pin(p.name, p.ports + more) && |more| == |gs|
            && forall j :: 0 <= j < |gs| ==>
                 gs[j].Group? && MeaningAll(e, InPort, gs[j].body, PortNode(Port(NoClass, []))) == Ok(PortNode(more[j]))
  {
    if items == [] {
      more := [];
      assert p.ports + [] == p.ports;
    } else {
      var after := Meaning(e, InPin, items[0], PinNode(p)).value.pin;
      var rest := PortsMeant(e, items[1..], after);
      if items[0].Group? {
        more := [after.ports[|p.ports|]] + rest;
        assert p.ports + more == after.ports + rest;
      } else {
        more := rest;
      }
    }
  }

  /** Likewise the body of a pin: one port for every PORT group, in order. */
  lemma {:induction false} PortsOfPin(e: Env, items: seq<Item>, ts: seq<Token>, p: Pin) returns (more: seq<Port>)
    requires WfItems(InPin, items) && IsEnd(ts) && ParseBody(e, RenderItems(items) + ts, PinNode(p), PIN_RULES).Ok?
    ensures var gs := GroupsOf(items, PORT);
            && ParseBody(e, RenderItems(items) + ts, PinNode(p), PIN_RULES) == Ok(Parsed(PinNode(Pin(p.name, p.ports + more)), ts)) && |more| == |gs|
            && forall j :: 0 <= j < |gs| ==>
                 gs[j].Group? && ParseBody(e, RenderItems(gs[j].body) + ts, PortNode(Port(NoClass, [])), PORT_RULES) == Ok(Parsed(PortNode(more[j]), ts))
  {
    ItemsParsed(e, InPin, items, ts, PinNode(p));
    more := PortsMeant(e, items, p);
    var gs := GroupsOf(items, PORT);
    forall j | 0 <= j < |gs|
      ensures ParseBody(e, RenderItems(gs[j].body) + ts, PortNode(Port(NoClass, [])), PORT_RULES) == Ok(Parsed(PortNode(more[j]), ts))
    {
      GroupsAreWf(InPin, items, PORT, j);
      ItemsParsed(e, InPort, gs[j].body, ts, PortNode(Port(NoClass, [])));
    }
  }

  // What a statement makes of the port p.
  ghost predicate PortAfter(e: Env, item: Item, p: Port, q: Port) {
    var k := |p.layers| - 1;
    match item
    case Ignored(_) => q == p
    case Class(_, cls, _) =>
      && q.layers == p.layers
      && (cls.kind == KW(NONE) || cls.kind == KW(CORE) || cls.kind == KW(BUMP))
      && q.cls == if cls.kind == KW(NONE) then NoneClass else if cls.kind == KW(CORE) then CoreClass else BumpClass
    case OnLayer(_, name, _) => q == Port(p.cls, p.layers + [Layer(name.text, 0.0, [])])
    case Width(_, x, _) =>
      && p.layers != [] && |q.layers| == k + 1 && q.cls == p.cls && q.layers[..k] == p.layers[..k]
      && q.layers[k].name == p.layers[k].name && q.layers[k].rects == p.layers[k].rects && Ok(q.layers[k].width) == e.number(x.text)
    case Rect(_, a, b, _) =>
      && p.layers != [] && |q.layers| == k + 1 && q.cls == p.cls && q.layers[..k] == p.layers[..k]
      && q.layers[k].name == p.layers[k].name && q.layers[k].width == p.layers[k].width
      && q.layers[k].rects != []
      && var n := |q.layers[k].rects| - 1;
         && q.layers[k].rects[..n] == p.layers[k].rects
         && Ok(q.layers[k].rects[n].0.x) == e.number(a.x.text) && Ok(q.layers[k].rects[n].0.y) == e.number(a.y.text)
         && Ok(q.layers[k].rects[n].1.x) == e.number(b.x.text) && Ok(q.layers[k].rects[n].1.y) == e.number(b.y.text)
    case _ => false
  }

  /** A width or a rectangle goes to the last layer of the port, which there must be; every other
      layer is kept, and LAYER and CLASS keep all of them. */
  lemma {:induction false} OnlyLastLayer(e: Env, item: Item, ts: seq<Token>, p: Port)
    requires WfItem(InPort, item) && ParseStmt(e, RenderItem(item) + ts, PortNode(p), PORT_RULES).Ok?
    ensures var r := ParseStmt(e, RenderItem(item) + ts, PortNode(p), PORT_RULES).value;
            r.rest == ts && r.node.PortNode? && PortAfter(e, item, p, r.node.port)
  {
    hide ParseStmt, RenderItem;
    ItemParsed(e, InPort, item, ts, PortNode(p));
  }

  // --- Two files ---------------------------------------------------------------------

  function Word(text: string): Token {
    Token(IDENT, text)
  }

  const SEMI := Token(SEMICOLON, ";")

  const SITE_FILE: seq<Token> := [
    Token(KW(SITE), "SITE"), Word("core"),
    Token(KW(CLASS), "CLASS"), Token(KW(CORE), "CORE"), SEMI,
    Token(KW(END), "END"), Word("core"),
    Token(KW(END), "END"), Token(KW(LIBRARY), "LIBRARY")
  ]

  // The site as a statement.
  lemma {:induction false} SiteStatement() returns (site: Stmt)
    ensures Wf(site) && Render(site) == SITE_FILE[..7] && Render(site)[0].kind == KW(SITE)
  {
    var inner := Plain([Token(KW(CLASS), "CLASS"), Token(KW(CORE), "CORE")], SEMI);
    site := Named(Token(KW(SITE), "SITE"), Word("core"), [inner], Token(KW(END), "END"), Word("core"));
    assert [inner][1..] == [] && RenderAll([inner]) == Render(inner) + [] == Render(inner);
    assert Wf(inner) && AllWf([inner]) && Wf(site);
  }

  /** A site is skipped with its name at the end: nothing comes into the library. */
  lemma {:induction false} SiteExample(e: Env)
    ensures ParseFile(e, SITE_FILE, Library([])) == Ok(Library([]))
  {
    hide Render, Wf, ParseFile;
    var site := SiteStatement();
    OneItem(e, Root, Ignored(site), Library([]));
    FileParsed(e, [Ignored(site)], Token(KW(END), "END"), Token(KW(LIBRARY), "LIBRARY"), Library([]));
    assert SITE_FILE == SITE_FILE[..7] + Trailer(Token(KW(END), "END"), Token(KW(LIBRARY), "LIBRARY"));
  }

  const PORT_BODY: seq<Token> :=
    [Token(KW(CLASS), "CLASS"), Token(KW(CORE), "CORE"), SEMI]
    + ([Token(KW(LAYER), "LAYER"), Word("M1"), SEMI]
       + ([Token(KW(LAYER), "LAYER"), Word("M2"), SEMI]
          + [Token(KW(WIDTH), "WIDTH"), Word("3"), SEMI]))

  const FIRST_PORT: seq<Token> := [Token(KW(PORT), "PORT")] + PORT_BODY + [Token(KW(END), "END")]

  const FIRST_PIN: seq<Token> :=
    [Token(KW(PIN), "PIN"), Word("P")] + (FIRST_PORT + [Token(KW(PORT), "PORT"), Token(KW(END), "END")]) + [Token(KW(END), "END"), Word("P")]

  const SIZE_A: seq<Token> := [Token(KW(SIZE), "SIZE"), Word("3"), Token(KW(BY), "BY"), Word("4"), SEMI]

  const SECOND_PIN: seq<Token> := [Token(KW(PIN), "PIN"), Word("Q"), Token(KW(END), "END"), Word("Q")]

  const FIRST_MACRO: seq<Token> :=
    [Token(KW(MACRO), "MACRO"), Word("A")] + (SIZE_A + (FIRST_PIN + SECOND_PIN)) + [Token(KW(END), "END"), Word("A")]

  const TWO_MACROS: seq<Token> :=
    FIRST_MACRO + [Token(KW(MACRO), "MACRO"), Word("B"), Token(KW(END), "END"), Word("B")]
    + [Token(KW(END), "END"), Token(KW(LIBRARY), "LIBRARY")]

  /** Two macros, the first with two pins, one of them with two ports. */
  lemma {:induction false} TwoMacrosExample(e: Env)
    requires e.number("3") == Ok(3.0) && e.number("4") == Ok(4.0)
    ensures ParseFile(e, TWO_MACROS, Library([]))
            == Ok(Library([Macro("A", XY(3.0, 4.0), XY(0.0, 0.0),
                                 [Pin("P", [Port(CoreClass, [Layer("M1", 0.0, []), Layer("M2", 3.0, [])]), Port(NoClass, [])]), Pin("Q", [])]),
                           Macro("B", XY(0.0, 0.0), XY(0.0, 0.0), [])]))
  {
    hide ParseFile, RenderItem, RenderItems, WfItem, WfItems, Meaning, MeaningAll;
    var a := MacroA(e);
    var b := MacroB(e, [MACRO_A]);
    var end, library := Token(KW(END), "END"), Token(KW(LIBRARY), "LIBRARY");
    OneItem(e, Root, b, Library([MACRO_A]));
    FirstItem(e, Root, a, [b], Library([]));
    FileParsed(e, [a] + [b], end, library, Library([]));
    assert [MACRO_A] + [Macro("B", XY(0.0, 0.0), XY(0.0, 0.0), [])] == [MACRO_A, Macro("B", XY(0.0, 0.0), XY(0.0, 0.0), [])];
  }

  const PORT_P := Port(CoreClass, [Layer("M1", 0.0, []), Layer("M2", 3.0, [])])

  const PIN_P := Pin("P", [PORT_P, Port(NoClass, [])])

  const MACRO_A := Macro("A", XY(3.0, 4.0), XY(0.0, 0.0), [PIN_P, Pin("Q", [])])

  lemma {:induction false} FirstItem(e: Env, l: Level, item: Item, items: seq<Item>, n: Node)
    requires Fits(l, n) && WfItem(l, item) && WfItems(l, items)
    ensures WfItems(l, [item] + items) && RenderItems([item] + items) == RenderItem(item) + RenderItems(items)
    ensures MeaningAll(e, l, [item] + items, n)
            == if Meaning(e, l, item, n).Ok? then MeaningAll(e, l, items, Meaning(e, l, item, n).value) else Err
  {
    assert ([item] + items)[1..] == items;
  }

  lemma {:induction false} MacroA(e: Env) returns (a: Item)
    requires e.number("3") == Ok(3.0) && e.number("4") == Ok(4.0)
    ensures WfItem(Root, a) && RenderItem(a) == FIRST_MACRO && Meaning(e, Root, a, Library([])) == Ok(Library([MACRO_A]))
  {
    hide MeaningAll, WfItems, RenderItems;
    var body := BodyA(e);
    a := NamedGroup(Token(KW(MACRO), "MACRO"), Word("A"), body, Token(KW(END), "END"), Word("A"));
    assert [] + [MACRO_A] == [MACRO_A];
  }

  lemma {:induction false} BodyA(e: Env) returns (body: seq<Item>)
    requires e.number("3") == Ok(3.0) && e.number("4") == Ok(4.0)
    ensures WfItems(InMacro, body) && RenderItems(body) == SIZE_A + (FIRST_PIN + SECOND_PIN)
    ensures MeaningAll(e, InMacro, body, MacroNode(Macro("A", XY(0.0, 0.0), XY(0.0, 0.0), []))) == Ok(MacroNode(MACRO_A))
  {
    var size := SizeA(e);
    var sized := Macro("A", XY(3.0, 4.0), XY(0.0, 0.0), []);
    var p := PinP(e, sized);
    var q := PinQ(e, sized.(pins := [PIN_P]));
    hide RenderItem, RenderItems, WfItem, WfItems, Meaning, MeaningAll;
    OneItem(e, InMacro, q, MacroNode(sized.(pins := [PIN_P])));
    FirstItem(e, InMacro, p, [q], MacroNode(sized));
    FirstItem(e, InMacro, size, [p] + [q], MacroNode(Macro("A", XY(0.0, 0.0), XY(0.0, 0.0), [])));
    body := [size] + ([p] + [q]);
    assert [] + [PIN_P] == [PIN_P] && [PIN_P] + [Pin("Q", [])] == [PIN_P, Pin("Q", [])];
  }

  lemma {:induction false} SizeA(e: Env) returns (size: Item)
    requires e.number("3") == Ok(3.0) && e.number("4") == Ok(4.0)
    ensures WfItem(InMacro, size) && RenderItem(size) == SIZE_A
    ensures Meaning(e, InMacro, size, MacroNode(Macro("A", XY(0.0, 0.0), XY(0.0, 0.0), [])))
            == Ok(MacroNode(Macro("A", XY(3.0, 4.0), XY(0.0, 0.0), [])))
  {
    size := Size(Token(KW(SIZE), "SIZE"), Word("3"), Token(KW(BY), "BY"), Word("4"), SEMI);
  }

  lemma {:induction false} PinQ(e: Env, m: Macro) returns (q: Item)
    ensures WfItem(InMacro, q) && RenderItem(q) == SECOND_PIN
    ensures Meaning(e, InMacro, q, MacroNode(m)) == Ok(MacroNode(m.(pins := m.pins + [Pin("Q", [])])))
  {
    q := NamedGroup(Token(KW(PIN), "PIN"), Word("Q"), [], Token(KW(END), "END"), Word("Q"));
  }

  lemma {:induction false} MacroB(e: Env, ms: seq<Macro>) returns (b: Item)
    ensures WfItem(Root, b) && RenderItem(b) == [Token(KW(MACRO), "MACRO"), Word("B"), Token(KW(END), "END"), Word("B")]
    ensures Meaning(e, Root, b, Library(ms)) == Ok(Library(ms + [Macro("B", XY(0.0, 0.0), XY(0.0, 0.0), [])]))
  {
    b := NamedGroup(Token(KW(MACRO), "MACRO"), Word("B"), [], Token(KW(END), "END"), Word("B"));
  }

  lemma {:induction false} PinP(e: Env, m: Macro) returns (p: Item)
    requires e.number("3") == Ok(3.0)
    ensures WfItem(InMacro, p) && RenderItem(p) == FIRST_PIN
    ensures Meaning(e, InMacro, p, MacroNode(m)) == Ok(MacroNode(m.(pins := m.pins + [PIN_P])))
  {
    hide MeaningAll, WfItems, RenderItems;
    var ports := PortsP(e);
    p := NamedGroup(Token(KW(PIN), "PIN"), Word("P"), ports, Token(KW(END), "END"), Word("P"));
  }

  lemma {:induction false} PortsP(e: Env) returns (ports: seq<Item>)
    requires e.number("3") == Ok(3.0)
    ensures WfItems(InPin, ports) && RenderItems(ports) == FIRST_PORT + [Token(KW(PORT), "PORT"), Token(KW(END), "END")]
    ensures MeaningAll(e, InPin, ports, PinNode(Pin("P", []))) == Ok(PinNode(PIN_P))
  {
    var first := FirstPort(e);
    var second := SecondPort(e);
    hide RenderItem, RenderItems, WfItem, WfItems, Meaning, MeaningAll;
    OneItem(e, InPin, second, PinNode(Pin("P", [PORT_P])));
    FirstItem(e, InPin, first, [second], PinNode(Pin("P", [])));
    ports := [first] + [second];
  }

  lemma {:induction false} SecondPort(e: Env) returns (port: Item)
    ensures WfItem(InPin, port) && RenderItem(port) == [Token(KW(PORT), "PORT"), Token(KW(END), "END")]
    ensures Meaning(e, InPin, port, PinNode(Pin("P", [PORT_P]))) == Ok(PinNode(PIN_P))
  {
    port := Group(Token(KW(PORT), "PORT"), [], Token(KW(END), "END"));
    assert [PORT_P] + [Port(NoClass, [])] == [PORT_P, Port(NoClass, [])];
  }

  lemma {:induction false} FirstPort(e: Env) returns (port: Item)
    requires e.number("3") == Ok(3.0)
    ensures WfItem(InPin, port) && RenderItem(port) == FIRST_PORT
    ensures Meaning(e, InPin, port, PinNode(Pin("P", []))) == Ok(PinNode(Pin("P", [PORT_P])))
  {
    hide MeaningAll, WfItems, RenderItems;
    var body := PortBody(e);
    port := Group(Token(KW(PORT), "PORT"), body, Token(KW(END), "END"));
    assert FIRST_PORT == [port.kw] + FIRST_PORT[1..13] + [port.end];
    assert [] + [PORT_P] == [PORT_P];
  }

  lemma {:induction false} PortBody(e: Env) returns (body: seq<Item>)
    requires e.number("3") == Ok(3.0)
    ensures WfItems(InPort, body) && RenderItems(body) == PORT_BODY
    ensures MeaningAll(e, InPort, body, PortNode(Port(NoClass, []))) == Ok(PortNode(PORT_P))
  {
    var cls := Class(Token(KW(CLASS), "CLASS"), Token(KW(CORE), "CORE"), SEMI);
    var m1, m2 := OnLayer(Token(KW(LAYER), "LAYER"), Word("M1"), SEMI), OnLayer(Token(KW(LAYER), "LAYER"), Word("M2"), SEMI);
    var width := Width(Token(KW(WIDTH), "WIDTH"), Word("3"), SEMI);
    LayersMeant(e, cls, m1, m2, width);
    var l1, l2 := Layer("M1", 0.0, []), Layer("M2", 0.0, []);
    OneItem(e, InPort, width, PortNode(Port(CoreClass, [l1, l2])));
    hide RenderItems, WfItems, Meaning, MeaningAll;
    FirstItem(e, InPort, m2, [width], PortNode(Port(CoreClass, [l1])));
    FirstItem(e, InPort, m1, [m2] + [width], PortNode(Port(CoreClass, [])));
    FirstItem(e, InPort, cls, [m1] + ([m2] + [width]), PortNode(Port(NoClass, [])));
    body := [cls] + ([m1] + ([m2] + [width]));
  }

  lemma {:induction false} LayersMeant(e: Env, cls: Item, m1: Item, m2: Item, width: Item)
    requires e.number("3") == Ok(3.0) && cls.Class? && cls.cls.kind == KW(CORE)
    requires m1.OnLayer? && m1.name.text == "M1" && m2.OnLayer? && m2.name.text == "M2" && width.Width? && width.x.text == "3"
    ensures var l1, l2 := Layer("M1", 0.0, []), Layer("M2", 0.0, []);
            && Meaning(e, InPort, cls, PortNode(Port(NoClass, []))) == Ok(PortNode(Port(CoreClass, [])))
            && Meaning(e, InPort, m1, PortNode(Port(CoreClass, []))) == Ok(PortNode(Port(CoreClass, [l1])))
            && Meaning(e, InPort, m2, PortNode(Port(CoreClass, [l1]))) == Ok(PortNode(Port(CoreClass, [l1, l2])))
            && Meaning(e, InPort, width, PortNode(Port(CoreClass, [l1, l2]))) == Ok(PortNode(PORT_P))
  {
    var l1, l2 := Layer("M1", 0.0, []), Layer("M2", 0.0, []);
    assert [] + [l1] == [l1] && [l1] + [l2] == [l1, l2] && [l1, l2][1 := l2.(width := 3.0)] == PORT_P.layers;
  }
}
