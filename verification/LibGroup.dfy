/** The group around a LIB table: its name, its template and the statements that set its axes, as
    write_timing and write_table emit them and stmt_timing and stmt_table take them. */
module LibGroup {
  import opened MixedRadix
  import opened AxisLookup
  import opened LibNames
  import opened LibTable

  const TEMPLATE := "some_table_format"

  datatype Format = Format(variables: seq<Variable>, indices: seq<seq<real>>)

  predicate WfFormat(f: Format) {
    |f.variables| == |f.indices| == 3
  }

  /** The templates of a library by name. */
  predicate WfTemplates(lib: map<string, Format>) {
    forall f :: f in lib ==> WfFormat(lib[f])
  }

  /** The statements in the body of a table group. */
  datatype Setting =
    | SetVariable(axis: nat, variable: Variable)
    | SetIndex(axis: nat, texts: seq<seq<Out>>)
    | SetValues(params: seq<seq<Out>>)
    | BadVariable // one with an unknown variable
    | OtherSetting // any other name

  /** A table under construction. */
  datatype Draft = Draft(fmt: Format, values: Option<seq<seq<Out>>>)

  // --- Reading ------------------------------------------------------------------

  /** One statement: axes are numbered up to three, values are given once. */
  function Set(d: Draft, s: Setting): (r: Option<Draft>)
    requires WfFormat(d.fmt)
    ensures r.Some? ==> WfFormat(r.value.fmt)
  {
    match s
    case SetVariable(u, v) =>
      if u >= 3 then None else Some(d.(fmt := d.fmt.(variables := d.fmt.variables[u := v])))
    case SetIndex(u, texts) =>
      if u >= 3 || |texts| != 1 || Fields(texts[0]).None? then None
      else Some(d.(fmt := d.fmt.(indices := d.fmt.indices[u := Fields(texts[0]).value])))
    case SetValues(params) =>
      if params == [] || d.values.Some? then None else Some(d.(values := Some(params)))
    case BadVariable => None
    case OtherSetting => Some(d)
  }

  function SetAll(d: Draft, ss: seq<Setting>): (r: Option<Draft>)
    requires WfFormat(d.fmt)
    ensures r.Some? ==> WfFormat(r.value.fmt)
    decreases |ss|
  {
    if ss == [] then Some(d)
    else
      var e := Set(d, ss[0]);
      if e.None? then None else SetAll(e.value, ss[1..])
  }

  /** What becomes of a group: skipped, refused with an error, or a scalar or table of the timing. */
  datatype Reading = Skipped | Refused | ReadScalar(model: Model, scalar: real) | ReadTable(model: Model, table: Table)

  // parse_real: the number that the text starts with, zero if there is none, whatever follows.
  function FirstNumber(text: seq<Out>): real {
    if text != [] && text[0].Value? then text[0].v else 0.0
  }

  // A scalar table takes nothing but numbers, the last of which stays.  No unit applies to it.
  function ScalarOf(m: Model, ss: seq<Setting>, was: real): (r: Reading)
    ensures r == Refused || (r.ReadScalar? && r.model == m)
    decreases |ss|
  {
    if ss == [] then ReadScalar(m, was)
    else if !ss[0].SetValues? || |ss[0].params| != 1 then Refused
    else ScalarOf(m, ss[1..], FirstNumber(ss[0].params[0]))
  }

  /** A group of a timing group, with the templates and the tables known so far. */
  function GroupRead(name: string, template: string, ss: seq<Setting>, lib: map<string, Format>, taken: set<Model>,
                     was: real, units: Units): (r: Reading)
    requires WfTemplates(lib)
  {
    var m := ReaderModel(name);
    if m.None? then Skipped
    else if template == "scalar" then ScalarOf(m.value, ss, was)
    else if template !in lib then Refused
    else
      var d := SetAll(Draft(lib[template], None), ss);
      if d.None? then Refused
      else
        var t := Assembled(d.value.fmt.variables, d.value.fmt.indices, if d.value.values.Some? then d.value.values.value else [], units);
        if t.None? || m.value in taken then Refused else ReadTable(m.value, t.value)
  }

  /** What is read has the edge and the kind that its group's name says, and other names are skipped. */
  lemma {:induction false} ReadByName(name: string, template: string, ss: seq<Setting>, lib: map<string, Format>, taken: set<Model>,
                                      was: real, units: Units)
    requires WfTemplates(lib)
    ensures var r := GroupRead(name, template, ss, lib, taken, was, units);
            && (r.ReadScalar? || r.ReadTable? ==> name == ReadName(r.model) && NameSays(name, r.model))
            && (r == Skipped <==> name !in {"cell_rise", "cell_fall", "rise_propagation", "fall_propagation",
                                            "rise_transition", "fall_transition", "rise_constraint", "fall_constraint"})
  {
    hide SetAll, Assembled, NameSays;
    ReaderNames();
    ReaderModelSays(name);
    if ReaderModel(name).Some? {
      ReaderModelIff(name, ReaderModel(name).value);
    }
  }

  /** The reader: template lookup, the statements one by one, then the assembly. */
  method ReadGroup(name: string, template: string, ss: seq<Setting>, lib: map<string, Format>, taken: set<Model>,
                   was: real, units: Units) returns (r: Reading)
    requires WfTemplates(lib)
    ensures r == GroupRead(name, template, ss, lib, taken, was, units)
    ensures r.ReadScalar? || r.ReadTable? ==> name == ReadName(r.model) && NameSays(name, r.model)
    ensures r == Skipped <==> name !in {"cell_rise", "cell_fall", "rise_propagation", "fall_propagation",
                                        "rise_transition", "fall_transition", "rise_constraint", "fall_constraint"}
  {
    ReadByName(name, template, ss, lib, taken, was, units);
    hide NameSays;
    var m := ReaderModel(name);
    if m.None? {
      return Skipped;
    }
    if template == "scalar" {
      r := ReadScalarTable(m.value, ss, was);
      return;
    }
    if template !in lib {
      return Refused;
    }
    var d := ReadSettings(Draft(lib[template], None), ss);
    if d.None? {
      return Refused;
    }
    var fmt := d.value.fmt;
    var t := AssembleTable(fmt.variables, fmt.indices, if d.value.values.Some? then d.value.values.value else [], units);
    r := if t.None? || m.value in taken then Refused else ReadTable(m.value, t.value);
  }

  method ReadSettings(d: Draft, ss: seq<Setting>) returns (r: Option<Draft>)
    requires WfFormat(d.fmt)
    ensures r == SetAll(d, ss)
  {
    var e, k := d, 0;
    assert ss[0..] == ss;
    while k < |ss|
      invariant k <= |ss| && WfFormat(e.fmt)
      invariant SetAll(e, ss[k..]) == SetAll(d, ss)
    {
      var f := Set(e, ss[k]);
      assert ss[k..][0] == ss[k] && ss[k..][1..] == ss[k + 1..];
      if f.None? {
        return None;
      }
      e, k := f.value, k + 1;
    }
    r := Some(e);
  }

  method ReadScalarTable(m: Model, ss: seq<Setting>, was: real) returns (r: Reading)
    ensures r == ScalarOf(m, ss, was)
  {
    var x, k := was, 0;
    assert ss[0..] == ss;
    while k < |ss|
      invariant k <= |ss| && ScalarOf(m, ss[k..], x) == ScalarOf(m, ss, was)
    {
      assert ss[k..][0] == ss[k] && ss[k..][1..] == ss[k + 1..];
      if !ss[k].SetValues? || |ss[k].params| != 1 {
        return Refused;
      }
      x, k := FirstNumber(ss[k].params[0]), k + 1;
    }
    r := ReadScalar(m, x);
  }

  // --- Writing ------------------------------------------------------------------

  function VariablesFrom(t: Table, u: nat): seq<Setting>
    requires |t.variables| == 3 && u <= 3
    decreases 3 - u
  {
    if u == 3 then []
    else (if t.variables[u] != NoVariable then [SetVariable(u, t.variables[u])] else []) + VariablesFrom(t, u + 1)
  }

  function IndicesFrom(t: Table, units: Units, u: nat): seq<Setting>
    requires |t.variables| == |t.indices| == 3 && u <= 3 && units.time != 0.0 && units.cap != 0.0
    decreases 3 - u
  {
    if u == 3 then []
    else (if t.variables[u] != NoVariable then [SetIndex(u, [Joined(FileIndices(t, units)[u])])] else []) + IndicesFrom(t, units, u + 1)
  }

  /** The body of a written table group. */
  function WrittenBody(t: Table, units: Units, params: seq<seq<Out>>): seq<Setting>
    requires |t.variables| == |t.indices| == 3 && units.time != 0.0 && units.cap != 0.0
  {
    VariablesFrom(t, 0) + (IndicesFrom(t, units, 0) + [SetValues(params)])
  }

  /** write_table_format: the variables in use, then their indices. */
  method WriteFormat(t: Table, units: Units) returns (ss: seq<Setting>)
    requires |t.variables| == |t.indices| == 3 && units.time != 0.0 && units.cap != 0.0
    ensures ss == VariablesFrom(t, 0) + IndicesFrom(t, units, 0)
  {
    var vs := WriteVariables(t);
    var xs := WriteIndices(t, units);
    ss := vs + xs;
  }

  method WriteVariables(t: Table) returns (ss: seq<Setting>)
    requires |t.variables| == 3
    ensures ss == VariablesFrom(t, 0)
  {
    ss := [];
    var u := 0;
    while u < 3
      invariant u <= 3 && ss + VariablesFrom(t, u) == VariablesFrom(t, 0)
    {
      VariableStep(t, u, ss);
      if t.variables[u] != NoVariable {
        ss := ss + [SetVariable(u, t.variables[u])];
      }
      u := u + 1;
    }
    assert VariablesFrom(t, 3) == [];
  }

  lemma {:induction false} VariableStep(t: Table, u: nat, ss: seq<Setting>)
    requires |t.variables| == 3 && u < 3
    ensures t.variables[u] != NoVariable ==> ss + VariablesFrom(t, u) == ss + [SetVariable(u, t.variables[u])] + VariablesFrom(t, u + 1)
    ensures t.variables[u] == NoVariable ==> ss + VariablesFrom(t, u) == ss + VariablesFrom(t, u + 1)
  {
  }

  method WriteIndices(t: Table, units: Units) returns (ss: seq<Setting>)
    requires |t.variables| == |t.indices| == 3 && units.time != 0.0 && units.cap != 0.0
    ensures ss == IndicesFrom(t, units, 0)
  {
    ss := [];
    var u := 0;
    while u < 3
      invariant u <= 3 && ss + IndicesFrom(t, units, u) == IndicesFrom(t, units, 0)
    {
      IndexStep(t, units, u, ss);
      if t.variables[u] != NoVariable {
        var text := WriteIndex(t.indices[u], WriteUnit(t.variables[u], units));
        ss := ss + [SetIndex(u, [text])];
      }
      u := u + 1;
    }
    assert IndicesFrom(t, units, 3) == [];
  }

  lemma {:induction false} IndexStep(t: Table, units: Units, u: nat, ss: seq<Setting>)
    requires |t.variables| == |t.indices| == 3 && u < 3 && units.time != 0.0 && units.cap != 0.0
    ensures t.variables[u] != NoVariable ==>
              var text := Joined(Divided(t.indices[u], WriteUnit(t.variables[u], units)));
              ss + IndicesFrom(t, units, u) == ss + [SetIndex(u, [text])] + IndicesFrom(t, units, u + 1)
    ensures t.variables[u] == NoVariable ==> ss + IndicesFrom(t, units, u) == ss + IndicesFrom(t, units, u + 1)
  {
    if t.variables[u] != NoVariable {
      assert FileIndices(t, units)[u] == Divided(t.indices[u], WriteUnit(t.variables[u], units));
    }
  }

  function Divided(xs: seq<real>, unit: real): (r: seq<real>)
    requires unit != 0.0
  {
    seq(|xs|, v requires 0 <= v < |xs| => xs[v] / unit)
  }

  method WriteIndex(xs: seq<real>, unit: real) returns (text: seq<Out>)
    requires unit != 0.0
    ensures text == Joined(Divided(xs, unit))
  {
    text := [];
    var v := 0;
    ghost var row := Divided(xs, unit);
    while v < |xs|
      invariant v <= |xs| && text == Joined(row[..v])
    {
      if v > 0 {
        text := text + [Comma];
      }
      text := text + [Value(xs[v] / unit)];
      assert row[..v + 1][..v] == row[..v] && row[..v + 1][v] == xs[v] / unit;
      v := v + 1;
    }
    assert row[..v] == row;
  }

  // --- Reading what was written ----------------------------------------------------

  // The template with the axes in use set from axis u on.
  function OverVariables(t: Table, vs: seq<Variable>, u: nat): (r: seq<Variable>)
    requires |t.variables| == |vs| == 3
    ensures |r| == 3
  {
    seq(3, i requires 0 <= i < 3 => if i >= u && t.variables[i] != NoVariable then t.variables[i] else vs[i])
  }

  function OverIndices(t: Table, units: Units, xs: seq<seq<real>>, u: nat): (r: seq<seq<real>>)
    requires |t.variables| == |t.indices| == |xs| == 3 && units.time != 0.0 && units.cap != 0.0
    ensures |r| == 3
  {
    seq(3, i requires 0 <= i < 3 => if i >= u && t.variables[i] != NoVariable then FileIndices(t, units)[i] else xs[i])
  }

  /** The axes that a written table has when it is read with a template. */
  function Effective(t: Table, units: Units, f: Format): (e: Format)
    requires |t.variables| == |t.indices| == 3 && WfFormat(f) && units.time != 0.0 && units.cap != 0.0
    ensures WfFormat(e)
  {
    Format(OverVariables(t, f.variables, 0), OverIndices(t, units, f.indices, 0))
  }

  lemma {:induction false} SetVariables(t: Table, d: Draft, u: nat, ss: seq<Setting>)
    requires |t.variables| == 3 && WfFormat(d.fmt) && u <= 3
    ensures SetAll(d, VariablesFrom(t, u) + ss) == SetAll(d.(fmt := d.fmt.(variables := OverVariables(t, d.fmt.variables, u))), ss)
    decreases 3 - u
  {
    if u == 3 {
      assert VariablesFrom(t, u) + ss == ss && OverVariables(t, d.fmt.variables, u) == d.fmt.variables;
    } else if t.variables[u] != NoVariable {
      var all := VariablesFrom(t, u) + ss;
      assert all[0] == SetVariable(u, t.variables[u]) && all[1..] == VariablesFrom(t, u + 1) + ss;
      var e := Set(d, all[0]).value;
      SetVariables(t, e, u + 1, ss);
      assert OverVariables(t, e.fmt.variables, u + 1) == OverVariables(t, d.fmt.variables, u);
    } else {
      assert VariablesFrom(t, u) == VariablesFrom(t, u + 1);
      SetVariables(t, d, u + 1, ss);
      assert OverVariables(t, d.fmt.variables, u + 1) == OverVariables(t, d.fmt.variables, u);
    }
  }

  lemma {:induction false} SetIndices(t: Table, units: Units, d: Draft, u: nat, ss: seq<Setting>)
    requires |t.variables| == |t.indices| == 3 && WfFormat(d.fmt) && u <= 3 && units.time != 0.0 && units.cap != 0.0
    ensures SetAll(d, IndicesFrom(t, units, u) + ss) == SetAll(d.(fmt := d.fmt.(indices := OverIndices(t, units, d.fmt.indices, u))), ss)
    decreases 3 - u
  {
    hide Fields, FileIndices;
    if u == 3 {
      assert IndicesFrom(t, units, u) + ss == ss && OverIndices(t, units, d.fmt.indices, u) == d.fmt.indices;
    } else if t.variables[u] != NoVariable {
      var all, xs := IndicesFrom(t, units, u) + ss, FileIndices(t, units)[u];
      assert all[0] == SetIndex(u, [Joined(xs)]) && all[1..] == IndicesFrom(t, units, u + 1) + ss;
      JoinedFields(xs);
      var e := Set(d, all[0]).value;
      SetIndices(t, units, e, u + 1, ss);
      assert OverIndices(t, units, e.fmt.indices, u + 1) == OverIndices(t, units, d.fmt.indices, u);
    } else {
      assert IndicesFrom(t, units, u) == IndicesFrom(t, units, u + 1);
      SetIndices(t, units, d, u + 1, ss);
      assert OverIndices(t, units, d.fmt.indices, u + 1) == OverIndices(t, units, d.fmt.indices, u);
    }
  }

  lemma {:induction false} BodySets(t: Table, units: Units, params: seq<seq<Out>>, f: Format)
    requires |t.variables| == |t.indices| == 3 && WfFormat(f) && units.time != 0.0 && units.cap != 0.0 && params != []
    ensures SetAll(Draft(f, None), WrittenBody(t, units, params)) == Some(Draft(Effective(t, units, f), Some(params)))
  {
    var d := Draft(f, None);
    SetVariables(t, d, 0, IndicesFrom(t, units, 0) + [SetValues(params)]);
    var e := d.(fmt := f.(variables := OverVariables(t, f.variables, 0)));
    SetIndices(t, units, e, 0, [SetValues(params)]);
    assert [SetValues(params)][1..] == [];
  }

  // The texts that were written, read as parameters.
  ghost predicate WrittenParams(t: Table, units: Units, params: seq<seq<Out>>)
    requires Wf(t) && units.time != 0.0
  {
    params != [] && AllFields(params) == Some(FileValues(t, units.time))
  }

  /** What the writer emits for the values has such parameters. */
  lemma {:induction false} ValuesAreParams(t: Table, units: Units, out: seq<Out>) returns (params: seq<seq<Out>>)
    requires Wf(t) && units.time != 0.0 && ReadBack(out) == Some(FileValues(t, units.time))
    ensures Lex(out).open.None? && Params(Lex(out).toks) == Some(params) && WrittenParams(t, units, params)
  {
    params := Params(Lex(out).toks).value;
    ProductPositive(Used(t.variables, NumIndices(t.indices)));
    assert params == [] ==> AllFields(params) == Some([]);
  }

  /** A written table is read as one exactly when the reader knows the group's name, which it does
      for two of the eight, the file read has the template, the timing has no such table yet, and
      the axes together with the template's are in order and of as many entries. */
  lemma {:induction false} WrittenReadIff(m: Model, t: Table, units: Units, params: seq<seq<Out>>, lib: map<string, Format>, taken: set<Model>, was: real)
    requires Wf(t) && units.time != 0.0 && units.cap != 0.0 && WrittenParams(t, units, params)
    requires WfTemplates(lib)
    ensures var r := GroupRead(WrittenName(m), TEMPLATE, WrittenBody(t, units, params), lib, taken, was, units);
            && (r == Skipped <==> m != CellRise && m != CellFall)
            && (r.ReadTable? <==>
                (&& (m == CellRise || m == CellFall) && TEMPLATE in lib && m !in taken
                 && var e := Effective(t, units, lib[TEMPLATE]);
                    AxesInOrder(e.indices)
                    && Product(Used(e.variables, NumIndices(e.indices))) == Product(Used(t.variables, NumIndices(t.indices)))))
            && !r.ReadScalar?
  {
    NamesDiffer(m);
    if (m == CellRise || m == CellFall) && TEMPLATE in lib {
      BodySets(t, units, params, lib[TEMPLATE]);
    }
  }

  lemma {:induction false} NamesDiffer(m: Model)
    ensures ReaderModel(WrittenName(m)) == if m == CellRise || m == CellFall then Some(m) else None
    ensures TEMPLATE != "scalar"
  {
    assert TEMPLATE[1] != "scalar"[1];
    match m
    case CellRise =>
    case CellFall =>
    case PropagationRise => assert WrittenName(m)[0] == 'p';
    case PropagationFall => assert WrittenName(m)[0] == 'p';
    case TransitionRise => assert WrittenName(m)[0] == 't';
    case TransitionFall => assert WrittenName(m)[0] == 't';
    case ConstraintRise => assert WrittenName(m)[1] == 'o';
    case ConstraintFall => assert WrittenName(m)[1] == 'o';
  }

  /** A file that the program wrote has no templates: none of its tables is read back. */
  lemma {:induction false} NeverReadBack(m: Model, t: Table, units: Units, params: seq<seq<Out>>, taken: set<Model>, was: real)
    requires Wf(t) && units.time != 0.0 && units.cap != 0.0 && WrittenParams(t, units, params)
    ensures GroupRead(WrittenName(m), TEMPLATE, WrittenBody(t, units, params), map[], taken, was, units)
            == if m == CellRise || m == CellFall then Refused else Skipped
  {
    WrittenReadIff(m, t, units, params, map[], taken, was);
    NamesDiffer(m);
  }

  /** A table of one entry: what is written for it is refused without the template, and read with it. */
  lemma {:induction false} RefusedTableExample(was: real)
    ensures var t, units := Table([TimeVariable, NoVariable, NoVariable], [[1.0], [], []], [1, 0, 0], [5.0]), Units(1.0, 1.0);
            var ss := WrittenBody(t, units, [[Value(5.0)]]);
            var blank := Format([NoVariable, NoVariable, NoVariable], [[], [], []]);
            && GroupRead("cell_rise", TEMPLATE, ss, map[], {}, was, units) == Refused
            && GroupRead("cell_rise", TEMPLATE, ss, map[TEMPLATE := blank], {}, was, units) == ReadTable(CellRise, t)
  {
    var t, units := Table([TimeVariable, NoVariable, NoVariable], [[1.0], [], []], [1, 0, 0], [5.0]), Units(1.0, 1.0);
    var params, blank := [[Value(5.0)]], Format([NoVariable, NoVariable, NoVariable], [[], [], []]);
    NamesDiffer(CellRise);
    BodySets(t, units, params, blank);
    var e := Effective(t, units, blank);
    OneIndexWritten(t, units, 0);
    assert e == Format(t.variables, t.indices);
    OneEntryRead(t, units, params);
  }

  lemma {:induction false} OneEntryRead(t: Table, units: Units, params: seq<seq<Out>>)
    requires t == Table([TimeVariable, NoVariable, NoVariable], [[1.0], [], []], [1, 0, 0], [5.0]) && units == Units(1.0, 1.0)
    requires params == [[Value(5.0)]]
    ensures Assembled(t.variables, t.indices, params, units) == Some(t)
  {
    hide Fields, AllFields, ReadStrides, ReadIndices, Used, Times;
    OneEntryFields(params);
    OneAxis(t.variables, t.indices, NumIndices(t.indices), units);
  }

  lemma {:induction false} OneEntryFields(params: seq<seq<Out>>)
    requires params == [[Value(5.0)]]
    ensures AllFields(params) == Some([5.0]) && Times([5.0], 1.0) == [5.0]
  {
    FieldsOne(5.0);
    assert params[..0] == [] && [] + [5.0] == [5.0];
    assert AllFields([]) == Some([]);
    assert Times([5.0], 1.0) == [5.0];
  }

  lemma {:induction false} OneAxis(vs: seq<Variable>, indices: seq<seq<real>>, n: seq<nat>, units: Units)
    requires vs == [TimeVariable, NoVariable, NoVariable] && indices == [[1.0], [], []] && n == NumIndices(indices) && units == Units(1.0, 1.0)
    ensures Product(Used(vs, n)) == 1 && ReadStrides(vs, n) == [1, 0, 0] && ReadIndices(vs, indices, units) == indices
  {
    hide Used, Times;
    OneUsed(vs, n);
    NoneUsed(vs[1..], n[1..]);
    assert Product([1]) == 1;
    OneTimes();
    assert ReadIndices(vs, indices, units)[0] == indices[0];
  }

  lemma {:induction false} OneUsed<T>(vs: seq<Variable>, xs: seq<T>)
    requires |vs| == |xs| == 3 && vs[0] != NoVariable && vs[1] == vs[2] == NoVariable
    ensures Used(vs, xs) == [xs[0]]
  {
    assert vs[..2][..1] == vs[..1] && xs[..2][..1] == xs[..1];
    assert Used(vs[..1], xs[..1]) == [xs[0]];
    assert Used(vs[..2], xs[..2]) == [xs[0]];
  }

  lemma {:induction false} NoneUsed<T>(vs: seq<Variable>, xs: seq<T>)
    requires |vs| == |xs| && forall i :: 0 <= i < |vs| ==> vs[i] == NoVariable
    ensures Used(vs, xs) == []
  {
    if vs != [] {
      NoneUsed(vs[..|vs| - 1], xs[..|vs| - 1]);
    }
  }

  lemma {:induction false} OneTimes()
    ensures Times([1.0], 1.0) == [1.0]
  {
  }

  /** With a template that declares no axis of its own, a table that is read is the same function
      of the index vectors. */
  lemma {:induction false} ReadIsSame(m: Model, t: Table, units: Units, out: seq<Out>, params: seq<seq<Out>>, lib: map<string, Format>,
                                      taken: set<Model>, was: real, r: Reading)
    requires Wf(t) && units.time != 0.0 && units.cap != 0.0 && ReadBack(out) == Some(FileValues(t, units.time))
    requires Lex(out).open.None? && Params(Lex(out).toks) == Some(params)
    requires WfTemplates(lib)
    requires TEMPLATE in lib && forall u :: 0 <= u < 3 && t.variables[u] == NoVariable ==> lib[TEMPLATE].variables[u] == NoVariable
    requires r == GroupRead(WrittenName(m), TEMPLATE, WrittenBody(t, units, params), lib, taken, was, units)
    ensures r.ReadTable? <==> (m == CellRise || m == CellFall) && m !in taken && AxesInOrder(Effective(t, units, lib[TEMPLATE]).indices)
    ensures r.ReadTable? ==>
      && r.model == m && |r.table.variables| == |r.table.strides| == 3
      && forall ix {:trigger InBox(ix, Used(t.variables, NumIndices(t.indices)))} ::
           InBox(ix, Used(t.variables, NumIndices(t.indices))) ==> SameEntry(t, r.table, ix)
  {
    var p := ValuesAreParams(t, units, out);
    var e := Effective(t, units, lib[TEMPLATE]);
    NamesDiffer(m);
    BodySets(t, units, params, lib[TEMPLATE]);
    assert e.variables == t.variables;
    RoundTrip(t, units, out, params, e.indices, Assembled(t.variables, e.indices, params, units));
  }

  /** A scalar in place of a table is written in units of time and read without: of the two names
      that the reader knows it comes back exactly when it is zero or the unit is one. */
  lemma {:induction false} ScalarRoundTripIff(m: Model, x: real, units: Units, lib: map<string, Format>, taken: set<Model>, was: real)
    requires units.time != 0.0 && WfTemplates(lib)
    ensures var r := GroupRead(WrittenName(m), "scalar", [SetValues([[Value(x / units.time)]])], lib, taken, was, units);
            if m == CellRise || m == CellFall then r.ReadScalar? && r.model == m && (r.scalar == x <==> x == 0.0 || units.time == 1.0)
            else r == Skipped
  {
    NamesDiffer(m);
    var v := x / units.time;
    var ss := [SetValues([[Value(v)]])];
    assert ss[1..] == [] && ScalarOf(m, ss[1..], v) == ReadScalar(m, v);
    assert ScalarOf(m, ss, was) == ReadScalar(m, v);
    DivideTimes(x, units.time);
    SameQuotientIff(v, x, units.time);
  }

  /** A delay of one, written in units of two, comes back as a half. */
  lemma {:induction false} ScalarExample(was: real)
    ensures GroupRead(WrittenName(CellRise), "scalar", [SetValues([[Value(1.0 / 2.0)]])], map[], {}, was, Units(2.0, 1.0)) == ReadScalar(CellRise, 0.5)
  {
    var ss := [SetValues([[Value(1.0 / 2.0)]])];
    NamesDiffer(CellRise);
    assert ss[1..] == [];
  }

  lemma {:induction false} SameQuotientIff(q: real, x: real, unit: real)
    requires q * unit == x && unit != 0.0
    ensures q == x <==> x == 0.0 || unit == 1.0
  {
    if q == x {
      assert x * (unit - 1.0) == 0.0;
      ZeroProduct(x, unit - 1.0);
    }
    if x == 0.0 {
      ZeroProduct(q, unit);
    }
  }

  lemma {:induction false} ZeroProduct(x: real, y: real)
    requires x * y == 0.0
    ensures x == 0.0 || y == 0.0
  {
    PositiveProduct(x, y);
    PositiveProduct(-x, y);
    PositiveProduct(x, -y);
    PositiveProduct(-x, -y);
    NegatedProducts(x, y);
  }

  lemma {:induction false} NegatedProducts(x: real, y: real)
    ensures (-x) * y == -(x * y) && x * (-y) == -(x * y) && (-x) * (-y) == x * y
  {
  }
}
