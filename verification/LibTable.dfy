/** Writing a lookup table and reading it back: rows of values in quotes, last axis
    fastest, whatever the strides in memory (write_table, and the assembly in stmt_timing). */
module LibTable {
  import opened MixedRadix
  import opened AxisLookup

  /** What an axis stands for, by the unit of its indices. */
  datatype Variable = NoVariable | TimeVariable | CapVariable | LengthVariable

  datatype Table = Table(variables: seq<Variable>, indices: seq<seq<real>>, strides: seq<nat>, values: seq<real>)

  function NumIndices(indices: seq<seq<real>>): (n: seq<nat>)
    ensures |n| == |indices| && forall u :: 0 <= u < |n| ==> n[u] == |indices[u]|
  {
    seq(|indices|, u requires 0 <= u < |indices| => |indices[u]|)
  }

  // The entries of the axes in use, last axis first.
  function Used<T>(vs: seq<Variable>, xs: seq<T>): (r: seq<T>)
    requires |vs| == |xs|
  {
    if vs == [] then []
    else
      var n := |vs| - 1;
      (if vs[n] != NoVariable then [xs[n]] else []) + Used(vs[..n], xs[..n])
  }

  // --- What is written, and how it is read ---------------------------------------

  datatype Out = Quote | Comma | Separator | Value(v: real)

  /** The reader's tokens: a text in quotes or a bare number, and commas. */
  datatype Token = Text(content: seq<Out>) | CommaToken

  datatype Lexing = Lexing(toks: seq<Token>, open: Option<seq<Out>>)

  // One output item seen by the lexer.
  function Lex1(s: Lexing, o: Out): Lexing {
    match s.open
    case Some(c) => if o == Quote then Lexing(s.toks + [Text(c)], None) else Lexing(s.toks, Some(c + [o]))
    case None =>
      match o
      case Quote => Lexing(s.toks, Some([]))
      case Value(_) => Lexing(s.toks + [Text([o])], None)
      case _ => Lexing(s.toks + [CommaToken], None)
  }

  function Lex(out: seq<Out>): Lexing {
    if out == [] then Lexing([], None) else Lex1(Lex(out[..|out| - 1]), out[|out| - 1])
  }

  lemma {:induction false} LexSnoc(out: seq<Out>, o: Out)
    ensures Lex(out + [o]) == Lex1(Lex(out), o)
  {
    assert (out + [o])[..|out|] == out;
  }

  // A row as the text between quotes.
  function Joined(row: seq<real>): (c: seq<Out>) {
    if row == [] then []
    else if |row| == 1 then [Value(row[0])]
    else Joined(row[..|row| - 1]) + [Comma, Value(row[|row| - 1])]
  }

  // The rows as tokens, some of them behind a separator.
  function RowTokens(rows: seq<seq<real>>, seps: seq<bool>): (ts: seq<Token>)
    requires |seps| == |rows|
  {
    if rows == [] then []
    else
      var n := |rows| - 1;
      RowTokens(rows[..n], seps[..n]) + (if seps[n] then [CommaToken] else []) + [Text(Joined(rows[n]))]
  }

  function Flat(rows: seq<seq<real>>): seq<real> {
    if rows == [] then [] else Flat(rows[..|rows| - 1]) + rows[|rows| - 1]
  }

  /** The loop over the parameters of `values`: texts, each with an optional comma behind. */
  function Params(ts: seq<Token>): (r: Option<seq<seq<Out>>>)
    decreases |ts|
  {
    if ts == [] then Some([])
    else if ts[0].CommaToken? then None
    else
      var rest := Params(if |ts| > 1 && ts[1].CommaToken? then ts[2..] else ts[1..]);
      if rest.Some? then Some([ts[0].content] + rest.value) else None
  }

  /** parse_real_fields: values with commas between them. */
  function Fields(c: seq<Out>): (r: Option<seq<real>>)
    decreases |c|
  {
    if c == [] then Some([])
    else if !c[0].Value? || (|c| > 1 && c[1] != Comma) then None
    else
      var rest := Fields(if |c| > 1 then c[2..] else []);
      if rest.Some? then Some([c[0].v] + rest.value) else None
  }

  function AllFields(cs: seq<seq<Out>>): (r: Option<seq<real>>) {
    if cs == [] then Some([])
    else
      var init, last := AllFields(cs[..|cs| - 1]), Fields(cs[|cs| - 1]);
      if init.Some? && last.Some? then Some(init.value + last.value) else None
  }

  /** The values that the reader collects from what was written. */
  function ReadBack(out: seq<Out>): (r: Option<seq<real>>) {
    var s := Lex(out);
    if s.open.Some? then None
    else
      var p := Params(s.toks);
      if p.Some? then AllFields(p.value) else None
  }

  // --- Reading rows back ------------------------------------------------------------

  lemma {:induction false} FieldsOne(v: real)
    ensures Fields([Value(v)]) == Some([v])
  {
    assert Fields([]) == Some([]);
    assert [v] + [] == [v];
  }

  lemma {:induction false} ParamsOne(c: seq<Out>)
    ensures Params([Text(c)]) == Some([c])
  {
    assert [Text(c)][1..] == [] && Params([]) == Some([]);
    assert [c] + [] == [c];
  }

  lemma {:induction false} FieldsAppend(c: seq<Out>, xs: seq<real>, v: real)
    requires Fields(c) == Some(xs) && c != [] && c[|c| - 1].Value?
    ensures Fields(c + [Comma, Value(v)]) == Some(xs + [v])
    decreases |c|
  {
    var all := c + [Comma, Value(v)];
    if |c| == 1 {
      assert all[2..] == [Value(v)] && all[1] == Comma;
      FieldsOne(v);
      assert c == [Value(c[0].v)];
      FieldsOne(c[0].v);
      assert [c[0].v] + [v] == xs + [v];
    } else {
      assert all[2..] == c[2..] + [Comma, Value(v)] && all[1] == c[1];
      assert c[1] == Comma && c[2..] != [];
      var rest := Fields(c[2..]);
      assert rest.Some? && xs == [c[0].v] + rest.value;
      FieldsAppend(c[2..], rest.value, v);
      assert [c[0].v] + (rest.value + [v]) == xs + [v];
    }
  }

  lemma {:induction false} JoinedFields(row: seq<real>)
    ensures Fields(Joined(row)) == Some(row)
    ensures row != [] ==> Joined(row) != [] && Joined(row)[|Joined(row)| - 1] == Value(row[|row| - 1])
  {
    if |row| == 1 {
      FieldsOne(row[0]);
      assert [row[0]] == row;
    } else if |row| > 1 {
      var n := |row| - 1;
      JoinedFields(row[..n]);
      FieldsAppend(Joined(row[..n]), row[..n], row[n]);
      assert row == row[..n] + [row[n]];
    }
  }

  function Contents(rows: seq<seq<real>>): (cs: seq<seq<Out>>)
    ensures |cs| == |rows| && forall i :: 0 <= i < |rows| ==> cs[i] == Joined(rows[i])
  {
    seq(|rows|, i requires 0 <= i < |rows| => Joined(rows[i]))
  }

  lemma {:induction false} ContentsFields(rows: seq<seq<real>>)
    ensures AllFields(Contents(rows)) == Some(Flat(rows))
  {
    if rows != [] {
      var n := |rows| - 1;
      ContentsFields(rows[..n]);
      assert Contents(rows)[..n] == Contents(rows[..n]);
      JoinedFields(rows[n]);
    }
  }

  lemma {:induction false} ParamsAppend(ts: seq<Token>, cs: seq<seq<Out>>, comma: bool, c: seq<Out>)
    requires Params(ts) == Some(cs) && (comma ==> ts != [] && ts[|ts| - 1].Text?)
    ensures Params(ts + (if comma then [CommaToken] else []) + [Text(c)]) == Some(cs + [c])
    decreases |ts|
  {
    var more := (if comma then [CommaToken] else []) + [Text(c)];
    assert ts + (if comma then [CommaToken] else []) + [Text(c)] == ts + more;
    if ts == [] {
      assert ts + more == [Text(c)] && cs + [c] == [c];
      ParamsOne(c);
    } else if |ts| == 1 {
      ParamsTwo(ts[0].content, comma, c);
      assert ts == [Text(ts[0].content)];
      ParamsOne(ts[0].content);
      assert [ts[0].content] + [c] == [ts[0].content, c];
    } else {
      var k := if ts[1].CommaToken? then 2 else 1;
      var rest := Params(ts[k..]);
      assert rest.Some? && cs == [ts[0].content] + rest.value;
      assert ts[k..] == [] ==> ts[|ts| - 1] == ts[1];
      ParamsAppend(ts[k..], rest.value, comma, c);
      assert ts[k..] + (if comma then [CommaToken] else []) + [Text(c)] == ts[k..] + more;
      ParamsTail(ts, k, more, rest.value, c);
    }
  }

  lemma {:induction false} ParamsTwo(b: seq<Out>, comma: bool, c: seq<Out>)
    ensures Params([Text(b)] + ((if comma then [CommaToken] else []) + [Text(c)])) == Some([b, c])
  {
    var all := [Text(b)] + ((if comma then [CommaToken] else []) + [Text(c)]);
    assert (if comma then all[2..] else all[1..]) == [Text(c)];
    ParamsOne(c);
    assert [b] + [c] == [b, c];
  }

  lemma {:induction false} ParamsTail(ts: seq<Token>, k: nat, more: seq<Token>, rest: seq<seq<Out>>, c: seq<Out>)
    requires |ts| > 1 && ts[0].Text? && k == (if ts[1].CommaToken? then 2 else 1)
    requires Params(ts[k..] + more) == Some(rest + [c])
    ensures Params(ts + more) == Some([ts[0].content] + rest + [c])
  {
    var all := ts + more;
    assert all[0] == ts[0] && all[1] == ts[1] && all[k..] == ts[k..] + more;
    assert [ts[0].content] + (rest + [c]) == [ts[0].content] + rest + [c];
  }

  /** Rows with or without separators between them are read as the same rows. */
  lemma {:induction false} RowsRead(rows: seq<seq<real>>, seps: seq<bool>)
    requires |seps| == |rows| && (rows != [] ==> !seps[0])
    ensures Params(RowTokens(rows, seps)) == Some(Contents(rows))
    ensures rows != [] ==> RowTokens(rows, seps) != [] && RowTokens(rows, seps)[|RowTokens(rows, seps)| - 1].Text?
  {
    if rows != [] {
      var n := |rows| - 1;
      RowsRead(rows[..n], seps[..n]);
      ParamsAppend(RowTokens(rows[..n], seps[..n]), Contents(rows[..n]), seps[n], Joined(rows[n]));
      assert Contents(rows) == Contents(rows[..n]) + [Joined(rows[n])];
    }
  }

  // --- The order of writing -----------------------------------------------------

  ghost predicate Inside(max: seq<nat>, stride: seq<nat>, n: nat) {
    && |max| == |stride| && AllPositive(max)
    && forall ix {:trigger InBox(ix, max)} :: InBox(ix, max) ==> Dot(ix, stride) < n
  }

  /** The entries in row-major order of the index vectors, in the unit of the file. */
  ghost function RowMajor(max: seq<nat>, stride: seq<nat>, values: seq<real>, unit: real): (all: seq<real>)
    requires Inside(max, stride, |values|) && unit != 0.0
    ensures |all| == Product(max)
  {
    seq(Product(max), r requires 0 <= r < Product(max) => EntryAt(r, max, stride, values, unit))
  }

  ghost function EntryAt(r: nat, max: seq<nat>, stride: seq<nat>, values: seq<real>, unit: real): real
    requires Inside(max, stride, |values|) && unit != 0.0 && r < Product(max)
  {
    DigitsRank(r, max);
    values[Dot(Digits(r, max), stride)] / unit
  }

  lemma {:induction false} EntryOfIndex(ix: seq<nat>, max: seq<nat>, stride: seq<nat>, values: seq<real>, unit: real)
    requires Inside(max, stride, |values|) && unit != 0.0 && InBox(ix, max)
    ensures Rank(ix, max) < Product(max)
    ensures RowMajor(max, stride, values, unit)[Rank(ix, max)] == values[Dot(ix, stride)] / unit
  {
    RankBelow(ix, max);
    RankDigits(ix, max);
  }

  // The first digit and the rank of the others.
  lemma {:induction false} RankHead(ix: seq<nat>, sizes: seq<nat>)
    requires InBox(ix, sizes) && ix != []
    ensures InBox(ix[1..], sizes[1..])
    ensures Rank(ix, sizes) == Rank(ix[1..], sizes[1..]) * sizes[0] + ix[0]
  {
    var n := |ix| - 1;
    if n == 0 {
      RankSnoc([], ix[0], [], sizes[0], 1);
      assert [] + [ix[0]] == ix && [] + [sizes[0]] == sizes;
    } else {
      RankHead(ix[..n], sizes[..n]);
      assert ix[..n][1..] == ix[1..][..n - 1] && sizes[..n][1..] == sizes[1..][..n - 1];
      HeadStep(ix, sizes, n);
    }
  }

  lemma {:induction false} HeadStep(ix: seq<nat>, sizes: seq<nat>, n: nat)
    requires InBox(ix, sizes) && |ix| == n + 1 && n > 0
    requires Rank(ix[..n], sizes[..n]) == Rank(ix[1..][..n - 1], sizes[1..][..n - 1]) * sizes[0] + ix[0]
    ensures Rank(ix, sizes) == Rank(ix[1..], sizes[1..]) * sizes[0] + ix[0]
  {
    RankLast(ix, sizes, n);
    RankLast(ix[1..], sizes[1..], n - 1);
    ProductRemove(sizes[..n], 0);
    assert Remove(sizes[..n], 0) == sizes[1..][..n - 1];
    HeadOut(Rank(ix[1..][..n - 1], sizes[1..][..n - 1]), sizes[0], ix[n], Product(sizes[1..][..n - 1]));
  }

  lemma {:induction false} RankLast(ix: seq<nat>, sizes: seq<nat>, n: nat)
    requires InBox(ix, sizes) && |ix| == n + 1
    ensures InBox(ix[..n], sizes[..n]) && Rank(ix, sizes) == Rank(ix[..n], sizes[..n]) + ix[n] * Product(sizes[..n])
  {
    RankSnoc(ix[..n], ix[n], sizes[..n], sizes[n], Product(sizes[..n]));
    assert ix[..n] + [ix[n]] == ix && sizes[..n] + [sizes[n]] == sizes;
  }

  lemma {:induction false} HeadOut(r: nat, s: nat, i: nat, p: nat)
    ensures r * s + i * (p * s) == (r + i * p) * s
  {
  }

  /** How far the writing is: closed rows, which of them follow a separator, and the open row. */
  datatype Progress = Progress(rows: seq<seq<real>>, seps: seq<bool>, cur: seq<real>, sep: bool)

  ghost predicate Written(out: seq<Out>, p: Progress) {
    && |p.seps| == |p.rows| && (p.rows != [] ==> !p.seps[0]) && (p.rows == [] || p.cur == [] ==> !p.sep)
    && Lex(out) == Lexing(RowTokens(p.rows, p.seps) + (if p.sep then [CommaToken] else []),
                          if p.cur == [] then None else Some(Joined(p.cur)))
  }

  /** What one turn of the loop writes. */
  function Turn(ix: seq<nat>, max: seq<nat>, v: real): (o: seq<Out>)
    requires |ix| == |max|
  {
    (if |max| > 1 && ix[0] == 0 && ix[1] > 0 then [Separator] else [])
    + (if |max| > 0 then [if ix[0] == 0 then Quote else Comma] else [])
    + [Value(v)]
    + (if |max| > 0 && ix[0] + 1 == max[0] then [Quote] else [])
  }

  ghost function OpenRow(p: Progress, sep: bool, v: real): Progress {
    Progress(p.rows, p.seps, p.cur + [v], if p.cur == [] then sep else p.sep)
  }

  ghost function CloseRow(p: Progress): Progress {
    Progress(p.rows + [p.cur], p.seps + [p.sep], [], false)
  }

  lemma {:induction false} SeparatorWritten(out: seq<Out>, p: Progress, sep: bool)
    requires Written(out, p) && p.cur == []
    ensures Lex(out + (if sep then [Separator] else []))
            == Lexing(RowTokens(p.rows, p.seps) + (if sep then [CommaToken] else []), None)
  {
    var ts := RowTokens(p.rows, p.seps);
    assert ts + [] == ts && out + [] == out;
    LexSnoc(out, Separator);
  }

  lemma {:induction false} OpenWritten(out: seq<Out>, p: Progress, sep: bool, v: real)
    requires Written(out, p) && (sep ==> p.rows != [] && p.cur == [])
    ensures Written(out + (if sep then [Separator] else []) + [if p.cur == [] then Quote else Comma] + [Value(v)], OpenRow(p, sep, v))
  {
    var o := out + (if sep then [Separator] else []);
    assert (p.cur + [v])[..|p.cur|] == p.cur;
    if p.cur == [] {
      SeparatorWritten(out, p, sep);
      LexSnoc(o, Quote);
      LexSnoc(o + [Quote], Value(v));
      assert [] + [Value(v)] == Joined([v]) && [] + [v] == [v];
    } else {
      assert o == out;
      LexSnoc(out, Comma);
      LexSnoc(out + [Comma], Value(v));
      assert Joined(p.cur) + [Comma] + [Value(v)] == Joined(p.cur + [v]);
    }
  }

  lemma {:induction false} CloseWritten(out: seq<Out>, p: Progress)
    requires Written(out, p) && p.cur != []
    ensures Written(out + [Quote], CloseRow(p))
    ensures Flat(CloseRow(p).rows) == Flat(p.rows) + p.cur
  {
    LexSnoc(out, Quote);
    var q := CloseRow(p);
    assert q.rows[..|p.rows|] == p.rows && q.seps[..|p.rows|] == p.seps;
    assert RowTokens(q.rows, q.seps) + [] == RowTokens(q.rows, q.seps);
  }

  ghost predicate Separated(seps: seq<bool>, max: seq<nat>) {
    AllPositive(max) && forall i :: 0 <= i < |seps| ==> (seps[i] <==> SeparatorAt(i, max))
  }

  // Row i starts behind a separator unless the second index is zero there.
  ghost predicate SeparatorAt(i: nat, max: seq<nat>)
    requires AllPositive(max)
  {
    |max| > 1 && i % max[1] != 0
  }

  /** After n turns: full rows, the values in order, separators where they belong. */
  ghost predicate Counted(p: Progress, max: seq<nat>, all: seq<real>, n: nat) {
    && AllPositive(max) && max != [] && n <= |all|
    && Separated(p.seps, max) && |p.seps| == |p.rows|
    && (forall i :: 0 <= i < |p.rows| ==> |p.rows[i]| == max[0])
    && (p.cur != [] ==> (p.sep <==> SeparatorAt(|p.rows|, max)))
    && n == |p.rows| * max[0] + |p.cur|
    && Flat(p.rows) + p.cur == all[..n]
  }

  ghost predicate Reached(out: seq<Out>, p: Progress, max: seq<nat>, all: seq<real>, n: nat) {
    Written(out, p) && Counted(p, max, all, n) && |p.cur| < max[0]
  }

  ghost function After(p: Progress, max: seq<nat>, v: real): Progress
    requires max != [] && AllPositive(max)
  {
    var q := OpenRow(p, SeparatorAt(|p.rows|, max) && p.cur == [], v);
    if |q.cur| == max[0] then CloseRow(q) else q
  }

  // The digits of the index vector are the position in the row and the row's number.
  lemma {:induction false} RowOfIndex(ix: seq<nat>, max: seq<nat>, rows: nat, cur: nat)
    requires InBox(ix, max) && max != [] && AllPositive(max) && cur < max[0] && Rank(ix, max) == rows * max[0] + cur
    ensures cur == ix[0] && (|max| > 1 ==> (ix[1] > 0 <==> SeparatorAt(rows, max)))
  {
    RankHead(ix, max);
    QuotientUnique(max[0], rows, cur, Rank(ix[1..], max[1..]), ix[0]);
    if |max| > 1 {
      RankHead(ix[1..], max[1..]);
      RemainderIs(rows, Rank(ix[2..], max[2..]), max[1], ix[1]);
      assert ix[1..][1..] == ix[2..] && max[1..][1..] == max[2..];
    }
  }

  lemma {:induction false} RemainderIs(r: nat, q: nat, m: nat, i: nat)
    requires i < m && r == q * m + i
    ensures r % m == i
  {
    QuotientUnique(m, q, i, r / m, r % m);
  }

  lemma {:induction false} OpenCounted(p: Progress, max: seq<nat>, all: seq<real>, n: nat, sep: bool)
    requires Counted(p, max, all, n) && n < |all| && (sep <==> SeparatorAt(|p.rows|, max) && p.cur == [])
    ensures Counted(OpenRow(p, sep, all[n]), max, all, n + 1)
  {
    assert Flat(p.rows) + (p.cur + [all[n]]) == all[..n + 1];
  }

  lemma {:induction false} CloseCounted(p: Progress, max: seq<nat>, all: seq<real>, n: nat)
    requires Counted(p, max, all, n) && |p.cur| == max[0] && Flat(CloseRow(p).rows) == Flat(p.rows) + p.cur
    ensures Counted(CloseRow(p), max, all, n)
  {
    StepUp(|p.rows|, max[0]);
    assert Flat(CloseRow(p).rows) + [] == Flat(CloseRow(p).rows);
  }

  lemma {:induction false} TurnIs(out: seq<Out>, ix: seq<nat>, max: seq<nat>, sep: bool, first: bool, last: bool, v: real)
    requires |ix| == |max| > 0
    requires sep <==> |max| > 1 && ix[0] == 0 && ix[1] > 0
    requires (first <==> ix[0] == 0) && (last <==> ix[0] + 1 == max[0])
    ensures out + Turn(ix, max, v) == out + (if sep then [Separator] else []) + [if first then Quote else Comma] + [Value(v)]
                                      + (if last then [Quote] else [])
  {
  }

  lemma {:induction false} TurnReaches(out: seq<Out>, p: Progress, max: seq<nat>, all: seq<real>, n: nat, ix: seq<nat>)
    requires Reached(out, p, max, all, n) && n < |all| && InBox(ix, max) && Rank(ix, max) == n
    ensures Reached(out + Turn(ix, max, all[n]), After(p, max, all[n]), max, all, n + 1)
  {
    RowOfIndex(ix, max, |p.rows|, |p.cur|);
    var sep := SeparatorAt(|p.rows|, max) && p.cur == [];
    TurnIs(out, ix, max, sep, p.cur == [], |p.cur| + 1 == max[0], all[n]);
    ZeroRemainder(if |max| > 1 then max[1] else 1);
    ItemsReach(out, p, max, all, n, sep);
  }

  lemma {:induction false} ItemsReach(out: seq<Out>, p: Progress, max: seq<nat>, all: seq<real>, n: nat, sep: bool)
    requires Reached(out, p, max, all, n) && n < |all|
    requires (sep <==> SeparatorAt(|p.rows|, max) && p.cur == []) && (sep ==> p.rows != [])
    ensures Reached(out + (if sep then [Separator] else []) + [if p.cur == [] then Quote else Comma] + [Value(all[n])]
                    + (if |p.cur| + 1 == max[0] then [Quote] else []), After(p, max, all[n]), max, all, n + 1)
  {
    var q := OpenRow(p, sep, all[n]);
    var o := out + (if sep then [Separator] else []) + [if p.cur == [] then Quote else Comma] + [Value(all[n])];
    OpenWritten(out, p, sep, all[n]);
    OpenCounted(p, max, all, n, sep);
    if |q.cur| == max[0] {
      CloseWritten(o, q);
      CloseCounted(q, max, all, n + 1);
    } else {
      assert o + [] == o;
    }
  }

  lemma {:induction false} ZeroRemainder(m: nat)
    requires m > 0
    ensures 0 % m == 0
  {
  }

  lemma {:induction false} AllReached(out: seq<Out>, p: Progress, max: seq<nat>, all: seq<real>)
    requires Reached(out, p, max, all, |all|) && |all| == Product(max)
    ensures p.cur == [] && Flat(p.rows) == all
    ensures ReadBack(out) == Some(all) && Lex(out) == Lexing(RowTokens(p.rows, p.seps), None)
  {
    ProductRemove(max, 0);
    QuotientUnique(max[0], |p.rows|, |p.cur|, Product(Remove(max, 0)), 0);
    assert Flat(p.rows) + [] == Flat(p.rows) && all[..|all|] == all;
    assert RowTokens(p.rows, p.seps) + [] == RowTokens(p.rows, p.seps);
    RowsRead(p.rows, p.seps);
    ContentsFields(p.rows);
  }

  // --- Writing ------------------------------------------------------------------------

  ghost predicate Wf(t: Table) {
    && |t.variables| == |t.indices| == |t.strides| == 3
    && Inside(Used(t.variables, NumIndices(t.indices)), Used(t.variables, t.strides), |t.values|)
  }

  /** The values that a file holds for a table. */
  ghost function FileValues(t: Table, unit: real): (all: seq<real>)
    requires Wf(t) && unit != 0.0
  {
    RowMajor(Used(t.variables, NumIndices(t.indices)), Used(t.variables, t.strides), t.values, unit)
  }

  // The state of the writing after n turns; without axes there is only one.
  ghost predicate Turned(out: seq<Out>, p: Progress, max: seq<nat>, all: seq<real>, n: nat) {
    && |all| == Product(max) && n <= |all|
    && if max == [] then out == (if n == 0 then [] else [Value(all[0])]) else Reached(out, p, max, all, n)
  }

  lemma {:induction false} TurnedStart(max: seq<nat>, all: seq<real>)
    requires |all| == Product(max) && AllPositive(max)
    ensures Turned([], Progress([], [], [], false), max, all, 0)
  {
  }

  lemma {:induction false} TurnedStep(out: seq<Out>, p: Progress, max: seq<nat>, all: seq<real>, n: nat, ix: seq<nat>)
    returns (q: Progress)
    requires Turned(out, p, max, all, n) && n < |all| && InBox(ix, max) && Rank(ix, max) == n
    ensures Turned(out + Turn(ix, max, all[n]), q, max, all, n + 1)
  {
    q := p;
    if max != [] {
      TurnReaches(out, p, max, all, n, ix);
      q := After(p, max, all[n]);
    }
  }

  lemma {:induction false} TurnedAll(out: seq<Out>, p: Progress, max: seq<nat>, all: seq<real>)
    returns (rows: seq<seq<real>>, seps: seq<bool>)
    requires Turned(out, p, max, all, |all|) && AllPositive(max)
    ensures ReadBack(out) == Some(all)
    ensures |seps| == |rows| && Lex(out) == Lexing(RowTokens(rows, seps), None)
    ensures max != [] ==> (forall i :: 0 <= i < |rows| ==> |rows[i]| == max[0]) && Separated(seps, max)
  {
    if max == [] {
      rows, seps := [all], [false];
      ScalarRead(all);
    } else {
      rows, seps := p.rows, p.seps;
      AllReached(out, p, max, all);
    }
  }

  // Sizes and strides of the axes in use, the last axis first.
  method CollectAxes(t: Table) returns (max: seq<nat>, stride: seq<nat>)
    requires |t.variables| == |t.indices| == |t.strides|
    ensures max == Used(t.variables, NumIndices(t.indices)) && stride == Used(t.variables, t.strides)
  {
    max, stride := [], [];
    var n := NumIndices(t.indices);
    var u := |t.variables|;
    assert t.variables[..u] == t.variables && n[..u] == n && t.strides[..u] == t.strides;
    assert max + Used(t.variables[..u], n[..u]) == Used(t.variables, n);
    while u > 0
      invariant u <= |t.variables|
      invariant max + Used(t.variables[..u], n[..u]) == Used(t.variables, n)
      invariant stride + Used(t.variables[..u], t.strides[..u]) == Used(t.variables, t.strides)
    {
      u := u - 1;
      UsedStep(t.variables, n, u, max);
      UsedStep(t.variables, t.strides, u, stride);
      if t.variables[u] != NoVariable {
        max, stride := max + [|t.indices[u]|], stride + [t.strides[u]];
      }
    }
  }

  lemma {:induction false} UsedStep<T>(vs: seq<Variable>, xs: seq<T>, u: nat, acc: seq<T>)
    requires u < |vs| == |xs|
    ensures acc + Used(vs[..u + 1], xs[..u + 1])
            == (if vs[u] != NoVariable then acc + [xs[u]] else acc) + Used(vs[..u], xs[..u])
  {
    assert vs[..u + 1][..u] == vs[..u] && xs[..u + 1][..u] == xs[..u];
  }

  /** The body of `values(...)`: every entry once, in row-major order whatever the strides, a row
      of the last axis per text; a row starts behind a separator unless its second index is zero. */
  method WriteValues(t: Table, unit: real) returns (out: seq<Out>, ghost rows: seq<seq<real>>, ghost seps: seq<bool>)
    requires Wf(t) && unit != 0.0
    ensures ReadBack(out) == Some(FileValues(t, unit))
    ensures |seps| == |rows| && Lex(out) == Lexing(RowTokens(rows, seps), None)
    ensures var max := Used(t.variables, NumIndices(t.indices));
            max != [] ==> (forall i :: 0 <= i < |rows| ==> |rows[i]| == max[0]) && Separated(seps, max)
  {
    hide Packed, Turned;
    var max, stride := CollectAxes(t);
    ghost var all := FileValues(t, unit);
    var index := new nat[|max|](_ => 0);
    DotZero(index[..], Canonical(max));
    ProductPositive(max);
    out := [];
    ghost var p := Progress([], [], [], false);
    ghost var n := 0;
    TurnedStart(max, all);
    var carry := false;
    while !carry
      invariant fresh(index) && InBox(index[..], max)
      invariant n <= |all| && (carry <==> n == |all|) && (!carry ==> Rank(index[..], max) == n)
      invariant Turned(out, p, max, all, n)
      decreases |all| - n
    {
      out, carry, p := WriteNext(out, max, stride, t.values, unit, index, p, all, n);
      n := n + 1;
    }
    rows, seps := TurnedAll(out, p, max, all);
  }

  method WriteNext(before: seq<Out>, max: seq<nat>, stride: seq<nat>, values: seq<real>, unit: real, index: array<nat>,
                   ghost p: Progress, ghost all: seq<real>, ghost n: nat) returns (out: seq<Out>, carry: bool, ghost q: Progress)
    requires InBox(index[..], max) && Inside(max, stride, |values|) && unit != 0.0 && all == RowMajor(max, stride, values, unit)
    requires n < |all| && Rank(index[..], max) == n && Turned(before, p, max, all, n)
    modifies index
    ensures InBox(index[..], max) && (carry <==> n + 1 == |all|) && (!carry ==> Rank(index[..], max) == n + 1)
    ensures Turned(out, q, max, all, n + 1)
  {
    hide Turned, Packed, Turn;
    EntryOfIndex(index[..], max, stride, values, unit);
    q := TurnedStep(before, p, max, all, n, index[..]);
    out, carry := WriteTurn(before, max, stride, values, unit, index);
  }

  // One turn of the loop.
  method WriteTurn(before: seq<Out>, max: seq<nat>, stride: seq<nat>, values: seq<real>, unit: real, index: array<nat>)
    returns (out: seq<Out>, carry: bool)
    requires InBox(index[..], max) && Inside(max, stride, |values|) && unit != 0.0
    modifies index
    ensures out == before + Turn(old(index[..]), max, values[Dot(old(index[..]), stride)] / unit)
    ensures InBox(index[..], max)
    ensures carry <==> Rank(old(index[..]), max) + 1 == Product(max)
    ensures !carry ==> Rank(index[..], max) == Rank(old(index[..]), max) + 1
  {
    out := before;
    if |max| > 1 && index[0] == 0 && index[1] > 0 {
      out := out + [Separator];
    }
    if |max| > 0 {
      out := out + [if index[0] == 0 then Quote else Comma];
    }
    var idx := Offset(index, stride);
    out := out + [Value(values[idx] / unit)];
    if |max| > 0 && index[0] + 1 == max[0] {
      out := out + [Quote];
    }
    carry := Advance(index, max);
  }

  // A table without axes is a single bare number.
  lemma {:induction false} ScalarRead(all: seq<real>)
    requires |all| == 1
    ensures Lex([Value(all[0])]) == Lexing(RowTokens([all], [false]), None)
    ensures ReadBack([Value(all[0])]) == Some(all)
  {
    assert Lex([]) == Lexing([], None) && [Value(all[0])][..0] == [];
    assert RowTokens([], []) + [] + [Text(Joined(all))] == [Text([Value(all[0])])];
    ParamsOne(Joined(all));
    JoinedFields(all);
    assert [all[0]] == all;
    assert AllFields([]) == Some([]) && [] + all == all && [Joined(all)][..0] == [];
  }

  // --- Reading --------------------------------------------------------------------------

  datatype Units = Units(time: real, cap: real)

  // What an index is divided by when written, and multiplied with when read.
  function WriteUnit(v: Variable, units: Units): real {
    match v
    case TimeVariable => units.time
    case CapVariable => units.cap
    case LengthVariable => 0.000000001
    case NoVariable => 1.0
  }

  function ReadUnit(v: Variable, units: Units): real {
    match v
    case TimeVariable => units.time
    case CapVariable => units.cap
    case _ => 1.0
  }

  function Times(xs: seq<real>, unit: real): (r: seq<real>)
    ensures |r| == |xs| && forall i :: 0 <= i < |xs| ==> r[i] == xs[i] * unit
  {
    seq(|xs|, i requires 0 <= i < |xs| => xs[i] * unit)
  }

  function ReadIndices(variables: seq<Variable>, indices: seq<seq<real>>, units: Units): (r: seq<seq<real>>)
    requires |variables| == |indices|
    ensures |r| == |indices| && NumIndices(r) == NumIndices(indices)
  {
    seq(|indices|, u requires 0 <= u < |indices| =>
      if variables[u] == NoVariable then indices[u] else Times(indices[u], ReadUnit(variables[u], units)))
  }

  /** The first axis is there, and none behind a missing one. */
  predicate AxesInOrder(indices: seq<seq<real>>)
    requires |indices| == 3
  {
    indices[0] != [] && (indices[1] != [] ==> indices[0] != []) && (indices[2] != [] ==> indices[1] != [])
  }

  /** Each axis in use steps over all the entries of the used axes behind it. */
  function ReadStrides(variables: seq<Variable>, n: seq<nat>): (s: seq<nat>)
    requires |variables| == |n|
    ensures |s| == |n|
  {
    seq(|n|, i requires 0 <= i < |n| =>
      if variables[i] == NoVariable then 0 else Product(Used(variables[i + 1..], n[i + 1..])))
  }

  function Assembled(variables: seq<Variable>, indices: seq<seq<real>>, params: seq<seq<Out>>, units: Units): (r: Option<Table>)
    requires |variables| == |indices| == 3
  {
    var values, n := AllFields(params), NumIndices(indices);
    if !AxesInOrder(indices) || values.None? || |values.value| != Product(Used(variables, n)) then None
    else Some(Table(variables, ReadIndices(variables, indices, units), ReadStrides(variables, n), Times(values.value, units.time)))
  }

  /** The table that the reader makes of the axes and texts of a group, or an error. */
  method AssembleTable(variables: seq<Variable>, indices: seq<seq<real>>, params: seq<seq<Out>>, units: Units) returns (r: Option<Table>)
    requires |variables| == |indices| == 3
    ensures r == Assembled(variables, indices, params, units)
  {
    if indices[0] == [] || (indices[1] != [] && indices[0] == []) || (indices[2] != [] && indices[1] == []) {
      return None;
    }
    var scaled := ScaleIndices(variables, indices, units);
    var values, u := [], 0;
    assert params[..0] == [];
    while u < |params|
      invariant u <= |params| && AllFields(params[..u]) == Some(values)
    {
      var more := ParseRealFields(params[u]);
      assert params[..u + 1][..u] == params[..u];
      if more.None? {
        AllFieldsFail(params, u + 1);
        return None;
      }
      values := values + more.value;
      u := u + 1;
    }
    assert params[..u] == params;
    var strides, count := ComputeStrides(variables, NumIndices(indices));
    if count != |values| {
      return None;
    }
    r := Some(Table(variables, scaled, strides, Times(values, units.time)));
  }

  lemma {:induction false} AllFieldsFail(cs: seq<seq<Out>>, n: nat)
    requires n <= |cs| && AllFields(cs[..n]).None?
    ensures AllFields(cs).None?
    decreases |cs|
  {
    if n == |cs| {
      assert cs[..n] == cs;
    } else {
      assert cs[..|cs| - 1][..n] == cs[..n];
      AllFieldsFail(cs[..|cs| - 1], n);
    }
  }

  method ScaleIndices(variables: seq<Variable>, indices: seq<seq<real>>, units: Units) returns (r: seq<seq<real>>)
    requires |variables| == |indices|
    ensures r == ReadIndices(variables, indices, units)
  {
    r := indices;
    var u := 0;
    while u < |variables|
      invariant u <= |variables| && |r| == |indices|
      invariant forall k :: 0 <= k < u ==> r[k] == ReadIndices(variables, indices, units)[k]
      invariant forall k :: u <= k < |r| ==> r[k] == indices[k]
    {
      if variables[u] != NoVariable {
        var unit := ReadUnit(variables[u], units);
        var v, xs := 0, indices[u];
        while v < |xs|
          invariant v <= |xs| == |indices[u]|
          invariant forall k :: 0 <= k < |xs| ==> xs[k] == (if k < v then indices[u][k] * unit else indices[u][k])
        {
          xs := xs[v := xs[v] * unit];
          v := v + 1;
        }
        ScaledIs(xs, indices[u], unit);
        r := r[u := xs];
      }
      u := u + 1;
    }
  }

  lemma {:induction false} ScaledIs(ys: seq<real>, xs: seq<real>, unit: real)
    requires |ys| == |xs| && forall k :: 0 <= k < |ys| ==> ys[k] == xs[k] * unit
    ensures ys == Times(xs, unit)
  {
  }

  /** One text: values with commas between them. */
  method ParseRealFields(c: seq<Out>) returns (r: Option<seq<real>>)
    ensures r == Fields(c)
  {
    var into, k := [], 0;
    assert c[0..] == c && (Fields(c).Some? ==> [] + Fields(c).value == Fields(c).value);
    while k < |c|
      invariant k <= |c|
      invariant Fields(c) == (if Fields(c[k..]).Some? then Some(into + Fields(c[k..]).value) else None)
    {
      if !c[k].Value? {
        return None;
      }
      FieldStep(c, k, into);
      into, k := into + [c[k].v], k + 1;
      if k < |c| {
        if c[k] != Comma {
          return None;
        }
        k := k + 1;
      }
    }
    assert c[k..] == [] && into + [] == into;
    r := Some(into);
  }

  lemma {:induction false} FieldStep(c: seq<Out>, k: nat, into: seq<real>)
    requires k < |c| && c[k].Value?
    ensures k + 1 < |c| && c[k + 1] != Comma ==> Fields(c[k..]).None?
    ensures k + 1 == |c| || c[k + 1] == Comma ==>
      var rest := Fields(c[if k + 1 < |c| then k + 2 else k + 1..]);
      if rest.None? then Fields(c[k..]).None?
      else Fields(c[k..]).Some? && into + Fields(c[k..]).value == into + [c[k].v] + rest.value
  {
    if k + 1 < |c| {
      assert c[k..][2..] == c[k + 2..];
    } else {
      assert c[k + 1..] == [] && Fields([]) == Some([]);
    }
  }

  /** Strides and number of values, last axis first. */
  method ComputeStrides(variables: seq<Variable>, n: seq<nat>) returns (strides: seq<nat>, stride: nat)
    requires |variables| == |n|
    ensures strides == ReadStrides(variables, n) && stride == Product(Used(variables, n))
  {
    strides := seq(|n|, _ => 0);
    stride := 1;
    var i := |n|;
    assert variables[i..] == [] && n[i..] == [];
    while i > 0
      invariant i <= |n| == |strides|
      invariant stride == Product(Used(variables[i..], n[i..]))
      invariant forall k :: 0 <= k < i ==> strides[k] == 0
      invariant forall k :: i <= k < |n| ==> strides[k] == ReadStrides(variables, n)[k]
    {
      i := i - 1;
      CountStep(variables, n, i);
      if variables[i] != NoVariable {
        strides := strides[i := stride];
        stride := stride * n[i];
      }
    }
    assert variables[0..] == variables && n[0..] == n;
  }

  lemma {:induction false} CountStep(vs: seq<Variable>, n: seq<nat>, i: nat)
    requires i < |vs| == |n|
    ensures Product(Used(vs[i..], n[i..])) == Product(Used(vs[i + 1..], n[i + 1..])) * (if vs[i] != NoVariable then n[i] else 1)
  {
    var rest := Used(vs[i + 1..], n[i + 1..]);
    UsedFront(vs[i..], n[i..]);
    assert vs[i..][1..] == vs[i + 1..] && n[i..][1..] == n[i + 1..];
    assert rest + [] == rest;
    ProductSnoc(rest, n[i]);
  }

  lemma {:induction false} ProductSnoc(sizes: seq<nat>, size: nat)
    ensures Product(sizes + [size]) == Product(sizes) * size
  {
    assert (sizes + [size])[..|sizes|] == sizes && (sizes + [size])[..|sizes| + 1] == sizes + [size];
    ProductStep(sizes + [size], |sizes|);
  }

  lemma {:induction false} UsedFront<T>(vs: seq<Variable>, xs: seq<T>)
    requires |vs| == |xs| > 0
    ensures Used(vs, xs) == Used(vs[1..], xs[1..]) + (if vs[0] != NoVariable then [xs[0]] else [])
  {
    var n := |vs| - 1;
    if n > 0 {
      UsedFront(vs[..n], xs[..n]);
      assert vs[..n][1..] == vs[1..][..n - 1] && xs[..n][1..] == xs[1..][..n - 1];
    } else {
      assert vs[..0] == [] && vs[1..] == [];
    }
  }

  // --- The round trip ---------------------------------------------------------------------

  /** The strides that the reader computes are those of the row-major order. */
  lemma {:induction false} ReadStridesCanonical(variables: seq<Variable>, n: seq<nat>)
    requires |variables| == |n|
    ensures Used(variables, ReadStrides(variables, n)) == Canonical(Used(variables, n))
  {
    if n != [] {
      var s, sizes := ReadStrides(variables, n), Used(variables[1..], n[1..]);
      UsedFront(variables, s);
      UsedFront(variables, n);
      forall i | 0 <= i < |n| - 1 ensures s[1..][i] == ReadStrides(variables[1..], n[1..])[i] {
        assert variables[1..][i + 1..] == variables[i + 2..] && n[1..][i + 1..] == n[i + 2..];
      }
      assert s[1..] == ReadStrides(variables[1..], n[1..]);
      ReadStridesCanonical(variables[1..], n[1..]);
      if variables[0] != NoVariable {
        CanonicalPrefix(sizes + [n[0]], |sizes|);
        assert (sizes + [n[0]])[..|sizes|] == sizes;
        assert Canonical(sizes + [n[0]]) == Canonical(sizes) + [Product(sizes)];
      } else {
        assert sizes + [] == sizes;
      }
    }
  }

  /** The indices as written, axes not in use being left out. */
  function FileIndices(t: Table, units: Units): (r: seq<seq<real>>)
    requires |t.variables| == |t.indices| && units.time != 0.0 && units.cap != 0.0
    ensures |r| == |t.indices|
  {
    seq(|t.indices|, u requires 0 <= u < |t.indices| =>
      if t.variables[u] == NoVariable then []
      else seq(|t.indices[u]|, v requires 0 <= v < |t.indices[u]| => t.indices[u][v] / WriteUnit(t.variables[u], units)))
  }

  // The sizes of the axes in use survive the writing.
  lemma {:induction false} FileSizes(vs: seq<Variable>, xs: seq<seq<real>>, ys: seq<seq<real>>)
    requires |vs| == |xs| == |ys| && forall u :: 0 <= u < |vs| && vs[u] != NoVariable ==> |xs[u]| == |ys[u]|
    ensures Used(vs, NumIndices(xs)) == Used(vs, NumIndices(ys))
  {
    if vs != [] {
      var n := |vs| - 1;
      FileSizes(vs[..n], xs[..n], ys[..n]);
      assert NumIndices(xs)[..n] == NumIndices(xs[..n]) && NumIndices(ys)[..n] == NumIndices(ys[..n]);
    }
  }

  lemma {:induction false} UsedPositive(vs: seq<Variable>, n: seq<nat>, u: nat)
    requires |vs| == |n| && u < |vs| && vs[u] != NoVariable && AllPositive(Used(vs, n))
    ensures n[u] > 0
  {
    var k := |vs| - 1;
    var head := if vs[k] != NoVariable then [n[k]] else [];
    var tail := Used(vs[..k], n[..k]);
    assert Used(vs, n) == head + tail;
    if u < k {
      assert forall i :: 0 <= i < |tail| ==> tail[i] == (head + tail)[|head| + i];
      UsedPositive(vs[..k], n[..k], u);
    } else {
      assert (head + tail)[0] == n[u];
    }
  }

  // The axes as read: those in use hold what was written, the others anything.
  ghost predicate HoldsFile(t: Table, units: Units, indices: seq<seq<real>>)
    requires |t.variables| == |t.indices| && units.time != 0.0 && units.cap != 0.0
  {
    && |indices| == |t.variables|
    && forall u :: 0 <= u < |t.variables| && t.variables[u] != NoVariable ==> indices[u] == FileIndices(t, units)[u]
  }

  /** The assembly takes what was written exactly when the axes are in order, and the result is
      the same function of the index vectors. */
  lemma {:induction false} RoundTrip(t: Table, units: Units, out: seq<Out>, params: seq<seq<Out>>, indices: seq<seq<real>>, r: Option<Table>)
    requires Wf(t) && units.time != 0.0 && units.cap != 0.0 && HoldsFile(t, units, indices)
    requires Lex(out).open.None? && Params(Lex(out).toks) == Some(params)
    requires ReadBack(out) == Some(FileValues(t, units.time))
    requires r == Assembled(t.variables, indices, params, units)
    ensures r.Some? <==> AxesInOrder(indices)
    ensures r.Some? ==>
      && Used(r.value.variables, NumIndices(r.value.indices)) == Used(t.variables, NumIndices(t.indices))
      && forall ix {:trigger InBox(ix, Used(t.variables, NumIndices(t.indices)))} ::
           InBox(ix, Used(t.variables, NumIndices(t.indices))) ==> SameEntry(t, r.value, ix)
  {
    FileSizes(t.variables, t.indices, indices);
    if r.Some? {
      var max := Used(t.variables, NumIndices(t.indices));
      ReadStridesCanonical(t.variables, NumIndices(indices));
      forall ix {:trigger InBox(ix, max)} | InBox(ix, max) ensures SameEntry(t, r.value, ix) {
        EntryReturns(ix, max, Used(t.variables, t.strides), t.values, units.time);
      }
    }
  }

  /** With no other indices than those written, the axes are in order exactly when those in use
      come first and there is one. */
  lemma {:induction false} FileInOrder(t: Table, units: Units)
    requires Wf(t) && units.time != 0.0 && units.cap != 0.0
    ensures AxesInOrder(FileIndices(t, units))
            <==> t.variables[0] != NoVariable && (t.variables[2] != NoVariable ==> t.variables[1] != NoVariable)
  {
    forall u | 0 <= u < 3 && t.variables[u] != NoVariable ensures |t.indices[u]| > 0 {
      UsedPositive(t.variables, NumIndices(t.indices), u);
    }
  }

  lemma {:induction false} EntryReturns(ix: seq<nat>, max: seq<nat>, stride: seq<nat>, values: seq<real>, unit: real)
    requires Inside(max, stride, |values|) && unit != 0.0 && InBox(ix, max)
    ensures |ix| == |stride| && Dot(ix, stride) < |values| && Dot(ix, Canonical(max)) < Product(max)
    ensures Times(RowMajor(max, stride, values, unit), unit)[Dot(ix, Canonical(max))] == values[Dot(ix, stride)]
  {
    EntryOfIndex(ix, max, stride, values, unit);
    DivideTimes(values[Dot(ix, stride)], unit);
  }

  ghost predicate SameEntry(t: Table, r: Table, ix: seq<nat>)
    requires |t.variables| == |t.strides| && |r.variables| == |r.strides|
  {
    var s, s' := Used(t.variables, t.strides), Used(r.variables, r.strides);
    && |ix| == |s| == |s'|
    && Dot(ix, s) < |t.values| && Dot(ix, s') < |r.values| && r.values[Dot(ix, s')] == t.values[Dot(ix, s)]
  }

  /** An index comes back exactly when it is not a length, for which only the writer has a unit, or zero. */
  lemma {:induction false} IndexRoundTrip(t: Table, units: Units, u: nat, v: nat)
    requires |t.variables| == |t.indices| && units.time != 0.0 && units.cap != 0.0
    requires u < |t.variables| && t.variables[u] != NoVariable && v < |t.indices[u]|
    ensures var back := ReadIndices(t.variables, FileIndices(t, units), units);
            |back[u]| == |t.indices[u]|
            && (back[u][v] == t.indices[u][v] <==> t.variables[u] != LengthVariable || t.indices[u][v] == 0.0)
  {
    DivideTimes(t.indices[u][v], WriteUnit(t.variables[u], units));
  }

  /** A net length of one comes back as a thousand million. */
  lemma {:induction false} LengthIndexExample()
    ensures var t := Table([LengthVariable, NoVariable, NoVariable], [[1.0], [], []], [1, 0, 0], [0.0]);
            var units := Units(1.0, 1.0);
            ReadIndices(t.variables, FileIndices(t, units), units)[0] == [1000000000.0]
  {
    var t, units := Table([LengthVariable, NoVariable, NoVariable], [[1.0], [], []], [1, 0, 0], [0.0]), Units(1.0, 1.0);
    OneIndexWritten(t, units, 0);
    assert Times([1000000000.0], 1.0) == [1000000000.0];
  }

  lemma {:induction false} OneIndexWritten(t: Table, units: Units, u: nat)
    requires u < |t.variables| == |t.indices| && |t.indices[u]| == 1 && t.variables[u] != NoVariable && units.time != 0.0 && units.cap != 0.0
    ensures FileIndices(t, units)[u] == [t.indices[u][0] / WriteUnit(t.variables[u], units)]
  {
  }

  lemma {:induction false} DivideTimes(x: real, unit: real)
    requires unit != 0.0
    ensures x / unit * unit == x
  {
  }

  // --- Order and units in the file --------------------------------------------------------

  lemma {:induction false} TwoUsed<T>(vs: seq<Variable>, xs: seq<T>)
    requires |vs| == |xs| == 3 && vs[0] != NoVariable && vs[1] != NoVariable && vs[2] == NoVariable
    ensures Used(vs, xs) == [xs[1], xs[0]]
  {
    assert vs[..2][..1] == vs[..1] && xs[..2][..1] == xs[..1];
    assert Used(vs[..1], xs[..1]) == [xs[0]];
    assert Used(vs[..2], xs[..2]) == [xs[1], xs[0]];
  }

  lemma {:induction false} TwoDot(i: nat, j: nat, s: nat, t: nat)
    ensures Dot([j, i], [s, t]) == j * s + i * t
  {
    assert [j, i][..1] == [j] && [s, t][..1] == [s] && [j][..0] == [] && [s][..0] == [];
    assert Dot([j], [s]) == j * s;
  }

  lemma {:induction false} TwoRank(i: nat, j: nat, m: nat, n: nat)
    ensures Rank([j, i], [n, m]) == i * n + j
  {
    assert [n, m][..0] == [] && [n, m][..1] == [n] && [n][..0] == [];
    assert Product([n]) == n;
    assert Canonical([n, m]) == [1, n];
    TwoDot(i, j, 1, n);
  }

  lemma {:induction false} TwoEntry(max: seq<nat>, stride: seq<nat>, values: seq<real>, unit: real, i: nat, j: nat)
    requires |max| == |stride| == 2 && Inside(max, stride, |values|) && unit != 0.0 && i < max[1] && j < max[0]
    ensures i * max[0] + j < Product(max) && j * stride[0] + i * stride[1] < |values|
    ensures RowMajor(max, stride, values, unit)[i * max[0] + j] == values[j * stride[0] + i * stride[1]] / unit
  {
    hide RowMajor, Inside, Rank, Dot;
    var ix := [j, i];
    assert max == [max[0], max[1]] && stride == [stride[0], stride[1]];
    TwoRank(i, j, max[1], max[0]);
    TwoDot(i, j, stride[0], stride[1]);
    EntryOfIndex(ix, max, stride, values, unit);
    InsideDot(ix, max, stride, |values|);
  }

  lemma {:induction false} InsideDot(ix: seq<nat>, max: seq<nat>, stride: seq<nat>, n: nat)
    requires Inside(max, stride, n) && InBox(ix, max)
    ensures |ix| == |stride| && Dot(ix, stride) < n
  {
  }

  /** With two axes in use the file holds the rows of the first axis one after the other, each
      along the second, wherever the entries are in memory. */
  lemma {:induction false} WrittenInRows(t: Table, unit: real, i: nat, j: nat)
    requires Wf(t) && unit != 0.0 && t.variables[0] != NoVariable && t.variables[1] != NoVariable && t.variables[2] == NoVariable
    requires i < |t.indices[0]| && j < |t.indices[1]|
    ensures i * |t.indices[1]| + j < |FileValues(t, unit)| && j * t.strides[1] + i * t.strides[0] < |t.values|
    ensures FileValues(t, unit)[i * |t.indices[1]| + j] == t.values[j * t.strides[1] + i * t.strides[0]] / unit
  {
    hide RowMajor, Inside, Used;
    var n := NumIndices(t.indices);
    TwoUsed(t.variables, n);
    TwoUsed(t.variables, t.strides);
    TwoEntry([n[1], n[0]], [t.strides[1], t.strides[0]], t.values, unit, i, j);
  }

  lemma {:induction false} TwoStrides(vs: seq<Variable>, n: seq<nat>)
    requires |vs| == |n| == 3 && vs[0] != NoVariable && vs[1] != NoVariable && vs[2] == NoVariable
    ensures ReadStrides(vs, n)[1] == 1 && ReadStrides(vs, n)[0] == n[1] && Product(Used(vs, n)) == n[1] * n[0]
  {
    hide Used, Product;
    assert vs[3..] == [] && n[3..] == [] && vs[0..] == vs && n[0..] == n;
    NoneUsedYet();
    CountStep(vs, n, 2);
    CountStep(vs, n, 1);
    CountStep(vs, n, 0);
  }

  lemma {:induction false} NoneUsedYet()
    ensures Product(Used<nat>([], [])) == 1
  {
  }

  /** The reader takes the values in the same order, in units of time. */
  lemma {:induction false} ReadInRows(variables: seq<Variable>, indices: seq<seq<real>>, params: seq<seq<Out>>, units: Units, i: nat, j: nat)
    requires |variables| == |indices| == 3 && variables[0] != NoVariable && variables[1] != NoVariable && variables[2] == NoVariable
    requires i < |indices[0]| && j < |indices[1]| && Assembled(variables, indices, params, units).Some?
    ensures var r := Assembled(variables, indices, params, units).value;
            && |r.strides| == 3 && r.strides[1] == 1 && r.strides[0] == |indices[1]|
            && i * |indices[1]| + j < |r.values| == |AllFields(params).value|
            && r.values[i * |indices[1]| + j] == AllFields(params).value[i * |indices[1]| + j] * units.time
  {
    hide ReadStrides, Used, Product, AllFields;
    TwoStrides(variables, NumIndices(indices));
    InRows(i, j, |indices[0]|, |indices[1]|);
  }

  lemma {:induction false} InRows(i: nat, j: nat, m: nat, n: nat)
    requires i < m && j < n
    ensures i * n + j < n * m
  {
    StepUp(i, n);
    MulMonotone(i + 1, m, n);
  }

  /** An index is divided by its unit on the way out and multiplied with it on the way in; only
      the writer has a unit of length. */
  lemma {:induction false} UnitsOfAxes(t: Table, units: Units, indices: seq<seq<real>>, u: nat, v: nat)
    requires |t.variables| == |t.indices| == |indices| && units.time != 0.0 && units.cap != 0.0
    requires u < |t.variables| && v < |t.indices[u]| && v < |indices[u]| && t.variables[u] != NoVariable
    ensures var file, back := FileIndices(t, units)[u], ReadIndices(t.variables, indices, units)[u];
            && |file| == |t.indices[u]| && |back| == |indices[u]|
            && (t.variables[u] == TimeVariable ==> file[v] == t.indices[u][v] / units.time && back[v] == indices[u][v] * units.time)
            && (t.variables[u] == CapVariable ==> file[v] == t.indices[u][v] / units.cap && back[v] == indices[u][v] * units.cap)
            && (t.variables[u] == LengthVariable ==> file[v] == t.indices[u][v] / 0.000000001 && back[v] == indices[u][v])
  {
    assert FileIndices(t, units)[u][v] == t.indices[u][v] / WriteUnit(t.variables[u], units);
    assert ReadIndices(t.variables, indices, units)[u][v] == indices[u][v] * ReadUnit(t.variables[u], units);
  }
}
