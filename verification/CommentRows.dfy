/** The row form of a documentation comment. */
module CommentRows {
  import opened Wrappers
  import Sequences

  // `to_comment_fields` and `from_comment_fields` of src/cpp/comment/fields.cpp, and the second decoder,
  // `model_from_fields` of src/clangquill/comments.py.

  datatype Param = Param(name: string, description: string, direction: string)
  datatype Pair = Pair(arg: string, description: string)  // a return value or an exception
  datatype Row = Row(name: string, arg: string, value: string)

  /** The comment model; the fields that hold a plain list of strings are kept under their row names. */
  datatype Model = Model(brief: string, returned: string, params: seq<Param>, tparams: seq<Param>,
                         retvals: seq<Pair>, throws: seq<Pair>,
                         lists: map<string, seq<string>>, custom: map<string, seq<string>>)

  /** The field table, in its order. */
  function Fields(): seq<string> {
    ["brief", "detail", "param", "tparam", "returns", "retval", "throws", "see", "since", "deprecated",
     "note", "warning", "pre", "post", "invariant", "todo", "bug", "author", "version", "date"]
  }

  datatype Shape = Brief | Returns | Params | Tparams | Retvals | Throws | Texts | Unlisted

  function ShapeOf(name: string): Shape {
    if name == "brief" then Brief
    else if name == "param" then Params
    else if name == "tparam" then Tparams
    else if name == "returns" then Returns
    else if name == "retval" then Retvals
    else if name == "throws" then Throws
    else if name in Fields() then Texts
    else Unlisted
  }

  function TextFields(): set<string> { set f | f in Fields() && ShapeOf(f) == Texts }

  ghost predicate Valid(m: Model) { m.lists.Keys == TextFields() }

  function Empty(): Model { Model("", "", [], [], [], [], map f | f in TextFields() :: [], map[]) }

  /** `encode_param_arg`. */
  function EncodeArg(p: Param): string { if p.direction == "" then p.name else "[" + p.direction + "] " + p.name }

  function Find(s: string, c: char): (r: Option<nat>)
    ensures match r case None => c !in s case Some(i) => i < |s| && s[i] == c && c !in s[..i]
  {
    if s == "" then None
    else if s[0] == c then Some(0)
    else match Find(s[1..], c) case None => None case Some(i) => assert s[..i + 1] == [s[0]] + s[1..][..i]; Some(i + 1)
  }

  predicate Canonical(direction: string) { direction == "in" || direction == "out" || direction == "in,out" }

  function SkipSpaces(s: string): string { if s != "" && s[0] == ' ' then SkipSpaces(s[1..]) else s }

  /** `split_param_arg`. */
  function SplitArg(arg: string): (string, string) {
    if arg == "" || arg[0] != '[' then (arg, "")
    else
      match Find(arg, ']')
      case None => (arg, "")
      case Some(close) =>
        var direction := arg[1..close];
        if !Canonical(direction) then (arg, "") else (SkipSpaces(arg[close + 1..]), direction)
  }

  function Decoded(arg: string, value: string): Param {
    var (name, direction) := SplitArg(arg);
    Param(name, value, direction)
  }

  function Recoded(p: Param): Param { Decoded(EncodeArg(p), p.description) }

  function RecodedAll(ps: seq<Param>): seq<Param> { seq(|ps|, i requires 0 <= i < |ps| => Recoded(ps[i])) }

  // ---- encoding ----

  function ScalarRows(name: string, v: string): seq<Row> { if v == "" then [] else [Row(name, "", v)] }
  function TextRows(name: string, vs: seq<string>): seq<Row> {
    seq(|vs|, i requires 0 <= i < |vs| => Row(name, "", vs[i]))
  }
  function ParamRows(name: string, ps: seq<Param>): seq<Row> {
    seq(|ps|, i requires 0 <= i < |ps| => Row(name, EncodeArg(ps[i]), ps[i].description))
  }
  function PairRows(name: string, ps: seq<Pair>): seq<Row> {
    seq(|ps|, i requires 0 <= i < |ps| => Row(name, ps[i].arg, ps[i].description))
  }

  function TextsOf(m: Model, name: string): seq<string> { if name in m.lists then m.lists[name] else [] }

  /** One field of the table. */
  function FieldRows(m: Model, name: string): seq<Row> {
    match ShapeOf(name)
    case Brief => ScalarRows(name, m.brief)
    case Returns => ScalarRows(name, m.returned)
    case Params => ParamRows(name, m.params)
    case Tparams => ParamRows(name, m.tparams)
    case Retvals => PairRows(name, m.retvals)
    case Throws => PairRows(name, m.throws)
    case Texts => TextRows(name, TextsOf(m, name))
    case Unlisted => []
  }

  function TableRows(m: Model, fs: seq<string>): seq<Row> {
    if fs == [] then [] else TableRows(m, fs[..|fs| - 1]) + FieldRows(m, fs[|fs| - 1])
  }

  function CustomRows(custom: map<string, seq<string>>, keys: seq<string>): seq<Row>
    requires forall i | 0 <= i < |keys| :: keys[i] in custom
  {
    if keys == [] then []
    else CustomRows(custom, keys[..|keys| - 1]) + TextRows(keys[|keys| - 1], custom[keys[|keys| - 1]])
  }

  /** Every key once, in the order the map is walked. */
  ghost predicate Walks(keys: seq<string>, custom: map<string, seq<string>>) {
    && (forall i | 0 <= i < |keys| :: keys[i] in custom)
    && (forall k <- custom :: k in keys)
    && forall i, j | 0 <= i < j < |keys| :: keys[i] != keys[j]
  }

  /** `to_comment_fields`, in ordinal order. */
  ghost function ToRows(m: Model, keys: seq<string>): seq<Row>
    requires Walks(keys, m.custom)
  {
    TableRows(m, Fields()) + CustomRows(m.custom, keys)
  }

  method Flatten(m: Model, name: string, rows0: seq<Row>) returns (rows: seq<Row>)
    ensures rows == rows0 + FieldRows(m, name)
  {
    hide EncodeArg;
    rows := rows0;
    match ShapeOf(name)
    case Brief =>
      if m.brief != "" { rows := rows + [Row(name, "", m.brief)]; }
    case Returns =>
      if m.returned != "" { rows := rows + [Row(name, "", m.returned)]; }
    case Params =>
      rows := FlattenParams(name, m.params, rows);
    case Tparams =>
      rows := FlattenParams(name, m.tparams, rows);
    case Retvals =>
      rows := FlattenPairs(name, m.retvals, rows);
    case Throws =>
      rows := FlattenPairs(name, m.throws, rows);
    case Texts =>
      rows := FlattenTexts(name, TextsOf(m, name), rows);
    case Unlisted =>
  }

  method FlattenTexts(name: string, vs: seq<string>, rows0: seq<Row>) returns (rows: seq<Row>)
    ensures rows == rows0 + TextRows(name, vs)
  {
    rows := rows0;
    for i := 0 to |vs|
      invariant rows == rows0 + TextRows(name, vs[..i])
    {
      rows := rows + [Row(name, "", vs[i])];
    }
    assert vs[..|vs|] == vs;
  }

  method FlattenParams(name: string, ps: seq<Param>, rows0: seq<Row>) returns (rows: seq<Row>)
    ensures rows == rows0 + ParamRows(name, ps)
  {
    hide EncodeArg;
    rows := rows0;
    for i := 0 to |ps|
      invariant rows == rows0 + ParamRows(name, ps[..i])
    {
      rows := rows + [Row(name, EncodeArg(ps[i]), ps[i].description)];
    }
    assert ps[..|ps|] == ps;
  }

  method FlattenPairs(name: string, ps: seq<Pair>, rows0: seq<Row>) returns (rows: seq<Row>)
    ensures rows == rows0 + PairRows(name, ps)
  {
    rows := rows0;
    for i := 0 to |ps|
      invariant rows == rows0 + PairRows(name, ps[..i])
    {
      rows := rows + [Row(name, ps[i].arg, ps[i].description)];
    }
    assert ps[..|ps|] == ps;
  }

  /** `to_comment_fields`; `keys` lists the custom map in its iteration order. */
  method ToCommentFields(m: Model, keys: seq<string>) returns (rows: seq<Row>)
    requires Walks(keys, m.custom)
    ensures rows == ToRows(m, keys)
  {
    hide FieldRows, TextRows;
    rows := [];
    for i := 0 to |Fields()|
      invariant rows == TableRows(m, Fields()[..i])
    {
      rows := Flatten(m, Fields()[i], rows);
      assert Fields()[..i + 1][..i] == Fields()[..i];
    }
    assert Fields()[..|Fields()|] == Fields();
    ghost var table := rows;
    Sequences.AddNothing(table);
    for i := 0 to |keys|
      invariant rows == table + CustomRows(m.custom, keys[..i])
    {
      rows := FlattenTexts(keys[i], m.custom[keys[i]], rows);
      assert keys[..i + 1][..i] == keys[..i];
      Sequences.Assoc(table, CustomRows(m.custom, keys[..i]), TextRows(keys[i], m.custom[keys[i]]));
    }
    assert keys[..|keys|] == keys;
  }

  // ---- decoding ----

  function Push(custom: map<string, seq<string>>, name: string, v: string): map<string, seq<string>> {
    custom[name := (if name in custom then custom[name] else []) + [v]]
  }

  function AbsorbText(m: Model, r: Row): Model {
    if r.name in m.lists then m.(lists := m.lists[r.name := m.lists[r.name] + [r.value]]) else m
  }

  /** One row, back into the field it came from. */
  function Absorb(m: Model, r: Row): Model {
    match ShapeOf(r.name)
    case Brief => m.(brief := r.value)
    case Returns => m.(returned := r.value)
    case Params => m.(params := m.params + [Decoded(r.arg, r.value)])
    case Tparams => m.(tparams := m.tparams + [Decoded(r.arg, r.value)])
    case Retvals => m.(retvals := m.retvals + [Pair(r.arg, r.value)])
    case Throws => m.(throws := m.throws + [Pair(r.arg, r.value)])
    case Texts => AbsorbText(m, r)
    case Unlisted => m.(custom := Push(m.custom, r.name, r.value))
  }

  function AbsorbAll(m: Model, rows: seq<Row>): Model {
    if rows == [] then m else Absorb(AbsorbAll(m, rows[..|rows| - 1]), rows[|rows| - 1])
  }

  function FromRows(rows: seq<Row>): Model { AbsorbAll(Empty(), rows) }

  /** `from_comment_fields`: the field table is tried in its order, what no entry claims is custom. */
  method FromCommentFields(rows: seq<Row>) returns (m: Model)
    ensures m == FromRows(rows)
  {
    hide Decoded, Fields, ShapeOf, Empty, Push;
    m := Empty();
    for i := 0 to |rows|
      invariant m == AbsorbAll(Empty(), rows[..i])
    {
      assert rows[..i + 1][..i] == rows[..i];
      var r := rows[i];
      var at := 0;
      while at < |Fields()| && r.name != Fields()[at]
        invariant at <= |Fields()| && forall k | 0 <= k < at :: r.name != Fields()[k]
      {
        at := at + 1;
      }
      Claimed(r.name, at);
      if at == |Fields()| {
        m := m.(custom := Push(m.custom, r.name, r.value));
        continue;
      }
      m := Absorb(m, r);
    }
    assert rows[..|rows|] == rows;
  }

  lemma Claimed(name: string, at: nat)
    requires at <= |Fields()| && (forall k | 0 <= k < at :: name != Fields()[k]) &&
        (at < |Fields()| ==> name == Fields()[at])
    ensures at == |Fields()| <==> ShapeOf(name) == Unlisted
  {
    FieldShapes(name);
    hide Fields, ShapeOf;
    assert at < |Fields()| ==> Fields()[at] in Fields();
  }

  lemma FieldShapes(name: string)
    ensures name in Fields() <==> ShapeOf(name) != Unlisted
  {
    NamedFields();
    hide Fields;
  }

  lemma NamedFields()
    ensures "brief" in Fields() && "param" in Fields() && "tparam" in Fields()
    ensures "returns" in Fields() && "retval" in Fields() && "throws" in Fields()
  {
    var fs := Fields();
    assert fs[0] == "brief" && fs[2] == "param" && fs[3] == "tparam";
    assert fs[4] == "returns" && fs[5] == "retval" && fs[6] == "throws";
  }

  /** Some field among fs has this shape. */
  ghost predicate Has(fs: seq<string>, shape: Shape) { exists i | 0 <= i < |fs| :: ShapeOf(fs[i]) == shape }

  lemma HasAdd(fs: seq<string>, name: string, shape: Shape)
    ensures Has(fs + [name], shape) <==> Has(fs, shape) || ShapeOf(name) == shape
  {
    hide ShapeOf;
    var all := fs + [name];
    assert all[|fs|] == name;
    if i :| 0 <= i < |fs| && ShapeOf(fs[i]) == shape {
      assert all[i] == fs[i];
    }
  }

  lemma OneFieldPerShape(fs: seq<string>, name: string)
    requires name !in fs && ShapeOf(name) != Texts && ShapeOf(name) != Unlisted
    ensures !Has(fs, ShapeOf(name))
  {
    hide Fields;
    forall i | 0 <= i < |fs| ensures ShapeOf(fs[i]) != ShapeOf(name) {
      assert fs[i] != name;
    }
  }

  lemma HasAll()
    ensures Has(Fields(), Brief) && Has(Fields(), Params) && Has(Fields(), Tparams)
    ensures Has(Fields(), Returns) && Has(Fields(), Retvals) && Has(Fields(), Throws)
  {
    var fs := Fields();
    assert ShapeOf(fs[0]) == Brief && ShapeOf(fs[2]) == Params && ShapeOf(fs[3]) == Tparams;
    assert ShapeOf(fs[4]) == Returns && ShapeOf(fs[5]) == Retvals && ShapeOf(fs[6]) == Throws;
  }

  lemma TextFieldsAre(name: string)
    ensures name in TextFields() <==> ShapeOf(name) == Texts
  {
    FieldShapes(name);
    hide Fields, ShapeOf;
  }

  /** The Python model object. */
  class CommentModel {
    var brief: string
    var returned: string
    var params: seq<Param>
    var tparams: seq<Param>
    var retvals: seq<Pair>
    var throws: seq<Pair>
    var lists: map<string, seq<string>>
    var custom: map<string, seq<string>>

    ghost function Value(): Model
      reads this
    {
      Model(brief, returned, params, tparams, retvals, throws, lists, custom)
    }

    constructor ()
      ensures Value() == Empty()
    {
      brief, returned, params, tparams, retvals, throws := "", "", [], [], [], [];
      lists, custom := map f | f in TextFields() :: [], map[];
    }

    /** One turn of the loop of `model_from_fields`. */
    method Route(name: string, arg: string, value: string)
      modifies this
      ensures Value() == Absorb(old(Value()), Row(name, arg, value))
    {
      hide SplitArg, Push, Fields;
      if name == "brief" {
        brief := value;
      } else if name == "returns" {
        returned := value;
      } else if name == "param" {
        var (pname, direction) := SplitArg(arg);
        params := params + [Param(pname, value, direction)];
      } else if name == "tparam" {
        var (pname, direction) := SplitArg(arg);
        tparams := tparams + [Param(pname, value, direction)];
      } else if name == "retval" {
        retvals := retvals + [Pair(arg, value)];
      } else if name == "throws" {
        throws := throws + [Pair(arg, value)];
      } else if name in Fields() {
        if name in lists {
          lists := lists[name := lists[name] + [value]];
        }
      } else {
        custom := Push(custom, name, value);
      }
    }
  }

  /** `model_from_fields` decodes every row list as the C++ decoder does. */
  method ModelFromFields(rows: seq<Row>) returns (model: CommentModel)
    ensures fresh(model) && model.Value() == FromRows(rows)
  {
    hide Absorb, Empty;
    model := new CommentModel();
    for i := 0 to |rows|
      invariant fresh(model) && model.Value() == AbsorbAll(Empty(), rows[..i])
    {
      assert rows[..i + 1][..i] == rows[..i];
      model.Route(rows[i].name, rows[i].arg, rows[i].value);
    }
    assert rows[..|rows|] == rows;
  }

  // ---- parameters ----

  /** A name that the decoder takes for a directed parameter. */
  predicate ReadsDirected(name: string) { "[in]" <= name || "[out]" <= name || "[in,out]" <= name }

  predicate ParamSafe(p: Param) {
    if p.direction == "" then !ReadsDirected(p.name)
    else Canonical(p.direction) && (p.name == "" || p.name[0] != ' ')
  }

  lemma {:induction false} FindIs(s: string, c: char, n: nat)
    requires n < |s| && s[n] == c && c !in s[..n]
    ensures Find(s, c) == Some(n)
  {
    if n > 0 {
      assert s[..n] == [s[0]] + s[1..][..n - 1];
      FindIs(s[1..], c, n - 1);
    }
  }

  lemma SplitDirected(direction: string, rest: string)
    requires Canonical(direction)
    ensures SplitArg("[" + direction + "]" + rest) == (SkipSpaces(rest), direction)
  {
    var arg := "[" + direction + "]" + rest;
    var n := |direction| + 1;
    assert arg[n] == ']';
    assert forall i | 0 <= i < |direction| :: direction[i] != ']' && arg[i + 1] == direction[i];
    assert ']' !in arg[..n];
    FindIs(arg, ']', n);
    assert arg[1..n] == direction && arg[n + 1..] == rest;
  }

  /** The decoder sees a direction exactly in front of a bracketed one. */
  lemma SplitExactlyWhen(arg: string)
    ensures SplitArg(arg).1 != "" <==> ReadsDirected(arg)
    ensures SplitArg(arg).1 == "" ==> SplitArg(arg).0 == arg
    ensures SplitArg(arg).1 == "" || Canonical(SplitArg(arg).1)
  {
    if ReadsDirected(arg) {
      var d := if "[in]" <= arg then "in" else if "[out]" <= arg then "out" else "in,out";
      assert "[" + d + "]" <= arg;
      var head := "[" + d + "]";
      assert |head| == |d| + 2 && arg[..|head|] == head;
      assert arg == head + arg[|head|..];
      SplitDirected(d, arg[|d| + 2..]);
    } else if arg != "" && arg[0] == '[' && Find(arg, ']').Some? {
      var close := Find(arg, ']').value;
      assert arg[..close + 1] == "[" + arg[1..close] + "]";
    }
  }

  lemma SkipSpacesKeeps(s: string)
    ensures SkipSpaces(" " + s) == s <==> s == "" || s[0] != ' '
  {
    assert (" " + s)[1..] == s;
    if s != "" && s[0] == ' ' {
      SkipSpacesShortens(s);
    } else if s != "" {
      SkipSpacesShorter(s);
    }
  }

  lemma {:induction false} SkipSpacesShorter(s: string)
    ensures |SkipSpaces(s)| <= |s|
  {
    if s != "" && s[0] == ' ' {
      SkipSpacesShorter(s[1..]);
    }
  }

  lemma SkipSpacesShortens(s: string)
    requires s != "" && s[0] == ' '
    ensures |SkipSpaces(s)| < |s|
  {
    SkipSpacesShorter(s[1..]);
  }

  /** A parameter survives the one slot its row has exactly when its direction is canonical and its name can be
      told from the direction. */
  lemma ParamRoundTrip(p: Param)
    ensures Recoded(p) == p <==> ParamSafe(p)
  {
    SplitExactlyWhen(EncodeArg(p));
    if p.direction != "" && Canonical(p.direction) {
      assert EncodeArg(p) == "[" + p.direction + "]" + (" " + p.name);
      SplitDirected(p.direction, " " + p.name);
      SkipSpacesKeeps(p.name);
    }
  }

  // ---- the round trip ----

  /** The models that survive being stored as rows. */
  ghost predicate RowSafe(m: Model) {
    && (forall i | 0 <= i < |m.params| :: ParamSafe(m.params[i]))
    && (forall i | 0 <= i < |m.tparams| :: ParamSafe(m.tparams[i]))
    && CustomSafe(m.custom)
  }

  ghost predicate CustomSafe(custom: map<string, seq<string>>) {
    forall k <- custom :: custom[k] != [] && k !in Fields()
  }

  lemma AbsorbAdd(m: Model, rows: seq<Row>, r: Row)
    ensures AbsorbAll(m, rows + [r]) == Absorb(AbsorbAll(m, rows), r)
  {
    Sequences.Added(rows, r);
  }

  lemma {:induction false} AbsorbConcat(m: Model, a: seq<Row>, b: seq<Row>)
    ensures AbsorbAll(m, a + b) == AbsorbAll(AbsorbAll(m, a), b)
  {
    if b == [] {
      assert a + b == a;
    } else {
      hide Absorb;
      assert (a + b)[..|a + b| - 1] == a + b[..|b| - 1];
      AbsorbConcat(m, a, b[..|b| - 1]);
    }
  }

  lemma {:induction false} AbsorbParams(m: Model, name: string, ps: seq<Param>)
    requires ShapeOf(name) == Params || ShapeOf(name) == Tparams
    ensures AbsorbAll(m, ParamRows(name, ps)) == if ShapeOf(name) == Params then m.(params := m.params + RecodedAll(ps))
                                                 else m.(tparams := m.tparams + RecodedAll(ps))
  {
    hide Decoded, EncodeArg, ShapeOf;
    if ps != [] {
      var init, p := ps[..|ps| - 1], ps[|ps| - 1];
      AbsorbParams(m, name, init);
      assert ParamRows(name, ps) == ParamRows(name, init) + [Row(name, EncodeArg(p), p.description)];
      AbsorbAdd(m, ParamRows(name, init), Row(name, EncodeArg(p), p.description));
      assert RecodedAll(ps) == RecodedAll(init) + [Recoded(p)];
    }
  }

  lemma {:induction false} AbsorbPairs(m: Model, name: string, ps: seq<Pair>)
    requires ShapeOf(name) == Retvals || ShapeOf(name) == Throws
    ensures AbsorbAll(m, PairRows(name, ps)) == if ShapeOf(name) == Retvals then m.(retvals := m.retvals + ps)
                                                else m.(throws := m.throws + ps)
  {
    hide ShapeOf;
    if ps != [] {
      var init, p := ps[..|ps| - 1], ps[|ps| - 1];
      AbsorbPairs(m, name, init);
      assert PairRows(name, ps) == PairRows(name, init) + [Row(name, p.arg, p.description)];
      AbsorbAdd(m, PairRows(name, init), Row(name, p.arg, p.description));
      hide AbsorbAll, PairRows;
      Sequences.ButLast(ps);
    }
  }

  lemma SetTwice(m: map<string, seq<string>>, k: string, v: seq<string>, w: seq<string>)
    ensures m[k := v][k := w] == m[k := w] && (k in m ==> m[k := m[k]] == m)
  {
  }

  lemma {:induction false} AbsorbTexts(m: Model, name: string, vs: seq<string>)
    requires ShapeOf(name) == Texts && name in m.lists
    ensures AbsorbAll(m, TextRows(name, vs)) == m.(lists := m.lists[name := m.lists[name] + vs])
  {
    hide ShapeOf;
    if vs == [] {
      Sequences.AddNothing(m.lists[name]);
      SetTwice(m.lists, name, [], []);
    } else {
      var init, v := vs[..|vs| - 1], vs[|vs| - 1];
      AbsorbTexts(m, name, init);
      assert TextRows(name, vs) == TextRows(name, init) + [Row(name, "", v)];
      AbsorbAdd(m, TextRows(name, init), Row(name, "", v));
      hide AbsorbAll;
      assert m.lists[name] + vs == m.lists[name] + init + [v];
      SetTwice(m.lists, name, m.lists[name] + init, m.lists[name] + vs);
    }
  }

  lemma {:induction false} AbsorbCustom(m: Model, name: string, vs: seq<string>)
    requires ShapeOf(name) == Unlisted && vs != [] && name !in m.custom
    ensures AbsorbAll(m, TextRows(name, vs)) == m.(custom := m.custom[name := vs])
  {
    hide ShapeOf;
    var init, v := vs[..|vs| - 1], vs[|vs| - 1];
    assert TextRows(name, vs) == TextRows(name, init) + [Row(name, "", v)];
    AbsorbAdd(m, TextRows(name, init), Row(name, "", v));
    Sequences.ButLast(vs);
    if init == [] {
      assert TextRows(name, init) == [] && AbsorbAll(m, []) == m;
    } else {
      AbsorbCustom(m, name, init);
      hide AbsorbAll;
      SetTwice(m.custom, name, init, vs);
    }
  }

  /** What the decoder makes of the fields fs alone. */
  ghost function Only(m: Model, fs: seq<string>): Model {
    Model(if Has(fs, Brief) then m.brief else "", if Has(fs, Returns) then m.returned else "",
          if Has(fs, Params) then RecodedAll(m.params) else [], if Has(fs, Tparams) then RecodedAll(m.tparams) else [],
          if Has(fs, Retvals) then m.retvals else [], if Has(fs, Throws) then m.throws else [],
          map f | f in TextFields() :: if f in fs then TextsOf(m, f) else [], map[])
  }

  lemma FieldDecodes(m: Model, fs: seq<string>, name: string)
    requires name !in fs && name in Fields()
    ensures AbsorbAll(Only(m, fs), FieldRows(m, name)) == Only(m, fs + [name])
  {
    var was := Only(m, fs);
    FieldShapes(name);
    TextFieldsAre(name);
    OnlyAdd(m, fs, name);
    if ShapeOf(name) != Texts {
      OneFieldPerShape(fs, name);
    }
    hide ShapeOf, Fields, TextFields, Has, RecodedAll, ParamRows, PairRows, TextRows, ScalarRows, TextsOf, AbsorbAll;
    match ShapeOf(name) {
      case Brief => AbsorbScalar(was, name, m.brief);
      case Returns => AbsorbScalar(was, name, m.returned);
      case Params => AbsorbParams(was, name, m.params); Sequences.AddNothing(RecodedAll(m.params));
      case Tparams => AbsorbParams(was, name, m.tparams); Sequences.AddNothing(RecodedAll(m.tparams));
      case Retvals => AbsorbPairs(was, name, m.retvals); Sequences.AddNothing(m.retvals);
      case Throws => AbsorbPairs(was, name, m.throws); Sequences.AddNothing(m.throws);
      case Texts => AbsorbTexts(was, name, TextsOf(m, name)); Sequences.AddNothing(TextsOf(m, name));
      case Unlisted =>
    }
  }

  lemma AbsorbScalar(m: Model, name: string, v: string)
    requires (ShapeOf(name) == Brief && m.brief == "") || (ShapeOf(name) == Returns && m.returned == "")
    ensures AbsorbAll(m, ScalarRows(name, v)) == if ShapeOf(name) == Brief then m.(brief := v) else m.(returned := v)
  {
    hide ShapeOf;
    if v != "" {
      assert [] + [Row(name, "", v)] == ScalarRows(name, v);
      AbsorbAdd(m, [], Row(name, "", v));
    }
  }

  lemma OnlyAdd(m: Model, fs: seq<string>, name: string)
    requires name !in fs && name in Fields()
    ensures var was := Only(m, fs);
            Only(m, fs + [name]) ==
            match ShapeOf(name)
            case Brief => was.(brief := m.brief)
            case Returns => was.(returned := m.returned)
            case Params => was.(params := RecodedAll(m.params))
            case Tparams => was.(tparams := RecodedAll(m.tparams))
            case Retvals => was.(retvals := m.retvals)
            case Throws => was.(throws := m.throws)
            case Texts => was.(lists := was.lists[name := TextsOf(m, name)])
            case Unlisted => was
  {
    TextFieldsAre(name);
    hide RecodedAll, TextsOf, ShapeOf, TextFields, Has, Fields;
    forall shape ensures Has(fs + [name], shape) <==> Has(fs, shape) || ShapeOf(name) == shape {
      HasAdd(fs, name, shape);
    }
    OnlyAddTexts(m, fs, name);
  }

  lemma OnlyAddTexts(m: Model, fs: seq<string>, name: string)
    requires name !in fs
    ensures Only(m, fs + [name]).lists ==
            if name in TextFields() then Only(m, fs).lists[name := TextsOf(m, name)] else Only(m, fs).lists
  {
    hide TextsOf, ShapeOf, TextFields, Has, Fields;
    assert forall f: string :: f in fs + [name] <==> f in fs || f == name;
  }

  lemma DistinctFields()
    ensures forall i, j | 0 <= i < j < |Fields()| :: Fields()[i] != Fields()[j]
  {
  }

  lemma OnlyNothing(m: Model)
    ensures Only(m, []) == Empty()
  {
    hide ShapeOf, Fields, TextFields;
  }

  lemma TableAdd(m: Model, fs: seq<string>, f: string)
    ensures FromRows(TableRows(m, fs + [f])) == AbsorbAll(FromRows(TableRows(m, fs)), FieldRows(m, f))
  {
    hide FieldRows, Empty, Absorb;
    Sequences.Added(fs, f);
    AbsorbConcat(Empty(), TableRows(m, fs), FieldRows(m, f));
  }

  lemma {:induction false} TableDecodes(m: Model, n: nat)
    requires n <= |Fields()|
    ensures FromRows(TableRows(m, Fields()[..n])) == Only(m, Fields()[..n])
  {
    if n == 0 {
      hide Only, Empty, Fields;
      OnlyNothing(m);
    } else {
      DistinctFields();
      hide *;
      var fs, f := Fields()[..n - 1], Fields()[n - 1];
      assert Fields()[..n] == fs + [f];
      TableDecodes(m, n - 1);
      TableAdd(m, fs, f);
      FieldDecodes(m, fs, f);
    }
  }

  lemma {:induction false} CustomDecodes(m: Model, custom: map<string, seq<string>>, keys: seq<string>)
    requires Walks(keys, custom) && CustomSafe(custom) && m.custom == map[]
    ensures AbsorbAll(m, CustomRows(custom, keys)) == m.(custom := custom)
    decreases |keys|
  {
    if keys == [] {
      assert custom == map[];
    } else {
      hide ShapeOf, Fields, Absorb, AbsorbAll, TextRows, Walks;
      var init, k := keys[..|keys| - 1], keys[|keys| - 1];
      var fewer := custom - {k};
      WalksInit(keys, custom);
      CustomDecodes(m, fewer, init);
      CustomRowsAgree(custom, fewer, init);
      AbsorbConcat(m, CustomRows(custom, init), TextRows(k, custom[k]));
      FieldShapes(k);
      AbsorbCustom(m.(custom := fewer), k, custom[k]);
      PutBack(custom, k);
    }
  }

  lemma PutBack(custom: map<string, seq<string>>, k: string)
    requires k in custom
    ensures (custom - {k})[k := custom[k]] == custom
  {
  }

  lemma WalksInit(keys: seq<string>, custom: map<string, seq<string>>)
    requires keys != [] && Walks(keys, custom)
    ensures var k, fewer := keys[|keys| - 1], custom - {keys[|keys| - 1]};
            && Walks(keys[..|keys| - 1], fewer) && k in custom
            && forall i | 0 <= i < |keys| - 1 :: keys[i] in fewer && keys[i] in custom &&
                fewer[keys[i]] == custom[keys[i]]
  {
    Sequences.ButLast(keys);
  }

  lemma {:induction false} CustomRowsAgree(a: map<string, seq<string>>, b: map<string, seq<string>>, keys: seq<string>)
    requires forall i | 0 <= i < |keys| :: keys[i] in a && keys[i] in b && a[keys[i]] == b[keys[i]]
    ensures CustomRows(a, keys) == CustomRows(b, keys)
  {
    hide TextRows;
    if keys != [] {
      CustomRowsAgree(a, b, keys[..|keys| - 1]);
    }
  }

  /** A custom key is decoded only from rows that no field claims. */
  lemma {:induction false} CustomKeys(m: Model, rows: seq<Row>, k: string)
    requires k in AbsorbAll(m, rows).custom && k !in m.custom
    ensures k !in Fields() && exists i | 0 <= i < |rows| :: rows[i].name == k
  {
    var n := |rows| - 1;
    hide Decoded, Fields;
    if rows[n].name == k && ShapeOf(k) == Unlisted {
      FieldShapes(k);
    } else {
      hide ShapeOf;
      assert k in AbsorbAll(m, rows[..n]).custom;
      CustomKeys(m, rows[..n], k);
    }
  }

  lemma {:induction false} CustomRowsOf(custom: map<string, seq<string>>, keys: seq<string>, i: nat)
    requires (forall i | 0 <= i < |keys| :: keys[i] in custom) && i < |CustomRows(custom, keys)|
    ensures var name := CustomRows(custom, keys)[i].name; name in custom && custom[name] != []
  {
    var n := |keys| - 1;
    if i < |CustomRows(custom, keys[..n])| {
      CustomRowsOf(custom, keys[..n], i);
    }
  }

  lemma {:induction false} TableRowsOf(m: Model, fs: seq<string>, i: nat)
    requires i < |TableRows(m, fs)|
    ensures TableRows(m, fs)[i].name in fs
  {
    var n := |fs| - 1;
    Sequences.ButLast(fs);
    if i < |TableRows(m, fs[..n])| {
      hide FieldRows;
      TableRowsOf(m, fs[..n], i);
    } else {
      hide ShapeOf, EncodeArg;
      var j := i - |TableRows(m, fs[..n])|;
      assert TableRows(m, fs)[i] == FieldRows(m, fs[n])[j];
      FieldRowsOf(m, fs[n], j);
    }
  }

  lemma FieldRowsOf(m: Model, name: string, j: nat)
    requires j < |FieldRows(m, name)|
    ensures FieldRows(m, name)[j].name == name
  {
    hide ShapeOf, EncodeArg;
  }

  lemma DecodedOf(m: Model, keys: seq<string>)
    requires Valid(m) && Walks(keys, m.custom) && CustomSafe(m.custom)
    ensures FromRows(ToRows(m, keys)) == m.(params := RecodedAll(m.params), tparams := RecodedAll(m.tparams))
  {
    TableDecodes(m, |Fields()|);
    assert Fields()[..|Fields()|] == Fields();
    OnlyAll(m);
    hide FieldRows, Absorb, Empty, Only, Fields, RecodedAll, CustomSafe, Walks;
    AbsorbConcat(Empty(), TableRows(m, Fields()), CustomRows(m.custom, keys));
    CustomDecodes(Only(m, Fields()), m.custom, keys);
  }

  lemma OnlyAll(m: Model)
    requires Valid(m)
    ensures Only(m, Fields()) == m.(params := RecodedAll(m.params), tparams := RecodedAll(m.tparams), custom := map[])
  {
    HasAll();
    hide RecodedAll, ShapeOf, Has;
    forall f | f in TextFields() ensures f in Fields() {
    }
    hide Fields, TextFields;
  }

  lemma EmptyHasNoCustom()
    ensures Empty().custom == map[]
  {
    hide Fields, ShapeOf, TextFields;
  }

  lemma SafeKeys(m: Model, keys: seq<string>)
    requires Walks(keys, m.custom) && FromRows(ToRows(m, keys)).custom == m.custom
    ensures CustomSafe(m.custom)
  {
    hide Fields, ShapeOf, Empty, TextFields;
    EmptyHasNoCustom();
    hide ToRows, AbsorbAll;
    var rows := ToRows(m, keys);
    forall k <- m.custom ensures m.custom[k] != [] && k !in Fields() {
      CustomKeys(Empty(), rows, k);
      var i :| 0 <= i < |rows| && rows[i].name == k;
      CustomRow(m, keys, i);
    }
  }

  /** A row that no field claims comes from the custom map. */
  lemma CustomRow(m: Model, keys: seq<string>, i: nat)
    requires Walks(keys, m.custom) && i < |ToRows(m, keys)|
    ensures var name := ToRows(m, keys)[i].name; name !in Fields() ==> name in m.custom && m.custom[name] != []
  {
    var table := TableRows(m, Fields());
    if i < |table| {
      TableRowsOf(m, Fields(), i);
    } else {
      hide Fields;
      CustomRowsOf(m.custom, keys, i - |table|);
    }
  }

  /** A comment is read back from its rows unchanged exactly when it is row-safe. */
  lemma RowRoundTrip(m: Model, keys: seq<string>)
    requires Valid(m) && Walks(keys, m.custom)
    ensures FromRows(ToRows(m, keys)) == m <==> RowSafe(m)
  {
    if FromRows(ToRows(m, keys)) == m {
      SafeKeys(m, keys);
    }
    if CustomSafe(m.custom) {
      DecodedOf(m, keys);
      RecodedAllExactly(m.params);
      RecodedAllExactly(m.tparams);
    }
  }

  lemma RecodedAllExactly(ps: seq<Param>)
    ensures RecodedAll(ps) == ps <==> forall i | 0 <= i < |ps| :: ParamSafe(ps[i])
  {
    hide ParamSafe, Recoded;
    forall i | 0 <= i < |ps| ensures Recoded(ps[i]) == ps[i] <==> ParamSafe(ps[i]) {
      ParamRoundTrip(ps[i]);
    }
    if RecodedAll(ps) == ps {
      assert forall i | 0 <= i < |ps| :: RecodedAll(ps)[i] == ps[i];
    }
  }
}
