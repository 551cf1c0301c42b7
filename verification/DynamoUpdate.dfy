/**
 The UPDATE statement builder (aws/dynamodb/update.go): fields to set, increment or remove become
 one PartiQL statement with positional parameters. Map iteration order is a parameter.
 */
module DynamoUpdates {
  import opened Options
  import opened PartiqlText
  import opened PartiqlEncoder

  // ---------- placeholders outside quotes ----------

  datatype Quote = Outside | Single | Double

  /** How many `?` stand outside quoted text, and where the text leaves off. */
  function Scan(s: string, q: Quote): (nat, Quote)
    decreases |s|
  {
    if s == "" then (0, q)
    else
      var q' := match q
        case Outside => if s[0] == '\'' then Single else if s[0] == '"' then Double else Outside
        case Single => if s[0] == '\'' then Outside else Single
        case Double => if s[0] == '"' then Outside else Double;
      var rest := Scan(s[1..], q');
      (rest.0 + (if q.Outside? && s[0] == '?' then 1 else 0), rest.1)
  }

  lemma {:induction false} ScanSplit(a: string, b: string, q: Quote)
    ensures var x := Scan(a, q); var y := Scan(b, x.1); Scan(a + b, q) == (x.0 + y.0, y.1)
    decreases |a|
  {
    if a == "" {
      assert a + b == b;
    } else {
      assert (a + b)[1..] == a[1..] + b;
      var q' := match q
        case Outside => if a[0] == '\'' then Single else if a[0] == '"' then Double else Outside
        case Single => if a[0] == '\'' then Outside else Single
        case Double => if a[0] == '"' then Outside else Double;
      ScanSplit(a[1..], b, q');
    }
  }

  /** The text has `n` placeholders and is balanced in quotes. */
  ghost predicate Holds(s: string, n: nat) { Scan(s, Outside) == (n, Outside) }

  lemma HoldsSplit(a: string, m: nat, b: string, n: nat)
    requires Holds(a, m) && Holds(b, n)
    ensures Holds(a + b, m + n)
  {
    ScanSplit(a, b, Outside);
  }

  predicate Plain(c: char) { c != '\'' && c != '"' && c != '?' }

  /** A text without quotes and question marks. */
  predicate CleanName(s: string) { forall k :: 0 <= k < |s| ==> Plain(s[k]) }

  /** A name that the scanner passes over: its quotes are balanced and hide its question marks. */
  predicate Neutral(s: string) { Scan(s, Outside) == (0, Outside) }

  lemma {:induction false} CleanHolds(s: string)
    requires CleanName(s)
    ensures Holds(s, 0)
  {
    if s != "" {
      assert Plain(s[0]);
      CleanHolds(s[1..]);
    }
  }

  lemma {:induction false} EscapeStaysQuoted(s: string)
    ensures Scan(Escape(s), Single) == (0, Single)
  {
    if s != "" {
      EscapeStaysQuoted(s[1..]);
      var e := if s[0] == '\'' then "''" else [s[0]];
      if s[0] == '\'' {
        assert "''"[1..] == "'" && "'"[1..] == "";
        assert Scan("", Outside) == (0, Outside) && Scan("'", Outside) == (0, Single);
        assert Scan(e, Single) == (0, Single);
      } else {
        assert [s[0]][1..] == "";
        assert Scan(e, Single) == (0, Single);
      }
      ScanSplit(e, Escape(s[1..]), Single);
    }
  }

  lemma QuotedHolds(s: string)
    ensures Holds("'" + Escape(s) + "'", 0)
  {
    EscapeStaysQuoted(s);
    assert "'"[1..] == "";
    assert Scan("'", Outside) == (0, Single) && Scan("'", Single) == (0, Outside);
    ScanSplit("'", Escape(s), Outside);
    ScanSplit("'" + Escape(s), "'", Outside);
  }

  /** A printed document holds no placeholder: question marks in it are quoted. */
  lemma {:induction false} DocHolds(d: Doc)
    requires Sound(d)
    ensures Holds(Print(d, true), 0)
    decreases d, 1
  {
    match d
    case Num(t) =>
      forall k | 0 <= k < |t| ensures Plain(t[k]) { assert NumChar(t[k]); }
      CleanHolds(t);
    case Bool(b) => CleanHolds(if b then "true" else "false");
    case Str(s) => QuotedHolds(s);
    case Arr(items) => ItemsHold(items); Bracketed("[", PrintItems(items, true), "]");
    case Bag(items) => ItemsHold(items); Bracketed("<<", PrintItems(items, true), ">>");
    case Tuple(fields) => FieldsHold(fields); Bracketed("{", PrintFields(fields, true), "}");
  }

  lemma Bracketed(open: string, body: string, close: string)
    requires CleanName(open) && CleanName(close) && Holds(body, 0)
    ensures Holds(open + body + close, 0)
  {
    CleanHolds(open);
    CleanHolds(close);
    HoldsSplit(open, 0, body, 0);
    HoldsSplit(open + body, 0, close, 0);
  }

  lemma {:induction false} ItemsHold(items: seq<Doc>)
    requires AllSound(items)
    ensures Holds(PrintItems(items, true), 0)
    decreases items, 0
  {
    if items != [] {
      DocHolds(items[0]);
      if |items| > 1 {
        ItemsHold(items[1..]);
        Comma(PrintItems(items[1..], true));
        HoldsSplit(Print(items[0], true), 0, "," + PrintItems(items[1..], true), 0);
      }
      assert Print(items[0], true) + "" == Print(items[0], true);
    }
  }

  lemma Comma(s: string)
    requires Holds(s, 0)
    ensures Holds("," + s, 0)
  {
    CleanHolds(",");
    HoldsSplit(",", 0, s, 0);
  }

  lemma {:induction false} FieldsHold(fields: seq<Pair>)
    requires AllFieldsSound(fields)
    ensures Holds(PrintFields(fields, true), 0)
    decreases fields, 0
  {
    if fields != [] {
      var f := PrintKey(fields[0].key, true) + Print(fields[0].val, true);
      FieldHolds(fields[0]);
      if |fields| > 1 {
        FieldsHold(fields[1..]);
        Comma(PrintFields(fields[1..], true));
        HoldsSplit(f, 0, "," + PrintFields(fields[1..], true), 0);
      }
      assert f + "" == f;
    }
  }

  lemma {:induction false} FieldHolds(p: Pair)
    requires Sound(p.val)
    ensures Holds(PrintKey(p.key, true) + Print(p.val, true), 0)
    decreases p, 0
  {
    QuotedHolds(p.key);
    CleanHolds(":");
    HoldsSplit("'" + Escape(p.key) + "'", 0, ":", 0);
    assert PrintKey(p.key, true) == "'" + Escape(p.key) + "'" + ":";
    DocHolds(p.val);
    HoldsSplit(PrintKey(p.key, true), 0, Print(p.val, true), 0);
  }

  // ---------- what is to be updated ----------

  datatype Param = Opaque(id: nat) | IntParam(i: int) | UintParam(u: nat) | RealParam(x: real) | TimeParam(t: int)

  datatype Spec =
    | SetTo(p: Param)
    | AppendTo(items: seq<Val>)
    | AddTo(items: seq<Val>)
    | DeleteFrom(items: seq<Val>)
    | IncInt(v: int)
    | IncUint(u: nat)
    | IncReal(x: real)
  {
    predicate IsCollection() { AppendTo? || AddTo? || DeleteFrom? }
    predicate IsIncrement() { IncInt? || IncUint? || IncReal? }
  }

  /** The model that is updated: its table, keys, and the key of its update time, if it has one. */
  datatype Target = Target(table: string, tsKey: Option<string>, hashKey: string, hash: Param,
                           rangeKey: string, range: Param)

  const MIN_INT64 := -0x8000_0000_0000_0000

  /** Negation of an int64, which wraps at the minimum. */
  function Neg64(x: int): int { if x == MIN_INT64 then x else -x }

  // ---------- the statement ----------

  /** The right-hand side of a set clause; a collection comes as its text. */
  datatype Value = Mark | Itself | Plus | Minus | Append(text: string) | Add(text: string) | Delete(text: string)

  datatype Act =
    | Head(table: string) | Set(field: string, value: Value) | Remove(field: string)
    | Where(field: string) | And(field: string) | Returning

  /** A piece of the statement and the parameters for its placeholders. */
  datatype Clause = Clause(act: Act, params: seq<Param>)

  function RenderValue(field: string, v: Value): string {
    match v
    case Mark => "?"
    case Itself => field
    case Plus => field + " + ?"
    case Minus => field + " - ?"
    case Append(text) => "LIST_APPEND(if_not_exists(" + field + ", []), " + text + ")"
    case Add(text) => "SET_ADD(" + field + ", " + text + ")"
    case Delete(text) => "SET_DELETE(" + field + ", " + text + ")"
  }

  function Render(a: Act): string {
    match a
    case Head(table) => "UPDATE \"" + table + "\""
    case Set(field, value) => " SET " + field + " = " + RenderValue(field, value)
    case Remove(field) => " REMOVE " + field
    case Where(field) => " WHERE " + field + " = ?"
    case And(field) => " AND " + field + " = ?"
    case Returning => " RETURNING ALL NEW *"
  }

  function Text(cs: seq<Clause>): string { if cs == [] then "" else Render(cs[0].act) + Text(cs[1..]) }

  function Acts(cs: seq<Clause>): seq<Act> { if cs == [] then [] else [cs[0].act] + Acts(cs[1..]) }

  function Params(cs: seq<Clause>): seq<Param> { if cs == [] then [] else cs[0].params + Params(cs[1..]) }

  /** What the encoder writes for the elements of a collection. */
  function CollectionText(names: seq<string>, spec: Spec): string
    requires spec.IsCollection()
  {
    Written(names, VSlice(spec.items, false), !spec.AppendTo?, false, false).text
  }

  /** `applyIncrement`: the sign is written out, and the amount is the parameter. */
  function IncrementOf(spec: Spec): (Value, seq<Param>)
    requires spec.IsIncrement()
  {
    match spec
    case IncInt(v) =>
      if v == 0 then (Itself, []) else if v >= 0 then (Plus, [IntParam(v)]) else (Minus, [IntParam(Neg64(v))])
    case IncUint(u) => if u == 0 then (Itself, []) else (Plus, [UintParam(u)])
    case IncReal(x) =>
      if x == 0.0 then (Itself, []) else if x >= 0.0 then (Plus, [RealParam(x)]) else (Minus, [RealParam(-x)])
  }

  function ValueOf(names: seq<string>, spec: Spec): (Value, seq<Param>) {
    match spec
    case SetTo(p) => (Mark, [p])
    case AppendTo(_) => (Append(CollectionText(names, spec)), [])
    case AddTo(_) => (Add(CollectionText(names, spec)), [])
    case DeleteFrom(_) => (Delete(CollectionText(names, spec)), [])
    case _ => IncrementOf(spec)
  }

  function SetClause(names: seq<string>, field: string, spec: Spec): Clause {
    var (value, params) := ValueOf(names, spec);
    Clause(Set(field, value), params)
  }

  function SetClauses(names: seq<string>, fields: map<string, Spec>, order: seq<string>): seq<Clause>
    requires forall k :: 0 <= k < |order| ==> order[k] in fields
  {
    if order == [] then []
    else [SetClause(names, order[0], fields[order[0]])] + SetClauses(names, fields, order[1..])
  }

  function RemoveClauses(removed: seq<string>): seq<Clause> {
    if removed == [] then [] else [Clause(Remove(removed[0]), [])] + RemoveClauses(removed[1..])
  }

  function HeadClauses(t: Target, now: int): seq<Clause> {
    [Clause(Head(t.table), [])]
    + (if t.tsKey.Some? then [Clause(Set(t.tsKey.value, Mark), [TimeParam(now)])] else [])
  }

  function WhereClauses(t: Target): seq<Clause> {
    [Clause(Where(t.hashKey), [t.hash])]
    + (if t.rangeKey != "" then [Clause(And(t.rangeKey), [t.range])] else [])
    + [Clause(Returning, [])]
  }

  function Statement(names: seq<string>, t: Target, now: int, fields: map<string, Spec>,
                     order: seq<string>, removed: seq<string>): seq<Clause>
    requires forall k :: 0 <= k < |order| ==> order[k] in fields
  {
    HeadClauses(t, now) + SetClauses(names, fields, order) + RemoveClauses(removed) + WhereClauses(t)
  }

  lemma {:induction false} JoinedText(a: seq<Clause>, b: seq<Clause>)
    ensures Text(a + b) == Text(a) + Text(b)
  {
    hide Render;
    if a == [] {
      assert a + b == b;
    } else {
      assert (a + b)[1..] == a[1..] + b;
      JoinedText(a[1..], b);
    }
  }

  lemma {:induction false} JoinedParams(a: seq<Clause>, b: seq<Clause>)
    ensures Params(a + b) == Params(a) + Params(b)
  {
    if a == [] {
      assert a + b == b;
    } else {
      assert (a + b)[1..] == a[1..] + b;
      JoinedParams(a[1..], b);
    }
  }

  lemma {:induction false} JoinedActs(a: seq<Clause>, b: seq<Clause>)
    ensures Acts(a + b) == Acts(a) + Acts(b)
  {
    if a == [] {
      assert a + b == b;
    } else {
      assert (a + b)[1..] == a[1..] + b;
      JoinedActs(a[1..], b);
    }
  }

  lemma Joined(a: seq<Clause>, b: seq<Clause>)
    ensures Text(a + b) == Text(a) + Text(b) && Params(a + b) == Params(a) + Params(b)
    ensures Acts(a + b) == Acts(a) + Acts(b)
  {
    JoinedText(a, b);
    JoinedParams(a, b);
    JoinedActs(a, b);
  }

  // ---------- placeholders and parameters match ----------

  ghost predicate Aligned(c: Clause) { Holds(Render(c.act), |c.params|) }

  ghost predicate AllAligned(cs: seq<Clause>) { forall k :: 0 <= k < |cs| ==> Aligned(cs[k]) }

  /** A collection that has a document, with no quote in its keys. */
  ghost predicate CleanSpec(names: seq<string>, spec: Spec) {
    spec.IsCollection() ==>
      var v := VSlice(spec.items, false);
      Placed(names, v, false) && KeysFree(names, v)
  }

  /** What a set clause writes between its fixed parts: the name once, the name twice, or the name
      twice and the collection. The scanner has to pass over that as a whole. */
  ghost predicate Fits(names: seq<string>, field: string, spec: Spec) {
    if spec.SetTo? then Neutral(field)
    else if spec.IsCollection() then Neutral(field + field + CollectionText(names, spec))
    else Neutral(field + field)
  }

  ghost predicate AllFit(names: seq<string>, fields: map<string, Spec>, order: seq<string>) {
    forall k :: 0 <= k < |order| ==> order[k] in fields && Fits(names, order[k], fields[order[k]])
  }

  ghost predicate AllNeutral(names: seq<string>) { forall k :: 0 <= k < |names| ==> Neutral(names[k]) }

  /** The same for the keys of the target, and for the table name, which stands between double
      quotes. */
  ghost predicate NeutralTarget(t: Target) {
    && Scan(t.table, Double) == (0, Double)
    && (t.tsKey.Some? ==> Neutral(t.tsKey.value)) && Neutral(t.hashKey)
    && (t.rangeKey != "" ==> Neutral(t.rangeKey))
  }

  lemma OpenDouble(s: string, update: string, quote: string)
    requires s == update + quote && CleanName(update) && quote == "\""
    ensures Scan(s, Outside) == (0, Double)
  {
    CleanHolds(update);
    QuoteScan(quote, Outside);
    ScanSplit(update, quote, Outside);
  }

  lemma QuoteScan(quote: string, q: Quote)
    requires quote == "\""
    ensures Scan(quote, q) == (0, if q.Single? then Single else if q.Double? then Outside else Double)
  {
    assert quote[1..] == "";
  }

  lemma DoubleQuoted(open: string, table: string, quote: string)
    requires Scan(open, Outside) == (0, Double) && quote == "\""
    ensures Holds(open + table + quote, 0) <==> Scan(table, Double) == (0, Double)
  {
    QuoteScan(quote, Scan(table, Double).1);
    ScanSplit(open, table, Outside);
    ScanSplit(open + table, quote, Outside);
  }

  lemma TableHoldsExactly(table: string)
    ensures Holds("UPDATE \"" + table + "\"", 0) <==> Scan(table, Double) == (0, Double)
  {
    OpenDouble("UPDATE \"", "UPDATE ", "\"");
    DoubleQuoted("UPDATE \"", table, "\"");
  }

  /** A clean text does not change where the scanner stands, and a placeholder counts outside only. */
  lemma {:induction false} CleanScan(s: string, q: Quote)
    requires CleanName(s)
    ensures Scan(s, q) == (0, q)
  {
    if s != "" {
      assert Plain(s[0]);
      CleanScan(s[1..], q);
    }
  }

  lemma MarkScan(mark: string, q: Quote)
    requires mark == "?"
    ensures Scan(mark, q) == (if q.Outside? then 1 else 0, q)
  {
    assert mark[1..] == "";
  }

  /** Fixed text around a name is passed over. */
  lemma AroundScan(before: string, name: string, after: string, q: Quote)
    requires CleanName(before) && CleanName(after)
    ensures Scan(before + name + after, q) == Scan(name, q)
  {
    CleanScan(before, q);
    CleanScan(after, Scan(name, q).1);
    ScanSplit(before, name, q);
    ScanSplit(before + name, after, q);
  }

  /** A name between clean texts, followed by one placeholder: it counts if and only if the scanner
      has come out of all quotes. */
  lemma MarkedScan(before: string, name: string, after: string, mark: string, q: Quote)
    requires CleanName(before) && CleanName(after) && mark == "?"
    ensures var x := Scan(name, q);
      Scan(before + name + after + mark, q) == (x.0 + (if x.1.Outside? then 1 else 0), x.1)
  {
    AroundScan(before, name, after, q);
    MarkScan(mark, Scan(name, q).1);
    ScanSplit(before + name + after, mark, q);
  }

  lemma CallScan(fn: string, field: string, mid: string, text: string, close: string, q: Quote)
    requires CleanName(fn) && CleanName(mid) && CleanName(close)
    ensures Scan(fn + field + mid + text + close, q) == Scan(field + text, q)
  {
    AroundScan(fn, field, mid, q);
    var q1 := Scan(field, q).1;
    ScanSplit(fn + field + mid, text, q);
    CleanScan(close, Scan(text, q1).1);
    ScanSplit(fn + field + mid + text, close, q);
    ScanSplit(field, text, q);
  }

  lemma IncrementScan(field: string, spec: Spec, q: Quote)
    requires spec.IsIncrement()
    ensures var (value, params) := IncrementOf(spec); var x := Scan(field, q);
      Scan(RenderValue(field, value), q) == (x.0 + (if x.1.Outside? then |params| else 0), x.1) && |params| <= 1
  {
    var (value, params) := IncrementOf(spec);
    assert if value.Itself? then params == [] else (value.Plus? || value.Minus?) && |params| == 1;
    hide Scan, IncrementOf;
    if value.Plus? {
      MarkedScan("", field, " + ", "?", q);
      assert "" + field + " + " + "?" == RenderValue(field, value);
    } else if value.Minus? {
      MarkedScan("", field, " - ", "?", q);
      assert "" + field + " - " + "?" == RenderValue(field, value);
    }
  }

  /** The right-hand side, read from where the name before it left the scanner. */
  lemma ValueScan(names: seq<string>, field: string, spec: Spec, q: Quote)
    ensures var (value, params) := ValueOf(names, spec);
      var x := if spec.SetTo? then (0, q) else if spec.IsCollection() then Scan(field + CollectionText(names, spec), q)
               else Scan(field, q);
      Scan(RenderValue(field, value), q) == (x.0 + (if x.1.Outside? then |params| else 0), x.1) && |params| <= 1
  {
    hide Scan;
    match spec
    case SetTo(_) => MarkScan("?", q);
    case AppendTo(_) => CallScan("LIST_APPEND(if_not_exists(", field, ", []), ", CollectionText(names, spec), ")", q);
    case AddTo(_) => CallScan("SET_ADD(", field, ", ", CollectionText(names, spec), ")", q);
    case DeleteFrom(_) => CallScan("SET_DELETE(", field, ", ", CollectionText(names, spec), ")", q);
    case _ => IncrementScan(field, spec, q);
  }

  /** A set clause has as many placeholders as parameters if and only if its names and texts fit. */
  lemma SetAlignedExactly(names: seq<string>, field: string, spec: Spec)
    ensures Aligned(SetClause(names, field, spec)) <==> Fits(names, field, spec)
  {
    var value := ValueOf(names, spec).0;
    var q := Scan(field, Outside).1;
    ValueScan(names, field, spec, q);
    hide ValueOf, RenderValue;
    AssignScan(" SET ", field, " = ", RenderValue(field, value));
    if spec.IsCollection() {
      Assoc3(field, field, CollectionText(names, spec));
      ScanSplit(field, field + CollectionText(names, spec), Outside);
    } else {
      ScanSplit(field, field, Outside);
    }
  }

  lemma Assoc3(a: string, b: string, c: string)
    ensures a + b + c == a + (b + c)
  {}

  lemma AssignScan(set_: string, field: string, eq: string, text: string)
    requires CleanName(set_) && CleanName(eq)
    ensures var x := Scan(field, Outside); var y := Scan(text, x.1);
      Scan(set_ + field + eq + text, Outside) == (x.0 + y.0, y.1)
  {
    AroundScan(set_, field, eq, Outside);
    ScanSplit(set_ + field + eq, text, Outside);
  }

  /** Neutral names fit, and so do collections that have a document. */
  lemma NeutralFits(names: seq<string>, field: string, spec: Spec)
    requires Neutral(field) && CleanSpec(names, spec)
    ensures Fits(names, field, spec)
  {
    ScanSplit(field, field, Outside);
    if spec.IsCollection() {
      CollectionHolds(names, spec);
      ScanSplit(field + field, CollectionText(names, spec), Outside);
    }
  }

  lemma CollectionIsPrinted(names: seq<string>, spec: Spec)
    requires spec.IsCollection() && ItemsPlaced(names, spec.items)
    ensures CollectionText(names, spec) == Print(DocOf(names, VSlice(spec.items, false), !spec.AppendTo?), false)
  {
    hide ItemsPlaced, WrittenCollection, Docs, Print;
    var v, bag := VSlice(spec.items, false), !spec.AppendTo?;
    var docs := Docs(names, spec.items);
    assert CollectionText(names, spec) == WrittenCollection(names, spec.items, bag, false).text;
    assert DocOf(names, v, bag) == if bag then Bag(docs) else Arr(docs);
    hide CollectionText, DocOf;
    PlacedCollection(names, spec.items, bag, false);
    EmitOne(false, if bag then Bag(docs) else Arr(docs));
    hide Emit;
  }

  lemma CollectionHolds(names: seq<string>, spec: Spec)
    requires spec.IsCollection() && CleanSpec(names, spec)
    ensures Holds(CollectionText(names, spec), 0)
  {
    var v, bag := VSlice(spec.items, false), !spec.AppendTo?;
    CollectionIsPrinted(names, spec);
    MeaningOk(names, v, bag);
    EscapedKeysLonger(DocOf(names, v, bag));
    DocHolds(DocOf(names, v, bag));
  }

  lemma {:induction false} SetClausesAligned(names: seq<string>, fields: map<string, Spec>, order: seq<string>)
    requires forall k :: 0 <= k < |order| ==> order[k] in fields
    ensures AllAligned(SetClauses(names, fields, order)) <==> AllFit(names, fields, order)
  {
    if order != [] {
      SetAlignedExactly(names, order[0], fields[order[0]]);
      hide SetClause, Aligned, Fits;
      SetClausesAligned(names, fields, order[1..]);
      FirstAligned(SetClause(names, order[0], fields[order[0]]), SetClauses(names, fields, order[1..]));
      assert forall k :: 0 < k < |order| ==> order[k] == order[1..][k - 1];
    }
  }

  lemma {:induction false} RemoveClausesAligned(removed: seq<string>)
    ensures AllAligned(RemoveClauses(removed)) <==> AllNeutral(removed)
  {
    if removed != [] {
      var c := Clause(Remove(removed[0]), []);
      AroundScan(" REMOVE ", removed[0], "", Outside);
      assert " REMOVE " + removed[0] + "" == Render(c.act);
      RemoveClausesAligned(removed[1..]);
      FirstAligned(c, RemoveClauses(removed[1..]));
      assert forall k :: 0 < k < |removed| ==> removed[k] == removed[1..][k - 1];
    }
  }

  lemma FirstAligned(c: Clause, cs: seq<Clause>)
    ensures AllAligned([c] + cs) <==> Aligned(c) && AllAligned(cs)
  {
    hide Aligned;
    var all := [c] + cs;
    assert all[0] == c && forall k :: 0 <= k < |cs| ==> all[k + 1] == cs[k];
  }

  /** A key that is compared with, or set to, one parameter. */
  lemma KeyAligned(before: string, key: string, c: Clause)
    requires CleanName(before) && Render(c.act) == before + key + " = " + "?" && |c.params| == 1
    ensures AllAligned([c]) <==> Neutral(key)
  {
    MarkedScan(before, key, " = ", "?", Outside);
    assert [c][0] == c;
  }

  lemma HeadAligned(t: Target, now: int)
    ensures AllAligned(HeadClauses(t, now)) <==>
      Scan(t.table, Double) == (0, Double) && (t.tsKey.Some? ==> Neutral(t.tsKey.value))
  {
    TableHoldsExactly(t.table);
    var c := Clause(Head(t.table), []);
    var b := if t.tsKey.Some? then [Clause(Set(t.tsKey.value, Mark), [TimeParam(now)])] else [];
    if t.tsKey.Some? { KeyAligned(" SET ", t.tsKey.value, b[0]); }
    FirstAligned(c, b);
  }

  lemma AlignedSplit(a: seq<Clause>, b: seq<Clause>)
    ensures AllAligned(a + b) <==> AllAligned(a) && AllAligned(b)
  {
    hide Aligned;
    var all := a + b;
    assert forall k :: 0 <= k < |a| ==> all[k] == a[k];
    assert forall k :: 0 <= k < |b| ==> all[|a| + k] == b[k];
  }

  lemma WhereAligned(t: Target)
    ensures AllAligned(WhereClauses(t)) <==> Neutral(t.hashKey) && (t.rangeKey != "" ==> Neutral(t.rangeKey))
  {
    var a, c := [Clause(Where(t.hashKey), [t.hash])], [Clause(Returning, [])];
    var b := if t.rangeKey != "" then [Clause(And(t.rangeKey), [t.range])] else [];
    assert " WHERE " + t.hashKey + " = " + "?" == Render(a[0].act);
    KeyAligned(" WHERE ", t.hashKey, a[0]);
    if t.rangeKey != "" {
      assert " AND " + t.rangeKey + " = " + "?" == Render(b[0].act);
      KeyAligned(" AND ", t.rangeKey, b[0]);
    }
    ReturningAligned(c[0]);
    hide Aligned;
    AlignedSplit(a, b);
    AlignedSplit(a + b, c);
  }

  lemma ReturningAligned(c: Clause)
    requires c == Clause(Returning, [])
    ensures AllAligned([c])
  {
    CleanReturning(Render(c.act));
    hide Render, CleanName;
    CleanHolds(Render(c.act));
  }

  lemma CleanReturning(s: string)
    requires s == " RETURNING ALL NEW *"
    ensures CleanName(s)
  {}

  lemma {:induction false} AllMatch(cs: seq<Clause>)
    requires AllAligned(cs)
    ensures Holds(Text(cs), |Params(cs)|)
  {
    if cs != [] {
      var c, rest := cs[0], cs[1..];
      assert Aligned(c) && AllAligned(rest);
      hide Holds, AllAligned, Render;
      AllMatch(rest);
      HoldsSplit(Render(c.act), |c.params|, Text(rest), |Params(rest)|);
    }
  }

  lemma PrefixMatches(cs: seq<Clause>, k: nat)
    requires AllAligned(cs) && k <= |cs|
    ensures Holds(Text(cs[..k]), |Params(cs[..k])|)
  {
    hide Aligned, Holds, Text, Params;
    AllMatch(cs[..k]);
  }

  lemma TextOne(c: Clause)
    ensures Text([c]) == Render(c.act) && Params([c]) == c.params && Acts([c]) == [c.act]
  {
    hide Render;
    assert [c][1..] == [];
  }

  lemma Longer(cs: seq<Clause>, c: Clause)
    ensures Text(cs + [c]) == Text(cs) + Render(c.act) && Params(cs + [c]) == Params(cs) + c.params
  {
    TextOne(c);
    hide Text, Params;
    Joined(cs, [c]);
  }

  lemma OneMore(cs: seq<Clause>, k: nat)
    requires k < |cs|
    ensures Text(cs[..k + 1]) == Text(cs[..k]) + Render(cs[k].act)
    ensures Params(cs[..k + 1]) == Params(cs[..k]) + cs[k].params
  {
    hide Text, Params, Render;
    assert cs[..k + 1] == cs[..k] + [cs[k]];
    Longer(cs[..k], cs[k]);
  }

  /** Conversely, clauses whose every prefix matches all match on their own. */
  lemma PrefixesAlign(cs: seq<Clause>)
    requires forall k :: 0 <= k <= |cs| ==> Holds(Text(cs[..k]), |Params(cs[..k])|)
    ensures AllAligned(cs)
  {
    forall k | 0 <= k < |cs| ensures Aligned(cs[k]) {
      OneMore(cs, k);
      ScanSplit(Text(cs[..k]), Render(cs[k].act), Outside);
      assert Holds(Text(cs[..k + 1]), |Params(cs[..k + 1])|);
    }
  }

  /** Every name and text of the statement fits. */
  ghost predicate StatementFits(names: seq<string>, t: Target, fields: map<string, Spec>,
                                order: seq<string>, removed: seq<string>) {
    NeutralTarget(t) && AllFit(names, fields, order) && AllNeutral(removed)
  }

  lemma StatementAligned(names: seq<string>, t: Target, now: int, fields: map<string, Spec>,
                         order: seq<string>, removed: seq<string>)
    requires forall k :: 0 <= k < |order| ==> order[k] in fields
    ensures AllAligned(Statement(names, t, now, fields, order, removed)) <==>
            StatementFits(names, t, fields, order, removed)
  {
    var head, sets, removes := HeadClauses(t, now), SetClauses(names, fields, order), RemoveClauses(removed);
    HeadAligned(t, now);
    WhereAligned(t);
    SetClausesAligned(names, fields, order);
    RemoveClausesAligned(removed);
    hide AllAligned, HeadClauses, SetClauses, RemoveClauses, WhereClauses, AllFit, AllNeutral;
    AlignedSplit(head, sets);
    AlignedSplit(head + sets, removes);
    AlignedSplit(head + sets + removes, WhereClauses(t));
  }

  /** A statement whose names and texts fit has as many placeholders outside quotes as parameters, and
      in matching order: after any number of its clauses, the placeholders so far are the parameters so
      far. */
  lemma PlaceholdersMatch(names: seq<string>, t: Target, now: int, fields: map<string, Spec>,
                          order: seq<string>, removed: seq<string>, k: nat)
    requires StatementFits(names, t, fields, order, removed)
    requires k <= |Statement(names, t, now, fields, order, removed)|
    ensures var cs := Statement(names, t, now, fields, order, removed);
      && Holds(Text(cs), |Params(cs)|)
      && Holds(Text(cs[..k]), |Params(cs[..k])|)
      && Text(cs[..k]) <= Text(cs) && Params(cs[..k]) <= Params(cs)
  {
    var cs := Statement(names, t, now, fields, order, removed);
    StatementAligned(names, t, now, fields, order, removed);
    hide Statement, StatementFits, AllAligned, Holds;
    PrefixMatches(cs, |cs|);
    assert cs[..|cs|] == cs;
    PrefixMatches(cs, k);
    assert cs == cs[..k] + cs[k..];
    Joined(cs[..k], cs[k..]);
  }

  /** Names are written as they are. Every statement keeps its placeholders and parameters in step, clause
      by clause, if and only if its names and texts fit. */
  lemma NamesDecide(names: seq<string>, t: Target, now: int, fields: map<string, Spec>,
                    order: seq<string>, removed: seq<string>)
    requires forall k :: 0 <= k < |order| ==> order[k] in fields
    ensures var cs := Statement(names, t, now, fields, order, removed);
      (forall k :: 0 <= k <= |cs| ==> Holds(Text(cs[..k]), |Params(cs[..k])|)) <==>
      StatementFits(names, t, fields, order, removed)
  {
    var cs := Statement(names, t, now, fields, order, removed);
    StatementAligned(names, t, now, fields, order, removed);
    hide Statement, StatementFits, Holds;
    if AllAligned(cs) {
      forall k | 0 <= k <= |cs| ensures Holds(Text(cs[..k]), |Params(cs[..k])|) { PrefixMatches(cs, k); }
    } else if forall k :: 0 <= k <= |cs| ==> Holds(Text(cs[..k]), |Params(cs[..k])|) {
      PrefixesAlign(cs);
    }
  }

  // ---------- what the statement does ----------

  datatype Attr = Number(n: real) | ListOf(items: seq<Doc>) | SetOf(elems: set<Doc>) | Bound(p: Param)

  type Item = map<string, Attr>

  function Get(item: Item, field: string): Option<Attr> {
    if field in item then Some(item[field]) else None
  }

  function ParamNumber(p: Param): real {
    match p
    case IntParam(i) => i as real
    case UintParam(u) => u as real
    case RealParam(x) => x
    case _ => 0.0
  }

  /** How many parameters a clause takes at the server. */
  function Takes(a: Act): nat {
    match a
    case Set(_, value) => if value.Mark? || value.Plus? || value.Minus? then 1 else 0
    case Where(_) => 1
    case And(_) => 1
    case _ => 0
  }

  /** What the server makes of the old value of a field; None if it refuses. A collection is read from
      its text. */
  function NewAttr(value: Value, old_: Option<Attr>, ps: seq<Param>): Option<Attr>
    requires value.Mark? || value.Plus? || value.Minus? ==> ps != []
  {
    match value
    case Mark => Some(Bound(ps[0]))
    case Itself => old_
    case Plus => if old_.Some? && old_.value.Number? then Some(Number(old_.value.n + ParamNumber(ps[0]))) else None
    case Minus => if old_.Some? && old_.value.Number? then Some(Number(old_.value.n - ParamNumber(ps[0]))) else None
    case Append(text) =>
      (match Parse(text)
       case Some(Arr(docs)) =>
         if old_.None? then Some(ListOf(docs))
         else if old_.value.ListOf? then Some(ListOf(old_.value.items + docs)) else None
       case _ => None)
    case Add(text) =>
      (match Parse(text)
       case Some(Bag(docs)) =>
         if old_.Some? && old_.value.SetOf? then Some(SetOf(old_.value.elems + (set d | d in docs))) else None
       case _ => None)
    case Delete(text) =>
      (match Parse(text)
       case Some(Bag(docs)) =>
         if old_.Some? && old_.value.SetOf? then Some(SetOf(old_.value.elems - (set d | d in docs))) else None
       case _ => None)
  }

  /** How far the server has come: the table, the item, the fields that a clause has named, the keys that
      the item is found by, and whether the new item is asked for. */
  datatype Progress = Progress(table: string, item: Item, named: set<string>, keys: seq<(string, Param)>,
                               returning: bool)

  /** One clause, with the parameters that are left. A field may be named by one clause only. */
  function Carry(a: Act, ps: seq<Param>, before: Item, r: Progress): Option<Progress>
    requires |ps| >= Takes(a)
  {
    match a
    case Head(table) => Some(r.(table := table))
    case Set(field, value) =>
      var v := NewAttr(value, Get(before, field), ps);
      if field in r.named || v.None? then None
      else Some(r.(item := r.item[field := v.value], named := r.named + {field}))
    case Remove(field) =>
      if field in r.named then None else Some(r.(item := r.item - {field}, named := r.named + {field}))
    case Where(field) => Some(r.(keys := r.keys + [(field, ps[0])]))
    case And(field) => Some(r.(keys := r.keys + [(field, ps[0])]))
    case Returning => Some(r.(returning := true))
  }

  /** The server carries out the clauses one after the other on the old item, and gives each the next of
      the parameters, by position. */
  function Perform(acts: seq<Act>, ps: seq<Param>, before: Item, r: Progress): Option<(Progress, seq<Param>)>
    decreases |acts|
  {
    if acts == [] then Some((r, ps))
    else
      var k := Takes(acts[0]);
      if |ps| < k then None
      else
        var r' := Carry(acts[0], ps, before, r);
        if r'.None? then None else Perform(acts[1..], ps[k..], before, r'.value)
  }

  /** The whole statement, with the parameters sent beside it; a parameter left over is refused. */
  function Execute(acts: seq<Act>, ps: seq<Param>, before: Item): Option<Progress> {
    var r := Perform(acts, ps, before, Progress("", before, {}, [], false));
    if r.Some? && r.value.1 == [] then Some(r.value.0) else None
  }

  // ---------- what it is to mean ----------

  /** The amount of an increment. */
  function Amount(spec: Spec): real
    requires spec.IsIncrement()
  {
    match spec
    case IncInt(v) => v as real
    case IncUint(u) => u as real
    case IncReal(x) => x
  }

  /** The new value of a field by the specification alone. An increment by nothing copies any value. */
  function NewValue(names: seq<string>, old_: Option<Attr>, spec: Spec): Option<Attr> {
    match spec
    case SetTo(p) => Some(Bound(p))
    case AppendTo(items) =>
      if old_.None? then Some(ListOf(Docs(names, items)))
      else if old_.value.ListOf? then Some(ListOf(old_.value.items + Docs(names, items))) else None
    case AddTo(items) =>
      if old_.Some? && old_.value.SetOf?
      then Some(SetOf(old_.value.elems + (set d | d in Docs(names, items)))) else None
    case DeleteFrom(items) =>
      if old_.Some? && old_.value.SetOf?
      then Some(SetOf(old_.value.elems - (set d | d in Docs(names, items)))) else None
    case _ =>
      if old_.Some? && old_.value.Number? then Some(Number(old_.value.n + Amount(spec)))
      else if Amount(spec) == 0.0 then old_ else None
  }

  /** Collections have documents, and amounts have a negation. */
  ghost predicate Sendable(names: seq<string>, spec: Spec) {
    CleanSpec(names, spec) && (spec.IncInt? ==> spec.v != MIN_INT64)
  }

  /** The clause of an increment gives the old number plus the amount, for every int64 but the minimum:
      the negation of that wraps, and the field grows by 2^63 instead. */
  lemma IncrementExactly(v: int, n: real)
    requires MIN_INT64 <= v < -MIN_INT64
    ensures var (value, ps) := IncrementOf(IncInt(v));
      && (NewAttr(value, Some(Number(n)), ps) == Some(Number(n + v as real)) <==> v != MIN_INT64)
      && (v == MIN_INT64 ==> NewAttr(value, Some(Number(n)), ps) == Some(Number(n - v as real)))
  {}

  lemma IncrementOthers(u: nat, x: real, n: real)
    ensures var (value, ps) := IncrementOf(IncUint(u));
      NewAttr(value, Some(Number(n)), ps) == Some(Number(n + u as real))
    ensures var (value, ps) := IncrementOf(IncReal(x)); NewAttr(value, Some(Number(n)), ps) == Some(Number(n + x))
  {}

  lemma CollectionParses(names: seq<string>, spec: Spec)
    requires spec.IsCollection() && CleanSpec(names, spec)
    ensures Parse(CollectionText(names, spec)) ==
            Some(if spec.AppendTo? then Arr(Docs(names, spec.items)) else Bag(Docs(names, spec.items)))
  {
    CollectionIsPrinted(names, spec);
    ValueRoundTrip(names, VSlice(spec.items, false), !spec.AppendTo?);
  }

  /** The clause of an append gives a missing field the list that was asked for, for every collection that
      has a document, if and only if no key written for it has a quote. */
  lemma AppendExactly(names: seq<string>, items: seq<Val>)
    requires ItemsPlaced(names, items)
    ensures var (value, ps) := ValueOf(names, AppendTo(items));
      NewAttr(value, None, ps) == NewValue(names, None, AppendTo(items)) <==> KeysFree(names, VSlice(items, false))
  {
    CollectionIsPrinted(names, AppendTo(items));
    ValueRoundTrip(names, VSlice(items, false), false);
    hide Parse, KeysFree, CollectionText;
  }

  /** A clause does to a field what its specification says. */
  lemma ClauseMeans(names: seq<string>, spec: Spec, old_: Option<Attr>)
    requires Sendable(names, spec)
    ensures var (value, ps) := ValueOf(names, spec);
      |ps| == Takes(Set("", value)) && NewAttr(value, old_, ps) == NewValue(names, old_, spec)
  {
    if spec.IsCollection() { CollectionParses(names, spec); }
    hide Parse, CollectionText, CleanSpec, Docs;
  }

  /** What each field is to become, None where the server refuses. */
  type Values = map<string, Option<Attr>>

  /** What the clauses make of the fields, as they are sent. */
  function Sent(names: seq<string>, before: Item, fields: map<string, Spec>): Values {
    map f | f in fields ::
      var (value, ps) := ValueOf(names, fields[f]);
      ValueTakes(names, fields[f]);
      NewAttr(value, Get(before, f), ps)
  }

  /** What was asked for. */
  function Asked(names: seq<string>, before: Item, fields: map<string, Spec>): Values {
    map f | f in fields :: NewValue(names, Get(before, f), fields[f])
  }

  /** Every clause carries the parameters that it takes, and looks at no other. */
  lemma ValueTakes(names: seq<string>, spec: Spec)
    ensures var (value, ps) := ValueOf(names, spec); |ps| == Takes(Set("", value))
  {}

  lemma TakesOwn(names: seq<string>, spec: Spec, old_: Option<Attr>, rest: seq<Param>)
    ensures var (value, ps) := ValueOf(names, spec);
      |ps| == Takes(Set("", value)) && NewAttr(value, old_, ps + rest) == NewAttr(value, old_, ps)
  {
    hide Parse, CollectionText;
  }

  /** The set clauses one after the other; each reads the old item. */
  function SetAll(acc: Item, values: Values, order: seq<string>): Option<Item>
    requires forall k :: 0 <= k < |order| ==> order[k] in values
    decreases |order|
  {
    if order == [] then Some(acc)
    else if values[order[0]].None? then None
    else SetAll(acc[order[0] := values[order[0]].value], values, order[1..])
  }

  /** One of the fields has been named. */
  ghost predicate Meets(order: seq<string>, named: set<string>) {
    exists k :: 0 <= k < |order| && order[k] in named
  }

  ghost predicate Once(order: seq<string>) { forall i, j :: 0 <= i < j < |order| ==> order[i] != order[j] }

  /** The order in which the map of set fields is walked: every field, once. */
  ghost predicate Enumerates(order: seq<string>, fields: map<string, Spec>) {
    && (forall k :: 0 <= k < |order| ==> order[k] in fields)
    && (forall f :: f in fields ==> f in order) && Once(order)
  }

  /** A clause at the server, with its own parameters in front. */
  lemma FirstPerforms(a: Act, acts: seq<Act>, own: seq<Param>, rest: seq<Param>, before: Item, r: Progress)
    requires |own| == Takes(a)
    ensures var r' := Carry(a, own + rest, before, r);
      Perform([a] + acts, own + rest, before, r) == if r'.None? then None else Perform(acts, rest, before, r'.value)
  {
    hide Carry;
    assert ([a] + acts)[1..] == acts && (own + rest)[|own|..] == rest;
  }

  /** A set clause at the server. */
  lemma SetStep(names: seq<string>, before: Item, fields: map<string, Spec>, field: string,
                acts: seq<Act>, rest: seq<Param>, r: Progress)
    requires field in fields
    ensures var c := SetClause(names, field, fields[field]);
      var v := Sent(names, before, fields)[field];
      Perform([c.act] + acts, c.params + rest, before, r) ==
        if field in r.named || v.None? then None
        else Perform(acts, rest, before, r.(item := r.item[field := v.value], named := r.named + {field}))
  {
    var c := SetClause(names, field, fields[field]);
    TakesOwn(names, fields[field], Get(before, field), rest);
    hide ValueOf, NewAttr, Perform;
    FirstPerforms(c.act, acts, c.params, rest, before, r);
  }

  /** All set clauses at the server: refused if one of the fields was named before. */
  lemma {:induction false} SetsPerform(names: seq<string>, before: Item, fields: map<string, Spec>, order: seq<string>,
                                       acts: seq<Act>, rest: seq<Param>, r: Progress)
    requires (forall k :: 0 <= k < |order| ==> order[k] in fields) && Once(order)
    ensures var sets := SetClauses(names, fields, order);
      var item := SetAll(r.item, Sent(names, before, fields), order);
      Perform(Acts(sets) + acts, Params(sets) + rest, before, r) ==
        if item.None? || Meets(order, r.named) then None
        else Perform(acts, rest, before, r.(item := item.value, named := r.named + Names(order)))
    decreases |order|
  {
    var sets, values := SetClauses(names, fields, order), Sent(names, before, fields);
    if order == [] {
      assert Acts(sets) + acts == acts && Params(sets) + rest == rest && r.named + Names([]) == r.named;
    } else {
      var f, more := order[0], order[1..];
      var c, tail := SetClause(names, f, fields[f]), SetClauses(names, fields, more);
      assert sets == [c] + tail && sets[1..] == tail;
      assert Acts(sets) + acts == [c.act] + (Acts(tail) + acts);
      assert Params(sets) + rest == c.params + (Params(tail) + rest);
      assert values.Keys == fields.Keys;
      hide SetClause, SetClauses, Acts, Params, Perform, Sent;
      SetStep(names, before, fields, f, Acts(tail) + acts, Params(tail) + rest, r);
      if f !in r.named && values[f].Some? {
        var r' := r.(item := r.item[f := values[f].value], named := r.named + {f});
        NamesOnce(order, r.named);
        SetsPerform(names, before, fields, more, acts, rest, r');
        NamesSplit(order, r.named, r.item);
      }
    }
  }

  function Names(order: seq<string>): set<string> { set f | f in order }

  lemma NamesOnce(order: seq<string>, named: set<string>)
    requires order != [] && Once(order) && order[0] !in named
    ensures Meets(order, named) <==> Meets(order[1..], named + {order[0]})
    ensures Once(order[1..])
  {
    assert order == [order[0]] + order[1..];
    assert forall k :: 0 < k < |order| ==> order[k] == order[1..][k - 1] && order[k] != order[0];
  }

  /** All remove clauses at the server: each field must be new. */
  lemma {:induction false} RemovesPerform(before: Item, removed: seq<string>, acts: seq<Act>,
                                          ps: seq<Param>, r: Progress)
    ensures Perform(Acts(RemoveClauses(removed)) + acts, ps, before, r) ==
        if !Once(removed) || Meets(removed, r.named) then None
        else Perform(acts, ps, before, r.(item := r.item - Names(removed), named := r.named + Names(removed)))
    decreases |removed|
  {
    var all := Acts(RemoveClauses(removed));
    if removed == [] {
      assert all + acts == acts && r.item - Names([]) == r.item && r.named + Names([]) == r.named;
    } else {
      var f, more, tail := removed[0], removed[1..], Acts(RemoveClauses(removed[1..]));
      assert RemoveClauses(removed)[1..] == RemoveClauses(more);
      assert all + acts == [Remove(f)] + (tail + acts) && [] + ps == ps;
      hide Perform, RemoveClauses, Acts;
      FirstPerforms(Remove(f), tail + acts, [], ps, before, r);
      if f in r.named {
        assert removed[0] in r.named;
      } else {
        hide Once, Meets;
        OnceSplit(removed, r.named);
        RemovesPerform(before, more, acts, ps, r.(item := r.item - {f}, named := r.named + {f}));
        NamesSplit(removed, r.named, r.item);
      }
    }
  }

  lemma NamesSplit(order: seq<string>, named: set<string>, item: Item)
    requires order != []
    ensures named + {order[0]} + Names(order[1..]) == named + Names(order)
    ensures item - {order[0]} - Names(order[1..]) == item - Names(order)
  {
    assert order == [order[0]] + order[1..];
  }

  lemma OnceSplit(order: seq<string>, named: set<string>)
    requires order != [] && order[0] !in named
    ensures !Once(order) || Meets(order, named) <==> !Once(order[1..]) || Meets(order[1..], named + {order[0]})
  {
    var more := order[1..];
    assert forall k :: 0 < k < |order| ==> order[k] == more[k - 1];
    if !Once(order) {
      var i, j :| 0 <= i < j < |order| && order[i] == order[j];
      if i > 0 { assert more[i - 1] == more[j - 1]; } else { assert more[j - 1] in named + {order[0]}; }
    }
    if !Once(more) {
      var i, j :| 0 <= i < j < |more| && more[i] == more[j];
      assert order[i + 1] == order[j + 1];
    }
  }

  /** The item with every field of `keys` replaced by its new value. */
  function Merged(acc: Item, values: Values, keys: set<string>): Option<Item>
    requires keys <= values.Keys
  {
    if forall f :: f in keys ==> values[f].Some?
    then Some(map f | f in acc.Keys + keys :: if f in keys then values[f].value else acc[f])
    else None
  }

  lemma {:induction false} SetAllMerges(acc: Item, values: Values, order: seq<string>)
    requires forall k :: 0 <= k < |order| ==> order[k] in values
    ensures Names(order) <= values.Keys && SetAll(acc, values, order) == Merged(acc, values, Names(order))
    decreases |order|
  {
    if order == [] {
      assert Merged(acc, values, Names(order)).value == acc;
    } else {
      var f0, rest := order[0], order[1..];
      assert f0 in order && Names(order) == Names(rest) + {f0} by {
        assert order == [f0] + rest;
      }
      if values[f0].Some? {
        SetAllMerges(acc[f0 := values[f0].value], values, rest);
        MergeOne(acc, values, Names(rest), f0);
      }
    }
  }

  lemma MergeOne(acc: Item, values: Values, keys: set<string>, f0: string)
    requires keys <= values.Keys && f0 in values && values[f0].Some?
    ensures Merged(acc[f0 := values[f0].value], values, keys) == Merged(acc, values, keys + {f0})
  {
    if Merged(acc, values, keys + {f0}).Some? {
      var a := Merged(acc[f0 := values[f0].value], values, keys).value;
      var b := Merged(acc, values, keys + {f0}).value;
      assert a.Keys == b.Keys;
      assert a == b;
    }
  }

  /** Two clauses name one field. */
  ghost predicate Clash(t: Target, fields: map<string, Spec>, removed: seq<string>) {
    || (t.tsKey.Some? && (t.tsKey.value in fields || t.tsKey.value in removed))
    || Meets(removed, fields.Keys) || !Once(removed)
  }

  /** What an update does, from what its fields are to become: in its table, the update time and every set
      field get their new values, read from the old item, the removed fields go, the item is found by its
      keys, and the new item is asked for. No order comes into it. */
  ghost function Meaning(t: Target, now: int, before: Item, fields: map<string, Spec>, values: Values,
                         removed: seq<string>): Option<Progress>
    requires values.Keys == fields.Keys
  {
    var acc := if t.tsKey.Some? then before[t.tsKey.value := Bound(TimeParam(now))] else before;
    var stamped := if t.tsKey.Some? then {t.tsKey.value} else {};
    var item := Merged(acc, values, fields.Keys);
    if Clash(t, fields, removed) || item.None? then None
    else Some(Progress(t.table, item.value - Names(removed), stamped + fields.Keys + Names(removed),
                       [(t.hashKey, t.hash)] + (if t.rangeKey != "" then [(t.rangeKey, t.range)] else []), true))
  }

  lemma HeadPerforms(t: Target, now: int, before: Item, acts: seq<Act>, rest: seq<Param>)
    ensures var acc := if t.tsKey.Some? then before[t.tsKey.value := Bound(TimeParam(now))] else before;
      var stamped := if t.tsKey.Some? then {t.tsKey.value} else {};
      Perform(Acts(HeadClauses(t, now)) + acts, Params(HeadClauses(t, now)) + rest, before,
              Progress("", before, {}, [], false)) ==
      Perform(acts, rest, before, Progress(t.table, acc, stamped, [], false))
  {
    HeadText(t, now);
    var r0, r1 := Progress("", before, {}, [], false), Progress(t.table, before, {}, [], false);
    if t.tsKey.Some? {
      var stamp := Set(t.tsKey.value, Mark);
      assert [Head(t.table)] + [stamp] + acts == [Head(t.table)] + ([stamp] + acts);
      assert [] + ([TimeParam(now)] + rest) == [TimeParam(now)] + rest;
      FirstPerforms(Head(t.table), [stamp] + acts, [], [TimeParam(now)] + rest, before, r0);
      FirstPerforms(stamp, acts, [TimeParam(now)], rest, before, r1);
      assert {} + {t.tsKey.value} == {t.tsKey.value};
    } else {
      assert [] + rest == rest;
      FirstPerforms(Head(t.table), acts, [], rest, before, r0);
    }
    hide Perform;
  }

  lemma WherePerforms(t: Target, before: Item, r: Progress)
    requires r.keys == []
    ensures Perform(Acts(WhereClauses(t)), Params(WhereClauses(t)), before, r) ==
      Some((r.(keys := [(t.hashKey, t.hash)] + (if t.rangeKey != "" then [(t.rangeKey, t.range)] else []),
               returning := true), []))
  {
    WhereText(t);
    var r1 := r.(keys := [(t.hashKey, t.hash)]);
    assert r.keys + [(t.hashKey, t.hash)] == r1.keys;
    if t.rangeKey != "" {
      var r2 := r.(keys := [(t.hashKey, t.hash)] + [(t.rangeKey, t.range)]);
      assert [Where(t.hashKey)] + [And(t.rangeKey)] + [Returning] ==
             [Where(t.hashKey)] + ([And(t.rangeKey)] + [Returning]);
      assert [t.range] + [] == [t.range];
      hide Perform;
      FirstPerforms(Where(t.hashKey), [And(t.rangeKey)] + [Returning], [t.hash], [t.range], before, r);
      FirstPerforms(And(t.rangeKey), [Returning], [t.range], [], before, r1);
      LastPerforms(before, r2);
    } else {
      assert [t.hash] + [] == [t.hash] && r1.keys + [] == r1.keys;
      hide Perform;
      FirstPerforms(Where(t.hashKey), [Returning], [t.hash], [], before, r);
      LastPerforms(before, r1);
    }
  }

  lemma LastPerforms(before: Item, r: Progress)
    ensures Perform([Returning], [], before, r) == Some((r.(returning := true), []))
  {
    var none: seq<Param> := [];
    FirstPerforms(Returning, [], [], none, before, r);
    assert [Returning] + [] == [Returning] && none + none == none;
  }

  /** The clauses of every statement with their positional parameters, carried out by the server, give each
      set field what its own clause makes of it, in whatever order the map of set fields was walked. */
  lemma ActsMean(names: seq<string>, t: Target, now: int, before: Item, fields: map<string, Spec>,
                 order: seq<string>, removed: seq<string>)
    requires Enumerates(order, fields)
    ensures var cs := Statement(names, t, now, fields, order, removed);
      Execute(Acts(cs), Params(cs), before) == Meaning(t, now, before, fields, Sent(names, before, fields), removed)
  {
    var sets, where_ := SetClauses(names, fields, order), WhereClauses(t);
    var values := Sent(names, before, fields);
    var acc := if t.tsKey.Some? then before[t.tsKey.value := Bound(TimeParam(now))] else before;
    var stamped := if t.tsKey.Some? then {t.tsKey.value} else {};
    var r1 := Progress(t.table, acc, stamped, [], false);
    var rest := Acts(RemoveClauses(removed)) + Acts(where_);
    StatementSplits(names, t, now, fields, order, removed);
    assert Names(order) == fields.Keys;
    hide Perform, Statement, HeadClauses, SetClauses, RemoveClauses, WhereClauses, Params, Acts;
    hide Merged, SetAll, Sent, Clash;
    HeadPerforms(t, now, before, Acts(sets) + rest, Params(sets) + Params(where_));
    SetsPerform(names, before, fields, order, rest, Params(where_), r1);
    SetAllMerges(acc, values, order);
    StampClash(t, fields, order, removed);
    var item := Merged(acc, values, fields.Keys);
    if item.Some? && !(t.tsKey.Some? && t.tsKey.value in fields) {
      var r2 := r1.(item := item.value, named := stamped + fields.Keys);
      RemovesPerform(before, removed, Acts(where_), Params(where_), r2);
      WherePerforms(t, before, r2.(item := r2.item - Names(removed), named := r2.named + Names(removed)));
      ClashExactly(t, fields, removed);
    }
  }

  lemma AssocRight<T>(a: seq<T>, b: seq<T>, c: seq<T>, d: seq<T>)
    ensures a + b + c + d == a + (b + (c + d))
  {}

  /** The statement and its parameters, nested to the right. */
  lemma StatementSplits(names: seq<string>, t: Target, now: int, fields: map<string, Spec>,
                        order: seq<string>, removed: seq<string>)
    requires forall k :: 0 <= k < |order| ==> order[k] in fields
    ensures var cs := Statement(names, t, now, fields, order, removed);
      var sets, where_ := SetClauses(names, fields, order), WhereClauses(t);
      && Acts(cs) == Acts(HeadClauses(t, now)) + (Acts(sets) + (Acts(RemoveClauses(removed)) + Acts(where_)))
      && Params(cs) == Params(HeadClauses(t, now)) + (Params(sets) + Params(where_))
  {
    var a, b, c, d := HeadClauses(t, now), SetClauses(names, fields, order), RemoveClauses(removed), WhereClauses(t);
    StatementText(names, t, now, fields, order, removed);
    NoRemoveParams(removed);
    hide Statement, HeadClauses, SetClauses, RemoveClauses, WhereClauses, Params, Acts, Text;
    AssocRight(Acts(a), Acts(b), Acts(c), Acts(d));
    AssocRight(Params(a), Params(b), [], Params(d));
    assert [] + Params(d) == Params(d);
  }

  /** A stamped field that is also set is named twice. */
  lemma StampClash(t: Target, fields: map<string, Spec>, order: seq<string>, removed: seq<string>)
    requires Names(order) == fields.Keys
    ensures var stamped := if t.tsKey.Some? then {t.tsKey.value} else {};
      Meets(order, stamped) <==> t.tsKey.Some? && t.tsKey.value in fields
    ensures t.tsKey.Some? && t.tsKey.value in fields ==> Clash(t, fields, removed)
  {
    if t.tsKey.Some? && t.tsKey.value in fields {
      assert t.tsKey.value in Names(order);
    }
    forall k | 0 <= k < |order| ensures order[k] in fields { assert order[k] in Names(order); }
  }

  lemma NoRemoveParams(removed: seq<string>)
    ensures Params(RemoveClauses(removed)) == []
  {
    if removed != [] { NoRemoveParams(removed[1..]); }
  }

  lemma ClashExactly(t: Target, fields: map<string, Spec>, removed: seq<string>)
    requires !(t.tsKey.Some? && t.tsKey.value in fields)
    ensures var named := (if t.tsKey.Some? then {t.tsKey.value} else {}) + fields.Keys;
      Clash(t, fields, removed) <==> !Once(removed) || Meets(removed, named)
  {}

  // ---------- the server reads the text ----------

  /** What a name may consist of, so that the server sees where it ends. */
  predicate NameChar(c: char) {
    'a' <= c <= 'z' || 'A' <= c <= 'Z' || '0' <= c <= '9' || c in "_.[]-"
  }

  predicate PlainName(s: string) { s != "" && forall k :: 0 <= k < |s| ==> NameChar(s[k]) }

  /** How many name characters the text begins with. */
  function NameLength(s: string): (n: nat)
    ensures n <= |s|
  {
    if s == "" || !NameChar(s[0]) then 0 else 1 + NameLength(s[1..])
  }

  /** How many characters there are before the next double quote. */
  function TableLength(s: string): (n: nat)
    ensures n <= |s|
  {
    if s == "" || s[0] == '"' then 0 else 1 + TableLength(s[1..])
  }

  /** Something read, and the text behind it. */
  datatype Reading<T> = Unreadable | Readable(val: T, rest: string)

  /** The text behind a fixed beginning. */
  function Behind(s: string, fixed: string): Reading<()> {
    if StartsWith(s, fixed) then Readable((), s[|fixed|..]) else Unreadable
  }

  function ReadName(s: string): Reading<string> {
    var n := NameLength(s);
    if n == 0 then Unreadable else Readable(s[..n], s[n..])
  }

  /** A document and the parenthesis behind it; the document is kept as text. */
  function ReadCollection(s: string): Reading<string> {
    var r := ParseDoc(s);
    if r.Fail? then Unreadable
    else
      var close := Behind(r.rest, ")");
      if close.Unreadable? then Unreadable else Readable(s[..|s| - |r.rest|], close.rest)
  }

  /** The right-hand side of an assignment to a field: a placeholder, a call on the field itself and a
      collection, or the field itself with or without an amount. */
  function ReadValue(field: string, s: string): Reading<Value> {
    if StartsWith(s, "?") then Readable(Mark, s[1..])
    else if StartsWith(s, "LIST_APPEND(if_not_exists(" + field + ", []), ") then
      var r := ReadCollection(s[|"LIST_APPEND(if_not_exists(" + field + ", []), "|..]);
      if r.Unreadable? then Unreadable else Readable(Append(r.val), r.rest)
    else if StartsWith(s, "SET_ADD(" + field + ", ") then
      var r := ReadCollection(s[|"SET_ADD(" + field + ", "|..]);
      if r.Unreadable? then Unreadable else Readable(Add(r.val), r.rest)
    else if StartsWith(s, "SET_DELETE(" + field + ", ") then
      var r := ReadCollection(s[|"SET_DELETE(" + field + ", "|..]);
      if r.Unreadable? then Unreadable else Readable(Delete(r.val), r.rest)
    else if StartsWith(s, field + " + ?") then Readable(Plus, s[|field + " + ?"|..])
    else if StartsWith(s, field + " - ?") then Readable(Minus, s[|field + " - ?"|..])
    else if StartsWith(s, field) then Readable(Itself, s[|field|..])
    else Unreadable
  }

  /** A name and a comparison with a placeholder. */
  function ReadKey(s: string): Reading<string> {
    var name := ReadName(s);
    if name.Unreadable? then Unreadable
    else
      var eq := Behind(name.rest, " = ?");
      if eq.Unreadable? then Unreadable else Readable(name.val, eq.rest)
  }

  function ReadSet(s: string): Reading<Act> {
    var name := ReadName(s);
    if name.Unreadable? then Unreadable
    else
      var eq := Behind(name.rest, " = ");
      if eq.Unreadable? then Unreadable
      else
        var v := ReadValue(name.val, eq.rest);
        if v.Unreadable? then Unreadable else Readable(Set(name.val, v.val), v.rest)
  }

  function ReadTable(s: string): Reading<Act> {
    var n := TableLength(s);
    if n == |s| then Unreadable else Readable(Head(s[..n]), s[n + 1..])
  }

  /** One clause, by its first word. */
  function ReadAct(s: string): Reading<Act> {
    if StartsWith(s, "UPDATE \"") then ReadTable(s[8..])
    else if StartsWith(s, " SET ") then ReadSet(s[5..])
    else if StartsWith(s, " REMOVE ") then
      var r := ReadName(s[8..]);
      if r.Unreadable? then Unreadable else Readable(Remove(r.val), r.rest)
    else if StartsWith(s, " WHERE ") then
      var r := ReadKey(s[7..]);
      if r.Unreadable? then Unreadable else Readable(Where(r.val), r.rest)
    else if StartsWith(s, " AND ") then
      var r := ReadKey(s[5..]);
      if r.Unreadable? then Unreadable else Readable(And(r.val), r.rest)
    else if StartsWith(s, " RETURNING ALL NEW *") then Readable(Returning, s[20..])
    else Unreadable
  }

  /** The server's reader: a text as a sequence of clauses. */
  function ReadText(s: string): Option<seq<Act>>
    decreases |s|
  {
    if s == "" then Some([])
    else
      var r := ReadAct(s);
      if r.Unreadable? || |r.rest| >= |s| then None
      else
        var more := ReadText(r.rest);
        if more.None? then None else Some([r.val] + more.value)
  }

  /** The text that was sent, and its parameters, at the server. */
  function ExecuteText(text: string, ps: seq<Param>, before: Item): Option<Progress> {
    var acts := ReadText(text);
    if acts.None? then None else Execute(acts.value, ps, before)
  }

  // ---------- every statement with plain names is read back ----------

  /** What may stand behind a clause: nothing, or the next one. */
  predicate NextClause(s: string) { s == "" || (|s| >= 2 && s[0] == ' ' && 'A' <= s[1] <= 'Z') }

  lemma Begins(fixed: string, s: string)
    ensures StartsWith(fixed + s, fixed) && (fixed + s)[|fixed|..] == s
  {}

  lemma {:induction false} NameEnds(name: string, s: string)
    requires PlainName(name) && (s == "" || !NameChar(s[0]))
    ensures NameLength(name + s) == |name|
  {
    var t := name + s;
    assert t[0] == name[0] && NameChar(t[0]) && t[1..] == name[1..] + s;
    if |name| == 1 {
      assert t[1..] == s;
    } else {
      NameEnds(name[1..], s);
    }
  }

  lemma ReadsName(name: string, s: string)
    requires PlainName(name) && (s == "" || !NameChar(s[0]))
    ensures ReadName(name + s) == Readable(name, s)
  {
    NameEnds(name, s);
    assert (name + s)[..|name|] == name && (name + s)[|name|..] == s;
  }

  lemma {:induction false} TableEnds(table: string, s: string)
    requires '"' !in table && s != "" && s[0] == '"'
    ensures TableLength(table + s) == |table|
  {
    if table == "" {
      assert table + s == s;
    } else {
      assert (table + s)[1..] == table[1..] + s;
      TableEnds(table[1..], s);
    }
  }

  lemma ReadsTable(table: string, quote: string, s: string)
    requires '"' !in table && quote == "\""
    ensures ReadTable(table + quote + s) == Readable(Head(table), s)
  {
    assert table + quote + s == table + (quote + s);
    TableEnds(table, quote + s);
    assert (table + (quote + s))[..|table|] == table && (table + (quote + s))[|table| + 1..] == s;
  }

  lemma ReadsKey(name: string, eq: string, s: string)
    requires PlainName(name) && eq == " = ?"
    ensures ReadKey(name + eq + s) == Readable(name, s)
  {
    assert name + eq + s == name + (eq + s);
    ReadsName(name, eq + s);
    Begins(eq, s);
  }

  /** A collection whose text is a document. */
  lemma ReadsCollection(text: string, close: string, s: string)
    requires Parse(text).Some? && close == ")"
    ensures ReadCollection(text + close + s) == Readable(text, s)
  {
    var d := Parse(text).value;
    ParserIsInverse(text, d);
    assert text + close + s == Print(d, true) + (close + s);
    ReadDoc(d, close + s);
    Begins(close, s);
    var all := text + close + s;
    assert |all| - |close + s| == |text| && all[..|text|] == text;
  }

  lemma Word4(a: string, b: string, c: string, d: string)
    ensures a + b + c + d == a + (b + c + d)
  {}

  lemma Word5(a: string, b: string, c: string, d: string, e: string)
    ensures a + b + c + d + e == a + (b + c + d + e)
  {}

  lemma ReadsCall(open: string, text: string, close: string, s: string)
    requires Parse(text).Some? && close == ")"
    ensures var all := open + text + close + s;
      StartsWith(all, open) && ReadCollection(all[|open|..]) == Readable(text, s)
  {
    hide Parse, ReadCollection;
    Word4(open, text, close, s);
    Begins(open, text + close + s);
    ReadsCollection(text, close, s);
  }

  /** A name with nothing or a space behind it is not the beginning of a call. */
  lemma NoCall(name: string, s: string, fn: string, call: string)
    requires PlainName(name) && (s == "" || s[0] == ' ')
    requires PlainName(fn) && |call| > |fn| && call[..|fn|] == fn && call[|fn|] == '('
    ensures !StartsWith(name + s, call)
  {
    var t := name + s;
    if |name| > |fn| {
      assert t[|fn|] == name[|fn|] && NameChar(name[|fn|]);
    } else if s != "" {
      assert t[|name|] == ' ';
      assert |name| < |fn| ==> call[|name|] == fn[|name|] && NameChar(fn[|name|]);
    }
  }

  /** The calls begin with their function names. */
  lemma CallNames(field: string)
    ensures var call := "LIST_APPEND(if_not_exists(" + field + ", []), ";
      |call| > 11 && PlainName(call[..11]) && call[11] == '(' && call[0] == 'L'
    ensures var call := "SET_ADD(" + field + ", ";
      |call| > 7 && PlainName(call[..7]) && call[7] == '(' && call[0] == 'S' && call[4] == 'A'
    ensures var call := "SET_DELETE(" + field + ", ";
      |call| > 10 && PlainName(call[..10]) && call[10] == '(' && call[0] == 'S' && call[4] == 'D'
  {
    assert ("LIST_APPEND(if_not_exists(" + field + ", []), ")[..11] == "LIST_APPEND";
    assert ("SET_ADD(" + field + ", ")[..7] == "SET_ADD";
    assert ("SET_DELETE(" + field + ", ")[..10] == "SET_DELETE";
  }

  lemma ReadsMark(field: string, s: string, mark: string)
    requires mark == "?"
    ensures ReadValue(field, mark + s) == Readable(Mark, s)
  {
    Begins(mark, s);
  }

  /** A text that begins with one of the calls begins with no other and not with a placeholder. */
  lemma OneCall(field: string, open: string, all: string)
    requires open == "LIST_APPEND(if_not_exists(" + field + ", []), " || open == "SET_ADD(" + field + ", "
             || open == "SET_DELETE(" + field + ", "
    requires StartsWith(all, open)
    ensures !StartsWith(all, "?")
    ensures open != "LIST_APPEND(if_not_exists(" + field + ", []), " ==>
              !StartsWith(all, "LIST_APPEND(if_not_exists(" + field + ", []), ")
    ensures open == "SET_DELETE(" + field + ", " ==> !StartsWith(all, "SET_ADD(" + field + ", ")
    ensures open == "SET_ADD(" + field + ", " ==> open != "LIST_APPEND(if_not_exists(" + field + ", []), "
    ensures open == "SET_DELETE(" + field + ", " ==>
              open != "LIST_APPEND(if_not_exists(" + field + ", []), " && open != "SET_ADD(" + field + ", "
  {
    CallNames(field);
    assert all[0] == open[0] && all[4] == open[4];
  }

  lemma ReadsFunction(field: string, v: Value, s: string)
    requires (v.Append? || v.Add? || v.Delete?) && Parse(v.text).Some?
    ensures ReadValue(field, RenderValue(field, v) + s) == Readable(v, s)
  {
    var append, add, delete :=
      "LIST_APPEND(if_not_exists(" + field + ", []), ", "SET_ADD(" + field + ", ", "SET_DELETE(" + field + ", ";
    var open := if v.Append? then append else if v.Add? then add else delete;
    ReadsCall(open, v.text, ")", s);
    var all := RenderValue(field, v) + s;
    assert all == open + v.text + ")" + s;
    hide Parse, ReadCollection, RenderValue;
    OneCall(field, open, all);
    hide StartsWith;
  }

  /** The field itself, with what stands behind it. */
  lemma ReadsOwn(field: string, s: string)
    requires PlainName(field) && (s == "" || s[0] == ' ')
    ensures ReadValue(field, field + s) ==
      if StartsWith(field + s, field + " + ?") then Readable(Plus, (field + s)[|field + " + ?"|..])
      else if StartsWith(field + s, field + " - ?") then Readable(Minus, (field + s)[|field + " - ?"|..])
      else Readable(Itself, s)
  {
    CallNames(field);
    var append, add, delete :=
      "LIST_APPEND(if_not_exists(" + field + ", []), ", "SET_ADD(" + field + ", ", "SET_DELETE(" + field + ", ";
    NoCall(field, s, append[..11], append);
    NoCall(field, s, add[..7], add);
    NoCall(field, s, delete[..10], delete);
    Begins(field, s);
    assert (field + s)[0] == field[0] && NameChar(field[0]);
    assert !StartsWith(field + s, "?");
  }

  lemma ReadsAmount(field: string, plus: string, s: string)
    requires PlainName(field) && (plus == " + ?" || plus == " - ?")
    ensures ReadValue(field, field + plus + s) == Readable(if plus == " + ?" then Plus else Minus, s)
  {
    var all := field + (plus + s);
    assert field + plus + s == all && (plus + s)[0] == ' ' && all[|field| + 1] == plus[1];
    ReadsOwn(field, plus + s);
    Begins(field + plus, s);
    assert (field + " + ?")[|field| + 1] == '+' && (field + " - ?")[|field| + 1] == '-';
  }

  lemma ReadsItself(field: string, s: string)
    requires PlainName(field) && NextClause(s)
    ensures ReadValue(field, field + s) == Readable(Itself, s)
  {
    ReadsOwn(field, s);
    var all := field + s;
    assert (field + " + ?")[|field| + 1] == '+' && (field + " - ?")[|field| + 1] == '-';
    if s != "" { assert all[|field| + 1] == s[1]; }
  }

  /** A collection in a value is a document, whichever. */
  predicate ValueReads(v: Value) { v.Append? || v.Add? || v.Delete? ==> Parse(v.text).Some? }

  lemma ReadsValue(field: string, v: Value, s: string)
    requires PlainName(field) && ValueReads(v) && NextClause(s)
    ensures ReadValue(field, RenderValue(field, v) + s) == Readable(v, s)
  {
    hide ReadValue, ReadCollection, Parse;
    match v
    case Mark => ReadsMark(field, s, "?");
    case Itself => ReadsItself(field, s);
    case Plus => ReadsAmount(field, " + ?", s);
    case Minus => ReadsAmount(field, " - ?", s);
    case _ => ReadsFunction(field, v, s);
  }

  lemma ReadsSet(field: string, eq: string, v: Value, s: string)
    requires PlainName(field) && ValueReads(v) && NextClause(s) && eq == " = "
    ensures ReadSet(field + eq + RenderValue(field, v) + s) == Readable(Set(field, v), s)
  {
    hide ReadValue, RenderValue, ReadName, PlainName;
    var v' := RenderValue(field, v);
    var rest := v' + s;
    Word4(field, eq, v', s);
    assert eq + v' + s == eq + rest;
    assert (eq + rest)[0] == ' ';
    ReadsName(field, eq + rest);
    Begins(eq, rest);
    ReadsValue(field, v, s);
  }

  /** Plain names, a table name without a quote, and collections that are documents. */
  predicate ActReads(a: Act) {
    match a
    case Head(table) => '"' !in table
    case Set(field, value) => PlainName(field) && ValueReads(value)
    case Remove(field) => PlainName(field)
    case Where(field) => PlainName(field)
    case And(field) => PlainName(field)
    case Returning => true
  }

  /** How a clause goes on behind its first word, which is told from the others by its second and fourth
      characters. */
  lemma ByFirstWord(word: string, s: string)
    requires word in {"UPDATE \"", " SET ", " REMOVE ", " WHERE ", " AND "}
    ensures ReadAct(word + s) ==
      if word == "UPDATE \"" then ReadTable(s)
      else if word == " SET " then ReadSet(s)
      else if word == " REMOVE " then
        (var r := ReadName(s); if r.Unreadable? then Unreadable else Readable(Remove(r.val), r.rest))
      else if word == " WHERE " then
        (var r := ReadKey(s); if r.Unreadable? then Unreadable else Readable(Where(r.val), r.rest))
      else (var r := ReadKey(s); if r.Unreadable? then Unreadable else Readable(And(r.val), r.rest))
  {
    hide ReadTable, ReadSet, ReadName, ReadKey;
    Begins(word, s);
    var all := word + s;
    assert all[0] == word[0] && all[1] == word[1];
  }

  lemma ReadsReturning(word: string, s: string)
    requires word == " RETURNING ALL NEW *"
    ensures ReadAct(word + s) == Readable(Returning, s)
  {
    Begins(word, s);
    var all := word + s;
    assert all[0] == ' ' && all[1] == 'R' && all[3] == 'T';
  }

  lemma ReadsHead(table: string, s: string)
    requires '"' !in table
    ensures ReadAct(Render(Head(table)) + s) == Readable(Head(table), s)
  {
    hide ReadAct, ReadTable;
    Word4("UPDATE \"", table, "\"", s);
    ByFirstWord("UPDATE \"", table + "\"" + s);
    ReadsTable(table, "\"", s);
  }

  lemma ReadsAssignment(field: string, v: Value, s: string)
    requires PlainName(field) && ValueReads(v) && NextClause(s)
    ensures ReadAct(Render(Set(field, v)) + s) == Readable(Set(field, v), s)
  {
    hide ReadAct, ReadSet, RenderValue, PlainName, ValueReads;
    Word5(" SET ", field, " = ", RenderValue(field, v), s);
    ByFirstWord(" SET ", field + " = " + RenderValue(field, v) + s);
    ReadsSet(field, " = ", v, s);
  }

  lemma ReadsRemove(field: string, s: string)
    requires PlainName(field) && NextClause(s)
    ensures ReadAct(Render(Remove(field)) + s) == Readable(Remove(field), s)
  {
    hide ReadAct, ReadName, PlainName;
    Assoc3(" REMOVE ", field, s);
    ByFirstWord(" REMOVE ", field + s);
    ReadsName(field, s);
  }

  lemma ReadsWhere(field: string, s: string)
    requires PlainName(field)
    ensures ReadAct(Render(Where(field)) + s) == Readable(Where(field), s)
  {
    hide ReadAct, ReadKey, PlainName;
    Word4(" WHERE ", field, " = ?", s);
    ByFirstWord(" WHERE ", field + " = ?" + s);
    ReadsKey(field, " = ?", s);
  }

  lemma ReadsAnd(field: string, s: string)
    requires PlainName(field)
    ensures ReadAct(Render(And(field)) + s) == Readable(And(field), s)
  {
    hide ReadAct, ReadKey, PlainName;
    Word4(" AND ", field, " = ?", s);
    ByFirstWord(" AND ", field + " = ?" + s);
    ReadsKey(field, " = ?", s);
  }

  lemma ReadsAct(a: Act, s: string)
    requires ActReads(a) && NextClause(s)
    ensures ReadAct(Render(a) + s) == Readable(a, s)
  {
    match a
    case Head(table) => ReadsHead(table, s);
    case Set(field, v) => ReadsAssignment(field, v, s);
    case Remove(field) => ReadsRemove(field, s);
    case Where(field) => ReadsWhere(field, s);
    case And(field) => ReadsAnd(field, s);
    case Returning => ReadsReturning(" RETURNING ALL NEW *", s);
  }

  /** Every clause but the head begins with a space and a capital. */
  lemma BeginsClause(a: Act, s: string)
    requires !a.Head?
    ensures NextClause(Render(a) + s) && Render(a) != ""
  {
    var t := Render(a);
    hide RenderValue;
    assert |t| >= 2 && t[0] == ' ' && 'A' <= t[1] <= 'Z';
    assert (t + s)[0] == t[0] && (t + s)[1] == t[1];
  }

  ghost predicate AllRead(cs: seq<Clause>) { forall k :: 0 <= k < |cs| ==> ActReads(cs[k].act) }

  /** Every statement of clauses with plain names is read back from its text, clause by clause. */
  lemma {:induction false} ReadsText(cs: seq<Clause>)
    requires AllRead(cs) && forall k :: 0 < k < |cs| ==> !cs[k].act.Head?
    ensures ReadText(Text(cs)) == Some(Acts(cs))
    ensures cs != [] && !cs[0].act.Head? ==> NextClause(Text(cs))
  {
    if cs != [] {
      var a, rest := cs[0].act, cs[1..];
      assert ActReads(a);
      ReadsText(rest);
      hide ReadAct, Render, ActReads;
      assert NextClause(Text(rest)) by { if rest != [] { assert rest[0] == cs[1]; } }
      ReadsAct(a, Text(rest));
      Nonempty(a);
      if !a.Head? { BeginsClause(a, Text(rest)); }
    }
  }

  lemma Nonempty(a: Act)
    ensures Render(a) != ""
  {}

  /** The names are plain, and the table name has no quote. */
  ghost predicate PlainNames(t: Target, fields: map<string, Spec>, removed: seq<string>) {
    && '"' !in t.table && (t.tsKey.Some? ==> PlainName(t.tsKey.value)) && PlainName(t.hashKey)
    && (t.rangeKey != "" ==> PlainName(t.rangeKey))
    && (forall k :: 0 <= k < |removed| ==> PlainName(removed[k])) && forall f :: f in fields ==> PlainName(f)
  }

  /** And every collection is a document. */
  ghost predicate Legible(names: seq<string>, t: Target, fields: map<string, Spec>, removed: seq<string>) {
    PlainNames(t, fields, removed) && forall f :: f in fields ==> SpecReads(names, fields[f])
  }

  predicate SpecReads(names: seq<string>, spec: Spec) {
    spec.IsCollection() ==> Parse(CollectionText(names, spec)).Some?
  }

  lemma SetReads(names: seq<string>, field: string, spec: Spec)
    requires PlainName(field) && SpecReads(names, spec)
    ensures var a := SetClause(names, field, spec).act; ActReads(a) && !a.Head?
  {
    hide Parse, CollectionText;
  }

  lemma {:induction false} SetsRead(names: seq<string>, fields: map<string, Spec>, order: seq<string>)
    requires forall k :: 0 <= k < |order| ==>
      order[k] in fields && PlainName(order[k]) && SpecReads(names, fields[order[k]])
    ensures var cs := SetClauses(names, fields, order);
      AllRead(cs) && forall k :: 0 <= k < |cs| ==> !cs[k].act.Head?
  {
    if order != [] {
      SetReads(names, order[0], fields[order[0]]);
      hide SetClause, ActReads, PlainName, SpecReads;
      SetsRead(names, fields, order[1..]);
    }
  }

  lemma {:induction false} RemovesRead(removed: seq<string>)
    requires forall k :: 0 <= k < |removed| ==> PlainName(removed[k])
    ensures var cs := RemoveClauses(removed); AllRead(cs) && forall k :: 0 <= k < |cs| ==> !cs[k].act.Head?
  {
    if removed != [] {
      hide PlainName;
      RemovesRead(removed[1..]);
    }
  }

  lemma StatementReads(names: seq<string>, t: Target, now: int, fields: map<string, Spec>,
                       order: seq<string>, removed: seq<string>)
    requires (forall k :: 0 <= k < |order| ==> order[k] in fields) && Legible(names, t, fields, removed)
    ensures var cs := Statement(names, t, now, fields, order, removed); ReadText(Text(cs)) == Some(Acts(cs))
  {
    var a, b, c, d := HeadClauses(t, now), SetClauses(names, fields, order), RemoveClauses(removed), WhereClauses(t);
    var cs := Statement(names, t, now, fields, order, removed);
    hide PlainName, SpecReads;
    SetsRead(names, fields, order);
    RemovesRead(removed);
    assert AllRead(a) && AllRead(d);
    assert (forall k :: 0 < k < |a| ==> !a[k].act.Head?) && forall k :: 0 <= k < |d| ==> !d[k].act.Head?;
    hide ActReads, HeadClauses, SetClauses, RemoveClauses, WhereClauses;
    FourParts(a, b, c, d);
    ReadsText(cs);
  }

  lemma FourParts(a: seq<Clause>, b: seq<Clause>, c: seq<Clause>, d: seq<Clause>)
    requires AllRead(a) && AllRead(b) && AllRead(c) && AllRead(d)
    requires a != [] && forall k :: 0 < k < |a| ==> !a[k].act.Head?
    requires forall k :: 0 <= k < |b| ==> !b[k].act.Head?
    requires forall k :: 0 <= k < |c| ==> !c[k].act.Head?
    requires forall k :: 0 <= k < |d| ==> !d[k].act.Head?
    ensures var cs := a + b + c + d; AllRead(cs) && forall k :: 0 < k < |cs| ==> !cs[k].act.Head?
  {
    hide ActReads;
  }

  /** The text of every statement with plain names, read by the server with its parameters by position,
      gives each set field what its own clause makes of it, whatever the order of the set fields. */
  lemma StatementMeans(names: seq<string>, t: Target, now: int, before: Item, fields: map<string, Spec>,
                       order: seq<string>, removed: seq<string>)
    requires Enumerates(order, fields) && Legible(names, t, fields, removed)
    ensures var cs := Statement(names, t, now, fields, order, removed);
      ExecuteText(Text(cs), Params(cs), before) == Meaning(t, now, before, fields, Sent(names, before, fields), removed)
  {
    hide Meaning, Statement, Legible, Execute, Text;
    StatementReads(names, t, now, fields, order, removed);
    ActsMean(names, t, now, before, fields, order, removed);
  }

  /** And if every clause can carry what was asked for, the statement does just that. */
  lemma StatementDoesAsAsked(names: seq<string>, t: Target, now: int, before: Item, fields: map<string, Spec>,
                             order: seq<string>, removed: seq<string>)
    requires Enumerates(order, fields) && AllSendable(names, fields) && PlainNames(t, fields, removed)
    ensures var cs := Statement(names, t, now, fields, order, removed);
      ExecuteText(Text(cs), Params(cs), before) ==
      Meaning(t, now, before, fields, Asked(names, before, fields), removed)
  {
    hide ExecuteText, Meaning, Statement, Legible, PlainNames, AllSendable;
    SentIsAsked(names, before, fields);
    SendableReads(names, t, fields, removed);
    StatementMeans(names, t, now, before, fields, order, removed);
  }

  ghost predicate AllSendable(names: seq<string>, fields: map<string, Spec>) {
    forall f :: f in fields ==> Sendable(names, fields[f])
  }

  lemma SentIsAsked(names: seq<string>, before: Item, fields: map<string, Spec>)
    requires AllSendable(names, fields)
    ensures Sent(names, before, fields) == Asked(names, before, fields)
  {
    forall f | f in fields ensures Sent(names, before, fields)[f] == Asked(names, before, fields)[f] {
      ClauseMeans(names, fields[f], Get(before, f));
      hide ValueOf, NewAttr, NewValue, Sendable;
    }
    hide NewAttr, NewValue, ValueOf;
  }

  lemma SendableReads(names: seq<string>, t: Target, fields: map<string, Spec>, removed: seq<string>)
    requires AllSendable(names, fields) && PlainNames(t, fields, removed)
    ensures Legible(names, t, fields, removed)
  {
    forall f | f in fields ensures SpecReads(names, fields[f]) {
      if fields[f].IsCollection() { CollectionParses(names, fields[f]); }
      hide Parse, CollectionText, CleanSpec;
    }
    hide PlainNames, SpecReads;
  }

  /** The order does not matter: not for the clauses of any update, nor for the text of a legible one. */
  lemma OrderDoesNotMatter(names: seq<string>, t: Target, now: int, before: Item, fields: map<string, Spec>,
                           a: seq<string>, b: seq<string>, removed: seq<string>)
    requires Enumerates(a, fields) && Enumerates(b, fields)
    ensures var x := Statement(names, t, now, fields, a, removed);
      var y := Statement(names, t, now, fields, b, removed);
      && Execute(Acts(x), Params(x), before) == Execute(Acts(y), Params(y), before)
      && (Legible(names, t, fields, removed) ==>
            ExecuteText(Text(x), Params(x), before) == ExecuteText(Text(y), Params(y), before))
  {
    hide Execute, ExecuteText, Meaning, Statement, Legible, Text;
    ActsMean(names, t, now, before, fields, a, removed);
    ActsMean(names, t, now, before, fields, b, removed);
    if Legible(names, t, fields, removed) {
      StatementMeans(names, t, now, before, fields, a, removed);
      StatementMeans(names, t, now, before, fields, b, removed);
    }
  }

  // ---------- the builder object ----------

  datatype Error = FieldAlreadySet(field: string) | InvalidIncrement

  datatype Result = Failed(error: Error) | Panicked | Built(text: string, params: seq<Param>)

  /** A Go value given to Increment. */
  datatype Given = AnInt(i: int) | AUint(u: nat) | AFloat(x: real) | NotANumber

  class Update {
    const target: Target
    var setFields: map<string, Spec>
    var removeFields: seq<string>
    var err: Option<Error>

    constructor (target: Target)
      ensures this.target == target && setFields == map[] && removeFields == [] && err.None?
    {
      this.target := target;
      setFields, removeFields, err := map[], [], None;
    }

    /** A field can be set once; the second time is an error and changes nothing else. */
    method Set(field: string, spec: Spec)
      modifies this
      ensures removeFields == old(removeFields)
      ensures if old(field in setFields)
              then setFields == old(setFields) && err == Some(FieldAlreadySet(field))
              else setFields == old(setFields)[field := spec] && err == old(err)
    {
      if field in setFields {
        err := Some(FieldAlreadySet(field));
        return;
      }
      setFields := setFields[field := spec];
    }

    method Remove(field: string)
      modifies this`removeFields
      ensures removeFields == old(removeFields) + [field]
    {
      removeFields := removeFields + [field];
    }

    method IncrementBy(field: string, value: Given)
      modifies this
      ensures value.NotANumber? ==> setFields == old(setFields) && err == Some(InvalidIncrement)
      ensures !value.NotANumber? && old(field !in setFields) ==> err == old(err) && setFields == old(setFields)[field :=
        match value case AnInt(i) => IncInt(i) case AUint(u) => IncUint(u)
          case AFloat(x) => IncReal(x) case NotANumber => IncUint(0)]
      ensures !value.NotANumber? && old(field in setFields) ==>
        setFields == old(setFields) && err == Some(FieldAlreadySet(field))
    {
      match value {
        case AnInt(i) => Set(field, IncInt(i));
        case AUint(u) => Set(field, IncUint(u));
        case AFloat(x) => Set(field, IncReal(x));
        case NotANumber => err := Some(InvalidIncrement);
      }
    }

    /** The statement and parameters that `Execute` sends; `order` is how it walks the map. */
    method Build(order: seq<string>, now: int) returns (r: Result)
      requires Enumerates(order, setFields)
      ensures err.Some? ==> r == Failed(err.value)
      ensures err.None? ==> (r.Panicked? <==>
        exists k :: 0 <= k < |order| && SpecPanics(DefaultTagNames(), setFields[order[k]]))
      ensures r.Built? ==>
        var cs := Statement(DefaultTagNames(), target, now, setFields, order, removeFields);
        r.text == Text(cs) && r.params == Params(cs)
      ensures r.Built? && Legible(DefaultTagNames(), target, setFields, removeFields) ==>
        forall before: Item ::
          ExecuteText(r.text, r.params, before) ==
          Meaning(target, now, before, setFields, Sent(DefaultTagNames(), before, setFields), removeFields)
      ensures r.Built? && PlainNames(target, setFields, removeFields) && AllSendable(DefaultTagNames(), setFields) ==>
        forall before: Item ::
          ExecuteText(r.text, r.params, before) ==
          Meaning(target, now, before, setFields, Asked(DefaultTagNames(), before, setFields), removeFields)
    {
      hide DefaultTagNames, SpecPanics;
      if err.Some? {
        return Failed(err.value);
      }
      var head, headParams := WriteHead(now);
      var panicked, sets, setParams := WriteSets(order);
      if panicked {
        return Panicked;
      }
      var removes := WriteRemoves();
      var where_, whereParams := WriteWhere();
      StatementText(DefaultTagNames(), target, now, setFields, order, removeFields);
      BuiltMeans(DefaultTagNames(), target, now, setFields, order, removeFields);
      hide Text, Params, Acts, Statement, ExecuteText, Meaning, Legible, PlainNames, AllSendable;
      r := Built(head + sets + removes + where_, headParams + setParams + [] + whereParams);
    }

    method WriteHead(now: int) returns (sb: string, params: seq<Param>)
      ensures sb == Text(HeadClauses(target, now)) && params == Params(HeadClauses(target, now))
    {
      HeadText(target, now);
      sb := "UPDATE \"" + target.table + "\"";
      params := [];
      if target.tsKey.Some? {
        sb := sb + (" SET " + target.tsKey.value + " = ?");
        params := params + [TimeParam(now)];
      }
    }

    method WriteSets(order: seq<string>) returns (panicked: bool, sb: string, params: seq<Param>)
      requires forall k :: 0 <= k < |order| ==> order[k] in setFields
      ensures panicked <==> exists k :: 0 <= k < |order| && SpecPanics(DefaultTagNames(), setFields[order[k]])
      ensures !panicked ==>
        var cs := SetClauses(DefaultTagNames(), setFields, order); sb == Text(cs) && params == Params(cs)
    {
      sb, params, panicked := "", [], false;
      var i := 0;
      ghost var all := SetClauses(DefaultTagNames(), setFields, order);
      assert order[0..] == order;
      hide DefaultTagNames, SpecPanics, SetClause, SetClauses, Render, Text, Params;
      while i < |order|
        invariant i <= |order|
        invariant forall k :: 0 <= k < i ==> !SpecPanics(DefaultTagNames(), setFields[order[k]])
        invariant sb + Text(SetClauses(DefaultTagNames(), setFields, order[i..])) == Text(all)
        invariant params + Params(SetClauses(DefaultTagNames(), setFields, order[i..])) == Params(all)
      {
        SetsNext(DefaultTagNames(), setFields, order, i, sb, params);
        var text, ps;
        panicked, text, ps := WriteSet(order[i], setFields[order[i]]);
        if panicked {
          return;
        }
        sb, params := sb + text, params + ps;
        i := i + 1;
      }
      NoSets(DefaultTagNames(), setFields, order);
    }

    /** One turn of the loop over the set fields. A collection is written by an encoder of its own. */
    method WriteSet(field: string, spec: Spec) returns (panicked: bool, sb: string, params: seq<Param>)
      ensures panicked == SpecPanics(DefaultTagNames(), spec)
      ensures !panicked ==>
        var c := SetClause(DefaultTagNames(), field, spec); sb == Render(c.act) && params == c.params
    {
      hide DefaultTagNames, Written, Panics;
      panicked, sb, params := false, " SET " + field + " = ", [];
      match spec {
        case SetTo(p) =>
          sb, params := sb + "?", [p];
        case AppendTo(items) =>
          var text;
          panicked, text := EncodeItems(items, false);
          sb := sb + ("LIST_APPEND(if_not_exists(" + field + ", []), " + text + ")");
        case AddTo(items) =>
          var text;
          panicked, text := EncodeItems(items, true);
          sb := sb + ("SET_ADD(" + field + ", " + text + ")");
        case DeleteFrom(items) =>
          var text;
          panicked, text := EncodeItems(items, true);
          sb := sb + ("SET_DELETE(" + field + ", " + text + ")");
        case _ =>
          var text;
          text, params := ApplyIncrement(field, spec);
          sb := sb + text;
      }
    }

    method EncodeItems(items: seq<Val>, bag: bool) returns (panicked: bool, text: string)
      ensures panicked == SomePanics(DefaultTagNames(), items)
      ensures !panicked ==> text == Written(DefaultTagNames(), VSlice(items, false), bag, false, false).text
    {
      var enc := new Encoder(DefaultTagNames());
      var r := enc.Encode(VSlice(items, false), bag);
      panicked := r.EncodePanic?;
      text := if panicked then "" else r.text;
    }

    method ApplyIncrement(field: string, spec: Spec) returns (sb: string, params: seq<Param>)
      requires spec.IsIncrement()
      ensures sb == RenderValue(field, IncrementOf(spec).0) && params == IncrementOf(spec).1
    {
      sb, params := field, [];
      match spec {
        case IncInt(v) =>
          if v == 0 {
            return;
          }
          var inc := v;
          if v >= 0 {
            sb := sb + " + ?";
          } else {
            inc := Neg64(v);
            sb := sb + " - ?";
          }
          params := [IntParam(inc)];
        case IncUint(u) =>
          if u == 0 {
            return;
          }
          sb, params := sb + " + ?", [UintParam(u)];
        case IncReal(x) =>
          if x == 0.0 {
            return;
          }
          var inc := x;
          if x >= 0.0 {
            sb := sb + " + ?";
          } else {
            inc := -x;
            sb := sb + " - ?";
          }
          params := [RealParam(inc)];
      }
    }

    method WriteRemoves() returns (sb: string)
      ensures sb == Text(RemoveClauses(removeFields)) && Params(RemoveClauses(removeFields)) == []
    {
      sb := "";
      var j := 0;
      while j < |removeFields|
        invariant j <= |removeFields|
        invariant sb == Text(RemoveClauses(removeFields[..j])) && Params(RemoveClauses(removeFields[..j])) == []
      {
        RemoveClausesAppend(removeFields, j);
        sb := sb + (" REMOVE " + removeFields[j]);
        j := j + 1;
      }
      assert removeFields[..j] == removeFields;
    }

    method WriteWhere() returns (sb: string, params: seq<Param>)
      ensures sb == Text(WhereClauses(target)) && params == Params(WhereClauses(target))
    {
      WhereText(target);
      hide Text, Params, Acts;
      sb := " WHERE " + target.hashKey + " = ?";
      params := [target.hash];
      if target.rangeKey != "" {
        sb := sb + (" AND " + target.rangeKey + " = ?");
        params := params + [target.range];
      }
      sb := sb + " RETURNING ALL NEW *";
    }
  }

  predicate SpecPanics(names: seq<string>, spec: Spec) {
    spec.IsCollection() && SomePanics(names, spec.items)
  }

  /** What a built statement does, on every item. */
  lemma BuiltMeans(names: seq<string>, t: Target, now: int, fields: map<string, Spec>,
                   order: seq<string>, removed: seq<string>)
    requires Enumerates(order, fields)
    ensures var cs := Statement(names, t, now, fields, order, removed);
      && (Legible(names, t, fields, removed) ==> forall before: Item ::
            ExecuteText(Text(cs), Params(cs), before) ==
            Meaning(t, now, before, fields, Sent(names, before, fields), removed))
      && (PlainNames(t, fields, removed) && AllSendable(names, fields) ==> forall before: Item ::
            ExecuteText(Text(cs), Params(cs), before) ==
            Meaning(t, now, before, fields, Asked(names, before, fields), removed))
  {
    hide Text, Params, Statement, ExecuteText, Meaning, Legible, PlainNames, AllSendable;
    forall before: Item
      ensures var cs := Statement(names, t, now, fields, order, removed);
        && (Legible(names, t, fields, removed) ==>
              ExecuteText(Text(cs), Params(cs), before) ==
              Meaning(t, now, before, fields, Sent(names, before, fields), removed))
        && (PlainNames(t, fields, removed) && AllSendable(names, fields) ==>
              ExecuteText(Text(cs), Params(cs), before) ==
              Meaning(t, now, before, fields, Asked(names, before, fields), removed))
    {
      if Legible(names, t, fields, removed) { StatementMeans(names, t, now, before, fields, order, removed); }
      if PlainNames(t, fields, removed) && AllSendable(names, fields) {
        StatementDoesAsAsked(names, t, now, before, fields, order, removed);
      }
    }
  }

  lemma HeadText(t: Target, now: int)
    ensures Text(HeadClauses(t, now)) == "UPDATE \"" + t.table + "\"" +
            (if t.tsKey.Some? then " SET " + t.tsKey.value + " = ?" else "")
    ensures Params(HeadClauses(t, now)) == if t.tsKey.Some? then [TimeParam(now)] else []
    ensures Acts(HeadClauses(t, now)) == [Head(t.table)] + if t.tsKey.Some? then [Set(t.tsKey.value, Mark)] else []
  {
    var a := [Clause(Head(t.table), [])];
    var b := if t.tsKey.Some? then [Clause(Set(t.tsKey.value, Mark), [TimeParam(now)])] else [];
    Joined(a, b);
    assert a[1..] == [] && (b != [] ==> b[1..] == []);
  }

  lemma WhereText(t: Target)
    ensures Text(WhereClauses(t)) == " WHERE " + t.hashKey + " = ?" +
            (if t.rangeKey != "" then " AND " + t.rangeKey + " = ?" else "") + " RETURNING ALL NEW *"
    ensures Params(WhereClauses(t)) == [t.hash] + if t.rangeKey != "" then [t.range] else []
    ensures Acts(WhereClauses(t)) ==
            [Where(t.hashKey)] + (if t.rangeKey != "" then [And(t.rangeKey)] else []) + [Returning]
  {
    var a, c := Clause(Where(t.hashKey), [t.hash]), Clause(Returning, []);
    TextOne(a);
    TextOne(c);
    if t.rangeKey != "" {
      var b := Clause(And(t.rangeKey), [t.range]);
      TextOne(b);
      Joined([a], [b]);
      Joined([a] + [b], [c]);
    } else {
      Joined([a], [c]);
      assert [a] + [] + [c] == [a] + [c];
    }
    hide Text, Params, Acts;
  }

  /** What is still to be written, one set clause taken off. */
  lemma SetsNext(names: seq<string>, fields: map<string, Spec>, order: seq<string>, i: nat, sb: string, ps: seq<Param>)
    requires i < |order| && forall k :: 0 <= k < |order| ==> order[k] in fields
    ensures var c := SetClause(names, order[i], fields[order[i]]);
      var more := SetClauses(names, fields, order[i + 1..]);
      && sb + Text(SetClauses(names, fields, order[i..])) == (sb + Render(c.act)) + Text(more)
      && ps + Params(SetClauses(names, fields, order[i..])) == (ps + c.params) + Params(more)
  {
    var c := SetClause(names, order[i], fields[order[i]]);
    var more := SetClauses(names, fields, order[i + 1..]);
    assert order[i..][0] == order[i] && order[i..][1..] == order[i + 1..];
    assert SetClauses(names, fields, order[i..]) == [c] + more;
    hide SetClauses, SetClause, Render;
    assert ([c] + more)[1..] == more;
    hide Text, Params;
    Assoc3(sb, Render(c.act), Text(more));
  }

  lemma NoSets(names: seq<string>, fields: map<string, Spec>, order: seq<string>)
    ensures SetClauses(names, fields, order[|order|..]) == [] && Text([]) == "" && Params([]) == []
  {}

  lemma {:induction false} RemoveClausesAppend(removed: seq<string>, i: nat)
    requires i < |removed|
    ensures Text(RemoveClauses(removed[..i + 1])) == Text(RemoveClauses(removed[..i])) + (" REMOVE " + removed[i])
    ensures Params(RemoveClauses(removed[..i + 1])) == Params(RemoveClauses(removed[..i])) == []
    decreases i
  {
    if i == 0 {
      assert removed[..1] == [removed[0]] && removed[..1][1..] == [];
      assert RemoveClauses(removed[..1]) == [Clause(Remove(removed[0]), [])];
    } else {
      assert removed[..i + 1][1..] == removed[1..][..i] && removed[..i][1..] == removed[1..][..i - 1];
      RemoveClausesAppend(removed[1..], i - 1);
    }
  }

  lemma StatementText(names: seq<string>, t: Target, now: int, fields: map<string, Spec>,
                      order: seq<string>, removed: seq<string>)
    requires forall k :: 0 <= k < |order| ==> order[k] in fields
    ensures var cs := Statement(names, t, now, fields, order, removed);
      && Text(cs) == Text(HeadClauses(t, now)) + Text(SetClauses(names, fields, order))
                     + Text(RemoveClauses(removed)) + Text(WhereClauses(t))
      && Params(cs) == Params(HeadClauses(t, now)) + Params(SetClauses(names, fields, order))
                       + Params(RemoveClauses(removed)) + Params(WhereClauses(t))
      && Acts(cs) == Acts(HeadClauses(t, now)) + Acts(SetClauses(names, fields, order))
                     + Acts(RemoveClauses(removed)) + Acts(WhereClauses(t))
  {
    var a, b, c, d := HeadClauses(t, now), SetClauses(names, fields, order), RemoveClauses(removed), WhereClauses(t);
    Joined(a, b);
    Joined(a + b, c);
    Joined(a + b + c, d);
  }
}
