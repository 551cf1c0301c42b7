/**
 The literal syntax that the PartiQL printer writes (aws/partiql/builder.go): tuples, arrays and
 bags as in section 2 (Data Model) of the PartiQL Specification, string literals with the doubled
 quote of section 5.3 (literal) of SQL-92. A plain recursive printer, a parser, and the laws that
 connect them.
 */
module PartiqlText {
  import opened Options

  datatype Doc =
    | Num(token: string)
    | Bool(b: bool)
    | Str(s: string)
    | Arr(items: seq<Doc>)
    | Bag(items: seq<Doc>)
    | Tuple(fields: seq<Pair>)

  datatype Pair = Pair(key: string, val: Doc)

  predicate NumChar(c: char) { '0' <= c <= '9' || c in "-+.eE" }

  predicate NumToken(t: string) { t != "" && forall k :: 0 <= k < |t| ==> NumChar(t[k]) }

  /** Every numeric token of the document is one. */
  predicate Sound(d: Doc) {
    match d
    case Num(t) => NumToken(t)
    case Bool(_) => true
    case Str(_) => true
    case Arr(items) => forall k :: 0 <= k < |items| ==> Sound(items[k])
    case Bag(items) => forall k :: 0 <= k < |items| ==> Sound(items[k])
    case Tuple(fields) => forall k :: 0 <= k < |fields| ==> Sound(fields[k].val)
  }

  predicate NoQuote(s: string) { forall k :: 0 <= k < |s| ==> s[k] != '\'' }

  /** No key of the document contains a quote. */
  predicate QuoteFreeKeys(d: Doc) {
    match d
    case Arr(items) => forall k :: 0 <= k < |items| ==> QuoteFreeKeys(items[k])
    case Bag(items) => forall k :: 0 <= k < |items| ==> QuoteFreeKeys(items[k])
    case Tuple(fields) =>
      forall k :: 0 <= k < |fields| ==> NoQuote(fields[k].key) && QuoteFreeKeys(fields[k].val)
    case _ => true
  }

  // ---------- printing ----------

  /** `strings.ReplaceAll(s, "'", "''")`. */
  function Escape(s: string): string {
    if s == "" then "" else (if s[0] == '\'' then "''" else [s[0]]) + Escape(s[1..])
  }

  /** The text of a document. Keys are written as they are, or escaped like strings (`esc`). */
  function Print(d: Doc, esc: bool): string
    decreases d, 1
  {
    match d
    case Num(t) => t
    case Bool(b) => if b then "true" else "false"
    case Str(s) => "'" + Escape(s) + "'"
    case Arr(items) => "[" + PrintItems(items, esc) + "]"
    case Bag(items) => "<<" + PrintItems(items, esc) + ">>"
    case Tuple(fields) => "{" + PrintFields(fields, esc) + "}"
  }

  function PrintItems(items: seq<Doc>, esc: bool): string
    decreases items, 0
  {
    if items == [] then ""
    else Print(items[0], esc) + (if |items| == 1 then "" else "," + PrintItems(items[1..], esc))
  }

  function PrintKey(key: string, esc: bool): string {
    "'" + (if esc then Escape(key) else key) + "':"
  }

  function PrintFields(fields: seq<Pair>, esc: bool): string
    decreases fields, 0
  {
    if fields == [] then ""
    else PrintKey(fields[0].key, esc) + Print(fields[0].val, esc)
         + (if |fields| == 1 then "" else "," + PrintFields(fields[1..], esc))
  }

  // ---------- parsing ----------

  datatype Parsed<T> = Fail | Ok(val: T, rest: string)

  predicate StartsWith(s: string, p: string) { p <= s }

  /** The rest of a string literal, behind its opening quote. */
  function ParseStr(s: string): (r: Parsed<string>)
    ensures r.Ok? ==> |r.rest| < |s|
  {
    if s == "" then Fail
    else if s[0] != '\'' then
      var r := ParseStr(s[1..]);
      if r.Fail? then Fail else Ok([s[0]] + r.val, r.rest)
    else if StartsWith(s, "''") then
      var r := ParseStr(s[2..]);
      if r.Fail? then Fail else Ok("'" + r.val, r.rest)
    else Ok("", s[1..])
  }

  /** How many numeric characters `s` begins with. */
  function NumLen(s: string): (n: nat)
    ensures n <= |s| && (forall k :: 0 <= k < n ==> NumChar(s[k])) && (n < |s| ==> !NumChar(s[n]))
  {
    if s == "" || !NumChar(s[0]) then 0 else 1 + NumLen(s[1..])
  }

  function ParseDoc(s: string): (r: Parsed<Doc>)
    ensures r.Ok? ==> |r.rest| < |s|
    decreases |s|, 1
  {
    if s == "" then Fail
    else if s[0] == '\'' then
      var r := ParseStr(s[1..]);
      if r.Fail? then Fail else Ok(Str(r.val), r.rest)
    else if s[0] == '[' then
      var r := ParseItems(s[1..], "]");
      if r.Fail? then Fail else Ok(Arr(r.val), r.rest)
    else if StartsWith(s, "<<") then
      var r := ParseItems(s[2..], ">>");
      if r.Fail? then Fail else Ok(Bag(r.val), r.rest)
    else if s[0] == '{' then
      var r := ParseFields(s[1..]);
      if r.Fail? then Fail else Ok(Tuple(r.val), r.rest)
    else if StartsWith(s, "true") then Ok(Bool(true), s[4..])
    else if StartsWith(s, "false") then Ok(Bool(false), s[5..])
    else if NumChar(s[0]) then Ok(Num(s[..NumLen(s)]), s[NumLen(s)..])
    else Fail
  }

  /** A possibly empty list, up to and with the closing bracket. */
  function ParseItems(s: string, close: string): (r: Parsed<seq<Doc>>)
    requires close != ""
    ensures r.Ok? ==> |r.rest| < |s|
    decreases |s|, 3
  {
    if StartsWith(s, close) then Ok([], s[|close|..]) else ParseSome(s, close)
  }

  /** A list of at least one, up to and with the closing bracket. */
  function ParseSome(s: string, close: string): (r: Parsed<seq<Doc>>)
    requires close != ""
    ensures r.Ok? ==> |r.rest| < |s|
    decreases |s|, 2
  {
    var first := ParseDoc(s);
    if first.Fail? then Fail
    else if StartsWith(first.rest, close) then Ok([first.val], first.rest[|close|..])
    else if StartsWith(first.rest, ",") then
      var more := ParseSome(first.rest[1..], close);
      if more.Fail? then Fail else Ok([first.val] + more.val, more.rest)
    else Fail
  }

  function ParseFields(s: string): (r: Parsed<seq<Pair>>)
    ensures r.Ok? ==> |r.rest| < |s|
    decreases |s|, 4
  {
    if StartsWith(s, "}") then Ok([], s[1..]) else ParseSomeFields(s)
  }

  function ParseField(s: string): (r: Parsed<Pair>)
    ensures r.Ok? ==> |r.rest| < |s|
    decreases |s|, 2
  {
    if !StartsWith(s, "'") then Fail
    else
      var key := ParseStr(s[1..]);
      if key.Fail? || !StartsWith(key.rest, ":") then Fail
      else
        var val := ParseDoc(key.rest[1..]);
        if val.Fail? then Fail else Ok(Pair(key.val, val.val), val.rest)
  }

  function ParseSomeFields(s: string): (r: Parsed<seq<Pair>>)
    ensures r.Ok? ==> |r.rest| < |s|
    decreases |s|, 3
  {
    var first := ParseField(s);
    if first.Fail? then Fail
    else if StartsWith(first.rest, "}") then Ok([first.val], first.rest[1..])
    else if StartsWith(first.rest, ",") then
      var more := ParseSomeFields(first.rest[1..]);
      if more.Fail? then Fail else Ok([first.val] + more.val, more.rest)
    else Fail
  }

  function Parse(s: string): Option<Doc> {
    var r := ParseDoc(s);
    if r.Ok? && r.rest == "" then Some(r.val) else None
  }

  // ---------- every document is read back ----------

  /** What may follow a value: the end, a comma or a closing bracket. */
  predicate Stops(rest: string) { rest == "" || rest[0] in ",]}>:)" }

  lemma {:induction false} ReadStr(s: string, rest: string)
    requires Stops(rest)
    ensures ParseStr(Escape(s) + "'" + rest) == Ok(s, rest)
  {
    var t := Escape(s) + "'" + rest;
    if s == "" {
      assert t[1..] == rest;
    } else {
      var u := Escape(s[1..]) + "'" + rest;
      assert s == [s[0]] + s[1..];
      EscapeFirst(s[0], s[1..]);
      hide Escape;
      ReadStr(s[1..], rest);
      if s[0] == '\'' {
        Wrapped("''", Escape(s[1..]), "'", rest);
        assert t == "''" + u && t[2..] == u && t[..2] == "''";
      } else {
        Wrapped([s[0]], Escape(s[1..]), "'", rest);
        assert t == [s[0]] + u && t[1..] == u;
      }
    }
  }

  lemma NumLenOf(t: string, rest: string)
    requires NumToken(t) && Stops(rest)
    ensures NumLen(t + rest) == |t|
  {
    hide NumLen;
    var s := t + rest;
    assert forall k :: 0 <= k < |t| ==> s[k] == t[k];
    assert rest != "" ==> s[|t|] == rest[0] && !NumChar(rest[0]);
  }

  lemma ReadNum(t: string, rest: string)
    requires NumToken(t) && Stops(rest)
    ensures ParseDoc(t + rest) == Ok(Num(t), rest)
  {
    var s := t + rest;
    NumLenOf(t, rest);
    assert s[0] == t[0] && NumChar(s[0]);
    assert !StartsWith(s, "true") && !StartsWith(s, "false") && !StartsWith(s, "<<");
    assert s[..|t|] == t && s[|t|..] == rest;
    hide NumLen, ParseItems, ParseFields, ParseStr;
  }

  lemma ReadBool(b: bool, rest: string)
    ensures ParseDoc(Print(Bool(b), true) + rest) == Ok(Bool(b), rest)
  {
    var s := Print(Bool(b), true) + rest;
    assert if b then s[4..] == rest && s[..4] == "true" else s[5..] == rest && s[..5] == "false";
  }

  /** How `ParseDoc` goes on behind the first character or two. */
  lemma OpensStr(t: string)
    ensures var r := ParseStr(t);
      ParseDoc("'" + t) == if r.Fail? then Fail else Ok(Str(r.val), r.rest)
  {
    assert ("'" + t)[1..] == t;
  }

  lemma OpensArr(t: string)
    ensures var r := ParseItems(t, "]");
      ParseDoc("[" + t) == if r.Fail? then Fail else Ok(Arr(r.val), r.rest)
  {
    assert ("[" + t)[1..] == t;
  }

  lemma OpensBag(t: string)
    ensures var r := ParseItems(t, ">>");
      ParseDoc("<<" + t) == if r.Fail? then Fail else Ok(Bag(r.val), r.rest)
  {
    assert ("<<" + t)[2..] == t && ("<<" + t)[..2] == "<<";
  }

  lemma OpensTuple(t: string)
    ensures var r := ParseFields(t);
      ParseDoc("{" + t) == if r.Fail? then Fail else Ok(Tuple(r.val), r.rest)
  {
    assert ("{" + t)[1..] == t;
  }

  lemma {:induction false} ReadDoc(d: Doc, rest: string)
    requires Sound(d) && Stops(rest)
    ensures ParseDoc(Print(d, true) + rest) == Ok(d, rest)
    decreases d, 2
  {
    var s := Print(d, true) + rest;
    match d
    case Num(t) => ReadNum(t, rest);
    case Bool(b) => ReadBool(b, rest);
    case Str(x) =>
      var t := Escape(x) + "'" + rest;
      assert s == "'" + t;
      ReadStr(x, rest);
      OpensStr(t);
    case Arr(items) =>
      var t := PrintItems(items, true) + "]" + rest;
      assert s == "[" + t;
      ReadItems(items, "]", rest);
      OpensArr(t);
    case Bag(items) =>
      var t := PrintItems(items, true) + ">>" + rest;
      assert s == "<<" + t;
      ReadItems(items, ">>", rest);
      OpensBag(t);
    case Tuple(fields) =>
      var t := PrintFields(fields, true) + "}" + rest;
      assert s == "{" + t;
      ReadFields(fields, rest);
      OpensTuple(t);
  }

  /** The text of a value does not begin like a closing bracket. */
  lemma OpensNoBracket(d: Doc, rest: string)
    requires Sound(d)
    ensures var s := Print(d, true) + rest;
      s != "" && s[0] !in "]}>:,"
  {}

  lemma {:induction false} ReadItems(items: seq<Doc>, close: string, rest: string)
    requires (forall k :: 0 <= k < |items| ==> Sound(items[k])) && (close == "]" || close == ">>")
    ensures ParseItems(PrintItems(items, true) + close + rest, close) == Ok(items, rest)
    decreases items, 1
  {
    var s := PrintItems(items, true) + close + rest;
    if items == [] {
      assert s == close + rest && s[..|close|] == close && s[|close|..] == rest;
    } else {
      OpensNoBracket(items[0], s[|Print(items[0], true)|..]);
      assert s == Print(items[0], true) + s[|Print(items[0], true)|..];
      ReadSome(items, close, rest);
    }
  }

  lemma LastItem(s: string, d: Doc, close: string, rest: string)
    requires close != "" && ParseDoc(s) == Ok(d, close + rest)
    ensures ParseSome(s, close) == Ok([d], rest)
  {
    hide ParseDoc;
    assert (close + rest)[..|close|] == close && (close + rest)[|close|..] == rest;
  }

  lemma NextItem(s: string, d: Doc, close: string, u: string, more: seq<Doc>, rest: string)
    requires close == "]" || close == ">>"
    requires ParseDoc(s) == Ok(d, "," + u) && ParseSome(u, close) == Ok(more, rest)
    ensures ParseSome(s, close) == Ok([d] + more, rest)
  {
    hide ParseDoc;
    var t := "," + u;
    assert t[0] != close[0] && !StartsWith(t, close);
    assert t[..1] == "," && t[1..] == u && StartsWith(t, ",");
  }

  lemma {:induction false} ReadSome(items: seq<Doc>, close: string, rest: string)
    requires items != [] && (forall k :: 0 <= k < |items| ==> Sound(items[k]))
    requires close == "]" || close == ">>"
    ensures ParseSome(PrintItems(items, true) + close + rest, close) == Ok(items, rest)
    decreases items, 0
  {
    hide ParseDoc, ParseSome, Print;
    var s := PrintItems(items, true) + close + rest;
    var p := Print(items[0], true);
    if |items| == 1 {
      assert s == p + (close + rest);
      ReadDoc(items[0], close + rest);
      LastItem(s, items[0], close, rest);
      assert items == [items[0]];
    } else {
      var u := PrintItems(items[1..], true) + close + rest;
      assert s == p + ("," + u);
      ReadDoc(items[0], "," + u);
      ReadSome(items[1..], close, rest);
      NextItem(s, items[0], close, u, items[1..], rest);
      assert items == [items[0]] + items[1..];
    }
  }

  /** Behind the opening quote of a key stand the key, its closing quote and a colon. */
  lemma KeyText(key: string, v: string)
    ensures var s := PrintKey(key, true) + v;
      s == "'" + (Escape(key) + "'" + (":" + v))
  {}

  lemma ReadField(f: Pair, rest: string)
    requires Sound(f.val) && Stops(rest)
    ensures ParseField(PrintKey(f.key, true) + Print(f.val, true) + rest) == Ok(f, rest)
    decreases f, 0
  {
    var v := Print(f.val, true) + rest;
    var t := Escape(f.key) + "'" + (":" + v);
    KeyText(f.key, v);
    assert PrintKey(f.key, true) + Print(f.val, true) + rest == PrintKey(f.key, true) + v;
    assert ("'" + t)[..1] == "'" && ("'" + t)[1..] == t;
    ReadStr(f.key, ":" + v);
    assert (":" + v)[..1] == ":" && (":" + v)[1..] == v;
    ReadDoc(f.val, rest);
  }

  lemma {:induction false} ReadFields(fields: seq<Pair>, rest: string)
    requires forall k :: 0 <= k < |fields| ==> Sound(fields[k].val)
    ensures ParseFields(PrintFields(fields, true) + "}" + rest) == Ok(fields, rest)
    decreases fields, 1
  {
    var s := PrintFields(fields, true) + "}" + rest;
    if fields == [] {
      assert s == "}" + rest && s[..1] == "}" && s[1..] == rest;
    } else {
      assert s[0] == '\'';
      ReadSomeFields(fields, rest);
    }
  }

  lemma LastField(s: string, f: Pair, t: string)
    requires ParseField(s) == Ok(f, t) && t != "" && t[0] == '}'
    ensures ParseSomeFields(s) == Ok([f], t[1..])
  {
    assert t[..1] == "}";
    hide ParseField;
  }

  lemma NextField(s: string, f: Pair, u: string, more: seq<Pair>, rest: string)
    requires ParseField(s) == Ok(f, "," + u) && ParseSomeFields(u) == Ok(more, rest)
    ensures ParseSomeFields(s) == Ok([f] + more, rest)
  {
    var t := "," + u;
    assert t[0] != '}' && !StartsWith(t, "}");
    assert t[..1] == "," && t[1..] == u && StartsWith(t, ",");
    hide ParseField;
  }

  lemma {:induction false} ReadSomeFields(fields: seq<Pair>, rest: string)
    requires fields != [] && forall k :: 0 <= k < |fields| ==> Sound(fields[k].val)
    ensures ParseSomeFields(PrintFields(fields, true) + "}" + rest) == Ok(fields, rest)
    decreases fields, 0
  {
    hide ParseField, ParseSomeFields, PrintKey, Print;
    var s := PrintFields(fields, true) + "}" + rest;
    var p := PrintKey(fields[0].key, true) + Print(fields[0].val, true);
    if |fields| == 1 {
      assert s == p + ("}" + rest);
      ReadField(fields[0], "}" + rest);
      LastField(s, fields[0], "}" + rest);
      assert fields == [fields[0]] && ("}" + rest)[1..] == rest;
    } else {
      var u := PrintFields(fields[1..], true) + "}" + rest;
      assert s == p + ("," + u);
      ReadField(fields[0], "," + u);
      ReadSomeFields(fields[1..], rest);
      NextField(s, fields[0], u, fields[1..], rest);
      assert fields == [fields[0]] + fields[1..];
    }
  }

  // ---------- nothing else is read ----------

  lemma EscapeFirst(c: char, s: string)
    ensures Escape([c] + s) == (if c == '\'' then "''" else [c]) + Escape(s)
  {
    assert ([c] + s)[1..] == s;
  }

  lemma {:induction false} StrBack(s: string)
    requires ParseStr(s).Ok?
    ensures var r := ParseStr(s); s == Escape(r.val) + "'" + r.rest
  {
    var r := ParseStr(s);
    if s[0] != '\'' {
      StrBack(s[1..]);
      var q := ParseStr(s[1..]);
      assert r == Ok([s[0]] + q.val, q.rest) && s == [s[0]] + s[1..];
      hide ParseStr;
      EscapeFirst(s[0], q.val);
      Wrapped([s[0]], Escape(q.val), "'", q.rest);
    } else if StartsWith(s, "''") {
      StrBack(s[2..]);
      var q := ParseStr(s[2..]);
      assert r == Ok("'" + q.val, q.rest) && s == "''" + s[2..];
      hide ParseStr;
      EscapeFirst('\'', q.val);
      Wrapped("''", Escape(q.val), "'", q.rest);
    } else {
      assert s == "'" + s[1..];
    }
  }

  lemma NumBack(s: string)
    requires s != "" && NumChar(s[0])
    ensures NumToken(s[..NumLen(s)]) && s == s[..NumLen(s)] + s[NumLen(s)..]
  {}

  lemma Wrapped(open: string, body: string, close: string, rest: string)
    ensures open + (body + close + rest) == (open + body + close) + rest
  {}

  lemma {:induction false} DocBack(s: string)
    requires ParseDoc(s).Ok?
    ensures var r := ParseDoc(s); s == Print(r.val, true) + r.rest && Sound(r.val)
    decreases |s|, 2
  {
    if s[0] == '\'' {
      var t := s[1..];
      assert s == "'" + t;
      OpensStr(t);
      StrBack(t);
      Wrapped("'", Escape(ParseStr(t).val), "'", ParseStr(t).rest);
    } else if s[0] in "[<{" {
      BracketBack(s);
    } else if StartsWith(s, "true") {
      assert s == "true" + s[4..];
    } else if StartsWith(s, "false") {
      assert s == "false" + s[5..];
    } else {
      NumBack(s);
    }
  }

  lemma {:induction false} BracketBack(s: string)
    requires ParseDoc(s).Ok? && s[0] in "[<{"
    ensures var r := ParseDoc(s); s == Print(r.val, true) + r.rest && Sound(r.val)
    decreases |s|, 1
  {
    if s[0] == '[' {
      var t := s[1..];
      assert s == "[" + t;
      OpensArr(t);
      ItemsBack(t, "]");
      Wrapped("[", PrintItems(ParseItems(t, "]").val, true), "]", ParseItems(t, "]").rest);
    } else if s[0] == '<' {
      assert StartsWith(s, "<<");
      var t := s[2..];
      assert s == "<<" + t;
      OpensBag(t);
      ItemsBack(t, ">>");
      Wrapped("<<", PrintItems(ParseItems(t, ">>").val, true), ">>", ParseItems(t, ">>").rest);
    } else {
      var t := s[1..];
      assert s == "{" + t;
      OpensTuple(t);
      FieldsBack(t);
      Wrapped("{", PrintFields(ParseFields(t).val, true), "}", ParseFields(t).rest);
    }
  }

  lemma {:induction false} ItemsBack(s: string, close: string)
    requires close != "" && ParseItems(s, close).Ok?
    ensures var r := ParseItems(s, close);
      s == PrintItems(r.val, true) + close + r.rest && AllSound(r.val)
    decreases |s|, 4
  {
    if StartsWith(s, close) {
      assert s == close + s[|close|..];
    } else {
      SomeBack(s, close);
    }
  }

  predicate AllSound(items: seq<Doc>) { forall k :: 0 <= k < |items| ==> Sound(items[k]) }

  lemma ItemsOne(s: string, d: Doc, t: string, close: string)
    requires s == Print(d, true) + t && StartsWith(t, close) && Sound(d)
    ensures s == PrintItems([d], true) + close + t[|close|..] && AllSound([d])
  {
    assert t == close + t[|close|..];
  }

  lemma ItemsMore(s: string, d: Doc, more: seq<Doc>, close: string, rest: string)
    requires s == Print(d, true) + ("," + (PrintItems(more, true) + close + rest)) && more != []
    requires Sound(d) && AllSound(more)
    ensures s == PrintItems([d] + more, true) + close + rest && AllSound([d] + more)
  {
    assert ([d] + more)[1..] == more;
    assert PrintItems([d] + more, true) == Print(d, true) + ("," + PrintItems(more, true));
    Joined(s, Print(d, true), PrintItems(more, true), close, rest);
  }

  lemma Joined(s: string, p: string, q: string, close: string, rest: string)
    requires s == p + ("," + (q + close + rest))
    ensures s == (p + ("," + q)) + close + rest
  {}

  lemma {:induction false} SomeBack(s: string, close: string)
    requires close != "" && ParseSome(s, close).Ok?
    ensures var r := ParseSome(s, close);
      r.val != [] && s == PrintItems(r.val, true) + close + r.rest && AllSound(r.val)
    decreases |s|, 3
  {
    var first := ParseDoc(s);
    DocBack(s);
    if StartsWith(first.rest, close) {
      ItemsOne(s, first.val, first.rest, close);
    } else {
      var t := first.rest[1..];
      assert first.rest == "," + t;
      SomeBack(t, close);
      var more := ParseSome(t, close);
      ItemsMore(s, first.val, more.val, close, more.rest);
    }
  }

  lemma FieldBack(s: string)
    requires ParseField(s).Ok?
    ensures var r := ParseField(s);
      s == PrintField(r.val) + r.rest && Sound(r.val.val)
    decreases |s|, 3
  {
    var r, key := ParseField(s), ParseStr(s[1..]);
    var v := key.rest[1..];
    assert s == "'" + s[1..] && key.rest == ":" + v;
    assert ParseDoc(v) == Ok(r.val.val, r.rest) && r.val.key == key.val;
    hide ParseField, ParseDoc, ParseStr, Print, Escape, PrintKey;
    StrBack(s[1..]);
    DocBack(v);
    KeyText(key.val, v);
    Wrapped(PrintKey(key.val, true), Print(r.val.val, true), "", r.rest);
  }

  lemma {:induction false} FieldsBack(s: string)
    requires ParseFields(s).Ok?
    ensures var r := ParseFields(s);
      s == PrintFields(r.val, true) + "}" + r.rest && AllFieldsSound(r.val)
    decreases |s|, 5
  {
    if StartsWith(s, "}") {
      assert s == "}" + s[1..];
    } else {
      SomeFieldsBack(s);
    }
  }

  predicate AllFieldsSound(fields: seq<Pair>) { forall k :: 0 <= k < |fields| ==> Sound(fields[k].val) }

  function PrintField(f: Pair): string { PrintKey(f.key, true) + Print(f.val, true) }

  lemma FieldsOne(s: string, f: Pair, t: string)
    requires s == PrintField(f) + t && StartsWith(t, "}") && Sound(f.val)
    ensures s == PrintFields([f], true) + "}" + t[1..] && AllFieldsSound([f])
  {
    assert PrintFields([f], true) == PrintField(f);
    assert t == "}" + t[1..];
  }

  lemma FieldsMore(s: string, f: Pair, more: seq<Pair>, rest: string)
    requires s == PrintField(f) + ("," + (PrintFields(more, true) + "}" + rest)) && more != []
    requires Sound(f.val) && AllFieldsSound(more)
    ensures s == PrintFields([f] + more, true) + "}" + rest && AllFieldsSound([f] + more)
  {
    assert ([f] + more)[1..] == more;
    assert PrintFields([f] + more, true) == PrintField(f) + ("," + PrintFields(more, true));
    Joined(s, PrintField(f), PrintFields(more, true), "}", rest);
  }

  lemma {:induction false} SomeFieldsBack(s: string)
    requires ParseSomeFields(s).Ok?
    ensures var r := ParseSomeFields(s);
      r.val != [] && s == PrintFields(r.val, true) + "}" + r.rest && AllFieldsSound(r.val)
    decreases |s|, 4
  {
    var first := ParseField(s);
    FieldBack(s);
    if StartsWith(first.rest, "}") {
      FieldsOne(s, first.val, first.rest);
    } else {
      var t := first.rest[1..];
      assert first.rest == "," + t;
      SomeFieldsBack(t);
      var more := ParseSomeFields(t);
      FieldsMore(s, first.val, more.val, more.rest);
    }
  }

  /** The parser accepts exactly the canonical texts: it is the inverse of the escaping printer. */
  lemma ParserIsInverse(s: string, d: Doc)
    ensures Parse(s) == Some(d) <==> Sound(d) && s == Print(d, true)
  {
    if Parse(s) == Some(d) {
      DocBack(s);
      assert Print(d, true) + "" == Print(d, true);
    }
    if Sound(d) && s == Print(d, true) {
      ReadDoc(d, "");
      assert Print(d, true) + "" == s;
    }
  }

  // ---------- keys ----------

  lemma {:induction false} EscapeLength(s: string)
    ensures |s| <= |Escape(s)|
    ensures NoQuote(s) ==> Escape(s) == s
    ensures !NoQuote(s) ==> |s| < |Escape(s)|
  {
    if s != "" {
      EscapeLength(s[1..]);
      assert s == [s[0]] + s[1..];
      if NoQuote(s) { assert NoQuote(s[1..]); }
      if NoQuote(s[1..]) && s[0] != '\'' { assert NoQuote(s); }
    }
  }

  /** Escaping the keys makes a text longer, unless there is nothing to escape. */
  lemma {:induction false} EscapedKeysLonger(d: Doc)
    ensures |Print(d, false)| <= |Print(d, true)|
    ensures QuoteFreeKeys(d) ==> Print(d, false) == Print(d, true)
    ensures !QuoteFreeKeys(d) ==> |Print(d, false)| < |Print(d, true)|
    decreases d, 1
  {
    match d
    case Arr(items) => EscapedItemsLonger(items);
    case Bag(items) => EscapedItemsLonger(items);
    case Tuple(fields) => EscapedFieldsLonger(fields);
    case _ =>
  }

  lemma {:induction false} EscapedItemsLonger(items: seq<Doc>)
    ensures var free := forall k :: 0 <= k < |items| ==> QuoteFreeKeys(items[k]);
      && |PrintItems(items, false)| <= |PrintItems(items, true)|
      && (free ==> PrintItems(items, false) == PrintItems(items, true))
      && (!free ==> |PrintItems(items, false)| < |PrintItems(items, true)|)
    decreases items, 0
  {
    if items != [] {
      EscapedKeysLonger(items[0]);
      EscapedItemsLonger(items[1..]);
      assert |items| == 1 ==> items[1..] == [];
      if QuoteFreeKeys(items[0]) && (forall k :: 0 <= k < |items[1..]| ==> QuoteFreeKeys(items[1..][k])) {
        forall k | 0 <= k < |items| ensures QuoteFreeKeys(items[k]) {
          if k > 0 { assert items[k] == items[1..][k - 1]; }
        }
      }
    }
  }

  lemma {:induction false} EscapedFieldsLonger(fields: seq<Pair>)
    ensures var free := forall k :: 0 <= k < |fields| ==>
                          NoQuote(fields[k].key) && QuoteFreeKeys(fields[k].val);
      && |PrintFields(fields, false)| <= |PrintFields(fields, true)|
      && (free ==> PrintFields(fields, false) == PrintFields(fields, true))
      && (!free ==> |PrintFields(fields, false)| < |PrintFields(fields, true)|)
    decreases fields, 0
  {
    if fields != [] {
      EscapeLength(fields[0].key);
      EscapedKeysLonger(fields[0].val);
      EscapedFieldsLonger(fields[1..]);
      assert |fields| == 1 ==> fields[1..] == [];
      var rest := fields[1..];
      if NoQuote(fields[0].key) && QuoteFreeKeys(fields[0].val) &&
         (forall k :: 0 <= k < |rest| ==> NoQuote(rest[k].key) && QuoteFreeKeys(rest[k].val)) {
        forall k | 0 <= k < |fields| ensures NoQuote(fields[k].key) && QuoteFreeKeys(fields[k].val) {
          if k > 0 { assert fields[k] == rest[k - 1]; }
        }
      }
    }
  }

  /** The round trip of the text as it is written, with its keys unescaped: a document is read back
      as itself if and only if none of its keys contains a quote. */
  lemma RoundTripExactly(d: Doc)
    requires Sound(d)
    ensures Parse(Print(d, false)) == Some(d) <==> QuoteFreeKeys(d)
  {
    ParserIsInverse(Print(d, false), d);
    EscapedKeysLonger(d);
  }
}
