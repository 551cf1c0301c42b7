/**
 The PartiQL serializer (aws/partiql/serializer.go, tag.go) and the builder it drives
 (aws/partiql/builder.go): a flag `writeSep` and a depth counter place the separators and brackets
 while the value is walked. What comes out is the plain recursive print of the value's meaning.

 A Go value is a tree: kinds that the serializer skips are `VUnsupported`, a nil pointer or
 interface is `VNil`, any other pointer or interface is `VRef`. Floats come as their text.
 */
module PartiqlEncoder {
  import opened Options
  import opened PartiqlText

  // ---------- tags ----------

  datatype TagValue = TagValue(name: string, ignore: bool, squash: bool, bag: bool)

  const NO_TAG := TagValue("", false, false, false)

  /** `strings.Cut(s, ",")`. */
  function Cut(s: string): (string, string) {
    if s == "" then ("", "")
    else if s[0] == ',' then ("", s[1..])
    else ([s[0]] + Cut(s[1..]).0, Cut(s[1..]).1)
  }

  predicate Contains(s: string, sub: string) {
    sub <= s || (s != "" && Contains(s[1..], sub))
  }

  function ParseTag(tag: string): TagValue {
    var (name, opts) := Cut(tag);
    TagValue(name, name == "-", Contains(opts, "squash"), Contains(opts, "bag"))
  }

  /** A tag is its name up to the first comma, and the options behind it. */
  lemma {:induction false} TagOfNameAndOptions(name: string, opts: string)
    requires ',' !in name
    ensures ParseTag(name + "," + opts) ==
            TagValue(name, name == "-", Contains(opts, "squash"), Contains(opts, "bag"))
    ensures ParseTag(name) == TagValue(name, name == "-", false, false)
  {
    CutAtComma(name, opts);
    CutNoComma(name);
  }

  lemma {:induction false} CutAtComma(name: string, opts: string)
    requires ',' !in name
    ensures Cut(name + "," + opts) == (name, opts)
  {
    var s := name + "," + opts;
    if name == "" {
      assert s[1..] == opts;
    } else {
      assert s[1..] == name[1..] + "," + opts;
      CutAtComma(name[1..], opts);
      assert name == [name[0]] + name[1..] && s[0] == name[0];
    }
  }

  lemma {:induction false} CutNoComma(name: string)
    requires ',' !in name
    ensures Cut(name) == (name, "")
  {
    if name != "" {
      CutNoComma(name[1..]);
      assert name == [name[0]] + name[1..];
    }
  }

  // ---------- values ----------

  datatype Val =
    | VInt(i: int)
    | VUint(u: nat)
    | VFloat(token: string)
    | VBool(b: bool)
    | VString(s: string)
    | VSlice(items: seq<Val>, isNil: bool)
    | VArray(items: seq<Val>)
    | VMap(entries: seq<Entry>, isNil: bool)
    | VStruct(fields: seq<Field>)
    | VRef(elem: Val)
    | VNil
    | VUnsupported

  datatype Entry = Entry(key: string, val: Val)

  datatype Field = Field(name: string, exported: bool, tags: map<string, string>, val: Val)

  /** The tag of a field: the first of the encoder's tag names that the field carries. */
  function FieldTag(names: seq<string>, f: Field): TagValue {
    if names == [] then NO_TAG
    else if names[0] in f.tags then ParseTag(f.tags[names[0]])
    else FieldTag(names[1..], f)
  }

  function FieldName(f: Field, tag: TagValue): string { if tag.name != "" then tag.name else f.name }

  predicate IsEmptyCollection(v: Val) {
    var w := if v.VRef? then v.elem else v;
    w.VSlice? && |w.items| == 0
  }

  predicate Skipped(f: Field, tag: TagValue) {
    || !f.exported || tag.ignore
    || f.val.VUnsupported? || f.val.VNil? || (f.val.VSlice? && f.val.isNil) || (f.val.VMap? && f.val.isNil)
    || (tag.bag && IsEmptyCollection(f.val))
  }

  /** Whether `marshal` writes anything for the value. */
  predicate Writes(v: Val) {
    match v
    case VRef(e) => Writes(e)
    case VNil => false
    case VUnsupported => false
    case _ => true
  }

  /** Whether `marshal` panics: on a nil reference that is not skipped, and on a struct field that
      is an array, which has no `IsNil`. */
  predicate Panics(names: seq<string>, v: Val) {
    match v
    case VNil => true
    case VRef(e) => Panics(names, e)
    case VSlice(items, _) => SomePanics(names, items)
    case VArray(items) => SomePanics(names, items)
    case VMap(entries, _) => exists k :: 0 <= k < |entries| && Panics(names, entries[k].val)
    case VStruct(fields) => exists k :: 0 <= k < |fields| && FieldPanics(names, fields[k])
    case _ => false
  }

  predicate SomePanics(names: seq<string>, items: seq<Val>) {
    exists k :: 0 <= k < |items| && Panics(names, items[k])
  }

  predicate FieldPanics(names: seq<string>, f: Field) {
    var tag := FieldTag(names, f);
    f.exported && !tag.ignore && (f.val.VArray? || (!Skipped(f, tag) && Panics(names, f.val)))
  }

  /** Every key that is written is followed by a value, only structs are squashed, and the texts of
      floats are numeric. */
  predicate Placed(names: seq<string>, v: Val, squash: bool) {
    match v
    case VRef(e) => Placed(names, e, squash)
    case VStruct(fields) => FieldsPlaced(names, fields)
    case VSlice(items, _) => !squash && ItemsPlaced(names, items)
    case VArray(items) => !squash && ItemsPlaced(names, items)
    case VMap(entries, _) => !squash && EntriesPlaced(names, entries)
    case VFloat(t) => !squash && NumToken(t)
    case _ => !squash
  }

  predicate ItemsPlaced(names: seq<string>, items: seq<Val>) {
    forall k :: 0 <= k < |items| ==> Placed(names, items[k], false)
  }

  predicate EntriesPlaced(names: seq<string>, entries: seq<Entry>) {
    forall k :: 0 <= k < |entries| ==> Writes(entries[k].val) && Placed(names, entries[k].val, false)
  }

  predicate FieldsPlaced(names: seq<string>, fields: seq<Field>) {
    forall k :: 0 <= k < |fields| ==> FieldPlaced(names, fields[k])
  }

  predicate FieldPlaced(names: seq<string>, f: Field) {
    var tag := FieldTag(names, f);
    Skipped(f, tag) || (Placed(names, f.val, tag.squash) && (tag.squash || Writes(f.val)))
  }

  // ---------- what a value means ----------

  function Digits(n: nat): string {
    if n < 10 then [('0' as int + n) as char] else Digits(n / 10) + [('0' as int + n % 10) as char]
  }

  function FormatInt(i: int): string { if i < 0 then "-" + Digits(-i) else Digits(i) }

  /** The document a value stands for; `bag` makes a collection a bag. */
  function DocOf(names: seq<string>, v: Val, bag: bool): Doc
    decreases v, 1
  {
    match v
    case VInt(i) => Num(FormatInt(i))
    case VUint(u) => Num(Digits(u))
    case VFloat(t) => Num(t)
    case VBool(b) => Bool(b)
    case VString(s) => Str(s)
    case VSlice(items, _) => if bag then Bag(Docs(names, items)) else Arr(Docs(names, items))
    case VArray(items) => if bag then Bag(Docs(names, items)) else Arr(Docs(names, items))
    case VMap(entries, _) => Tuple(MapPairs(names, entries))
    case VStruct(fields) => Tuple(Pairs(names, fields))
    case VRef(e) => DocOf(names, e, bag)
    case VNil => Tuple([])
    case VUnsupported => Tuple([])
  }

  /** The documents written for the value: one, or none. */
  function DocsOf(names: seq<string>, v: Val, bag: bool): seq<Doc>
    decreases v, 2
  {
    if Writes(v) then [DocOf(names, v, bag)] else []
  }

  /** Elements without a document are dropped. */
  function Docs(names: seq<string>, items: seq<Val>): seq<Doc>
    decreases items, 0
  {
    if items == [] then [] else DocsOf(names, items[0], false) + Docs(names, items[1..])
  }

  function MapPairs(names: seq<string>, entries: seq<Entry>): seq<Pair>
    decreases entries, 0
  {
    if entries == [] then []
    else [Pair(entries[0].key, DocOf(names, entries[0].val, false))] + MapPairs(names, entries[1..])
  }

  /** Ignored fields are absent and squashed structs stand flattened in their place. */
  function Pairs(names: seq<string>, fields: seq<Field>): seq<Pair>
    decreases fields, 0
  {
    if fields == [] then [] else FieldPairs(names, fields[0]) + Pairs(names, fields[1..])
  }

  function FieldPairs(names: seq<string>, f: Field): seq<Pair>
    decreases f, 2
  {
    var tag := FieldTag(names, f);
    if Skipped(f, tag) then []
    else if tag.squash then SquashPairs(names, f.val)
    else [Pair(FieldName(f, tag), DocOf(names, f.val, tag.bag))]
  }

  function SquashPairs(names: seq<string>, v: Val): seq<Pair>
    decreases v, 1
  {
    match v
    case VRef(e) => SquashPairs(names, e)
    case VStruct(fields) => Pairs(names, fields)
    case _ => []
  }

  // ---------- what the flag machine writes ----------

  function Sep(flag: bool): string { if flag then "," else "" }

  function Emit(flag: bool, docs: seq<Doc>): string
    decreases |docs|
  {
    if docs == [] then "" else Sep(flag) + Print(docs[0], false) + Emit(true, docs[1..])
  }

  function EmitPairs(flag: bool, pairs: seq<Pair>): string
    decreases |pairs|
  {
    if pairs == [] then ""
    else Sep(flag) + PrintKey(pairs[0].key, false) + Print(pairs[0].val, false) + EmitPairs(true, pairs[1..])
  }

  lemma EmitOne(flag: bool, d: Doc)
    ensures Emit(flag, [d]) == Sep(flag) + Print(d, false)
  {
    assert Emit(true, [d][1..]) == "";
  }

  lemma {:induction false} EmitAppends(flag: bool, a: seq<Doc>, b: seq<Doc>)
    ensures Emit(flag, a + b) == Emit(flag, a) + Emit(flag || a != [], b)
    decreases |a|
  {
    if a == [] {
      assert a + b == b;
    } else {
      assert (a + b)[1..] == a[1..] + b;
      EmitAppends(true, a[1..], b);
    }
  }

  lemma {:induction false} EmitPairsAppends(flag: bool, a: seq<Pair>, b: seq<Pair>)
    ensures EmitPairs(flag, a + b) == EmitPairs(flag, a) + EmitPairs(flag || a != [], b)
    decreases |a|
  {
    if a == [] {
      assert a + b == b;
    } else {
      assert (a + b)[1..] == a[1..] + b;
      EmitPairsAppends(true, a[1..], b);
    }
  }

  /** Started without a pending separator, the flag machine writes a comma-separated list. */
  lemma {:induction false} EmitIsJoin(docs: seq<Doc>)
    ensures Emit(false, docs) == PrintItems(docs, false)
    ensures docs != [] ==> Emit(true, docs) == "," + PrintItems(docs, false)
  {
    if docs != [] {
      EmitIsJoin(docs[1..]);
      assert |docs| == 1 ==> docs[1..] == [];
    }
  }

  lemma {:induction false} EmitPairsIsJoin(pairs: seq<Pair>)
    ensures EmitPairs(false, pairs) == PrintFields(pairs, false)
    ensures pairs != [] ==> EmitPairs(true, pairs) == "," + PrintFields(pairs, false)
  {
    if pairs != [] {
      EmitPairsIsJoin(pairs[1..]);
      assert |pairs| == 1 ==> pairs[1..] == [];
    }
  }

  lemma CollectionEmits(flag: bool, docs: seq<Doc>, bag: bool)
    ensures Sep(flag) + (if bag then "<<" else "[") + Emit(false, docs) + (if bag then ">>" else "]")
            == Emit(flag, [if bag then Bag(docs) else Arr(docs)])
  {
    EmitOne(flag, if bag then Bag(docs) else Arr(docs));
    EmitIsJoin(docs);
  }

  lemma TupleEmits(flag: bool, pairs: seq<Pair>)
    ensures Sep(flag) + "{" + EmitPairs(false, pairs) + "}" == Emit(flag, [Tuple(pairs)])
  {
    EmitOne(flag, Tuple(pairs));
    EmitPairsIsJoin(pairs);
  }

  // ---------- the text of every value ----------

  /** What is written for a value when the separator flag was `flag`, and the flag afterwards: all
      there is to say about any value on which `marshal` does not panic, a key without a value and a
      squashed value that is not a struct included. */
  datatype Out = Out(text: string, flag: bool)

  function Scalar(v: Val): string
    requires v.VInt? || v.VUint? || v.VFloat? || v.VBool? || v.VString?
  {
    match v
    case VInt(i) => FormatInt(i)
    case VUint(u) => Digits(u)
    case VFloat(t) => t
    case VBool(x) => if x then "true" else "false"
    case VString(s) => "'" + Escape(s) + "'"
  }

  function Written(names: seq<string>, v: Val, bag: bool, squash: bool, flag: bool): Out
    decreases v, 2
  {
    match v
    case VNil => Out("", flag)
    case VUnsupported => Out("", flag)
    case VRef(e) => Written(names, e, bag, squash, flag)
    case VSlice(items, _) => WrittenCollection(names, items, bag, flag)
    case VArray(items) => WrittenCollection(names, items, bag, flag)
    case VMap(entries, _) => Out(Sep(flag) + "{" + WrittenEntries(names, entries, false).text + "}", true)
    case VStruct(fields) =>
      if squash then WrittenFields(names, fields, flag)
      else Out(Sep(flag) + "{" + WrittenFields(names, fields, false).text + "}", true)
    case _ => Out(Sep(flag) + Scalar(v), true)
  }

  function WrittenCollection(names: seq<string>, items: seq<Val>, bag: bool, flag: bool): Out
    decreases items, 1
  {
    Out(Sep(flag) + (if bag then "<<" else "[") + WrittenItems(names, items, false).text
        + (if bag then ">>" else "]"), true)
  }

  function WrittenItems(names: seq<string>, items: seq<Val>, flag: bool): Out
    decreases items, 0
  {
    if items == [] then Out("", flag)
    else
      var a := Written(names, items[0], false, false, flag);
      var b := WrittenItems(names, items[1..], a.flag);
      Out(a.text + b.text, b.flag)
  }

  function WrittenEntries(names: seq<string>, entries: seq<Entry>, flag: bool): Out
    decreases entries, 0
  {
    if entries == [] then Out("", flag)
    else
      var a := WrittenEntry(names, entries[0], flag);
      var b := WrittenEntries(names, entries[1..], a.flag);
      Out(a.text + b.text, b.flag)
  }

  function WrittenEntry(names: seq<string>, e: Entry, flag: bool): Out
    decreases e, 3
  {
    var o := Written(names, e.val, false, false, false);
    Out(Sep(flag) + PrintKey(e.key, false) + o.text, o.flag)
  }

  function WrittenFields(names: seq<string>, fields: seq<Field>, flag: bool): Out
    decreases fields, 0
  {
    if fields == [] then Out("", flag)
    else
      var a := WrittenField(names, fields[0], flag);
      var b := WrittenFields(names, fields[1..], a.flag);
      Out(a.text + b.text, b.flag)
  }

  function WrittenField(names: seq<string>, f: Field, flag: bool): Out
    decreases f, 3
  {
    var tag := FieldTag(names, f);
    if Skipped(f, tag) then Out("", flag)
    else if tag.squash then Written(names, f.val, tag.bag, true, flag)
    else
      var o := Written(names, f.val, tag.bag, false, false);
      Out(Sep(flag) + PrintKey(FieldName(f, tag), false) + o.text, o.flag)
  }

  /** The text of a placed value is the comma-join of its meaning. */
  lemma {:induction false} PlacedWrites(names: seq<string>, v: Val, bag: bool, flag: bool)
    requires Placed(names, v, false)
    ensures Written(names, v, bag, false, flag) ==
            Out(Emit(flag, DocsOf(names, v, bag)), flag || DocsOf(names, v, bag) != [])
    decreases v, 2
  {
    if Writes(v) { EmitOne(flag, DocOf(names, v, bag)); }
    match v
    case VRef(e) => PlacedWrites(names, e, bag, flag);
    case VSlice(items, _) => PlacedCollection(names, items, bag, flag);
    case VArray(items) => PlacedCollection(names, items, bag, flag);
    case VMap(entries, _) =>
      PlacedEntries(names, entries, false);
      TupleEmits(flag, MapPairs(names, entries));
    case VStruct(fields) =>
      PlacedFields(names, fields, false);
      TupleEmits(flag, Pairs(names, fields));
    case _ =>
  }

  lemma {:induction false} PlacedCollection(names: seq<string>, items: seq<Val>, bag: bool, flag: bool)
    requires ItemsPlaced(names, items)
    ensures var docs := Docs(names, items);
      WrittenCollection(names, items, bag, flag) == Out(Emit(flag, [if bag then Bag(docs) else Arr(docs)]), true)
    decreases items, 1
  {
    PlacedItems(names, items, false);
    CollectionEmits(flag, Docs(names, items), bag);
  }

  lemma {:induction false} PlacedItems(names: seq<string>, items: seq<Val>, flag: bool)
    requires ItemsPlaced(names, items)
    ensures WrittenItems(names, items, flag) == Out(Emit(flag, Docs(names, items)), flag || Docs(names, items) != [])
    decreases items, 0
  {
    if items != [] {
      var a := DocsOf(names, items[0], false);
      PlacedWrites(names, items[0], false, flag);
      PlacedItems(names, items[1..], flag || a != []);
      EmitAppends(flag, a, Docs(names, items[1..]));
    }
  }

  lemma {:induction false} PlacedEntries(names: seq<string>, entries: seq<Entry>, flag: bool)
    requires EntriesPlaced(names, entries)
    ensures WrittenEntries(names, entries, flag) ==
            Out(EmitPairs(flag, MapPairs(names, entries)), flag || MapPairs(names, entries) != [])
    decreases entries, 0
  {
    if entries != [] {
      var p := Pair(entries[0].key, DocOf(names, entries[0].val, false));
      PlacedWrites(names, entries[0].val, false, false);
      EmitPair(flag, p);
      PlacedEntries(names, entries[1..], true);
      EmitPairsAppends(flag, [p], MapPairs(names, entries[1..]));
    }
  }

  lemma EmitPair(flag: bool, p: Pair)
    ensures EmitPairs(flag, [p]) == Sep(flag) + PrintKey(p.key, false) + Emit(false, [p.val])
  {
    assert Emit(false, [p.val]) == Print(p.val, false);
  }

  lemma {:induction false} PlacedFields(names: seq<string>, fields: seq<Field>, flag: bool)
    requires FieldsPlaced(names, fields)
    ensures WrittenFields(names, fields, flag) ==
            Out(EmitPairs(flag, Pairs(names, fields)), flag || Pairs(names, fields) != [])
    decreases fields, 0
  {
    if fields != [] {
      var a := FieldPairs(names, fields[0]);
      PlacedField(names, fields[0], flag);
      PlacedFields(names, fields[1..], flag || a != []);
      EmitPairsAppends(flag, a, Pairs(names, fields[1..]));
    }
  }

  lemma {:induction false} PlacedField(names: seq<string>, f: Field, flag: bool)
    requires FieldPlaced(names, f)
    ensures WrittenField(names, f, flag) ==
            Out(EmitPairs(flag, FieldPairs(names, f)), flag || FieldPairs(names, f) != [])
    decreases f, 3
  {
    var tag := FieldTag(names, f);
    if !Skipped(f, tag) {
      if tag.squash {
        PlacedSquash(names, f.val, tag.bag, flag);
      } else {
        PlacedWrites(names, f.val, tag.bag, false);
        EmitPair(flag, Pair(FieldName(f, tag), DocOf(names, f.val, tag.bag)));
      }
    }
  }

  lemma {:induction false} PlacedSquash(names: seq<string>, v: Val, bag: bool, flag: bool)
    requires Placed(names, v, true)
    ensures Written(names, v, bag, true, flag) ==
            Out(EmitPairs(flag, SquashPairs(names, v)), flag || SquashPairs(names, v) != [])
    decreases v, 2
  {
    match v
    case VRef(e) => PlacedSquash(names, e, bag, flag);
    case VStruct(fields) => PlacedFields(names, fields, flag);
  }

  // ---------- laws of the meaning ----------

  lemma {:induction false} PairsSplit(names: seq<string>, a: seq<Field>, b: seq<Field>)
    ensures Pairs(names, a + b) == Pairs(names, a) + Pairs(names, b)
  {
    if a == [] {
      assert a + b == b;
    } else {
      assert (a + b)[1..] == a[1..] + b;
      PairsSplit(names, a[1..], b);
    }
  }

  /** A field that is ignored, unexported, nil or an empty bag might as well not be there. */
  lemma SkippedVanishes(names: seq<string>, a: seq<Field>, f: Field, b: seq<Field>)
    requires Skipped(f, FieldTag(names, f))
    ensures Pairs(names, a + [f] + b) == Pairs(names, a + b)
  {
    PairsSplit(names, a + [f], b);
    PairsSplit(names, a, [f]);
    PairsSplit(names, a, b);
    assert [f][1..] == [];
  }

  function Deref(v: Val): Val { if v.VRef? then Deref(v.elem) else v }

  /** Squashing a struct is writing its fields in its place. */
  lemma SquashInlines(names: seq<string>, a: seq<Field>, f: Field, b: seq<Field>)
    requires !Skipped(f, FieldTag(names, f)) && FieldTag(names, f).squash && Deref(f.val).VStruct?
    ensures Pairs(names, a + [f] + b) == Pairs(names, a + Deref(f.val).fields + b)
  {
    var inner := Deref(f.val).fields;
    PairsSplit(names, a + [f], b);
    PairsSplit(names, a, [f]);
    PairsSplit(names, a + inner, b);
    PairsSplit(names, a, inner);
    assert [f][1..] == [];
    SquashOfDeref(names, f.val);
  }

  lemma {:induction false} SquashOfDeref(names: seq<string>, v: Val)
    requires Deref(v).VStruct?
    ensures SquashPairs(names, v) == Pairs(names, Deref(v).fields)
  {
    if v.VRef? { SquashOfDeref(names, v.elem); }
  }

  /** Reading a decimal numeral. */
  function ReadDigits(s: string): int {
    if s == "" then 0 else 10 * ReadDigits(s[..|s| - 1]) + (s[|s| - 1] as int - '0' as int)
  }

  function ReadInt(s: string): int {
    if s != "" && s[0] == '-' then -ReadDigits(s[1..]) else ReadDigits(s)
  }

  lemma {:induction false} DigitsReadBack(n: nat)
    ensures ReadDigits(Digits(n)) == n && NumToken(Digits(n)) && Digits(n)[0] != '-'
  {
    if n >= 10 {
      DigitsReadBack(n / 10);
      var s := Digits(n);
      assert s[..|s| - 1] == Digits(n / 10);
    }
  }

  /** Integers are read back from their tokens. */
  lemma IntReadBack(i: int)
    ensures ReadInt(FormatInt(i)) == i && NumToken(FormatInt(i))
  {
    DigitsReadBack(if i < 0 then -i else i);
    if i < 0 { assert FormatInt(i)[1..] == Digits(-i); }
  }

  // ---------- which documents stand for a value ----------

  predicate StandsAt(s: string, sub: string, i: nat) { i + |sub| <= |s| && s[i..i + |sub|] == sub }

  ghost predicate Occurs(s: string, sub: string) { exists i: nat :: StandsAt(s, sub, i) }

  /** What the tag text says, split at its first comma. */
  ghost predicate TextSays(text: string, t: TagValue) {
    && t.name <= text && ',' !in t.name && (|t.name| < |text| ==> text[|t.name|] == ',')
    && (t.ignore <==> t.name == "-")
    && (t.squash <==> |t.name| < |text| && Occurs(text[|t.name| + 1..], "squash"))
    && (t.bag <==> |t.name| < |text| && Occurs(text[|t.name| + 1..], "bag"))
  }

  /** What a field's tag says: of the encoder's names, the first that the field carries counts. */
  ghost predicate TagSays(names: seq<string>, f: Field, t: TagValue) {
    if exists k :: 0 <= k < |names| && names[k] in f.tags
    then exists k :: 0 <= k < |names| && names[k] in f.tags && (forall j :: 0 <= j < k ==> names[j] !in f.tags)
                     && TextSays(f.tags[names[k]], t)
    else t == NO_TAG
  }

  /** A nil, or a kind without a document, behind any number of references. */
  predicate HasNoDocument(v: Val) { Deref(v).VNil? || Deref(v).VUnsupported? }

  /** A slice without elements, or a reference to one. */
  predicate EmptySlice(v: Val) { (v.VSlice? && v.items == []) || (v.VRef? && v.elem.VSlice? && v.elem.items == []) }

  /** The field is not written, whatever its key. */
  predicate LeftOut(f: Field, t: TagValue) {
    || !f.exported || t.ignore || f.val.VUnsupported? || f.val.VNil?
    || (f.val.VSlice? && f.val.isNil) || (f.val.VMap? && f.val.isNil) || (t.bag && EmptySlice(f.val))
  }

  /** The document says what the value is: numbers read back as themselves, an array or a bag of the
      elements that have a document, a tuple of the entries, or of the fields under the names of their
      tags. */
  ghost predicate Stands(names: seq<string>, v: Val, bag: bool, d: Doc)
    decreases v, 2
  {
    match v
    case VInt(i) => d.Num? && ReadInt(d.token) == i
    case VUint(u) => d.Num? && ReadInt(d.token) == u
    case VFloat(t) => d == Num(t)
    case VBool(b) => d == Bool(b)
    case VString(s) => d == Str(s)
    case VSlice(items, _) => (if bag then d.Bag? else d.Arr?) && ItemsStand(names, items, d.items)
    case VArray(items) => (if bag then d.Bag? else d.Arr?) && ItemsStand(names, items, d.items)
    case VMap(entries, _) => d.Tuple? && EntriesStand(names, entries, d.fields)
    case VStruct(fields) => d.Tuple? && FieldsStand(names, fields, d.fields)
    case VRef(e) => Stands(names, e, bag, d)
    case VNil => false
    case VUnsupported => false
  }

  ghost predicate ItemsStand(names: seq<string>, items: seq<Val>, docs: seq<Doc>)
    decreases items, 0
  {
    if items == [] then docs == []
    else if HasNoDocument(items[0]) then ItemsStand(names, items[1..], docs)
    else docs != [] && Stands(names, items[0], false, docs[0]) && ItemsStand(names, items[1..], docs[1..])
  }

  ghost predicate EntriesStand(names: seq<string>, entries: seq<Entry>, pairs: seq<Pair>)
    decreases entries, 0
  {
    if entries == [] then pairs == []
    else
      && pairs != [] && pairs[0].key == entries[0].key && Stands(names, entries[0].val, false, pairs[0].val)
      && EntriesStand(names, entries[1..], pairs[1..])
  }

  /** The pairs of the fields, one field after the other. */
  ghost predicate FieldsStand(names: seq<string>, fields: seq<Field>, pairs: seq<Pair>)
    decreases fields, 0
  {
    if fields == [] then pairs == []
    else exists n :: 0 <= n <= |pairs| && FieldStands(names, fields[0], pairs[..n])
                     && FieldsStand(names, fields[1..], pairs[n..])
  }

  /** The pairs of one field: none, those of the squashed struct, or one under the tag's name, or under the
      field's own if the tag gives none. */
  ghost predicate FieldStands(names: seq<string>, f: Field, pairs: seq<Pair>)
    decreases f, 3
  {
    exists t :: TagSays(names, f, t) &&
      if LeftOut(f, t) then pairs == []
      else if t.squash then SquashStands(names, f.val, pairs)
      else && |pairs| == 1 && pairs[0].key == (if t.name != "" then t.name else f.name)
           && Stands(names, f.val, t.bag, pairs[0].val)
  }

  ghost predicate SquashStands(names: seq<string>, v: Val, pairs: seq<Pair>)
    decreases v, 1
  {
    match v
    case VRef(e) => SquashStands(names, e, pairs)
    case VStruct(fields) => FieldsStand(names, fields, pairs)
    case _ => pairs == []
  }

  lemma OneOn(s: string, sub: string, i: nat)
    requires s != ""
    ensures StandsAt(s[1..], sub, i) <==> StandsAt(s, sub, i + 1)
  {
    if i + |sub| <= |s[1..]| { assert s[1..][i..i + |sub|] == s[i + 1..i + 1 + |sub|]; }
  }

  lemma AtFront(s: string, sub: string)
    ensures StandsAt(s, sub, 0) <==> sub <= s
  {
    if |sub| <= |s| { assert s[0..0 + |sub|] == s[..|sub|]; }
  }

  lemma {:induction false} ContainsOccurs(s: string, sub: string)
    ensures Contains(s, sub) <==> Occurs(s, sub)
  {
    AtFront(s, sub);
    hide StandsAt;
    if s != "" {
      ContainsOccurs(s[1..], sub);
      if Occurs(s[1..], sub) {
        var i: nat :| StandsAt(s[1..], sub, i);
        OneOn(s, sub, i);
      }
      if Occurs(s, sub) {
        var i: nat :| StandsAt(s, sub, i);
        if i > 0 { OneOn(s, sub, i - 1); }
      }
    } else {
      NothingInEmpty(sub);
    }
  }

  lemma NothingInEmpty(sub: string)
    ensures Occurs("", sub) <==> sub == ""
  {
    if sub == "" { assert StandsAt("", sub, 0); }
  }

  lemma {:induction false} CutSplits(text: string)
    ensures var (name, opts) := Cut(text);
      && name <= text && ',' !in name && (|name| < |text| ==> text[|name|] == ',' && opts == text[|name| + 1..])
      && (|name| == |text| ==> opts == "")
  {
    if text != "" && text[0] != ',' {
      CutSplits(text[1..]);
      assert text == [text[0]] + text[1..];
    }
  }

  /** A parsed tag is what its text says. */
  lemma ParseTagSays(text: string)
    ensures TextSays(text, ParseTag(text))
  {
    var (name, opts) := Cut(text);
    CutSplits(text);
    ContainsOccurs(opts, "squash");
    ContainsOccurs(opts, "bag");
  }

  /** The tag of a field is what the first of the encoder's names says that the field carries. */
  lemma {:induction false} FieldTagSays(names: seq<string>, f: Field)
    ensures TagSays(names, f, FieldTag(names, f))
  {
    hide ParseTag, TextSays;
    if names != [] {
      if names[0] in f.tags {
        ParseTagSays(f.tags[names[0]]);
      } else {
        FieldTagSays(names[1..], f);
        assert forall k :: 0 < k < |names| ==> names[k] == names[1..][k - 1];
        if exists k :: 0 <= k < |names[1..]| && names[1..][k] in f.tags {
          var k :| 0 <= k < |names[1..]| && names[1..][k] in f.tags
            && (forall j :: 0 <= j < k ==> names[1..][j] !in f.tags)
            && TextSays(f.tags[names[1..][k]], FieldTag(names[1..], f));
          assert names[k + 1] in f.tags && forall j :: 0 <= j < k + 1 ==> names[j] !in f.tags;
        }
      }
    }
  }

  lemma {:induction false} WritesExactly(v: Val)
    ensures Writes(v) <==> !HasNoDocument(v)
  {
    if v.VRef? { WritesExactly(v.elem); }
  }

  /** What the encoder writes for a value stands for it. */
  lemma {:induction false} DocStands(names: seq<string>, v: Val, bag: bool)
    requires Writes(v) && Placed(names, v, false)
    ensures Stands(names, v, bag, DocOf(names, v, bag))
    decreases v, 2
  {
    match v
    case VInt(i) => IntReadBack(i);
    case VUint(u) => IntReadBack(u); assert FormatInt(u) == Digits(u);
    case VSlice(items, _) => DocsStand(names, items);
    case VArray(items) => DocsStand(names, items);
    case VMap(entries, _) => MapPairsStand(names, entries);
    case VStruct(fields) => PairsStand(names, fields);
    case VRef(e) => DocStands(names, e, bag);
    case _ =>
  }

  lemma {:induction false} DocsStand(names: seq<string>, items: seq<Val>)
    requires ItemsPlaced(names, items)
    ensures ItemsStand(names, items, Docs(names, items))
    decreases items, 0
  {
    if items != [] {
      WritesExactly(items[0]);
      DocsStand(names, items[1..]);
      if Writes(items[0]) {
        DocStands(names, items[0], false);
        assert Docs(names, items)[1..] == Docs(names, items[1..]);
      } else {
        assert Docs(names, items) == Docs(names, items[1..]);
      }
    }
  }

  lemma {:induction false} MapPairsStand(names: seq<string>, entries: seq<Entry>)
    requires EntriesPlaced(names, entries)
    ensures EntriesStand(names, entries, MapPairs(names, entries))
    decreases entries, 0
  {
    if entries != [] {
      DocStands(names, entries[0].val, false);
      MapPairsStand(names, entries[1..]);
    }
  }

  lemma {:induction false} PairsStand(names: seq<string>, fields: seq<Field>)
    requires FieldsPlaced(names, fields)
    ensures FieldsStand(names, fields, Pairs(names, fields))
    decreases fields, 0
  {
    if fields != [] {
      var a, b := FieldPairs(names, fields[0]), Pairs(names, fields[1..]);
      FieldPairsStand(names, fields[0]);
      PairsStand(names, fields[1..]);
      assert (a + b)[..|a|] == a && (a + b)[|a|..] == b;
    }
  }

  lemma {:induction false} FieldPairsStand(names: seq<string>, f: Field)
    requires FieldPlaced(names, f)
    ensures FieldStands(names, f, FieldPairs(names, f))
    decreases f, 3
  {
    var t := FieldTag(names, f);
    FieldTagSays(names, f);
    assert Skipped(f, t) <==> LeftOut(f, t);
    if !Skipped(f, t) {
      if t.squash { SquashPairsStand(names, f.val); } else { DocStands(names, f.val, t.bag); }
    }
  }

  lemma {:induction false} SquashPairsStand(names: seq<string>, v: Val)
    requires Placed(names, v, true)
    ensures SquashStands(names, v, SquashPairs(names, v))
    decreases v, 1
  {
    match v
    case VRef(e) => SquashPairsStand(names, e);
    case VStruct(fields) => PairsStand(names, fields);
  }

  // ---------- exactly when the encoder panics ----------

  /** Encoding `v` comes to `w`: through references, elements, entries, and fields that are written. */
  ghost predicate Reaches(names: seq<string>, v: Val, w: Val)
    decreases v
  {
    v == w ||
    match v
    case VRef(e) => Reaches(names, e, w)
    case VSlice(items, _) => exists k :: 0 <= k < |items| && Reaches(names, items[k], w)
    case VArray(items) => exists k :: 0 <= k < |items| && Reaches(names, items[k], w)
    case VMap(entries, _) => exists k :: 0 <= k < |entries| && Reaches(names, entries[k].val, w)
    case VStruct(fields) =>
      exists k :: 0 <= k < |fields| && Kept(names, fields[k]) && Reaches(names, fields[k].val, w)
    case _ => false
  }

  /** Some of a field is written, unless it is an array, which panics. */
  ghost predicate Kept(names: seq<string>, f: Field) {
    !f.val.VArray? && exists t :: TagSays(names, f, t) && !LeftOut(f, t)
  }

  /** A nil without anything to encode, or a struct with an array in a field that is not ignored. */
  ghost predicate Fatal(names: seq<string>, w: Val) {
    w.VNil? || (w.VStruct? && exists k :: 0 <= k < |w.fields| && ArrayField(names, w.fields[k]))
  }

  ghost predicate ArrayField(names: seq<string>, f: Field) {
    f.exported && f.val.VArray? && exists t :: TagSays(names, f, t) && !t.ignore
  }

  /** A field's tag says one thing. */
  lemma TagSaysOne(names: seq<string>, f: Field, t: TagValue, u: TagValue)
    requires TagSays(names, f, t) && TagSays(names, f, u)
    ensures t == u
  {
    if exists k :: 0 <= k < |names| && names[k] in f.tags {
      var k :| 0 <= k < |names| && names[k] in f.tags && (forall j :: 0 <= j < k ==> names[j] !in f.tags)
        && TextSays(f.tags[names[k]], t);
      var m :| 0 <= m < |names| && names[m] in f.tags && (forall j :: 0 <= j < m ==> names[j] !in f.tags)
        && TextSays(f.tags[names[m]], u);
      assert k == m;
      SameName(f.tags[names[k]], t, u);
    }
  }

  lemma SameName(text: string, t: TagValue, u: TagValue)
    requires TextSays(text, t) && TextSays(text, u)
    ensures t == u
  {
    assert forall k :: 0 <= k < |u.name| ==> text[k] == u.name[k] && u.name[k] != ',';
    assert forall k :: 0 <= k < |t.name| ==> text[k] == t.name[k] && t.name[k] != ',';
    assert t.name == text[..|t.name|] && u.name == text[..|u.name|];
  }

  lemma FieldPanicsExactly(names: seq<string>, f: Field)
    ensures FieldPanics(names, f) <==> ArrayField(names, f) || (Kept(names, f) && Panics(names, f.val))
  {
    var t := FieldTag(names, f);
    FieldTagSays(names, f);
    hide TagSays, Panics, FieldTag;
    assert Skipped(f, t) <==> LeftOut(f, t);
    forall u | TagSays(names, f, u) ensures u == t { TagSaysOne(names, f, t, u); }
  }

  /** The encoder panics if and only if it comes to such a value. */
  lemma {:induction false} PanicsExactly(names: seq<string>, v: Val)
    ensures Panics(names, v) <==> exists w :: Reaches(names, v, w) && Fatal(names, w)
    decreases v
  {
    if Panics(names, v) {
      var w := PanicAt(names, v);
    }
    if exists w :: Reaches(names, v, w) && Fatal(names, w) {
      var w :| Reaches(names, v, w) && Fatal(names, w);
      FatalPanics(names, v, w);
    }
  }

  lemma {:induction false} PanicAt(names: seq<string>, v: Val) returns (w: Val)
    requires Panics(names, v)
    ensures Reaches(names, v, w) && Fatal(names, w)
    decreases v
  {
    match v {
      case VNil => w := v;
      case VRef(e) => w := PanicAt(names, e);
      case VSlice(items, _) =>
        var k :| 0 <= k < |items| && Panics(names, items[k]);
        w := PanicAt(names, items[k]);
      case VArray(items) =>
        var k :| 0 <= k < |items| && Panics(names, items[k]);
        w := PanicAt(names, items[k]);
      case VMap(entries, _) =>
        var k :| 0 <= k < |entries| && Panics(names, entries[k].val);
        w := PanicAt(names, entries[k].val);
      case VStruct(fields) =>
        var k :| 0 <= k < |fields| && FieldPanics(names, fields[k]);
        FieldPanicsExactly(names, fields[k]);
        if ArrayField(names, fields[k]) { w := v; } else { w := PanicAt(names, fields[k].val); }
    }
  }

  lemma {:induction false} FatalPanics(names: seq<string>, v: Val, w: Val)
    requires Reaches(names, v, w) && Fatal(names, w)
    ensures Panics(names, v)
    decreases v
  {
    if v == w {
      if v.VStruct? {
        var k :| 0 <= k < |v.fields| && ArrayField(names, v.fields[k]);
        FieldPanicsExactly(names, v.fields[k]);
      }
    } else {
      match v
      case VRef(e) => FatalPanics(names, e, w);
      case VSlice(items, _) =>
        var k :| 0 <= k < |items| && Reaches(names, items[k], w);
        FatalPanics(names, items[k], w);
      case VArray(items) =>
        var k :| 0 <= k < |items| && Reaches(names, items[k], w);
        FatalPanics(names, items[k], w);
      case VMap(entries, _) =>
        var k :| 0 <= k < |entries| && Reaches(names, entries[k].val, w);
        FatalPanics(names, entries[k].val, w);
      case VStruct(fields) =>
        var k :| 0 <= k < |fields| && Kept(names, fields[k]) && Reaches(names, fields[k].val, w);
        FatalPanics(names, fields[k].val, w);
        FieldPanicsExactly(names, fields[k]);
    }
  }

  // ---------- the round trip of a value ----------

  /** No key that is written for the value contains a quote. */
  predicate KeysFree(names: seq<string>, v: Val) {
    match v
    case VRef(e) => KeysFree(names, e)
    case VSlice(items, _) => forall k :: 0 <= k < |items| && Writes(items[k]) ==> KeysFree(names, items[k])
    case VArray(items) => forall k :: 0 <= k < |items| && Writes(items[k]) ==> KeysFree(names, items[k])
    case VMap(entries, _) =>
      forall k :: 0 <= k < |entries| ==> NoQuote(entries[k].key) && KeysFree(names, entries[k].val)
    case VStruct(fields) => forall k :: 0 <= k < |fields| ==> FieldKeysFree(names, fields[k])
    case _ => true
  }

  predicate FieldKeysFree(names: seq<string>, f: Field) {
    var tag := FieldTag(names, f);
    Skipped(f, tag) || ((tag.squash || NoQuote(FieldName(f, tag))) && KeysFree(names, f.val))
  }

  predicate PairsFree(pairs: seq<Pair>) {
    forall k :: 0 <= k < |pairs| ==> NoQuote(pairs[k].key) && QuoteFreeKeys(pairs[k].val)
  }

  predicate DocsFree(docs: seq<Doc>) { forall k :: 0 <= k < |docs| ==> QuoteFreeKeys(docs[k]) }

  lemma {:induction false} MeaningOk(names: seq<string>, v: Val, bag: bool)
    requires Placed(names, v, false) && Writes(v)
    ensures Sound(DocOf(names, v, bag)) && (QuoteFreeKeys(DocOf(names, v, bag)) <==> KeysFree(names, v))
    decreases v, 2
  {
    match v
    case VInt(i) => IntReadBack(i);
    case VUint(u) => DigitsReadBack(u);
    case VRef(e) => MeaningOk(names, e, bag);
    case VSlice(items, _) => DocsOk(names, items);
    case VArray(items) => DocsOk(names, items);
    case VMap(entries, _) => MapPairsOk(names, entries);
    case VStruct(fields) => PairsOk(names, fields);
    case _ =>
  }

  lemma {:induction false} DocsOk(names: seq<string>, items: seq<Val>)
    requires ItemsPlaced(names, items)
    ensures AllSound(Docs(names, items))
    ensures DocsFree(Docs(names, items)) <==>
            forall k :: 0 <= k < |items| && Writes(items[k]) ==> KeysFree(names, items[k])
    decreases items, 1
  {
    if items != [] {
      var head, tail := DocsOf(names, items[0], false), Docs(names, items[1..]);
      DocsOk(names, items[1..]);
      if Writes(items[0]) {
        MeaningOk(names, items[0], false);
        FreeOne(head[0], Pair("", head[0]));
      }
      DocsFreeSplit(head, tail);
      AllButFirst(names, items);
    }
  }

  lemma FreeOne(d: Doc, p: Pair)
    ensures DocsFree([d]) <==> QuoteFreeKeys(d)
    ensures PairsFree([p]) <==> NoQuote(p.key) && QuoteFreeKeys(p.val)
  {
    assert [d][0] == d && [p][0] == p;
  }

  lemma DocsFreeSplit(a: seq<Doc>, b: seq<Doc>)
    ensures DocsFree(a + b) <==> DocsFree(a) && DocsFree(b)
    ensures AllSound(a + b) <==> AllSound(a) && AllSound(b)
  {
    var c := a + b;
    assert forall k :: 0 <= k < |a| ==> c[k] == a[k];
    assert forall k :: 0 <= k < |b| ==> c[|a| + k] == b[k];
  }

  lemma AllButFirst(names: seq<string>, items: seq<Val>)
    requires items != []
    ensures (forall k :: 0 <= k < |items| && Writes(items[k]) ==> KeysFree(names, items[k])) <==>
            (Writes(items[0]) ==> KeysFree(names, items[0])) &&
            (forall k :: 0 <= k < |items[1..]| && Writes(items[1..][k]) ==> KeysFree(names, items[1..][k]))
  {
    assert forall k :: 0 < k < |items| ==> items[k] == items[1..][k - 1];
  }

  lemma PairsFreeSplit(a: seq<Pair>, b: seq<Pair>)
    ensures PairsFree(a + b) <==> PairsFree(a) && PairsFree(b)
    ensures AllFieldsSound(a + b) <==> AllFieldsSound(a) && AllFieldsSound(b)
  {
    var c := a + b;
    assert forall k :: 0 <= k < |a| ==> c[k] == a[k];
    assert forall k :: 0 <= k < |b| ==> c[|a| + k] == b[k];
  }

  lemma {:induction false} MapPairsOk(names: seq<string>, entries: seq<Entry>)
    requires EntriesPlaced(names, entries)
    ensures AllFieldsSound(MapPairs(names, entries))
    ensures PairsFree(MapPairs(names, entries)) <==>
            forall k :: 0 <= k < |entries| ==> NoQuote(entries[k].key) && KeysFree(names, entries[k].val)
    decreases entries, 1
  {
    if entries != [] {
      var e, rest := entries[0], entries[1..];
      MapPairsOk(names, rest);
      MeaningOk(names, e.val, false);
      var p := Pair(e.key, DocOf(names, e.val, false));
      FreeOne(p.val, p);
      PairsFreeSplit([p], MapPairs(names, rest));
      assert forall k :: 0 < k < |entries| ==> entries[k] == rest[k - 1];
    }
  }

  lemma {:induction false} PairsOk(names: seq<string>, fields: seq<Field>)
    requires FieldsPlaced(names, fields)
    ensures AllFieldsSound(Pairs(names, fields))
    ensures PairsFree(Pairs(names, fields)) <==>
            forall k :: 0 <= k < |fields| ==> FieldKeysFree(names, fields[k])
    decreases fields, 1
  {
    if fields != [] {
      PairsOk(names, fields[1..]);
      FieldPairsOk(names, fields[0]);
      PairsFreeSplit(FieldPairs(names, fields[0]), Pairs(names, fields[1..]));
      assert forall k :: 0 < k < |fields| ==> fields[k] == fields[1..][k - 1];
    }
  }

  lemma {:induction false} FieldPairsOk(names: seq<string>, f: Field)
    requires FieldPlaced(names, f)
    ensures AllFieldsSound(FieldPairs(names, f))
    ensures PairsFree(FieldPairs(names, f)) <==> FieldKeysFree(names, f)
    decreases f, 3
  {
    var tag := FieldTag(names, f);
    if !Skipped(f, tag) {
      if tag.squash {
        SquashOk(names, f.val);
      } else {
        MeaningOk(names, f.val, tag.bag);
        var p := Pair(FieldName(f, tag), DocOf(names, f.val, tag.bag));
        FreeOne(p.val, p);
      }
    }
  }

  lemma {:induction false} SquashOk(names: seq<string>, v: Val)
    requires Placed(names, v, true)
    ensures AllFieldsSound(SquashPairs(names, v))
    ensures PairsFree(SquashPairs(names, v)) <==> KeysFree(names, v)
    decreases v, 2
  {
    match v
    case VRef(e) => SquashOk(names, e);
    case VStruct(fields) => PairsOk(names, fields);
  }

  /** The round trip of a value: its text is read back as its meaning if and only if no key that is
      written for it contains a quote. */
  lemma ValueRoundTrip(names: seq<string>, v: Val, bag: bool)
    requires Placed(names, v, false) && Writes(v)
    ensures Parse(Print(DocOf(names, v, bag), false)) == Some(DocOf(names, v, bag)) <==> KeysFree(names, v)
  {
    MeaningOk(names, v, bag);
    RoundTripExactly(DocOf(names, v, bag));
  }

  // ---------- the builder ----------

  class Builder {
    var sb: string
    var tupleDepth: int
    var writeSep: bool

    constructor ()
      ensures sb == "" && tupleDepth == 0 && !writeSep
    {
      sb, tupleDepth, writeSep := "", 0, false;
    }

    method Reset()
      modifies this
      ensures sb == "" && tupleDepth == 0 && !writeSep
    {
      sb, tupleDepth, writeSep := "", 0, false;
    }

    method WriteSepIfNeeded()
      modifies this`sb, this`writeSep
      ensures sb == old(sb) + Sep(old(writeSep)) && writeSep
    {
      if writeSep { sb := sb + ","; } else { writeSep := true; }
    }

    /** A complete literal: what WriteString, WriteInteger, WriteFloat and WriteBoolean do. */
    method WriteLiteral(text: string)
      modifies this`sb, this`writeSep
      ensures sb == old(sb) + Sep(old(writeSep)) + text && writeSep
    {
      WriteSepIfNeeded();
      sb := sb + text;
    }

    method WriteKey(name: string)
      modifies this`sb, this`writeSep
      ensures sb == old(sb) + Sep(old(writeSep)) + PrintKey(name, false) && !writeSep
    {
      WriteSepIfNeeded();
      sb := sb + "'";
      sb := sb + name;
      sb := sb + "':";
      writeSep := false;
    }

    method WriteBeginTuple()
      modifies this
      ensures sb == old(sb) + Sep(old(writeSep)) + "{" && !writeSep && tupleDepth == old(tupleDepth) + 1
    {
      WriteSepIfNeeded();
      sb := sb + "{";
      tupleDepth := tupleDepth + 1;
      writeSep := false;
    }

    /** Panics on an end without a begin. */
    method WriteEndTuple() returns (panicked: bool)
      modifies this
      ensures panicked == (old(tupleDepth) == 0)
      ensures !panicked ==> sb == old(sb) + "}" && writeSep && tupleDepth == old(tupleDepth) - 1
    {
      if tupleDepth == 0 {
        return true;
      }
      sb := sb + "}";
      tupleDepth := tupleDepth - 1;
      writeSep := true;
      panicked := false;
    }

    /** WriteBeginArray and WriteBeginBag. */
    method WriteBegin(open: string)
      modifies this`sb, this`writeSep
      ensures sb == old(sb) + Sep(old(writeSep)) + open && !writeSep
    {
      WriteSepIfNeeded();
      sb := sb + open;
      writeSep := false;
    }

    /** WriteEndArray and WriteEndBag. */
    method WriteEnd(close: string)
      modifies this`sb, this`writeSep
      ensures sb == old(sb) + close && writeSep
    {
      sb := sb + close;
      writeSep := true;
    }
  }

  // ---------- the serializer ----------

  /** The builder holds, behind what it held before, what was to be written, with the flag right. */
  ghost predicate Wrote(before: string, o: Out, b: Builder)
    reads b
  {
    b.sb == before + o.text && b.writeSep == o.flag
  }

  /** The text of a value written behind the separator flag `flag` is its documents, comma-separated. */
  ghost predicate IsDocs(o: Out, flag: bool, docs: seq<Doc>) {
    o.text == Emit(flag, docs) && o.flag == (flag || docs != [])
  }

  ghost predicate IsPairs(o: Out, flag: bool, pairs: seq<Pair>) {
    o.text == EmitPairs(flag, pairs) && o.flag == (flag || pairs != [])
  }

  lemma Assoc(a: string, b: string, c: string)
    ensures (a + b) + c == a + (b + c)
  {}

  datatype Encoded = EncodePanic | Encoded(text: string)

  function DefaultTagNames(): seq<string> { ["partiql", "dynamodbav", "json", "yaml"] }

  class Encoder {
    const b: Builder
    const tagNames: seq<string>

    constructor (tagNames: seq<string>)
      requires tagNames != []
      ensures this.tagNames == tagNames && fresh(b)
    {
      this.tagNames := tagNames;
      b := new Builder();
    }

    /** `Encoder.Marshal` and, with `asBag`, `Encoder.MarshalCollection`: the text of a value is the
        plain print of what it means, and it is read back as that if and only if no key that is
        written contains a quote. */
    method Encode(v: Val, asBag: bool) returns (r: Encoded)
      modifies b
      ensures r.EncodePanic? <==> Panics(tagNames, v)
      ensures r.Encoded? ==> r.text == Written(tagNames, v, asBag, false, false).text
      ensures r.Encoded? && Placed(tagNames, v, false) && Writes(v) ==>
        var d := DocOf(tagNames, v, asBag);
        && r.text == Print(d, false) && Stands(tagNames, v, asBag, d)
        && (Parse(r.text) == Some(d) <==> KeysFree(tagNames, v))
      ensures r.EncodePanic? <==> exists w :: Reaches(tagNames, v, w) && Fatal(tagNames, w)
    {
      PanicsExactly(tagNames, v);
      hide Reaches, Fatal, Stands;
      b.Reset();
      var panicked := Marshal(v, NO_TAG.(bag := asBag));
      if panicked {
        return EncodePanic;
      }
      if Placed(tagNames, v, false) && Writes(v) {
        EmitOne(false, DocOf(tagNames, v, asBag));
        DocStands(tagNames, v, asBag);
        ValueRoundTrip(tagNames, v, asBag);
      }
      r := Encoded(b.sb);
    }

    /** For every value that does not panic: the builder holds its text behind what it held before, and
        for a placed one that is the text of its meaning. */
    method Marshal(v: Val, tag: TagValue) returns (panicked: bool)
      requires b.tupleDepth >= 0
      modifies b
      ensures panicked == Panics(tagNames, v)
      ensures !panicked ==> b.tupleDepth == old(b.tupleDepth)
      ensures !panicked ==> Wrote(old(b.sb), Written(tagNames, v, tag.bag, tag.squash, old(b.writeSep)), b)
      ensures !panicked && Placed(tagNames, v, tag.squash) ==>
        var o, flag := Written(tagNames, v, tag.bag, tag.squash, old(b.writeSep)), old(b.writeSep);
        if tag.squash then IsPairs(o, flag, SquashPairs(tagNames, v))
        else IsDocs(o, flag, DocsOf(tagNames, v, tag.bag))
      decreases v, 2
    {
      if Placed(tagNames, v, tag.squash) {
        if tag.squash { PlacedSquash(tagNames, v, tag.bag, b.writeSep); }
        else { PlacedWrites(tagNames, v, tag.bag, b.writeSep); }
      }
      match v {
        case VNil => panicked := true;
        case VUnsupported => panicked := false;
        case VRef(e) => panicked := Marshal(e, tag);
        case VSlice(items, _) => panicked := MarshalCollection(items, tag.bag);
        case VArray(items) => panicked := MarshalCollection(items, tag.bag);
        case VMap(entries, _) => panicked := MarshalMap(entries);
        case VStruct(fields) => panicked := MarshalStruct(fields, tag.squash);
        case _ => MarshalScalar(v); panicked := false;
      }
    }

    method MarshalScalar(v: Val)
      requires v.VInt? || v.VUint? || v.VFloat? || v.VBool? || v.VString?
      modifies b
      ensures b.tupleDepth == old(b.tupleDepth)
      ensures Wrote(old(b.sb), Out(Sep(old(b.writeSep)) + Scalar(v), true), b)
    {
      Assoc(b.sb, Sep(b.writeSep), Scalar(v));
      match v {
        case VInt(i) => b.WriteLiteral(FormatInt(i));
        case VUint(u) => b.WriteLiteral(Digits(u));
        case VFloat(t) => b.WriteLiteral(t);
        case VBool(x) => b.WriteLiteral(if x then "true" else "false");
        case VString(s) => b.WriteLiteral("'" + Escape(s) + "'");
      }
    }

    /** One array or bag of the elements that have a document. */
    method MarshalCollection(items: seq<Val>, bag: bool) returns (panicked: bool)
      requires b.tupleDepth >= 0
      modifies b
      ensures panicked == SomePanics(tagNames, items)
      ensures !panicked ==> b.tupleDepth == old(b.tupleDepth)
      ensures !panicked ==> Wrote(old(b.sb), WrittenCollection(tagNames, items, bag, old(b.writeSep)), b)
      ensures !panicked && ItemsPlaced(tagNames, items) ==>
        var docs := Docs(tagNames, items);
        IsDocs(WrittenCollection(tagNames, items, bag, old(b.writeSep)),
               old(b.writeSep), [if bag then Bag(docs) else Arr(docs)])
      decreases items, 2
    {
      if ItemsPlaced(tagNames, items) { PlacedCollection(tagNames, items, bag, b.writeSep); }
      Around(b.sb, Sep(b.writeSep), if bag then "<<" else "[",
             WrittenItems(tagNames, items, false).text, if bag then ">>" else "]");
      b.WriteBegin(if bag then "<<" else "[");
      panicked := MarshalItems(items);
      if panicked {
        return;
      }
      b.WriteEnd(if bag then ">>" else "]");
    }

    /** The element loop of `marshalCollection`. */
    method MarshalItems(items: seq<Val>) returns (panicked: bool)
      requires b.tupleDepth >= 0
      modifies b
      ensures panicked == SomePanics(tagNames, items)
      ensures !panicked ==> b.tupleDepth == old(b.tupleDepth)
      ensures !panicked ==> Wrote(old(b.sb), WrittenItems(tagNames, items, old(b.writeSep)), b)
      decreases items, 1
    {
      ghost var start, all := b.sb, WrittenItems(tagNames, items, b.writeSep);
      var i := 0;
      assert items[0..] == items;
      while i < |items|
        invariant i <= |items| && b.tupleDepth == old(b.tupleDepth)
        invariant forall k :: 0 <= k < i ==> !Panics(tagNames, items[k])
        invariant b.sb + WrittenItems(tagNames, items[i..], b.writeSep).text == start + all.text
        invariant WrittenItems(tagNames, items[i..], b.writeSep).flag == all.flag
      {
        ghost var sb := b.sb;
        ghost var o := Written(tagNames, items[i], false, false, b.writeSep);
        assert items[i..][1..] == items[i + 1..];
        Assoc(sb, o.text, WrittenItems(tagNames, items[i + 1..], o.flag).text);
        panicked := Marshal(items[i], NO_TAG);
        if panicked {
          return;
        }
        i := i + 1;
      }
      panicked := false;
    }

    /** One tuple of the entries in iteration order. */
    method MarshalMap(entries: seq<Entry>) returns (panicked: bool)
      requires b.tupleDepth >= 0
      modifies b
      ensures panicked == exists k :: 0 <= k < |entries| && Panics(tagNames, entries[k].val)
      ensures !panicked ==> b.tupleDepth == old(b.tupleDepth)
      ensures !panicked ==>
        Wrote(old(b.sb), Out(Sep(old(b.writeSep)) + "{" + WrittenEntries(tagNames, entries, false).text + "}", true), b)
      ensures !panicked && EntriesPlaced(tagNames, entries) ==>
        b.sb == old(b.sb) + Emit(old(b.writeSep), [Tuple(MapPairs(tagNames, entries))])
      decreases entries, 2
    {
      if EntriesPlaced(tagNames, entries) {
        PlacedEntries(tagNames, entries, false);
        TupleEmits(b.writeSep, MapPairs(tagNames, entries));
      }
      Around(b.sb, Sep(b.writeSep), "{", WrittenEntries(tagNames, entries, false).text, "}");
      b.WriteBeginTuple();
      panicked := MarshalEntries(entries);
      if panicked {
        return;
      }
      panicked := b.WriteEndTuple();
    }

    /** The loop of `marshalMap`. */
    method MarshalEntries(entries: seq<Entry>) returns (panicked: bool)
      requires b.tupleDepth >= 0
      modifies b
      ensures panicked == exists k :: 0 <= k < |entries| && Panics(tagNames, entries[k].val)
      ensures !panicked ==> b.tupleDepth == old(b.tupleDepth)
      ensures !panicked ==> Wrote(old(b.sb), WrittenEntries(tagNames, entries, old(b.writeSep)), b)
      decreases entries, 1
    {
      ghost var start, all := b.sb, WrittenEntries(tagNames, entries, b.writeSep);
      var i := 0;
      assert entries[0..] == entries;
      while i < |entries|
        invariant i <= |entries| && b.tupleDepth == old(b.tupleDepth)
        invariant forall k :: 0 <= k < i ==> !Panics(tagNames, entries[k].val)
        invariant b.sb + WrittenEntries(tagNames, entries[i..], b.writeSep).text == start + all.text
        invariant WrittenEntries(tagNames, entries[i..], b.writeSep).flag == all.flag
      {
        ghost var sb := b.sb;
        ghost var o := WrittenEntry(tagNames, entries[i], b.writeSep);
        assert entries[i..][1..] == entries[i + 1..];
        Assoc(sb, o.text, WrittenEntries(tagNames, entries[i + 1..], o.flag).text);
        panicked := MarshalEntry(entries[i]);
        if panicked {
          return;
        }
        i := i + 1;
      }
      panicked := false;
    }

    method MarshalEntry(e: Entry) returns (panicked: bool)
      requires b.tupleDepth >= 0
      modifies b
      ensures panicked == Panics(tagNames, e.val)
      ensures !panicked ==> b.tupleDepth == old(b.tupleDepth)
      ensures !panicked ==> Wrote(old(b.sb), WrittenEntry(tagNames, e, old(b.writeSep)), b)
      decreases e, 3
    {
      KeyThen(b.sb, Sep(b.writeSep), PrintKey(e.key, false), Written(tagNames, e.val, false, false, false).text);
      b.WriteKey(e.key);
      panicked := Marshal(e.val, NO_TAG);
    }

    /** One tuple of the written fields, or only the fields when squashed. */
    method MarshalStruct(fields: seq<Field>, squash: bool) returns (panicked: bool)
      requires b.tupleDepth >= 0
      modifies b
      ensures panicked == exists k :: 0 <= k < |fields| && FieldPanics(tagNames, fields[k])
      ensures !panicked ==> b.tupleDepth == old(b.tupleDepth)
      ensures !panicked ==>
        Wrote(old(b.sb),
              if squash then WrittenFields(tagNames, fields, old(b.writeSep))
              else Out(Sep(old(b.writeSep)) + "{" + WrittenFields(tagNames, fields, false).text + "}", true), b)
      ensures !panicked && FieldsPlaced(tagNames, fields) ==>
        var pairs := Pairs(tagNames, fields);
        b.sb == old(b.sb) + if squash then EmitPairs(old(b.writeSep), pairs) else Emit(old(b.writeSep), [Tuple(pairs)])
      decreases fields, 2
    {
      if FieldsPlaced(tagNames, fields) {
        PlacedFields(tagNames, fields, squash && b.writeSep);
        TupleEmits(b.writeSep, Pairs(tagNames, fields));
      }
      if squash {
        panicked := MarshalFields(fields);
        return;
      }
      Around(b.sb, Sep(b.writeSep), "{", WrittenFields(tagNames, fields, false).text, "}");
      b.WriteBeginTuple();
      panicked := MarshalFields(fields);
      if panicked {
        return;
      }
      panicked := b.WriteEndTuple();
    }

    /** The field loop of `marshalStruct`. */
    method MarshalFields(fields: seq<Field>) returns (panicked: bool)
      requires b.tupleDepth >= 0
      modifies b
      ensures panicked == exists k :: 0 <= k < |fields| && FieldPanics(tagNames, fields[k])
      ensures !panicked ==> b.tupleDepth == old(b.tupleDepth)
      ensures !panicked ==> Wrote(old(b.sb), WrittenFields(tagNames, fields, old(b.writeSep)), b)
      decreases fields, 1
    {
      ghost var start, all := b.sb, WrittenFields(tagNames, fields, b.writeSep);
      var i := 0;
      assert fields[0..] == fields;
      while i < |fields|
        invariant i <= |fields| && b.tupleDepth == old(b.tupleDepth)
        invariant forall k :: 0 <= k < i ==> !FieldPanics(tagNames, fields[k])
        invariant b.sb + WrittenFields(tagNames, fields[i..], b.writeSep).text == start + all.text
        invariant WrittenFields(tagNames, fields[i..], b.writeSep).flag == all.flag
      {
        ghost var sb := b.sb;
        ghost var o := WrittenField(tagNames, fields[i], b.writeSep);
        assert fields[i..][1..] == fields[i + 1..];
        Assoc(sb, o.text, WrittenFields(tagNames, fields[i + 1..], o.flag).text);
        panicked := MarshalField(fields[i]);
        if panicked {
          return;
        }
        i := i + 1;
      }
      panicked := false;
    }

    /** One turn of the field loop of `marshalStruct`: nothing for a skipped field, the inner fields of
        a squashed struct, else key and value. */
    method MarshalField(f: Field) returns (panicked: bool)
      requires b.tupleDepth >= 0
      modifies b
      ensures panicked == FieldPanics(tagNames, f)
      ensures !panicked ==> b.tupleDepth == old(b.tupleDepth)
      ensures !panicked ==> Wrote(old(b.sb), WrittenField(tagNames, f, old(b.writeSep)), b)
      ensures !panicked && FieldPlaced(tagNames, f) ==>
        IsPairs(WrittenField(tagNames, f, old(b.writeSep)), old(b.writeSep), FieldPairs(tagNames, f))
      decreases f, 3
    {
      panicked := false;
      if FieldPlaced(tagNames, f) { PlacedField(tagNames, f, b.writeSep); }
      var tag := FieldTag(tagNames, f);
      if !f.exported || tag.ignore {
        return;
      }
      match f.val {
        case VUnsupported => return;
        case VNil => return;
        case VArray(_) => return true;
        case VSlice(_, isNil) => if isNil { return; }
        case VMap(_, isNil) => if isNil { return; }
        case _ =>
      }
      if tag.bag && IsEmptyCollection(f.val) {
        return;
      }
      if !tag.squash {
        KeyThen(b.sb, Sep(b.writeSep), PrintKey(FieldName(f, tag), false),
                Written(tagNames, f.val, tag.bag, false, false).text);
        b.WriteKey(FieldName(f, tag));
      }
      panicked := Marshal(f.val, tag);
    }
  }

  lemma Around(before: string, sep: string, open: string, text: string, close: string)
    ensures before + sep + open + text + close == before + (sep + open + text + close)
  {}

  lemma KeyThen(before: string, sep: string, key: string, text: string)
    ensures (before + sep + key) + text == before + (sep + key + text)
  {}
}
