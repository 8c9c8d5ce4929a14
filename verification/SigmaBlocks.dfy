/** One exported detection block, written out and read back: fields, keys and values. */
module SigmaBlocks {
  import opened Common
  import opened Detection
  import opened SigmaCombine
  import opened SigmaCondition
  import opened SigmaScalar
  import opened SigmaExport
  import Decimal

  // ----- which selections are promised -----

  /** Characters that end a line for Python's `splitlines`. */
  predicate BreaksLine(s: string) {
    exists i :: 0 <= i < |s| && (s[i] as int == 0x85 || s[i] as int == 0x2028 || s[i] as int == 0x2029)
  }

  /** Scalars that survive being written: strings without control or line-break characters, null,
      Booleans and numbers that are not negative. */
  predicate Printable(v: Value) {
    match v
    case Null => true
    case Bool(_) => true
    case Num(n) => n >= 0
    case Str(s) => !HasControl(s) && !BreaksLine(s)
    case List(_) => false
  }

  predicate PrintableList(v: Value) {
    v.List? && v.items != [] && forall i :: 0 <= i < |v.items| ==> Printable(v.items[i])
  }

  predicate TakesList(base: BaseOp) {
    base in {In, ContainsAny, ContainsAll, StartsWithAny, StartsWithAll, EndsWithAny, EndsWithAll}
  }

  predicate EntryOk(e: Entry) {
    match e.op
    case Exists => Printable(e.value)
    case Test(base, _) => if TakesList(base) then PrintableList(e.value) else Printable(e.value)
  }

  predicate ExpectedOk(expected: Expected) {
    match expected
    case Plain(v) => Printable(v) || PrintableList(v)
    case Ops(entries) => entries != [] && forall i :: 0 <= i < |entries| ==> EntryOk(entries[i])
  }

  /** A field name that is its own normal form and needs no quoting in a key. */
  predicate FieldOk(reader: Reader, field: string) {
    && PlainKey(field) && !SigmaScalar.Contains(field, '|') && field != KEYWORDS
    && reader.chars.lower(field) == field && NormalName(reader, field) == field
  }

  ghost predicate Distinct(fields: Fields) {
    forall i, j :: 0 <= i < j < |fields| ==> fields[i].0 != fields[j].0
  }

  ghost predicate FieldsOk(reader: Reader, fields: Fields) {
    && Distinct(fields)
    && forall i :: 0 <= i < |fields| ==> FieldOk(reader, fields[i].0) && ExpectedOk(fields[i].1)
  }

  /** Well-formed selections: no field twice, and no empty list of alternatives. */
  ghost predicate SelectionOk(reader: Reader, sel: Selection) {
    && FieldsOk(reader, sel.fields)
    && (sel.anyOf.Branches? ==> sel.anyOf.items != [])
    && (sel.allOf.Branches? ==> sel.allOf.items != [])
    && (sel.anyOf.Branches? ==> forall i :: 0 <= i < |sel.anyOf.items| ==> SelectionOk(reader, sel.anyOf.items[i]))
    && (sel.allOf.Branches? ==> forall i :: 0 <= i < |sel.allOf.items| ==> SelectionOk(reader, sel.allOf.items[i]))
    && (sel.neg.Negated? ==> SelectionOk(reader, sel.neg.sel))
  }

  /** ASCII words are their own lower case. */
  ghost predicate ReaderOk(reader: Reader) {
    && AsciiSensible(reader.chars)
    && (forall m :: m in {"", "contains", "startswith", "endswith", "re", "exists", "all"} ==>
      reader.chars.lower(m) == m)
    && "" !in reader.aliases
  }

  /** Where exporting relies on a plain value and `equals` saying the same. */
  predicate ReadsSame(lang: Lang, actual: Value, expected: Expected) {
    match expected
    case Plain(v) => v.List? || ExpectedCoherent(lang, actual, Plain(v))
    case Ops(entries) => forall i :: 0 <= i < |entries| && entries[i].op.Test? && entries[i].op.base == Equals ==>
      ExpectedCoherent(lang, actual, Plain(entries[i].value))
  }

  ghost predicate FieldsReadSame(lang: Lang, doc: Doc, fields: Fields) {
    forall i :: 0 <= i < |fields| ==> ReadsSame(lang, doc(fields[i].0), fields[i].1)
  }

  ghost predicate SelectionReadsSame(lang: Lang, doc: Doc, sel: Selection) {
    && FieldsReadSame(lang, doc, sel.fields)
    && (sel.anyOf.Branches? ==> forall i :: 0 <= i < |sel.anyOf.items| ==>
      SelectionReadsSame(lang, doc, sel.anyOf.items[i]))
    && (sel.allOf.Branches? ==> forall i :: 0 <= i < |sel.allOf.items| ==>
      SelectionReadsSame(lang, doc, sel.allOf.items[i]))
    && (sel.neg.Negated? ==> SelectionReadsSame(lang, doc, sel.neg.sel))
  }

  // ----- values -----

  lemma ScalarReadsBack(reader: Reader, v: Value)
    requires ReaderOk(reader) && Printable(v)
    ensures ReadScalar(reader.chars, v) == v && ReadBack(reader.chars, v) == v
  {
    match v
    case Str(s) => ScalarRoundTrip(reader.chars, s);
    case _ => OtherScalarsRoundTrip(reader.chars, v);
  }

  lemma ListReadsBack(reader: Reader, v: Value)
    requires ReaderOk(reader) && PrintableList(v)
    ensures ReadBack(reader.chars, v) == v
  {
    forall i | 0 <= i < |v.items| ensures ReadScalar(reader.chars, v.items[i]) == v.items[i] {
      ScalarReadsBack(reader, v.items[i]);
    }
    assert ReadBack(reader.chars, v).items == v.items;
  }

  // ----- keys -----

  lemma {:induction false} NoBars(s: string)
    requires !SigmaScalar.Contains(s, '|')
    ensures SplitBars(s) == [s]
  {
    if s != "" {
      assert s[0] != '|';
      assert forall i :: 0 <= i < |s[1..]| ==> s[1..][i] == s[i + 1];
      assert !SigmaScalar.Contains(s[1..], '|');
      NoBars(s[1..]);
      assert [s[0]] + s[1..] == s;
      assert SplitBars(s) == [[s[0]] + s[1..]] + [s[1..]][1..];
    }
  }

  lemma {:induction false} OneBar(a: string, b: string)
    requires !SigmaScalar.Contains(a, '|')
    ensures SplitBars(a + "|" + b) == [a] + SplitBars(b)
  {
    var s := a + "|" + b;
    if a == "" {
      assert s[1..] == b;
    } else {
      assert a[0] != '|';
      assert s[0] == a[0] && s[1..] == a[1..] + "|" + b;
      assert forall i :: 0 <= i < |a[1..]| ==> a[1..][i] == a[i + 1];
      assert !SigmaScalar.Contains(a[1..], '|');
      OneBar(a[1..], b);
      assert [a[0]] + a[1..] == a;
    }
  }

  predicate Modifier(m: string) {
    m in {"contains", "startswith", "endswith", "re", "exists"}
  }

  predicate LowerWord(m: string) {
    m != "" && forall i :: 0 <= i < |m| ==> 'a' <= m[i] <= 'z'
  }

  lemma ModifierIsWord(m: string)
    requires Modifier(m) || m == "all"
    ensures LowerWord(m)
  {
  }

  lemma WordText(m: string)
    requires LowerWord(m)
    ensures Strip(m) == m && !SigmaScalar.Contains(m, '|') && m != "" && !IsSpace(m[|m| - 1]) && m[|m| - 1] != '\''
      && m[|m| - 1] != '"'
  {
    assert !IsSpace(m[0]) && !IsSpace(m[|m| - 1]);
  }

  lemma ModifierText(m: string)
    requires Modifier(m) || m == "all"
    ensures Strip(m) == m && !SigmaScalar.Contains(m, '|') && m != "" && !IsSpace(m[|m| - 1]) && m[|m| - 1] != '\''
      && m[|m| - 1] != '"'
  {
    ModifierIsWord(m);
    WordText(m);
  }

  /** Keys made of a good field name and lower-case modifiers are not changed by trimming. */
  lemma KeyIsClean(reader: Reader, field: string, tail: string)
    requires FieldOk(reader, field)
    requires tail == "" || (!IsSpace(tail[|tail| - 1]) && tail[|tail| - 1] != '\'' && tail[|tail| - 1] != '"')
    ensures Unquoted(Strip(field + tail)) == field + tail
  {
    StripNoChange(field);
    var key := field + tail;
    assert key[0] == field[0];
    assert key[|key| - 1] == if tail == "" then field[|field| - 1] else tail[|tail| - 1];
    assert LStrip(key) == key && RStrip(key) == key;
    assert key[0] != '\'' && key[0] != '"';
  }

  lemma KeyPlain(reader: Reader, field: string)
    requires ReaderOk(reader) && FieldOk(reader, field)
    ensures ParseFieldKey(reader, field) == Some((field, None))
  {
    KeyIsClean(reader, field, "");
    assert field + "" == field;
    NoBars(field);
    assert Lowered(reader.chars, [field]) == [field] by { StripNoChange(field); }
    assert [field][1..] == [];
  }

  lemma OneModifier(field: string, m: string)
    requires field != "" && Modifier(m)
    ensures ReadModifiers(field, [m]) == Some((field, Some(m)))
  {
    assert [m][0] == m;
  }

  lemma ModifierAll(field: string, m: string)
    requires field != "" && m in {"contains", "startswith", "endswith"}
    ensures ReadModifiers(field, [m, "all"]) == Some((field, Some(m + "_all")))
  {
    var ms := [m, "all"];
    assert ms[0] == m && ms[1] == "all";
  }

  lemma CleanBars(reader: Reader, field: string, m: string)
    requires ReaderOk(reader) && FieldOk(reader, field) && Modifier(m)
    ensures Lowered(reader.chars, [field, m]) == [field, m]
  {
    StripNoChange(field);
    ModifierText(m);
  }

  lemma {:induction false} OneModifierBars(reader: Reader, field: string, m: string)
    requires ReaderOk(reader) && FieldOk(reader, field) && Modifier(m)
    ensures Lowered(reader.chars, SplitBars(field + "|" + m)) == [field, m]
  {
    ModifierText(m);
    OneBar(field, m);
    NoBars(m);
    assert [field] + [m] == [field, m];
    CleanBars(reader, field, m);
  }

  lemma KeyOne(reader: Reader, field: string, m: string)
    requires ReaderOk(reader) && FieldOk(reader, field) && Modifier(m)
    ensures ParseFieldKey(reader, field + "|" + m) == Some((field, Some(m)))
  {
    ModifierText(m);
    TailEnds("|", m);
    KeyIsClean(reader, field, "|" + m);
    assert field + ("|" + m) == field + "|" + m;
    OneModifierBars(reader, field, m);
    assert [field, m][1..] == [m];
    OneModifier(field, m);
  }

  lemma {:induction false} ModifierAllBars(reader: Reader, field: string, m: string)
    requires ReaderOk(reader) && FieldOk(reader, field) && Modifier(m)
    ensures Lowered(reader.chars, SplitBars(field + "|" + (m + "|" + "all"))) == [field, m, "all"]
  {
    ModifierText(m);
    ModifierText("all");
    OneBar(field, m + "|" + "all");
    OneBar(m, "all");
    NoBars("all");
    assert SplitBars(field + "|" + (m + "|" + "all")) == [field, m, "all"];
  }

  lemma {:induction false} KeyReads(reader: Reader, field: string, tail: string, modifiers: seq<string>)
    requires FieldOk(reader, field)
    requires tail != "" && !IsSpace(tail[|tail| - 1]) && tail[|tail| - 1] != '\'' && tail[|tail| - 1] != '"'
    requires Lowered(reader.chars, SplitBars(field + tail)) == [field] + modifiers
    ensures ParseFieldKey(reader, field + tail) == ReadModifiers(field, modifiers)
  {
    KeyIsClean(reader, field, tail);
    assert ([field] + modifiers)[1..] == modifiers;
  }

  lemma KeyAll(reader: Reader, field: string, m: string)
    requires ReaderOk(reader) && FieldOk(reader, field) && m in {"contains", "startswith", "endswith"}
    ensures ParseFieldKey(reader, field + "|" + m + "|all") == Some((field, Some(m + "_all")))
  {
    var tail := "|" + m + "|all";
    assert tail == "|" + (m + "|" + "all");
    assert field + tail == field + "|" + m + "|all" == field + "|" + (m + "|" + "all");
    ModifierAllBars(reader, field, m);
    assert [field, m, "all"] == [field] + [m, "all"];
    assert tail[|tail| - 1] == 'l';
    KeyReads(reader, field, tail, [m, "all"]);
    ModifierAll(field, m);
  }

  lemma TailEnds(a: string, b: string)
    requires b != ""
    ensures (a + b)[|a + b| - 1] == b[|b| - 1]
  {
  }

  lemma RawAllUnquoted()
    ensures Unquoted(Strip("'|all'")) == "|all"
  {
    var key := "'|all'";
    assert !IsSpace(key[0]) && !IsSpace(key[|key| - 1]);
    assert Strip(key) == key;
  }

  lemma RawAllBars(reader: Reader)
    requires ReaderOk(reader)
    ensures Lowered(reader.chars, SplitBars("|all")) == ["", "all"]
  {
    ModifierText("all");
    NoBars("all");
    OneBar("", "all");
    assert "" + "|" + "all" == "|all";
    assert [""] + ["all"] == ["", "all"];
  }

  lemma KeyRawAll(reader: Reader)
    requires ReaderOk(reader)
    ensures ParseFieldKey(reader, "'|all'") == Some((RAW_MESSAGE, Some("contains_all")))
  {
    RawAllUnquoted();
    RawAllBars(reader);
    assert ["", "all"][1..] == ["all"] && ["all"][0] == "all";
    assert NormalName(reader, "") == "";
  }

  // ----- one field -----

  /** What a block can hold: a plain value, or one operator that is not negated. */
  predicate Single(expected: Expected) {
    match expected
    case Plain(_) => true
    case Ops(entries) => |entries| == 1 && (entries[0].op.Exists? || !entries[0].op.negated)
  }

  function TextsOf(lang: Lang, base: BaseOp, v: Value): Expected {
    Op(base, List(Texts(lang, ItemsOf(v))))
  }

  /** What a field comes back as. */
  function Again(lang: Lang, raw: bool, expected: Expected): Expected
    requires Single(expected)
  {
    match expected
    case Plain(v) => if v.List? then Op(In, v) else expected
    case Ops(entries) =>
      var v := entries[0].value;
      if entries[0].op.Exists? then Ops([Entry(Exists, Bool(Truthy(v)))])
      else
        match entries[0].op.base
        case Equals => Plain(v)
        case In => Op(In, v)
        case Regex => Op(Regex, Str(StrOf(lang, v)))
        case Contains => Op(Contains, Str(StrOf(lang, v)))
        case StartsWith => Op(StartsWith, Str(StrOf(lang, v)))
        case EndsWith => Op(EndsWith, Str(StrOf(lang, v)))
        case ContainsAny => if raw then Op(ContainsAny, v) else TextsOf(lang, ContainsAny, v)
        case ContainsAll => TextsOf(lang, ContainsAll, v)
        case StartsWithAny => TextsOf(lang, StartsWithAny, v)
        case StartsWithAll => TextsOf(lang, StartsWithAll, v)
        case EndsWithAny => TextsOf(lang, EndsWithAny, v)
        case EndsWithAll => TextsOf(lang, EndsWithAll, v)
  }

  /** Turning the values of a text operator into strings changes nothing. */
  lemma TextsMean(lang: Lang, actual: Value, base: BaseOp, v: Value)
    requires TakesList(base) && base != In && v.List?
    ensures MatchExpected(lang, actual, TextsOf(lang, base, v)) <==> Holds(lang, actual, base, v)
  {
    OneOp(lang, actual, Entry(Test(base, false), List(Texts(lang, v.items))));
    var texts := Texts(lang, v.items);
    assert ItemsOf(List(texts)) == texts && ItemsOf(v) == v.items;
    forall i | 0 <= i < |texts|
      ensures StrOf(lang, texts[i]) == StrOf(lang, v.items[i])
    {
    }
    var text := TextOf(lang, actual);
    assert forall i :: 0 <= i < |texts| ==> (Includes(lang, text, texts[i]) <==> Includes(lang, text, v.items[i]));
    assert forall i :: 0 <= i < |texts| ==> (Begins(lang, text, texts[i]) <==> Begins(lang, text, v.items[i]));
    assert forall i :: 0 <= i < |texts| ==> (Ends(lang, text, texts[i]) <==> Ends(lang, text, v.items[i]));
  }

  lemma TextMeans(lang: Lang, actual: Value, base: BaseOp, v: Value)
    requires !TakesList(base)
    ensures MatchExpected(lang, actual, Op(base, Str(StrOf(lang, v)))) <==> Holds(lang, actual, base, v)
  {
    OneOp(lang, actual, Entry(Test(base, false), Str(StrOf(lang, v))));
    assert StrOf(lang, Str(StrOf(lang, v))) == StrOf(lang, v);
  }

  lemma AgainMeans(lang: Lang, actual: Value, raw: bool, expected: Expected)
    requires Single(expected) && ExpectedOk(expected) && ReadsSame(lang, actual, expected)
    ensures MatchExpected(lang, actual, Again(lang, raw, expected)) <==> MatchExpected(lang, actual, expected)
    ensures ExpectedCoherent(lang, actual, Again(lang, raw, expected))
  {
    match expected
    case Plain(v) => if v.List? { OneOp(lang, actual, Entry(Test(In, false), v)); }
    case Ops(entries) =>
      var e := entries[0];
      assert entries == [e];
      OneOp(lang, actual, e);
      if e.op.Exists? {
        OneOp(lang, actual, Entry(Exists, Bool(Truthy(e.value))));
      } else if e.op.base == Equals {
      } else if e.op.base == In || (raw && e.op.base == ContainsAny) {
        OneOp(lang, actual, Entry(Test(e.op.base, false), e.value));
      } else if TakesList(e.op.base) {
        TextsMean(lang, actual, e.op.base, e.value);
      } else {
        TextMeans(lang, actual, e.op.base, e.value);
      }
  }

  lemma ReadsBack(reader: Reader, v: Value)
    requires ReaderOk(reader) && (Printable(v) || PrintableList(v))
    ensures ReadBack(reader.chars, v) == v
  {
    if v.List? { ListReadsBack(reader, v); } else { ScalarReadsBack(reader, v); }
  }

  lemma NotKeywords(field: string, tail: string)
    ensures field + "|" + tail != KEYWORDS
  {
    var key := field + "|" + tail;
    assert key[|field|] == '|';
    assert !SigmaScalar.Contains(KEYWORDS, '|');
  }

  lemma ImportsOne(reader: Reader, field: string, m: string, v: Value)
    requires ReaderOk(reader) && FieldOk(reader, field) && Modifier(m)
    ensures ImportField(reader, field + "|" + m, v) == Some((field, MapFieldValue(reader.lang, v, Some(m))))
  {
    NotKeywords(field, m);
    KeyOne(reader, field, m);
  }

  lemma ImportsAll(reader: Reader, field: string, m: string, v: Value)
    requires ReaderOk(reader) && FieldOk(reader, field) && m in {"contains", "startswith", "endswith"}
    ensures ImportField(reader, field + "|" + m + "|all", v)
      == Some((field, MapFieldValue(reader.lang, v, Some(m + "_all"))))
  {
    NotKeywords(field, m + "|all");
    assert field + "|" + (m + "|all") == field + "|" + m + "|all";
    KeyAll(reader, field, m);
  }

  ghost predicate ComesBack(reader: Reader, field: string, expected: Expected)
    requires Single(expected)
  {
    ExportField(field, expected).Some?
    && var (key, v) := ExportField(field, expected).value;
    ImportField(reader, key, v) == Some((field, Again(reader.lang, field == RAW_MESSAGE, expected)))
  }

  /** Reading a modifier gives the operator that was written with it. */
  lemma ModifierMaps(lang: Lang, base: BaseOp, v: Value)
    requires ModifierOf(base).Some? && !WritesAll(base) && (TakesList(base) <==> v.List?)
    ensures MapFieldValue(lang, v, ModifierOf(base)) == if v.List? then TextsOf(lang, base, v)
      else Op(base, Str(StrOf(lang, v)))
  {
  }

  lemma ModifierAllMaps(lang: Lang, base: BaseOp, v: Value)
    requires WritesAll(base) && v.List?
    ensures MapFieldValue(lang, v, Some(ModifierOf(base).value + "_all")) == TextsOf(lang, base, v)
  {
    assert "contains" + "_all" == "contains_all";
    assert "startswith" + "_all" == "startswith_all";
    assert "endswith" + "_all" == "endswith_all";
  }

  lemma OneComesBack(reader: Reader, field: string, base: BaseOp, v: Value)
    requires ReaderOk(reader) && FieldOk(reader, field) && (TakesList(base) <==> v.List?)
    requires ModifierOf(base).Some? && !WritesAll(base) && !(field == RAW_MESSAGE && base == ContainsAny)
    ensures ImportField(reader, KeyFor(field, base), v)
         == Some((field, if v.List? then TextsOf(reader.lang, base, v) else Op(base, Str(StrOf(reader.lang, v)))))
  {
    var m := ModifierOf(base).value;
    assert KeyFor(field, base) == field + "|" + m;
    ImportsOne(reader, field, m, v);
    ModifierMaps(reader.lang, base, v);
  }

  lemma AllComesBack(reader: Reader, field: string, base: BaseOp, v: Value)
    requires ReaderOk(reader) && FieldOk(reader, field) && WritesAll(base) && v.List?
    ensures ImportField(reader, KeyFor(field, base), v) == Some((field, TextsOf(reader.lang, base, v)))
  {
    if field == RAW_MESSAGE && base == ContainsAll {
      assert KeyFor(field, base) == "'|all'";
      KeyRawAll(reader);
      assert "'|all'"[0] != KEYWORDS[0];
      assert MapFieldValue(reader.lang, v, Some("contains_all")) == TextsOf(reader.lang, base, v);
    } else {
      var m := ModifierOf(base).value;
      assert KeyFor(field, base) == field + "|" + m + "|all";
      ImportsAll(reader, field, m, v);
      ModifierAllMaps(reader.lang, base, v);
    }
  }

  lemma BareComesBack(reader: Reader, field: string, base: BaseOp, v: Value)
    requires ReaderOk(reader) && FieldOk(reader, field) && (TakesList(base) <==> v.List?)
    requires ModifierOf(base).None?
    ensures ImportField(reader, KeyFor(field, base), v) == Some((field, if v.List? then Op(In, v) else Plain(v)))
  {
    assert KeyFor(field, base) == field;
    KeyPlain(reader, field);
  }

  lemma AgainOp(lang: Lang, raw: bool, base: BaseOp, v: Value)
    requires TakesList(base) <==> v.List?
    ensures Again(lang, raw, Op(base, v)) ==
      if base == Equals then Plain(v)
      else if base == In || (raw && base == ContainsAny) then Op(base, v)
      else if v.List? then TextsOf(lang, base, v)
      else Op(base, Str(StrOf(lang, v)))
  {
  }

  lemma KeywordsComeBack(reader: Reader, v: Value)
    requires v.List?
    ensures ImportField(reader, KeyFor(RAW_MESSAGE, ContainsAny), v) == Some((RAW_MESSAGE, Op(ContainsAny, v)))
  {
  }

  lemma TestComesBack(reader: Reader, field: string, base: BaseOp, v: Value)
    requires ReaderOk(reader) && FieldOk(reader, field) && (TakesList(base) <==> v.List?)
    ensures ImportField(reader, KeyFor(field, base), v)
         == Some((field, Again(reader.lang, field == RAW_MESSAGE, Op(base, v))))
  {
    AgainOp(reader.lang, field == RAW_MESSAGE, base, v);
    if WritesAll(base) {
      AllComesBack(reader, field, base, v);
    } else if field == RAW_MESSAGE && base == ContainsAny {
      KeywordsComeBack(reader, v);
    } else if ModifierOf(base).None? {
      BareComesBack(reader, field, base, v);
    } else {
      OneComesBack(reader, field, base, v);
    }
  }

  lemma PlainComesBack(reader: Reader, field: string, v: Value)
    requires ReaderOk(reader) && FieldOk(reader, field)
    ensures ComesBack(reader, field, Plain(v))
  {
    KeyPlain(reader, field);
  }

  lemma ExistsComesBack(reader: Reader, field: string, v: Value)
    requires ReaderOk(reader) && FieldOk(reader, field)
    ensures ComesBack(reader, field, Ops([Entry(Exists, v)]))
  {
    assert field + "|" + "exists" == field + "|exists";
    ImportsOne(reader, field, "exists", v);
    ExistsMaps(reader.lang, v);
    assert ExportField(field, Ops([Entry(Exists, v)])) == Some((field + "|exists", v));
  }

  lemma ExistsMaps(lang: Lang, v: Value)
    ensures MapFieldValue(lang, v, Some("exists")) == Ops([Entry(Exists, Bool(Truthy(v)))])
  {
  }

  lemma OpComesBack(reader: Reader, field: string, base: BaseOp, v: Value)
    requires ReaderOk(reader) && FieldOk(reader, field) && (TakesList(base) <==> v.List?)
    ensures ComesBack(reader, field, Op(base, v))
  {
    assert ExportField(field, Op(base, v)) == Some((KeyFor(field, base), v));
    TestComesBack(reader, field, base, v);
  }

  /** A field that a block can hold is written, read back under the same name, and as `Again` says. */
  lemma FieldComesBack(reader: Reader, field: string, expected: Expected)
    requires ReaderOk(reader) && FieldOk(reader, field) && ExpectedOk(expected) && Single(expected)
    ensures ComesBack(reader, field, expected)
  {
    if expected.Plain? {
      PlainComesBack(reader, field, expected.value);
    } else {
      var e := expected.entries[0];
      assert expected.entries == [e] && EntryOk(e);
      if e.op.Exists? {
        ExistsComesBack(reader, field, e.value);
      } else {
        assert expected == Op(e.op.base, e.value);
        OpComesBack(reader, field, e.op.base, e.value);
      }
    }
  }

  lemma ValueReadsBack(reader: Reader, field: string, expected: Expected)
    requires ReaderOk(reader) && ExpectedOk(expected) && Single(expected)
    ensures ExportField(field, expected).Some?
    ensures ReadBack(reader.chars, ExportField(field, expected).value.1) == ExportField(field, expected).value.1
  {
    if expected.Plain? {
      ReadsBack(reader, expected.value);
    } else {
      assert EntryOk(expected.entries[0]);
      ReadsBack(reader, expected.entries[0].value);
    }
  }

  // ----- one block -----

  ghost predicate Fits(reader: Reader, doc: Doc, field: string, expected: Expected) {
    && FieldOk(reader, field) && ExpectedOk(expected) && Single(expected)
    && ReadsSame(reader.lang, doc(field), expected)
  }

  ghost predicate AllFit(reader: Reader, doc: Doc, fields: Fields) {
    forall i :: 0 <= i < |fields| ==> Fits(reader, doc, fields[i].0, fields[i].1)
  }

  /** What every emitted block looks like. */
  ghost predicate BlockOk(reader: Reader, doc: Doc, fields: Fields) {
    Distinct(fields) && AllFit(reader, doc, fields)
  }

  lemma {:induction false} SetFresh(fields: Fields, field: string, expected: Expected)
    requires forall i :: 0 <= i < |fields| ==> fields[i].0 != field
    ensures SetField(fields, field, expected) == fields + [(field, expected)]
  {
    if fields != [] {
      assert fields[0].0 != field;
      assert forall i :: 0 <= i < |fields[1..]| ==> fields[1..][i] == fields[i + 1];
      SetFresh(fields[1..], field, expected);
      assert [fields[0]] + (fields[1..] + [(field, expected)]) == fields + [(field, expected)];
    }
  }

  lemma {:induction false} WrittenSnoc(chars: Chars, fields: Fields, field: string, expected: Expected)
    requires Written(chars, fields).Some? && ExportField(field, expected).Some?
    ensures Written(chars, fields + [(field, expected)]) ==
      var (key, v) := ExportField(field, expected).value;
      Some(Written(chars, fields).value + [(key, ReadBack(chars, v))])
  {
    var more := fields + [(field, expected)];
    assert more[..|more| - 1] == fields;
  }

  lemma {:induction false} ImportSnoc(reader: Reader, written: seq<(string, Value)>, key: string, v: Value)
    requires ImportFields(reader, written).Some? && ImportField(reader, key, v).Some?
    ensures ImportFields(reader, written + [(key, v)]) ==
      var (field, expected) := ImportField(reader, key, v).value;
      Some(SetField(ImportFields(reader, written).value, field, expected))
  {
    var more := written + [(key, v)];
    assert more[..|more| - 1] == written;
  }

  /** `read` is what a block comes back as, field by field. */
  ghost predicate BlockRead(reader: Reader, doc: Doc, fields: Fields, read: Fields)
    requires AllFit(reader, doc, fields)
  {
    && |read| == |fields|
    && forall i :: 0 <= i < |fields| ==>
      Fits(reader, doc, fields[i].0, fields[i].1)
      && read[i] == (fields[i].0, Again(reader.lang, fields[i].0 == RAW_MESSAGE, fields[i].1))
  }

  /** One more field is read back after the others, under a name none of them has. */
  lemma {:induction false} ReadSnoc(reader: Reader, doc: Doc, init: Fields, field: string, expected: Expected,
          read: Fields)
    requires BlockOk(reader, doc, init + [(field, expected)])
    requires AllFit(reader, doc, init) && Fits(reader, doc, field, expected) && BlockRead(reader, doc, init, read)
    ensures var again := Again(reader.lang, field == RAW_MESSAGE, expected);
      && SetField(read, field, again) == read + [(field, again)]
      && BlockRead(reader, doc, init + [(field, expected)], read + [(field, again)])
  {
    var fields := init + [(field, expected)];
    assert fields[|init|] == (field, expected);
    forall i | 0 <= i < |read| ensures read[i].0 != field {
      assert fields[i] == init[i];
    }
    SetFresh(read, field, Again(reader.lang, field == RAW_MESSAGE, expected));
  }

  lemma BlockPrefix(reader: Reader, doc: Doc, init: Fields, field: string, expected: Expected)
    requires BlockOk(reader, doc, init + [(field, expected)])
    ensures BlockOk(reader, doc, init) && Fits(reader, doc, field, expected)
  {
    var fields := init + [(field, expected)];
    assert fields[|init|] == (field, expected);
    assert forall i :: 0 <= i < |init| ==> init[i] == fields[i];
  }

  /** Writing a block and reading what was written. */
  ghost predicate ComesBackAs(reader: Reader, fields: Fields, read: Fields) {
    var written := Written(reader.chars, fields);
    written.Some? && ImportFields(reader, written.value) == Some(read)
  }

  lemma {:induction false} ComesBackSnoc(reader: Reader, init: Fields, field: string, expected: Expected, read: Fields)
    requires ReaderOk(reader) && FieldOk(reader, field) && ExpectedOk(expected) && Single(expected)
    requires ComesBackAs(reader, init, read)
    ensures ComesBackAs(reader, init + [(field, expected)],
      SetField(read, field, Again(reader.lang, field == RAW_MESSAGE, expected)))
  {
    FieldComesBack(reader, field, expected);
    ValueReadsBack(reader, field, expected);
    var (key, v) := ExportField(field, expected).value;
    WrittenSnoc(reader.chars, init, field, expected);
    ImportSnoc(reader, Written(reader.chars, init).value, key, v);
  }

  lemma {:induction false} BlockComesBack(reader: Reader, doc: Doc, fields: Fields) returns (read: Fields)
    requires ReaderOk(reader) && BlockOk(reader, doc, fields)
    ensures ComesBackAs(reader, fields, read) && BlockRead(reader, doc, fields, read)
  {
    if fields == [] {
      read := [];
    } else {
      var init := fields[..|fields| - 1];
      var (field, expected) := fields[|fields| - 1];
      assert fields == init + [(field, expected)];
      BlockPrefix(reader, doc, init, field, expected);
      var before := BlockComesBack(reader, doc, init);
      ReadSnoc(reader, doc, init, field, expected, before);
      ComesBackSnoc(reader, init, field, expected, before);
      read := before + [(field, Again(reader.lang, field == RAW_MESSAGE, expected))];
    }
  }

  lemma ReadMeans(reader: Reader, doc: Doc, fields: Fields, read: Fields)
    requires AllFit(reader, doc, fields) && BlockRead(reader, doc, fields, read)
    ensures MatchFields(reader.lang, doc, read) <==> MatchFields(reader.lang, doc, fields)
    ensures FieldsCoherent(reader.lang, doc, read)
  {
    forall i | 0 <= i < |fields|
      ensures MatchExpected(reader.lang, doc(read[i].0), read[i].1) <==>
        MatchExpected(reader.lang, doc(fields[i].0), fields[i].1)
      ensures ExpectedCoherent(reader.lang, doc(read[i].0), read[i].1)
    {
      assert Fits(reader, doc, fields[i].0, fields[i].1);
      AgainMeans(reader.lang, doc(fields[i].0), fields[i].0 == RAW_MESSAGE, fields[i].1);
    }
  }

  /** A block written out and read back is a flat selection that matches the same events. */
  lemma BlockMeans(reader: Reader, doc: Doc, fields: Fields)
    requires ReaderOk(reader) && BlockOk(reader, doc, fields)
    ensures Reread(reader, fields).Some? && IsFlat(Reread(reader, fields).value)
    ensures Matches(reader.lang, doc, Reread(reader, fields).value) <==> MatchFields(reader.lang, doc, fields)
    ensures Coherent(reader.lang, doc, Reread(reader, fields).value)
  {
    var read := BlockComesBack(reader, doc, fields);
    ReadMeans(reader, doc, fields, read);
  }
}
