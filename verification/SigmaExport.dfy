/** Exporting a selection as Sigma detection blocks and a condition, and importing such blocks,
    src/autosiem/sigma.py. */
module SigmaExport {
  import opened Common
  import opened Detection
  import opened SigmaCondition
  import opened SigmaScalar
  import Decimal

  type Fields = seq<(string, Expected)>

  const RAW_MESSAGE: string := "raw.message"
  const KEYWORDS: string := "keywords"

  // ----- splitting positive from negative -----

  function PositiveOf(e: Entry): Entry {
    match e.op
    case Exists => Entry(Exists, Bool(true))
    case Test(base, _) => Entry(Test(base, false), e.value)
  }

  /** Operators that are written as a positive filter under `not`. */
  predicate GoesToFilter(e: Entry) {
    match e.op
    case Exists => e.value == Bool(false)
    case Test(_, negated) => negated
  }

  function Kept(entries: seq<Entry>): seq<Entry> {
    if entries == [] then []
    else if GoesToFilter(entries[0]) then Kept(entries[1..])
    else [entries[0]] + Kept(entries[1..])
  }

  function Filtered(entries: seq<Entry>): seq<Entry> {
    if entries == [] then []
    else if GoesToFilter(entries[0]) then [PositiveOf(entries[0])] + Filtered(entries[1..])
    else Filtered(entries[1..])
  }

  function SplitSelection(fields: Fields): (Fields, Fields) {
    if fields == [] then ([], [])
    else
      var (positive, filters) := SplitSelection(fields[1..]);
      match fields[0].1
      case Plain(_) => ([fields[0]] + positive, filters)
      case Ops(entries) =>
        (if Kept(entries) == [] then positive else [(fields[0].0, Ops(Kept(entries)))] + positive,
         if Filtered(entries) == [] then filters else [(fields[0].0, Ops(Filtered(entries)))] + filters)
  }

  // ----- blocks and the condition -----

  /** What has been emitted so far: named blocks, and how many of each kind. */
  datatype Out = Out(blocks: seq<(string, Fields)>, selections: nat, filters: nat)

  function BlockName(filter: bool, n: nat): string {
    (if filter then "filter_" else "selection_") + Decimal.Show(n)
  }

  function AddBlock(out: Out, filter: bool, fields: Fields): (r: (Out, string))
    ensures r.0.blocks == out.blocks + [(r.1, fields)]
  {
    if filter then
      var name := BlockName(true, out.filters + 1);
      (Out(out.blocks + [(name, fields)], out.selections, out.filters + 1), name)
    else
      var name := BlockName(false, out.selections + 1);
      (Out(out.blocks + [(name, fields)], out.selections + 1, out.filters), name)
  }

  function Term(filter: bool, name: string): NotTree {
    if filter then Not(Block(name)) else Block(name)
  }

  /** One block for each operator. */
  function EmitOps(out: Out, filter: bool, field: string, entries: seq<Entry>): (r: (Out, seq<NotTree>))
    ensures out.blocks <= r.0.blocks && |r.1| == |entries|
    decreases |entries|
  {
    if entries == [] then (out, [])
    else
      var (out1, name) := AddBlock(out, filter, [(field, Ops([entries[0]]))]);
      var (out2, terms) := EmitOps(out1, filter, field, entries[1..]);
      (out2, [Term(filter, name)] + terms)
  }

  predicate Several(expected: Expected) {
    expected.Ops? && |expected.entries| > 1
  }

  /** Fields with several operators get their own blocks; the others are collected. */
  function EmitIncludes(out: Out, positive: Fields): (r: (Out, seq<NotTree>, Fields))
    ensures out.blocks <= r.0.blocks
    decreases |positive|
  {
    if positive == [] then (out, [], [])
    else if Several(positive[0].1) then
      var (out1, terms) := EmitOps(out, false, positive[0].0, positive[0].1.entries);
      var (out2, more, simple) := EmitIncludes(out1, positive[1..]);
      (out2, terms + more, simple)
    else
      var (out2, more, simple) := EmitIncludes(out, positive[1..]);
      (out2, more, [positive[0]] + simple)
  }

  function EmitFilters(out: Out, filters: Fields): (r: (Out, seq<NotTree>))
    ensures out.blocks <= r.0.blocks
    decreases |filters|
  {
    if filters == [] then (out, [])
    else
      var (out1, terms) :=
        if Several(filters[0].1) then EmitOps(out, true, filters[0].0, filters[0].1.entries)
        else
          var (added, name) := AddBlock(out, true, [filters[0]]);
          (added, [Term(true, name)]);
      var (out2, more) := EmitFilters(out1, filters[1..]);
      (out2, terms + more)
  }

  function EmitFields(out: Out, fields: Fields): (r: (Out, seq<NotTree>))
    ensures out.blocks <= r.0.blocks
  {
    var (positive, filters) := SplitSelection(fields);
    var (out1, terms, simple) := EmitIncludes(out, positive);
    var (out2, block) :=
      if simple == [] then (out1, [])
      else
        var (added, name) := AddBlock(out1, false, simple);
        (added, [Term(false, name)]);
    var (out3, negative) := EmitFilters(out2, filters);
    (out3, terms + block + negative)
  }

  function Ands(terms: seq<NotTree>): NotTree {
    Group(OrTree([AndTree(terms)]))
  }

  function Singles(terms: seq<NotTree>): (r: seq<AndTree>)
    ensures |r| == |terms| && forall i :: 0 <= i < |r| ==> r[i] == AndTree([terms[i]])
  {
    seq(|terms|, i requires 0 <= i < |terms| => AndTree([terms[i]]))
  }

  /** A single term as it is, several in a parenthesised conjunction. */
  function Joined(terms: seq<NotTree>): NotTree
    requires terms != []
  {
    if |terms| == 1 then terms[0] else Ands(terms)
  }

  /** A node becomes one condition term; a node with nothing in it cannot be exported. */
  function Emit(out: Out, node: Selection): (r: Option<(Out, NotTree)>)
    ensures r.Some? ==> out.blocks <= r.value.0.blocks
    decreases node
  {
    var (out1, fieldTerms) := EmitFields(out, node.fields);
    match EmitAny(out1, node.anyOf)
    case None => None
    case Some((out2, anyTerms)) =>
      match EmitAll(out2, node.allOf)
      case None => None
      case Some((out3, allTerms)) =>
        match EmitNot(out3, node.neg)
        case None => None
        case Some((out4, notTerms)) =>
          var terms := fieldTerms + anyTerms + allTerms + notTerms;
          if terms == [] then None else Some((out4, Joined(terms)))
  }

  function EmitAny(out: Out, anyOf: Branches): (r: Option<(Out, seq<NotTree>)>)
    ensures r.Some? ==> out.blocks <= r.value.0.blocks
    decreases anyOf
  {
    match anyOf
    case Absent => Some((out, []))
    case Branches(items) =>
      match EmitList(out, items)
      case None => None
      case Some((more, terms)) => Some((more, [Group(OrTree(Singles(terms)))]))
  }

  function EmitAll(out: Out, allOf: Branches): (r: Option<(Out, seq<NotTree>)>)
    ensures r.Some? ==> out.blocks <= r.value.0.blocks
    decreases allOf
  {
    match allOf
    case Absent => Some((out, []))
    case Branches(items) =>
      match EmitList(out, items)
      case None => None
      case Some((more, terms)) => Some((more, [Ands(terms)]))
  }

  function EmitNot(out: Out, neg: Negated): (r: Option<(Out, seq<NotTree>)>)
    ensures r.Some? ==> out.blocks <= r.value.0.blocks
    decreases neg
  {
    match neg
    case NotNegated => Some((out, []))
    case Negated(sel) =>
      match Emit(out, sel)
      case None => None
      case Some((more, term)) => Some((more, [Not(Ands([term]))]))
  }

  function EmitList(out: Out, nodes: seq<Selection>): (r: Option<(Out, seq<NotTree>)>)
    ensures r.Some? ==> out.blocks <= r.value.0.blocks && |r.value.1| == |nodes|
    decreases nodes
  {
    if nodes == [] then Some((out, []))
    else
      match Emit(out, nodes[0])
      case None => None
      case Some((out1, term)) =>
        match EmitList(out1, nodes[1..])
        case None => None
        case Some((out2, terms)) => Some((out2, [term] + terms))
  }

  predicate RequiresStructure(sel: Selection) {
    !IsFlat(sel) || exists i :: 0 <= i < |sel.fields| && Several(sel.fields[i].1)
  }

  function FilterBlocks(filters: Fields, from: nat, only: bool): seq<(string, Fields)> {
    if filters == [] then []
    else [(if only then "filter" else BlockName(true, from), [filters[0]])] + FilterBlocks(filters[1..], from + 1, only)
  }

  function FilterTerms(blocks: seq<(string, Fields)>): (r: seq<NotTree>)
    ensures |r| == |blocks| && forall i :: 0 <= i < |r| ==> r[i] == Not(Block(blocks[i].0))
  {
    seq(|blocks|, i requires 0 <= i < |blocks| => Not(Block(blocks[i].0)))
  }

  /** A rule's detection section: its blocks and its condition. */
  function Export(sel: Selection): Option<(seq<(string, Fields)>, OrTree)> {
    if RequiresStructure(sel) then
      match Emit(Out([], 0, 0), sel)
      case None => None
      case Some((out, term)) => Some((out.blocks, OrTree([AndTree([term])])))
    else
      var (positive, filters) := SplitSelection(sel.fields);
      var blocks := FilterBlocks(filters, 1, |filters| == 1);
      Some(([("selection", positive)] + blocks, OrTree([AndTree([Block("selection")] + FilterTerms(blocks))])))
  }

  // ----- one field of a block, as text -----

  /** The modifier an operator is written with; `equals` and `in` need none. */
  function ModifierOf(base: BaseOp): Option<string> {
    match base
    case Equals | In => None
    case Regex => Some("re")
    case Contains | ContainsAny | ContainsAll => Some("contains")
    case StartsWith | StartsWithAny | StartsWithAll => Some("startswith")
    case EndsWith | EndsWithAny | EndsWithAll => Some("endswith")
  }

  predicate WritesAll(base: BaseOp) {
    base.ContainsAll? || base.StartsWithAll? || base.EndsWithAll?
  }

  function KeyFor(field: string, base: BaseOp): string {
    if field == RAW_MESSAGE && base.ContainsAny? then KEYWORDS
    else if field == RAW_MESSAGE && base.ContainsAll? then "'|all'"
    else if ModifierOf(base).None? then field
    else if WritesAll(base) then field + "|" + ModifierOf(base).value + "|all"
    else field + "|" + ModifierOf(base).value
  }

  /** The key and value a field is written as; `None` where the exporter refuses. */
  function ExportField(field: string, expected: Expected): Option<(string, Value)> {
    match expected
    case Plain(value) => Some((field, value))
    case Ops(entries) =>
      if |entries| != 1 then None
      else
        match entries[0].op
        case Exists => Some((field + "|exists", entries[0].value))
        case Test(base, negated) => if negated then None else Some((KeyFor(field, base), entries[0].value))
  }

  /** What a written scalar reads back as. Floating-point numbers and inline lists are not among
      our values; no scalar of ours is read as one. */
  function ReadScalar(chars: Chars, v: Value): Value {
    if v.List? then v
    else
      match ParseScalar(chars, YamlScalar(chars, v))
      case Val(w) => w
      case FloatVal(text) => Str(text)
      case InlineList(text) => Str(text)
  }

  /** A list is written one item a line; with no items nothing follows the key, which reads as null. */
  function ReadBack(chars: Chars, v: Value): Value {
    if v.List? then
      if v.items == [] then Null
      else List(seq(|v.items|, i requires 0 <= i < |v.items| => ReadScalar(chars, v.items[i])))
    else ReadScalar(chars, v)
  }

  // ----- importing a block -----

  datatype Reader = Reader(chars: Chars, lang: Lang, aliases: map<string, string>)

  function NormalName(reader: Reader, name: string): string {
    var lowered := reader.chars.lower(Strip(name));
    if lowered in reader.aliases then reader.aliases[lowered] else lowered
  }

  /** `s.split("|")` */
  function SplitBars(s: string): (r: seq<string>)
    ensures |r| > 0
  {
    if s == "" then [""]
    else if s[0] == '|' then [""] + SplitBars(s[1..])
    else
      var rest := SplitBars(s[1..]);
      [[s[0]] + rest[0]] + rest[1..]
  }

  const SINGLE_MODIFIERS: set<string> := {"contains", "startswith", "endswith", "re", "equals", "exists"}

  function FirstSingle(parts: seq<string>): Option<string> {
    if parts == [] then None
    else if parts[0] in SINGLE_MODIFIERS then Some(parts[0])
    else FirstSingle(parts[1..])
  }

  function Unquoted(key: string): string {
    if |key| >= 2 && key[0] == key[|key| - 1] && (key[0] == '\'' || key[0] == '"') then key[1..|key| - 1] else key
  }

  function Lowered(chars: Chars, bars: seq<string>): (r: seq<string>)
    ensures |r| == |bars| && forall i :: 0 <= i < |r| ==> r[i] == chars.lower(Strip(bars[i]))
  {
    seq(|bars|, i requires 0 <= i < |bars| => chars.lower(Strip(bars[i])))
  }

  /** Field name and modifier of a key; `None` for a modifier that is not supported. */
  function ReadModifiers(field: string, modifiers: seq<string>): Option<(string, Option<string>)> {
    if exists i ::
      0 <= i < |modifiers| && modifiers[i] != "" && modifiers[i] !in SINGLE_MODIFIERS && modifiers[i] != "all" then None
    else
      var single, all := FirstSingle(modifiers), "all" in modifiers;
      if field == "" && all then Some((RAW_MESSAGE, Some("contains_all")))
      else
        var name := if field == "" then RAW_MESSAGE else field;
        if single.Some? && single.value in {"contains", "startswith", "endswith"}
          && all then Some((name, Some(single.value + "_all")))
        else if all then None
        else Some((name, single))
  }

  function ParseFieldKey(reader: Reader, raw: string): Option<(string, Option<string>)> {
    var parts := Lowered(reader.chars, SplitBars(Unquoted(Strip(raw))));
    ReadModifiers(NormalName(reader, parts[0]), parts[1..])
  }

  function Texts(lang: Lang, items: seq<Value>): (r: seq<Value>)
    ensures |r| == |items| && forall i :: 0 <= i < |r| ==> r[i] == Str(StrOf(lang, items[i]))
  {
    seq(|items|, i requires 0 <= i < |items| => Str(StrOf(lang, items[i])))
  }

  function AsList(v: Value): seq<Value> {
    if v.Null? then [] else if v.List? then v.items else [v]
  }

  function Op(base: BaseOp, v: Value): Expected {
    Ops([Entry(Test(base, false), v)])
  }

  function OneOrAny(lang: Lang, one: BaseOp, any: BaseOp, v: Value): Expected {
    if v.List? then Op(any, List(Texts(lang, v.items))) else Op(one, Str(StrOf(lang, v)))
  }

  function MapFieldValue(lang: Lang, v: Value, modifier: Option<string>): Expected {
    if modifier == Some("contains") then OneOrAny(lang, Contains, ContainsAny, v)
    else if modifier == Some("contains_all") then Op(ContainsAll, List(Texts(lang, AsList(v))))
    else if modifier == Some("startswith") then OneOrAny(lang, StartsWith, StartsWithAny, v)
    else if modifier == Some("startswith_all") then Op(StartsWithAll, List(Texts(lang, AsList(v))))
    else if modifier == Some("endswith") then OneOrAny(lang, EndsWith, EndsWithAny, v)
    else if modifier == Some("endswith_all") then Op(EndsWithAll, List(Texts(lang, AsList(v))))
    else if modifier == Some("re") then Op(Regex, Str(StrOf(lang, v)))
    else if modifier == Some("equals") then Plain(Str(StrOf(lang, v)))
    else if modifier == Some("exists") then Ops([Entry(Exists, Bool(Truthy(v)))])
    else if v.List? then Op(In, v)
    else Plain(v)
  }

  /** Assigning a dictionary key: a field named twice keeps its last value. */
  function SetField(fields: Fields, field: string, expected: Expected): Fields {
    if fields == [] then [(field, expected)]
    else if fields[0].0 == field then [(field, expected)] + fields[1..]
    else [fields[0]] + SetField(fields[1..], field, expected)
  }

  function ImportField(reader: Reader, key: string, v: Value): Option<(string, Expected)> {
    if key == KEYWORDS then Some((RAW_MESSAGE, Op(ContainsAny, List(AsList(v)))))
    else
      match ParseFieldKey(reader, key)
      case None => None
      case Some((field, modifier)) => Some((field, MapFieldValue(reader.lang, v, modifier)))
  }

  function ImportFields(reader: Reader, written: seq<(string, Value)>): Option<Fields> {
    if written == [] then Some([])
    else
      match ImportFields(reader, written[..|written| - 1])
      case None => None
      case Some(fields) =>
        match ImportField(reader, written[|written| - 1].0, written[|written| - 1].1)
        case None => None
        case Some((field, expected)) => Some(SetField(fields, field, expected))
  }

  /** Exports one block and imports the result. */
  function Written(chars: Chars, fields: Fields): Option<seq<(string, Value)>> {
    if fields == [] then Some([])
    else
      match Written(chars, fields[..|fields| - 1])
      case None => None
      case Some(rest) =>
        match ExportField(fields[|fields| - 1].0, fields[|fields| - 1].1)
        case None => None
        case Some((key, value)) => Some(rest + [(key, ReadBack(chars, value))])
  }

  function Reread(reader: Reader, fields: Fields): Option<Selection> {
    match Written(reader.chars, fields)
    case None => None
    case Some(written) =>
      match ImportFields(reader, written)
      case None => None
      case Some(read) => Some(Flat(read))
  }

  function Lookup(blocks: seq<(string, Fields)>, name: string): Option<Fields> {
    if blocks == [] then None
    else if blocks[0].0 == name then Some(blocks[0].1)
    else Lookup(blocks[1..], name)
  }

  /** The detection section as the importer sees it. Exported conditions use no patterns. */
  function RereadTable(reader: Reader, blocks: seq<(string, Fields)>): Table {
    Table(
      name => match Lookup(blocks, name) case None => None case Some(fields) => Reread(reader, fields),
      pattern => [])
  }

  /** Export, then import of what was exported. */
  function ExportThenImport(reader: Reader, sel: Selection): Option<Selection> {
    match Export(sel)
    case None => None
    case Some((blocks, condition)) => Compile(RereadTable(reader, blocks), PrintOr(condition))
  }
}
