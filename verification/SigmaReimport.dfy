/** When an exported selection can be imported again, and what it is read back as: an account of the
    round trip on selections alone, without blocks, names, tokens or conditions. */
module SigmaReimport {
  import opened Common
  import opened Detection
  import opened SigmaCombine
  import opened SigmaCondition
  import opened SigmaExport
  import opened SigmaBlocks
  import opened SigmaRoundTrip
  import SigmaParser
  import Decimal

  // ----- what the fields of a node are read back as -----

  function ReadField(lang: Lang, field: string, expected: Expected): (string, Expected) {
    (field, if Single(expected) then Again(lang, field == RAW_MESSAGE, expected) else expected)
  }

  function ReadFields(lang: Lang, fields: Fields): (r: Fields)
    ensures |r| == |fields| && forall i :: 0 <= i < |r| ==> r[i] == ReadField(lang, fields[i].0, fields[i].1)
  {
    seq(|fields|, i requires 0 <= i < |fields| => ReadField(lang, fields[i].0, fields[i].1))
  }

  /** One operator, alone in its block; negated if it is a filter. */
  function OpRead(lang: Lang, filter: bool, field: string, e: Entry): Selection {
    var read := Flat([ReadField(lang, field, Ops([e]))]);
    if filter && SelectionNot(read).Some? then SelectionNot(read).value else read
  }

  function OpReads(lang: Lang, filter: bool, field: string, entries: seq<Entry>): seq<Selection> {
    if entries == [] then []
    else [OpRead(lang, filter, field, entries[0])] + OpReads(lang, filter, field, entries[1..])
  }

  function IncludeReads(lang: Lang, positive: Fields): seq<Selection> {
    if positive == [] then []
    else if Several(positive[0].1) then
      OpReads(lang, false, positive[0].0, positive[0].1.entries) + IncludeReads(lang, positive[1..])
    else IncludeReads(lang, positive[1..])
  }

  function SimpleFields(positive: Fields): Fields {
    if positive == [] then []
    else if Several(positive[0].1) then SimpleFields(positive[1..])
    else [positive[0]] + SimpleFields(positive[1..])
  }

  function FilterReads(lang: Lang, filters: Fields): seq<Selection>
    requires FiltersAreOps(filters)
  {
    if filters == [] then []
    else OpReads(lang, true, filters[0].0, filters[0].1.entries) + FilterReads(lang, filters[1..])
  }

  predicate FiltersAreOps(filters: Fields) {
    forall i :: 0 <= i < |filters| ==> filters[i].1.Ops?
  }

  lemma {:induction false} SplitFiltersAreOps(fields: Fields)
    ensures FiltersAreOps(SplitSelection(fields).1)
  {
    if fields != [] { SplitFiltersAreOps(fields[1..]); }
  }

  function FieldReads(lang: Lang, fields: Fields): seq<Selection> {
    SplitFiltersAreOps(fields);
    var (positive, filters) := SplitSelection(fields);
    var simple := SimpleFields(positive);
    IncludeReads(lang, positive) + (if simple == [] then [] else [Flat(ReadFields(lang, simple))])
    + FilterReads(lang, filters)
  }

  // ----- what a selection is read back as -----

  /** A parenthesised conjunction. */
  function Nested(parts: seq<Selection>): Selection {
    SelectionAny([SelectionAll(parts)])
  }

  function Together(parts: seq<Selection>): Selection {
    if |parts| == 1 then parts[0] else Nested(parts)
  }

  function Singly(parts: seq<Selection>): seq<Selection> {
    if parts == [] then [] else [SelectionAll([parts[0]])] + Singly(parts[1..])
  }

  function Rebuilt(lang: Lang, sel: Selection): Option<Selection>
    decreases sel
  {
    match RebuiltAny(lang, sel.anyOf)
    case None => None
    case Some(any) =>
      match RebuiltAll(lang, sel.allOf)
      case None => None
      case Some(all) =>
        match RebuiltNot(lang, sel.neg)
        case None => None
        case Some(not) => Some(Together(FieldReads(lang, sel.fields) + any + all + not))
  }

  function RebuiltAny(lang: Lang, anyOf: Branches): Option<seq<Selection>>
    decreases anyOf
  {
    match anyOf
    case Absent => Some([])
    case Branches(items) =>
      match RebuiltList(lang, items)
      case None => None
      case Some(parts) => Some([SelectionAny(Singly(parts))])
  }

  function RebuiltAll(lang: Lang, allOf: Branches): Option<seq<Selection>>
    decreases allOf
  {
    match allOf
    case Absent => Some([])
    case Branches(items) =>
      match RebuiltList(lang, items)
      case None => None
      case Some(parts) => Some([Nested(parts)])
  }

  /** A negated part is lost with the whole selection if it comes back as something that cannot be negated. */
  function RebuiltNot(lang: Lang, neg: Negated): Option<seq<Selection>>
    decreases neg
  {
    match neg
    case NotNegated => Some([])
    case Negated(sel) =>
      match Rebuilt(lang, sel)
      case None => None
      case Some(part) =>
        match SelectionNot(Nested([part]))
        case None => None
        case Some(negated) => Some([negated])
  }

  function RebuiltList(lang: Lang, nodes: seq<Selection>): Option<seq<Selection>>
    decreases nodes
  {
    if nodes == [] then Some([])
    else
      match Rebuilt(lang, nodes[0])
      case None => None
      case Some(first) =>
        match RebuiltList(lang, nodes[1..])
        case None => None
        case Some(rest) => Some([first] + rest)
  }

  // ----- compiling what was emitted -----

  /** The table gives every block as it is read back. */
  ghost predicate TableReads(lang: Lang, table: Table, blocks: seq<(string, Fields)>) {
    forall i :: 0 <= i < |blocks| ==> table.block(blocks[i].0) == Some(Flat(ReadFields(lang, blocks[i].1)))
  }

  lemma ReadsPrefix(lang: Lang, table: Table, part: seq<(string, Fields)>, whole: seq<(string, Fields)>)
    requires part <= whole && TableReads(lang, table, whole)
    ensures TableReads(lang, table, part)
  {
    assert forall i :: 0 <= i < |part| ==> part[i] == whole[i];
  }

  lemma {:induction false} BlockCompiles(lang: Lang, table: Table, out: Out, filter: bool, fields: Fields)
    requires TableReads(lang, table, AddBlock(out, filter, fields).0.blocks)
    ensures CompileNot(table, Block(AddBlock(out, filter, fields).1)) == Some(Flat(ReadFields(lang, fields)))
  {
    var (more, name) := AddBlock(out, filter, fields);
    assert more.blocks[|out.blocks|] == (name, fields);
  }

  lemma OneRead(lang: Lang, field: string, expected: Expected)
    ensures ReadFields(lang, [(field, expected)]) == [ReadField(lang, field, expected)]
  {
  }

  lemma {:induction false} OpCompiles(lang: Lang, table: Table, out: Out, filter: bool, field: string, e: Entry)
    requires Positive(e) && TableReads(lang, table, AddBlock(out, filter, [(field, Ops([e]))]).0.blocks)
    ensures CompileNot(table, Term(filter, AddBlock(out, filter, [(field, Ops([e]))]).1))
      == Some(OpRead(lang, filter, field, e))
  {
    BlockCompiles(lang, table, out, filter, [(field, Ops([e]))]);
    OneRead(lang, field, Ops([e]));
    AgainNegates(lang, field == RAW_MESSAGE, Ops([e]));
    OneFieldNegates(field, Again(lang, field == RAW_MESSAGE, Ops([e])));
  }

  lemma {:induction false} AndsCons(table: Table, t: NotTree, terms: seq<NotTree>, first: Selection,
          rest: seq<Selection>)
    requires CompileNot(table, t) == Some(first) && CompileAnds(table, terms) == Some(rest)
    ensures CompileAnds(table, [t] + terms) == Some([first] + rest)
  {
    assert ([t] + terms)[1..] == terms;
  }

  lemma {:induction false} AndsJoin(table: Table, a: seq<NotTree>, b: seq<NotTree>, first: seq<Selection>,
          rest: seq<Selection>)
    requires CompileAnds(table, a) == Some(first) && CompileAnds(table, b) == Some(rest)
    ensures CompileAnds(table, a + b) == Some(first + rest)
  {
    SigmaParser.CompileAndsSplit(table, a, b);
  }

  predicate AllPositive(entries: seq<Entry>) {
    forall i :: 0 <= i < |entries| ==> Positive(entries[i])
  }

  lemma {:induction false} EmitOpsCompiles(lang: Lang, table: Table, out: Out, filter: bool, field: string,
          entries: seq<Entry>)
    requires AllPositive(entries) && TableReads(lang, table, EmitOps(out, filter, field, entries).0.blocks)
    ensures CompileAnds(table, EmitOps(out, filter, field, entries).1) == Some(OpReads(lang, filter, field, entries))
    decreases |entries|
  {
    if entries != [] {
      var (out1, name) := AddBlock(out, filter, [(field, Ops([entries[0]]))]);
      var (out2, terms) := EmitOps(out1, filter, field, entries[1..]);
      ReadsPrefix(lang, table, out1.blocks, out2.blocks);
      OpCompiles(lang, table, out, filter, field, entries[0]);
      EmitOpsCompiles(lang, table, out1, filter, field, entries[1..]);
      AndsCons(table, Term(filter, name), terms, OpRead(lang, filter, field, entries[0]),
        OpReads(lang, filter, field, entries[1..]));
    }
  }

  predicate OpsPositive(fields: Fields) {
    forall i :: 0 <= i < |fields| && fields[i].1.Ops? ==> AllPositive(fields[i].1.entries)
  }

  lemma OpsPositiveTail(fields: Fields)
    requires OpsPositive(fields) && fields != []
    ensures fields[0].1.Ops? ==> AllPositive(fields[0].1.entries)
    ensures OpsPositive(fields[1..])
  {
    assert forall i :: 0 <= i < |fields[1..]| ==> fields[1..][i] == fields[i + 1];
  }

  lemma {:induction false} EmitIncludesCompiles(lang: Lang, table: Table, out: Out, positive: Fields)
    requires OpsPositive(positive) && TableReads(lang, table, EmitIncludes(out, positive).0.blocks)
    ensures CompileAnds(table, EmitIncludes(out, positive).1) == Some(IncludeReads(lang, positive))
    ensures EmitIncludes(out, positive).2 == SimpleFields(positive)
    decreases |positive|
  {
    if positive != [] {
      OpsPositiveTail(positive);
      var (field, expected) := positive[0];
      var rest := positive[1..];
      if Several(expected) {
        var (out1, terms) := EmitOps(out, false, field, expected.entries);
        var (out2, more, simple) := EmitIncludes(out1, rest);
        ReadsPrefix(lang, table, out1.blocks, out2.blocks);
        EmitOpsCompiles(lang, table, out, false, field, expected.entries);
        EmitIncludesCompiles(lang, table, out1, rest);
        AndsJoin(table, terms, more, OpReads(lang, false, field, expected.entries), IncludeReads(lang, rest));
      } else {
        EmitIncludesCompiles(lang, table, out, rest);
      }
    }
  }

  /** A filter block, whether or not the field has other operators. */
  lemma {:induction false} FilterCompiles(lang: Lang, table: Table, out: Out, field: string, entries: seq<Entry>)
    requires |entries| == 1 && AllPositive(entries)
    requires TableReads(lang, table, AddBlock(out, true, [(field, Ops(entries))]).0.blocks)
    ensures CompileAnds(table, [Term(true, AddBlock(out, true, [(field, Ops(entries))]).1)])
      == Some(OpReads(lang, true, field, entries))
  {
    assert entries == [entries[0]] && entries[1..] == [];
    OpCompiles(lang, table, out, true, field, entries[0]);
    SigmaParser.CompileAndsOne(table, Term(true, AddBlock(out, true, [(field, Ops(entries))]).1));
  }

  lemma {:induction false} EmitFiltersCompiles(lang: Lang, table: Table, out: Out, filters: Fields)
    requires OpsPositive(filters) && FiltersShape(filters)
    requires TableReads(lang, table, EmitFilters(out, filters).0.blocks)
    ensures CompileAnds(table, EmitFilters(out, filters).1) == Some(FilterReads(lang, filters))
    decreases |filters|
  {
    if filters != [] {
      OpsPositiveTail(filters);
      var (field, expected) := filters[0];
      var rest, entries := filters[1..], expected.entries;
      assert filters[0] == (field, Ops(entries)) && forall i :: 0 <= i < |rest| ==> rest[i] == filters[i + 1];
      var (out1, terms) :=
        if Several(expected) then EmitOps(out, true, field, entries)
        else
          var (added, name) := AddBlock(out, true, [filters[0]]);
          (added, [Term(true, name)]);
      var (out2, more) := EmitFilters(out1, rest);
      ReadsPrefix(lang, table, out1.blocks, out2.blocks);
      if Several(expected) {
        EmitOpsCompiles(lang, table, out, true, field, entries);
      } else {
        FilterCompiles(lang, table, out, field, entries);
      }
      EmitFiltersCompiles(lang, table, out1, rest);
      AndsJoin(table, terms, more, OpReads(lang, true, field, entries), FilterReads(lang, rest));
    }
  }

  lemma {:induction false} SidesPositive(entries: seq<Entry>)
    ensures AllPositive(Kept(entries)) && AllPositive(Filtered(entries))
  {
    if entries != [] { SidesPositive(entries[1..]); }
  }

  lemma {:induction false} SplitPositive(fields: Fields)
    ensures OpsPositive(SplitSelection(fields).0) && OpsPositive(SplitSelection(fields).1)
  {
    if fields != [] {
      SplitPositive(fields[1..]);
      if fields[0].1.Ops? { SidesPositive(fields[0].1.entries); }
    }
  }

  lemma {:induction false} EmitFieldsCompiles(lang: Lang, table: Table, out: Out, fields: Fields)
    requires TableReads(lang, table, EmitFields(out, fields).0.blocks)
    ensures CompileAnds(table, EmitFields(out, fields).1) == Some(FieldReads(lang, fields))
  {
    SplitPositive(fields);
    SplitFilters(fields);
    var (positive, filters) := SplitSelection(fields);
    var (out1, terms, simple) := EmitIncludes(out, positive);
    var (out2, block) :=
      if simple == [] then (out1, [])
      else
        var (added, name) := AddBlock(out1, false, simple);
        (added, [Term(false, name)]);
    var (out3, negative) := EmitFilters(out2, filters);
    ReadsPrefix(lang, table, out2.blocks, out3.blocks);
    ReadsPrefix(lang, table, out1.blocks, out2.blocks);
    EmitIncludesCompiles(lang, table, out, positive);
    EmitFiltersCompiles(lang, table, out2, filters);
    var own: seq<Selection> := if simple == [] then [] else [Flat(ReadFields(lang, simple))];
    if simple != [] {
      BlockCompiles(lang, table, out1, false, simple);
      SigmaParser.CompileAndsOne(table, block[0]);
    }
    AndsJoin(table, terms, block, IncludeReads(lang, positive), own);
    AndsJoin(table, terms + block, negative, IncludeReads(lang, positive) + own, FilterReads(lang, filters));
  }

  lemma {:induction false} OneNested(table: Table, terms: seq<NotTree>)
    ensures CompileNot(table, Ands(terms)) == match CompileAnds(table, terms)
      case None => None
      case Some(parts) => Some(Nested(parts))
  {
    SigmaParser.CompileOrsOne(table, AndTree(terms));
  }

  lemma {:induction false} JoinedCompiles(table: Table, terms: seq<NotTree>)
    requires terms != []
    ensures CompileNot(table, Joined(terms)) == match CompileAnds(table, terms)
      case None => None
      case Some(parts) => Some(Together(parts))
  {
    AndsLength(table, terms);
    if |terms| == 1 {
      assert terms == [terms[0]];
      SigmaParser.CompileAndsOne(table, terms[0]);
    } else {
      OneNested(table, terms);
    }
  }

  lemma {:induction false} AndsLength(table: Table, terms: seq<NotTree>)
    ensures CompileAnds(table, terms).Some? ==> |CompileAnds(table, terms).value| == |terms|
  {
    if terms != [] { AndsLength(table, terms[1..]); }
  }

  lemma {:induction false} SinglesCompile(table: Table, terms: seq<NotTree>)
    ensures CompileOrs(table, Singles(terms)) == match CompileAnds(table, terms)
      case None => None
      case Some(parts) => Some(Singly(parts))
  {
    if terms != [] {
      assert Singles(terms)[1..] == Singles(terms[1..]);
      SinglesCompile(table, terms[1..]);
      SigmaParser.CompileAndsOne(table, terms[0]);
      if CompileAnds(table, terms).Some? {
        var parts := CompileAnds(table, terms).value;
        assert parts[1..] == CompileAnds(table, terms[1..]).value;
      }
    }
  }

  /** Four groups of terms, compiled one by one. */
  lemma {:induction false} PartsCompile(table: Table, a: seq<NotTree>, b: seq<NotTree>, c: seq<NotTree>,
          d: seq<NotTree>, fields: seq<Selection>, any: Option<seq<Selection>>, all: Option<seq<Selection>>,
          not: Option<seq<Selection>>)
    requires CompileAnds(table, a) == Some(fields) && CompileAnds(table, b) == any
    requires CompileAnds(table, c) == all && CompileAnds(table, d) == not
    ensures CompileAnds(table, a + b + c + d) ==
      if any.None? || all.None? || not.None? then None else Some(fields + any.value + all.value + not.value)
  {
    SigmaParser.CompileAndsSplit(table, a, b);
    SigmaParser.CompileAndsSplit(table, a + b, c);
    SigmaParser.CompileAndsSplit(table, a + b + c, d);
  }

  /** The term emitted for a selection, compiled over the blocks as they are read back, is the selection
      rebuilt. */
  lemma {:induction false} EmitCompiles(lang: Lang, table: Table, out: Out, node: Selection)
    requires Emit(out, node).Some? && TableReads(lang, table, Emit(out, node).value.0.blocks)
    ensures CompileNot(table, Emit(out, node).value.1) == Rebuilt(lang, node)
    decreases node
  {
    var (out1, fieldTerms) := EmitFields(out, node.fields);
    var (out2, anyTerms) := EmitAny(out1, node.anyOf).value;
    var (out3, allTerms) := EmitAll(out2, node.allOf).value;
    var (out4, notTerms) := EmitNot(out3, node.neg).value;
    ReadsPrefix(lang, table, out3.blocks, out4.blocks);
    ReadsPrefix(lang, table, out2.blocks, out3.blocks);
    ReadsPrefix(lang, table, out1.blocks, out2.blocks);
    EmitFieldsCompiles(lang, table, out, node.fields);
    EmitAnyCompiles(lang, table, out1, node.anyOf);
    EmitAllCompiles(lang, table, out2, node.allOf);
    EmitNotCompiles(lang, table, out3, node.neg);
    PartsCompile(table, fieldTerms, anyTerms, allTerms, notTerms, FieldReads(lang, node.fields),
      RebuiltAny(lang, node.anyOf), RebuiltAll(lang, node.allOf), RebuiltNot(lang, node.neg));
    JoinedCompiles(table, fieldTerms + anyTerms + allTerms + notTerms);
  }

  lemma {:induction false} EmitAnyCompiles(lang: Lang, table: Table, out: Out, anyOf: Branches)
    requires EmitAny(out, anyOf).Some? && TableReads(lang, table, EmitAny(out, anyOf).value.0.blocks)
    ensures CompileAnds(table, EmitAny(out, anyOf).value.1) == RebuiltAny(lang, anyOf)
    decreases anyOf
  {
    if anyOf.Branches? {
      EmitListCompiles(lang, table, out, anyOf.items);
      var terms := EmitList(out, anyOf.items).value.1;
      SinglesCompile(table, terms);
      SigmaParser.CompileAndsOne(table, Group(OrTree(Singles(terms))));
    }
  }

  lemma {:induction false} EmitAllCompiles(lang: Lang, table: Table, out: Out, allOf: Branches)
    requires EmitAll(out, allOf).Some? && TableReads(lang, table, EmitAll(out, allOf).value.0.blocks)
    ensures CompileAnds(table, EmitAll(out, allOf).value.1) == RebuiltAll(lang, allOf)
    decreases allOf
  {
    if allOf.Branches? {
      EmitListCompiles(lang, table, out, allOf.items);
      var terms := EmitList(out, allOf.items).value.1;
      OneNested(table, terms);
      SigmaParser.CompileAndsOne(table, Ands(terms));
    }
  }

  lemma {:induction false} EmitNotCompiles(lang: Lang, table: Table, out: Out, neg: Negated)
    requires EmitNot(out, neg).Some? && TableReads(lang, table, EmitNot(out, neg).value.0.blocks)
    ensures CompileAnds(table, EmitNot(out, neg).value.1) == RebuiltNot(lang, neg)
    decreases neg
  {
    if neg.Negated? {
      EmitCompiles(lang, table, out, neg.sel);
      var term := Emit(out, neg.sel).value.1;
      SigmaParser.CompileAndsOne(table, term);
      OneNested(table, [term]);
      SigmaParser.CompileAndsOne(table, Not(Ands([term])));
    }
  }

  lemma {:induction false} EmitListCompiles(lang: Lang, table: Table, out: Out, nodes: seq<Selection>)
    requires EmitList(out, nodes).Some? && TableReads(lang, table, EmitList(out, nodes).value.0.blocks)
    ensures CompileAnds(table, EmitList(out, nodes).value.1) == RebuiltList(lang, nodes)
    decreases nodes
  {
    if nodes != [] {
      var (out1, term) := Emit(out, nodes[0]).value;
      var (out2, terms) := EmitList(out1, nodes[1..]).value;
      ReadsPrefix(lang, table, out1.blocks, out2.blocks);
      EmitCompiles(lang, table, out, nodes[0]);
      EmitListCompiles(lang, table, out1, nodes[1..]);
      assert EmitList(out, nodes).value.1 == [term] + terms;
      assert ([term] + terms)[1..] == terms;
    }
  }

  // ----- conditions with an empty parenthesis cannot be read -----

  predicate EmptyParens(ts: seq<Token>) {
    exists i :: 0 <= i < |ts| - 1 && ts[i] == OPEN && ts[i + 1] == CLOSE
  }

  /** What every readable condition looks like from outside. */
  predicate Tidy(ts: seq<Token>) {
    ts != [] && ts[0] != CLOSE && ts[|ts| - 1] != OPEN && !EmptyParens(ts)
  }

  lemma TidyJoin(a: seq<Token>, t: Token, b: seq<Token>)
    requires Tidy(a) && Tidy(b) && t != OPEN && t != CLOSE
    ensures Tidy(a + [t] + b)
  {
    var all := a + [t] + b;
    forall i | 0 <= i < |all| - 1 ensures !(all[i] == OPEN && all[i + 1] == CLOSE) {
      if i < |a| - 1 { assert all[i] == a[i] && all[i + 1] == a[i + 1]; }
      if i > |a| { assert all[i] == b[i - |a| - 1] && all[i + 1] == b[i - |a|]; }
    }
  }

  lemma TidyGroup(inner: seq<Token>)
    requires Tidy(inner)
    ensures Tidy([OPEN] + inner + [CLOSE])
  {
    var all := [OPEN] + inner + [CLOSE];
    forall i | 0 <= i < |all| - 1 ensures !(all[i] == OPEN && all[i + 1] == CLOSE) {
      if 0 < i < |inner| { assert all[i] == inner[i - 1] && all[i + 1] == inner[i]; }
    }
  }

  lemma TidyNot(ts: seq<Token>)
    requires Tidy(ts)
    ensures Tidy([NOT] + ts)
  {
    var all := [NOT] + ts;
    forall i | 0 <= i < |all| - 1 ensures !(all[i] == OPEN && all[i + 1] == CLOSE) {
      if i > 0 { assert all[i] == ts[i - 1] && all[i + 1] == ts[i]; }
    }
  }

  lemma {:induction false} OrsTidy(parts: seq<AndTree>)
    requires SpellableOrs(parts)
    ensures Tidy(PrintOrs(parts))
    decreases parts
  {
    AndsTidy(parts[0].parts);
    if |parts| > 1 {
      OrsTidy(parts[1..]);
      TidyJoin(PrintAnd(parts[0]), OR, PrintOrs(parts[1..]));
    }
  }

  lemma {:induction false} AndsTidy(parts: seq<NotTree>)
    requires SpellableAnds(parts)
    ensures Tidy(PrintAnds(parts))
    decreases parts
  {
    NotTidy(parts[0]);
    if |parts| > 1 {
      AndsTidy(parts[1..]);
      TidyJoin(PrintNot(parts[0]), AND, PrintAnds(parts[1..]));
    }
  }

  lemma {:induction false} NotTidy(t: NotTree)
    requires Spellable(t)
    ensures Tidy(PrintNot(t))
    decreases t
  {
    match t
    case Not(sub) =>
      NotTidy(sub);
      TidyNot(PrintNot(sub));
    case Group(inner) =>
      OrsTidy(inner.parts);
      TidyGroup(PrintOr(inner));
    case Block(name) =>
    case Of(all, pattern) =>
  }

  lemma EmptyParensDoNotParse(ts: seq<Token>)
    requires EmptyParens(ts)
    ensures ParseTree(ts).None?
  {
    if ParseTree(ts).Some? {
      var t := ParseTree(ts).value;
      ParseIffSpells(ts, t);
      OrsTidy(t.parts);
    }
  }

  lemma ParensWithin(a: seq<Token>, b: seq<Token>, c: seq<Token>)
    requires EmptyParens(b)
    ensures EmptyParens(a + b + c)
  {
    var i :| 0 <= i < |b| - 1 && b[i] == OPEN && b[i + 1] == CLOSE;
    var all := a + b + c;
    assert all[|a| + i] == b[i] && all[|a| + i + 1] == b[i + 1];
  }

  lemma {:induction false} ParensInAnds(terms: seq<NotTree>, i: nat)
    requires i < |terms| && EmptyParens(PrintNot(terms[i]))
    ensures EmptyParens(PrintAnds(terms))
  {
    if |terms| > 1 {
      var head, tail := PrintNot(terms[0]), PrintAnds(terms[1..]);
      assert PrintAnds(terms) == head + [AND] + tail;
      if i == 0 {
        ParensWithin([], head, [AND] + tail);
        assert [] + head + ([AND] + tail) == head + [AND] + tail;
      } else {
        ParensInAnds(terms[1..], i - 1);
        ParensWithin(head + [AND], tail, []);
        assert head + [AND] + tail + [] == head + [AND] + tail;
      }
    }
  }

  lemma {:induction false} ParensInOrs(parts: seq<AndTree>, i: nat)
    requires i < |parts| && EmptyParens(PrintAnd(parts[i]))
    ensures EmptyParens(PrintOrs(parts))
  {
    if |parts| > 1 {
      var head, tail := PrintAnd(parts[0]), PrintOrs(parts[1..]);
      assert PrintOrs(parts) == head + [OR] + tail;
      if i == 0 {
        ParensWithin([], head, [OR] + tail);
        assert [] + head + ([OR] + tail) == head + [OR] + tail;
      } else {
        ParensInOrs(parts[1..], i - 1);
        ParensWithin(head + [OR], tail, []);
        assert head + [OR] + tail + [] == head + [OR] + tail;
      }
    }
  }

  lemma {:induction false} ParensInGroup(parts: seq<AndTree>)
    requires parts == [] || (|parts| == 1 && parts[0].parts == []) || EmptyParens(PrintOrs(parts))
    ensures EmptyParens(PrintNot(Group(OrTree(parts))))
  {
    var inner := PrintOrs(parts);
    var all := [OPEN] + inner + [CLOSE];
    assert PrintNot(Group(OrTree(parts))) == all;
    if EmptyParens(inner) {
      ParensWithin([OPEN], inner, [CLOSE]);
    } else {
      assert parts != [] ==> PrintOrs(parts) == PrintAnd(parts[0]) == PrintAnds([]);
      assert inner == [];
      assert all[0] == OPEN && all[1] == CLOSE;
    }
  }

  lemma {:induction false} ParensInNested(terms: seq<NotTree>)
    requires terms == [] || EmptyParens(PrintAnds(terms))
    ensures EmptyParens(PrintNot(Ands(terms)))
  {
    assert PrintOrs([AndTree(terms)]) == PrintAnds(terms);
    ParensInGroup([AndTree(terms)]);
  }

  lemma ParensInJoined(terms: seq<NotTree>, i: nat)
    requires i < |terms| && EmptyParens(PrintNot(terms[i]))
    ensures EmptyParens(PrintNot(Joined(terms)))
  {
    if |terms| > 1 {
      ParensInAnds(terms, i);
      ParensInNested(terms);
    }
  }

  // ----- which selections are written without one -----

  /** A selection that can be written, except that branch lists may be empty. */
  ghost predicate Writable(reader: Reader, sel: Selection) {
    && FieldsOk(reader, sel.fields)
    && (sel.anyOf.Branches? ==> forall i :: 0 <= i < |sel.anyOf.items| ==> Writable(reader, sel.anyOf.items[i]))
    && (sel.allOf.Branches? ==> forall i :: 0 <= i < |sel.allOf.items| ==> Writable(reader, sel.allOf.items[i]))
    && (sel.neg.Negated? ==> Writable(reader, sel.neg.sel))
  }

  /** Every part has something in it, and no list of branches is empty. */
  predicate Filled(sel: Selection)
    decreases sel
  {
    && (sel.fields != [] || !IsFlat(sel))
    && (sel.anyOf.Branches? ==> sel.anyOf.items != [] && AllFilled(sel.anyOf.items))
    && (sel.allOf.Branches? ==> sel.allOf.items != [] && AllFilled(sel.allOf.items))
    && (sel.neg.Negated? ==> Filled(sel.neg.sel))
  }

  predicate AllFilled(nodes: seq<Selection>)
    decreases nodes
  {
    forall i :: 0 <= i < |nodes| ==> Filled(nodes[i])
  }

  lemma {:induction false} FilledIsOk(reader: Reader, sel: Selection)
    requires Writable(reader, sel) && Filled(sel)
    ensures SelectionOk(reader, sel)
  {
    if sel.anyOf.Branches? {
      forall i | 0 <= i < |sel.anyOf.items| ensures SelectionOk(reader, sel.anyOf.items[i]) {
        FilledIsOk(reader, sel.anyOf.items[i]);
      }
    }
    if sel.allOf.Branches? {
      forall i | 0 <= i < |sel.allOf.items| ensures SelectionOk(reader, sel.allOf.items[i]) {
        FilledIsOk(reader, sel.allOf.items[i]);
      }
    }
    if sel.neg.Negated? { FilledIsOk(reader, sel.neg.sel); }
  }

  lemma {:induction false} IncludesEmit(out: Out, positive: Fields)
    requires positive != []
    ensures EmitIncludes(out, positive).1 != [] || EmitIncludes(out, positive).2 != []
  {
  }

  lemma {:induction false} FiltersEmit(out: Out, filters: Fields)
    requires filters != [] && FiltersShape(filters)
    ensures EmitFilters(out, filters).1 != []
  {
  }

  lemma {:induction false} SplitLosesNothing(fields: Fields)
    requires fields != [] && NonEmptyOps(fields)
    ensures SplitSelection(fields).0 != [] || SplitSelection(fields).1 != []
  {
    if fields[0].1.Ops? { EntriesCount(fields[0].1.entries); }
  }

  lemma FieldsEmit(out: Out, fields: Fields)
    requires NonEmptyOps(fields)
    ensures EmitFields(out, fields).1 == [] <==> fields == []
  {
    SplitFilters(fields);
    var (positive, filters) := SplitSelection(fields);
    var (out1, terms, simple) := EmitIncludes(out, positive);
    if fields != [] {
      SplitLosesNothing(fields);
      if positive != [] { IncludesEmit(out, positive); }
      if filters != [] {
        var out2 := if simple == [] then out1 else AddBlock(out1, false, simple).0;
        FiltersEmit(out2, filters);
      }
    }
  }

  /** A selection with content everywhere is exported. */
  lemma {:induction false} FilledEmits(out: Out, node: Selection)
    requires NodeShape(node) && Filled(node)
    ensures Emit(out, node).Some?
    decreases node
  {
    FieldsEmit(out, node.fields);
    var out1 := EmitFields(out, node.fields).0;
    FilledAnyEmits(out1, node.anyOf);
    var out2 := EmitAny(out1, node.anyOf).value.0;
    FilledAllEmits(out2, node.allOf);
    FilledNotEmits(EmitAll(out2, node.allOf).value.0, node.neg);
  }

  ghost predicate BranchesFilled(branches: Branches) {
    BranchesShape(branches) && (branches.Branches? ==> branches.items != [] && AllFilled(branches.items))
  }

  lemma {:induction false} FilledAnyEmits(out: Out, anyOf: Branches)
    requires BranchesFilled(anyOf)
    ensures EmitAny(out, anyOf).Some? && (anyOf.Branches? ==> EmitAny(out, anyOf).value.1 != [])
    decreases anyOf
  {
    if anyOf.Branches? { FilledListEmits(out, anyOf.items); }
  }

  lemma {:induction false} FilledAllEmits(out: Out, allOf: Branches)
    requires BranchesFilled(allOf)
    ensures EmitAll(out, allOf).Some? && (allOf.Branches? ==> EmitAll(out, allOf).value.1 != [])
    decreases allOf
  {
    if allOf.Branches? { FilledListEmits(out, allOf.items); }
  }

  lemma {:induction false} FilledNotEmits(out: Out, neg: Negated)
    requires neg.Negated? ==> NodeShape(neg.sel) && Filled(neg.sel)
    ensures EmitNot(out, neg).Some? && (neg.Negated? ==> EmitNot(out, neg).value.1 != [])
    decreases neg
  {
    if neg.Negated? { FilledEmits(out, neg.sel); }
  }

  ghost predicate AllShaped(nodes: seq<Selection>) {
    forall i :: 0 <= i < |nodes| ==> NodeShape(nodes[i])
  }

  lemma {:induction false} ShapedTail(nodes: seq<Selection>)
    requires AllShaped(nodes) && nodes != []
    ensures NodeShape(nodes[0]) && AllShaped(nodes[1..])
    ensures AllFilled(nodes) <==> Filled(nodes[0]) && AllFilled(nodes[1..])
  {
    assert forall i :: 0 <= i < |nodes[1..]| ==> nodes[1..][i] == nodes[i + 1];
    assert forall i :: 0 < i < |nodes| ==> nodes[i] == nodes[1..][i - 1];
  }

  lemma {:induction false} FilledListEmits(out: Out, nodes: seq<Selection>)
    requires AllShaped(nodes) && AllFilled(nodes)
    ensures EmitList(out, nodes).Some?
    decreases nodes
  {
    if nodes != [] {
      ShapedTail(nodes);
      FilledEmits(out, nodes[0]);
      FilledListEmits(Emit(out, nodes[0]).value.0, nodes[1..]);
    }
  }

  ghost predicate SomeParens(terms: seq<NotTree>) {
    exists i :: 0 <= i < |terms| && EmptyParens(PrintNot(terms[i]))
  }

  lemma {:induction false} SomeParensCons(t: NotTree, terms: seq<NotTree>)
    requires EmptyParens(PrintNot(t)) || SomeParens(terms)
    ensures SomeParens([t] + terms)
  {
    var all := [t] + terms;
    if EmptyParens(PrintNot(t)) {
      assert all[0] == t;
    } else {
      var i :| 0 <= i < |terms| && EmptyParens(PrintNot(terms[i]));
      assert all[i + 1] == terms[i];
    }
  }

  lemma ParensInParts(a: seq<NotTree>, b: seq<NotTree>, c: seq<NotTree>, d: seq<NotTree>)
    requires SomeParens(b) || SomeParens(c) || SomeParens(d)
    ensures EmptyParens(PrintNot(Joined(a + b + c + d)))
  {
    var all := a + b + c + d;
    if SomeParens(b) {
      var i :| 0 <= i < |b| && EmptyParens(PrintNot(b[i]));
      assert all[|a| + i] == b[i];
      ParensInJoined(all, |a| + i);
    } else if SomeParens(c) {
      var i :| 0 <= i < |c| && EmptyParens(PrintNot(c[i]));
      assert all[|a| + |b| + i] == c[i];
      ParensInJoined(all, |a| + |b| + i);
    } else {
      var i :| 0 <= i < |d| && EmptyParens(PrintNot(d[i]));
      assert all[|a| + |b| + |c| + i] == d[i];
      ParensInJoined(all, |a| + |b| + |c| + i);
    }
  }

  /** A selection with something empty in it is refused, or written with an empty parenthesis. */
  lemma {:induction false} HollowEmits(out: Out, node: Selection)
    requires NodeShape(node) && !Filled(node) && Emit(out, node).Some?
    ensures EmptyParens(PrintNot(Emit(out, node).value.1))
    decreases node
  {
    FieldsEmit(out, node.fields);
    var (out1, fieldTerms) := EmitFields(out, node.fields);
    var (out2, anyTerms) := EmitAny(out1, node.anyOf).value;
    var (out3, allTerms) := EmitAll(out2, node.allOf).value;
    var (out4, notTerms) := EmitNot(out3, node.neg).value;
    if node.anyOf.Branches? && !(node.anyOf.items != [] && AllFilled(node.anyOf.items)) {
      HollowAny(out1, node.anyOf);
    } else if node.allOf.Branches? && !(node.allOf.items != [] && AllFilled(node.allOf.items)) {
      HollowAll(out2, node.allOf);
    } else {
      HollowNot(out3, node.neg);
    }
    ParensInParts(fieldTerms, anyTerms, allTerms, notTerms);
  }

  lemma {:induction false} HollowAny(out: Out, anyOf: Branches)
    requires BranchesShape(anyOf) && EmitAny(out, anyOf).Some? && anyOf.Branches?
    requires anyOf.items == [] || !AllFilled(anyOf.items)
    ensures SomeParens(EmitAny(out, anyOf).value.1)
    decreases anyOf
  {
    var terms := EmitList(out, anyOf.items).value.1;
    var parts := Singles(terms);
    if anyOf.items != [] {
      HollowList(out, anyOf.items);
      var i :| 0 <= i < |terms| && EmptyParens(PrintNot(terms[i]));
      assert PrintAnd(parts[i]) == PrintNot(terms[i]);
      ParensInOrs(parts, i);
    }
    ParensInGroup(parts);
    assert EmptyParens(PrintNot(EmitAny(out, anyOf).value.1[0]));
  }

  lemma {:induction false} HollowAll(out: Out, allOf: Branches)
    requires BranchesShape(allOf) && EmitAll(out, allOf).Some? && allOf.Branches?
    requires allOf.items == [] || !AllFilled(allOf.items)
    ensures SomeParens(EmitAll(out, allOf).value.1)
    decreases allOf
  {
    var terms := EmitList(out, allOf.items).value.1;
    if allOf.items != [] {
      HollowList(out, allOf.items);
      var i :| 0 <= i < |terms| && EmptyParens(PrintNot(terms[i]));
      ParensInAnds(terms, i);
    }
    ParensInNested(terms);
    assert EmptyParens(PrintNot(EmitAll(out, allOf).value.1[0]));
  }

  lemma {:induction false} HollowNot(out: Out, neg: Negated)
    requires neg.Negated? && NodeShape(neg.sel) && !Filled(neg.sel) && EmitNot(out, neg).Some?
    ensures SomeParens(EmitNot(out, neg).value.1)
    decreases neg
  {
    HollowEmits(out, neg.sel);
    var term := Emit(out, neg.sel).value.1;
    assert [term][0] == term;
    ParensInAnds([term], 0);
    ParensInNested([term]);
    ParensWithin([NOT], PrintNot(Ands([term])), []);
    assert [NOT] + PrintNot(Ands([term])) + [] == PrintNot(Not(Ands([term])));
    assert EmptyParens(PrintNot(EmitNot(out, neg).value.1[0]));
  }

  lemma {:induction false} HollowList(out: Out, nodes: seq<Selection>)
    requires AllShaped(nodes) && !AllFilled(nodes) && EmitList(out, nodes).Some?
    ensures SomeParens(EmitList(out, nodes).value.1)
    decreases nodes
  {
    ShapedTail(nodes);
    var (more, term) := Emit(out, nodes[0]).value;
    if !Filled(nodes[0]) { HollowEmits(out, nodes[0]); } else { HollowList(more, nodes[1..]); }
    SomeParensCons(term, EmitList(more, nodes[1..]).value.1);
  }

  // ----- the theorems -----

  /** The empty text reads the same whether compared plainly or with `equals`. */
  const EMPTY_TEXT: Doc := field => Str("")

  lemma EmptyTextReadsSame(lang: Lang, expected: Expected)
    requires ExpectedOk(expected)
    ensures ReadsSame(lang, Str(""), expected)
  {
    match expected
    case Plain(v) => if !v.List? { ScalarCoherentIff(lang, Str(""), v); }
    case Ops(entries) =>
      forall i | 0 <= i < |entries| && entries[i].op.Test? && entries[i].op.base == Equals
        ensures ExpectedCoherent(lang, Str(""), Plain(entries[i].value))
      {
        assert EntryOk(entries[i]);
        ScalarCoherentIff(lang, Str(""), entries[i].value);
      }
  }

  lemma {:induction false} EmptyTextIsOk(reader: Reader, sel: Selection)
    requires SelectionOk(reader, sel)
    ensures SelectionReadsSame(reader.lang, EMPTY_TEXT, sel)
  {
    forall i | 0 <= i < |sel.fields| ensures ReadsSame(reader.lang, EMPTY_TEXT(sel.fields[i].0), sel.fields[i].1) {
      EmptyTextReadsSame(reader.lang, sel.fields[i].1);
    }
    if sel.anyOf.Branches? {
      forall i | 0 <= i < |sel.anyOf.items| ensures SelectionReadsSame(reader.lang, EMPTY_TEXT, sel.anyOf.items[i]) {
        EmptyTextIsOk(reader, sel.anyOf.items[i]);
      }
    }
    if sel.allOf.Branches? {
      forall i | 0 <= i < |sel.allOf.items| ensures SelectionReadsSame(reader.lang, EMPTY_TEXT, sel.allOf.items[i]) {
        EmptyTextIsOk(reader, sel.allOf.items[i]);
      }
    }
    if sel.neg.Negated? { EmptyTextIsOk(reader, sel.neg.sel); }
  }

  lemma RereadReads(reader: Reader, doc: Doc, blocks: seq<(string, Fields)>)
    requires ReaderOk(reader) && NamesDistinct(blocks) && AllBlocksOk(reader, doc, blocks)
    ensures TableReads(reader.lang, RereadTable(reader, blocks), blocks)
  {
    forall i | 0 <= i < |blocks|
      ensures RereadTable(reader, blocks).block(blocks[i].0) == Some(Flat(ReadFields(reader.lang, blocks[i].1)))
    {
      TableBlock(reader, blocks, i);
      var read := BlockComesBack(reader, doc, blocks[i].1);
      assert read == ReadFields(reader.lang, blocks[i].1);
    }
  }

  lemma {:induction false} WritableShape(reader: Reader, sel: Selection)
    requires Writable(reader, sel)
    ensures NodeShape(sel)
  {
    forall i | 0 <= i < |sel.fields| && sel.fields[i].1.Ops? ensures sel.fields[i].1.entries != [] {
      assert ExpectedOk(sel.fields[i].1);
    }
    if sel.anyOf.Branches? {
      forall i | 0 <= i < |sel.anyOf.items| ensures NodeShape(sel.anyOf.items[i]) {
        WritableShape(reader, sel.anyOf.items[i]);
      }
    }
    if sel.allOf.Branches? {
      forall i | 0 <= i < |sel.allOf.items| ensures NodeShape(sel.allOf.items[i]) {
        WritableShape(reader, sel.allOf.items[i]);
      }
    }
    if sel.neg.Negated? { WritableShape(reader, sel.neg.sel); }
  }

  const START := Out([], 0, 0)

  lemma {:induction false} OneTermPrints(term: NotTree)
    ensures PrintOr(OrTree([AndTree([term])])) == PrintNot(term)
  {
    var parts := [AndTree([term])];
    assert PrintAnds([term]) == PrintNot(term);
    assert parts[0].parts == [term] && PrintOrs(parts) == PrintAnd(parts[0]);
  }

  lemma {:induction false} HollowDoesNotImport(reader: Reader, sel: Selection)
    requires Writable(reader, sel) && RequiresStructure(sel) && !Filled(sel)
    ensures ExportThenImport(reader, sel) == None
  {
    WritableShape(reader, sel);
    if Emit(START, sel).Some? {
      HollowEmits(START, sel);
      var term := Emit(START, sel).value.1;
      OneTermPrints(term);
      EmptyParensDoNotParse(PrintNot(term));
    }
  }

  lemma {:induction false} FilledImports(reader: Reader, sel: Selection)
    requires ReaderOk(reader) && Writable(reader, sel) && RequiresStructure(sel) && Filled(sel)
    ensures ExportThenImport(reader, sel) == match Rebuilt(reader.lang, sel)
      case None => None
      case Some(read) => Some(Nested([read]))
  {
    WritableShape(reader, sel);
    FilledEmits(START, sel);
    FilledIsOk(reader, sel);
    EmptyTextIsOk(reader, sel);
    EmitOk(reader, EMPTY_TEXT, START, sel);
    var (out, term) := Emit(START, sel).value;
    var table := RereadTable(reader, out.blocks);
    RereadReads(reader, EMPTY_TEXT, out.blocks);
    EmitCompiles(reader.lang, table, START, sel);
    OneAlternativeReads(table, term);
  }

  lemma {:induction false} OneAlternativeReads(table: Table, term: NotTree)
    requires Spellable(term)
    ensures Compile(table, PrintOr(OrTree([AndTree([term])]))) == match CompileNot(table, term)
      case None => None
      case Some(read) => Some(Nested([read]))
  {
    var condition := OrTree([AndTree([term])]);
    assert SpellableAnds([term]) && SpellableOrs(condition.parts);
    ParseIffSpells(PrintOr(condition), condition);
    SigmaParser.CompileAndsOne(table, term);
    SigmaParser.CompileOrsOne(table, AndTree([term]));
  }

  /** What the round trip of a structured selection gives: the selection rebuilt part by part, or
      nothing if some part of it is empty. */
  lemma {:induction false} ReimportIs(reader: Reader, sel: Selection)
    requires ReaderOk(reader) && Writable(reader, sel) && RequiresStructure(sel)
    ensures ExportThenImport(reader, sel) ==
      if !Filled(sel) || Rebuilt(reader.lang, sel).None? then None
      else Some(Nested([Rebuilt(reader.lang, sel).value]))
  {
    if Filled(sel) { FilledImports(reader, sel); } else { HollowDoesNotImport(reader, sel); }
  }

  /** One field with several operators, which cannot be negated as one. */
  predicate SeveralOnOneField(sel: Selection) {
    IsFlat(sel) && |sel.fields| == 1 && sel.fields[0].1.Ops? && |sel.fields[0].1.entries| != 1
  }

  /** No negated part, at any depth, is read back as one field with several operators. */
  predicate Negatable(lang: Lang, sel: Selection)
    decreases sel
  {
    && (sel.anyOf.Branches? ==> AllNegatable(lang, sel.anyOf.items))
    && (sel.allOf.Branches? ==> AllNegatable(lang, sel.allOf.items))
    && (sel.neg.Negated? ==>
      && Negatable(lang, sel.neg.sel)
      && (Rebuilt(lang, sel.neg.sel).Some? ==> !SeveralOnOneField(Nested([Rebuilt(lang, sel.neg.sel).value]))))
  }

  predicate AllNegatable(lang: Lang, nodes: seq<Selection>)
    decreases nodes
  {
    forall i :: 0 <= i < |nodes| ==> Negatable(lang, nodes[i])
  }

  lemma {:induction false} RebuiltIff(lang: Lang, sel: Selection)
    ensures Rebuilt(lang, sel).Some? <==> Negatable(lang, sel)
    decreases sel
  {
    if sel.anyOf.Branches? { RebuiltListIff(lang, sel.anyOf.items); }
    if sel.allOf.Branches? { RebuiltListIff(lang, sel.allOf.items); }
    if sel.neg.Negated? {
      RebuiltIff(lang, sel.neg.sel);
      if Rebuilt(lang, sel.neg.sel).Some? { NegatesIff(Nested([Rebuilt(lang, sel.neg.sel).value])); }
    }
  }

  lemma NegatesIff(sel: Selection)
    ensures SelectionNot(sel).Some? <==> !SeveralOnOneField(sel)
  {
  }

  lemma {:induction false} RebuiltListIff(lang: Lang, nodes: seq<Selection>)
    ensures RebuiltList(lang, nodes).Some? <==> AllNegatable(lang, nodes)
    decreases nodes
  {
    if nodes != [] {
      RebuiltIff(lang, nodes[0]);
      RebuiltListIff(lang, nodes[1..]);
      assert AllNegatable(lang, nodes) <==> Negatable(lang, nodes[0]) && AllNegatable(lang, nodes[1..]) by {
        assert forall i :: 0 < i < |nodes| ==> nodes[i] == nodes[1..][i - 1];
      }
    }
  }

  /** The exact condition for re-import, whatever the nesting: a selection that needs no structure always
      comes back; any other does if and only if nothing in it is empty and no negated part comes back as
      one field with several operators. */
  lemma {:induction false} ReimportsIff(reader: Reader, sel: Selection)
    requires ReaderOk(reader) && Writable(reader, sel)
    ensures ExportThenImport(reader, sel).Some? <==>
      !RequiresStructure(sel) || (Filled(sel) && Negatable(reader.lang, sel))
  {
    if RequiresStructure(sel) {
      ReimportIs(reader, sel);
      RebuiltIff(reader.lang, sel);
    } else {
      EmptyTextIsOk(reader, sel);
      FlatKeeps(reader, EMPTY_TEXT, sel);
    }
  }

  // ----- a selection that is exported and cannot be imported again -----

  /** Whatever the two texts: a field that must not both contain one and start with the other. */
  function BothRefused(field: string, part: string, prefix: string): Selection {
    var entries := [Entry(Test(Contains, false), Str(part)), Entry(Test(StartsWith, false), Str(prefix))];
    Selection([], Absent, Absent, Negated(Flat([(field, Ops(entries))])))
  }

  lemma TwoKept(e: Entry, f: Entry)
    requires !GoesToFilter(e) && !GoesToFilter(f)
    ensures Kept([e, f]) == [e, f] && Filtered([e, f]) == []
  {
    assert [e, f][1..] == [f] && [f][1..] == [];
    assert Kept([]) == [] && Filtered([]) == [];
    assert [f] + [] == [f] && [e] + [f] == [e, f];
    assert Kept([f]) == [f] && Filtered([f]) == [];
  }

  lemma {:induction false} OneFieldSplits(field: string, entries: seq<Entry>)
    requires entries != [] && Kept(entries) == entries && Filtered(entries) == []
    ensures SplitSelection([(field, Ops(entries))]) == ([(field, Ops(entries))], [])
  {
    var fields: Fields := [(field, Ops(entries))];
    assert fields[1..] == [] && SplitSelection([]) == ([], []);
    assert fields + [] == fields;
  }

  lemma TwoOpsRead(lang: Lang, field: string, e: Entry, f: Entry)
    requires !GoesToFilter(e) && !GoesToFilter(f)
    ensures FieldReads(lang, [(field, Ops([e, f]))]) == [OpRead(lang, false, field, e), OpRead(lang, false, field, f)]
  {
    var fields: Fields := [(field, Ops([e, f]))];
    TwoKept(e, f);
    OneFieldSplits(field, [e, f]);
    assert fields[1..] == [] && [e, f][1..] == [f] && [f][1..] == [];
    var first, second := OpRead(lang, false, field, e), OpRead(lang, false, field, f);
    assert OpReads(lang, false, field, []) == [] && IncludeReads(lang, []) == [] && SimpleFields([]) == [];
    assert OpReads(lang, false, field, [f]) == [second] + [] == [second];
    assert OpReads(lang, false, field, [e, f]) == [first] + [second] == [first, second];
    assert IncludeReads(lang, fields) == [first, second] + [] == [first, second];
    assert SimpleFields(fields) == [] && FilterReads(lang, []) == [];
  }

  lemma BothRead(lang: Lang, field: string, part: string, prefix: string)
    ensures FieldReads(lang, BothRefused(field, part, prefix).neg.sel.fields)
      == [Flat([(field, Op(Contains, Str(part)))]), Flat([(field, Op(StartsWith, Str(prefix)))])]
  {
    TwoOpsRead(lang, field, Entry(Test(Contains, false), Str(part)), Entry(Test(StartsWith, false), Str(prefix)));
  }

  lemma FieldTwiceMerges(field: string, one: Expected, other: Expected)
    requires !SharesOperator(AsEntries(one), AsEntries(other))
    ensures MergeParts([], [Flat([(field, one)]), Flat([(field, other)])])
      == Some([(field, Ops(AsEntries(one) + AsEntries(other)))])
  {
    var a, b := [(field, one)], [(field, other)];
    assert a[1..] == [] && b[1..] == [] && [] + a == a;
    assert IndexOf([], field) == 0 && IndexOf(a, field) == 0;
    assert MergeField([], field, one) == Some(a) && MergeFields([], a) == MergeFields(a, []) == Some(a);
    var both := [(field, Ops(AsEntries(one) + AsEntries(other)))];
    assert a[0 := both[0]] == both;
    assert MergeField(a, field, other) == Some(both) && MergeFields(a, b) == MergeFields(both, []) == Some(both);
    assert [Flat(a), Flat(b)][1..] == [Flat(b)] && [Flat(b)][1..] == [];
    assert MergeParts(a, [Flat(b)]) == MergeParts(both, []) == Some(both);
  }

  lemma FlatPairFlattens(a: Selection, b: Selection)
    requires IsFlat(a) && IsFlat(b)
    ensures FlattenAll([a, b]) == [a, b]
  {
    assert [a, b][1..] == [b] && [b][1..] == [] && FlattenAll([]) == [];
    assert FlattenAll([b]) == [b] + [] == [b];
    assert [a] + [b] == [a, b];
  }

  lemma FlatIsNotOpened(sel: Selection)
    requires IsFlat(sel)
    ensures SelectionAny([sel]) == sel && SelectionAll([sel]) == sel
  {
    assert [sel][1..] == [] && FlattenAny([]) == [] && FlattenAll([]) == [];
    assert FlattenAny([sel]) == [sel] + [] == [sel] && FlattenAll([sel]) == [sel] + [] == [sel];
  }

  lemma TwoMerge(field: string, one: Entry, other: Entry)
    requires one.op != other.op
    ensures Nested([Flat([(field, Ops([one]))]), Flat([(field, Ops([other]))])]) == Flat([(field, Ops([one, other]))])
  {
    FlatPairFlattens(Flat([(field, Ops([one]))]), Flat([(field, Ops([other]))]));
    FieldTwiceMerges(field, Ops([one]), Ops([other]));
    assert [one] + [other] == [one, other];
    FlatIsNotOpened(Flat([(field, Ops([one, other]))]));
  }

  lemma {:induction false} BothRebuilt(lang: Lang, field: string, part: string, prefix: string)
    ensures Rebuilt(lang, BothRefused(field, part, prefix).neg.sel)
      == Some(BothRefused(field, part, prefix).neg.sel)
  {
    var inner := BothRefused(field, part, prefix).neg.sel;
    BothRead(lang, field, part, prefix);
    var read := FieldReads(lang, inner.fields);
    assert read + [] + [] + [] == read;
    TwoMerge(field, Entry(Test(Contains, false), Str(part)), Entry(Test(StartsWith, false), Str(prefix)));
  }

  /** It is exported, and the importer refuses the `not` over its two blocks. */
  lemma {:induction false} SeveralOperatorsDoNotComeBack(reader: Reader, field: string, part: string, prefix: string)
    requires ReaderOk(reader) && Writable(reader, BothRefused(field, part, prefix))
    ensures Export(BothRefused(field, part, prefix)).Some?
    ensures ExportThenImport(reader, BothRefused(field, part, prefix)) == None
  {
    var sel := BothRefused(field, part, prefix);
    WritableShape(reader, sel);
    FilledEmits(START, sel);
    BothRebuilt(reader.lang, field, part, prefix);
    FlatIsNotOpened(sel.neg.sel);
    assert !Negatable(reader.lang, sel);
    ReimportsIff(reader, sel);
  }
}
