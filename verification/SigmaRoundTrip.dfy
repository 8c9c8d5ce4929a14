/** Exporting a selection as Sigma and importing the result keeps its meaning. */
module SigmaRoundTrip {
  import opened Common
  import opened Detection
  import opened SigmaCombine
  import opened SigmaCondition
  import opened SigmaExport
  import opened SigmaBlocks
  import Decimal

  // ----- splitting positive from negative -----

  predicate AllHold(lang: Lang, actual: Value, entries: seq<Entry>, want: bool) {
    forall i :: 0 <= i < |entries| ==> MatchEntry(lang, actual, entries[i]) == want
  }

  /** No operator of the filters holds. */
  predicate NoneHold(lang: Lang, doc: Doc, filters: Fields) {
    forall i :: 0 <= i < |filters| ==>
      filters[i].1.Ops? && AllHold(lang, doc(filters[i].0), filters[i].1.entries, false)
  }

  predicate Positive(e: Entry) {
    e.op.Exists? || !e.op.negated
  }

  predicate EntryReads(lang: Lang, actual: Value, e: Entry) {
    e.op.Test? && e.op.base == Equals ==> ExpectedCoherent(lang, actual, Plain(e.value))
  }

  predicate EntryFits(lang: Lang, actual: Value, e: Entry) {
    EntryOk(e) && EntryReads(lang, actual, e)
  }

  predicate PiecesOf(lang: Lang, actual: Value, entries: seq<Entry>) {
    forall i :: 0 <= i < |entries| ==> EntryFits(lang, actual, entries[i]) && Positive(entries[i])
  }

  /** Operators are divided between both sides with their meaning kept. */
  lemma {:induction false} EntriesSplit(lang: Lang, actual: Value, entries: seq<Entry>)
    ensures AllHold(lang, actual, entries, true)
       <==> AllHold(lang, actual, Kept(entries), true) && AllHold(lang, actual, Filtered(entries), false)
  {
    if entries != [] {
      var e, rest := entries[0], entries[1..];
      EntriesSplit(lang, actual, rest);
      assert entries == [e] + rest;
      HoldCons(lang, actual, e, rest, true);
      if GoesToFilter(e) {
        assert MatchEntry(lang, actual, e) == !MatchEntry(lang, actual, PositiveOf(e));
        HoldCons(lang, actual, PositiveOf(e), Filtered(rest), false);
      } else {
        HoldCons(lang, actual, e, Kept(rest), true);
      }
    }
  }

  lemma {:induction false} EntriesCount(entries: seq<Entry>)
    ensures |Kept(entries)| + |Filtered(entries)| == |entries|
  {
    if entries != [] { EntriesCount(entries[1..]); }
  }

  lemma {:induction false} EntriesPieces(lang: Lang, actual: Value, entries: seq<Entry>)
    requires forall i :: 0 <= i < |entries| ==> EntryFits(lang, actual, entries[i])
    ensures PiecesOf(lang, actual, Kept(entries)) && PiecesOf(lang, actual, Filtered(entries))
  {
    if entries != [] {
      assert forall i :: 0 <= i < |entries[1..]| ==> entries[1..][i] == entries[i + 1];
      EntriesPieces(lang, actual, entries[1..]);
      assert EntryFits(lang, actual, entries[0]);
      PositiveFits(lang, actual, entries[0]);
    }
  }

  /** Whichever side an operator goes to, it can be written there. */
  lemma PositiveFits(lang: Lang, actual: Value, e: Entry)
    requires EntryFits(lang, actual, e)
    ensures GoesToFilter(e) ==> EntryFits(lang, actual, PositiveOf(e)) && Positive(PositiveOf(e))
    ensures !GoesToFilter(e) ==> Positive(e)
  {
  }

  lemma HoldCons(lang: Lang, actual: Value, e: Entry, rest: seq<Entry>, want: bool)
    ensures AllHold(lang, actual, [e] + rest, want) <==>
      MatchEntry(lang, actual, e) == want && AllHold(lang, actual, rest, want)
  {
    forall i | 0 <= i < |rest| && AllHold(lang, actual, [e] + rest, want)
      ensures MatchEntry(lang, actual, rest[i]) == want
    {
      assert ([e] + rest)[i + 1] == rest[i];
    }
    assert ([e] + rest)[0] == e;
  }

  lemma FieldsCons(lang: Lang, doc: Doc, field: string, expected: Expected, rest: Fields)
    ensures MatchFields(lang, doc, [(field, expected)] + rest)
       <==> MatchExpected(lang, doc(field), expected) && MatchFields(lang, doc, rest)
  {
    var all := [(field, expected)] + rest;
    forall i | 0 <= i < |rest| && MatchFields(lang, doc, all) ensures MatchExpected(lang, doc(rest[i].0), rest[i].1) {
      assert all[i + 1] == rest[i];
    }
    assert all[0] == (field, expected);
  }

  lemma NoneCons(lang: Lang, doc: Doc, field: string, entries: seq<Entry>, rest: Fields)
    ensures NoneHold(lang, doc, [(field, Ops(entries))] + rest)
       <==> AllHold(lang, doc(field), entries, false) && NoneHold(lang, doc, rest)
  {
    var all := [(field, Ops(entries))] + rest;
    forall i | 0 <= i < |rest| && NoneHold(lang, doc, all)
      ensures rest[i].1.Ops? && AllHold(lang, doc(rest[i].0), rest[i].1.entries, false)
    {
      assert all[i + 1] == rest[i];
    }
    assert all[0] == (field, Ops(entries));
  }

  ghost predicate NonEmptyOps(fields: Fields) {
    forall i :: 0 <= i < |fields| ==> fields[i].1.Ops? ==> fields[i].1.entries != []
  }

  /** A selection's fields hold exactly when the positive side holds and nothing on the filter side does. */
  lemma {:induction false} SplitMeans(lang: Lang, doc: Doc, fields: Fields)
    requires NonEmptyOps(fields)
    ensures MatchFields(lang, doc, fields)
       <==> MatchFields(lang, doc, SplitSelection(fields).0) && NoneHold(lang, doc, SplitSelection(fields).1)
  {
    if fields != [] {
      var (field, expected) := fields[0];
      assert fields[0].1 == expected;
      var rest := fields[1..];
      assert forall i :: 0 <= i < |rest| ==> rest[i] == fields[i + 1];
      SplitMeans(lang, doc, rest);
      var (positive, filters) := SplitSelection(rest);
      assert fields == [(field, expected)] + rest;
      FieldsCons(lang, doc, field, expected, rest);
      match expected
      case Plain(_) => FieldsCons(lang, doc, field, expected, positive);
      case Ops(entries) =>
        EntriesSplit(lang, doc(field), entries);
        FieldsCons(lang, doc, field, Ops(Kept(entries)), positive);
        NoneCons(lang, doc, field, Filtered(entries), filters);
    }
  }

  /** What each side of the split looks like. */
  ghost predicate Piece(reader: Reader, doc: Doc, field: string, expected: Expected) {
    && FieldOk(reader, field) && ExpectedOk(expected) && ReadsSame(reader.lang, doc(field), expected)
    && (expected.Ops? ==> PiecesOf(reader.lang, doc(field), expected.entries))
  }

  ghost predicate Pieces(reader: Reader, doc: Doc, fields: Fields) {
    Distinct(fields) && forall i :: 0 <= i < |fields| ==> Piece(reader, doc, fields[i].0, fields[i].1)
  }

  ghost predicate NamesWithin(part: Fields, whole: Fields) {
    forall i :: 0 <= i < |part| ==> exists j :: 0 <= j < |whole| && whole[j].0 == part[i].0
  }

  predicate SomeSeveral(fields: Fields) {
    exists i :: 0 <= i < |fields| && Several(fields[i].1)
  }

  lemma PiecesCons(reader: Reader, doc: Doc, field: string, expected: Expected, part: Fields, rest: Fields)
    requires Pieces(reader, doc, part) && NamesWithin(part, rest) && Piece(reader, doc, field, expected)
    requires forall j :: 0 <= j < |rest| ==> rest[j].0 != field
    ensures Pieces(reader, doc, [(field, expected)] + part)
  {
    forall i | 0 <= i < |part| ensures part[i].0 != field {
      var j :| 0 <= j < |rest| && rest[j].0 == part[i].0;
    }
    var all := [(field, expected)] + part;
    assert forall i :: 0 < i < |all| ==> all[i] == part[i - 1];
  }

  lemma WithinCons(field: string, one: Expected, other: Expected, part: Fields, rest: Fields)
    requires NamesWithin(part, rest)
    ensures NamesWithin([(field, one)] + part, [(field, other)] + rest)
    ensures NamesWithin(part, [(field, other)] + rest)
  {
    var whole := [(field, other)] + rest;
    assert whole[0].0 == field;
    forall i | 0 <= i < |part| ensures exists j :: 0 <= j < |whole| && whole[j].0 == part[i].0 {
      var j :| 0 <= j < |rest| && rest[j].0 == part[i].0;
      assert whole[j + 1] == rest[j];
    }
  }

  ghost predicate Exportable(reader: Reader, doc: Doc, fields: Fields) {
    FieldsOk(reader, fields) && FieldsReadSame(reader.lang, doc, fields)
  }

  lemma {:induction false} EntriesFit(lang: Lang, actual: Value, entries: seq<Entry>)
    requires ExpectedOk(Ops(entries)) && ReadsSame(lang, actual, Ops(entries))
    ensures PiecesOf(lang, actual, Kept(entries)) && PiecesOf(lang, actual, Filtered(entries))
  {
    forall i | 0 <= i < |entries| ensures EntryFits(lang, actual, entries[i]) {
      assert EntryOk(entries[i]);
    }
    EntriesPieces(lang, actual, entries);
  }

  lemma SidePiece(reader: Reader, doc: Doc, field: string, entries: seq<Entry>)
    requires FieldOk(reader, field) && entries != [] && PiecesOf(reader.lang, doc(field), entries)
    ensures Piece(reader, doc, field, Ops(entries))
  {
  }

  lemma {:induction false} SplitPieces(reader: Reader, doc: Doc, fields: Fields)
    requires Exportable(reader, doc, fields)
    ensures Pieces(reader, doc, SplitSelection(fields).0) && NamesWithin(SplitSelection(fields).0, fields)
    ensures Pieces(reader, doc, SplitSelection(fields).1) && NamesWithin(SplitSelection(fields).1, fields)
  {
    if fields != [] {
      var (field, expected) := fields[0];
      var rest := fields[1..];
      assert forall i :: 0 <= i < |rest| ==> rest[i] == fields[i + 1];
      SplitPieces(reader, doc, rest);
      var (positive, filters) := SplitSelection(rest);
      assert fields == [(field, expected)] + rest;
      assert forall j :: 0 <= j < |rest| ==> rest[j].0 != field;
      WithinCons(field, expected, expected, positive, rest);
      WithinCons(field, expected, expected, filters, rest);
      match expected
      case Plain(_) => PiecesCons(reader, doc, field, expected, positive, rest);
      case Ops(entries) =>
        EntriesFit(reader.lang, doc(field), entries);
        WithinCons(field, Ops(Kept(entries)), expected, positive, rest);
        WithinCons(field, Ops(Filtered(entries)), expected, filters, rest);
        if Kept(entries) != [] {
          SidePiece(reader, doc, field, Kept(entries));
          PiecesCons(reader, doc, field, Ops(Kept(entries)), positive, rest);
        }
        if Filtered(entries) != [] {
          SidePiece(reader, doc, field, Filtered(entries));
          PiecesCons(reader, doc, field, Ops(Filtered(entries)), filters, rest);
        }
    }
  }

  lemma {:induction false} SplitShape(lang: Lang, fields: Fields)
    ensures forall i :: 0 <= i < |SplitSelection(fields).1| ==> SplitSelection(fields).1[i].1.Ops?
    ensures !SomeSeveral(fields) ==> !SomeSeveral(SplitSelection(fields).0) && !SomeSeveral(SplitSelection(fields).1)
  {
    if fields != [] {
      var rest := fields[1..];
      assert forall i :: 0 <= i < |rest| ==> rest[i] == fields[i + 1];
      SplitShape(lang, rest);
      var (positive, filters) := SplitSelection(rest);
      if fields[0].1.Ops? {
        EntriesCount(fields[0].1.entries);
        assert !SomeSeveral(fields) ==> !Several(fields[0].1);
      }
    }
  }

  // ----- emitted blocks have distinct names and can be written -----

  function CountOf(out: Out, filter: bool): nat {
    if filter then out.filters else out.selections
  }

  ghost predicate Named(out: Out, name: string) {
    exists filter: bool, n: nat :: n <= CountOf(out, filter) && name == BlockName(filter, n)
  }

  ghost predicate NamesDistinct(blocks: seq<(string, Fields)>) {
    forall i, j :: 0 <= i < j < |blocks| ==> blocks[i].0 != blocks[j].0
  }

  ghost predicate AllBlocksOk(reader: Reader, doc: Doc, blocks: seq<(string, Fields)>) {
    forall i :: 0 <= i < |blocks| ==> BlockOk(reader, doc, blocks[i].1)
  }

  ghost predicate OutOk(reader: Reader, doc: Doc, out: Out) {
    && NamesDistinct(out.blocks)
    && (forall i :: 0 <= i < |out.blocks| ==> Named(out, out.blocks[i].0))
    && AllBlocksOk(reader, doc, out.blocks)
  }

  lemma NamesDiffer(f: bool, m: nat, g: bool, n: nat)
    requires BlockName(f, m) == BlockName(g, n)
    ensures f == g && m == n
  {
    var a, b := BlockName(f, m), BlockName(g, n);
    assert a[0] == if f then 'f' else 's';
    assert b[0] == if g then 'f' else 's';
    var k := if f then |"filter_"| else |"selection_"|;
    assert a[k..] == Decimal.Show(m);
    assert b[k..] == Decimal.Show(n);
    Decimal.ShowInjective(m, n);
  }

  lemma NameSpells(filter: bool, n: nat)
    ensures Spellable(Term(filter, BlockName(filter, n)))
  {
    var name := BlockName(filter, n);
    assert |name| > 3;
  }

  lemma AddBlockOk(reader: Reader, doc: Doc, out: Out, filter: bool, fields: Fields)
    requires OutOk(reader, doc, out) && BlockOk(reader, doc, fields)
    ensures OutOk(reader, doc, AddBlock(out, filter, fields).0)
    ensures Spellable(Term(filter, AddBlock(out, filter, fields).1))
  {
    var (more, name) := AddBlock(out, filter, fields);
    assert name == BlockName(filter, CountOf(out, filter) + 1);
    NameSpells(filter, CountOf(out, filter) + 1);
    assert Named(more, name);
    forall i | 0 <= i < |out.blocks| ensures out.blocks[i].0 != name && Named(more, out.blocks[i].0) {
      assert Named(out, out.blocks[i].0);
      var g: bool, n: nat :| n <= CountOf(out, g) && out.blocks[i].0 == BlockName(g, n);
      if out.blocks[i].0 == name { NamesDiffer(g, n, filter, CountOf(out, filter) + 1); }
      assert n <= CountOf(more, g);
    }
  }

  predicate AllSpellable(terms: seq<NotTree>) {
    forall i :: 0 <= i < |terms| ==> Spellable(terms[i])
  }

  lemma {:induction false} SpellableList(terms: seq<NotTree>)
    requires terms != [] && AllSpellable(terms)
    ensures SpellableAnds(terms)
  {
    if |terms| > 1 { SpellableList(terms[1..]); }
  }

  lemma {:induction false} SpellableAlternatives(parts: seq<AndTree>)
    requires parts != [] && forall i :: 0 <= i < |parts| ==> SpellableAnds(parts[i].parts)
    ensures SpellableOrs(parts)
  {
    if |parts| > 1 { SpellableAlternatives(parts[1..]); }
  }

  lemma OneEntryOk(reader: Reader, doc: Doc, field: string, e: Entry)
    requires FieldOk(reader, field) && EntryFits(reader.lang, doc(field), e) && Positive(e)
    ensures BlockOk(reader, doc, [(field, Ops([e]))])
  {
    assert Fits(reader, doc, field, Ops([e])) by { assert [e][0] == e; }
  }

  lemma {:induction false} EmitOpsOk(reader: Reader, doc: Doc, out: Out, filter: bool, field: string,
          entries: seq<Entry>)
    requires OutOk(reader, doc, out) && FieldOk(reader, field) && PiecesOf(reader.lang, doc(field), entries)
    ensures OutOk(reader, doc, EmitOps(out, filter, field, entries).0)
    ensures AllSpellable(EmitOps(out, filter, field, entries).1)
    decreases |entries|
  {
    if entries != [] {
      OneEntryOk(reader, doc, field, entries[0]);
      var fields := [(field, Ops([entries[0]]))];
      AddBlockOk(reader, doc, out, filter, fields);
      EmitOpsOk(reader, doc, AddBlock(out, filter, fields).0, filter, field, entries[1..]);
    }
  }

  lemma PieceFits(reader: Reader, doc: Doc, field: string, expected: Expected)
    requires Piece(reader, doc, field, expected) && !Several(expected)
    ensures Fits(reader, doc, field, expected)
  {
  }

  lemma PiecesTail(reader: Reader, doc: Doc, fields: Fields)
    requires Pieces(reader, doc, fields) && fields != []
    ensures Piece(reader, doc, fields[0].0, fields[0].1) && Pieces(reader, doc, fields[1..])
    ensures forall i :: 0 <= i < |fields[1..]| ==> fields[1..][i].0 != fields[0].0
  {
    assert forall i :: 0 <= i < |fields[1..]| ==> fields[1..][i] == fields[i + 1];
  }

  lemma BlockCons(reader: Reader, doc: Doc, field: string, expected: Expected, part: Fields, rest: Fields)
    requires BlockOk(reader, doc, part) && NamesWithin(part, rest) && Fits(reader, doc, field, expected)
    requires forall j :: 0 <= j < |rest| ==> rest[j].0 != field
    ensures BlockOk(reader, doc, [(field, expected)] + part)
  {
    forall i | 0 <= i < |part| ensures part[i].0 != field {
      var j :| 0 <= j < |rest| && rest[j].0 == part[i].0;
    }
    var all := [(field, expected)] + part;
    assert forall i :: 0 < i < |all| ==> all[i] == part[i - 1];
  }

  lemma {:induction false} EmitIncludesOk(reader: Reader, doc: Doc, out: Out, positive: Fields)
    requires OutOk(reader, doc, out) && Pieces(reader, doc, positive)
    ensures OutOk(reader, doc, EmitIncludes(out, positive).0) && AllSpellable(EmitIncludes(out, positive).1)
    ensures BlockOk(reader, doc, EmitIncludes(out, positive).2) && NamesWithin(EmitIncludes(out, positive).2, positive)
    decreases |positive|
  {
    if positive != [] {
      PiecesTail(reader, doc, positive);
      var (field, expected) := positive[0];
      var rest := positive[1..];
      assert positive == [(field, expected)] + rest;
      if Several(expected) {
        EmitOpsOk(reader, doc, out, false, field, expected.entries);
        var out1 := EmitOps(out, false, field, expected.entries).0;
        EmitIncludesOk(reader, doc, out1, rest);
        WithinCons(field, expected, expected, EmitIncludes(out1, rest).2, rest);
      } else {
        EmitIncludesOk(reader, doc, out, rest);
        var simple := EmitIncludes(out, rest).2;
        PieceFits(reader, doc, field, expected);
        BlockCons(reader, doc, field, expected, simple, rest);
        WithinCons(field, expected, expected, simple, rest);
      }
    }
  }

  lemma OneFieldOk(reader: Reader, doc: Doc, fields: Fields)
    requires Pieces(reader, doc, fields) && fields != [] && !Several(fields[0].1)
    ensures BlockOk(reader, doc, [fields[0]])
  {
    PieceFits(reader, doc, fields[0].0, fields[0].1);
  }

  lemma {:induction false} EmitFiltersOk(reader: Reader, doc: Doc, out: Out, filters: Fields)
    requires OutOk(reader, doc, out) && Pieces(reader, doc, filters)
    ensures OutOk(reader, doc, EmitFilters(out, filters).0) && AllSpellable(EmitFilters(out, filters).1)
    decreases |filters|
  {
    if filters != [] {
      PiecesTail(reader, doc, filters);
      if Several(filters[0].1) {
        EmitOpsOk(reader, doc, out, true, filters[0].0, filters[0].1.entries);
        EmitFiltersOk(reader, doc, EmitOps(out, true, filters[0].0, filters[0].1.entries).0, filters[1..]);
      } else {
        OneFieldOk(reader, doc, filters);
        AddBlockOk(reader, doc, out, true, [filters[0]]);
        EmitFiltersOk(reader, doc, AddBlock(out, true, [filters[0]]).0, filters[1..]);
      }
    }
  }

  lemma EmitFieldsOk(reader: Reader, doc: Doc, out: Out, fields: Fields)
    requires OutOk(reader, doc, out) && Exportable(reader, doc, fields)
    ensures OutOk(reader, doc, EmitFields(out, fields).0) && AllSpellable(EmitFields(out, fields).1)
  {
    SplitPieces(reader, doc, fields);
    var (positive, filters) := SplitSelection(fields);
    EmitIncludesOk(reader, doc, out, positive);
    var (out1, terms, simple) := EmitIncludes(out, positive);
    if simple == [] {
      EmitFiltersOk(reader, doc, out1, filters);
    } else {
      AddBlockOk(reader, doc, out1, false, simple);
      EmitFiltersOk(reader, doc, AddBlock(out1, false, simple).0, filters);
    }
  }

  ghost predicate NodeOk(reader: Reader, doc: Doc, sel: Selection) {
    SelectionOk(reader, sel) && SelectionReadsSame(reader.lang, doc, sel)
  }

  lemma {:induction false} EmitOk(reader: Reader, doc: Doc, out: Out, node: Selection)
    requires OutOk(reader, doc, out) && NodeOk(reader, doc, node) && Emit(out, node).Some?
    ensures OutOk(reader, doc, Emit(out, node).value.0) && Spellable(Emit(out, node).value.1)
    decreases node
  {
    EmitFieldsOk(reader, doc, out, node.fields);
    var (out1, fieldTerms) := EmitFields(out, node.fields);
    EmitAnyOk(reader, doc, out1, node.anyOf);
    var (out2, anyTerms) := EmitAny(out1, node.anyOf).value;
    EmitAllOk(reader, doc, out2, node.allOf);
    var (out3, allTerms) := EmitAll(out2, node.allOf).value;
    EmitNotOk(reader, doc, out3, node.neg);
    var (out4, notTerms) := EmitNot(out3, node.neg).value;
    PartsSpell(fieldTerms, anyTerms, allTerms, notTerms);
  }

  lemma JoinedSpells(terms: seq<NotTree>)
    requires terms != [] && AllSpellable(terms)
    ensures Spellable(Joined(terms)) && Spellable(Ands(terms))
  {
    SpellableList(terms);
    assert [AndTree(terms)][0] == AndTree(terms);
  }

  lemma PartsSpell(a: seq<NotTree>, b: seq<NotTree>, c: seq<NotTree>, d: seq<NotTree>)
    requires AllSpellable(a) && AllSpellable(b) && AllSpellable(c) && AllSpellable(d) && a + b + c + d != []
    ensures Spellable(Joined(a + b + c + d))
  {
    JoinedSpells(a + b + c + d);
  }

  ghost predicate AllNodesOk(reader: Reader, doc: Doc, nodes: seq<Selection>) {
    forall i :: 0 <= i < |nodes| ==> NodeOk(reader, doc, nodes[i])
  }

  lemma NodesTail(reader: Reader, doc: Doc, nodes: seq<Selection>)
    requires AllNodesOk(reader, doc, nodes) && nodes != []
    ensures NodeOk(reader, doc, nodes[0]) && AllNodesOk(reader, doc, nodes[1..])
  {
    assert forall i :: 0 <= i < |nodes[1..]| ==> nodes[1..][i] == nodes[i + 1];
  }

  lemma {:induction false} SpellableCons(t: NotTree, terms: seq<NotTree>)
    requires Spellable(t) && AllSpellable(terms)
    ensures AllSpellable([t] + terms)
  {
  }

  ghost predicate BranchesOk(reader: Reader, doc: Doc, branches: Branches) {
    branches.Branches? ==> branches.items != [] && AllNodesOk(reader, doc, branches.items)
  }

  lemma {:induction false} EmitAnyOk(reader: Reader, doc: Doc, out: Out, anyOf: Branches)
    requires OutOk(reader, doc, out) && BranchesOk(reader, doc, anyOf) && EmitAny(out, anyOf).Some?
    ensures OutOk(reader, doc, EmitAny(out, anyOf).value.0) && AllSpellable(EmitAny(out, anyOf).value.1)
    decreases anyOf
  {
    if anyOf.Branches? {
      EmitListOk(reader, doc, out, anyOf.items);
      var terms := EmitList(out, anyOf.items).value.1;
      forall i | 0 <= i < |terms| ensures SpellableAnds(Singles(terms)[i].parts) {
        SpellableList([terms[i]]);
      }
      SpellableAlternatives(Singles(terms));
    }
  }

  lemma {:induction false} EmitAllOk(reader: Reader, doc: Doc, out: Out, allOf: Branches)
    requires OutOk(reader, doc, out) && BranchesOk(reader, doc, allOf) && EmitAll(out, allOf).Some?
    ensures OutOk(reader, doc, EmitAll(out, allOf).value.0) && AllSpellable(EmitAll(out, allOf).value.1)
    decreases allOf
  {
    if allOf.Branches? {
      EmitListOk(reader, doc, out, allOf.items);
      JoinedSpells(EmitList(out, allOf.items).value.1);
    }
  }

  lemma {:induction false} EmitNotOk(reader: Reader, doc: Doc, out: Out, neg: Negated)
    requires OutOk(reader, doc, out) && (neg.Negated? ==> NodeOk(reader, doc, neg.sel)) && EmitNot(out, neg).Some?
    ensures OutOk(reader, doc, EmitNot(out, neg).value.0) && AllSpellable(EmitNot(out, neg).value.1)
    decreases neg
  {
    if neg.Negated? {
      EmitOk(reader, doc, out, neg.sel);
      JoinedSpells([Emit(out, neg.sel).value.1]);
    }
  }

  lemma {:induction false} EmitListOk(reader: Reader, doc: Doc, out: Out, nodes: seq<Selection>)
    requires OutOk(reader, doc, out) && EmitList(out, nodes).Some? && AllNodesOk(reader, doc, nodes)
    ensures OutOk(reader, doc, EmitList(out, nodes).value.0) && AllSpellable(EmitList(out, nodes).value.1)
    decreases nodes
  {
    if nodes != [] {
      NodesTail(reader, doc, nodes);
      EmitOk(reader, doc, out, nodes[0]);
      var (more, term) := Emit(out, nodes[0]).value;
      EmitListOk(reader, doc, more, nodes[1..]);
      SpellableCons(term, EmitList(more, nodes[1..]).value.1);
    }
  }

  // ----- emitted terms say what the node says -----

  /** The table gives every block its meaning. */
  ghost predicate Knows(lang: Lang, doc: Doc, table: Table, blocks: seq<(string, Fields)>) {
    forall i :: 0 <= i < |blocks| ==> (Truth(lang, doc, table, blocks[i].0) <==> MatchFields(lang, doc, blocks[i].1))
  }

  lemma KnowsPrefix(lang: Lang, doc: Doc, table: Table, part: seq<(string, Fields)>, whole: seq<(string, Fields)>)
    requires part <= whole && Knows(lang, doc, table, whole)
    ensures Knows(lang, doc, table, part)
  {
    assert forall i :: 0 <= i < |part| ==> part[i] == whole[i];
  }

  lemma {:induction false} SaysSplit(lang: Lang, doc: Doc, table: Table, a: seq<NotTree>, b: seq<NotTree>)
    ensures SaysAnd(lang, doc, table, a + b) <==> SaysAnd(lang, doc, table, a) && SaysAnd(lang, doc, table, b)
  {
    forall i | 0 <= i < |b| && SaysAnd(lang, doc, table, a + b) ensures SaysNot(lang, doc, table, b[i]) {
      assert (a + b)[|a| + i] == b[i];
    }
    forall i | 0 <= i < |a| && SaysAnd(lang, doc, table, a + b) ensures SaysNot(lang, doc, table, a[i]) {
      assert (a + b)[i] == a[i];
    }
  }

  lemma {:induction false} SaysOne(lang: Lang, doc: Doc, table: Table, t: NotTree)
    ensures SaysAnd(lang, doc, table, [t]) <==> SaysNot(lang, doc, table, t)
  {
    assert [t][0] == t;
  }

  lemma {:induction false} SaysAnds(lang: Lang, doc: Doc, table: Table, terms: seq<NotTree>)
    ensures SaysNot(lang, doc, table, Ands(terms)) <==> SaysAnd(lang, doc, table, terms)
  {
    assert [AndTree(terms)][0] == AndTree(terms);
  }

  lemma {:induction false} BlockSays(lang: Lang, doc: Doc, table: Table, out: Out, filter: bool, fields: Fields)
    requires Knows(lang, doc, table, AddBlock(out, filter, fields).0.blocks)
    ensures SaysNot(lang, doc, table, Term(filter, AddBlock(out, filter, fields).1)) <==>
      MatchFields(lang, doc, fields) != filter
  {
    var (more, name) := AddBlock(out, filter, fields);
    assert more.blocks[|out.blocks|] == (name, fields);
  }

  lemma FieldAlone(lang: Lang, doc: Doc, field: string, expected: Expected)
    ensures MatchFields(lang, doc, [(field, expected)]) <==> MatchExpected(lang, doc(field), expected)
  {
    assert [(field, expected)][0] == (field, expected);
  }

  lemma {:induction false} EmitOpsSays(lang: Lang, doc: Doc, table: Table, out: Out, filter: bool, field: string,
          entries: seq<Entry>)
    requires Knows(lang, doc, table, EmitOps(out, filter, field, entries).0.blocks)
    ensures SaysAnd(lang, doc, table, EmitOps(out, filter, field, entries).1) <==>
      AllHold(lang, doc(field), entries, !filter)
    decreases |entries|
  {
    if entries != [] {
      var fields := [(field, Ops([entries[0]]))];
      var (out1, name) := AddBlock(out, filter, fields);
      var (out2, terms) := EmitOps(out1, filter, field, entries[1..]);
      KnowsPrefix(lang, doc, table, out1.blocks, out2.blocks);
      BlockSays(lang, doc, table, out, filter, fields);
      FieldAlone(lang, doc, field, Ops([entries[0]]));
      OneOp(lang, doc(field), entries[0]);
      EmitOpsSays(lang, doc, table, out1, filter, field, entries[1..]);
      SaysOne(lang, doc, table, Term(filter, name));
      SaysSplit(lang, doc, table, [Term(filter, name)], terms);
      assert [entries[0]] + entries[1..] == entries;
      HoldCons(lang, doc(field), entries[0], entries[1..], !filter);
    }
  }

  lemma {:induction false} EmitIncludesSays(lang: Lang, doc: Doc, table: Table, out: Out, positive: Fields)
    requires Knows(lang, doc, table, EmitIncludes(out, positive).0.blocks)
    ensures
      SaysAnd(lang, doc, table, EmitIncludes(out, positive).1) && MatchFields(lang, doc, EmitIncludes(out, positive).2)
      <==> MatchFields(lang, doc, positive)
    decreases |positive|
  {
    if positive != [] {
      var (field, expected) := positive[0];
      var rest := positive[1..];
      assert positive == [(field, expected)] + rest;
      FieldsCons(lang, doc, field, expected, rest);
      if Several(expected) {
        var (out1, terms) := EmitOps(out, false, field, expected.entries);
        var (out2, more, simple) := EmitIncludes(out1, rest);
        KnowsPrefix(lang, doc, table, out1.blocks, out2.blocks);
        EmitOpsSays(lang, doc, table, out, false, field, expected.entries);
        EmitIncludesSays(lang, doc, table, out1, rest);
        SaysSplit(lang, doc, table, terms, more);
      } else {
        EmitIncludesSays(lang, doc, table, out, rest);
        FieldsCons(lang, doc, field, expected, EmitIncludes(out, rest).2);
      }
    }
  }

  lemma {:induction false} FilterSays(lang: Lang, doc: Doc, table: Table, out: Out, field: string, entries: seq<Entry>)
    requires |entries| == 1 && Knows(lang, doc, table, AddBlock(out, true, [(field, Ops(entries))]).0.blocks)
    ensures SaysAnd(lang, doc, table, [Term(true, AddBlock(out, true, [(field, Ops(entries))]).1)])
       <==> AllHold(lang, doc(field), entries, false)
  {
    var fields := [(field, Ops(entries))];
    BlockSays(lang, doc, table, out, true, fields);
    SaysOne(lang, doc, table, Term(true, AddBlock(out, true, fields).1));
    FieldAlone(lang, doc, field, Ops(entries));
    assert entries == [entries[0]];
    OneOp(lang, doc(field), entries[0]);
  }

  ghost predicate FiltersShape(filters: Fields) {
    forall i :: 0 <= i < |filters| ==> filters[i].1.Ops? && filters[i].1.entries != []
  }

  lemma {:induction false} EmitFiltersSays(lang: Lang, doc: Doc, table: Table, out: Out, filters: Fields)
    requires Knows(lang, doc, table, EmitFilters(out, filters).0.blocks) && FiltersShape(filters)
    ensures SaysAnd(lang, doc, table, EmitFilters(out, filters).1) <==> NoneHold(lang, doc, filters)
    decreases |filters|
  {
    if filters != [] {
      var (field, expected) := filters[0];
      var rest := filters[1..];
      assert filters == [(field, expected)] + rest;
      var entries := expected.entries;
      var (out1, terms) :=
        if Several(expected) then EmitOps(out, true, field, entries)
        else
          var (added, name) := AddBlock(out, true, [filters[0]]);
          (added, [Term(true, name)]);
      var (out2, more) := EmitFilters(out1, rest);
      KnowsPrefix(lang, doc, table, out1.blocks, out2.blocks);
      if Several(expected) {
        EmitOpsSays(lang, doc, table, out, true, field, entries);
      } else {
        assert filters[0] == (field, Ops(entries));
        FilterSays(lang, doc, table, out, field, entries);
      }
      EmitFiltersSays(lang, doc, table, out1, rest);
      SaysSplit(lang, doc, table, terms, more);
      NoneCons(lang, doc, field, entries, rest);
    }
  }

  lemma {:induction false} SplitFilters(fields: Fields)
    ensures FiltersShape(SplitSelection(fields).1)
  {
    if fields != [] { SplitFilters(fields[1..]); }
  }

  lemma {:induction false} EmitFieldsSays(lang: Lang, doc: Doc, table: Table, out: Out, fields: Fields)
    requires Knows(lang, doc, table, EmitFields(out, fields).0.blocks) && NonEmptyOps(fields)
    ensures SaysAnd(lang, doc, table, EmitFields(out, fields).1) <==> MatchFields(lang, doc, fields)
  {
    SplitMeans(lang, doc, fields);
    SplitFilters(fields);
    var (positive, filters) := SplitSelection(fields);
    var (out1, terms, simple) := EmitIncludes(out, positive);
    var (out2, block) :=
      if simple == [] then (out1, [])
      else
        var (added, name) := AddBlock(out1, false, simple);
        (added, [Term(false, name)]);
    var (out3, negative) := EmitFilters(out2, filters);
    KnowsPrefix(lang, doc, table, out2.blocks, out3.blocks);
    KnowsPrefix(lang, doc, table, out1.blocks, out2.blocks);
    EmitIncludesSays(lang, doc, table, out, positive);
    EmitFiltersSays(lang, doc, table, out2, filters);
    if simple != [] {
      BlockSays(lang, doc, table, out1, false, simple);
      SaysOne(lang, doc, table, block[0]);
    }
    assert SaysAnd(lang, doc, table, block) <==> MatchFields(lang, doc, simple);
    SaysSplit(lang, doc, table, terms, block);
    SaysSplit(lang, doc, table, terms + block, negative);
  }

  /** Every operator map in a selection has an operator. */
  ghost predicate NodeShape(sel: Selection) {
    && NonEmptyOps(sel.fields)
    && (sel.anyOf.Branches? ==> forall i :: 0 <= i < |sel.anyOf.items| ==> NodeShape(sel.anyOf.items[i]))
    && (sel.allOf.Branches? ==> forall i :: 0 <= i < |sel.allOf.items| ==> NodeShape(sel.allOf.items[i]))
    && (sel.neg.Negated? ==> NodeShape(sel.neg.sel))
  }

  /** The term emitted for a selection, read over the emitted blocks, is true exactly when the
      selection matches. */
  lemma {:induction false} EmitSays(lang: Lang, doc: Doc, table: Table, out: Out, node: Selection)
    requires NodeShape(node) && Emit(out, node).Some?
    requires Knows(lang, doc, table, Emit(out, node).value.0.blocks)
    ensures SaysNot(lang, doc, table, Emit(out, node).value.1) <==> Matches(lang, doc, node)
    decreases node
  {
    var (out1, fieldTerms) := EmitFields(out, node.fields);
    var (out2, anyTerms) := EmitAny(out1, node.anyOf).value;
    var (out3, allTerms) := EmitAll(out2, node.allOf).value;
    var (out4, notTerms) := EmitNot(out3, node.neg).value;
    KnowsPrefix(lang, doc, table, out3.blocks, out4.blocks);
    KnowsPrefix(lang, doc, table, out2.blocks, out3.blocks);
    KnowsPrefix(lang, doc, table, out1.blocks, out2.blocks);
    EmitFieldsSays(lang, doc, table, out, node.fields);
    EmitAnySays(lang, doc, table, out1, node.anyOf);
    EmitAllSays(lang, doc, table, out2, node.allOf);
    EmitNotSays(lang, doc, table, out3, node.neg);
    JoinedSays(lang, doc, table, fieldTerms, anyTerms, allTerms, notTerms);
  }

  lemma {:induction false} JoinedSays(lang: Lang, doc: Doc, table: Table, a: seq<NotTree>, b: seq<NotTree>,
          c: seq<NotTree>, d: seq<NotTree>)
    requires a + b + c + d != []
    ensures SaysNot(lang, doc, table, Joined(a + b + c + d)) <==>
      SaysAnd(lang, doc, table, a) && SaysAnd(lang, doc, table, b) && SaysAnd(lang, doc, table, c)
        && SaysAnd(lang, doc, table, d)
  {
    SaysSplit(lang, doc, table, a, b);
    SaysSplit(lang, doc, table, a + b, c);
    SaysSplit(lang, doc, table, a + b + c, d);
    var terms := a + b + c + d;
    if |terms| == 1 {
      assert terms == [terms[0]];
      SaysOne(lang, doc, table, terms[0]);
    } else {
      SaysAnds(lang, doc, table, terms);
    }
  }

  ghost predicate BranchesShape(branches: Branches) {
    branches.Branches? ==> forall i :: 0 <= i < |branches.items| ==> NodeShape(branches.items[i])
  }

  lemma {:induction false} EmitAnySays(lang: Lang, doc: Doc, table: Table, out: Out, anyOf: Branches)
    requires BranchesShape(anyOf) && EmitAny(out, anyOf).Some?
    requires Knows(lang, doc, table, EmitAny(out, anyOf).value.0.blocks)
    ensures SaysAnd(lang, doc, table, EmitAny(out, anyOf).value.1)
       <==> (anyOf.Branches? ==> SomeMatches(lang, doc, anyOf.items))
    decreases anyOf
  {
    if anyOf.Branches? {
      EmitListSays(lang, doc, table, out, anyOf.items);
      var terms := EmitList(out, anyOf.items).value.1;
      SaysOne(lang, doc, table, Group(OrTree(Singles(terms))));
      forall i | 0 <= i < |terms|
        ensures SaysAnd(lang, doc, table, Singles(terms)[i].parts) <==> Matches(lang, doc, anyOf.items[i])
      {
        SaysOne(lang, doc, table, terms[i]);
      }
    }
  }

  lemma {:induction false} EmitAllSays(lang: Lang, doc: Doc, table: Table, out: Out, allOf: Branches)
    requires BranchesShape(allOf) && EmitAll(out, allOf).Some?
    requires Knows(lang, doc, table, EmitAll(out, allOf).value.0.blocks)
    ensures SaysAnd(lang, doc, table, EmitAll(out, allOf).value.1)
       <==> (allOf.Branches? ==> AllMatch(lang, doc, allOf.items))
    decreases allOf
  {
    if allOf.Branches? {
      EmitListSays(lang, doc, table, out, allOf.items);
      var terms := EmitList(out, allOf.items).value.1;
      SaysAnds(lang, doc, table, terms);
      SaysOne(lang, doc, table, Ands(terms));
    }
  }

  lemma {:induction false} EmitNotSays(lang: Lang, doc: Doc, table: Table, out: Out, neg: Negated)
    requires (neg.Negated? ==> NodeShape(neg.sel)) && EmitNot(out, neg).Some?
    requires Knows(lang, doc, table, EmitNot(out, neg).value.0.blocks)
    ensures SaysAnd(lang, doc, table, EmitNot(out, neg).value.1) <==> (neg.Negated? ==> !Matches(lang, doc, neg.sel))
    decreases neg
  {
    if neg.Negated? {
      EmitSays(lang, doc, table, out, neg.sel);
      var term := Emit(out, neg.sel).value.1;
      SaysOne(lang, doc, table, term);
      SaysAnds(lang, doc, table, [term]);
      SaysOne(lang, doc, table, Not(Ands([term])));
    }
  }

  lemma {:induction false} EmitListSays(lang: Lang, doc: Doc, table: Table, out: Out, nodes: seq<Selection>)
    requires EmitList(out, nodes).Some? && forall i :: 0 <= i < |nodes| ==> NodeShape(nodes[i])
    requires Knows(lang, doc, table, EmitList(out, nodes).value.0.blocks)
    ensures forall i :: 0 <= i < |nodes| ==>
      (SaysNot(lang, doc, table, EmitList(out, nodes).value.1[i]) <==> Matches(lang, doc, nodes[i]))
    decreases nodes
  {
    if nodes != [] {
      var (out1, term) := Emit(out, nodes[0]).value;
      var (out2, terms) := EmitList(out1, nodes[1..]).value;
      KnowsPrefix(lang, doc, table, out1.blocks, out2.blocks);
      EmitSays(lang, doc, table, out, nodes[0]);
      EmitListSays(lang, doc, table, out1, nodes[1..]);
      assert EmitList(out, nodes).value.1 == [term] + terms;
      assert forall i :: 0 < i < |nodes| ==> nodes[i] == nodes[1..][i - 1];
    }
  }

  // ----- the detection section read back -----

  lemma {:induction false} LookupFinds(blocks: seq<(string, Fields)>, i: nat)
    requires NamesDistinct(blocks) && i < |blocks|
    ensures Lookup(blocks, blocks[i].0) == Some(blocks[i].1)
  {
    if i > 0 {
      assert blocks[0].0 != blocks[i].0;
      var rest := blocks[1..];
      assert forall j :: 0 <= j < |rest| ==> rest[j] == blocks[j + 1];
      LookupFinds(rest, i - 1);
    }
  }

  lemma {:induction false} LookupIsBlock(blocks: seq<(string, Fields)>, name: string)
    requires Lookup(blocks, name).Some?
    ensures exists i :: 0 <= i < |blocks| && blocks[i].1 == Lookup(blocks, name).value
  {
    if blocks[0].0 != name {
      LookupIsBlock(blocks[1..], name);
      var i :| 0 <= i < |blocks[1..]| && blocks[1..][i].1 == Lookup(blocks, name).value;
      assert blocks[i + 1] == blocks[1..][i];
    }
  }

  /** An event coherent with every block of the table. */
  ghost predicate BlocksCoherent(lang: Lang, doc: Doc, table: Table) {
    forall name :: NameCoherent(lang, doc, table, name)
  }

  lemma TableKnows(reader: Reader, doc: Doc, blocks: seq<(string, Fields)>)
    requires ReaderOk(reader) && NamesDistinct(blocks) && AllBlocksOk(reader, doc, blocks)
    ensures Knows(reader.lang, doc, RereadTable(reader, blocks), blocks)
    ensures BlocksCoherent(reader.lang, doc, RereadTable(reader, blocks))
  {
    var table := RereadTable(reader, blocks);
    forall i | 0 <= i < |blocks|
      ensures Truth(reader.lang, doc, table, blocks[i].0) <==> MatchFields(reader.lang, doc, blocks[i].1)
    {
      LookupFinds(blocks, i);
      BlockMeans(reader, doc, blocks[i].1);
    }
    forall name | table.block(name).Some? ensures Coherent(reader.lang, doc, table.block(name).value) {
      LookupIsBlock(blocks, name);
      var i :| 0 <= i < |blocks| && blocks[i].1 == Lookup(blocks, name).value;
      BlockMeans(reader, doc, blocks[i].1);
    }
  }

  lemma {:induction false} OrNamesCoherent(lang: Lang, doc: Doc, table: Table, parts: seq<AndTree>)
    requires BlocksCoherent(lang, doc, table)
    ensures OrCoherent(lang, doc, table, parts)
    decreases parts
  {
    forall i | 0 <= i < |parts| ensures AndCoherent(lang, doc, table, parts[i].parts) {
      AndNamesCoherent(lang, doc, table, parts[i].parts);
    }
  }

  lemma {:induction false} AndNamesCoherent(lang: Lang, doc: Doc, table: Table, parts: seq<NotTree>)
    requires BlocksCoherent(lang, doc, table)
    ensures AndCoherent(lang, doc, table, parts)
    decreases parts
  {
    forall i | 0 <= i < |parts| ensures NotCoherent(lang, doc, table, parts[i]) {
      NotNamesCoherent(lang, doc, table, parts[i]);
    }
  }

  lemma {:induction false} NotNamesCoherent(lang: Lang, doc: Doc, table: Table, t: NotTree)
    requires BlocksCoherent(lang, doc, table)
    ensures NotCoherent(lang, doc, table, t)
    decreases t
  {
    match t
    case Not(sub) => NotNamesCoherent(lang, doc, table, sub);
    case Group(inner) => OrNamesCoherent(lang, doc, table, inner.parts);
    case Block(_) =>
    case Of(_, _) =>
  }

  /** Compiling a printed condition gives the selection its tree stands for. */
  lemma {:induction false} ReadsCondition(lang: Lang, doc: Doc, table: Table, condition: OrTree)
    requires SpellableOrs(condition.parts) && BlocksCoherent(lang, doc, table)
    ensures Compile(table, PrintOr(condition)) == CompileOr(table, condition.parts)
    ensures CompileOr(table, condition.parts).Some? ==>
      (Matches(lang, doc, CompileOr(table, condition.parts).value) <==> SaysOr(lang, doc, table, condition.parts))
  {
    ParseIffSpells(PrintOr(condition), condition);
    if CompileOr(table, condition.parts).Some? {
      OrNamesCoherent(lang, doc, table, condition.parts);
      OrMeans(lang, doc, table, condition.parts);
    }
  }

  lemma {:induction false} OneAlternative(lang: Lang, doc: Doc, table: Table, terms: seq<NotTree>)
    requires terms != [] && AllSpellable(terms)
    ensures SpellableOrs([AndTree(terms)])
    ensures SaysOr(lang, doc, table, [AndTree(terms)]) <==> SaysAnd(lang, doc, table, terms)
  {
    SpellableList(terms);
    assert [AndTree(terms)][0] == AndTree(terms);
  }

  // ----- flat selections -----

  lemma {:induction false} FilterBlocksAre(filters: Fields, from: nat, only: bool)
    requires only ==> |filters| <= 1
    ensures |FilterBlocks(filters, from, only)| == |filters|
    ensures forall i :: 0 <= i < |filters| ==>
      FilterBlocks(filters, from, only)[i] == (if only then "filter" else BlockName(true, from + i), [filters[i]])
  {
    if filters != [] {
      FilterBlocksAre(filters[1..], from + 1, only);
      assert forall i :: 0 < i < |filters| ==> filters[i] == filters[1..][i - 1];
    }
  }

  lemma FilterName(n: nat)
    ensures BlockName(true, n)[0] == 'f' && |BlockName(true, n)| > 3
  {
  }

  function FlatBlocks(fields: Fields): seq<(string, Fields)> {
    var (positive, filters) := SplitSelection(fields);
    [("selection", positive)] + FilterBlocks(filters, 1, |filters| == 1)
  }

  function FlatTerms(fields: Fields): seq<NotTree> {
    [Block("selection")] + FilterTerms(FlatBlocks(fields)[1..])
  }

  lemma FlatExport(sel: Selection)
    requires !RequiresStructure(sel)
    ensures Export(sel) == Some((FlatBlocks(sel.fields), OrTree([AndTree(FlatTerms(sel.fields))])))
  {
    var (positive, filters) := SplitSelection(sel.fields);
    assert FlatBlocks(sel.fields)[1..] == FilterBlocks(filters, 1, |filters| == 1);
  }

  lemma FlatNameOf(fields: Fields, i: nat)
    requires i < |FlatBlocks(fields)|
    ensures FlatBlocks(fields)[i].0 ==
      if i == 0 then "selection" else if |FlatBlocks(fields)| == 2 then "filter" else BlockName(true, i)
  {
    var filters := SplitSelection(fields).1;
    FilterBlocksAre(filters, 1, |filters| == 1);
    assert i > 0 ==> FlatBlocks(fields)[i] == FilterBlocks(filters, 1, |filters| == 1)[i - 1];
  }

  lemma FlatNames(fields: Fields)
    ensures NamesDistinct(FlatBlocks(fields))
  {
    var blocks := FlatBlocks(fields);
    forall i, j | 0 <= i < j < |blocks| ensures blocks[i].0 != blocks[j].0 {
      FlatNameOf(fields, i);
      FlatNameOf(fields, j);
      FilterName(j);
      assert "selection"[0] == 's' && "filter"[0] == 'f';
      if i > 0 && blocks[i].0 == blocks[j].0 { NamesDiffer(true, i, true, j); }
    }
  }

  lemma FlatSpells(fields: Fields)
    ensures AllSpellable(FlatTerms(fields))
  {
    var filters := SplitSelection(fields).1;
    var rest := FilterBlocks(filters, 1, |filters| == 1);
    FilterBlocksAre(filters, 1, |filters| == 1);
    assert FlatBlocks(fields)[1..] == rest;
    forall i | 0 <= i < |rest| ensures Spellable(FilterTerms(rest)[i]) {
      FilterName(1 + i);
      assert |rest[i].0| > 3;
    }
  }

  lemma AllPiecesFit(reader: Reader, doc: Doc, fields: Fields)
    requires Pieces(reader, doc, fields) && !SomeSeveral(fields)
    ensures BlockOk(reader, doc, fields)
    ensures forall i :: 0 <= i < |fields| ==> BlockOk(reader, doc, [fields[i]])
  {
    forall i | 0 <= i < |fields| ensures Fits(reader, doc, fields[i].0, fields[i].1) {
      PieceFits(reader, doc, fields[i].0, fields[i].1);
    }
  }

  lemma FlatBlocksOk(reader: Reader, doc: Doc, fields: Fields)
    requires Exportable(reader, doc, fields) && !SomeSeveral(fields)
    ensures AllBlocksOk(reader, doc, FlatBlocks(fields))
  {
    SplitPieces(reader, doc, fields);
    SplitShape(reader.lang, fields);
    var (positive, filters) := SplitSelection(fields);
    AllPiecesFit(reader, doc, positive);
    AllPiecesFit(reader, doc, filters);
    FilterBlocksAre(filters, 1, |filters| == 1);
    var blocks := FlatBlocks(fields);
    forall i | 0 <= i < |blocks| ensures BlockOk(reader, doc, blocks[i].1) {
      if i > 0 { assert blocks[i].1 == [filters[i - 1]]; }
    }
  }

  lemma {:induction false} FlatFilterSays(lang: Lang, doc: Doc, table: Table, name: string, field: string,
          entries: seq<Entry>)
    requires |entries| == 1 && (Truth(lang, doc, table, name) <==> MatchFields(lang, doc, [(field, Ops(entries))]))
    ensures SaysNot(lang, doc, table, Not(Block(name))) <==> AllHold(lang, doc(field), entries, false)
  {
    FieldAlone(lang, doc, field, Ops(entries));
    assert entries == [entries[0]];
    OneOp(lang, doc(field), entries[0]);
  }

  /** `selection and not filter...` says that the positive fields hold and no filter does. */
  lemma {:induction false} FlatSays(lang: Lang, doc: Doc, table: Table, fields: Fields)
    requires NonEmptyOps(fields) && !SomeSeveral(fields) && Knows(lang, doc, table, FlatBlocks(fields))
    ensures SaysAnd(lang, doc, table, FlatTerms(fields))
       <==> MatchFields(lang, doc, fields)
  {
    var (positive, filters) := SplitSelection(fields);
    var rest := FilterBlocks(filters, 1, |filters| == 1);
    var blocks := FlatBlocks(fields);
    FilterBlocksAre(filters, 1, |filters| == 1);
    SplitFilters(fields);
    SplitShape(lang, fields);
    SplitMeans(lang, doc, fields);
    assert blocks[0] == ("selection", positive) && blocks[1..] == rest;
    SaysOne(lang, doc, table, Block("selection"));
    SaysSplit(lang, doc, table, [Block("selection")], FilterTerms(rest));
    forall i | 0 <= i < |filters|
      ensures SaysNot(lang, doc, table, FilterTerms(rest)[i]) <==>
        AllHold(lang, doc(filters[i].0), filters[i].1.entries, false)
    {
      assert blocks[i + 1] == rest[i];
      assert !Several(filters[i].1);
      assert filters[i] == (filters[i].0, Ops(filters[i].1.entries));
      FlatFilterSays(lang, doc, table, rest[i].0, filters[i].0, filters[i].1.entries);
    }
  }

  // ----- the theorem -----

  lemma {:induction false} OkHasShape(reader: Reader, sel: Selection)
    requires SelectionOk(reader, sel)
    ensures NodeShape(sel)
  {
    forall i | 0 <= i < |sel.fields| && sel.fields[i].1.Ops? ensures sel.fields[i].1.entries != [] {
      assert ExpectedOk(sel.fields[i].1);
    }
    if sel.anyOf.Branches? {
      forall i | 0 <= i < |sel.anyOf.items|
        ensures NodeShape(sel.anyOf.items[i])
      {
        OkHasShape(reader, sel.anyOf.items[i]);
      }
    }
    if sel.allOf.Branches? {
      forall i | 0 <= i < |sel.allOf.items|
        ensures NodeShape(sel.allOf.items[i])
      {
        OkHasShape(reader, sel.allOf.items[i]);
      }
    }
    if sel.neg.Negated? { OkHasShape(reader, sel.neg.sel); }
  }

  lemma {:induction false} StructuredKeeps(reader: Reader, doc: Doc, sel: Selection)
    requires ReaderOk(reader) && NodeOk(reader, doc, sel) && RequiresStructure(sel)
    requires ExportThenImport(reader, sel).Some?
    ensures Matches(reader.lang, doc, ExportThenImport(reader, sel).value) <==> Matches(reader.lang, doc, sel)
  {
    var start := Out([], 0, 0);
    assert OutOk(reader, doc, start);
    EmitOk(reader, doc, start, sel);
    var (out, term) := Emit(start, sel).value;
    TableKnows(reader, doc, out.blocks);
    var table := RereadTable(reader, out.blocks);
    OkHasShape(reader, sel);
    EmitSays(reader.lang, doc, table, start, sel);
    OneAlternative(reader.lang, doc, table, [term]);
    SaysOne(reader.lang, doc, table, term);
    ReadsCondition(reader.lang, doc, table, OrTree([AndTree([term])]));
  }

  lemma AgainNegates(lang: Lang, raw: bool, expected: Expected)
    requires Single(expected)
    ensures NegateExpected(Again(lang, raw, expected)).Some?
  {
  }

  lemma OneFieldNegates(field: string, expected: Expected)
    requires NegateExpected(expected).Some?
    ensures SelectionNot(Flat([(field, expected)])).Some?
  {
  }

  /** A filter block has one field with one value or operator, which can always be negated. */
  lemma FilterNegates(reader: Reader, doc: Doc, fields: Fields)
    requires ReaderOk(reader) && BlockOk(reader, doc, fields) && |fields| == 1
    ensures Reread(reader, fields).Some? && SelectionNot(Reread(reader, fields).value).Some?
  {
    var read := BlockComesBack(reader, doc, fields);
    assert Reread(reader, fields) == Some(Flat(read));
    var (field, expected) := fields[0];
    assert Fits(reader, doc, field, expected);
    AgainNegates(reader.lang, field == RAW_MESSAGE, expected);
    assert read == [(field, Again(reader.lang, field == RAW_MESSAGE, expected))];
    OneFieldNegates(field, Again(reader.lang, field == RAW_MESSAGE, expected));
  }

  lemma {:induction false} AllCompile(table: Table, terms: seq<NotTree>)
    requires forall i :: 0 <= i < |terms| ==> CompileNot(table, terms[i]).Some?
    ensures CompileAnds(table, terms).Some?
  {
    if terms != [] {
      assert forall i :: 0 <= i < |terms[1..]| ==> terms[1..][i] == terms[i + 1];
      AllCompile(table, terms[1..]);
    }
  }

  lemma TableBlock(reader: Reader, blocks: seq<(string, Fields)>, i: nat)
    requires NamesDistinct(blocks) && i < |blocks|
    ensures RereadTable(reader, blocks).block(blocks[i].0) == Reread(reader, blocks[i].1)
  {
    LookupFinds(blocks, i);
  }

  /** The filter blocks have one field each, and each is negated under its own name. */
  lemma FlatTerm(fields: Fields, i: nat)
    requires i < |FlatBlocks(fields)|
    ensures |FlatTerms(fields)| == |FlatBlocks(fields)|
    ensures FlatTerms(fields)[i] == if i == 0 then Block("selection") else Not(Block(FlatBlocks(fields)[i].0))
    ensures FlatBlocks(fields)[0].0 == "selection" && (i > 0 ==> |FlatBlocks(fields)[i].1| == 1)
  {
    var filters := SplitSelection(fields).1;
    FilterBlocksAre(filters, 1, |filters| == 1);
    assert i > 0 ==> FlatBlocks(fields)[i] == FilterBlocks(filters, 1, |filters| == 1)[i - 1];
  }

  lemma {:induction false} NegatedBlockCompiles(table: Table, name: string, sel: Selection)
    requires table.block(name) == Some(sel) && SelectionNot(sel).Some?
    ensures CompileNot(table, Not(Block(name))).Some?
  {
    assert CompileNot(table, Block(name)) == Some(sel);
  }

  lemma FlatTermCompiles(reader: Reader, doc: Doc, fields: Fields, i: nat)
    requires ReaderOk(reader) && NamesDistinct(FlatBlocks(fields)) && AllBlocksOk(reader, doc, FlatBlocks(fields))
    requires i < |FlatBlocks(fields)|
    ensures |FlatTerms(fields)| == |FlatBlocks(fields)|
    ensures CompileNot(RereadTable(reader, FlatBlocks(fields)), FlatTerms(fields)[i]).Some?
  {
    var blocks := FlatBlocks(fields);
    var table := RereadTable(reader, blocks);
    TableBlock(reader, blocks, i);
    FlatTerm(fields, i);
    if i == 0 {
      BlockMeans(reader, doc, blocks[0].1);
    } else {
      FilterNegates(reader, doc, blocks[i].1);
      NegatedBlockCompiles(table, blocks[i].0, Reread(reader, blocks[i].1).value);
    }
  }

  lemma FlatCompiles(reader: Reader, doc: Doc, fields: Fields)
    requires ReaderOk(reader) && NamesDistinct(FlatBlocks(fields)) && AllBlocksOk(reader, doc, FlatBlocks(fields))
    ensures CompileAnds(RereadTable(reader, FlatBlocks(fields)), FlatTerms(fields)).Some?
  {
    var table, terms := RereadTable(reader, FlatBlocks(fields)), FlatTerms(fields);
    FlatTerm(fields, 0);
    forall i | 0 <= i < |terms| ensures CompileNot(table, terms[i]).Some? {
      FlatTermCompiles(reader, doc, fields, i);
    }
    AllCompile(table, terms);
  }

  lemma {:induction false} AlternativeCompiles(table: Table, terms: seq<NotTree>)
    requires CompileAnds(table, terms).Some?
    ensures CompileOr(table, [AndTree(terms)]).Some?
  {
    var parts := [AndTree(terms)];
    assert parts[0].parts == terms && parts[1..] == [];
    assert CompileAnd(table, terms).Some?;
    assert CompileOrs(table, []) == Some([]);
    assert CompileOrs(table, parts).Some?;
  }

  lemma FlatTable(reader: Reader, doc: Doc, sel: Selection)
    requires ReaderOk(reader) && NodeOk(reader, doc, sel) && !RequiresStructure(sel)
    ensures var table := RereadTable(reader, FlatBlocks(sel.fields));
      && BlocksCoherent(reader.lang, doc, table)
      && CompileOr(table, [AndTree(FlatTerms(sel.fields))]).Some?
      && (SaysAnd(reader.lang, doc, table, FlatTerms(sel.fields)) <==> MatchFields(reader.lang, doc, sel.fields))
  {
    OkHasShape(reader, sel);
    FlatNames(sel.fields);
    FlatBlocksOk(reader, doc, sel.fields);
    TableKnows(reader, doc, FlatBlocks(sel.fields));
    FlatCompiles(reader, doc, sel.fields);
    FlatSays(reader.lang, doc, RereadTable(reader, FlatBlocks(sel.fields)), sel.fields);
    AlternativeCompiles(RereadTable(reader, FlatBlocks(sel.fields)), FlatTerms(sel.fields));
  }

  /** A flat selection with one operator a field can always be read back. */
  lemma {:induction false} FlatKeeps(reader: Reader, doc: Doc, sel: Selection)
    requires ReaderOk(reader) && NodeOk(reader, doc, sel) && !RequiresStructure(sel)
    ensures ExportThenImport(reader, sel).Some?
    ensures Matches(reader.lang, doc, ExportThenImport(reader, sel).value) <==> Matches(reader.lang, doc, sel)
  {
    FlatExport(sel);
    FlatTable(reader, doc, sel);
    FlatSpells(sel.fields);
    var table := RereadTable(reader, FlatBlocks(sel.fields));
    OneAlternative(reader.lang, doc, table, FlatTerms(sel.fields));
    ReadsCondition(reader.lang, doc, table, OrTree([AndTree(FlatTerms(sel.fields))]));
  }

  /** Export then re-import keeps meaning: whenever both succeed, the selection read back matches an
      event exactly when the original does. */
  lemma {:induction false} ExportImportKeepsMeaning(reader: Reader, doc: Doc, sel: Selection)
    requires ReaderOk(reader) && SelectionOk(reader, sel) && SelectionReadsSame(reader.lang, doc, sel)
    requires ExportThenImport(reader, sel).Some?
    ensures Matches(reader.lang, doc, ExportThenImport(reader, sel).value) <==> Matches(reader.lang, doc, sel)
  {
    if RequiresStructure(sel) { StructuredKeeps(reader, doc, sel); } else { FlatKeeps(reader, doc, sel); }
  }

  /** Selections over text: plain values and `equals` compare with non-empty strings or with lists. */
  predicate TextExpected(expected: Expected) {
    match expected
    case Plain(v) => v.List? || (v.Str? && v.s != "")
    case Ops(entries) =>
      forall i :: 0 <= i < |entries| && entries[i].op.Test? && entries[i].op.base == Equals ==>
        entries[i].value.Str? && entries[i].value.s != ""
  }

  ghost predicate TextSelection(sel: Selection) {
    && (forall i :: 0 <= i < |sel.fields| ==> TextExpected(sel.fields[i].1))
    && (sel.anyOf.Branches? ==> forall i :: 0 <= i < |sel.anyOf.items| ==> TextSelection(sel.anyOf.items[i]))
    && (sel.allOf.Branches? ==> forall i :: 0 <= i < |sel.allOf.items| ==> TextSelection(sel.allOf.items[i]))
    && (sel.neg.Negated? ==> TextSelection(sel.neg.sel))
  }

  /** The fields the selection names are text or absent in the event; others may be anything. */
  ghost predicate TextFields(doc: Doc, sel: Selection) {
    && (forall i :: 0 <= i < |sel.fields| ==> doc(sel.fields[i].0).Str? || doc(sel.fields[i].0).Null?)
    && (sel.anyOf.Branches? ==> forall i :: 0 <= i < |sel.anyOf.items| ==> TextFields(doc, sel.anyOf.items[i]))
    && (sel.allOf.Branches? ==> forall i :: 0 <= i < |sel.allOf.items| ==> TextFields(doc, sel.allOf.items[i]))
    && (sel.neg.Negated? ==> TextFields(doc, sel.neg.sel))
  }

  lemma {:induction false} TextReadsSame(lang: Lang, doc: Doc, sel: Selection)
    requires TextSelection(sel) && TextFields(doc, sel)
    ensures SelectionReadsSame(lang, doc, sel)
  {
    if sel.anyOf.Branches? {
      forall i | 0 <= i < |sel.anyOf.items| ensures SelectionReadsSame(lang, doc, sel.anyOf.items[i]) {
        TextReadsSame(lang, doc, sel.anyOf.items[i]);
      }
    }
    if sel.allOf.Branches? {
      forall i | 0 <= i < |sel.allOf.items| ensures SelectionReadsSame(lang, doc, sel.allOf.items[i]) {
        TextReadsSame(lang, doc, sel.allOf.items[i]);
      }
    }
    if sel.neg.Negated? { TextReadsSame(lang, doc, sel.neg.sel); }
  }

  /** The case the documentation speaks of: non-empty strings over fields that are text or absent. */
  lemma {:induction false} TextRoundTrip(reader: Reader, doc: Doc, sel: Selection)
    requires ReaderOk(reader) && SelectionOk(reader, sel) && TextSelection(sel)
    requires TextFields(doc, sel)
    requires ExportThenImport(reader, sel).Some?
    ensures Matches(reader.lang, doc, ExportThenImport(reader, sel).value) <==> Matches(reader.lang, doc, sel)
  {
    TextReadsSame(reader.lang, doc, sel);
    ExportImportKeepsMeaning(reader, doc, sel);
  }

  // ----- where it fails -----

  /** What `Null` after a list operator's key is read as. */
  function EmptyReadAs(field: string, base: BaseOp): Expected {
    if base == In then Plain(Null)
    else if WritesAll(base) || (field == RAW_MESSAGE && base == ContainsAny) then Op(base, List([]))
    else if base == ContainsAny then Op(Contains, Str("None"))
    else if base == StartsWithAny then Op(StartsWith, Str("None"))
    else Op(EndsWith, Str("None"))
  }

  /** The event values that what is read back matches although an empty list matches nothing. */
  predicate TakenForEmpty(lang: Lang, actual: Value, field: string, base: BaseOp) {
    var text := TextOf(lang, actual);
    match base
    case In => actual == Null
    case ContainsAny => field != RAW_MESSAGE && Includes(lang, text, Str("None"))
    case StartsWithAny => Begins(lang, text, Str("None"))
    case EndsWithAny => Ends(lang, text, Str("None"))
    case _ => false
  }

  /** An empty list is written as a key with nothing after it, which reads as null. For every list
      operator, what is read back matches the same events if and only if the event's value is not one
      that null, or its text, matches: a missing field for `in`, a text with "None" in its place for
      the text operators, and nothing for the `all` operators. */
  lemma EmptyListReadBackIff(reader: Reader, doc: Doc, field: string, base: BaseOp)
    requires ReaderOk(reader) && FieldOk(reader, field) && TakesList(base)
    ensures var sel, read := Flat([(field, Op(base, List([])))]), Flat([(field, EmptyReadAs(field, base))]);
      && ExportThenImport(reader, sel) == Some(read)
      && ((Matches(reader.lang, doc, read) <==> Matches(reader.lang, doc, sel)) <==>
          !TakenForEmpty(reader.lang, doc(field), field, base))
  {
    var expected, again := Op(base, List([])), EmptyReadAs(field, base);
    EmptyOpComesBack(reader, field, base);
    OneFieldRoundTrip(reader, field, expected, KeyFor(field, base), again);
    OneField(reader.lang, doc, field, expected);
    OneField(reader.lang, doc, field, again);
    EmptyMeans(reader.lang, doc(field), field, base);
  }

  /** An empty list satisfies the `all` operators and no other. */
  lemma EmptyHolds(lang: Lang, actual: Value, base: BaseOp)
    requires TakesList(base)
    ensures MatchExpected(lang, actual, Op(base, List([]))) <==> WritesAll(base)
  {
    OneOp(lang, actual, Entry(Test(base, false), List([])));
  }

  lemma EmptyMeans(lang: Lang, actual: Value, field: string, base: BaseOp)
    requires TakesList(base)
    ensures (MatchExpected(lang, actual, EmptyReadAs(field, base)) <==>
      MatchExpected(lang, actual, Op(base, List([])))) <==>
      !TakenForEmpty(lang, actual, field, base)
  {
    EmptyHolds(lang, actual, base);
    var again := EmptyReadAs(field, base);
    if again.Ops? { OneOp(lang, actual, again.entries[0]); }
  }

  /** A plain empty list too is read back as null: the same events match if and only if the field is there. */
  lemma EmptyPlainListReadBackIff(reader: Reader, doc: Doc, field: string)
    requires ReaderOk(reader) && FieldOk(reader, field)
    ensures var sel, read := Flat([(field, Plain(List([])))]), Flat([(field, Plain(Null))]);
      && ExportThenImport(reader, sel) == Some(read)
      && ((Matches(reader.lang, doc, read) <==> Matches(reader.lang, doc, sel)) <==> doc(field) != Null)
  {
    var expected, again := Plain(List([])), Plain(Null);
    KeyPlain(reader, field);
    OneFieldRoundTrip(reader, field, expected, field, again);
    OneField(reader.lang, doc, field, expected);
    OneField(reader.lang, doc, field, again);
  }

  lemma EmptyOpComesBack(reader: Reader, field: string, base: BaseOp)
    requires ReaderOk(reader) && FieldOk(reader, field) && TakesList(base)
    ensures ImportField(reader, KeyFor(field, base), Null) == Some((field, EmptyReadAs(field, base)))
  {
    if base == In {
      EmptyBareComesBack(reader, field);
    } else if field == RAW_MESSAGE && base == ContainsAny {
      EmptyKeywordsComeBack(reader);
    } else if field == RAW_MESSAGE && base == ContainsAll {
      EmptyRawAllComesBack(reader);
    } else if WritesAll(base) {
      EmptyAllComesBack(reader, field, base);
    } else {
      EmptyOneComesBack(reader, field, base);
    }
  }

  lemma EmptyBareComesBack(reader: Reader, field: string)
    requires ReaderOk(reader) && FieldOk(reader, field)
    ensures ImportField(reader, KeyFor(field, In), Null) == Some((field, Plain(Null)))
  {
    KeyPlain(reader, field);
  }

  lemma EmptyKeywordsComeBack(reader: Reader)
    ensures ImportField(reader, KeyFor(RAW_MESSAGE, ContainsAny), Null)
      == Some((RAW_MESSAGE, Op(ContainsAny, List([]))))
  {
  }

  lemma EmptyRawAllComesBack(reader: Reader)
    requires ReaderOk(reader)
    ensures ImportField(reader, KeyFor(RAW_MESSAGE, ContainsAll), Null)
      == Some((RAW_MESSAGE, Op(ContainsAll, List([]))))
  {
    KeyRawAll(reader);
    assert "'|all'"[0] != KEYWORDS[0];
    assert Texts(reader.lang, []) == [];
  }

  lemma EmptyAllComesBack(reader: Reader, field: string, base: BaseOp)
    requires ReaderOk(reader) && FieldOk(reader, field) && WritesAll(base)
      && !(field == RAW_MESSAGE && base == ContainsAll)
    ensures ImportField(reader, KeyFor(field, base), Null) == Some((field, Op(base, List([]))))
  {
    EmptyAllMaps(reader.lang, base);
    var m := ModifierOf(base).value;
    ImportsAll(reader, field, m, Null);
  }

  lemma EmptyOneComesBack(reader: Reader, field: string, base: BaseOp)
    requires ReaderOk(reader) && FieldOk(reader, field)
    requires base in {ContainsAny, StartsWithAny, EndsWithAny} && !(field == RAW_MESSAGE && base == ContainsAny)
    ensures ImportField(reader, KeyFor(field, base), Null) == Some((field, EmptyReadAs(field, base)))
  {
    EmptyOneMaps(reader.lang, field, base);
    ImportsOne(reader, field, ModifierOf(base).value, Null);
  }

  lemma EmptyOneMaps(lang: Lang, field: string, base: BaseOp)
    requires base in {ContainsAny, StartsWithAny, EndsWithAny} && !(field == RAW_MESSAGE && base == ContainsAny)
    ensures MapFieldValue(lang, Null, ModifierOf(base)) == EmptyReadAs(field, base)
  {
  }

  lemma EmptyAllMaps(lang: Lang, base: BaseOp)
    requires WritesAll(base)
    ensures MapFieldValue(lang, Null, Some(ModifierOf(base).value + "_all")) == Op(base, List([]))
  {
    assert Texts(lang, []) == [];
    assert "contains" + "_all" == "contains_all";
    assert "startswith" + "_all" == "startswith_all";
    assert "endswith" + "_all" == "endswith_all";
  }

  /** A value or a single operator that is not negated stays on the positive side. */
  predicate StaysPositive(expected: Expected) {
    expected.Ops? ==> |expected.entries| == 1 && expected.entries[0].op.Test? && !expected.entries[0].op.negated
  }

  lemma PositiveSplits(field: string, expected: Expected)
    requires StaysPositive(expected)
    ensures var fields := [(field, expected)];
      FlatBlocks(fields) == [("selection", fields)] && FlatTerms(fields) == [Block("selection")]
  {
    var fields := [(field, expected)];
    assert fields[1..] == [] && SplitSelection([]) == ([], []);
    if expected.Ops? {
      assert expected.entries[1..] == [];
      assert Kept(expected.entries) == expected.entries && Filtered(expected.entries) == [];
      assert Ops(Kept(expected.entries)) == expected;
    }
    assert [(field, expected)] + [] == fields;
    assert SplitSelection(fields).0 == fields && SplitSelection(fields).1 == [];
    assert FilterBlocks([], 1, false) == [];
    assert FlatBlocks(fields)[1..] == [];
  }

  /** A single field, written with an empty list under `key`, is read back as that key with null. */
  lemma OneFieldRoundTrip(reader: Reader, field: string, expected: Expected, key: string, again: Expected)
    requires StaysPositive(expected) && ExportField(field, expected) == Some((key, List([])))
    requires ImportField(reader, key, Null) == Some((field, again))
    ensures ExportThenImport(reader, Flat([(field, expected)])) == Some(Flat([(field, again)]))
  {
    var sel, read := Flat([(field, expected)]), Flat([(field, again)]);
    PositiveSplits(field, expected);
    FlatExport(sel);
    EmptyValueComesBack(reader, field, expected, key, again);
    var table := RereadTable(reader, FlatBlocks(sel.fields));
    assert table.block("selection") == Some(read);
    OneBlockCompiles(table, "selection", read);
    FlatSpells(sel.fields);
    SpellableList([Block("selection")]);
    assert SpellableOrs([AndTree([Block("selection")])]);
    ParseIffSpells(PrintOr(OrTree([AndTree([Block("selection")])])), OrTree([AndTree([Block("selection")])]));
  }

  lemma EmptyValueComesBack(reader: Reader, field: string, expected: Expected, key: string, again: Expected)
    requires ExportField(field, expected) == Some((key, List([])))
    requires ImportField(reader, key, Null) == Some((field, again))
    ensures Reread(reader, [(field, expected)]) == Some(Flat([(field, again)]))
  {
    assert ReadBack(reader.chars, List([])) == Null;
    WrittenSnoc(reader.chars, [], field, expected);
    assert [] + [(field, expected)] == [(field, expected)];
    assert Written(reader.chars, [(field, expected)]) == Some([] + [(key, Null)]);
    ImportSnoc(reader, [], key, Null);
  }

  lemma {:induction false} OneBlockCompiles(table: Table, name: string, sel: Selection)
    requires table.block(name) == Some(sel) && IsFlat(sel) && sel.fields != []
    ensures CompileOr(table, [AndTree([Block(name)])]) == Some(sel)
  {
    var terms := [Block(name)];
    assert terms[1..] == [] && CompileAnds(table, []) == Some([]);
    assert CompileNot(table, terms[0]) == Some(sel);
    assert [sel] + [] == [sel];
    assert CompileAnds(table, terms) == Some([sel]);
    assert [sel][1..] == [];
    assert FlattenAll([sel]) == [sel];
    assert CompileAnd(table, terms) == Some(sel);
    var parts := [AndTree(terms)];
    assert parts[1..] == [] && CompileOrs(table, []) == Some([]);
    assert CompileOrs(table, parts) == Some([sel]);
    assert FlattenAny([sel]) == [sel];
  }
}
