/** The Boolean constructors of src/autosiem/sigma.py: they flatten, merge and negate
    selections instead of nesting them, and still mean or, and, not. */
module SigmaCombine {
  import opened Common
  import opened Detection

  // ----- or -----

  predicate OnlyAnyOf(sel: Selection) {
    sel.fields == [] && sel.anyOf.Branches? && sel.allOf.Absent? && sel.neg.NotNegated?
  }

  predicate OnlyAllOf(sel: Selection) {
    sel.fields == [] && sel.allOf.Branches? && sel.anyOf.Absent? && sel.neg.NotNegated?
  }

  predicate OnlyNot(sel: Selection) {
    sel.fields == [] && sel.neg.Negated? && sel.anyOf.Absent? && sel.allOf.Absent?
  }

  function FlattenAny(parts: seq<Selection>): seq<Selection> {
    if parts == [] then []
    else (if OnlyAnyOf(parts[0]) then parts[0].anyOf.items else [parts[0]]) + FlattenAny(parts[1..])
  }

  function SelectionAny(parts: seq<Selection>): Selection {
    var flat := FlattenAny(parts);
    if |flat| == 1 then flat[0] else Selection([], Branches(flat), Absent, NotNegated)
  }

  // ----- and -----

  function FlattenAll(parts: seq<Selection>): seq<Selection> {
    if parts == [] then []
    else (if OnlyAllOf(parts[0]) then parts[0].allOf.items else [parts[0]]) + FlattenAll(parts[1..])
  }

  function AsEntries(expected: Expected): seq<Entry> {
    match expected
    case Plain(value) => [Entry(Test(Equals, false), value)]
    case Ops(entries) => entries
  }

  function IndexOf(fields: seq<(string, Expected)>, field: string): (i: nat)
    ensures i <= |fields| && (i < |fields| ==> fields[i].0 == field)
  {
    if fields == [] then 0 else if fields[0].0 == field then 0 else 1 + IndexOf(fields[1..], field)
  }

  predicate SharesOperator(a: seq<Entry>, b: seq<Entry>) {
    exists i, j :: 0 <= i < |a| && 0 <= j < |b| && a[i].op == b[j].op
  }

  /** Adds one field to a flat selection; `None` where the same operator would be needed twice. */
  function MergeField(fields: seq<(string, Expected)>, field: string,
          expected: Expected): Option<seq<(string, Expected)>>
  {
    var i := IndexOf(fields, field);
    if i == |fields| then Some(fields + [(field, expected)])
    else
      var current, added := AsEntries(fields[i].1), AsEntries(expected);
      if SharesOperator(current, added) then None
      else Some(fields[i := (field, Ops(current + added))])
  }

  function MergeFields(into: seq<(string, Expected)>, from: seq<(string, Expected)>): Option<seq<(string, Expected)>>
    decreases |from|
  {
    if from == [] then Some(into)
    else
      match MergeField(into, from[0].0, from[0].1)
      case None => None
      case Some(more) => MergeFields(more, from[1..])
  }

  function MergeParts(into: seq<(string, Expected)>, parts: seq<Selection>): Option<seq<(string, Expected)>>
    decreases |parts|
  {
    if parts == [] then Some(into)
    else
      match MergeFields(into, parts[0].fields)
      case None => None
      case Some(more) => MergeParts(more, parts[1..])
  }

  predicate AllFlat(parts: seq<Selection>) {
    forall i :: 0 <= i < |parts| ==> IsFlat(parts[i])
  }

  function SelectionAll(parts: seq<Selection>): Selection {
    var flat := FlattenAll(parts);
    if |flat| == 1 then flat[0]
    else
      var merged := if AllFlat(flat) then MergeParts([], flat) else None;
      match merged
      case Some(fields) => Flat(fields)
      case None => Selection([], Absent, Branches(flat), NotNegated)
  }

  // ----- not -----

  /** `None` for several operators on one field, which cannot be negated as one. */
  function NegateExpected(expected: Expected): Option<Expected> {
    match expected
    case Plain(value) => Some(Ops([Entry(Test(Equals, true), value)]))
    case Ops(entries) =>
      if |entries| != 1 then None
      else
        match entries[0].op
        case Exists => Some(Ops([Entry(Exists, Bool(!Truthy(entries[0].value)))]))
        case Test(base, negated) => Some(Ops([Entry(Test(base, !negated), entries[0].value)]))
  }

  function SelectionNot(sel: Selection): Option<Selection> {
    if OnlyNot(sel) then Some(sel.neg.sel)
    else if IsFlat(sel) && |sel.fields| == 1 then
      match NegateExpected(sel.fields[0].1)
      case None => None
      case Some(negated) => Some(Flat([(sel.fields[0].0, negated)]))
    else Some(Selection([], Absent, Absent, Negated(sel)))
  }

  // ----- meanings -----

  ghost predicate AllCoherent(lang: Lang, doc: Doc, parts: seq<Selection>) {
    forall i :: 0 <= i < |parts| ==> Coherent(lang, doc, parts[i])
  }

  ghost predicate SomeMatches(lang: Lang, doc: Doc, parts: seq<Selection>) {
    exists i :: 0 <= i < |parts| && Matches(lang, doc, parts[i])
  }

  ghost predicate AllMatch(lang: Lang, doc: Doc, parts: seq<Selection>) {
    forall i :: 0 <= i < |parts| ==> Matches(lang, doc, parts[i])
  }

  lemma SomeSplit(lang: Lang, doc: Doc, a: seq<Selection>, b: seq<Selection>)
    ensures SomeMatches(lang, doc, a + b) <==> SomeMatches(lang, doc, a) || SomeMatches(lang, doc, b)
  {
    if SomeMatches(lang, doc, a) {
      var i :| 0 <= i < |a| && Matches(lang, doc, a[i]);
      assert (a + b)[i] == a[i];
    }
    if SomeMatches(lang, doc, b) {
      var i :| 0 <= i < |b| && Matches(lang, doc, b[i]);
      assert (a + b)[|a| + i] == b[i];
    }
  }

  lemma AllSplit(lang: Lang, doc: Doc, a: seq<Selection>, b: seq<Selection>)
    ensures AllMatch(lang, doc, a + b) <==> AllMatch(lang, doc, a) && AllMatch(lang, doc, b)
    ensures AllCoherent(lang, doc, a) && AllCoherent(lang, doc, b) ==> AllCoherent(lang, doc, a + b)
  {
    forall i | 0 <= i < |b| && AllMatch(lang, doc, a + b) ensures Matches(lang, doc, b[i]) {
      assert (a + b)[|a| + i] == b[i];
    }
    forall i | 0 <= i < |a| && AllMatch(lang, doc, a + b) ensures Matches(lang, doc, a[i]) {
      assert (a + b)[i] == a[i];
    }
  }

  lemma {:induction false} SomeOne(lang: Lang, doc: Doc, part: Selection)
    ensures SomeMatches(lang, doc, [part]) <==> Matches(lang, doc, part)
  {
    assert [part][0] == part;
  }

  /** An alternative opened up says the same as itself. */
  lemma {:induction false} OpenedAnyMeans(lang: Lang, doc: Doc, part: Selection)
    requires OnlyAnyOf(part)
    ensures SomeMatches(lang, doc, part.anyOf.items) <==> Matches(lang, doc, part)
    ensures Coherent(lang, doc, part) ==> AllCoherent(lang, doc, part.anyOf.items)
  {
  }

  lemma {:induction false} FlattenAnyMeans(lang: Lang, doc: Doc, parts: seq<Selection>)
    ensures SomeMatches(lang, doc, FlattenAny(parts)) <==> SomeMatches(lang, doc, parts)
    ensures AllCoherent(lang, doc, parts) ==> AllCoherent(lang, doc, FlattenAny(parts))
  {
    if parts != [] {
      var part, rest := parts[0], parts[1..];
      FlattenAnyMeans(lang, doc, rest);
      var head := if OnlyAnyOf(part) then part.anyOf.items else [part];
      SomeOne(lang, doc, part);
      if OnlyAnyOf(part) { OpenedAnyMeans(lang, doc, part); }
      SomeSplit(lang, doc, head, FlattenAny(rest));
      AllSplit(lang, doc, head, FlattenAny(rest));
      assert [part] + rest == parts;
      SomeSplit(lang, doc, [part], rest);
    }
  }

  lemma {:induction false} FlattenAllMeans(lang: Lang, doc: Doc, parts: seq<Selection>)
    ensures AllMatch(lang, doc, FlattenAll(parts)) <==> AllMatch(lang, doc, parts)
    ensures AllCoherent(lang, doc, parts) ==> AllCoherent(lang, doc, FlattenAll(parts))
  {
    if parts != [] {
      FlattenAllMeans(lang, doc, parts[1..]);
      var head := if OnlyAllOf(parts[0]) then parts[0].allOf.items else [parts[0]];
      assert AllMatch(lang, doc, head) <==> Matches(lang, doc, parts[0]) by {
        if !OnlyAllOf(parts[0]) { assert head[0] == parts[0]; }
      }
      AllSplit(lang, doc, head, FlattenAll(parts[1..]));
      assert [parts[0]] + parts[1..] == parts;
      AllSplit(lang, doc, [parts[0]], parts[1..]);
      assert AllMatch(lang, doc, [parts[0]]) <==> Matches(lang, doc, parts[0]) by {
        assert [parts[0]][0] == parts[0];
      }
    }
  }

  /** Flattening alternatives keeps their disjunction. */
  lemma {:induction false} AnyMeansOr(lang: Lang, doc: Doc, parts: seq<Selection>)
    ensures Matches(lang, doc, SelectionAny(parts)) <==> SomeMatches(lang, doc, parts)
    ensures AllCoherent(lang, doc, parts) ==> Coherent(lang, doc, SelectionAny(parts))
  {
    FlattenAnyMeans(lang, doc, parts);
  }

  // ----- merging -----

  ghost predicate FieldsCoherent(lang: Lang, doc: Doc, fields: seq<(string, Expected)>) {
    forall i :: 0 <= i < |fields| ==> ExpectedCoherent(lang, doc(fields[i].0), fields[i].1)
  }

  /** For a coherent field, its operators say the same as the field itself. */
  lemma EntriesMean(lang: Lang, actual: Value, expected: Expected)
    requires ExpectedCoherent(lang, actual, expected)
    ensures AsEntries(expected) != []
    ensures MatchOps(lang, actual, AsEntries(expected)) <==> MatchExpected(lang, actual, expected)
  {
    if expected.Plain? { OneOp(lang, actual, Entry(Test(Equals, false), expected.value)); }
  }

  lemma OneOp(lang: Lang, actual: Value, e: Entry)
    ensures MatchOps(lang, actual, [e]) <==> MatchEntry(lang, actual, e)
  {
    assert [e][0] == e;
  }

  lemma {:induction false} OneField(lang: Lang, doc: Doc, field: string, expected: Expected)
    ensures Matches(lang, doc, Flat([(field, expected)])) <==> MatchExpected(lang, doc(field), expected)
  {
    assert Flat([(field, expected)]).fields[0] == (field, expected);
  }

  lemma OpsSplit(lang: Lang, actual: Value, a: seq<Entry>, b: seq<Entry>)
    requires a != [] && b != []
    ensures MatchOps(lang, actual, a + b) <==> MatchOps(lang, actual, a) && MatchOps(lang, actual, b)
  {
    forall i | 0 <= i < |b| && MatchOps(lang, actual, a + b) ensures MatchEntry(lang, actual, b[i]) {
      assert (a + b)[|a| + i] == b[i];
    }
    forall i | 0 <= i < |a| && MatchOps(lang, actual, a + b) ensures MatchEntry(lang, actual, a[i]) {
      assert (a + b)[i] == a[i];
    }
  }

  lemma MergeFieldMeans(lang: Lang, doc: Doc, fields: seq<(string, Expected)>, field: string, expected: Expected)
    requires FieldsCoherent(lang, doc, fields) && ExpectedCoherent(lang, doc(field), expected)
    requires MergeField(fields, field, expected).Some?
    ensures FieldsCoherent(lang, doc, MergeField(fields, field, expected).value)
    ensures MatchFields(lang, doc, MergeField(fields, field, expected).value)
       <==> MatchFields(lang, doc, fields) && MatchExpected(lang, doc(field), expected)
  {
    var i := IndexOf(fields, field);
    var merged := MergeField(fields, field, expected).value;
    if i == |fields| {
      assert merged[|fields|] == (field, expected);
      assert forall j :: 0 <= j < |fields| ==> merged[j] == fields[j];
    } else {
      EntriesMean(lang, doc(field), fields[i].1);
      EntriesMean(lang, doc(field), expected);
      OpsSplit(lang, doc(field), AsEntries(fields[i].1), AsEntries(expected));
      if MatchFields(lang, doc, merged) {
        assert MatchExpected(lang, doc(merged[i].0), merged[i].1);
        forall j | 0 <= j < |fields| ensures MatchExpected(lang, doc(fields[j].0), fields[j].1) {
          if j != i { assert merged[j] == fields[j]; }
        }
      }
    }
  }

  lemma {:induction false} MergeFieldsMeans(lang: Lang, doc: Doc, into: seq<(string, Expected)>,
          from: seq<(string, Expected)>)
    requires FieldsCoherent(lang, doc, into) && FieldsCoherent(lang, doc, from)
    requires MergeFields(into, from).Some?
    ensures FieldsCoherent(lang, doc, MergeFields(into, from).value)
    ensures MatchFields(lang, doc, MergeFields(into, from).value) <==>
      MatchFields(lang, doc, into) && MatchFields(lang, doc, from)
    decreases |from|
  {
    if from != [] {
      MergeFieldMeans(lang, doc, into, from[0].0, from[0].1);
      var more := MergeField(into, from[0].0, from[0].1).value;
      assert FieldsCoherent(lang, doc, from[1..]) by {
        assert forall i :: 0 <= i < |from[1..]| ==> from[1..][i] == from[i + 1];
      }
      MergeFieldsMeans(lang, doc, more, from[1..]);
      assert MatchFields(lang, doc, from) <==>
        MatchExpected(lang, doc(from[0].0), from[0].1) && MatchFields(lang, doc, from[1..]) by {
        assert forall i :: 0 < i < |from| ==> from[i] == from[1..][i - 1];
      }
    }
  }

  lemma {:induction false} MergePartsMeans(lang: Lang, doc: Doc, into: seq<(string, Expected)>, parts: seq<Selection>)
    requires FieldsCoherent(lang, doc, into) && AllCoherent(lang, doc, parts) && AllFlat(parts)
    requires MergeParts(into, parts).Some?
    ensures FieldsCoherent(lang, doc, MergeParts(into, parts).value)
    ensures MatchFields(lang, doc, MergeParts(into, parts).value) <==>
      MatchFields(lang, doc, into) && AllMatch(lang, doc, parts)
    decreases |parts|
  {
    if parts != [] {
      MergeFieldsMeans(lang, doc, into, parts[0].fields);
      MergePartsMeans(lang, doc, MergeFields(into, parts[0].fields).value, parts[1..]);
      assert AllMatch(lang, doc, parts) <==> Matches(lang, doc, parts[0]) && AllMatch(lang, doc, parts[1..]) by {
        assert forall i :: 0 < i < |parts| ==> parts[i] == parts[1..][i - 1];
      }
    }
  }

  /** Flattening, and merging flat parts into one map, keeps their conjunction. */
  lemma {:induction false} AllMeansAnd(lang: Lang, doc: Doc, parts: seq<Selection>)
    requires AllCoherent(lang, doc, parts)
    ensures Matches(lang, doc, SelectionAll(parts)) <==> AllMatch(lang, doc, parts)
    ensures Coherent(lang, doc, SelectionAll(parts))
  {
    FlattenAllMeans(lang, doc, parts);
    var flat := FlattenAll(parts);
    if |flat| != 1 && AllFlat(flat) && MergeParts([], flat).Some? {
      MergePartsMeans(lang, doc, [], flat);
    }
  }

  /** Removing a double negation, or flipping a single operator, negates. */
  lemma {:induction false} NotMeansNot(lang: Lang, doc: Doc, sel: Selection)
    requires Coherent(lang, doc, sel) && SelectionNot(sel).Some?
    ensures Matches(lang, doc, SelectionNot(sel).value) <==> !Matches(lang, doc, sel)
    ensures Coherent(lang, doc, SelectionNot(sel).value)
  {
    if !OnlyNot(sel) && IsFlat(sel) && |sel.fields| == 1 {
      var field, expected := sel.fields[0].0, sel.fields[0].1;
      assert sel == Flat([(field, expected)]);
      var negated := NegateExpected(expected).value;
      OneField(lang, doc, field, expected);
      OneField(lang, doc, field, negated);
      OneOp(lang, doc(field), negated.entries[0]);
      if expected.Ops? {
        OneOp(lang, doc(field), expected.entries[0]); assert expected.entries == [expected.entries[0]];
      }
    }
  }

  /** For a single plain value, coherence is exactly what negation needs: where it fails, the
      negated selection gives the wrong answer. */
  lemma {:induction false} PlainNegationIff(lang: Lang, doc: Doc, field: string, value: Value)
    ensures var sel := Flat([(field, Plain(value))]);
      (Matches(lang, doc, SelectionNot(sel).value) <==> !Matches(lang, doc, sel)) <==>
        ExpectedCoherent(lang, doc(field), Plain(value))
  {
    var sel := Flat([(field, Plain(value))]);
    var negated := SelectionNot(sel).value;
    var entry := Entry(Test(Equals, true), value);
    assert negated == Flat([(field, Ops([entry]))]);
    OneField(lang, doc, field, Ops([entry]));
    OneField(lang, doc, field, Plain(value));
    OneOp(lang, doc(field), entry);
  }

  /** A filter on an absent field (`null`) does not negate exactly: the negation also matches
      events where the field is absent. */
  lemma {:induction false} NullDoesNotNegate(lang: Lang, doc: Doc, field: string)
    requires doc(field) == Null
    ensures var sel := Flat([(field, Plain(Null))]);
      Matches(lang, doc, sel) && Matches(lang, doc, SelectionNot(sel).value)
  {
    PlainNegationIff(lang, doc, field, Null);
    assert Matches(lang, doc, Flat([(field, Plain(Null))]));
    ScalarCoherentIff(lang, Null, Null);
  }
}
