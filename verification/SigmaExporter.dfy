/** The exporter itself, `_export_boolean_detection` of src/autosiem/sigma.py: it appends blocks and
    bumps two counters while it walks the selection. */
module SigmaExporter {
  import opened Common
  import opened Detection
  import opened SigmaCondition
  import opened SigmaExport

  lemma {:induction false} IncludesStep(out: Out, positive: Fields, i: nat)
    requires i < |positive|
    ensures EmitIncludes(out, positive[i..]) ==
      var rest := positive[i + 1..];
      if Several(positive[i].1) then
        var (out1, terms) := EmitOps(out, false, positive[i].0, positive[i].1.entries);
        var (out2, more, simple) := EmitIncludes(out1, rest);
        (out2, terms + more, simple)
      else
        var (out2, more, simple) := EmitIncludes(out, rest);
        (out2, more, [positive[i]] + simple)
  {
    assert positive[i..][1..] == positive[i + 1..];
  }

  class Exporter {
    var blocks: seq<(string, Fields)>
    var selectionIndex: nat
    var filterIndex: nat

    constructor ()
      ensures State() == Out([], 0, 0)
    {
      blocks, selectionIndex, filterIndex := [], 0, 0;
    }

    ghost function State(): Out
      reads this
    {
      Out(blocks, selectionIndex, filterIndex)
    }

    method AddBlock(filter: bool, fields: Fields) returns (name: string)
      modifies this
      ensures (State(), name) == SigmaExport.AddBlock(old(State()), filter, fields)
    {
      if filter {
        filterIndex := filterIndex + 1;
        name := BlockName(true, filterIndex);
      } else {
        selectionIndex := selectionIndex + 1;
        name := BlockName(false, selectionIndex);
      }
      blocks := blocks + [(name, fields)];
    }

    method EmitOps(filter: bool, field: string, entries: seq<Entry>) returns (terms: seq<NotTree>)
      modifies this
      ensures (State(), terms) == SigmaExport.EmitOps(old(State()), filter, field, entries)
    {
      terms := [];
      assert entries[0..] == entries;
      ghost var all := SigmaExport.EmitOps(State(), filter, field, entries).1;
      assert [] + all == all;
      for i := 0 to |entries|
        invariant var (end, more) := SigmaExport.EmitOps(State(), filter, field, entries[i..]);
          (end, terms + more) == SigmaExport.EmitOps(old(State()), filter, field, entries)
      {
        assert entries[i..][1..] == entries[i + 1..];
        ghost var (end, more) := SigmaExport.EmitOps(State(), filter, field, entries[i..]);
        var name := AddBlock(filter, [(field, Ops([entries[i]]))]);
        ghost var rest := SigmaExport.EmitOps(State(), filter, field, entries[i + 1..]).1;
        assert terms + [Term(filter, name)] + rest == terms + more;
        terms := terms + [Term(filter, name)];
      }
      assert terms + [] == terms;
    }

    method EmitIncludes(positive: Fields) returns (terms: seq<NotTree>, simple: Fields)
      modifies this
      ensures (State(), terms, simple) == SigmaExport.EmitIncludes(old(State()), positive)
    {
      terms, simple := [], [];
      assert positive[0..] == positive;
      ghost var all := SigmaExport.EmitIncludes(State(), positive);
      assert [] + all.1 == all.1 && [] + all.2 == all.2;
      for i := 0 to |positive|
        invariant var (end, more, others) := SigmaExport.EmitIncludes(State(), positive[i..]);
          (end, terms + more, simple + others) == SigmaExport.EmitIncludes(old(State()), positive)
      {
        IncludesStep(State(), positive, i);
        ghost var (end, more, others) := SigmaExport.EmitIncludes(State(), positive[i..]);
        if Several(positive[i].1) {
          var own := EmitOps(false, positive[i].0, positive[i].1.entries);
          ghost var rest := SigmaExport.EmitIncludes(State(), positive[i + 1..]).1;
          assert terms + own + rest == terms + more;
          terms := terms + own;
        } else {
          ghost var rest := SigmaExport.EmitIncludes(State(), positive[i + 1..]).2;
          assert simple + [positive[i]] + rest == simple + others;
          simple := simple + [positive[i]];
        }
      }
      assert terms + [] == terms && simple + [] == simple;
    }

    method EmitFilters(filters: Fields) returns (terms: seq<NotTree>)
      modifies this
      ensures (State(), terms) == SigmaExport.EmitFilters(old(State()), filters)
    {
      terms := [];
      assert filters[0..] == filters;
      ghost var all := SigmaExport.EmitFilters(State(), filters).1;
      assert [] + all == all;
      for i := 0 to |filters|
        invariant var (end, more) := SigmaExport.EmitFilters(State(), filters[i..]);
          (end, terms + more) == SigmaExport.EmitFilters(old(State()), filters)
      {
        assert filters[i..][1..] == filters[i + 1..];
        ghost var (end, more) := SigmaExport.EmitFilters(State(), filters[i..]);
        var own;
        if Several(filters[i].1) {
          own := EmitOps(true, filters[i].0, filters[i].1.entries);
        } else {
          var name := AddBlock(true, [filters[i]]);
          own := [Term(true, name)];
        }
        ghost var rest := SigmaExport.EmitFilters(State(), filters[i + 1..]).1;
        assert terms + own + rest == terms + more;
        terms := terms + own;
      }
      assert terms + [] == terms;
    }

    method EmitFields(fields: Fields) returns (terms: seq<NotTree>)
      modifies this
      ensures (State(), terms) == SigmaExport.EmitFields(old(State()), fields)
    {
      var (positive, filters) := SplitSelection(fields);
      var simple;
      terms, simple := EmitIncludes(positive);
      assert terms + [] == terms;
      if simple != [] {
        var name := AddBlock(false, simple);
        terms := terms + [Term(false, name)];
      }
      var negative := EmitFilters(filters);
      terms := terms + negative;
    }

    /** `None` stands for the exporter's exception. */
    method Emit(node: Selection) returns (r: Option<NotTree>)
      modifies this
      ensures SigmaExport.Emit(old(State()), node) == if r.None? then None else Some((State(), r.value))
      decreases node
    {
      var terms := EmitFields(node.fields);
      assert terms + [] == terms;
      if node.anyOf.Branches? {
        var any := EmitList(node.anyOf.items);
        if any.None? { return None; }
        terms := terms + [Group(OrTree(Singles(any.value)))];
      }
      assert terms + [] == terms;
      if node.allOf.Branches? {
        var all := EmitList(node.allOf.items);
        if all.None? { return None; }
        terms := terms + [Ands(all.value)];
      }
      assert terms + [] == terms;
      if node.neg.Negated? {
        var inner := Emit(node.neg.sel);
        if inner.None? { return None; }
        terms := terms + [Not(Ands([inner.value]))];
      }
      r := if terms == [] then None else Some(Joined(terms));
    }

    method EmitList(nodes: seq<Selection>) returns (r: Option<seq<NotTree>>)
      modifies this
      ensures SigmaExport.EmitList(old(State()), nodes) == if r.None? then None else Some((State(), r.value))
      decreases nodes
    {
      if nodes == [] { return Some([]); }
      var first := Emit(nodes[0]);
      if first.None? { return None; }
      var rest := EmitList(nodes[1..]);
      r := if rest.None? then None else Some([first.value] + rest.value);
    }
  }
}
