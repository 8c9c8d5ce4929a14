/** The recursive-descent parser object of src/autosiem/sigma.py, which compiles as it reads. */
module SigmaParser {
  import opened Common
  import opened Detection
  import opened SigmaCombine
  import opened SigmaCondition

  function Append(done: Option<seq<Selection>>, rest: Option<seq<Selection>>): Option<seq<Selection>> {
    if done.None? || rest.None? then None else Some(done.value + rest.value)
  }

  lemma {:induction false} CompileOrsSplit(table: Table, a: seq<AndTree>, b: seq<AndTree>)
    ensures CompileOrs(table, a + b) == Append(CompileOrs(table, a), CompileOrs(table, b))
  {
    if a == [] {
      assert a + b == b;
      if CompileOrs(table, b).Some? { assert [] + CompileOrs(table, b).value == CompileOrs(table, b).value; }
    } else {
      assert (a + b)[1..] == a[1..] + b;
      CompileOrsSplit(table, a[1..], b);
      var first, rest, more := CompileAnd(table, a[0].parts), CompileOrs(table, a[1..]), CompileOrs(table, b);
      if first.Some? && rest.Some? && more.Some? {
        assert [first.value] + (rest.value + more.value) == ([first.value] + rest.value) + more.value;
      }
    }
  }

  lemma {:induction false} CompileOrsOne(table: Table, a: AndTree)
    ensures CompileOrs(table, [a]) == match CompileAnd(table, a.parts) case None => None case Some(sel) => Some([sel])
  {
    assert [a][1..] == [] && CompileOrs(table, []) == Some([]);
    if CompileAnd(table, a.parts).Some? {
      assert [CompileAnd(table, a.parts).value] + [] == [CompileAnd(table, a.parts).value];
    }
  }

  lemma {:induction false} CompileAndsOne(table: Table, a: NotTree)
    ensures CompileAnds(table, [a]) == match CompileNot(table, a) case None => None case Some(sel) => Some([sel])
  {
    assert [a][1..] == [] && CompileAnds(table, []) == Some([]);
    if CompileNot(table, a).Some? {
      assert [CompileNot(table, a).value] + [] == [CompileNot(table, a).value];
    }
  }

  lemma {:induction false} CompileAndsSplit(table: Table, a: seq<NotTree>, b: seq<NotTree>)
    ensures CompileAnds(table, a + b) == Append(CompileAnds(table, a), CompileAnds(table, b))
  {
    if a == [] {
      assert a + b == b;
      if CompileAnds(table, b).Some? { assert [] + CompileAnds(table, b).value == CompileAnds(table, b).value; }
    } else {
      assert (a + b)[1..] == a[1..] + b;
      CompileAndsSplit(table, a[1..], b);
      var first, rest, more := CompileNot(table, a[0]), CompileAnds(table, a[1..]), CompileAnds(table, b);
      if first.Some? && rest.Some? && more.Some? {
        assert [first.value] + (rest.value + more.value) == ([first.value] + rest.value) + more.value;
      }
    }
  }

  /** What the rest of an `or` chain reads to, after `done`. */
  function OrsAfter(done: seq<AndTree>, rest: seq<Token>): Option<(seq<AndTree>, seq<Token>)> {
    if Head(rest) != Some(OR) then Some((done, rest))
    else
      match ParseOrs(rest[1..])
      case None => None
      case Some((more, end)) => Some((done + more, end))
  }

  function AndsAfter(done: seq<NotTree>, rest: seq<Token>): Option<(seq<NotTree>, seq<Token>)> {
    if Head(rest) != Some(AND) then Some((done, rest))
    else
      match ParseAnds(rest[1..])
      case None => None
      case Some((more, end)) => Some((done + more, end))
  }

  lemma OrsAfterStep(done: seq<AndTree>, rest: seq<Token>)
    requires Head(rest) == Some(OR)
    ensures OrsAfter(done, rest) ==
      match ParseAnds(rest[1..])
      case None => None
      case Some((ands, after)) => OrsAfter(done + [AndTree(ands)], after)
  {
    if ParseAnds(rest[1..]).Some? {
      var (ands, after) := ParseAnds(rest[1..]).value;
      if Head(after) == Some(OR) && ParseOrs(after[1..]).Some? {
        assert done + [AndTree(ands)] + ParseOrs(after[1..]).value.0
          == done + ([AndTree(ands)] + ParseOrs(after[1..]).value.0);
      }
    }
  }

  lemma AndsAfterStep(done: seq<NotTree>, rest: seq<Token>)
    requires Head(rest) == Some(AND)
    ensures AndsAfter(done, rest) ==
      match ParseNot(rest[1..])
      case None => None
      case Some((term, after)) => AndsAfter(done + [term], after)
  {
    if ParseNot(rest[1..]).Some? {
      var (term, after) := ParseNot(rest[1..]).value;
      if Head(after) == Some(AND) && ParseAnds(after[1..]).Some? {
        assert done + [term] + ParseAnds(after[1..]).value.0 == done + ([term] + ParseAnds(after[1..]).value.0);
      }
    }
  }

  lemma OrsAfterExtends(done: seq<AndTree>, rest: seq<Token>)
    ensures OrsAfter(done, rest).Some? ==> done <= OrsAfter(done, rest).value.0
  {
  }

  lemma AndsAfterExtends(done: seq<NotTree>, rest: seq<Token>)
    ensures AndsAfter(done, rest).Some? ==> done <= AndsAfter(done, rest).value.0
  {
  }

  /** Once a part of the chain has no selection, the whole has none. */
  lemma OrsFail(table: Table, done: seq<AndTree>, rest: seq<Token>, all: Option<(seq<AndTree>, seq<Token>)>)
    requires CompileOrs(table, done).None? && OrsAfter(done, rest) == all && all.Some?
    ensures CompileOr(table, all.value.0).None?
  {
    var more := all.value.0[|done|..];
    OrsAfterExtends(done, rest);
    assert all.value.0 == done + more;
    CompileOrsSplit(table, done, more);
  }

  lemma AndsFail(table: Table, done: seq<NotTree>, rest: seq<Token>, all: Option<(seq<NotTree>, seq<Token>)>)
    requires CompileAnds(table, done).None? && AndsAfter(done, rest) == all && all.Some?
    ensures CompileAnd(table, all.value.0).None?
  {
    var more := all.value.0[|done|..];
    AndsAfterExtends(done, rest);
    assert all.value.0 == done + more;
    CompileAndsSplit(table, done, more);
  }

  lemma AndsNext(table: Table, done: seq<NotTree>, next: NotTree)
    ensures CompileAnds(table, done + [next]) ==
      Append(CompileAnds(table, done), match CompileNot(table, next) case None => None case Some(sel) => Some([sel]))
  {
    CompileAndsSplit(table, done, [next]);
    CompileAndsOne(table, next);
  }

  lemma OrsNext(table: Table, done: seq<AndTree>, next: AndTree)
    ensures CompileOrs(table, done + [next]) ==
      Append(CompileOrs(table, done),
        match CompileAnd(table, next.parts) case None => None case Some(sel) => Some([sel]))
  {
    CompileOrsSplit(table, done, [next]);
    CompileOrsOne(table, next);
  }

  /** Where the `or` loop is: `parts` are the selections of what it has read. */
  ghost predicate OrsLead(table: Table, done: seq<AndTree>, parts: seq<Selection>, rest: seq<Token>,
          all: Option<(seq<AndTree>, seq<Token>)>)
  {
    CompileOrs(table, done) == Some(parts) && OrsAfter(done, rest) == all
  }

  lemma OrsStep(table: Table, done: seq<AndTree>, parts: seq<Selection>, rest: seq<Token>,
          all: Option<(seq<AndTree>, seq<Token>)>, next: Option<Selection>)
    requires OrsLead(table, done, parts, rest, all) && Head(rest) == Some(OR)
    requires next == if ParseAnds(rest[1..]).None? then None else CompileAnd(table, ParseAnds(rest[1..]).value.0)
    ensures next.None? ==> all.None? || CompileOr(table, all.value.0).None?
    ensures next.Some? ==>
      && ParseAnds(rest[1..]).Some?
      && OrsLead(table, done + [AndTree(ParseAnds(rest[1..]).value.0)], parts + [next.value],
        ParseAnds(rest[1..]).value.1, all)
  {
    OrsAfterStep(done, rest);
    if ParseAnds(rest[1..]).Some? {
      var (ands, after) := ParseAnds(rest[1..]).value;
      OrsNext(table, done, AndTree(ands));
      if next.None? && all.Some? { OrsFail(table, done + [AndTree(ands)], after, all); }
    }
  }

  /** And where the `and` loop is. */
  ghost predicate AndsLead(table: Table, done: seq<NotTree>, parts: seq<Selection>, rest: seq<Token>,
          all: Option<(seq<NotTree>, seq<Token>)>)
  {
    CompileAnds(table, done) == Some(parts) && AndsAfter(done, rest) == all
  }

  lemma AndsStep(table: Table, done: seq<NotTree>, parts: seq<Selection>, rest: seq<Token>,
          all: Option<(seq<NotTree>, seq<Token>)>, next: Option<Selection>)
    requires AndsLead(table, done, parts, rest, all) && Head(rest) == Some(AND)
    requires next == if ParseNot(rest[1..]).None? then None else CompileNot(table, ParseNot(rest[1..]).value.0)
    ensures next.None? ==> all.None? || CompileAnd(table, all.value.0).None?
    ensures next.Some? ==>
      && ParseNot(rest[1..]).Some?
      && AndsLead(table, done + [ParseNot(rest[1..]).value.0], parts + [next.value], ParseNot(rest[1..]).value.1, all)
  {
    AndsAfterStep(done, rest);
    if ParseNot(rest[1..]).Some? {
      var (term, after) := ParseNot(rest[1..]).value;
      AndsNext(table, done, term);
      if next.None? && all.Some? { AndsFail(table, done + [term], after, all); }
    }
  }

  class ConditionParser {
    const tokens: seq<Token>
    const table: Table
    var index: nat

    constructor (table: Table, tokens: seq<Token>)
      ensures this.table == table && this.tokens == tokens && index == 0
    {
      this.table, this.tokens, index := table, tokens, 0;
    }

    ghost predicate Valid()
      reads this
    {
      index <= |tokens|
    }

    function Rest(): seq<Token>
      reads this
      requires Valid()
    {
      tokens[index..]
    }

    function Peek(): Option<Token>
      reads this
      requires Valid()
      ensures Peek() == Head(Rest())
    {
      if index < |tokens| then Some(tokens[index]) else None
    }

    /** A parse error is `None`, wherever it is found. */
    method Parse() returns (r: Option<Selection>)
      requires index == 0
      modifies this`index
      ensures r == Compile(table, tokens)
    {
      assert tokens[0..] == tokens;
      if tokens == [] {
        return None;
      }
      r := ParseOr();
      if r.Some? && index != |tokens| {
        r := None;
      }
    }

    method ParseOr() returns (r: Option<Selection>)
      requires Valid()
      modifies this`index
      ensures Valid()
      ensures match ParseOrs(old(Rest()))
        case None => r.None?
        case Some((parts, rest)) => r == CompileOr(table, parts) && (r.Some? ==> Rest() == rest && index > old(index))
      decreases |tokens| - index, 4
    {
      ghost var all := ParseOrs(Rest());
      var first := ParseAnd();
      if first.None? {
        return None;
      }
      var parts := [first.value];
      ghost var done := [AndTree(ParseAnds(old(Rest())).value.0)];
      CompileOrsOne(table, done[0]);
      while Peek() == Some(OR)
        invariant Valid() && index > old(index)
        invariant OrsLead(table, done, parts, Rest(), all)
        decreases |tokens| - index
      {
        ghost var rest := Rest();
        index := index + 1;
        var next := ParseAnd();
        OrsStep(table, done, parts, rest, all, next);
        if next.None? {
          return None;
        }
        done := done + [AndTree(ParseAnds(rest[1..]).value.0)];
        parts := parts + [next.value];
      }
      r := Some(SelectionAny(parts));
    }

    method ParseAnd() returns (r: Option<Selection>)
      requires Valid()
      modifies this`index
      ensures Valid()
      ensures match ParseAnds(old(Rest()))
        case None => r.None?
        case Some((parts, rest)) => r == CompileAnd(table, parts) && (r.Some? ==> Rest() == rest && index > old(index))
      decreases |tokens| - index, 3
    {
      ghost var all := ParseAnds(Rest());
      var first := ParseNegation();
      if first.None? {
        return None;
      }
      var parts := [first.value];
      ghost var done := [ParseNot(old(Rest())).value.0];
      CompileAndsOne(table, done[0]);
      while Peek() == Some(AND)
        invariant Valid() && index > old(index)
        invariant AndsLead(table, done, parts, Rest(), all)
        decreases |tokens| - index
      {
        ghost var rest := Rest();
        index := index + 1;
        var next := ParseNegation();
        AndsStep(table, done, parts, rest, all, next);
        if next.None? {
          return None;
        }
        done := done + [ParseNot(rest[1..]).value.0];
        parts := parts + [next.value];
      }
      r := Some(SelectionAll(parts));
    }

    method ParseNegation() returns (r: Option<Selection>)
      requires Valid()
      modifies this`index
      ensures Valid()
      ensures match ParseNot(old(Rest()))
        case None => r.None?
        case Some((term, rest)) => r == CompileNot(table, term) && (r.Some? ==> Rest() == rest && index > old(index))
      decreases |tokens| - index, 2
    {
      if Peek() == Some(NOT) {
        index := index + 1;
        var sub := ParseNegation();
        return if sub.None? then None else SelectionNot(sub.value);
      }
      r := ParsePrimary();
    }

    method ParsePrimary() returns (r: Option<Selection>)
      requires Valid() && Peek() != Some(NOT)
      modifies this`index
      ensures Valid()
      ensures match SigmaCondition.ParsePrimary(old(Rest()))
        case None => r.None?
        case Some((term, rest)) => r == CompileNot(table, term) && (r.Some? ==> Rest() == rest && index > old(index))
      decreases |tokens| - index, 1
    {
      if index == |tokens| {
        return None;
      }
      var token := tokens[index];
      index := index + 1;
      if token == OPEN {
        var inner := ParseOr();
        if inner.None? || Peek() != Some(CLOSE) {
          return None;
        }
        index := index + 1;
        return inner;
      }
      if token == CLOSE {
        return None;
      }
      match token
      case Quantifier(all, pattern) =>
        var names := table.matching(pattern);
        if names == [] {
          return None;
        }
        var selections := BlocksNamed(table, names);
        return if selections.None? then None
               else Some(if all then SelectionAll(selections.value) else SelectionAny(selections.value));
      case Word(name) =>
        return table.block(name);
    }
  }
}
