/** Sigma conditions, src/autosiem/sigma.py: their grammar, the recursive-descent parser and the
    selection it builds, with `or` binding weaker than `and`, and `and` weaker than `not`. */
module SigmaCondition {
  import opened Common
  import opened Detection
  import opened SigmaCombine

  /** A lower-cased token: a word or parenthesis, or `1 of pattern` / `all of pattern`. */
  datatype Token = Word(text: string) | Quantifier(all: bool, pattern: string)

  const OR := Word("or")
  const AND := Word("and")
  const NOT := Word("not")
  const OPEN := Word("(")
  const CLOSE := Word(")")

  // ----- the grammar -----

  datatype OrTree = OrTree(parts: seq<AndTree>)
  datatype AndTree = AndTree(parts: seq<NotTree>)
  datatype NotTree = Not(sub: NotTree) | Group(inner: OrTree) | Block(name: string) | Of(all: bool, pattern: string)

  function PrintOr(t: OrTree): seq<Token>
    decreases t
  {
    PrintOrs(t.parts)
  }

  function PrintOrs(parts: seq<AndTree>): seq<Token>
    decreases parts
  {
    if parts == [] then []
    else if |parts| == 1 then PrintAnd(parts[0])
    else PrintAnd(parts[0]) + [OR] + PrintOrs(parts[1..])
  }

  function PrintAnd(t: AndTree): seq<Token>
    decreases t
  {
    PrintAnds(t.parts)
  }

  function PrintAnds(parts: seq<NotTree>): seq<Token>
    decreases parts
  {
    if parts == [] then []
    else if |parts| == 1 then PrintNot(parts[0])
    else PrintNot(parts[0]) + [AND] + PrintAnds(parts[1..])
  }

  function PrintNot(t: NotTree): seq<Token>
    decreases t
  {
    match t
    case Not(sub) => [NOT] + PrintNot(sub)
    case Group(inner) => [OPEN] + PrintOr(inner) + [CLOSE]
    case Block(name) => [Word(name)]
    case Of(all, pattern) => [Quantifier(all, pattern)]
  }

  /** Trees that a token sequence can spell: nothing empty, and no block named like `not` or a
      parenthesis, which the parser reads first. */
  predicate SpellableOrs(parts: seq<AndTree>)
    decreases parts
  {
    parts != [] && SpellableAnds(parts[0].parts) && (|parts| > 1 ==> SpellableOrs(parts[1..]))
  }

  predicate SpellableAnds(parts: seq<NotTree>)
    decreases parts
  {
    parts != [] && Spellable(parts[0]) && (|parts| > 1 ==> SpellableAnds(parts[1..]))
  }

  predicate Spellable(t: NotTree)
    decreases t
  {
    match t
    case Not(sub) => Spellable(sub)
    case Group(inner) => SpellableOrs(inner.parts)
    case Block(name) => Word(name) != NOT && Word(name) != OPEN && Word(name) != CLOSE
    case Of(_, _) => true
  }

  // ----- parsing -----

  function Head(ts: seq<Token>): Option<Token> {
    if ts == [] then None else Some(ts[0])
  }

  function ParseOrs(ts: seq<Token>): (r: Option<(seq<AndTree>, seq<Token>)>)
    ensures r.Some? ==> |r.value.1| < |ts|
    decreases |ts|, 4
  {
    match ParseAnds(ts)
    case None => None
    case Some((ands, rest)) =>
      if Head(rest) != Some(OR) then Some(([AndTree(ands)], rest))
      else
        match ParseOrs(rest[1..])
        case None => None
        case Some((more, end)) => Some(([AndTree(ands)] + more, end))
  }

  function ParseAnds(ts: seq<Token>): (r: Option<(seq<NotTree>, seq<Token>)>)
    ensures r.Some? ==> |r.value.1| < |ts|
    decreases |ts|, 3
  {
    match ParseNot(ts)
    case None => None
    case Some((term, rest)) =>
      if Head(rest) != Some(AND) then Some(([term], rest))
      else
        match ParseAnds(rest[1..])
        case None => None
        case Some((more, end)) => Some(([term] + more, end))
  }

  function ParseNot(ts: seq<Token>): (r: Option<(NotTree, seq<Token>)>)
    ensures r.Some? ==> |r.value.1| < |ts|
    decreases |ts|, 2
  {
    if Head(ts) == Some(NOT) then
      match ParseNot(ts[1..])
      case None => None
      case Some((sub, rest)) => Some((Not(sub), rest))
    else
      ParsePrimary(ts)
  }

  function ParsePrimary(ts: seq<Token>): (r: Option<(NotTree, seq<Token>)>)
    ensures r.Some? ==> |r.value.1| < |ts|
    decreases |ts|, 1
  {
    if ts == [] || ts[0] == CLOSE then None
    else if ts[0] == OPEN then
      match ParseOrs(ts[1..])
      case None => None
      case Some((inner, rest)) =>
        if Head(rest) == Some(CLOSE) then Some((Group(OrTree(inner)), rest[1..])) else None
    else
      match ts[0]
      case Quantifier(all, pattern) => Some((Of(all, pattern), ts[1..]))
      case Word(name) => Some((Block(name), ts[1..]))
  }

  function ParseTree(ts: seq<Token>): Option<OrTree> {
    match ParseOrs(ts)
    case None => None
    case Some((parts, rest)) => if rest == [] then Some(OrTree(parts)) else None
  }

  // ----- the parser reads exactly the grammar -----

  lemma {:induction false} OrsSound(ts: seq<Token>)
    ensures ParseOrs(ts).Some? ==>
      SpellableOrs(ParseOrs(ts).value.0) && PrintOrs(ParseOrs(ts).value.0) + ParseOrs(ts).value.1 == ts
    decreases |ts|, 4
  {
    AndsSound(ts);
    if ParseOrs(ts).Some? {
      var (ands, rest) := ParseAnds(ts).value;
      if Head(rest) == Some(OR) {
        OrsSound(rest[1..]);
        var (more, end) := ParseOrs(rest[1..]).value;
        assert ([AndTree(ands)] + more)[1..] == more;
        assert rest == [OR] + rest[1..];
        assert PrintOrs([AndTree(ands)] + more) == PrintAnds(ands) + [OR] + PrintOrs(more);
      }
    }
  }

  lemma {:induction false} AndsSound(ts: seq<Token>)
    ensures ParseAnds(ts).Some? ==>
      SpellableAnds(ParseAnds(ts).value.0) && PrintAnds(ParseAnds(ts).value.0) + ParseAnds(ts).value.1 == ts
    decreases |ts|, 3
  {
    NotSound(ts);
    if ParseAnds(ts).Some? {
      var (term, rest) := ParseNot(ts).value;
      if Head(rest) == Some(AND) {
        AndsSound(rest[1..]);
        if ParseAnds(rest[1..]).Some? {
          var (more, end) := ParseAnds(rest[1..]).value;
          AndsJoin(term, more, end, rest);
        }
      }
    }
  }

  lemma {:induction false} AndsJoin(term: NotTree, more: seq<NotTree>, end: seq<Token>, rest: seq<Token>)
    requires Spellable(term) && SpellableAnds(more) && Head(rest) == Some(AND) && PrintAnds(more) + end == rest[1..]
    ensures SpellableAnds([term] + more) && PrintAnds([term] + more) + end == PrintNot(term) + rest
  {
    var parts := [term] + more;
    assert parts[0] == term && parts[1..] == more;
    PrintAndsCons(parts, end);
    assert rest == [AND] + rest[1..];
  }

  lemma {:induction false} NotSound(ts: seq<Token>)
    ensures ParseNot(ts).Some? ==>
      Spellable(ParseNot(ts).value.0) && PrintNot(ParseNot(ts).value.0) + ParseNot(ts).value.1 == ts
    decreases |ts|, 2
  {
    if ts != [] && ts[0] == NOT {
      NotSound(ts[1..]);
      assert ts == [NOT] + ts[1..];
    } else if ts != [] && ts[0] == OPEN {
      OrsSound(ts[1..]);
      assert ts == [OPEN] + ts[1..];
      if ParseNot(ts).Some? {
        var (inner, rest) := ParseOrs(ts[1..]).value;
        assert rest == [CLOSE] + rest[1..];
        assert PrintNot(Group(OrTree(inner))) == [OPEN] + PrintOrs(inner) + [CLOSE];
      }
    } else if ts != [] {
      assert ts == [ts[0]] + ts[1..];
    }
  }

  lemma {:induction false} PrintOrsCons(parts: seq<AndTree>, rest: seq<Token>)
    requires |parts| > 1
    ensures PrintOrs(parts) + rest == PrintAnds(parts[0].parts) + ([OR] + (PrintOrs(parts[1..]) + rest))
  {
  }

  lemma {:induction false} PrintAndsCons(parts: seq<NotTree>, rest: seq<Token>)
    requires |parts| > 1
    ensures PrintAnds(parts) + rest == PrintNot(parts[0]) + ([AND] + (PrintAnds(parts[1..]) + rest))
  {
  }

  lemma {:induction false} OrsComplete(parts: seq<AndTree>, rest: seq<Token>)
    requires SpellableOrs(parts) && Head(rest) != Some(OR) && Head(rest) != Some(AND)
    ensures ParseOrs(PrintOrs(parts) + rest) == Some((parts, rest))
    decreases parts
  {
    if |parts| == 1 {
      AndsComplete(parts[0].parts, rest);
      assert parts == [AndTree(parts[0].parts)];
    } else {
      var more := PrintOrs(parts[1..]) + rest;
      PrintOrsCons(parts, rest);
      AndsComplete(parts[0].parts, [OR] + more);
      OrsComplete(parts[1..], rest);
      ParseOrsCons(PrintOrs(parts) + rest, parts[0].parts, more, parts[1..], rest);
      assert parts == [AndTree(parts[0].parts)] + parts[1..];
    }
  }

  lemma {:induction false} ParseOrsCons(ts: seq<Token>, ands: seq<NotTree>, tail: seq<Token>, more: seq<AndTree>,
          end: seq<Token>)
    requires ParseAnds(ts) == Some((ands, [OR] + tail)) && ParseOrs(tail) == Some((more, end))
    ensures ParseOrs(ts) == Some(([AndTree(ands)] + more, end))
  {
    assert ([OR] + tail)[1..] == tail;
  }

  lemma {:induction false} ParseAndsCons(ts: seq<Token>, term: NotTree, tail: seq<Token>, more: seq<NotTree>,
          end: seq<Token>)
    requires ParseNot(ts) == Some((term, [AND] + tail)) && ParseAnds(tail) == Some((more, end))
    ensures ParseAnds(ts) == Some(([term] + more, end))
  {
    assert ([AND] + tail)[1..] == tail;
  }

  lemma {:induction false} AndsComplete(parts: seq<NotTree>, rest: seq<Token>)
    requires SpellableAnds(parts) && Head(rest) != Some(AND)
    ensures ParseAnds(PrintAnds(parts) + rest) == Some((parts, rest))
    decreases parts
  {
    if |parts| == 1 {
      NotComplete(parts[0], rest);
      assert parts == [parts[0]];
    } else {
      var more := PrintAnds(parts[1..]) + rest;
      PrintAndsCons(parts, rest);
      NotComplete(parts[0], [AND] + more);
      AndsComplete(parts[1..], rest);
      ParseAndsCons(PrintAnds(parts) + rest, parts[0], more, parts[1..], rest);
      assert parts == [parts[0]] + parts[1..];
    }
  }

  lemma {:induction false} NotComplete(t: NotTree, rest: seq<Token>)
    requires Spellable(t)
    ensures ParseNot(PrintNot(t) + rest) == Some((t, rest))
    decreases t
  {
    match t
    case Not(sub) =>
      NotComplete(sub, rest);
      assert (PrintNot(t) + rest)[1..] == PrintNot(sub) + rest;
    case Group(inner) =>
      OrsComplete(inner.parts, [CLOSE] + rest);
      assert (PrintNot(t) + rest)[1..] == PrintOrs(inner.parts) + ([CLOSE] + rest);
      assert ([CLOSE] + rest)[1..] == rest;
    case Block(name) =>
      assert (PrintNot(t) + rest)[1..] == rest;
    case Of(all, pattern) =>
      assert (PrintNot(t) + rest)[1..] == rest;
  }

  /** The parser accepts exactly the spellings of the grammar, and each spells one tree. */
  lemma {:induction false} ParseIffSpells(ts: seq<Token>, t: OrTree)
    ensures ParseTree(ts) == Some(t) <==> SpellableOrs(t.parts) && PrintOr(t) == ts
  {
    if ParseTree(ts) == Some(t) {
      OrsSound(ts);
      assert PrintOrs(t.parts) + [] == PrintOrs(t.parts);
    }
    if SpellableOrs(t.parts) && PrintOr(t) == ts {
      OrsComplete(t.parts, []);
      assert PrintOrs(t.parts) + [] == ts;
    }
  }

  // ----- what a condition says -----

  /** The detection blocks of a rule: the selection each name stands for, if it is a usable block,
      and the names a pattern matches. */
  datatype Table = Table(block: string -> Option<Selection>, matching: string -> seq<string>)

  ghost predicate Truth(lang: Lang, doc: Doc, table: Table, name: string) {
    table.block(name).Some? && Matches(lang, doc, table.block(name).value)
  }

  /** The condition, read as the or/and/not/`1 of`/`all of` expression over its blocks. */
  ghost predicate SaysOr(lang: Lang, doc: Doc, table: Table, parts: seq<AndTree>)
    decreases parts
  {
    exists i :: 0 <= i < |parts| && SaysAnd(lang, doc, table, parts[i].parts)
  }

  ghost predicate SaysAnd(lang: Lang, doc: Doc, table: Table, parts: seq<NotTree>)
    decreases parts
  {
    forall i :: 0 <= i < |parts| ==> SaysNot(lang, doc, table, parts[i])
  }

  ghost predicate SaysNot(lang: Lang, doc: Doc, table: Table, t: NotTree)
    decreases t
  {
    match t
    case Not(sub) => !SaysNot(lang, doc, table, sub)
    case Group(inner) => SaysOr(lang, doc, table, inner.parts)
    case Block(name) => Truth(lang, doc, table, name)
    case Of(all, pattern) =>
      if all then forall name :: name in table.matching(pattern) ==> Truth(lang, doc, table, name)
      else exists name :: name in table.matching(pattern) && Truth(lang, doc, table, name)
  }

  // ----- the selection the parser builds -----

  function CompileOrs(table: Table, parts: seq<AndTree>): Option<seq<Selection>>
    decreases parts, 0
  {
    if parts == [] then Some([])
    else
      match CompileAnd(table, parts[0].parts)
      case None => None
      case Some(first) =>
        match CompileOrs(table, parts[1..])
        case None => None
        case Some(rest) => Some([first] + rest)
  }

  function CompileOr(table: Table, parts: seq<AndTree>): Option<Selection>
    decreases parts, 1
  {
    match CompileOrs(table, parts)
    case None => None
    case Some(sels) => Some(SelectionAny(sels))
  }

  function CompileAnds(table: Table, parts: seq<NotTree>): Option<seq<Selection>>
    decreases parts, 0
  {
    if parts == [] then Some([])
    else
      match CompileNot(table, parts[0])
      case None => None
      case Some(first) =>
        match CompileAnds(table, parts[1..])
        case None => None
        case Some(rest) => Some([first] + rest)
  }

  function CompileAnd(table: Table, parts: seq<NotTree>): Option<Selection>
    decreases parts, 1
  {
    match CompileAnds(table, parts)
    case None => None
    case Some(sels) => Some(SelectionAll(sels))
  }

  function CompileNot(table: Table, t: NotTree): Option<Selection>
    decreases t
  {
    match t
    case Not(sub) =>
      (match CompileNot(table, sub)
       case None => None
       case Some(sel) => SelectionNot(sel))
    case Group(inner) => CompileOr(table, inner.parts)
    case Block(name) => table.block(name)
    case Of(all, pattern) =>
      var names := table.matching(pattern);
      if names == [] then None
      else
        match BlocksNamed(table, names)
        case None => None
        case Some(sels) => Some(if all then SelectionAll(sels) else SelectionAny(sels))
  }

  function BlocksNamed(table: Table, names: seq<string>): Option<seq<Selection>> {
    if names == [] then Some([])
    else
      match table.block(names[0])
      case None => None
      case Some(first) =>
        match BlocksNamed(table, names[1..])
        case None => None
        case Some(rest) => Some([first] + rest)
  }

  function CompileTree(table: Table, t: OrTree): Option<Selection> {
    CompileOr(table, t.parts)
  }

  /** `_ConditionParser(detection, condition).parse()` */
  function Compile(table: Table, ts: seq<Token>): Option<Selection> {
    match ParseTree(ts)
    case None => None
    case Some(t) => CompileTree(table, t)
  }

  // ----- and that it means the condition -----

  /** The event is coherent with the block of that name, if there is one. */
  ghost predicate NameCoherent(lang: Lang, doc: Doc, table: Table, name: string) {
    table.block(name).Some? ==> Coherent(lang, doc, table.block(name).value)
  }

  ghost predicate NamesCoherent(lang: Lang, doc: Doc, table: Table, names: seq<string>) {
    forall i :: 0 <= i < |names| ==> NameCoherent(lang, doc, table, names[i])
  }

  /** Coherence with every block that the condition names, or that one of its patterns matches. */
  ghost predicate OrCoherent(lang: Lang, doc: Doc, table: Table, parts: seq<AndTree>)
    decreases parts
  {
    forall i :: 0 <= i < |parts| ==> AndCoherent(lang, doc, table, parts[i].parts)
  }

  ghost predicate AndCoherent(lang: Lang, doc: Doc, table: Table, parts: seq<NotTree>)
    decreases parts
  {
    forall i :: 0 <= i < |parts| ==> NotCoherent(lang, doc, table, parts[i])
  }

  ghost predicate NotCoherent(lang: Lang, doc: Doc, table: Table, t: NotTree)
    decreases t
  {
    match t
    case Not(sub) => NotCoherent(lang, doc, table, sub)
    case Group(inner) => OrCoherent(lang, doc, table, inner.parts)
    case Block(name) => NameCoherent(lang, doc, table, name)
    case Of(_, pattern) => NamesCoherent(lang, doc, table, table.matching(pattern))
  }

  lemma {:induction false} NamedMean(lang: Lang, doc: Doc, table: Table, names: seq<string>)
    requires NamesCoherent(lang, doc, table, names) && BlocksNamed(table, names).Some?
    ensures var sels := BlocksNamed(table, names).value;
      && |sels| == |names| && AllCoherent(lang, doc, sels)
      && (forall i :: 0 <= i < |names| ==> (Truth(lang, doc, table, names[i]) <==> Matches(lang, doc, sels[i])))
  {
    if names != [] { NamedMean(lang, doc, table, names[1..]); }
  }

  lemma {:induction false} OfMeans(lang: Lang, doc: Doc, table: Table, all: bool, pattern: string)
    requires NotCoherent(lang, doc, table, Of(all, pattern)) && CompileNot(table, Of(all, pattern)).Some?
    ensures var sel := CompileNot(table, Of(all, pattern)).value;
      Coherent(lang, doc, sel) && (Matches(lang, doc, sel) <==> SaysNot(lang, doc, table, Of(all, pattern)))
  {
    var names := table.matching(pattern);
    NamedMean(lang, doc, table, names);
    var sels := BlocksNamed(table, names).value;
    if all {
      AllMeansAnd(lang, doc, sels);
      assert AllMatch(lang, doc, sels) <==> forall i :: 0 <= i < |names| ==> Truth(lang, doc, table, names[i]);
    } else {
      AnyMeansOr(lang, doc, sels);
      assert SomeMatches(lang, doc, sels) <==> exists i :: 0 <= i < |names| && Truth(lang, doc, table, names[i]);
    }
  }

  lemma {:induction false} OrsMean(lang: Lang, doc: Doc, table: Table, parts: seq<AndTree>)
    requires OrCoherent(lang, doc, table, parts) && CompileOrs(table, parts).Some?
    ensures var sels := CompileOrs(table, parts).value;
      && |sels| == |parts| && AllCoherent(lang, doc, sels)
      && (forall i :: 0 <= i < |parts| ==> (SaysAnd(lang, doc, table, parts[i].parts) <==> Matches(lang, doc, sels[i])))
    decreases parts, 0
  {
    if parts != [] {
      AndMeans(lang, doc, table, parts[0].parts);
      OrsMean(lang, doc, table, parts[1..]);
    }
  }

  lemma {:induction false} AndMeans(lang: Lang, doc: Doc, table: Table, parts: seq<NotTree>)
    requires AndCoherent(lang, doc, table, parts) && CompileAnd(table, parts).Some?
    ensures var sel := CompileAnd(table, parts).value;
      Coherent(lang, doc, sel) && (Matches(lang, doc, sel) <==> SaysAnd(lang, doc, table, parts))
    decreases parts, 1
  {
    AndsMean(lang, doc, table, parts);
    AllMeansAnd(lang, doc, CompileAnds(table, parts).value);
  }

  lemma {:induction false} AndsMean(lang: Lang, doc: Doc, table: Table, parts: seq<NotTree>)
    requires AndCoherent(lang, doc, table, parts) && CompileAnds(table, parts).Some?
    ensures var sels := CompileAnds(table, parts).value;
      && |sels| == |parts| && AllCoherent(lang, doc, sels)
      && (forall i :: 0 <= i < |parts| ==> (SaysNot(lang, doc, table, parts[i]) <==> Matches(lang, doc, sels[i])))
    decreases parts, 0
  {
    if parts != [] {
      NotMeans(lang, doc, table, parts[0]);
      AndsMean(lang, doc, table, parts[1..]);
    }
  }

  lemma {:induction false} NotMeans(lang: Lang, doc: Doc, table: Table, t: NotTree)
    requires NotCoherent(lang, doc, table, t) && CompileNot(table, t).Some?
    ensures var sel := CompileNot(table, t).value;
      Coherent(lang, doc, sel) && (Matches(lang, doc, sel) <==> SaysNot(lang, doc, table, t))
    decreases t
  {
    match t
    case Not(sub) =>
      NotMeans(lang, doc, table, sub);
      NotMeansNot(lang, doc, CompileNot(table, sub).value);
    case Group(inner) => OrMeans(lang, doc, table, inner.parts);
    case Block(name) =>
    case Of(all, pattern) => OfMeans(lang, doc, table, all, pattern);
  }

  lemma {:induction false} OrMeans(lang: Lang, doc: Doc, table: Table, parts: seq<AndTree>)
    requires OrCoherent(lang, doc, table, parts) && CompileOr(table, parts).Some?
    ensures var sel := CompileOr(table, parts).value;
      Coherent(lang, doc, sel) && (Matches(lang, doc, sel) <==> SaysOr(lang, doc, table, parts))
    decreases parts, 1
  {
    OrsMean(lang, doc, table, parts);
    AnyMeansOr(lang, doc, CompileOrs(table, parts).value);
  }

  /** `t` is the reading of the tokens. */
  ghost predicate Spells(t: OrTree, ts: seq<Token>) {
    SpellableOrs(t.parts) && PrintOr(t) == ts
  }

  /** If parsing succeeds, the tokens have exactly one reading, and the selection built matches an
      event exactly when that expression over the blocks' own truth values is true. */
  lemma {:induction false} ConditionKeepsMeaning(lang: Lang, doc: Doc, table: Table, ts: seq<Token>)
    requires Compile(table, ts).Some? && OrCoherent(lang, doc, table, ParseTree(ts).value.parts)
    ensures exists t: OrTree :: Spells(t, ts)
    ensures forall t: OrTree, u: OrTree :: Spells(t, ts) && Spells(u, ts) ==> t == u
    ensures forall t: OrTree :: Spells(t, ts) ==>
      (Matches(lang, doc, Compile(table, ts).value) <==> SaysOr(lang, doc, table, t.parts))
    ensures Coherent(lang, doc, Compile(table, ts).value)
  {
    var read := ParseTree(ts).value;
    ParseIffSpells(ts, read);
    forall t: OrTree | Spells(t, ts) ensures t == read {
      ParseIffSpells(ts, t);
    }
    assert Spells(read, ts);
    OrMeans(lang, doc, table, read.parts);
  }
}
