/** Rule selections and how an event is matched against one, src/autosiem/detection.py. */
module Detection {
  import opened Common
  import Decimal

  /** A scalar or list of a rule, or a field of an event; an absent field is `Null`. */
  datatype Value = Null | Bool(b: bool) | Num(n: int) | Str(s: string) | List(items: seq<Value>)

  datatype BaseOp =
    | Equals | In | Regex
    | Contains | ContainsAny | ContainsAll
    | StartsWith | StartsWithAny | StartsWithAll
    | EndsWith | EndsWithAny | EndsWithAll

  /** `contains` is `Test(Contains, false)`, `not_contains` is `Test(Contains, true)`. */
  datatype Operator = Test(base: BaseOp, negated: bool) | Exists

  datatype Entry = Entry(op: Operator, value: Value)

  /** What a field must satisfy: a value it equals (or is one of), or an operator map. */
  datatype Expected = Plain(value: Value) | Ops(entries: seq<Entry>)

  datatype Selection = Selection(fields: seq<(string, Expected)>, anyOf: Branches, allOf: Branches, neg: Negated)
  datatype Branches = Absent | Branches(items: seq<Selection>)
  datatype Negated = NotNegated | Negated(sel: Selection)

  type Doc = string -> Value

  /** What is left abstract: case folding, regular-expression search and `str` of a list. */
  datatype Lang = Lang(lower: string -> string, search: (string, string) -> bool, repr: seq<Value> -> string)

  // ----- scalars -----

  function StrOf(lang: Lang, v: Value): string {
    match v
    case Null => "None"
    case Bool(b) => if b then "True" else "False"
    case Num(n) => if n < 0 then "-" + Decimal.Show(-n) else Decimal.Show(n)
    case Str(s) => s
    case List(items) => lang.repr(items)
  }

  /** Python equality: a Boolean equals the number it stands for. */
  predicate PyEq(a: Value, b: Value) {
    match (a, b)
    case (Bool(x), Num(n)) => n == if x then 1 else 0
    case (Num(n), Bool(x)) => n == if x then 1 else 0
    case (List(xs), List(ys)) => |xs| == |ys| && forall i :: 0 <= i < |xs| ==> PyEq(xs[i], ys[i])
    case _ => a == b
  }

  predicate PyIn(a: Value, items: seq<Value>) {
    exists i :: 0 <= i < |items| && PyEq(a, items[i])
  }

  predicate Truthy(v: Value) {
    match v
    case Null => false
    case Bool(b) => b
    case Num(n) => n != 0
    case Str(s) => s != ""
    case List(items) => items != []
  }

  predicate Infix(part: string, whole: string) {
    exists i :: 0 <= i <= |whole| && part <= whole[i..]
  }

  predicate Suffix(part: string, whole: string) {
    |part| <= |whole| && whole[|whole| - |part|..] == part
  }

  /** The elements a list operator ranges over. */
  function ItemsOf(v: Value): seq<Value> {
    if v.List? then v.items else []
  }

  // ----- operators -----

  function TextOf(lang: Lang, actual: Value): string {
    if actual == Null then "" else StrOf(lang, actual)
  }

  predicate Includes(lang: Lang, text: string, v: Value) {
    Infix(lang.lower(StrOf(lang, v)), lang.lower(text))
  }

  predicate Begins(lang: Lang, text: string, v: Value) {
    lang.lower(StrOf(lang, v)) <= lang.lower(text)
  }

  predicate Ends(lang: Lang, text: string, v: Value) {
    Suffix(lang.lower(StrOf(lang, v)), lang.lower(text))
  }

  predicate Holds(lang: Lang, actual: Value, base: BaseOp, value: Value) {
    var text, items := TextOf(lang, actual), ItemsOf(value);
    match base
    case Equals => text == StrOf(lang, value)
    case In => PyIn(actual, items)
    case Regex => lang.search(StrOf(lang, value), text)
    case Contains => Includes(lang, text, value)
    case ContainsAny => exists i :: 0 <= i < |items| && Includes(lang, text, items[i])
    case ContainsAll => forall i :: 0 <= i < |items| ==> Includes(lang, text, items[i])
    case StartsWith => Begins(lang, text, value)
    case StartsWithAny => exists i :: 0 <= i < |items| && Begins(lang, text, items[i])
    case StartsWithAll => forall i :: 0 <= i < |items| ==> Begins(lang, text, items[i])
    case EndsWith => Ends(lang, text, value)
    case EndsWithAny => exists i :: 0 <= i < |items| && Ends(lang, text, items[i])
    case EndsWithAll => forall i :: 0 <= i < |items| ==> Ends(lang, text, items[i])
  }

  predicate MatchEntry(lang: Lang, actual: Value, e: Entry) {
    match e.op
    case Exists => Truthy(e.value) == (actual != Null)
    case Test(base, negated) => Holds(lang, actual, base, e.value) != negated
  }

  /** An empty operator map matches nothing. */
  predicate MatchOps(lang: Lang, actual: Value, entries: seq<Entry>) {
    entries != [] && forall i :: 0 <= i < |entries| ==> MatchEntry(lang, actual, entries[i])
  }

  predicate MatchExpected(lang: Lang, actual: Value, expected: Expected) {
    match expected
    case Plain(value) => if value.List? then PyIn(actual, value.items) else PyEq(actual, value)
    case Ops(entries) => MatchOps(lang, actual, entries)
  }

  predicate MatchFields(lang: Lang, doc: Doc, fields: seq<(string, Expected)>) {
    forall i :: 0 <= i < |fields| ==> MatchExpected(lang, doc(fields[i].0), fields[i].1)
  }

  predicate Matches(lang: Lang, doc: Doc, sel: Selection) {
    && MatchFields(lang, doc, sel.fields)
    && (sel.anyOf.Branches? ==> exists i :: 0 <= i < |sel.anyOf.items| && Matches(lang, doc, sel.anyOf.items[i]))
    && (sel.allOf.Branches? ==> forall i :: 0 <= i < |sel.allOf.items| ==> Matches(lang, doc, sel.allOf.items[i]))
    && (sel.neg.Negated? ==> !Matches(lang, doc, sel.neg.sel))
  }

  // ----- shapes -----

  function Flat(fields: seq<(string, Expected)>): Selection {
    Selection(fields, Absent, Absent, NotNegated)
  }

  predicate IsFlat(sel: Selection) {
    sel.anyOf.Absent? && sel.allOf.Absent? && sel.neg.NotNegated?
  }

  /** Where a plain value and an `equals` operator with the same value agree on a field. */
  predicate ExpectedCoherent(lang: Lang, actual: Value, expected: Expected) {
    match expected
    case Plain(value) => MatchExpected(lang, actual, expected) <==> Holds(lang, actual, Equals, value)
    case Ops(entries) => entries != []
  }

  /** Coherence of an event with a selection: every plain value in it reads the same as `equals`,
      and no operator map is empty. */
  ghost predicate Coherent(lang: Lang, doc: Doc, sel: Selection) {
    && (forall i :: 0 <= i < |sel.fields| ==> ExpectedCoherent(lang, doc(sel.fields[i].0), sel.fields[i].1))
    && (sel.anyOf.Branches? ==> forall i :: 0 <= i < |sel.anyOf.items| ==> Coherent(lang, doc, sel.anyOf.items[i]))
    && (sel.allOf.Branches? ==> forall i :: 0 <= i < |sel.allOf.items| ==> Coherent(lang, doc, sel.allOf.items[i]))
    && (sel.neg.Negated? ==> Coherent(lang, doc, sel.neg.sel))
  }

  /** Text fields matched against non-empty strings are always coherent. */
  lemma TextIsCoherent(lang: Lang, actual: Value, s: string)
    requires s != "" && (actual.Str? || actual.Null?)
    ensures ExpectedCoherent(lang, actual, Plain(Str(s)))
  {
  }

  /** The exact condition for scalars: which event values read differently as `equals`. */
  lemma ScalarCoherentIff(lang: Lang, actual: Value, v: Value)
    requires !v.List? && !actual.List?
    ensures ExpectedCoherent(lang, actual, Plain(v)) <==>
      match (actual, v)
      case (Null, Null) => false
      case (Null, _) => StrOf(lang, v) != ""
      case (Bool(x), Num(n)) => n != if x then 1 else 0
      case (Num(n), Bool(x)) => n != if x then 1 else 0
      case (a, b) => a == b || StrOf(lang, a) != StrOf(lang, b)
  {
    match (actual, v)
    case (Bool(x), Num(n)) => NumIsNotWord(lang, n);
    case (Num(n), Bool(x)) => NumIsNotWord(lang, n);
    case _ =>
  }

  lemma NumIsNotWord(lang: Lang, n: int)
    ensures StrOf(lang, Num(n)) != "True" && StrOf(lang, Num(n)) != "False"
  {
    if n >= 0 {
      assert Decimal.IsDigit(Decimal.Show(n)[0]);
    } else {
      assert StrOf(lang, Num(n))[0] == '-';
    }
  }
}
