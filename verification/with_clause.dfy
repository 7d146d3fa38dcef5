/** `Relation#with`: common table expressions attached to a relation.

    `with` takes one or more arguments and appends them, unevaluated, to the
    relation's `with_values`; only when the relation is turned into SQL are
    the values checked and converted into named CTEs. Accepted argument shapes
    are a hash from CTE name to a relation, an Arel select manager or an SQL
    string; a single `Arel::Nodes::As` node; and a nonempty array of `As`
    nodes. Anything else raises `ArgumentError`, as does calling `with` with no
    argument at all. The SQL a relation or node stands for is kept as an opaque
    string: the query builder is not part of this model.
 */
module WithClause {
  import opened Common

  /** A value in a `with(name: value)` hash. */
  datatype CteValue =
    | RelationValue(sql: string)          // an ActiveRecord::Relation
    | SelectManagerValue(sql: string)     // an Arel::SelectManager
    | StringValue(sql: string)            // a literal SQL string
    | NilValue
    | ArrayValue(items: seq<CteValue>)

  /** An argument of `with`. */
  datatype WithArg =
    | AsNode(name: string, sql: string)                // Arel::Nodes::As.new(table, select)
    | HashArg(entries: seq<(string, CteValue)>)
    | ArrayArg(items: seq<WithArg>)
    | OtherArg                                         // any other object

  /** How a CTE's body is rendered: a subquery built by the query builder, or
      a literal SQL string wrapped in parentheses. */
  datatype CteBody = Subquery(sql: string) | Grouping(literal: string)

  datatype Cte = Cte(name: string, body: CteBody)

  /** The part of a relation this model tracks. */
  datatype Relation = Relation(withValues: seq<WithArg>, from: Option<string>)

  const NoArgumentsMessage: string := "The method .with() must contain arguments."
  const UnsupportedMessage: string := "Unsupported argument type"

  /** The hash values a CTE can be built from. */
  predicate SupportedValue(v: CteValue) {
    v.RelationValue? || v.SelectManagerValue? || v.StringValue?
  }

  /** The argument shapes `with` accepts, stated declaratively. */
  predicate Supported(arg: WithArg) {
    match arg
    case AsNode(_, _) => true
    case HashArg(entries) => forall i :: 0 <= i < |entries| ==> SupportedValue(entries[i].1)
    case ArrayArg(items) => |items| > 0 && forall i :: 0 <= i < |items| ==> items[i].AsNode?
    case OtherArg => false
  }

  /** The CTE names an accepted argument defines, in order. */
  function Names(arg: WithArg): seq<string>
    decreases arg
  {
    match arg
    case AsNode(name, _) => [name]
    case HashArg(entries) => seq(|entries|, i requires 0 <= i < |entries| => entries[i].0)
    case ArrayArg(items) => seq(|items|, i requires 0 <= i < |items| => if items[i].AsNode? then items[i].name else "")
    case OtherArg => []
  }

  /** `with(*args)`: raises when called without arguments; otherwise appends the
      arguments, in order, to the relation's `with_values`. */
  function With(rel: Relation, args: seq<WithArg>): (r: Result<Relation>)
    ensures r.Failure? <==> |args| == 0
    ensures r.Failure? ==> r.error == ArgumentError(WithWithoutArguments, NoArgumentsMessage)
    ensures r.Success? ==> |r.value.withValues| == |rel.withValues| + |args|
    ensures r.Success? ==> r.value.withValues[..|rel.withValues|] == rel.withValues
    ensures r.Success? ==> r.value.withValues[|rel.withValues|..] == args
    ensures r.Success? ==> r.value.from == rel.from
  {
    if |args| == 0 then Failure(ArgumentError(WithWithoutArguments, NoArgumentsMessage))
    else Success(rel.(withValues := rel.withValues + args))
  }

  /** `from(source)`: replaces the FROM source; the CTEs are untouched. */
  function From(rel: Relation, source: string): (r: Relation)
    ensures r.from == Some(source) && r.withValues == rel.withValues
  {
    rel.(from := Some(source))
  }

  /** One CTE from a hash entry. */
  function BuildValue(name: string, v: CteValue): (r: Result<Cte>)
    ensures r.Success? <==> SupportedValue(v)
    ensures r.Success? ==> r.value.name == name
    ensures r.Success? ==> (r.value.body.Grouping? <==> v.StringValue?)
    ensures r.Failure? ==> r.error == ArgumentError(UnsupportedCteValue, UnsupportedMessage)
  {
    match v
    case RelationValue(sql) => Success(Cte(name, Subquery(sql)))
    case SelectManagerValue(sql) => Success(Cte(name, Subquery(sql)))
    case StringValue(sql) => Success(Cte(name, Grouping(sql)))
    case _ => Failure(ArgumentError(UnsupportedCteValue, UnsupportedMessage))
  }

  /** The CTEs of a hash argument, in the hash's order; the first unsupported
      value raises. */
  function BuildHash(entries: seq<(string, CteValue)>): (r: Result<seq<Cte>>)
    ensures r.Success? ==> |r.value| == |entries|
    ensures r.Success? ==> forall i :: 0 <= i < |entries| ==> r.value[i].name == entries[i].0
    decreases |entries|
  {
    if |entries| == 0 then Success([])
    else
      match BuildValue(entries[0].0, entries[0].1)
      case Failure(e) => Failure(e)
      case Success(c) =>
        match BuildHash(entries[1..])
        case Failure(e) => Failure(e)
        case Success(cs) => Success([c] + cs)
  }

  /** The CTEs of one `with` argument. */
  function BuildArg(arg: WithArg): (r: Result<seq<Cte>>)
    ensures r.Success? ==> |r.value| == |Names(arg)|
    ensures r.Success? ==> forall i :: 0 <= i < |r.value| ==> r.value[i].name == Names(arg)[i]
  {
    match arg
    case AsNode(name, sql) => Success([Cte(name, Subquery(sql))])
    case HashArg(entries) => BuildHash(entries)
    case ArrayArg(items) =>
      if |items| > 0 && forall i :: 0 <= i < |items| ==> items[i].AsNode? then
        Success(seq(|items|, i requires 0 <= i < |items| => Cte(items[i].name, Subquery(items[i].sql))))
      else Failure(ArgumentError(UnsupportedWithArgument, UnsupportedMessage))
    case OtherArg => Failure(ArgumentError(UnsupportedWithArgument, UnsupportedMessage))
  }

  /** The first failure among `rs`, or all their items in order. */
  function CombineAll<T>(rs: seq<Result<seq<T>>>): (r: Result<seq<T>>)
    decreases |rs|
  {
    if |rs| == 0 then Success([])
    else if rs[0].Failure? then rs[0]
    else
      match CombineAll(rs[1..])
      case Failure(e) => Failure(e)
      case Success(rest) => Success(rs[0].value + rest)
  }

  /** The build of each argument, in order. */
  function ArgResults(values: seq<WithArg>): (rs: seq<Result<seq<Cte>>>)
    ensures |rs| == |values|
    ensures forall i :: 0 <= i < |values| ==> rs[i] == BuildArg(values[i])
  {
    seq(|values|, i requires 0 <= i < |values| => BuildArg(values[i]))
  }

  /** The WITH clause of a relation being turned into SQL: the CTEs of every
      `with_values` entry, in call order; the first unsupported one raises. */
  function BuildWith(values: seq<WithArg>): (r: Result<seq<Cte>>) {
    CombineAll(ArgResults(values))
  }

  /** Combining succeeds exactly when every part succeeds. */
  lemma {:induction false} CombineAllSucceeds<T>(rs: seq<Result<seq<T>>>)
    ensures CombineAll(rs).Success? <==> forall i :: 0 <= i < |rs| ==> rs[i].Success?
    decreases |rs|
  {
    if |rs| > 0 {
      CombineAllSucceeds(rs[1..]);
      assert forall i :: 1 <= i < |rs| ==> rs[1..][i - 1] == rs[i];
    }
  }

  /** Combining two batches yields the first batch's items followed by the
      second's. */
  lemma {:induction false} CombineAllConcat<T>(x: seq<Result<seq<T>>>, y: seq<Result<seq<T>>>)
    requires CombineAll(x).Success? && CombineAll(y).Success?
    ensures CombineAll(x + y) == Success(CombineAll(x).value + CombineAll(y).value)
    decreases |x|
  {
    if |x| == 0 {
      assert x + y == y;
      assert CombineAll(x) == Success([]);
      assert [] + CombineAll(y).value == CombineAll(y).value;
    } else {
      assert (x + y)[0] == x[0];
      assert (x + y)[1..] == x[1..] + y;
      CombineAllConcat(x[1..], y);
      ConcatAssoc(x[0].value, CombineAll(x[1..]).value, CombineAll(y).value);
    }
  }

  /** A hash builds exactly when every value is supported. */
  lemma {:induction false} BuildHashAccepts(entries: seq<(string, CteValue)>)
    ensures BuildHash(entries).Success? <==> forall i :: 0 <= i < |entries| ==> SupportedValue(entries[i].1)
    decreases |entries|
  {
    if |entries| > 0 {
      BuildHashAccepts(entries[1..]);
      assert forall i :: 1 <= i < |entries| ==> entries[1..][i - 1] == entries[i];
    }
  }

  /** An argument builds exactly when it has an accepted shape. */
  lemma BuildArgAccepts(arg: WithArg)
    ensures BuildArg(arg).Success? <==> Supported(arg)
  {
    if arg.HashArg? {
      BuildHashAccepts(arg.entries);
    }
  }

  /** The WITH clause builds exactly when every accumulated argument has an
      accepted shape. */
  lemma BuildWithAccepts(values: seq<WithArg>)
    ensures BuildWith(values).Success? <==> forall i :: 0 <= i < |values| ==> Supported(values[i])
  {
    CombineAllSucceeds(ArgResults(values));
    forall i | 0 <= i < |values| ensures BuildArg(values[i]).Success? <==> Supported(values[i]) {
      BuildArgAccepts(values[i]);
    }
  }

  /** Building the CTEs of two batches of arguments yields the first batch's
      CTEs followed by the second's, so CTEs come out in call order. */
  lemma BuildWithConcat(a: seq<WithArg>, b: seq<WithArg>)
    requires BuildWith(a).Success? && BuildWith(b).Success?
    ensures BuildWith(a + b) == Success(BuildWith(a).value + BuildWith(b).value)
  {
    assert ArgResults(a + b) == ArgResults(a) + ArgResults(b);
    CombineAllConcat(ArgResults(a), ArgResults(b));
  }

  /** Two successive `with` calls accumulate: the relation carries the first
      call's arguments then the second's, and its CTEs are those of the two
      calls in call order. */
  lemma SuccessiveWithsAccumulate(rel: Relation, a: seq<WithArg>, b: seq<WithArg>)
    requires |a| > 0 && |b| > 0
    requires BuildWith(rel.withValues).Success? && BuildWith(a).Success? && BuildWith(b).Success?
    ensures With(rel, a).Success?
    ensures var r := With(With(rel, a).value, b);
      && r.Success?
      && r.value.withValues == rel.withValues + a + b
      && BuildWith(r.value.withValues)
         == Success(BuildWith(rel.withValues).value + BuildWith(a).value + BuildWith(b).value)
  {
    BuildWithConcat(rel.withValues, a);
    BuildWithConcat(rel.withValues + a, b);
  }

  /** `from` and `with` commute: where `from` appears in the chain does not
      change the CTEs or the FROM source. */
  lemma FromCommutesWithWith(rel: Relation, args: seq<WithArg>, source: string)
    requires |args| > 0
    ensures With(From(rel, source), args) == Success(From(With(rel, args).value, source))
  {
  }

  /** The argument shapes the tests reject: no argument, an array holding a
      hash, and a hash whose value is nil or an array. */
  lemma RejectedShapes(rel: Relation, name: string, q: string)
    ensures With(rel, []).Failure?
    ensures !Supported(ArrayArg([HashArg([(name, RelationValue(q))])]))
    ensures BuildWith([HashArg([(name, NilValue)])]).Failure?
    ensures BuildWith([HashArg([(name, ArrayValue([RelationValue(q)]))])]).Failure?
  {
    var hashInArray := [HashArg([(name, RelationValue(q))])];
    assert !hashInArray[0].AsNode?;
    BuildWithAccepts([HashArg([(name, NilValue)])]);
    BuildWithAccepts([HashArg([(name, ArrayValue([RelationValue(q)]))])]);
    var nilHash := [HashArg([(name, NilValue)])];
    var arrayHash := [HashArg([(name, ArrayValue([RelationValue(q)]))])];
    assert !SupportedValue(nilHash[0].entries[0].1);
    assert !Supported(nilHash[0]);
    assert !SupportedValue(arrayHash[0].entries[0].1);
    assert !Supported(arrayHash[0]);
  }

  /** A hash entry in front of others contributes its CTE first. */
  lemma HashEntryFirst(n: string, v: CteValue, rest: seq<(string, CteValue)>)
    requires SupportedValue(v) && BuildHash(rest).Success?
    ensures BuildHash([(n, v)] + rest) == Success([BuildValue(n, v).value] + BuildHash(rest).value)
  {
    assert ([(n, v)] + rest)[1..] == rest;
  }

  /** The argument shapes the tests accept: a hash of relations, a single `As`
      node, an array of `As` nodes, and a hash mixing a select manager, an SQL
      string and a relation, whose CTEs keep the hash's order. */
  lemma AcceptedShapes(n1: string, n2: string, n3: string, q1: string, q2: string, q3: string)
    ensures BuildArg(HashArg([(n1, RelationValue(q1))])) == Success([Cte(n1, Subquery(q1))])
    ensures BuildArg(AsNode(n1, q1)) == Success([Cte(n1, Subquery(q1))])
    ensures BuildArg(ArrayArg([AsNode(n1, q1), AsNode(n2, q2)]))
            == Success([Cte(n1, Subquery(q1)), Cte(n2, Subquery(q2))])
    ensures BuildArg(HashArg([(n1, SelectManagerValue(q1)), (n2, StringValue(q2)), (n3, RelationValue(q3))]))
            == Success([Cte(n1, Subquery(q1)), Cte(n2, Grouping(q2)), Cte(n3, Subquery(q3))])
  {
    var c1 := Cte(n1, Subquery(q1));
    var c2 := Cte(n2, Grouping(q2));
    var c3 := Cte(n3, Subquery(q3));
    assert BuildHash([]) == Success([]);
    HashEntryFirst(n1, RelationValue(q1), []);
    assert [(n1, RelationValue(q1))] + [] == [(n1, RelationValue(q1))];
    assert [c1] + [] == [c1];
    assert BuildArg(HashArg([(n1, RelationValue(q1))])) == Success([c1]);

    HashEntryFirst(n3, RelationValue(q3), []);
    assert [(n3, RelationValue(q3))] + [] == [(n3, RelationValue(q3))];
    assert [c3] + [] == [c3];
    var e23 := [(n2, StringValue(q2)), (n3, RelationValue(q3))];
    HashEntryFirst(n2, StringValue(q2), [(n3, RelationValue(q3))]);
    assert [(n2, StringValue(q2))] + [(n3, RelationValue(q3))] == e23;
    assert BuildHash([(n3, RelationValue(q3))]) == Success([c3]);
    assert [c2] + [c3] == [c2, c3];
    assert BuildHash(e23) == Success([c2, c3]);
    var e123 := [(n1, SelectManagerValue(q1))] + e23;
    HashEntryFirst(n1, SelectManagerValue(q1), e23);
    assert e123 == [(n1, SelectManagerValue(q1)), (n2, StringValue(q2)), (n3, RelationValue(q3))];
    assert BuildHash(e123) == Success([c1.(body := Subquery(q1))] + [c2, c3]);
    assert [c1] + [c2, c3] == [c1, c2, c3];

    var items := [AsNode(n1, q1), AsNode(n2, q2)];
    assert items[0].AsNode? && items[1].AsNode?;
    var built := seq(|items|, i requires 0 <= i < |items| => Cte(items[i].name, Subquery(items[i].sql)));
    assert built == [c1, Cte(n2, Subquery(q2))];
  }
}
