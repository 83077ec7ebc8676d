/**
 * A small interpreter for the part of IMS QTI 2.1 response processing that
 * the converter's items use: `responseCondition` with `responseIf`,
 * `responseElseIf` and `responseElse`; `setOutcomeValue`; the expressions
 * `variable`, `correct`, `baseValue`, `isNull`, `match`, and the two-operand
 * forms of `sum` and `multiple`. Anything else evaluates to `None`.
 *
 * QTI rules followed here: a container with no members is NULL; `match`
 * and `sum` are NULL when an operand is NULL; a NULL condition counts as
 * false; `multiple` drops NULL operands; an outcome declared without a
 * default starts at 0 when numeric and NULL otherwise.
 */
module QtiEval {
  import opened Wrappers
  import opened PyStr
  import opened Xml

  const NS_QTI := "http://www.imsglobal.org/xsd/imsqti_v2p1"

  function Q(local: string): QName {
    QName(NS_QTI, local)
  }

  const IDENT := Plain("identifier")
  const BASE_TYPE := Plain("baseType")

  /** Runtime values: NULL, a boolean, a float, one identifier, or a container of identifiers. */
  datatype QValue = Null | Boolean(b: bool) | Float(r: real) | Ident(id: string) | Multiple(ids: seq<string>)

  type Env = map<string, QValue>

  /** A container value; an empty one is NULL. */
  function MakeMultiple(ids: seq<string>): QValue {
    if ids == [] then Null else Multiple(ids)
  }

  function Members(v: QValue): seq<string> {
    match v
    case Ident(x) => [x]
    case Multiple(ids) => ids
    case _ => []
  }

  /** The value written as `<baseValue baseType="t">text</baseValue>` or as a declaration's default. */
  function ParseBase(baseType: string, text: string): Option<QValue> {
    if baseType == "identifier" then Some(Ident(text))
    else if baseType == "float" && text != [] && AllDigits(text) then Some(Float(DigitsValue(text) as real))
    else None
  }

  /** `match`: equal single values, or containers with the same members counted with multiplicity. */
  function Matches(a: QValue, b: QValue): Option<bool> {
    match (a, b)
    case (Ident(x), Ident(y)) => Some(x == y)
    case (Float(x), Float(y)) => Some(x == y)
    case (Boolean(x), Boolean(y)) => Some(x == y)
    case (Multiple(xs), Multiple(ys)) => Some(multiset(xs) == multiset(ys))
    case _ => None
  }

  function Eval(e: Node, env: Env, correct: Env): Option<QValue>
    decreases e
  {
    match e
    case Element(name, attrs, kids) =>
      if name == Q("variable") then
        var id :- AttrOf(attrs, IDENT);
        if id in env then Some(env[id]) else None
      else if name == Q("correct") then
        var id :- AttrOf(attrs, IDENT);
        if id in correct then Some(correct[id]) else None
      else if name == Q("baseValue") then
        var t :- AttrOf(attrs, BASE_TYPE);
        ParseBase(t, TextOf(e))
      else if name == Q("isNull") && |kids| == 1 then
        var v :- Eval(kids[0], env, correct);
        Some(Boolean(v == Null))
      else if name == Q("match") && |kids| == 2 then
        var a :- Eval(kids[0], env, correct);
        var b :- Eval(kids[1], env, correct);
        if a == Null || b == Null then Some(Null)
        else
          var m :- Matches(a, b);
          Some(Boolean(m))
      else if name == Q("sum") && |kids| == 2 then
        var a :- Eval(kids[0], env, correct);
        var b :- Eval(kids[1], env, correct);
        if a == Null || b == Null then Some(Null)
        else if a.Float? && b.Float? then Some(Float(a.r + b.r))
        else None
      else if name == Q("multiple") && |kids| == 2 then
        var a :- Eval(kids[0], env, correct);
        var b :- Eval(kids[1], env, correct);
        if (a.Ident? || a.Multiple? || a.Null?) && (b.Ident? || b.Multiple? || b.Null?) then
          Some(MakeMultiple(Members(a) + Members(b)))
        else None
      else None
    case _ => None
  }

  /** `setOutcomeValue identifier="x"` with one expression, on a declared outcome. */
  function Exec(s: Node, env: Env, correct: Env): Option<Env> {
    if IsNamed(s, Q("setOutcomeValue")) && |s.children| == 1 then
      var id :- AttrOf(s.attrs, IDENT);
      var v :- Eval(s.children[0], env, correct);
      if id in env then Some(env[id := v]) else None
    else None
  }

  function ExecAll(stmts: seq<Node>, env: Env, correct: Env): Option<Env>
    decreases |stmts|
  {
    if stmts == [] then Some(env)
    else
      var env' :- Exec(stmts[0], env, correct);
      ExecAll(stmts[1..], env', correct)
  }

  /** The branches of one `responseCondition`: the first whose condition is true runs. */
  function RunBranches(branches: seq<Node>, env: Env, correct: Env): Option<Env>
    decreases |branches|
  {
    if branches == [] then Some(env)
    else
      var br := branches[0];
      if IsNamed(br, Q("responseElse")) && |branches| == 1 then ExecAll(br.children, env, correct)
      else if (IsNamed(br, Q("responseIf")) || IsNamed(br, Q("responseElseIf"))) && |br.children| >= 1 then
        var c :- Eval(br.children[0], env, correct);
        if c == Boolean(true) then ExecAll(br.children[1..], env, correct)
        else if c == Boolean(false) || c == Null then RunBranches(branches[1..], env, correct)
        else None
      else None
  }

  /** The `responseCondition` rules of `responseProcessing`, run one after the other. */
  function RunRules(rules: seq<Node>, env: Env, correct: Env): Option<Env>
    decreases |rules|
  {
    if rules == [] then Some(env)
    else if IsNamed(rules[0], Q("responseCondition")) && |rules[0].children| >= 1 && IsNamed(rules[0].children[0], Q("responseIf")) then
      var env' :- RunBranches(rules[0].children, env, correct);
      RunRules(rules[1..], env', correct)
    else None
  }

  /** The initial value of one `outcomeDeclaration`. */
  function DeclaredDefault(d: Node): Option<(string, QValue)> {
    if !d.Element? then None
    else
      var id :- AttrOf(d.attrs, IDENT);
      var t :- AttrOf(d.attrs, BASE_TYPE);
      match FirstNamed(d.children, Q("defaultValue"))
      case None => Some((id, if t == "float" then Float(0.0) else Null))
      case Some(dv) =>
        var v :- FirstNamed(dv.children, Q("value"));
        var x :- ParseBase(t, TextOf(v));
        Some((id, x))
  }

  function Defaults(decls: seq<Node>): Option<Env>
    decreases |decls|
  {
    if decls == [] then Some(map[])
    else
      var rest :- Defaults(decls[..|decls| - 1]);
      var p :- DeclaredDefault(decls[|decls| - 1]);
      Some(rest[p.0 := p.1])
  }

  /** The texts of the `value` elements of a `correctResponse`. */
  function ValueTexts(vals: seq<Node>): seq<string> {
    seq(|vals|, i requires 0 <= i < |vals| => TextOf(vals[i]))
  }

  /** The correct response declared by the item, as identifiers. */
  function CorrectResponseOf(item: Node): Option<seq<string>> {
    if !item.Element? then None
    else
      var rd :- FirstNamed(item.children, Q("responseDeclaration"));
      var cr :- FirstNamed(rd.children, Q("correctResponse"));
      Some(ValueTexts(ChildrenNamed(cr.children, Q("value"))))
  }

  /**
   * Score a candidate's selection against an item: declared defaults, the
   * response variable bound to the selection, the declared correct
   * response, then the item's response-processing rules.
   */
  function Grade(item: Node, selection: seq<string>): Option<Env> {
    if !item.Element? then None
    else
      var rd :- FirstNamed(item.children, Q("responseDeclaration"));
      var rid :- AttrOf(rd.attrs, IDENT);
      var cids :- CorrectResponseOf(item);
      var env0 :- Defaults(ChildrenNamed(item.children, Q("outcomeDeclaration")));
      var rp :- FirstNamed(item.children, Q("responseProcessing"));
      RunRules(rp.children, env0[rid := MakeMultiple(selection)], map[rid := MakeMultiple(cids)])
  }

  /** What the candidate gets: the score, the basic feedback identifier and the modal feedback shown. */
  datatype Outcome = Outcome(score: real, basic: string, modal: seq<string>)

  function OutcomeOf(env: Env): Option<Outcome> {
    if "SCORE" in env && env["SCORE"].Float? && "FEEDBACKBASIC" in env && env["FEEDBACKBASIC"].Ident? && "FEEDBACKMODAL" in env then
      Some(Outcome(env["SCORE"].r, env["FEEDBACKBASIC"].id, Members(env["FEEDBACKMODAL"])))
    else None
  }

  function GradeOutcome(item: Node, selection: seq<string>): Option<Outcome> {
    var env :- Grade(item, selection);
    OutcomeOf(env)
  }

  /**
   * The grading an item of the converter is meant to implement, stated
   * independently of any tree: all or nothing on an exact match with a
   * non-empty correct set, the success feedback on a match and the error
   * feedback otherwise (an empty selection included).
   */
  function Routing(correctIds: seq<string>, selection: seq<string>, okId: string, errId: string): Outcome {
    if selection != [] && correctIds != [] && multiset(selection) == multiset(correctIds)
    then Outcome(1.0, "correct", [okId])
    else Outcome(0.0, "incorrect", [errId])
  }
}
