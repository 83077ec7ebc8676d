/**
 * The QTI 2.1 export of TransferAss: one `assessmentItem` per question,
 * an IMS content-packaging manifest listing them, and the item loop that
 * puts both into a zip archive.
 *
 * `uuid.uuid4()` is a supply of strings handed in by the caller; an item
 * with index i (from 0) uses `uuids[3 * i]` for its identifier and the next
 * two for its success and error feedback identifiers, in the order the
 * source draws them.
 */
module TransferQti {
  import opened Wrappers
  import opened PyStr
  import opened Xml
  import opened QuestionModel
  import opened TransferText
  import opened QtiEval

  const NS_XSI := "http://www.w3.org/2001/XMLSchema-instance"
  const NS_IMSCP := "http://www.imsglobal.org/xsd/imscp_v1p1"
  const CARDINALITY := Plain("cardinality")
  const ITEM_SCHEMA_LOCATION := "http://www.imsglobal.org/xsd/imsqti_v2p1 http://www.imsglobal.org/xsd/qti/qtiv2p1/imsqti_v2p1p1.xsd"

  // ---------------------------------------------------------------
  // The fixed parts of an item
  // ---------------------------------------------------------------

  function ValueLeaf(x: string): Node {
    Leaf(Q("value"), [], x)
  }

  function OutcomeDecl(ident: string, baseType: string, default: string): Node {
    Element(Q("outcomeDeclaration"), [(IDENT, ident), (CARDINALITY, "single"), (BASE_TYPE, baseType)],
      [Element(Q("defaultValue"), [], [ValueLeaf(default)])])
  }

  /** The four single-valued outcomes with their defaults, in declaration order. */
  const OUTCOME_TABLE: seq<(string, string, string)> :=
    [("SCORE", "float", "0"), ("MAXSCORE", "float", "1"), ("MINSCORE", "float", "0"), ("FEEDBACKBASIC", "identifier", "empty")]

  const MODAL_DECL: Node :=
    Element(Q("outcomeDeclaration"),
      [(IDENT, "FEEDBACKMODAL"), (CARDINALITY, "multiple"), (BASE_TYPE, "identifier"), (Plain("view"), "testConstructor")], [])

  function ChoiceNode(cid: string, text: string): Node {
    Element(Q("simpleChoice"), [(IDENT, cid)], [Leaf(Q("p"), [], text)])
  }

  function FeedbackNode(fid: string, text: string): Node {
    Element(Q("modalFeedback"), [(IDENT, fid), (Plain("outcomeIdentifier"), "FEEDBACKMODAL"), (Plain("showHide"), "show")],
      [Leaf(Q("p"), [], text)])
  }

  function Var(id: string): Node {
    Element(Q("variable"), [(IDENT, id)], [])
  }

  function BaseValue(baseType: string, text: string): Node {
    Leaf(Q("baseValue"), [(BASE_TYPE, baseType)], text)
  }

  function SetOutcome(id: string, e: Node): Node {
    Element(Q("setOutcomeValue"), [(IDENT, id)], [e])
  }

  function IfThen(cond: Node, actions: seq<Node>): Node {
    Element(Q("responseIf"), [], [cond] + actions)
  }

  function Condition(branches: seq<Node>): Node {
    Element(Q("responseCondition"), [], branches)
  }

  function Call(op: string, a: Node, b: Node): Node {
    Element(Q(op), [], [a, b])
  }

  /** Rule 0: an empty response sets FEEDBACKBASIC to `empty`. */
  const RULE_EMPTY: Node :=
    Condition([IfThen(Element(Q("isNull"), [], [Var("RESPONSE_1")]),
      [SetOutcome("FEEDBACKBASIC", BaseValue("identifier", "empty"))])])

  /** Rule 1: an exact match adds MAXSCORE to SCORE and says `correct`; otherwise SCORE is 0 and it says `incorrect`. */
  const RULE_MATCH: Node :=
    Condition([
      IfThen(Call("match", Var("RESPONSE_1"), Element(Q("correct"), [(IDENT, "RESPONSE_1")], [])),
        [SetOutcome("SCORE", Call("sum", Var("SCORE"), Var("MAXSCORE"))),
         SetOutcome("FEEDBACKBASIC", BaseValue("identifier", "correct"))]),
      Element(Q("responseElse"), [],
        [SetOutcome("SCORE", BaseValue("float", "0")),
         SetOutcome("FEEDBACKBASIC", BaseValue("identifier", "incorrect"))])])

  /** Rules 2 and 3: add the feedback `fid` to FEEDBACKMODAL when FEEDBACKBASIC is `basic`. */
  function RuleShow(basic: string, fid: string): Node {
    Condition([IfThen(Call("match", BaseValue("identifier", basic), Var("FEEDBACKBASIC")),
      [SetOutcome("FEEDBACKMODAL", Call("multiple", Var("FEEDBACKMODAL"), BaseValue("identifier", fid)))])])
  }

  function ResponseProcessing(okId: string, errId: string): Node {
    Element(Q("responseProcessing"), [], [RULE_EMPTY, RULE_MATCH, RuleShow("correct", okId), RuleShow("incorrect", errId)])
  }

  // ---------------------------------------------------------------
  // Evaluation steps of the shapes used above
  // ---------------------------------------------------------------

  lemma EvalVar(id: string, env: Env, correct: Env)
    ensures Eval(Var(id), env, correct) == if id in env then Some(env[id]) else None
  {
  }

  lemma EvalBase(baseType: string, text: string, env: Env, correct: Env)
    ensures Eval(BaseValue(baseType, text), env, correct) == ParseBase(baseType, text)
  {
  }

  lemma EvalMatch(a: Node, b: Node, va: QValue, vb: QValue, env: Env, correct: Env)
    requires Eval(a, env, correct) == Some(va) && Eval(b, env, correct) == Some(vb)
    ensures Eval(Call("match", a, b), env, correct) ==
      if va == QValue.Null || vb == QValue.Null then Some(QValue.Null)
      else if Matches(va, vb).Some? then Some(Boolean(Matches(va, vb).value)) else None
  {
    assert Call("match", a, b).children == [a, b];
  }

  lemma EvalSum(a: Node, b: Node, va: QValue, vb: QValue, env: Env, correct: Env)
    requires Eval(a, env, correct) == Some(va) && Eval(b, env, correct) == Some(vb)
    ensures Eval(Call("sum", a, b), env, correct) ==
      if va == QValue.Null || vb == QValue.Null then Some(QValue.Null)
      else if va.Float? && vb.Float? then Some(Float(va.r + vb.r)) else None
  {
    var e := Call("sum", a, b);
    assert e.children == [a, b];
    if va.Float? && vb.Float? {
      assert Eval(e, env, correct) == Some(Float(va.r + vb.r));
    }
  }

  lemma EvalMultiple(a: Node, b: Node, va: QValue, vb: QValue, env: Env, correct: Env)
    requires Eval(a, env, correct) == Some(va) && Eval(b, env, correct) == Some(vb)
    requires (va.Null? || va.Ident? || va.Multiple?) && (vb.Null? || vb.Ident? || vb.Multiple?)
    ensures Eval(Call("multiple", a, b), env, correct) == Some(MakeMultiple(Members(va) + Members(vb)))
  {
    assert Call("multiple", a, b).children == [a, b];
  }

  lemma ExecSet(id: string, e: Node, v: QValue, env: Env, correct: Env)
    requires Eval(e, env, correct) == Some(v) && id in env
    ensures Exec(SetOutcome(id, e), env, correct) == Some(env[id := v])
  {
  }

  lemma ExecOne(s: Node, env: Env, correct: Env)
    ensures ExecAll([s], env, correct) == Exec(s, env, correct)
  {
    if Exec(s, env, correct).Some? {
      assert [s][1..] == [];
    }
  }

  lemma ExecTwo(s1: Node, s2: Node, env: Env, env1: Env, correct: Env)
    requires Exec(s1, env, correct) == Some(env1)
    ensures ExecAll([s1, s2], env, correct) == ExecAll([s2], env1, correct)
  {
    assert [s1, s2][1..] == [s2];
  }

  /** A condition with one `responseIf` runs its actions on true and nothing otherwise. */
  lemma RunIf(cond: Node, acts: seq<Node>, v: QValue, env: Env, correct: Env)
    requires Eval(cond, env, correct) == Some(v) && (v.Boolean? || v.Null?)
    ensures RunBranches([IfThen(cond, acts)], env, correct) ==
      if v == Boolean(true) then ExecAll(acts, env, correct) else Some(env)
  {
    assert IfThen(cond, acts).children[1..] == acts;
    assert [IfThen(cond, acts)][1..] == [];
  }

  /** A condition with `responseIf` and `responseElse` runs exactly one of them. */
  lemma RunIfElse(cond: Node, acts: seq<Node>, other: seq<Node>, v: QValue, env: Env, correct: Env)
    requires Eval(cond, env, correct) == Some(v) && (v.Boolean? || v.Null?)
    ensures RunBranches([IfThen(cond, acts), Element(Q("responseElse"), [], other)], env, correct) ==
      if v == Boolean(true) then ExecAll(acts, env, correct) else ExecAll(other, env, correct)
  {
    var bs := [IfThen(cond, acts), Element(Q("responseElse"), [], other)];
    assert IfThen(cond, acts).children[1..] == acts;
    assert bs[1..] == [Element(Q("responseElse"), [], other)];
  }

  // ---------------------------------------------------------------
  // Running the fixed response processing
  // ---------------------------------------------------------------

  /** The environment after the declarations, with the response bound. */
  function StartEnv(response: QValue): Env {
    map["SCORE" := Float(0.0), "MAXSCORE" := Float(1.0), "MINSCORE" := Float(0.0),
        "FEEDBACKBASIC" := Ident("empty"), "FEEDBACKMODAL" := QValue.Null, "RESPONSE_1" := response]
  }

  predicate Scored(env: Env) {
    "SCORE" in env && "MAXSCORE" in env && "FEEDBACKBASIC" in env && "FEEDBACKMODAL" in env && "RESPONSE_1" in env
  }

  lemma RuleEmptyKeeps(env: Env, correct: Env)
    requires Scored(env) && env["FEEDBACKBASIC"] == Ident("empty")
    ensures RunBranches(RULE_EMPTY.children, env, correct) == Some(env)
  {
    var isnull := Element(Q("isNull"), [], [Var("RESPONSE_1")]);
    EvalVar("RESPONSE_1", env, correct);
    var v := Boolean(env["RESPONSE_1"] == QValue.Null);
    assert Eval(isnull, env, correct) == Some(v);
    var act := SetOutcome("FEEDBACKBASIC", BaseValue("identifier", "empty"));
    EvalBase("identifier", "empty", env, correct);
    ExecSet("FEEDBACKBASIC", BaseValue("identifier", "empty"), Ident("empty"), env, correct);
    assert env["FEEDBACKBASIC" := Ident("empty")] == env;
    ExecOne(act, env, correct);
    RunIf(isnull, [act], v, env, correct);
  }

  lemma RuleMatchRuns(env: Env, correct: Env, matched: bool)
    requires Scored(env) && env["SCORE"] == Float(0.0) && env["MAXSCORE"] == Float(1.0)
    requires "RESPONSE_1" in correct
    requires (env["RESPONSE_1"].Null? || env["RESPONSE_1"].Multiple?) && (correct["RESPONSE_1"].Null? || correct["RESPONSE_1"].Multiple?)
    requires matched <==> (env["RESPONSE_1"].Multiple? && correct["RESPONSE_1"].Multiple?
                           && multiset(env["RESPONSE_1"].ids) == multiset(correct["RESPONSE_1"].ids))
    ensures RunBranches(RULE_MATCH.children, env, correct) ==
      Some(if matched then env["SCORE" := Float(1.0)]["FEEDBACKBASIC" := Ident("correct")]
           else env["SCORE" := Float(0.0)]["FEEDBACKBASIC" := Ident("incorrect")])
  {
    var cor := Element(Q("correct"), [(IDENT, "RESPONSE_1")], []);
    var m := Call("match", Var("RESPONSE_1"), cor);
    EvalVar("RESPONSE_1", env, correct);
    assert Eval(cor, env, correct) == Some(correct["RESPONSE_1"]);
    EvalMatch(Var("RESPONSE_1"), cor, env["RESPONSE_1"], correct["RESPONSE_1"], env, correct);
    var v := if env["RESPONSE_1"].Null? || correct["RESPONSE_1"].Null? then QValue.Null else Boolean(matched);
    assert Eval(m, env, correct) == Some(v);
    var s1 := SetOutcome("SCORE", Call("sum", Var("SCORE"), Var("MAXSCORE")));
    var s2 := SetOutcome("FEEDBACKBASIC", BaseValue("identifier", "correct"));
    var s3 := SetOutcome("SCORE", BaseValue("float", "0"));
    var s4 := SetOutcome("FEEDBACKBASIC", BaseValue("identifier", "incorrect"));
    RunIfElse(m, [s1, s2], [s3, s4], v, env, correct);
    if matched {
      EvalVar("SCORE", env, correct);
      EvalVar("MAXSCORE", env, correct);
      EvalSum(Var("SCORE"), Var("MAXSCORE"), env["SCORE"], env["MAXSCORE"], env, correct);
      ExecSet("SCORE", Call("sum", Var("SCORE"), Var("MAXSCORE")), Float(1.0), env, correct);
      var env1 := env["SCORE" := Float(1.0)];
      ExecTwo(s1, s2, env, env1, correct);
      EvalBase("identifier", "correct", env1, correct);
      ExecSet("FEEDBACKBASIC", BaseValue("identifier", "correct"), Ident("correct"), env1, correct);
      ExecOne(s2, env1, correct);
    } else {
      assert DigitsValue("0") == 0;
      EvalBase("float", "0", env, correct);
      ExecSet("SCORE", BaseValue("float", "0"), Float(0.0), env, correct);
      var env1 := env["SCORE" := Float(0.0)];
      ExecTwo(s3, s4, env, env1, correct);
      EvalBase("identifier", "incorrect", env1, correct);
      ExecSet("FEEDBACKBASIC", BaseValue("identifier", "incorrect"), Ident("incorrect"), env1, correct);
      ExecOne(s4, env1, correct);
    }
  }

  lemma RuleShowRuns(basic: string, fid: string, env: Env, correct: Env)
    requires Scored(env) && env["FEEDBACKBASIC"].Ident?
    requires env["FEEDBACKMODAL"].Null? || env["FEEDBACKMODAL"].Multiple?
    ensures RunBranches(RuleShow(basic, fid).children, env, correct) ==
      Some(if env["FEEDBACKBASIC"].id == basic
           then env["FEEDBACKMODAL" := MakeMultiple(Members(env["FEEDBACKMODAL"]) + [fid])]
           else env)
  {
    var m := Call("match", BaseValue("identifier", basic), Var("FEEDBACKBASIC"));
    EvalBase("identifier", basic, env, correct);
    EvalVar("FEEDBACKBASIC", env, correct);
    EvalMatch(BaseValue("identifier", basic), Var("FEEDBACKBASIC"), Ident(basic), env["FEEDBACKBASIC"], env, correct);
    var v := Boolean(env["FEEDBACKBASIC"].id == basic);
    var mul := Call("multiple", Var("FEEDBACKMODAL"), BaseValue("identifier", fid));
    EvalVar("FEEDBACKMODAL", env, correct);
    EvalBase("identifier", fid, env, correct);
    EvalMultiple(Var("FEEDBACKMODAL"), BaseValue("identifier", fid), env["FEEDBACKMODAL"], Ident(fid), env, correct);
    var s := SetOutcome("FEEDBACKMODAL", mul);
    ExecSet("FEEDBACKMODAL", mul, MakeMultiple(Members(env["FEEDBACKMODAL"]) + [fid]), env, correct);
    ExecOne(s, env, correct);
    RunIf(m, [s], v, env, correct);
  }

  predicate IsRule(r: Node) {
    IsNamed(r, Q("responseCondition")) && |r.children| >= 1 && IsNamed(r.children[0], Q("responseIf"))
  }

  lemma RunRulesCons(r: Node, rest: seq<Node>, env: Env, env': Env, correct: Env)
    requires IsRule(r) && RunBranches(r.children, env, correct) == Some(env')
    ensures RunRules([r] + rest, env, correct) == RunRules(rest, env', correct)
  {
    assert ([r] + rest)[1..] == rest;
  }

  /** The matched case ends with score 1, `correct` and the success feedback; the other with 0, `incorrect` and the error one. */
  lemma OutcomeAfterRules(response: QValue, matched: bool, okId: string, errId: string)
    ensures var e0 := StartEnv(response);
            var e3 := if matched
                      then e0["SCORE" := Float(1.0)]["FEEDBACKBASIC" := Ident("correct")]["FEEDBACKMODAL" := MakeMultiple([okId])]
                      else e0["SCORE" := Float(0.0)]["FEEDBACKBASIC" := Ident("incorrect")]["FEEDBACKMODAL" := MakeMultiple([errId])];
            OutcomeOf(e3) == Some(if matched then Outcome(1.0, "correct", [okId]) else Outcome(0.0, "incorrect", [errId]))
  {
  }

  /** After a match, the success feedback is shown and the error one is not. */
  lemma FeedbackWhenCorrect(e1: Env, okId: string, errId: string, correct: Env)
    requires Scored(e1) && e1["FEEDBACKBASIC"] == Ident("correct") && e1["FEEDBACKMODAL"] == QValue.Null
    ensures RunRules([RuleShow("correct", okId), RuleShow("incorrect", errId)], e1, correct)
            == Some(e1["FEEDBACKMODAL" := MakeMultiple([okId])])
  {
    var rOk := RuleShow("correct", okId);
    var rErr := RuleShow("incorrect", errId);
    var e2 := e1["FEEDBACKMODAL" := MakeMultiple([okId])];
    RuleShowRuns("correct", okId, e1, correct);
    assert Members(e1["FEEDBACKMODAL"]) == [];
    RuleShowRuns("incorrect", errId, e2, correct);
    RunRulesCons(rErr, [], e2, e2, correct);
    assert [] + [okId] == [okId];
    assert RunBranches(rOk.children, e1, correct) == Some(e2);
    RunRulesCons(rOk, [rErr], e1, e2, correct);
  }

  /** Without a match, only the error feedback is shown. */
  lemma FeedbackWhenIncorrect(e1: Env, okId: string, errId: string, correct: Env)
    requires Scored(e1) && e1["FEEDBACKBASIC"] == Ident("incorrect") && e1["FEEDBACKMODAL"] == QValue.Null
    ensures RunRules([RuleShow("correct", okId), RuleShow("incorrect", errId)], e1, correct)
            == Some(e1["FEEDBACKMODAL" := MakeMultiple([errId])])
  {
    var rOk := RuleShow("correct", okId);
    var rErr := RuleShow("incorrect", errId);
    var e3 := e1["FEEDBACKMODAL" := MakeMultiple([errId])];
    RuleShowRuns("correct", okId, e1, correct);
    RuleShowRuns("incorrect", errId, e1, correct);
    assert Members(e1["FEEDBACKMODAL"]) == [];
    assert [] + [errId] == [errId];
    assert RunBranches(rErr.children, e1, correct) == Some(e3);
    RunRulesCons(rErr, [], e1, e3, correct);
    RunRulesCons(rOk, [rErr], e1, e1, correct);
  }

  lemma RulesWhenMatched(selection: seq<string>, correctIds: seq<string>, okId: string, errId: string)
    requires selection != [] && correctIds != [] && multiset(selection) == multiset(correctIds)
    ensures var e0 := StartEnv(MakeMultiple(selection));
            RunRules(ResponseProcessing(okId, errId).children, e0, map["RESPONSE_1" := MakeMultiple(correctIds)])
            == Some(e0["SCORE" := Float(1.0)]["FEEDBACKBASIC" := Ident("correct")]["FEEDBACKMODAL" := MakeMultiple([okId])])
  {
    var correct := map["RESPONSE_1" := MakeMultiple(correctIds)];
    var e0 := StartEnv(MakeMultiple(selection));
    var rOk := RuleShow("correct", okId);
    var rErr := RuleShow("incorrect", errId);
    RuleEmptyKeeps(e0, correct);
    RuleMatchRuns(e0, correct, true);
    var e1 := e0["SCORE" := Float(1.0)]["FEEDBACKBASIC" := Ident("correct")];
    FeedbackWhenCorrect(e1, okId, errId, correct);
    RunRulesCons(RULE_MATCH, [rOk, rErr], e0, e1, correct);
    RunRulesCons(RULE_EMPTY, [RULE_MATCH, rOk, rErr], e0, e0, correct);
    assert ResponseProcessing(okId, errId).children == [RULE_EMPTY] + [RULE_MATCH, rOk, rErr];
  }

  lemma RulesWhenNotMatched(selection: seq<string>, correctIds: seq<string>, okId: string, errId: string)
    requires !(selection != [] && correctIds != [] && multiset(selection) == multiset(correctIds))
    ensures var e0 := StartEnv(MakeMultiple(selection));
            RunRules(ResponseProcessing(okId, errId).children, e0, map["RESPONSE_1" := MakeMultiple(correctIds)])
            == Some(e0["SCORE" := Float(0.0)]["FEEDBACKBASIC" := Ident("incorrect")]["FEEDBACKMODAL" := MakeMultiple([errId])])
  {
    var correct := map["RESPONSE_1" := MakeMultiple(correctIds)];
    var e0 := StartEnv(MakeMultiple(selection));
    var rOk := RuleShow("correct", okId);
    var rErr := RuleShow("incorrect", errId);
    RuleEmptyKeeps(e0, correct);
    RuleMatchRuns(e0, correct, false);
    var e1 := e0["SCORE" := Float(0.0)]["FEEDBACKBASIC" := Ident("incorrect")];
    FeedbackWhenIncorrect(e1, okId, errId, correct);
    RunRulesCons(RULE_MATCH, [rOk, rErr], e0, e1, correct);
    RunRulesCons(RULE_EMPTY, [RULE_MATCH, rOk, rErr], e0, e0, correct);
    assert ResponseProcessing(okId, errId).children == [RULE_EMPTY] + [RULE_MATCH, rOk, rErr];
  }

  /** The response processing of every item grades as `Routing` says, from the declared start. */
  lemma ResponseProcessingGrades(selection: seq<string>, correctIds: seq<string>, okId: string, errId: string)
    ensures var run := RunRules(ResponseProcessing(okId, errId).children, StartEnv(MakeMultiple(selection)),
                                map["RESPONSE_1" := MakeMultiple(correctIds)]);
            run.Some? && OutcomeOf(run.value) == Some(Routing(correctIds, selection, okId, errId))
  {
    var matched := selection != [] && correctIds != [] && multiset(selection) == multiset(correctIds);
    if matched {
      RulesWhenMatched(selection, correctIds, okId, errId);
    } else {
      RulesWhenNotMatched(selection, correctIds, okId, errId);
    }
    OutcomeAfterRules(MakeMultiple(selection), matched, okId, errId);
  }

  // ---------------------------------------------------------------
  // A whole item
  // ---------------------------------------------------------------

  function ValueLeaves(ids: seq<string>): seq<Node> {
    seq(|ids|, k requires 0 <= k < |ids| => ValueLeaf(ids[k]))
  }

  function ResponseDecl(correctIds: seq<string>): Node {
    Element(Q("responseDeclaration"), [(IDENT, "RESPONSE_1"), (CARDINALITY, "multiple"), (BASE_TYPE, "identifier")],
      [Element(Q("correctResponse"), [], ValueLeaves(correctIds))])
  }

  /** The declarations of the four outcomes of `OUTCOME_TABLE`. */
  const OUTCOME_DECLS: seq<Node> :=
    [OutcomeDecl("SCORE", "float", "0"), OutcomeDecl("MAXSCORE", "float", "1"),
     OutcomeDecl("MINSCORE", "float", "0"), OutcomeDecl("FEEDBACKBASIC", "identifier", "empty")]

  /** The children of an item, in the order the builder appends them. */
  function ItemChildren(correctIds: seq<string>, body: Node, feedbacks: seq<Node>, okId: string, errId: string): seq<Node> {
    [ResponseDecl(correctIds)] + OUTCOME_DECLS + [MODAL_DECL, body] + feedbacks + [ResponseProcessing(okId, errId)]
  }

  /** The environment the five outcome declarations set up. */
  const DECLARED: Env :=
    map["SCORE" := Float(0.0), "MAXSCORE" := Float(1.0), "MINSCORE" := Float(0.0),
        "FEEDBACKBASIC" := Ident("empty"), "FEEDBACKMODAL" := QValue.Null]

  lemma DefaultsSnoc(ds: seq<Node>, d: Node, env: Env, id: string, v: QValue)
    requires Defaults(ds) == Some(env) && DeclaredDefault(d) == Some((id, v))
    ensures Defaults(ds + [d]) == Some(env[id := v])
  {
    assert (ds + [d])[..|ds|] == ds;
  }

  lemma DeclaredDefaultOf(id: string, baseType: string, default: string)
    requires ParseBase(baseType, default).Some?
    ensures DeclaredDefault(OutcomeDecl(id, baseType, default)) == Some((id, ParseBase(baseType, default).value))
  {
    var attrs := [(IDENT, id), (CARDINALITY, "single"), (BASE_TYPE, baseType)];
    assert attrs[1..][1..] == [(BASE_TYPE, baseType)];
    assert AttrOf(attrs[1..][1..], BASE_TYPE) == Some(baseType);
    assert AttrOf(attrs[1..], BASE_TYPE) == Some(baseType);
    assert AttrOf(attrs, BASE_TYPE) == Some(baseType);
    var dv := Element(Q("defaultValue"), [], [ValueLeaf(default)]);
    assert FirstNamed([dv], Q("defaultValue")) == Some(dv);
    assert FirstNamed(dv.children, Q("value")) == Some(ValueLeaf(default));
  }

  lemma ModalDeclDefault()
    ensures DeclaredDefault(MODAL_DECL) == Some(("FEEDBACKMODAL", QValue.Null))
  {
    var attrs := MODAL_DECL.attrs;
    assert attrs[1..][1..] == [(BASE_TYPE, "identifier"), (Plain("view"), "testConstructor")];
    assert AttrOf(attrs[1..][1..], BASE_TYPE) == Some("identifier");
    assert AttrOf(attrs[1..], BASE_TYPE) == Some("identifier");
    assert AttrOf(attrs, BASE_TYPE) == Some("identifier");
    assert FirstNamed(MODAL_DECL.children, Q("defaultValue")) == None;
  }

  /** The score and maximum-score declarations, read in order. */
  lemma ScoreDeclsDefault()
    ensures Defaults(OUTCOME_DECLS[..2]) == Some(map["SCORE" := Float(0.0)]["MAXSCORE" := Float(1.0)])
  {
    assert DigitsValue("0") == 0 && DigitsValue("1") == 1;
    var d := OUTCOME_DECLS;
    DeclaredDefaultOf("SCORE", "float", "0");
    DeclaredDefaultOf("MAXSCORE", "float", "1");
    var m0: Env := map[];
    assert Defaults([]) == Some(m0);
    DefaultsSnoc([], d[0], m0, "SCORE", Float(0.0));
    assert [] + [d[0]] == [d[0]];
    assert [d[0]] + [d[1]] == [d[0], d[1]] == d[..2];
    DefaultsSnoc([d[0]], d[1], m0["SCORE" := Float(0.0)], "MAXSCORE", Float(1.0));
  }

  /** The four declarations with a default value, read in order. */
  lemma OutcomeDeclsDefault()
    ensures Defaults(OUTCOME_DECLS) ==
      Some(map["SCORE" := Float(0.0)]["MAXSCORE" := Float(1.0)]["MINSCORE" := Float(0.0)]["FEEDBACKBASIC" := Ident("empty")])
  {
    var d := OUTCOME_DECLS;
    ScoreDeclsDefault();
    LowerDeclsDefault();
    assert d == d[..2] + [d[2], d[3]];
    DefaultsPair(d[..2], d[2], d[3], map["SCORE" := Float(0.0)]["MAXSCORE" := Float(1.0)],
                 "MINSCORE", Float(0.0), "FEEDBACKBASIC", Ident("empty"));
  }

  lemma LowerDeclsDefault()
    ensures DeclaredDefault(OUTCOME_DECLS[2]) == Some(("MINSCORE", Float(0.0)))
    ensures DeclaredDefault(OUTCOME_DECLS[3]) == Some(("FEEDBACKBASIC", Ident("empty")))
  {
    assert DigitsValue("0") == 0;
    DeclaredDefaultOf("MINSCORE", "float", "0");
    DeclaredDefaultOf("FEEDBACKBASIC", "identifier", "empty");
  }

  lemma DefaultsPair(ds: seq<Node>, d1: Node, d2: Node, env: Env, id1: string, v1: QValue, id2: string, v2: QValue)
    requires Defaults(ds) == Some(env)
    requires DeclaredDefault(d1) == Some((id1, v1)) && DeclaredDefault(d2) == Some((id2, v2))
    ensures Defaults(ds + [d1, d2]) == Some(env[id1 := v1][id2 := v2])
  {
    DefaultsSnoc(ds, d1, env, id1, v1);
    DefaultsSnoc(ds + [d1], d2, env[id1 := v1], id2, v2);
    assert ds + [d1] + [d2] == ds + [d1, d2];
  }

  lemma DeclarationsDefault()
    ensures Defaults(OUTCOME_DECLS + [MODAL_DECL]) == Some(DECLARED)
  {
    var m4: Env := map["SCORE" := Float(0.0)]["MAXSCORE" := Float(1.0)]["MINSCORE" := Float(0.0)]["FEEDBACKBASIC" := Ident("empty")];
    OutcomeDeclsDefault();
    ModalDeclDefault();
    DefaultsSnoc(OUTCOME_DECLS, MODAL_DECL, m4, "FEEDBACKMODAL", QValue.Null);
    assert m4["FEEDBACKMODAL" := QValue.Null] == DECLARED;
  }

  lemma CorrectResponseRead(ids: seq<string>)
    ensures ValueTexts(ChildrenNamed(ValueLeaves(ids), Q("value"))) == ids
  {
    ChildrenNamedAll(ValueLeaves(ids), Q("value"));
  }

  lemma OutcomeDeclsNamed()
    ensures forall i :: 0 <= i < |OUTCOME_DECLS + [MODAL_DECL]| ==> IsNamed((OUTCOME_DECLS + [MODAL_DECL])[i], Q("outcomeDeclaration"))
  {
  }

  lemma ItemOutcomeDecls(correctIds: seq<string>, body: Node, feedbacks: seq<Node>, okId: string, errId: string)
    requires IsNamed(body, Q("itemBody"))
    requires forall i :: 0 <= i < |feedbacks| ==> IsNamed(feedbacks[i], Q("modalFeedback"))
    ensures ChildrenNamed(ItemChildren(correctIds, body, feedbacks, okId, errId), Q("outcomeDeclaration")) == OUTCOME_DECLS + [MODAL_DECL]
  {
    var n := Q("outcomeDeclaration");
    var rd := [ResponseDecl(correctIds)];
    var od := OUTCOME_DECLS + [MODAL_DECL];
    var rest := [body] + feedbacks + [ResponseProcessing(okId, errId)];
    assert ItemChildren(correctIds, body, feedbacks, okId, errId) == rd + (od + rest);
    ChildrenNamedAppend(rd, od + rest, n);
    ChildrenNamedAppend(od, rest, n);
    ChildrenNamedNone(rd, n);
    OutcomeDeclsNamed();
    ChildrenNamedAll(od, n);
    ChildrenNamedNone(rest, n);
  }

  lemma ItemFeedbacks(correctIds: seq<string>, body: Node, feedbacks: seq<Node>, okId: string, errId: string)
    requires IsNamed(body, Q("itemBody"))
    requires forall i :: 0 <= i < |feedbacks| ==> IsNamed(feedbacks[i], Q("modalFeedback"))
    ensures ChildrenNamed(ItemChildren(correctIds, body, feedbacks, okId, errId), Q("modalFeedback")) == feedbacks
  {
    var n := Q("modalFeedback");
    var front := [ResponseDecl(correctIds)] + OUTCOME_DECLS + [MODAL_DECL, body];
    var rp := [ResponseProcessing(okId, errId)];
    assert ItemChildren(correctIds, body, feedbacks, okId, errId) == front + (feedbacks + rp);
    ChildrenNamedAppend(front, feedbacks + rp, n);
    ChildrenNamedAppend(feedbacks, rp, n);
    ChildrenNamedNone(front, n);
    ChildrenNamedAll(feedbacks, n);
    ChildrenNamedNone(rp, n);
  }

  lemma ItemParts(correctIds: seq<string>, body: Node, feedbacks: seq<Node>, okId: string, errId: string)
    requires IsNamed(body, Q("itemBody"))
    ensures var kids := ItemChildren(correctIds, body, feedbacks, okId, errId);
            && FirstNamed(kids, Q("responseDeclaration")) == Some(ResponseDecl(correctIds))
            && FirstNamed(kids, Q("itemBody")) == Some(body)
  {
    var kids := ItemChildren(correctIds, body, feedbacks, okId, errId);
    var front := [ResponseDecl(correctIds)] + OUTCOME_DECLS + [MODAL_DECL];
    assert kids == front + ([body] + feedbacks + [ResponseProcessing(okId, errId)]);
    assert forall i :: 0 <= i < |front| ==> !IsNamed(front[i], Q("itemBody"));
    FirstNamedAppend(front, [body] + feedbacks + [ResponseProcessing(okId, errId)], Q("itemBody"));
  }

  lemma ItemProcessing(correctIds: seq<string>, body: Node, feedbacks: seq<Node>, okId: string, errId: string)
    requires IsNamed(body, Q("itemBody"))
    requires forall i :: 0 <= i < |feedbacks| ==> IsNamed(feedbacks[i], Q("modalFeedback"))
    ensures FirstNamed(ItemChildren(correctIds, body, feedbacks, okId, errId), Q("responseProcessing"))
            == Some(ResponseProcessing(okId, errId))
  {
    var all := [ResponseDecl(correctIds)] + OUTCOME_DECLS + [MODAL_DECL, body] + feedbacks;
    assert ItemChildren(correctIds, body, feedbacks, okId, errId) == all + [ResponseProcessing(okId, errId)];
    assert forall i :: 0 <= i < |all| ==> !IsNamed(all[i], Q("responseProcessing"));
    FirstNamedAppend(all, [ResponseProcessing(okId, errId)], Q("responseProcessing"));
  }

  /** Every item built from these parts declares `correctIds` as its correct response. */
  lemma ItemCorrect(attrs: seq<(QName, string)>, correctIds: seq<string>, body: Node, feedbacks: seq<Node>, okId: string, errId: string)
    requires IsNamed(body, Q("itemBody"))
    ensures CorrectResponseOf(Element(Q("assessmentItem"), attrs, ItemChildren(correctIds, body, feedbacks, okId, errId))) == Some(correctIds)
  {
    ItemParts(correctIds, body, feedbacks, okId, errId);
    CorrectResponseRead(correctIds);
    var rd := ResponseDecl(correctIds);
    assert FirstNamed(rd.children, Q("correctResponse")) == Some(rd.children[0]);
  }

  /** Every item built from these parts grades a selection as `Routing` says. */
  lemma ItemGrades(attrs: seq<(QName, string)>, correctIds: seq<string>, body: Node, feedbacks: seq<Node>,
                   okId: string, errId: string, selection: seq<string>)
    requires IsNamed(body, Q("itemBody"))
    requires forall i :: 0 <= i < |feedbacks| ==> IsNamed(feedbacks[i], Q("modalFeedback"))
    ensures GradeOutcome(Element(Q("assessmentItem"), attrs, ItemChildren(correctIds, body, feedbacks, okId, errId)), selection)
            == Some(Routing(correctIds, selection, okId, errId))
  {
    var item := Element(Q("assessmentItem"), attrs, ItemChildren(correctIds, body, feedbacks, okId, errId));
    ItemOutcomeDecls(correctIds, body, feedbacks, okId, errId);
    ItemProcessing(correctIds, body, feedbacks, okId, errId);
    DeclarationsDefault();
    ItemCorrect(attrs, correctIds, body, feedbacks, okId, errId);
    assert DECLARED["RESPONSE_1" := MakeMultiple(selection)] == StartEnv(MakeMultiple(selection));
    ResponseProcessingGrades(selection, correctIds, okId, errId);
  }

  // ---------------------------------------------------------------
  // Reading an item back
  // ---------------------------------------------------------------

  function AttrText(n: Node, key: QName): string {
    match Attribute(n, key)
    case Some(v) => v
    case None => ""
  }

  /** (identifier, text of the first child) of each node, as for choices and modal feedbacks. */
  function IdTextPairs(ns: seq<Node>): seq<(string, string)> {
    seq(|ns|, i requires 0 <= i < |ns| =>
      (AttrText(ns[i], IDENT), if ns[i].Element? && |ns[i].children| > 0 then TextOf(ns[i].children[0]) else ""))
  }

  function ItemBodyOf(item: Node): Option<Node> {
    if item.Element? then FirstNamed(item.children, Q("itemBody")) else None
  }

  function PromptOf(item: Node): Option<string> {
    var body :- ItemBodyOf(item);
    var p :- FirstNamed(body.children, Q("p"));
    Some(TextOf(p))
  }

  function InteractionOf(item: Node): Option<Node> {
    var body :- ItemBodyOf(item);
    FirstNamed(body.children, Q("choiceInteraction"))
  }

  /** The (identifier, text) of each `simpleChoice`, in document order. */
  function ChoicesOf(item: Node): Option<seq<(string, string)>> {
    var ci :- InteractionOf(item);
    Some(IdTextPairs(ChildrenNamed(ci.children, Q("simpleChoice"))))
  }

  function ShuffleOf(item: Node): Option<string> {
    var ci :- InteractionOf(item);
    Attribute(ci, Plain("shuffle"))
  }

  /** The (identifier, text) of each `modalFeedback`, in document order. */
  function FeedbacksOf(item: Node): seq<(string, string)> {
    if item.Element? then IdTextPairs(ChildrenNamed(item.children, Q("modalFeedback"))) else []
  }

  // ---------------------------------------------------------------
  // make_item_xml
  // ---------------------------------------------------------------

  function ItemAttrs(itemId: string, title: string): seq<(QName, string)> {
    [(QName(NS_XSI, "schemaLocation"), ITEM_SCHEMA_LOCATION),
     (IDENT, itemId), (Plain("title"), title), (Plain("adaptive"), "false"), (Plain("timeDependent"), "false")]
  }

  function ChoiceNodes(choices: seq<(string, string)>): seq<Node> {
    seq(|choices|, k requires 0 <= k < |choices| => ChoiceNode(choices[k].0, choices[k].1))
  }

  function ItemBody(stem: string, choices: seq<(string, string)>, shuffle: bool): Node {
    Element(Q("itemBody"), [], [Leaf(Q("p"), [], stem),
      Element(Q("choiceInteraction"),
        [(Plain("responseIdentifier"), "RESPONSE_1"), (Plain("shuffle"), if shuffle then "true" else "false"), (Plain("maxChoices"), "0")],
        ChoiceNodes(choices))])
  }

  /** The tree `make_item_xml` returns. */
  function BuiltItem(itemId: string, title: string, stem: string, choices: seq<(string, string)>, correctIds: seq<string>,
                     successText: string, errorText: string, shuffle: bool, okId: string, errId: string): Node {
    Element(Q("assessmentItem"), ItemAttrs(itemId, title),
      ItemChildren(correctIds, ItemBody(stem, choices, shuffle), [FeedbackNode(okId, successText), FeedbackNode(errId, errorText)], okId, errId))
  }

  lemma ItemAttrsRead(itemId: string, title: string)
    ensures AttrOf(ItemAttrs(itemId, title), IDENT) == Some(itemId)
    ensures AttrOf(ItemAttrs(itemId, title), Plain("title")) == Some(title)
  {
    var attrs := ItemAttrs(itemId, title);
    assert attrs[0].0 != IDENT && attrs[0].0 != Plain("title");
    assert attrs[1..][0] == (IDENT, itemId);
    assert attrs[1..][0].0 != Plain("title");
    assert attrs[1..][1..][0] == (Plain("title"), title);
    assert AttrOf(attrs[1..][1..], Plain("title")) == Some(title);
    assert AttrOf(attrs[1..], Plain("title")) == Some(title);
  }

  lemma ChoicesRead(choices: seq<(string, string)>)
    ensures IdTextPairs(ChildrenNamed(ChoiceNodes(choices), Q("simpleChoice"))) == choices
  {
    ChildrenNamedAll(ChoiceNodes(choices), Q("simpleChoice"));
  }

  lemma BuiltItemBody(itemId: string, title: string, stem: string, choices: seq<(string, string)>, correctIds: seq<string>,
                      successText: string, errorText: string, shuffle: bool, okId: string, errId: string)
    ensures var item := BuiltItem(itemId, title, stem, choices, correctIds, successText, errorText, shuffle, okId, errId);
            && PromptOf(item) == Some(stem)
            && ChoicesOf(item) == Some(choices)
            && ShuffleOf(item) == Some(if shuffle then "true" else "false")
  {
    var item := BuiltItem(itemId, title, stem, choices, correctIds, successText, errorText, shuffle, okId, errId);
    var body := ItemBody(stem, choices, shuffle);
    ItemParts(correctIds, body, [FeedbackNode(okId, successText), FeedbackNode(errId, errorText)], okId, errId);
    assert ItemBodyOf(item) == Some(body);
    var ci := body.children[1];
    assert FirstNamed(body.children, Q("choiceInteraction")) == Some(ci);
    assert InteractionOf(item) == Some(ci);
    ChoicesRead(choices);
    var flag := if shuffle then "true" else "false";
    assert ci.attrs[0].0 != Plain("shuffle");
    assert ci.attrs[1..][0] == (Plain("shuffle"), flag);
    assert AttrOf(ci.attrs[1..], Plain("shuffle")) == Some(flag);
    assert AttrOf(ci.attrs, Plain("shuffle")) == Some(flag);
  }

  lemma BuiltItemDeclares(itemId: string, title: string, stem: string, choices: seq<(string, string)>, correctIds: seq<string>,
                          successText: string, errorText: string, shuffle: bool, okId: string, errId: string)
    ensures var item := BuiltItem(itemId, title, stem, choices, correctIds, successText, errorText, shuffle, okId, errId);
            && Attribute(item, IDENT) == Some(itemId)
            && Attribute(item, Plain("title")) == Some(title)
            && CorrectResponseOf(item) == Some(correctIds)
            && FeedbacksOf(item) == [(okId, successText), (errId, errorText)]
  {
    ItemAttrsRead(itemId, title);
    BuiltItemCorrect(itemId, title, stem, choices, correctIds, successText, errorText, shuffle, okId, errId);
    BuiltItemFeedbacks(itemId, title, stem, choices, correctIds, successText, errorText, shuffle, okId, errId);
  }

  lemma BuiltItemCorrect(itemId: string, title: string, stem: string, choices: seq<(string, string)>, correctIds: seq<string>,
                         successText: string, errorText: string, shuffle: bool, okId: string, errId: string)
    ensures CorrectResponseOf(BuiltItem(itemId, title, stem, choices, correctIds, successText, errorText, shuffle, okId, errId)) == Some(correctIds)
  {
    ItemCorrect(ItemAttrs(itemId, title), correctIds, ItemBody(stem, choices, shuffle),
                [FeedbackNode(okId, successText), FeedbackNode(errId, errorText)], okId, errId);
  }

  lemma BuiltItemFeedbacks(itemId: string, title: string, stem: string, choices: seq<(string, string)>, correctIds: seq<string>,
                           successText: string, errorText: string, shuffle: bool, okId: string, errId: string)
    ensures FeedbacksOf(BuiltItem(itemId, title, stem, choices, correctIds, successText, errorText, shuffle, okId, errId))
            == [(okId, successText), (errId, errorText)]
  {
    var fbs := [FeedbackNode(okId, successText), FeedbackNode(errId, errorText)];
    ItemFeedbacks(correctIds, ItemBody(stem, choices, shuffle), fbs, okId, errId);
    FeedbackPairs(okId, successText, errId, errorText);
  }

  lemma FeedbackPairs(okId: string, successText: string, errId: string, errorText: string)
    ensures IdTextPairs([FeedbackNode(okId, successText), FeedbackNode(errId, errorText)]) == [(okId, successText), (errId, errorText)]
  {
  }

  /**
   * Build one QTI 2.1 `assessmentItem`. `itemUuid`, `okUuid` and `errUuid`
   * stand for the three `uuid4()` draws. The item declares `correctIds` as
   * the correct response, offers `choices` in order under `stem`, carries the
   * two modal feedbacks, and its response processing grades every selection
   * all or nothing.
   */
  method MakeItemXml(title: string, stem: string, choices: seq<(string, string)>, correctIds: seq<string>,
                     successText: string, errorText: string, shuffle: bool,
                     itemUuid: string, okUuid: string, errUuid: string)
    returns (itemId: string, item: Node)
    ensures itemId == "item-" + itemUuid
    ensures Attribute(item, IDENT) == Some(itemId) && Attribute(item, Plain("title")) == Some(title)
    ensures CorrectResponseOf(item) == Some(correctIds)
    ensures PromptOf(item) == Some(stem)
    ensures ChoicesOf(item) == Some(choices)
    ensures ShuffleOf(item) == Some(if shuffle then "true" else "false")
    ensures FeedbacksOf(item) == [("id-" + okUuid, successText), ("id-" + errUuid, errorText)]
    ensures forall selection :: GradeOutcome(item, selection) == Some(Routing(correctIds, selection, "id-" + okUuid, "id-" + errUuid))
    ensures item == BuiltItem(itemId, title, stem, choices, correctIds, successText, errorText, shuffle, "id-" + okUuid, "id-" + errUuid)
  {
    itemId := "item-" + itemUuid;
    var values := MakeValues(correctIds);
    var rd := Element(Q("responseDeclaration"), [(IDENT, "RESPONSE_1"), (CARDINALITY, "multiple"), (BASE_TYPE, "identifier")],
                      [Element(Q("correctResponse"), [], values)]);
    var decls := MakeOutcomeDecls();
    var choiceNodes := MakeChoices(choices);
    var ci := Element(Q("choiceInteraction"),
                      [(Plain("responseIdentifier"), "RESPONSE_1"), (Plain("shuffle"), if shuffle then "true" else "false"), (Plain("maxChoices"), "0")],
                      choiceNodes);
    var body := Element(Q("itemBody"), [], [Leaf(Q("p"), [], stem), ci]);

    var okId := "id-" + okUuid;
    var errId := "id-" + errUuid;
    var feedbacks := MakeFeedbacks([(okId, successText), (errId, errorText)]);

    var rp := ResponseProcessing(okId, errId);
    item := Element(Q("assessmentItem"), ItemAttrs(itemId, title), [rd] + decls + [MODAL_DECL, body] + feedbacks + [rp]);
    assert item == BuiltItem(itemId, title, stem, choices, correctIds, successText, errorText, shuffle, okId, errId);
    BuiltItemBody(itemId, title, stem, choices, correctIds, successText, errorText, shuffle, okId, errId);
    BuiltItemDeclares(itemId, title, stem, choices, correctIds, successText, errorText, shuffle, okId, errId);
    BuiltItemGrades(itemId, title, stem, choices, correctIds, successText, errorText, shuffle, okId, errId);
  }

  /** One `value` element per correct identifier, in order. */
  method MakeValues(ids: seq<string>) returns (values: seq<Node>)
    ensures values == ValueLeaves(ids)
  {
    values := [];
    for k := 0 to |ids|
      invariant |values| == k
      invariant forall j :: 0 <= j < k ==> values[j] == ValueLeaf(ids[j])
    {
      values := values + [ValueLeaf(ids[k])];
    }
  }

  /** The four outcome declarations, built from their table. */
  method MakeOutcomeDecls() returns (decls: seq<Node>)
    ensures decls == OUTCOME_DECLS
  {
    decls := [];
    for k := 0 to |OUTCOME_TABLE|
      invariant |decls| == k
      invariant forall j :: 0 <= j < k ==> decls[j] == OutcomeDecl(OUTCOME_TABLE[j].0, OUTCOME_TABLE[j].1, OUTCOME_TABLE[j].2)
    {
      var (ident, baseType, default) := OUTCOME_TABLE[k];
      decls := decls + [OutcomeDecl(ident, baseType, default)];
    }
  }

  /** One `simpleChoice` per (identifier, text), in order. */
  method MakeChoices(choices: seq<(string, string)>) returns (nodes: seq<Node>)
    ensures nodes == ChoiceNodes(choices)
  {
    nodes := [];
    for k := 0 to |choices|
      invariant |nodes| == k
      invariant forall j :: 0 <= j < k ==> nodes[j] == ChoiceNode(choices[j].0, choices[j].1)
    {
      nodes := nodes + [ChoiceNode(choices[k].0, choices[k].1)];
    }
  }

  /** One `modalFeedback` per (identifier, text), in order. */
  method MakeFeedbacks(table: seq<(string, string)>) returns (nodes: seq<Node>)
    ensures |nodes| == |table| && forall j :: 0 <= j < |table| ==> nodes[j] == FeedbackNode(table[j].0, table[j].1)
  {
    nodes := [];
    for k := 0 to |table|
      invariant |nodes| == k
      invariant forall j :: 0 <= j < k ==> nodes[j] == FeedbackNode(table[j].0, table[j].1)
    {
      nodes := nodes + [FeedbackNode(table[k].0, table[k].1)];
    }
  }

  // ---------------------------------------------------------------
  // Choice identifiers and the correct set
  // ---------------------------------------------------------------

  /** `f"ID_{i+1}"` for the option at position i. */
  function ChoiceId(i: nat): string {
    "ID_" + Decimal(i + 1)
  }

  lemma ChoiceIdInjective(i: nat, j: nat)
    requires ChoiceId(i) == ChoiceId(j)
    ensures i == j
  {
    assert ChoiceId(i)[3..] == Decimal(i + 1);
    assert ChoiceId(j)[3..] == Decimal(j + 1);
    DecimalInjective(i + 1, j + 1);
  }

  /** The identifiers of the truthy options, the choices being numbered from `first`. */
  function CorrectIdsFrom(options: seq<(string, Value)>, first: nat): seq<string>
    decreases |options|
  {
    if options == [] then []
    else (if Truthy(options[0].1) then [ChoiceId(first)] else []) + CorrectIdsFrom(options[1..], first + 1)
  }

  /** `[cid for cid, ok in zip(choice_ids, values) if ok]` */
  function CorrectIds(options: seq<(string, Value)>): seq<string> {
    CorrectIdsFrom(options, 0)
  }

  function CountTruthy(options: seq<(string, Value)>): nat
    decreases |options|
  {
    if options == [] then 0 else (if Truthy(options[0].1) then 1 else 0) + CountTruthy(options[1..])
  }

  lemma {:induction false} CorrectIdsFromMembers(options: seq<(string, Value)>, first: nat, m: nat)
    ensures ChoiceId(m) in CorrectIdsFrom(options, first) <==> first <= m < first + |options| && Truthy(options[m - first].1)
    decreases |options|
  {
    if options != [] {
      var head := if Truthy(options[0].1) then [ChoiceId(first)] else [];
      var rest := CorrectIdsFrom(options[1..], first + 1);
      assert CorrectIdsFrom(options, first) == head + rest;
      CorrectIdsFromMembers(options[1..], first + 1, m);
      if ChoiceId(m) == ChoiceId(first) {
        ChoiceIdInjective(m, first);
      }
      if first < m < first + |options| {
        assert options[1..][m - (first + 1)] == options[m - first];
      }
    }
  }

  /** The choice `ID_(j+1)` is in the correct set exactly when option j is truthy. */
  lemma CorrectIdsMembers(options: seq<(string, Value)>, j: nat)
    ensures ChoiceId(j) in CorrectIds(options) <==> j < |options| && Truthy(options[j].1)
  {
    CorrectIdsFromMembers(options, 0, j);
  }

  /** Every member of the correct set is the identifier of some choice. */
  lemma {:induction false} CorrectIdsAreChoices(options: seq<(string, Value)>, first: nat, k: nat)
    requires k < |CorrectIdsFrom(options, first)|
    ensures exists j: nat :: first <= j < first + |options| && CorrectIdsFrom(options, first)[k] == ChoiceId(j)
    decreases |options|
  {
    var head := if Truthy(options[0].1) then [ChoiceId(first)] else [];
    var r := CorrectIdsFrom(options, first);
    assert r == head + CorrectIdsFrom(options[1..], first + 1);
    if k < |head| {
      assert r[k] == ChoiceId(first);
    } else {
      CorrectIdsAreChoices(options[1..], first + 1, k - |head|);
      var j: nat :| first + 1 <= j < first + 1 + |options[1..]| && CorrectIdsFrom(options[1..], first + 1)[k - |head|] == ChoiceId(j);
      assert r[k] == ChoiceId(j);
    }
  }

  /** The correct set has one identifier per truthy option. */
  lemma {:induction false} CorrectIdsCount(options: seq<(string, Value)>, first: nat)
    ensures |CorrectIdsFrom(options, first)| == CountTruthy(options)
    decreases |options|
  {
    if options != [] {
      CorrectIdsCount(options[1..], first + 1);
    }
  }

  /** The (identifier, cleaned text) pairs offered as choices. */
  function ItemChoices(options: seq<(string, Value)>, stripPrefixes: bool, convertMath: bool): seq<(string, string)> {
    seq(|options|, k requires 0 <= k < |options| => (ChoiceId(k), CleanOptionText(options[k].0, stripPrefixes, convertMath)))
  }

  /**
   * No partial credit: a selection that includes a wrong choice, or leaves
   * out a right one, scores 0 with the error feedback; selecting exactly
   * the right choices scores 1 with the success feedback when there is one.
   */
  lemma AllOrNothing(options: seq<(string, Value)>, selection: seq<string>, okId: string, errId: string)
    ensures forall j: nat :: j < |options| && !Truthy(options[j].1) && ChoiceId(j) in selection ==>
              Routing(CorrectIds(options), selection, okId, errId) == Outcome(0.0, "incorrect", [errId])
    ensures forall j: nat :: j < |options| && Truthy(options[j].1) && ChoiceId(j) !in selection ==>
              Routing(CorrectIds(options), selection, okId, errId) == Outcome(0.0, "incorrect", [errId])
    ensures CountTruthy(options) > 0 ==>
              Routing(CorrectIds(options), CorrectIds(options), okId, errId) == Outcome(1.0, "correct", [okId])
  {
    var c := CorrectIds(options);
    forall j: nat | j < |options| && !Truthy(options[j].1) && ChoiceId(j) in selection
      ensures Routing(c, selection, okId, errId) == Outcome(0.0, "incorrect", [errId])
    {
      CorrectIdsMembers(options, j);
      assert multiset(selection)[ChoiceId(j)] > 0 == multiset(c)[ChoiceId(j)];
    }
    forall j: nat | j < |options| && Truthy(options[j].1) && ChoiceId(j) !in selection
      ensures Routing(c, selection, okId, errId) == Outcome(0.0, "incorrect", [errId])
    {
      CorrectIdsMembers(options, j);
      assert multiset(c)[ChoiceId(j)] > 0 == multiset(selection)[ChoiceId(j)];
    }
    CorrectIdsCount(options, 0);
  }

  // ---------------------------------------------------------------
  // make_manifest_xml
  // ---------------------------------------------------------------

  function CP(local: string): QName {
    QName(NS_IMSCP, local)
  }

  /** The last position of `c` in `s`. */
  function LastIndex(s: string, c: char): (r: Option<nat>)
    ensures r.Some? ==> r.value < |s| && s[r.value] == c && forall k :: r.value < k < |s| ==> s[k] != c
    ensures r.None? ==> c !in s
  {
    if s == [] then None
    else if s[|s| - 1] == c then Some(|s| - 1)
    else LastIndex(s[..|s| - 1], c)
  }

  /** `Path(fname).stem`: the last path component without its final suffix. */
  function Stem(fname: string): string {
    var name := match LastIndex(fname, '/') case Some(i) => fname[i + 1..] case None => fname;
    match LastIndex(name, '.')
    case Some(i) => if 0 < i < |name| - 1 then name[..i] else name
    case None => name
  }

  /** `"res_" + Path(fname).stem.replace('-', '_')` */
  function ResourceId(fname: string): string {
    "res_" + Replace(Stem(fname), "-", "_")
  }

  function ResourceNode(fname: string): Node {
    Element(CP("resource"), [(IDENT, ResourceId(fname)), (Plain("type"), "imsqti_item_xmlv2p1"), (Plain("href"), fname)],
      [Element(CP("file"), [(Plain("href"), fname)], [])])
  }

  /** (identifier, href, file href) of each resource of a manifest. */
  function ResourcesOf(manifest: Node): Option<seq<(string, string, string)>> {
    if !manifest.Element? then None
    else
      var res :- FirstNamed(manifest.children, CP("resources"));
      Some(ResourceTriples(ChildrenNamed(res.children, CP("resource"))))
  }

  function ResourceTriples(rs: seq<Node>): seq<(string, string, string)> {
    seq(|rs|, i requires 0 <= i < |rs| =>
      (AttrText(rs[i], IDENT), AttrText(rs[i], Plain("href")),
       if rs[i].Element? && |rs[i].children| > 0 then AttrText(rs[i].children[0], Plain("href")) else ""))
  }

  function ExpectedResources(fnames: seq<string>): seq<(string, string, string)> {
    seq(|fnames|, i requires 0 <= i < |fnames| => (ResourceId(fnames[i]), fnames[i], fnames[i]))
  }

  lemma ResourceNodeRead(fname: string)
    ensures AttrText(ResourceNode(fname), IDENT) == ResourceId(fname)
    ensures AttrText(ResourceNode(fname), Plain("href")) == fname
    ensures AttrText(ResourceNode(fname).children[0], Plain("href")) == fname
  {
    var attrs := ResourceNode(fname).attrs;
    assert attrs[1..][1..][0] == (Plain("href"), fname);
    assert AttrOf(attrs[1..][1..], Plain("href")) == Some(fname);
    assert AttrOf(attrs[1..], Plain("href")) == Some(fname);
  }

  function ResourceNodes(fnames: seq<string>): seq<Node> {
    seq(|fnames|, i requires 0 <= i < |fnames| => ResourceNode(fnames[i]))
  }

  const MANIFEST_ATTRS: seq<(QName, string)> :=
    [(QName(NS_XSI, "schemaLocation"),
      "http://www.imsglobal.org/xsd/imscp_v1p1 http://www.imsglobal.org/xsd/imscp_v1p1.xsd "
      + "http://www.imsglobal.org/xsd/imsqti_v2p1 http://www.imsglobal.org/xsd/qti/qtiv2p1/imsqti_v2p1p1.xsd"),
     (IDENT, "manifestID")]

  const METADATA: Node :=
    Element(CP("metadata"), [], [Leaf(Plain("schema"), [], "QTIv2.1 Package"), Leaf(Plain("schemaversion"), [], "1.0.0")])

  function ManifestTree(resNodes: seq<Node>): Node {
    Element(CP("manifest"), MANIFEST_ATTRS, [METADATA, Element(CP("organizations"), [], []), Element(CP("resources"), [], resNodes)])
  }

  lemma ResourceTriplesOf(fnames: seq<string>)
    ensures ResourceTriples(ResourceNodes(fnames)) == ExpectedResources(fnames)
  {
    forall j | 0 <= j < |fnames| {
      ResourceNodeRead(fnames[j]);
    }
  }

  lemma ManifestReadsBack(fnames: seq<string>)
    ensures ResourcesOf(ManifestTree(ResourceNodes(fnames))) == Some(ExpectedResources(fnames))
    ensures Attribute(ManifestTree(ResourceNodes(fnames)), IDENT) == Some("manifestID")
  {
    var m := ManifestTree(ResourceNodes(fnames));
    var resources := m.children[2];
    assert m.children[1..][1..] == [resources];
    assert FirstNamed(m.children[1..][1..], CP("resources")) == Some(resources);
    assert FirstNamed(m.children[1..], CP("resources")) == Some(resources);
    ChildrenNamedAll(ResourceNodes(fnames), CP("resource"));
    ResourceTriplesOf(fnames);
    assert MANIFEST_ATTRS[0].0 != IDENT;
    assert MANIFEST_ATTRS[1..] == [(IDENT, "manifestID")];
    assert AttrOf(MANIFEST_ATTRS[1..], IDENT) == Some("manifestID");
  }

  /** Build the IMS content-packaging manifest: one resource per item file, in order. */
  method MakeManifestXml(fnames: seq<string>) returns (manifest: Node)
    ensures IsNamed(manifest, CP("manifest")) && Attribute(manifest, IDENT) == Some("manifestID")
    ensures ResourcesOf(manifest) == Some(ExpectedResources(fnames))
  {
    var metadata := METADATA;
    var organizations := Element(CP("organizations"), [], []);
    var resNodes: seq<Node> := [];
    for i := 0 to |fnames|
      invariant |resNodes| == i
      invariant forall j :: 0 <= j < i ==> resNodes[j] == ResourceNode(fnames[j])
    {
      resNodes := resNodes + [ResourceNode(fnames[i])];
    }
    var resources := Element(CP("resources"), [], resNodes);
    manifest := Element(CP("manifest"), MANIFEST_ATTRS, [metadata, organizations, resources]);
    assert resNodes == ResourceNodes(fnames);
    ManifestReadsBack(fnames);
  }

  // ---------------------------------------------------------------
  // Package naming
  // ---------------------------------------------------------------

  /** `f"{item_id}.xml"` for the item identifier `item-<uuid>`. */
  function ItemFileName(u: string): string {
    "item-" + u + ".xml"
  }

  /** The characters of the text form of a UUID. */
  predicate UuidText(u: string) {
    forall i :: 0 <= i < |u| ==> u[i] in "0123456789abcdef-"
  }

  function SwapChar(s: string, c: char, d: char): (r: string)
    ensures |r| == |s|
  {
    seq(|s|, i requires 0 <= i < |s| => if s[i] == c then d else s[i])
  }

  lemma {:induction false} ReplaceOneChar(s: string, c: char, d: char)
    ensures Replace(s, [c], [d]) == SwapChar(s, c, d)
    decreases |s|
  {
    if |s| >= 1 {
      ReplaceOneChar(s[1..], c, d);
      assert s[..1] == [s[0]];
      if s[0] == c {
        assert Replace(s, [c], [d]) == [d] + Replace(s[1..], [c], [d]);
      } else {
        assert s[..1] != [c];
        assert Replace(s, [c], [d]) == [s[0]] + Replace(s[1..], [c], [d]);
      }
    }
  }

  lemma StemOfItemFile(u: string)
    requires UuidText(u)
    ensures Stem(ItemFileName(u)) == "item-" + u
  {
    var f := ItemFileName(u);
    var n := |"item-" + u|;
    assert f[n] == '.';
    assert forall k :: 0 <= k < |f| ==> f[k] != '/' by {
      forall k | 0 <= k < |f| ensures f[k] != '/' {
        if 5 <= k < n { assert f[k] == u[k - 5]; }
      }
    }
    assert LastIndex(f, '/').None?;
    var li := LastIndex(f, '.');
    assert li.Some?;
    assert forall k :: n < k < |f| ==> f[k] in "xml";
    assert li.value == n;
    assert f[..n] == "item-" + u;
  }

  lemma SwapCharInjective(a: string, b: string, c: char, d: char)
    requires d !in a && d !in b && SwapChar(a, c, d) == SwapChar(b, c, d)
    ensures a == b
  {
    forall k | 0 <= k < |a| ensures a[k] == b[k] {
      assert SwapChar(a, c, d)[k] == SwapChar(b, c, d)[k];
    }
  }

  lemma ResourceIdOfItem(u: string)
    requires UuidText(u)
    ensures ResourceId(ItemFileName(u)) == "res_" + SwapChar("item-" + u, '-', '_')
    ensures '_' !in "item-" + u
  {
    StemOfItemFile(u);
    ReplaceOneChar("item-" + u, '-', '_');
    var a := "item-" + u;
    forall k | 0 <= k < |a| ensures a[k] != '_' {
      if 5 <= k { assert a[k] == u[k - 5]; }
    }
  }

  lemma ConcatDistinct(p: string, x: string, y: string)
    requires x != y
    ensures p + x != p + y
  {
    if |x| == |y| {
      var k :| 0 <= k < |x| && x[k] != y[k];
      assert (p + x)[|p| + k] == x[k] && (p + y)[|p| + k] == y[k];
    }
  }

  lemma SuffixDistinct(x: string, y: string, q: string)
    requires x != y
    ensures x + q != y + q
  {
    if |x| == |y| {
      var k :| 0 <= k < |x| && x[k] != y[k];
      assert (x + q)[k] == x[k] && (y + q)[k] == y[k];
    }
  }

  lemma SwapCharDistinct(a: string, b: string, c: char, d: char)
    requires d !in a && d !in b && a != b
    ensures SwapChar(a, c, d) != SwapChar(b, c, d)
  {
    if SwapChar(a, c, d) == SwapChar(b, c, d) {
      SwapCharInjective(a, b, c, d);
    }
  }

  /** Distinct UUIDs give distinct resource identifiers, even after `-` becomes `_`. */
  lemma ResourceIdsDistinct(u1: string, u2: string)
    requires UuidText(u1) && UuidText(u2) && u1 != u2
    ensures ResourceId(ItemFileName(u1)) != ResourceId(ItemFileName(u2))
  {
    ResourceIdOfItem(u1);
    ResourceIdOfItem(u2);
    ConcatDistinct("item-", u1, u2);
    SwapCharDistinct("item-" + u1, "item-" + u2, '-', '_');
    ConcatDistinct("res_", SwapChar("item-" + u1, '-', '_'), SwapChar("item-" + u2, '-', '_'));
  }

  /** Item files are named apart from each other and from the manifest. */
  lemma PackageNamesDistinct(u1: string, u2: string)
    requires UuidText(u1) && u1 != u2
    ensures ItemFileName(u1) != ItemFileName(u2)
    ensures ItemFileName(u1) != "imsmanifest.xml"
  {
    ConcatDistinct("item-", u1, u2);
    assert ItemFileName(u1) == ("item-" + u1) + ".xml";
    assert ItemFileName(u2) == ("item-" + u2) + ".xml";
    SuffixDistinct("item-" + u1, "item-" + u2, ".xml");
    assert ItemFileName(u1)[1] == 't' != "imsmanifest.xml"[1];
  }

  // ---------------------------------------------------------------
  // The item loop of json_to_qti_zip
  // ---------------------------------------------------------------

  /** One file of the archive, its content kept as a tree. */
  datatype ZipEntry = ZipEntry(name: string, tree: Node)

  /** The error the loop raises on a question, in the order the source touches its fields. */
  function ItemError(q: Question): Option<Error> {
    if q.NotAnObject? then Some(TypeError)
    else if q.options.Missing? then Some(KeyError("options"))
    else if q.options.NotADict? then Some(AttributeError)
    else if q.question.None? then Some(KeyError("question"))
    else None
  }

  function FirstItemError(items: seq<Question>): Option<Error>
    decreases |items|
  {
    if items == [] then None
    else if ItemError(items[0]).Some? then ItemError(items[0])
    else FirstItemError(items[1..])
  }

  lemma {:induction false} FirstItemErrorAt(items: seq<Question>, i: nat)
    requires i < |items| && ItemError(items[i]).Some?
    requires forall j :: 0 <= j < i ==> ItemError(items[j]).None?
    ensures FirstItemError(items) == ItemError(items[i])
    decreases i
  {
    if i > 0 {
      FirstItemErrorAt(items[1..], i - 1);
    }
  }

  lemma {:induction false} FirstItemErrorNone(items: seq<Question>)
    requires forall j :: 0 <= j < |items| ==> ItemError(items[j]).None?
    ensures FirstItemError(items).None?
    decreases |items|
  {
    if items != [] {
      FirstItemErrorNone(items[1..]);
    }
  }

  /**
   * What the tree exported for question `q` at position `idx` (from 0)
   * carries: its identifier and title, the cleaned stem and choices, the
   * truthy options as the correct response, the two feedbacks, and
   * all-or-nothing grading.
   */
  ghost predicate ItemExported(tree: Node, q: Question, idx: nat, stripPrefixes: bool, convertMath: bool, shuffle: bool,
                         itemPrefix: string, itemUuid: string, okUuid: string, errUuid: string)
    requires ItemError(q).None?
  {
    var options := q.options.entries;
    && Attribute(tree, IDENT) == Some("item-" + itemUuid)
    && Attribute(tree, Plain("title")) == Some(itemPrefix + "_" + ZeroPad(idx + 1, 2))
    && PromptOf(tree) == Some(CleanGeneralText(q.question.value, convertMath))
    && ChoicesOf(tree) == Some(ItemChoices(options, stripPrefixes, convertMath))
    && CorrectResponseOf(tree) == Some(CorrectIds(options))
    && ShuffleOf(tree) == Some(if shuffle then "true" else "false")
    && FeedbacksOf(tree) == [("id-" + okUuid, CleanGeneralText(Get(q.success, ""), convertMath)),
                             ("id-" + errUuid, CleanGeneralText(Get(q.error, ""), convertMath))]
    && forall selection :: GradeOutcome(tree, selection) == Some(Routing(CorrectIds(options), selection, "id-" + okUuid, "id-" + errUuid))
  }

  lemma BuiltItemGrades(itemId: string, title: string, stem: string, choices: seq<(string, string)>, correctIds: seq<string>,
                        successText: string, errorText: string, shuffle: bool, okId: string, errId: string)
    ensures forall selection ::
              GradeOutcome(BuiltItem(itemId, title, stem, choices, correctIds, successText, errorText, shuffle, okId, errId), selection)
              == Some(Routing(correctIds, selection, okId, errId))
  {
    ItemGradesAll(ItemAttrs(itemId, title), correctIds, ItemBody(stem, choices, shuffle),
                  [FeedbackNode(okId, successText), FeedbackNode(errId, errorText)], okId, errId);
  }

  lemma ItemGradesAll(attrs: seq<(QName, string)>, correctIds: seq<string>, body: Node, feedbacks: seq<Node>, okId: string, errId: string)
    requires IsNamed(body, Q("itemBody"))
    requires forall i :: 0 <= i < |feedbacks| ==> IsNamed(feedbacks[i], Q("modalFeedback"))
    ensures forall selection ::
              GradeOutcome(Element(Q("assessmentItem"), attrs, ItemChildren(correctIds, body, feedbacks, okId, errId)), selection)
              == Some(Routing(correctIds, selection, okId, errId))
  {
    forall selection
      ensures GradeOutcome(Element(Q("assessmentItem"), attrs, ItemChildren(correctIds, body, feedbacks, okId, errId)), selection)
              == Some(Routing(correctIds, selection, okId, errId))
    {
      ItemGrades(attrs, correctIds, body, feedbacks, okId, errId, selection);
    }
  }

  /** The tree exported for question `q` at position `idx` (from 0). */
  function ExportTree(q: Question, idx: nat, stripPrefixes: bool, convertMath: bool, shuffle: bool, itemPrefix: string,
                      itemUuid: string, okUuid: string, errUuid: string): Node
    requires ItemError(q).None?
  {
    BuiltItem("item-" + itemUuid, itemPrefix + "_" + ZeroPad(idx + 1, 2), CleanGeneralText(q.question.value, convertMath),
              ItemChoices(q.options.entries, stripPrefixes, convertMath), CorrectIds(q.options.entries),
              CleanGeneralText(Get(q.success, ""), convertMath), CleanGeneralText(Get(q.error, ""), convertMath),
              shuffle, "id-" + okUuid, "id-" + errUuid)
  }

  lemma ExportTreeExported(q: Question, idx: nat, stripPrefixes: bool, convertMath: bool, shuffle: bool, itemPrefix: string,
                           itemUuid: string, okUuid: string, errUuid: string)
    requires ItemError(q).None?
    ensures ItemExported(ExportTree(q, idx, stripPrefixes, convertMath, shuffle, itemPrefix, itemUuid, okUuid, errUuid),
                         q, idx, stripPrefixes, convertMath, shuffle, itemPrefix, itemUuid, okUuid, errUuid)
  {
    var itemId := "item-" + itemUuid;
    var title := itemPrefix + "_" + ZeroPad(idx + 1, 2);
    var stem := CleanGeneralText(q.question.value, convertMath);
    var choices := ItemChoices(q.options.entries, stripPrefixes, convertMath);
    var correctIds := CorrectIds(q.options.entries);
    var successText := CleanGeneralText(Get(q.success, ""), convertMath);
    var errorText := CleanGeneralText(Get(q.error, ""), convertMath);
    var okId := "id-" + okUuid;
    var errId := "id-" + errUuid;
    BuiltItemBody(itemId, title, stem, choices, correctIds, successText, errorText, shuffle, okId, errId);
    BuiltItemDeclares(itemId, title, stem, choices, correctIds, successText, errorText, shuffle, okId, errId);
    BuiltItemGrades(itemId, title, stem, choices, correctIds, successText, errorText, shuffle, okId, errId);
  }

  /** The names of the first `n` item files. */
  function ItemFileNames(uuids: seq<string>, n: nat): (r: seq<string>)
    requires 3 * n <= |uuids|
    ensures |r| == n && forall i :: 0 <= i < n ==> r[i] == ItemFileName(uuids[3 * i])
  {
    if n == 0 then [] else ItemFileNames(uuids, n - 1) + [ItemFileName(uuids[3 * (n - 1)])]
  }

  /** The item file written for question `q` at position `idx` (from 0). */
  method ExportItem(q: Question, idx: nat, stripPrefixes: bool, convertMath: bool, shuffle: bool, itemPrefix: string,
                    itemUuid: string, okUuid: string, errUuid: string)
    returns (e: ZipEntry)
    requires ItemError(q).None?
    ensures e.name == ItemFileName(itemUuid)
    ensures e.tree == ExportTree(q, idx, stripPrefixes, convertMath, shuffle, itemPrefix, itemUuid, okUuid, errUuid)
  {
    var options := q.options.entries;
    var stem := CleanGeneralText(q.question.value, convertMath);
    var choices := ItemChoices(options, stripPrefixes, convertMath);
    var correctIds := CorrectIds(options);
    var title := itemPrefix + "_" + ZeroPad(idx + 1, 2);
    var successText := CleanGeneralText(Get(q.success, ""), convertMath);
    var errorText := CleanGeneralText(Get(q.error, ""), convertMath);
    var itemId, itemXml := MakeItemXml(title, stem, choices, correctIds, successText, errorText, shuffle,
                                       itemUuid, okUuid, errUuid);
    e := ZipEntry(itemId + ".xml", itemXml);
  }

  /** The item files written for the first `n` questions. */
  function ItemEntries(items: seq<Question>, n: nat, stripPrefixes: bool, convertMath: bool, shuffle: bool,
                       itemPrefix: string, uuids: seq<string>): (r: seq<ZipEntry>)
    requires n <= |items| && 3 * n <= |uuids|
    requires forall j :: 0 <= j < n ==> ItemError(items[j]).None?
    ensures |r| == n && forall k :: 0 <= k < n ==> r[k].name == ItemFileName(uuids[3 * k])
  {
    seq(n, k requires 0 <= k < n => ItemEntry(items, k, stripPrefixes, convertMath, shuffle, itemPrefix, uuids))
  }

  /** The item file of question `k`, named by the first of its three UUIDs. */
  function ItemEntry(items: seq<Question>, k: nat, stripPrefixes: bool, convertMath: bool, shuffle: bool,
                     itemPrefix: string, uuids: seq<string>): (e: ZipEntry)
    requires k < |items| && 3 * k + 2 < |uuids| && ItemError(items[k]).None?
    ensures e.name == ItemFileName(uuids[3 * k])
  {
    ZipEntry(ItemFileName(uuids[3 * k]),
             ExportTree(items[k], k, stripPrefixes, convertMath, shuffle, itemPrefix, uuids[3 * k], uuids[3 * k + 1], uuids[3 * k + 2]))
  }

  lemma ItemEntriesSnoc(items: seq<Question>, n: nat, stripPrefixes: bool, convertMath: bool, shuffle: bool,
                        itemPrefix: string, uuids: seq<string>)
    requires n < |items| && 3 * (n + 1) <= |uuids|
    requires forall j :: 0 <= j < n + 1 ==> ItemError(items[j]).None?
    ensures ItemEntries(items, n + 1, stripPrefixes, convertMath, shuffle, itemPrefix, uuids)
            == ItemEntries(items, n, stripPrefixes, convertMath, shuffle, itemPrefix, uuids)
               + [ItemEntry(items, n, stripPrefixes, convertMath, shuffle, itemPrefix, uuids)]
  {
    var a := ItemEntries(items, n + 1, stripPrefixes, convertMath, shuffle, itemPrefix, uuids);
    var b := ItemEntries(items, n, stripPrefixes, convertMath, shuffle, itemPrefix, uuids);
    var e := ItemEntry(items, n, stripPrefixes, convertMath, shuffle, itemPrefix, uuids);
    assert forall k :: 0 <= k < n ==> a[k] == b[k];
    assert a[n] == e;
  }

  /**
   * The item loop: one item file per question, in order. Question i (from 0)
   * draws `uuids[3 * i]`, `uuids[3 * i + 1]` and `uuids[3 * i + 2]`. The
   * first malformed question aborts the loop with its error.
   */
  method ExportItems(items: seq<Question>, stripPrefixes: bool, convertMath: bool, shuffle: bool, itemPrefix: string,
                     uuids: seq<string>)
    returns (r: Result<seq<ZipEntry>, Error>)
    requires |uuids| >= 3 * |items|
    ensures r.Failure? <==> FirstItemError(items).Some?
    ensures r.Failure? ==> FirstItemError(items) == Some(r.error)
    ensures r.Success? ==> forall i :: 0 <= i < |items| ==> ItemError(items[i]).None?
    ensures r.Success? ==> r.value == ItemEntries(items, |items|, stripPrefixes, convertMath, shuffle, itemPrefix, uuids)
  {
    var entries: seq<ZipEntry> := [];
    for i := 0 to |items|
      invariant forall j :: 0 <= j < i ==> ItemError(items[j]).None?
      invariant entries == ItemEntries(items, i, stripPrefixes, convertMath, shuffle, itemPrefix, uuids)
    {
      var next := AppendItem(items, i, entries, stripPrefixes, convertMath, shuffle, itemPrefix, uuids);
      if next.Failure? {
        return Failure(next.error);
      }
      entries := next.value;
    }
    FirstItemErrorNone(items);
    r := Success(entries);
  }

  /** One turn of that loop: question `i` appended as an item file, or the export's error. */
  method AppendItem(items: seq<Question>, i: nat, entries: seq<ZipEntry>, stripPrefixes: bool, convertMath: bool, shuffle: bool,
                    itemPrefix: string, uuids: seq<string>)
    returns (r: Result<seq<ZipEntry>, Error>)
    requires i < |items| && |uuids| >= 3 * |items|
    requires forall j :: 0 <= j < i ==> ItemError(items[j]).None?
    requires entries == ItemEntries(items, i, stripPrefixes, convertMath, shuffle, itemPrefix, uuids)
    ensures r.Failure? ==> FirstItemError(items) == Some(r.error)
    ensures r.Success? ==> forall j :: 0 <= j < i + 1 ==> ItemError(items[j]).None?
    ensures r.Success? ==> r.value == ItemEntries(items, i + 1, stripPrefixes, convertMath, shuffle, itemPrefix, uuids)
  {
    if ItemError(items[i]).Some? {
      FirstItemErrorAt(items, i);
      return Failure(ItemError(items[i]).value);
    }
    var entry := ExportItem(items[i], i, stripPrefixes, convertMath, shuffle, itemPrefix,
                            uuids[3 * i], uuids[3 * i + 1], uuids[3 * i + 2]);
    ItemsOkUpTo(items, i);
    ItemEntriesSnoc(items, i, stripPrefixes, convertMath, shuffle, itemPrefix, uuids);
    r := Success(entries + [entry]);
  }

  lemma ItemsOkUpTo(items: seq<Question>, i: nat)
    requires i < |items| && ItemError(items[i]).None?
    requires forall j :: 0 <= j < i ==> ItemError(items[j]).None?
    ensures forall j :: 0 <= j < i + 1 ==> ItemError(items[j]).None?
  {
  }

  /**
   * Convert parsed questions into the archive's entries: the item files,
   * then `imsmanifest.xml` listing them.
   */
  method JsonToQtiZip(items: seq<Question>, stripPrefixes: bool, convertMath: bool, shuffle: bool, itemPrefix: string,
                      uuids: seq<string>)
    returns (r: Result<seq<ZipEntry>, Error>)
    requires |uuids| >= 3 * |items|
    ensures r.Failure? <==> FirstItemError(items).Some?
    ensures r.Failure? ==> FirstItemError(items) == Some(r.error)
    ensures r.Success? ==> |r.value| == |items| + 1
    ensures r.Success? ==> forall i :: 0 <= i < |items| ==> ItemError(items[i]).None?
    ensures r.Success? ==> r.value[..|items|] == ItemEntries(items, |items|, stripPrefixes, convertMath, shuffle, itemPrefix, uuids)
    ensures r.Success? ==> r.value[|items|].name == "imsmanifest.xml"
    ensures r.Success? ==> ResourcesOf(r.value[|items|].tree) == Some(ExpectedResources(ItemFileNames(uuids, |items|)))
  {
    var exported := ExportItems(items, stripPrefixes, convertMath, shuffle, itemPrefix, uuids);
    if exported.Failure? {
      return Failure(exported.error);
    }
    var entries := exported.value;
    var fnames: seq<string> := [];
    for i := 0 to |entries|
      invariant fnames == ItemFileNames(uuids, i)
    {
      fnames := fnames + [entries[i].name];
    }
    var manifest := MakeManifestXml(fnames);
    var last := ZipEntry("imsmanifest.xml", manifest);
    assert (entries + [last])[..|items|] == entries;
    r := Success(entries + [last]);
  }
}
