/**
 * Yes/no validation of statements by the language model: every statement,
 * prefixed with the user prompt, is sent to the model, and its entry in the
 * results records the answer as the explanation and becomes valid when the
 * answer contains "Yes".
 */
module Validators {
  import opened Wrappers
  import opened PyStr
  import opened PyValue
  import opened CustomLlm

  const DefaultValidationBehavior: string :=
    "you are an expert annotator for "
    + "entity relationships. Given two "
    + "entities and the relationship "
    + "between them, return Yes if the "
    + "relationship is correct, No "
    + "otherwise"

  const DefaultUserPrompt: string := "return Yes or No for the following : "

  /** One entry of the results, `{"statement": ..., "explanation": ..., "valid": ...}`. */
  datatype Verdict = Verdict(statement: string, explanation: Option<string>, valid: bool)

  /** The results before any answer: no explanation, not valid. */
  function Unanswered(statements: seq<string>): (r: seq<Verdict>)
    ensures |r| == |statements|
    ensures forall i :: 0 <= i < |r| ==> r[i].statement == statements[i] && r[i].explanation.None? && !r[i].valid
  {
    seq(|statements|, i requires 0 <= i < |statements| => Verdict(statements[i], None, false))
  }

  /** `[user_prompt + statement for statement in statements]`. */
  function ValidationPrompts(userPrompt: string, statements: seq<string>): (r: seq<string>)
    ensures |r| == |statements|
    ensures forall i :: 0 <= i < |r| ==> StartsWith(r[i], userPrompt) && r[i][|userPrompt|..] == statements[i]
  {
    seq(|statements|, i requires 0 <= i < |statements| => userPrompt + statements[i])
  }

  /** The model's answers to the statements, asked with the default model and no few-shot examples. */
  function Answers(template: ChatTemplate, engine: Engine, systemPrompt: string,
                   userPrompt: string, statements: seq<string>): seq<string>
  {
    Responses(template, engine, DefaultModel, systemPrompt, [], ValidationPrompts(userPrompt, statements))
  }

  /** An engine that answers every prompt once gives exactly one answer per statement. */
  lemma OneAnswerPerStatement(template: ChatTemplate, engine: Engine, systemPrompt: string,
                              userPrompt: string, statements: seq<string>)
    requires forall q, ps :: |engine(DefaultModel, q, ps)| == |ps|
    ensures |Answers(template, engine, systemPrompt, userPrompt, statements)| == |statements|
  {
    OneResponsePerText(template, engine, DefaultModel, systemPrompt, [], ValidationPrompts(userPrompt, statements));
  }

  /**
   * One answer recorded into an entry: it becomes the explanation, and a
   * "Yes" in it makes the entry valid; an entry once valid stays valid.
   */
  function Record(v: Verdict, answer: string): (r: Verdict)
    ensures r.statement == v.statement && r.explanation == Some(answer)
    ensures Contains(answer, "Yes") ==> r.valid
    ensures v.valid ==> r.valid
    ensures r.valid && !v.valid ==> Contains(answer, "Yes")
  {
    Verdict(v.statement, Some(answer), v.valid || Contains(answer, "Yes"))
  }

  /**
   * The results after recording the answers: entry `i` records answer `i`
   * when there is one and is unchanged otherwise; answers beyond the last
   * entry are not recorded.
   */
  function MergeAnswers(results: seq<Verdict>, answers: seq<string>): (r: seq<Verdict>)
    ensures |r| == |results|
    ensures forall i :: 0 <= i < |results| ==> r[i].statement == results[i].statement
    ensures forall i :: 0 <= i < |results| ==>
      r[i].explanation == (if i < |answers| then Some(answers[i]) else results[i].explanation)
    ensures forall i :: 0 <= i < |results| ==>
      (r[i].valid <==> results[i].valid || (i < |answers| && Contains(answers[i], "Yes")))
    decreases |results|
  {
    if results == [] || answers == [] then results
    else
      var rest := MergeAnswers(results[1..], answers[1..]);
      var r := [Record(results[0], answers[0])] + rest;
      assert forall i :: 1 <= i < |results| ==>
        r[i] == rest[i - 1] && results[i] == results[1..][i - 1]
        && (i < |answers| ==> answers[i] == answers[1..][i - 1]);
      r
  }

  /** The merge is determined entry by entry. */
  lemma MergeIsIndexwise(results: seq<Verdict>, answers: seq<string>, r: seq<Verdict>)
    requires |r| == |results|
    requires forall k :: 0 <= k < |r| ==>
      r[k] == if k < |answers| then Record(results[k], answers[k]) else results[k]
    ensures r == MergeAnswers(results, answers)
  {
  }

  /** On fresh results, an entry is valid exactly when its answer exists and contains "Yes". */
  lemma FreshValidIffYes(statements: seq<string>, answers: seq<string>, i: nat)
    requires i < |statements|
    ensures var r := MergeAnswers(Unanswered(statements), answers);
      && (r[i].valid <==> i < |answers| && Contains(answers[i], "Yes"))
      && r[i].explanation == (if i < |answers| then Some(answers[i]) else None)
  {
  }

  /** Recording the same answers twice gives the same results as recording them once. */
  lemma MergeIdempotent(results: seq<Verdict>, answers: seq<string>)
    ensures MergeAnswers(MergeAnswers(results, answers), answers) == MergeAnswers(results, answers)
  {
    var once := MergeAnswers(results, answers);
    var twice := MergeAnswers(once, answers);
    forall i | 0 <= i < |results| ensures twice[i] == once[i] {
    }
  }

  /** A statement validator: the statements, the behaviour prompt and the results so far. */
  class StatementValidator {
    const statements: seq<string>
    const systemPrompt: string
    var results: seq<Verdict>

    /** There is one entry per statement, holding that statement. */
    ghost predicate Valid()
      reads this
    {
      |results| == |statements| && forall i :: 0 <= i < |results| ==> results[i].statement == statements[i]
    }

    /** `str()` of every statement; every entry unanswered. */
    constructor (statements: seq<Value>, validationBehavior: string := DefaultValidationBehavior)
      ensures this.statements == ToStrings(statements) && systemPrompt == validationBehavior
      ensures results == Unanswered(this.statements)
      ensures Valid()
    {
      this.statements := ToStrings(statements);
      systemPrompt := validationBehavior;
      results := Unanswered(ToStrings(statements));
    }

    /**
     * Asks the model about every statement and records the answers in order.
     * More answers than entries raise `IndexError` once every entry has been
     * updated.
     */
    method Validate(template: ChatTemplate, engine: Engine, userPrompt: string := DefaultUserPrompt)
      returns (r: Result<seq<Verdict>, PyError>)
      requires Valid()
      modifies this`results
      ensures Valid()
      ensures var answers := Answers(template, engine, systemPrompt, userPrompt, statements);
        && results == MergeAnswers(old(results), answers)
        && r == (if |answers| <= |results| then Ok(results) else Err(IndexError))
    {
      assert AllowedModels[3] == DefaultModel;
      var llm := new Builder(template, engine, systemPrompt := systemPrompt);
      var batchedPrompts := ValidationPrompts(userPrompt, statements);
      var answers := llm.BatchPredict(Many(batchedPrompts));
      var _ := llm.Exit();
      assert answers == Answers(template, engine, systemPrompt, userPrompt, statements);
      r := RecordAnswers(answers);
    }

    /** The loop over the answers: answer `idx` goes into entry `idx`. */
    method RecordAnswers(answers: seq<string>) returns (r: Result<seq<Verdict>, PyError>)
      requires Valid()
      modifies this`results
      ensures Valid()
      ensures results == MergeAnswers(old(results), answers)
      ensures r == (if |answers| <= |results| then Ok(results) else Err(IndexError))
    {
      ghost var before := results;
      for idx := 0 to |answers|
        invariant |results| == |before| && idx <= |results|
        invariant forall k :: 0 <= k < |results| ==>
          results[k] == if k < idx then Record(before[k], answers[k]) else before[k]
      {
        if idx >= |results| {
          MergeIsIndexwise(before, answers, results);
          return Err(IndexError);
        }
        results := results[idx := Record(results[idx], answers[idx])];
      }
      MergeIsIndexwise(before, answers, results);
      r := Ok(results);
    }
  }
}
