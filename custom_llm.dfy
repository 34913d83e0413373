/**
 * The language-model wrapper. It resolves the requested model against an
 * allow-list, switches AWQ quantization on from the model's name, turns every
 * user text into a chat conversation (system prompt, acknowledgement, few-shot
 * turns, the text) rendered by the model's chat template, and returns the
 * stripped generated texts.
 *
 * The chat template and the inference engine are not modelled: they are the
 * `ChatTemplate` and `Engine` functions every builder is given.
 */
module CustomLlm {
  import opened Wrappers
  import opened PyStr
  import opened PyValue

  /** The models the wrapper accepts; any other name falls back to the default. */
  const AllowedModels: seq<string> := [
    "meta-llama/Meta-Llama-3-8B-Instruct",
    "mistralai/Mistral-7B-Instruct-v0.2",
    "mistralai/Mistral-7B-Instruct-v0.1",
    "microsoft/Phi-3-mini-4k-instruct",
    "Sreenington/Phi-3-mini-4k-instruct-AWQ"
  ]

  const DefaultModel: string := "microsoft/Phi-3-mini-4k-instruct"
  const AwqModel: string := "Sreenington/Phi-3-mini-4k-instruct-AWQ"
  const DefaultSystemPrompt: string := "You are a helpful assistant"
  const DefaultMaxTimeout: int := 15

  /** The assistant's reply to the system prompt at the head of every conversation. */
  const Acknowledgement: string := "understood. continue"

  /** The model actually loaded for a requested name. */
  function ResolveModel(model: string): (r: string)
    ensures r in AllowedModels
    ensures model in AllowedModels ==> r == model
    ensures model !in AllowedModels ==> r == DefaultModel
  {
    assert AllowedModels[3] == DefaultModel;
    if model in AllowedModels then model else DefaultModel
  }

  /** `None if "awq" not in str(model).lower().split("-") else "AWQ"`. */
  function Quantization(model: string): (q: Option<string>)
    ensures q.Some? ==> q.value == "AWQ"
  {
    if "awq" in Split(Lower(model), '-') then Some("AWQ") else None
  }

  /**
   * AWQ is chosen exactly when `awq` stands between dashes or ends of the
   * lower-cased name.
   */
  lemma QuantizationIffAwqPiece(model: string)
    ensures var m := Lower(model);
      Quantization(model).Some? <==>
        m == "awq" || StartsWith(m, "awq-") || EndsWith(m, "-awq") || Contains(m, "-awq-")
  {
    assert "awq" + ['-'] == "awq-";
    assert ['-'] + "awq" == "-awq";
    assert ['-'] + "awq" + ['-'] == "-awq-";
    PieceIffDelimited(Lower(model), '-', "awq");
  }

  /** Lower-casing produces a `w` only from a `w` or a `W`. */
  lemma LowerW(s: string)
    requires 'w' in Lower(s)
    ensures 'w' in s || 'W' in s
  {
    var i :| 0 <= i < |s| && Lower(s)[i] == 'w';
    assert s[i] == 'w' || s[i] == 'W';
  }

  /** A name without the letter `w` in either case never selects AWQ. */
  lemma NoWNoQuantization(model: string)
    requires 'w' !in model && 'W' !in model
    ensures Quantization(model) == None
  {
    if "awq" in Split(Lower(model), '-') {
      assert 'w' in "awq";
      PieceCharOccurs(Lower(model), '-', "awq", 'w');
      LowerW(model);
    }
  }

  /** The AWQ build of Phi-3 is loaded quantized: its lower-cased name ends with `-awq`. */
  lemma AwqModelIsQuantized()
    ensures Quantization(AwqModel) == Some("AWQ")
  {
    var m := Lower(AwqModel);
    assert m[|m| - 4..] == "-awq" by {
      assert m[|m| - 4] == '-' && m[|m| - 3] == 'a' && m[|m| - 2] == 'w' && m[|m| - 1] == 'q';
    }
    QuantizationIffAwqPiece(AwqModel);
  }

  /** The other allowed models have no `w` in their names and are loaded unquantized. */
  lemma OtherModelsAreNotQuantized(model: string)
    requires model in AllowedModels[..4]
    ensures Quantization(model) == None
  {
    var k :| 0 <= k < 4 && AllowedModels[k] == model;
    if k == 0 { NameLacksW0(); } else if k == 1 { NameLacksW1(); }
    else if k == 2 { NameLacksW2(); } else { NameLacksW3(); }
    NoWNoQuantization(model);
  }

  // The first four allowed names, one at a time: none holds a `w` in either case.

  lemma NameLacksW0()
    ensures 'w' !in AllowedModels[0] && 'W' !in AllowedModels[0]
  {
  }

  lemma NameLacksW1()
    ensures 'w' !in AllowedModels[1] && 'W' !in AllowedModels[1]
  {
  }

  lemma NameLacksW2()
    ensures 'w' !in AllowedModels[2] && 'W' !in AllowedModels[2]
  {
  }

  lemma NameLacksW3()
    ensures 'w' !in AllowedModels[3] && 'W' !in AllowedModels[3]
  {
  }

  /** Of the allowed models, only the AWQ build of Phi-3 is loaded quantized. */
  lemma OnlyTheAwqModelIsQuantized(model: string)
    requires model in AllowedModels
    ensures Quantization(model).Some? <==> model == AwqModel
  {
    if model == AwqModel {
      AwqModelIsQuantized();
    } else {
      assert AllowedModels == AllowedModels[..4] + [AwqModel];
      OtherModelsAreNotQuantized(model);
    }
  }

  /** The default model is loaded without quantization. */
  lemma DefaultModelNotQuantized()
    ensures Quantization(DefaultModel) == None
  {
    assert DefaultModel in AllowedModels by { assert AllowedModels[3] == DefaultModel; }
    OnlyTheAwqModelIsQuantized(DefaultModel);
  }

  // ---------------------------------------------------------------------------
  // Conversations

  datatype Role = User | Assistant

  /** One chat message, `{"role": ..., "content": ...}`. */
  datatype Message = Message(role: Role, content: string)

  /** Each few-shot example as a user turn followed by the expected assistant turn, flattened. */
  function FewShotTurns(examples: seq<(string, string)>): (turns: seq<Message>)
    ensures |turns| == 2 * |examples|
    ensures forall j :: 0 <= j < |examples| ==>
      turns[2 * j] == Message(User, examples[j].0) && turns[2 * j + 1] == Message(Assistant, examples[j].1)
  {
    if examples == [] then []
    else
      var rest := FewShotTurns(examples[1..]);
      var turns := [Message(User, examples[0].0), Message(Assistant, examples[0].1)] + rest;
      assert forall j :: 1 <= j < |examples| ==>
        turns[2 * j] == Message(User, examples[j].0) && turns[2 * j + 1] == Message(Assistant, examples[j].1)
      by {
        forall j | 1 <= j < |examples|
          ensures turns[2 * j] == Message(User, examples[j].0)
          ensures turns[2 * j + 1] == Message(Assistant, examples[j].1)
        {
          assert examples[j] == examples[1..][j - 1];
          assert turns[2 * j] == rest[2 * (j - 1)];
          assert turns[2 * j + 1] == rest[2 * (j - 1) + 1];
        }
      }
      turns
  }

  /**
   * The conversation sent for one text: the system prompt as a user turn, the
   * acknowledgement, the few-shot turns, then the text as the last user turn.
   */
  function Conversation(systemPrompt: string, examples: seq<(string, string)>, text: string): (conv: seq<Message>)
    ensures |conv| == 2 * |examples| + 3
    ensures conv[0] == Message(User, systemPrompt) && conv[1] == Message(Assistant, Acknowledgement)
    ensures forall j :: 0 <= j < |examples| ==>
      conv[2 * j + 2] == Message(User, examples[j].0) && conv[2 * j + 3] == Message(Assistant, examples[j].1)
    ensures conv[|conv| - 1] == Message(User, text)
  {
    [Message(User, systemPrompt), Message(Assistant, Acknowledgement)] + FewShotTurns(examples)
      + [Message(User, text)]
  }

  /** Conversations alternate strictly, starting and ending with a user turn. */
  lemma ConversationAlternates(systemPrompt: string, examples: seq<(string, string)>, text: string)
    ensures var conv := Conversation(systemPrompt, examples, text);
      forall i :: 0 <= i < |conv| ==> conv[i].role == (if i % 2 == 0 then User else Assistant)
  {
    var conv := Conversation(systemPrompt, examples, text);
    forall i | 0 <= i < |conv|
      ensures conv[i].role == (if i % 2 == 0 then User else Assistant)
    {
      if i == |conv| - 1 {
        assert i % 2 == 0;
      } else if 2 <= i {
        var j := (i - 2) / 2;
        assert 0 <= j < |examples|;
        if i % 2 == 0 {
          assert i == 2 * j + 2;
          assert conv[2 * j + 2] == Message(User, examples[j].0);
        } else {
          assert i == 2 * j + 3;
          assert conv[2 * j + 3] == Message(Assistant, examples[j].1);
        }
      }
    }
  }

  // ---------------------------------------------------------------------------
  // Generation

  /** `tokenizer.apply_chat_template(conversation=conv, tokenize=False, add_generation_prompt=True)` for a model. */
  type ChatTemplate = (string, seq<Message>) -> string

  /** The first generated text for each prompt, from a model loaded with a quantization. */
  type Engine = (string, Option<string>, seq<string>) -> seq<string>

  /** The rendered prompt of every text. */
  function Prompts(template: ChatTemplate, model: string, systemPrompt: string,
                   examples: seq<(string, string)>, texts: seq<string>): (r: seq<string>)
    ensures |r| == |texts|
    ensures forall i :: 0 <= i < |texts| ==>
      r[i] == template(model, Conversation(systemPrompt, examples, texts[i]))
  {
    seq(|texts|, i requires 0 <= i < |texts| => template(model, Conversation(systemPrompt, examples, texts[i])))
  }

  /** `[output.strip() for output in outputs]`. */
  function StripAll(outputs: seq<string>): (r: seq<string>)
    ensures |r| == |outputs|
    ensures forall i :: 0 <= i < |outputs| ==> r[i] == Strip(outputs[i])
  {
    seq(|outputs|, i requires 0 <= i < |outputs| => Strip(outputs[i]))
  }

  /** What the model answers to the texts, each answer stripped. */
  function Responses(template: ChatTemplate, engine: Engine, model: string, systemPrompt: string,
                     examples: seq<(string, string)>, texts: seq<string>): seq<string>
  {
    StripAll(engine(model, Quantization(model), Prompts(template, model, systemPrompt, examples, texts)))
  }

  /** Every answer is already stripped: stripping it again changes nothing. */
  lemma ResponsesAreStripped(template: ChatTemplate, engine: Engine, model: string, systemPrompt: string,
                             examples: seq<(string, string)>, texts: seq<string>)
    ensures forall r <- Responses(template, engine, model, systemPrompt, examples, texts) :: Strip(r) == r
  {
    var outputs := engine(model, Quantization(model), Prompts(template, model, systemPrompt, examples, texts));
    forall r <- Responses(template, engine, model, systemPrompt, examples, texts) ensures Strip(r) == r {
      var i :| 0 <= i < |outputs| && r == Strip(outputs[i]);
      StripIdempotent(outputs[i]);
    }
  }

  /** An engine that answers every prompt once gives one response per text, in order. */
  lemma OneResponsePerText(template: ChatTemplate, engine: Engine, model: string, systemPrompt: string,
                           examples: seq<(string, string)>, texts: seq<string>)
    requires forall q, ps :: |engine(model, q, ps)| == |ps|
    ensures |Responses(template, engine, model, systemPrompt, examples, texts)| == |texts|
  {
    var ps := Prompts(template, model, systemPrompt, examples, texts);
    assert |engine(model, Quantization(model), ps)| == |ps|;
  }

  /** The argument of `batch_predict`: a list, or any single prompt, which is wrapped in a list. */
  datatype PromptArg = Many(prompts: seq<string>) | One(prompt: string)

  function PromptList(arg: PromptArg): (r: seq<string>)
    ensures arg.One? ==> r == [arg.prompt]
  {
    match arg
    case Many(prompts) => prompts
    case One(prompt) => [prompt]
  }

  // ---------------------------------------------------------------------------
  // The builder

  /**
   * A loaded model with its prompts. `loaded` is whether the engine and the
   * tokenizer are still held; leaving the `with` block releases them.
   */
  class Builder {
    const systemPrompt: string
    const fewShotExamples: seq<(string, string)>
    const maxTimeout: int
    const modelName: string
    const quantization: Option<string>
    const template: ChatTemplate
    const engine: Engine
    var loaded: bool

    /** The model is one of the allowed ones and its quantization follows from its name. */
    ghost predicate Valid() {
      modelName in AllowedModels && quantization == Quantization(modelName)
    }

    constructor (template: ChatTemplate, engine: Engine, systemPrompt: string := DefaultSystemPrompt,
                 fewShotExamples: seq<(string, string)> := [], maxTimeout: int := DefaultMaxTimeout,
                 model: string := DefaultModel)
      ensures this.systemPrompt == systemPrompt && this.fewShotExamples == fewShotExamples
      ensures this.maxTimeout == maxTimeout
      ensures modelName == ResolveModel(model) && quantization == Quantization(modelName)
      ensures this.template == template && this.engine == engine
      ensures loaded && Valid()
    {
      this.systemPrompt := systemPrompt;
      this.fewShotExamples := fewShotExamples;
      this.maxTimeout := maxTimeout;
      var resolved := if model in AllowedModels then model else DefaultModel;
      modelName := resolved;
      quantization := if "awq" !in Split(Lower(resolved), '-') then None else Some("AWQ");
      this.template := template;
      this.engine := engine;
      loaded := true;
    }

    /** `_create_prompts`: the rendered conversation of every text. */
    method CreatePrompts(texts: seq<string>, systemPrompt: string, fewShotExamples: seq<(string, string)>)
      returns (prompts: seq<string>)
      requires loaded
      ensures prompts == Prompts(template, modelName, systemPrompt, fewShotExamples, texts)
    {
      var turns := [];
      if fewShotExamples != [] {
        turns := FewShotTurns(fewShotExamples);
      }
      prompts := [];
      for i := 0 to |texts|
        invariant |prompts| == i
        invariant forall k :: 0 <= k < i ==>
          prompts[k] == template(modelName, Conversation(systemPrompt, fewShotExamples, texts[k]))
      {
        var conv := [Message(User, systemPrompt), Message(Assistant, Acknowledgement)] + turns;
        conv := conv + [Message(User, texts[i])];
        prompts := prompts + [template(modelName, conv)];
      }
    }

    /** `batch_predict`: the stripped answers to the prompts, a single prompt being wrapped first. */
    method BatchPredict(userPrompts: PromptArg) returns (results: seq<string>)
      requires loaded && Valid()
      ensures results == Responses(template, engine, modelName, systemPrompt, fewShotExamples, PromptList(userPrompts))
    {
      var texts := if userPrompts.Many? then userPrompts.prompts else [userPrompts.prompt];
      var inferencePrompts := CreatePrompts(texts, systemPrompt, fewShotExamples);
      var outputs := engine(modelName, quantization, inferencePrompts);
      results := StripAll(outputs);
    }

    /** `predict`: the first answer to one prompt; `IndexError` when the engine returns nothing. */
    method Predict(userPrompt: string) returns (r: Result<string, PyError>)
      requires loaded && Valid()
      ensures var rs := Responses(template, engine, modelName, systemPrompt, fewShotExamples, [userPrompt]);
        if rs == [] then r == Err(IndexError) else r == Ok(rs[0])
    {
      var results := BatchPredict(Many([userPrompt]));
      if |results| == 0 {
        r := Err(IndexError);
      } else {
        r := Ok(results[0]);
      }
    }

    /** `__exit__`: releases the engine and the tokenizer and suppresses any exception. */
    method Exit() returns (suppress: bool)
      requires loaded
      modifies this`loaded
      ensures !loaded && suppress
    {
      loaded := false;
      suppress := true;
    }
  }
}
