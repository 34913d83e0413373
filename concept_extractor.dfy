/**
 * Concept extraction and concept validation. The extractor asks the model
 * for the concepts of every chunk, cleans each answer, reads it as a Python
 * literal and collects what it yields, tagging the dictionaries of a list
 * answer with the chunk they came from; answers that cannot be handled are
 * counted as errors and skipped. The concept validator turns every concept
 * into a yes/no statement, has the statements validated and writes the
 * verdicts back into the concepts.
 *
 * `ast.literal_eval` is not modelled: it is the `parse` function the
 * operations are given, `None` standing for a raised exception.
 */
module ConceptExtractor {
  import opened Wrappers
  import opened PyStr
  import opened PyValue
  import opened BaseChunker
  import opened CustomLlm
  import opened Validators

  /** The behaviour prompt of the extraction model. */
  const SystemPrompt: string :=
    "You are an expert relationship "
    + "and entity extractor, using "
    + "these to build a concept "
    + "ontology. You are to extract "
    + "entity pairs that share a "
    + "relationship in the given input "
    + "text. An entity can be a single "
    + "word, a term, concept, "
    + "organization, brand name, "
    + "product, idea, action, "
    + "reaction, emotion, etc. Your "
    + "task is to extract the key "
    + "terms and concepts from the "
    + "given context only.Given a "
    + "text, return a list of concepts "
    + "that are related in the text "
    + "and the relationships between "
    + "them. The output should be a "
    + "simple list of dictionaries, "
    + "where each dictionary has keys "
    + "'node_1': <term/concept "
    + "extracted from the input>, "
    + "'node_2' : <term/concept that "
    + "is related to node_1>, 'edge': "
    + "<explanation of how node_1 and "
    + "node_2 are related in the input "
    + "using one or two sentences>, "
    + "'weight' : <number from 1-5 to "
    + "depict how strongly related "
    + "node_1 and node_2 are>, "
    + "'relation': <relationship "
    + "between node_1 and node_2>. "
    + "Note that the output should be "
    + "a valid list of dictionaries "
    + "parse-able by "
    + "ast.literal_eval()\nIf there are "
    + "no concepts to be extracted "
    + "from input, return an empty list"

  /** The user prompt for one chunk: the instruction, then the text between code fences. */
  function UserPrompt(text: string): (p: string)
    ensures Contains(p, "```" + text + "```")
    ensures EndsWith(p, "output: ")
  {
    var head := "extract concepts/terms in the "
      + "list of dictionaries format "
      + "described above from this text ";
    var tail := " \n\n output: ";
    var p := head + ("```" + text + "```") + tail;
    OccursInConcat(head, "```" + text + "```", tail);
    assert p[|p| - |"output: "|..] == "output: ";
    p
  }

  /** The user prompts of the chunks, in order. */
  function UserPrompts(chunks: seq<DataChunk>): (r: seq<string>)
    ensures |r| == |chunks|
    ensures forall i :: 0 <= i < |chunks| ==> r[i] == UserPrompt(chunks[i].text)
  {
    seq(|chunks|, i requires 0 <= i < |chunks| => UserPrompt(chunks[i].text))
  }

  /** The model's answers for the chunks, asked with the default model and no few-shot examples. */
  function ExtractionAnswers(template: ChatTemplate, engine: Engine, chunks: seq<DataChunk>): seq<string> {
    Responses(template, engine, DefaultModel, SystemPrompt, [], UserPrompts(chunks))
  }

  // ---------------------------------------------------------------------------
  // Reading one answer

  /** An answer with the `output:` marker and the code fences removed, stripped. */
  function Clean(answer: string): (r: string)
    ensures |r| <= |answer|
  {
    Strip(Replace(Replace(Replace(answer, "output:", ""), "```python", ""), "```", ""))
  }

  /** A string containing `p + q` contains `p`. */
  lemma ContainsPrefixOf(s: string, p: string, q: string)
    requires Contains(s, p + q)
    ensures Contains(s, p)
  {
    var i :| OccursAt(s, p + q, i);
    assert s[i..i + |p|] == s[i..i + |p| + |q|][..|p|];
    assert OccursAt(s, p, i);
  }

  /** An answer without the marker and without fences is only stripped. */
  lemma CleanPlainAnswer(answer: string)
    requires !Contains(answer, "output:") && !Contains(answer, "```")
    ensures Clean(answer) == Strip(answer)
  {
    assert "```python" == "```" + "python";
    LacksLonger(answer, "```", "python");
    var once := Replace(answer, "output:", "");
    assert once == answer;
    var twice := Replace(once, "```python", "");
    assert twice == answer;
  }

  /**
   * An answer fenced as a Python code block is unwrapped: the opening
   * ```` ```python ```` and the closing ```` ``` ```` are removed and the
   * code is stripped, when the code itself holds neither a fence nor the
   * `output:` marker.
   */
  lemma CleanFencedAnswer(x: string)
    requires !Contains(x, "```") && !Contains(x, "output:")
    ensures Clean("```python" + x + "```") == Strip(x)
  {
    var fenced := "```python" + x + "```";
    FencedLacksMarker(x);
    assert Replace(fenced, "output:", "") == fenced;
    assert fenced == [] + "```python" + (x + "```");
    assert !Contains([] + "```python"[..8], "```python");
    ReplaceLeftToRight([], "```python", x + "```", "");
    assert Replace(fenced, "```python", "") == x + "```" by {
      ClosedLacksOpening(x);
    }
    ClosingFenceRemoved(x);
  }

  /** The marker cannot occur in a fenced answer whose code lacks it: it holds no backquote and does not overlap `python`. */
  lemma FencedLacksMarker(x: string)
    requires !Contains(x, "output:")
    ensures !Contains("```python" + x + "```", "output:")
  {
    var fenced := "```python" + x + "```";
    var marker := "output:";
    assert fenced[..9] == "```python";
    assert fenced[9 + |x|] == '`';
    forall i | 0 <= i ensures !OccursAt(fenced, marker, i) {
      if i + 7 > |fenced| {
      } else if i < 9 {
        if i == 7 {
          assert fenced[8] == "```python"[8];
          MismatchAt(fenced, marker, i, 8);
        } else {
          assert fenced[i] == "```python"[i];
          MismatchAt(fenced, marker, i, i);
        }
      } else if i + 7 <= 9 + |x| {
        assert fenced[i..i + 7] == x[i - 9..i - 2];
        assert !OccursAt(x, marker, i - 9);
      } else {
        MismatchAt(fenced, marker, i, 9 + |x|);
      }
    }
  }

  /** Code without a fence, followed by the closing fence, does not contain the opening fence. */
  lemma ClosedLacksOpening(x: string)
    requires !Contains(x, "```")
    ensures !Contains(x + "```", "```python")
  {
    forall i | 0 <= i && i + 9 <= |x| + 3
      ensures !OccursAt(x + "```", "```python", i)
    {
      assert !OccursAt(x, "```", i);
      assert (x + "```")[i..i + 9][..3] == x[i..i + 3];
      assert "```python"[..3] == "```";
    }
  }

  /**
   * Removing fences from code without a fence, followed by the closing fence,
   * gives back the code. The code may end with one or two backquotes: the
   * first fence found starts at them, and what it leaves is those backquotes.
   */
  lemma ClosingFenceRemoved(x: string)
    requires !Contains(x, "```")
    ensures Replace(x + "```", "```", "") == x
  {
    var body, tail := TrailingBackquotes(x);
    BodyThenTwoLacksFence(body);
    assert "```"[..2] == "``";
    calc {
      Replace(x + "```", "```", "");
      { FenceBeforeBackquotes(body, tail); }
      Replace(body + "```" + tail, "```", "");
      { ReplaceLeftToRight(body, "```", tail, ""); }
      body + "" + Replace(tail, "```", "");
      { ShortTailKept(tail); }
      body + "" + tail;
    }
    assert body + "" + tail == x;
  }

  /** Fewer than three backquotes hold no fence to remove. */
  lemma ShortTailKept(tail: string)
    requires tail == "" || tail == "`" || tail == "``"
    ensures Replace(tail, "```", "") == tail
  {
  }

  /** Backquotes commute with a fence. */
  lemma FenceBeforeBackquotes(body: string, tail: string)
    requires tail == "" || tail == "`" || tail == "``"
    ensures body + tail + "```" == body + "```" + tail
  {
    assert tail + "```" == "```" + tail;
    assert body + tail + "```" == body + (tail + "```");
  }

  /** Code without a fence splits into a part not ending with a backquote and at most two trailing backquotes. */
  lemma TrailingBackquotes(x: string) returns (body: string, tail: string)
    requires !Contains(x, "```")
    ensures x == body + tail && (tail == "" || tail == "`" || tail == "``")
    ensures !Contains(body, "```") && (body == [] || body[|body| - 1] != '`')
  {
    var n := |x|;
    if n >= 2 && x[n - 1] == '`' && x[n - 2] == '`' {
      if n >= 3 {
        NoFenceBeforeTwo(x);
      }
      body, tail := CutTail(x, 2);
    } else if n >= 1 && x[n - 1] == '`' {
      body, tail := CutTail(x, 1);
    } else {
      body, tail := CutTail(x, 0);
    }
  }

  /** In code without a fence, two trailing backquotes follow something else. */
  lemma NoFenceBeforeTwo(x: string)
    requires |x| >= 3 && x[|x| - 1] == '`' && x[|x| - 2] == '`'
    requires !Contains(x, "```")
    ensures x[|x| - 3] != '`'
  {
    var n := |x|;
    assert !OccursAt(x, "```", n - 3);
    assert x[n - 3..n] == [x[n - 3], x[n - 2], x[n - 1]];
  }

  /** Cutting `k` trailing backquotes that follow something else. */
  lemma CutTail(x: string, k: nat) returns (body: string, tail: string)
    requires k <= 2 && k <= |x| && !Contains(x, "```")
    requires forall j | |x| - k <= j < |x| :: x[j] == '`'
    requires k < |x| ==> x[|x| - k - 1] != '`'
    ensures x == body + tail && (tail == "" || tail == "`" || tail == "``")
    ensures !Contains(body, "```") && (body == [] || body[|body| - 1] != '`')
  {
    body, tail := x[..|x| - k], x[|x| - k..];
    assert x == body + tail;
    if k == 2 {
      assert tail == [x[|x| - 2], x[|x| - 1]];
    } else if k == 1 {
      assert tail == [x[|x| - 1]];
    }
    LacksInPrefix(body, tail, "```");
  }

  /** Two backquotes after code that neither holds a fence nor ends with a backquote make no fence. */
  lemma BodyThenTwoLacksFence(body: string)
    requires !Contains(body, "```") && (body == [] || body[|body| - 1] != '`')
    ensures !Contains(body + "``", "```")
  {
    forall i | 0 <= i && i + 3 <= |body| + 2
      ensures !OccursAt(body + "``", "```", i)
    {
      NoFenceAcross(body, i);
    }
  }

  /** No fence starts at `i` in code followed by two backquotes. */
  lemma NoFenceAcross(body: string, i: int)
    requires 0 <= i && i + 3 <= |body| + 2
    requires i + 3 <= |body| ==> !OccursAt(body, "```", i)
    requires body == [] || body[|body| - 1] != '`'
    ensures !OccursAt(body + "``", "```", i)
  {
    if i + 3 <= |body| {
      assert (body + "``")[i..i + 3] == body[i..i + 3];
    } else {
      MismatchAt(body + "``", "```", i, |body| - 1);
    }
  }

  /** A string that does not contain `p` does not contain `p + q`. */
  lemma LacksLonger(s: string, p: string, q: string)
    requires !Contains(s, p)
    ensures !Contains(s, p + q)
  {
    if Contains(s, p + q) {
      ContainsPrefixOf(s, p, q);
    }
  }

  const TextKey: Value := VStr("originating_text")
  const ChunkIdKey: Value := VStr("originating_chunk_id")

  /**
   * A dictionary after `res["originating_text"] = chunk.text` and
   * `res["originating_chunk_id"] = chunk.id`: it maps the two keys to the
   * chunk's text and id.
   */
  function Tag(entries: seq<(Value, Value)>, chunk: DataChunk): (r: seq<(Value, Value)>)
    ensures Get(r, TextKey) == Some(VStr(chunk.text))
    ensures Get(r, ChunkIdKey) == Some(VUuid(chunk.id))
  {
    var withText := SetItem(entries, TextKey, VStr(chunk.text));
    SetItemGet(entries, TextKey, VStr(chunk.text));
    SetItemOther(withText, ChunkIdKey, VUuid(chunk.id), TextKey);
    SetItemGet(withText, ChunkIdKey, VUuid(chunk.id));
    SetItem(withText, ChunkIdKey, VUuid(chunk.id))
  }

  /** Dictionaries tagged one by one make up `TagAll`. */
  lemma TaggedAll(items: seq<Value>, chunk: DataChunk, tagged: seq<Value>)
    requires forall i :: 0 <= i < |items| ==> items[i].VDict?
    requires |tagged| == |items|
    requires forall i :: 0 <= i < |items| ==> tagged[i] == VDict(Tag(items[i].entries, chunk))
    ensures TagAll(items, chunk) == Some(tagged)
  {
    assert TagAll(items, chunk).value == tagged;
  }

  /** Tagging leaves every other key as it was. */
  lemma TagOther(entries: seq<(Value, Value)>, chunk: DataChunk, k: Value)
    requires k != TextKey && k != ChunkIdKey
    ensures Get(Tag(entries, chunk), k) == Get(entries, k)
  {
    var e1 := SetItem(entries, TextKey, VStr(chunk.text));
    SetItemOther(entries, TextKey, VStr(chunk.text), k);
    SetItemOther(e1, ChunkIdKey, VUuid(chunk.id), k);
  }

  /**
   * Every item of a list answer tagged with the chunk; `None` when an item is
   * not a dictionary, since item assignment on it raises.
   */
  function TagAll(items: seq<Value>, chunk: DataChunk): (r: Option<seq<Value>>)
    ensures r.Some? <==> forall i :: 0 <= i < |items| ==> items[i].VDict?
    ensures r.Some? ==> |r.value| == |items|
    ensures r.Some? ==> forall i :: 0 <= i < |items| ==> r.value[i] == VDict(Tag(items[i].entries, chunk))
  {
    if forall i :: 0 <= i < |items| ==> items[i].VDict? then
      Some(seq(|items|, i requires 0 <= i < |items| => VDict(Tag(items[i].entries, chunk))))
    else None
  }

  /**
   * What the answer at `idx` adds to the concepts, or `None` when handling it
   * raises: the cleaned answer is not a literal; a non-empty list answer has
   * no chunk at `idx` or holds something other than a dictionary; or the
   * value is not iterable. A list answer adds its tagged dictionaries; any
   * other iterable adds its elements untagged.
   */
  function Contribution(chunks: seq<DataChunk>, idx: nat, answer: string, parse: string -> Option<Value>)
    : (r: Option<seq<Value>>)
    ensures r.Some? ==> parse(Clean(answer)).Some?
    ensures r.Some? && parse(Clean(answer)).value.VList? ==> |r.value| == |parse(Clean(answer)).value.items|
    ensures parse(Clean(answer)).Some? && parse(Clean(answer)).value.VDict? ==>
      r == Some(Keys(parse(Clean(answer)).value.entries))
  {
    match parse(Clean(answer))
    case None => None
    case Some(v) =>
      if v.VList? then
        if v.items == [] then Some([])
        else if idx >= |chunks| then None
        else TagAll(v.items, chunks[idx])
      else Elements(v)
  }

  /** Every concept a list answer contributes is a dictionary carrying the text and the id of chunk `idx`. */
  lemma ListConceptsAreTagged(chunks: seq<DataChunk>, idx: nat, answer: string, parse: string -> Option<Value>)
    requires parse(Clean(answer)).Some? && parse(Clean(answer)).value.VList?
    requires Contribution(chunks, idx, answer, parse).Some?
    ensures forall c <- Contribution(chunks, idx, answer, parse).value ::
      && idx < |chunks| && c.VDict?
      && Get(c.entries, TextKey) == Some(VStr(chunks[idx].text))
      && Get(c.entries, ChunkIdKey) == Some(VUuid(chunks[idx].id))
  {
    var items := parse(Clean(answer)).value.items;
    if items != [] {
      var tagged := TagAll(items, chunks[idx]).value;
      assert Contribution(chunks, idx, answer, parse).value == tagged;
      forall i | 0 <= i < |tagged|
        ensures tagged[i].VDict? && Get(tagged[i].entries, TextKey) == Some(VStr(chunks[idx].text))
        ensures Get(tagged[i].entries, ChunkIdKey) == Some(VUuid(chunks[idx].id))
      {
        assert tagged[i] == VDict(Tag(items[i].entries, chunks[idx]));
      }
    }
  }

  // ---------------------------------------------------------------------------
  // Reading all answers

  /** The concepts collected from the answers, in order, and the number of answers that raised. */
  function ParseAll(chunks: seq<DataChunk>, answers: seq<string>, parse: string -> Option<Value>)
    : (r: (seq<Value>, nat))
    ensures r.1 <= |answers|
    decreases |answers|
  {
    if answers == [] then ([], 0)
    else
      var n := |answers| - 1;
      var prior := ParseAll(chunks, answers[..n], parse);
      match Contribution(chunks, n, answers[n], parse)
      case Some(extra) => (prior.0 + extra, prior.1)
      case None => (prior.0, prior.1 + 1)
  }

  /** No answer raised exactly when every answer contributes. */
  lemma {:induction false} NoErrorsIffAllContribute(chunks: seq<DataChunk>, answers: seq<string>,
                                                    parse: string -> Option<Value>)
    ensures ParseAll(chunks, answers, parse).1 == 0 <==>
      forall i :: 0 <= i < |answers| ==> Contribution(chunks, i, answers[i], parse).Some?
    decreases |answers|
  {
    if answers != [] {
      var n := |answers| - 1;
      NoErrorsIffAllContribute(chunks, answers[..n], parse);
      ErrorStep(chunks, answers, parse);
      ContributeStep(chunks, answers, parse);
    }
  }

  /** Every answer contributes exactly when every earlier one does and the last one does. */
  lemma ContributeStep(chunks: seq<DataChunk>, answers: seq<string>, parse: string -> Option<Value>)
    requires answers != []
    ensures var n := |answers| - 1;
      (forall i :: 0 <= i < |answers| ==> Contribution(chunks, i, answers[i], parse).Some?)
      <==> (&& (forall i :: 0 <= i < n ==> Contribution(chunks, i, answers[..n][i], parse).Some?)
            && Contribution(chunks, n, answers[n], parse).Some?)
  {
    var n := |answers| - 1;
    assert forall i :: 0 <= i < n ==> answers[..n][i] == answers[i];
  }

  /** One more answer adds one error exactly when it does not contribute. */
  lemma ErrorStep(chunks: seq<DataChunk>, answers: seq<string>, parse: string -> Option<Value>)
    requires answers != []
    ensures var n := |answers| - 1;
      ParseAll(chunks, answers, parse).1
        == ParseAll(chunks, answers[..n], parse).1 + (if Contribution(chunks, n, answers[n], parse).Some? then 0 else 1)
  {
  }

  /** One more answer only appends concepts. */
  lemma ParseStep(chunks: seq<DataChunk>, answers: seq<string>, parse: string -> Option<Value>)
    requires answers != []
    ensures var whole := ParseAll(chunks, answers, parse).0;
      var prior := ParseAll(chunks, answers[..|answers| - 1], parse).0;
      |prior| <= |whole| && whole[..|prior|] == prior
  {
    var n := |answers| - 1;
    var prior := ParseAll(chunks, answers[..n], parse).0;
    match Contribution(chunks, n, answers[n], parse)
    case Some(extra) =>
      assert (prior + extra)[..|prior|] == prior;
    case None =>
  }

  /** Concepts are only ever appended: those of a prefix of the answers come first. */
  lemma {:induction false} ParsePrefix(chunks: seq<DataChunk>, answers: seq<string>, k: nat,
                                       parse: string -> Option<Value>)
    requires k <= |answers|
    ensures var whole := ParseAll(chunks, answers, parse).0;
      var part := ParseAll(chunks, answers[..k], parse).0;
      |part| <= |whole| && whole[..|part|] == part
    decreases |answers|
  {
    if k == |answers| {
      assert answers[..k] == answers;
    } else {
      var n := |answers| - 1;
      assert answers[..n][..k] == answers[..k];
      ParsePrefix(chunks, answers[..n], k, parse);
      ParseStep(chunks, answers, parse);
      var part := ParseAll(chunks, answers[..k], parse).0;
      var prior := ParseAll(chunks, answers[..n], parse).0;
      var whole := ParseAll(chunks, answers, parse).0;
      assert whole[..|part|] == whole[..|prior|][..|part|];
    }
  }

  /**
   * When every answer is a list, every concept is a dictionary tagged with
   * the text and the id of one of the chunks.
   */
  lemma {:induction false} ConceptsOfListAnswersAreTagged(chunks: seq<DataChunk>, answers: seq<string>,
                                                          parse: string -> Option<Value>)
    requires forall i :: 0 <= i < |answers| ==>
      parse(Clean(answers[i])).Some? ==> parse(Clean(answers[i])).value.VList?
    ensures forall c <- ParseAll(chunks, answers, parse).0 ::
      exists k :: 0 <= k < |chunks| && c.VDict?
        && Get(c.entries, TextKey) == Some(VStr(chunks[k].text))
        && Get(c.entries, ChunkIdKey) == Some(VUuid(chunks[k].id))
    decreases |answers|
  {
    if answers != [] {
      var n := |answers| - 1;
      assert forall i :: 0 <= i < n ==> answers[..n][i] == answers[i];
      ConceptsOfListAnswersAreTagged(chunks, answers[..n], parse);
      var extra := Contribution(chunks, n, answers[n], parse);
      if extra.Some? {
        ListConceptsAreTagged(chunks, n, answers[n], parse);
      }
    }
  }

  // ---------------------------------------------------------------------------
  // The extractor

  /** A concept extractor over chunks; `concepts` holds the last extraction. */
  class Extractor {
    const chunks: seq<DataChunk>
    var concepts: seq<Value>

    constructor (chunks: seq<DataChunk>)
      ensures this.chunks == chunks && concepts == []
    {
      this.chunks := chunks;
      concepts := [];
    }

    /** The inner loop over a list answer: tags each dictionary, failing on the first item that cannot be tagged. */
    method TagItems(items: seq<Value>, idx: nat) returns (r: Option<seq<Value>>)
      ensures r == if items == [] then Some([]) else if idx >= |chunks| then None else TagAll(items, chunks[idx])
    {
      var tagged := [];
      for j := 0 to |items|
        invariant idx < |chunks| || j == 0
        invariant forall i :: 0 <= i < j ==> items[i].VDict?
        invariant |tagged| == j
        invariant forall i :: 0 <= i < j ==> tagged[i] == VDict(Tag(items[i].entries, chunks[idx]))
      {
        if idx >= |chunks| {
          return None;
        }
        var res := items[j];
        if !res.VDict? {
          assert TagAll(items, chunks[idx]).None?;
          return None;
        }
        var entries := SetItem(res.entries, TextKey, VStr(chunks[idx].text));
        entries := SetItem(entries, ChunkIdKey, VUuid(chunks[idx].id));
        tagged := tagged + [VDict(entries)];
      }
      if items == [] {
        return Some([]);
      }
      TaggedAll(items, chunks[idx], tagged);
      r := Some(tagged);
    }

    /** `_parse_results`: the concepts of all answers, and how many answers raised. */
    method ParseResults(results: seq<string>, parse: string -> Option<Value>)
      returns (concepts: seq<Value>, errorCount: nat)
      ensures (concepts, errorCount) == ParseAll(chunks, results, parse)
    {
      concepts, errorCount := [], 0;
      for idx := 0 to |results|
        invariant (concepts, errorCount) == ParseAll(chunks, results[..idx], parse)
      {
        assert results[..idx + 1][..idx] == results[..idx];
        var result := Clean(results[idx]);
        var extra: Option<seq<Value>>;
        match parse(result) {
          case None =>
            extra := None;
          case Some(v) =>
            if v.VList? {
              extra := TagItems(v.items, idx);
            } else {
              extra := Elements(v);
            }
        }
        if extra.Some? {
          concepts := concepts + extra.value;
        } else {
          errorCount := errorCount + 1;
        }
      }
      assert results[..|results|] == results;
    }

    /** `extract_concepts`: asks the model about every chunk and keeps the concepts read from the answers. */
    method ExtractConcepts(template: ChatTemplate, engine: Engine, parse: string -> Option<Value>)
      modifies this`concepts
      ensures concepts == ParseAll(chunks, ExtractionAnswers(template, engine, chunks), parse).0
    {
      AskAndParse(SystemPrompt, template, engine, parse);
    }

    /** The `with` block of `extract_concepts`, for a given behaviour prompt. */
    method AskAndParse(systemPrompt: string, template: ChatTemplate, engine: Engine, parse: string -> Option<Value>)
      modifies this`concepts
      ensures concepts == ParseAll(chunks, Responses(template, engine, DefaultModel, systemPrompt, [], UserPrompts(chunks)), parse).0
    {
      assert AllowedModels[3] == DefaultModel;
      var llm := new Builder(template, engine, systemPrompt := systemPrompt);
      var userPrompts := UserPrompts(chunks);
      var extracted := llm.BatchPredict(Many(userPrompts));
      var _ := llm.Exit();
      var errorCount;
      concepts, errorCount := ParseResults(extracted, parse);
    }

    /** `get_output`: extracts and returns the concepts. */
    method GetOutput(template: ChatTemplate, engine: Engine, parse: string -> Option<Value>)
      returns (result: seq<Value>)
      modifies this`concepts
      ensures result == concepts
      ensures concepts == ParseAll(chunks, ExtractionAnswers(template, engine, chunks), parse).0
    {
      ExtractConcepts(template, engine, parse);
      result := concepts;
    }
  }

  // ---------------------------------------------------------------------------
  // The concept validator

  /**
   * The yes/no statement of one concept, or the error raised while building
   * it. A concept has a statement exactly when it is a dictionary with
   * `node_1`, `node_2`, `relation` and `originating_text`; otherwise building
   * it raises `KeyError` for a dictionary and `TypeError` for anything else.
   */
  function Statement(concept: Value): (r: Result<string, PyError>)
    ensures r.Ok? <==> (
      && concept.VDict?
      && VStr("node_1") in Keys(concept.entries) && VStr("node_2") in Keys(concept.entries)
      && VStr("relation") in Keys(concept.entries) && VStr("originating_text") in Keys(concept.entries))
    ensures r.Err? ==> r.error == (if concept.VDict? then KeyError else TypeError)
  {
    match Subscript(concept, "node_1")
    case Err(e) => Err(e)
    case Ok(n1) =>
      match Subscript(concept, "node_2")
      case Err(e) => Err(e)
      case Ok(n2) =>
        match Subscript(concept, "relation")
        case Err(e) => Err(e)
        case Ok(rel) =>
          match Subscript(concept, "originating_text")
          case Err(e) => Err(e)
          case Ok(text) => Ok(StatementText(Str(n1), Str(n2), Str(rel), Str(text)))
  }

  /** `` f"`{node1}` and `{node2}` share the relationship `{relation}` in the context of ```{text}```" ``. */
  function StatementText(node1: string, node2: string, relation: string, text: string): string {
    "`" + node1 + "` and `" + node2 + "` share the relationship `" + relation + "` in the context of ```" + text + "```"
  }

  /** A statement opens with the first node in backquotes and closes with the fenced originating text. */
  lemma StatementTextFraming(node1: string, node2: string, relation: string, text: string)
    ensures var s := StatementText(node1, node2, relation, text);
      StartsWith(s, "`" + node1 + "` and `") && EndsWith(s, "```" + text + "```")
  {
    var s := StatementText(node1, node2, relation, text);
    var head := "`" + node1 + "` and `";
    var tail := "```" + text + "```";
    var middle := node2 + "` share the relationship `" + relation + "` in the context of ";
    assert s == head + middle + tail;
    assert s == head + (middle + tail);
    StartsWithConcat(head, middle + tail);
    EndsWithConcat(head + middle, tail);
  }

  /** The statements of all concepts, or the error of the first concept that has none. */
  function Statements(concepts: seq<Value>): (r: Result<seq<string>, PyError>)
    ensures r.Ok? <==> forall i :: 0 <= i < |concepts| ==> Statement(concepts[i]).Ok?
    ensures r.Ok? ==> |r.value| == |concepts|
    ensures r.Ok? ==> forall i :: 0 <= i < |concepts| ==> r.value[i] == Statement(concepts[i]).value
  {
    var outcomes := seq(|concepts|, i requires 0 <= i < |concepts| => Statement(concepts[i]));
    assert forall i :: 0 <= i < |concepts| ==> outcomes[i] == Statement(concepts[i]);
    Collect(outcomes)
  }

  /** The values of a list of outcomes, in order, or the first error among them. */
  function Collect(outcomes: seq<Result<string, PyError>>): (r: Result<seq<string>, PyError>)
    ensures r.Ok? <==> forall i :: 0 <= i < |outcomes| ==> outcomes[i].Ok?
    ensures r.Ok? ==> |r.value| == |outcomes|
    ensures r.Ok? ==> forall i :: 0 <= i < |outcomes| ==> r.value[i] == outcomes[i].value
  {
    if outcomes == [] then Ok([])
    else
      var rest := Collect(outcomes[1..]);
      assert forall i :: 1 <= i < |outcomes| ==> outcomes[1..][i - 1] == outcomes[i];
      if outcomes[0].Err? then Err(outcomes[0].error)
      else if rest.Err? then Err(rest.error)
      else
        var r := [outcomes[0].value] + rest.value;
        assert forall i :: 1 <= i < |outcomes| ==> r[i] == rest.value[i - 1];
        Ok(r)
  }

  /** A failure is the error of the first failing outcome. */
  lemma {:induction false} CollectFailsAtFirst(outcomes: seq<Result<string, PyError>>)
    requires Collect(outcomes).Err?
    ensures exists i :: (
      && 0 <= i < |outcomes|
      && (forall j :: 0 <= j < i ==> outcomes[j].Ok?)
      && outcomes[i] == Err(Collect(outcomes).error))
    decreases |outcomes|
  {
    if outcomes[0].Ok? {
      var tail := outcomes[1..];
      CollectFailsAtFirst(tail);
      var i :| 0 <= i < |tail| && (forall j :: 0 <= j < i ==> tail[j].Ok?)
        && tail[i] == Err(Collect(tail).error);
      assert forall j :: 1 <= j < i + 1 ==> outcomes[j] == tail[j - 1];
      assert outcomes[i + 1] == Err(Collect(outcomes).error);
    } else {
      assert outcomes[0] == Err(Collect(outcomes).error);
    }
  }

  /** The validation fails with the error of the first concept that has no statement. */
  lemma StatementsFailAtFirst(concepts: seq<Value>)
    requires Statements(concepts).Err?
    ensures exists i :: (
      && 0 <= i < |concepts|
      && (forall j :: 0 <= j < i ==> Statement(concepts[j]).Ok?)
      && Statement(concepts[i]) == Err(Statements(concepts).error))
  {
    var outcomes := seq(|concepts|, i requires 0 <= i < |concepts| => Statement(concepts[i]));
    assert forall i :: 0 <= i < |concepts| ==> outcomes[i] == Statement(concepts[i]);
    assert Statements(concepts) == Collect(outcomes);
    CollectFailsAtFirst(outcomes);
  }

  /** Every concept with a statement is a dictionary. */
  lemma AllHaveStatements(concepts: seq<Value>)
    requires Statements(concepts).Ok?
    ensures forall i :: 0 <= i < |concepts| ==> concepts[i].VDict?
  {
    forall i | 0 <= i < |concepts| ensures concepts[i].VDict? {
      assert Statement(concepts[i]).Ok?;
    }
  }

  /**
   * A single dictionary answer (rather than a list of them) contributes its
   * keys, untagged and without raising; when its first key is a string,
   * validating those concepts then raises `TypeError`, since a string cannot
   * be subscripted with `'node_1'`.
   */
  lemma DictAnswerCannotBeValidated(chunks: seq<DataChunk>, answer: string, parse: string -> Option<Value>,
                                    entries: seq<(Value, Value)>)
    requires parse(Clean(answer)) == Some(VDict(entries))
    requires entries != [] && entries[0].0.VStr?
    ensures ParseAll(chunks, [answer], parse) == (Keys(entries), 0)
    ensures Statements(ParseAll(chunks, [answer], parse).0) == Err(TypeError)
  {
    assert [answer][..0] == [];
    var concepts := Keys(entries);
    assert ParseAll(chunks, [answer], parse).0 == [] + concepts;
    assert [] + concepts == concepts;
    assert Statement(concepts[0]) == Err(TypeError);
    StatementsFailAtFirst(concepts);
  }

  const ValidKey: Value := VStr("valid")
  const ExplanationKey: Value := VStr("explanation")

  /** An explanation as a Python value: the answer, or `None`. */
  function ExplanationValue(explanation: Option<string>): Value {
    match explanation
    case Some(s) => VStr(s)
    case None => VNone
  }

  /**
   * One concept after the write-back: `valid` and `explanation` are first set
   * to `False` and `None`, then copied from the verdict at the same index
   * when there is one.
   */
  function Annotate(concept: Value, verdict: Option<Verdict>): (r: Value)
    requires concept.VDict?
    ensures r.VDict?
  {
    var reset := SetItem(SetItem(concept.entries, ValidKey, VBool(false)), ExplanationKey, VNone);
    match verdict
    case None => VDict(reset)
    case Some(v) =>
      VDict(SetItem(SetItem(reset, ValidKey, VBool(v.valid)), ExplanationKey, ExplanationValue(v.explanation)))
  }

  /** Setting `valid`, then `explanation`, maps them to the values set. */
  lemma SetPairSpec(entries: seq<(Value, Value)>, valid: Value, explanation: Value)
    ensures var r := SetItem(SetItem(entries, ValidKey, valid), ExplanationKey, explanation);
      Get(r, ValidKey) == Some(valid) && Get(r, ExplanationKey) == Some(explanation)
  {
    var e1 := SetItem(entries, ValidKey, valid);
    SetItemGet(entries, ValidKey, valid);
    SetItemOther(e1, ExplanationKey, explanation, ValidKey);
    SetItemGet(e1, ExplanationKey, explanation);
  }

  /** Setting `valid`, then `explanation`, leaves every other key as it was. */
  lemma SetPairOther(entries: seq<(Value, Value)>, valid: Value, explanation: Value, k: Value)
    requires k != ValidKey && k != ExplanationKey
    ensures Get(SetItem(SetItem(entries, ValidKey, valid), ExplanationKey, explanation), k) == Get(entries, k)
  {
    SetItemOther(entries, ValidKey, valid, k);
    SetItemOther(SetItem(entries, ValidKey, valid), ExplanationKey, explanation, k);
  }

  /**
   * An annotated concept says whether its verdict is valid (`False` without
   * a verdict) and carries the verdict's explanation (`None` without one).
   */
  lemma AnnotateSpec(concept: Value, verdict: Option<Verdict>)
    requires concept.VDict?
    ensures Get(Annotate(concept, verdict).entries, ValidKey) == Some(VBool(verdict.Some? && verdict.value.valid))
    ensures Get(Annotate(concept, verdict).entries, ExplanationKey)
         == Some(if verdict.Some? then ExplanationValue(verdict.value.explanation) else VNone)
  {
    var reset := SetItem(SetItem(concept.entries, ValidKey, VBool(false)), ExplanationKey, VNone);
    SetPairSpec(concept.entries, VBool(false), VNone);
    if verdict.Some? {
      SetPairSpec(reset, VBool(verdict.value.valid), ExplanationValue(verdict.value.explanation));
    }
  }

  /** Annotating leaves the concept's other keys as they were. */
  lemma AnnotateOther(concept: Value, verdict: Option<Verdict>, k: Value)
    requires concept.VDict? && k != ValidKey && k != ExplanationKey
    ensures Get(Annotate(concept, verdict).entries, k) == Get(concept.entries, k)
  {
    var reset := SetItem(SetItem(concept.entries, ValidKey, VBool(false)), ExplanationKey, VNone);
    SetPairOther(concept.entries, VBool(false), VNone, k);
    if verdict.Some? {
      SetPairOther(reset, VBool(verdict.value.valid), ExplanationValue(verdict.value.explanation), k);
    }
  }

  /** Every concept annotated with the verdict at its index, if any. */
  function AnnotateAll(concepts: seq<Value>, verdicts: seq<Verdict>): (r: seq<Value>)
    requires forall i :: 0 <= i < |concepts| ==> concepts[i].VDict?
    ensures |r| == |concepts|
    ensures forall i :: 0 <= i < |concepts| ==>
      r[i] == Annotate(concepts[i], if i < |verdicts| then Some(verdicts[i]) else None)
  {
    seq(|concepts|, i requires 0 <= i < |concepts| =>
      Annotate(concepts[i], if i < |verdicts| then Some(verdicts[i]) else None))
  }

  /** The statement validator's verdicts for the statements, under the default prompts. */
  function Verdicts(template: ChatTemplate, engine: Engine, statements: seq<string>): seq<Verdict> {
    MergeAnswers(Unanswered(statements),
                 Answers(template, engine, DefaultValidationBehavior, DefaultUserPrompt, statements))
  }

  /**
   * After a successful validation, concept `i` is valid exactly when the
   * answer to its statement exists and contains "Yes", and its explanation
   * is that answer (`None` without one).
   */
  lemma ValidatedConcept(concepts: seq<Value>, statements: seq<string>, answers: seq<string>, i: nat)
    requires |statements| == |concepts| && i < |concepts|
    requires forall k :: 0 <= k < |concepts| ==> concepts[k].VDict?
    ensures var r := AnnotateAll(concepts, MergeAnswers(Unanswered(statements), answers))[i];
      && Get(r.entries, ValidKey) == Some(VBool(i < |answers| && Contains(answers[i], "Yes")))
      && Get(r.entries, ExplanationKey) == Some(if i < |answers| then VStr(answers[i]) else VNone)
  {
    var verdicts := MergeAnswers(Unanswered(statements), answers);
    FreshValidIffYes(statements, answers, i);
    AnnotateSpec(concepts[i], Some(verdicts[i]));
  }

  /** A concept validator over the extracted concepts. */
  class ConceptValidator {
    var concepts: seq<Value>

    constructor (concepts: seq<Value>)
      ensures this.concepts == concepts
    {
      this.concepts := concepts;
    }

    /**
     * `validate`: builds the statements, has them validated, then writes the
     * verdicts back. A concept without a statement raises before anything
     * changes, and so does an `IndexError` out of the statement validator.
     */
    method Validate(template: ChatTemplate, engine: Engine) returns (r: Result<seq<Value>, PyError>)
      modifies this`concepts
      ensures match Statements(old(concepts))
        case Err(e) => r == Err(e) && concepts == old(concepts)
        case Ok(statements) =>
          var answers := Answers(template, engine, DefaultValidationBehavior, DefaultUserPrompt, statements);
          if |answers| > |statements| then r == Err(IndexError) && concepts == old(concepts)
          else
            && (forall i :: 0 <= i < |old(concepts)| ==> old(concepts)[i].VDict?)
            && concepts == AnnotateAll(old(concepts), Verdicts(template, engine, statements))
            && r == Ok(concepts)
    {
      var built := Statements(concepts);
      if built.Err? {
        return Err(built.error);
      }
      AllHaveStatements(concepts);
      r := ValidateStatements(built.value, DefaultValidationBehavior, DefaultUserPrompt, template, engine);
    }

    /** The part of `validate` after the statements are built, for given prompts. */
    method ValidateStatements(statements: seq<string>, behavior: string, userPrompt: string,
                              template: ChatTemplate, engine: Engine)
      returns (r: Result<seq<Value>, PyError>)
      requires |statements| == |concepts|
      requires forall i :: 0 <= i < |concepts| ==> concepts[i].VDict?
      modifies this`concepts
      ensures var answers := Answers(template, engine, behavior, userPrompt, statements);
        if |answers| > |statements| then r == Err(IndexError) && concepts == old(concepts)
        else
          && concepts == AnnotateAll(old(concepts), MergeAnswers(Unanswered(statements), answers))
          && r == Ok(concepts)
    {
      var asValues := seq(|statements|, i requires 0 <= i < |statements| => VStr(statements[i]));
      var validator := new StatementValidator(asValues, behavior);
      assert validator.statements == statements;
      var evaluated := validator.Validate(template, engine, userPrompt);
      if evaluated.Err? {
        return Err(evaluated.error);
      }
      WriteBack(evaluated.value);
      r := Ok(concepts);
    }

    /** The loop over the concepts: each gets the verdict at its index, if any. */
    method WriteBack(verdicts: seq<Verdict>)
      requires forall i :: 0 <= i < |concepts| ==> concepts[i].VDict?
      modifies this`concepts
      ensures concepts == AnnotateAll(old(concepts), verdicts)
    {
      ghost var before := concepts;
      for idx := 0 to |concepts|
        invariant |concepts| == |before|
        invariant forall k :: 0 <= k < |concepts| ==>
          concepts[k] == if k < idx then Annotate(before[k], if k < |verdicts| then Some(verdicts[k]) else None)
                         else before[k]
      {
        var concept := concepts[idx];
        var entries := SetItem(concept.entries, ValidKey, VBool(false));
        entries := SetItem(entries, ExplanationKey, VNone);
        if idx < |verdicts| {
          entries := SetItem(entries, ValidKey, VBool(verdicts[idx].valid));
          entries := SetItem(entries, ExplanationKey, ExplanationValue(verdicts[idx].explanation));
        }
        concepts := concepts[idx := VDict(entries)];
      }
    }
  }
}
