/**
 * The base of the chunkers: the chunk record, and the clean-up of the input
 * documents done when a chunker is built (every input turned into a string,
 * placeholder and blank documents dropped).
 */
module BaseChunker {
  import opened PyStr
  import opened PyValue

  /** A chunk of text: its id, its text and its word count, stored as given. */
  datatype DataChunk = DataChunk(id: Uuid, text: string, size: int)

  /** The stripped forms that mark a document as missing. */
  const Placeholders: seq<string> := ["None", "", "nan", "NaN"]

  /** A document survives the clean-up when its stripped form is not a placeholder. */
  predicate IsKept(doc: string) {
    Strip(doc) !in Placeholders
  }

  /**
   * `[doc for doc in docs if doc.strip() not in [None, 'None', "", 'nan', 'NaN']]`.
   * A document is kept exactly when it is not a placeholder.
   */
  function FilterDocs(docs: seq<string>): (r: seq<string>)
    ensures |r| <= |docs|
    ensures forall d :: d in r <==> d in docs && IsKept(d)
  {
    if docs == [] then []
    else if IsKept(docs[0]) then [docs[0]] + FilterDocs(docs[1..])
    else FilterDocs(docs[1..])
  }

  /** Every kept document has a non-empty stripped form, so its last stripped character exists. */
  lemma KeptDocsAreVisible(docs: seq<string>)
    ensures forall d <- FilterDocs(docs) :: Strip(d) != ""
  {
    forall d <- FilterDocs(docs) ensures Strip(d) != "" {
      assert Placeholders[1] == "";
    }
  }

  /** The filter keeps the relative order: it distributes over concatenation. */
  lemma {:induction false} FilterAppend(a: seq<string>, b: seq<string>)
    ensures FilterDocs(a + b) == FilterDocs(a) + FilterDocs(b)
    decreases |a|
  {
    if a == [] {
      assert a + b == b;
    } else {
      var ab := a + b;
      assert ab[0] == a[0] && ab[1..] == a[1..] + b;
      FilterAppend(a[1..], b);
      if IsKept(a[0]) {
        calc {
          FilterDocs(ab);
          [a[0]] + FilterDocs(a[1..] + b);
          [a[0]] + (FilterDocs(a[1..]) + FilterDocs(b));
        }
      }
    }
  }

  /** Filtering an already filtered list changes nothing. */
  lemma {:induction false} FilterIdempotent(docs: seq<string>)
    ensures FilterDocs(FilterDocs(docs)) == FilterDocs(docs)
    decreases |docs|
  {
    if docs != [] {
      FilterIdempotent(docs[1..]);
      if IsKept(docs[0]) {
        assert FilterDocs(docs) == [docs[0]] + FilterDocs(docs[1..]);
        assert FilterDocs(FilterDocs(docs))[1..] == FilterDocs(FilterDocs(docs[1..])) by {
          assert FilterDocs(docs)[1..] == FilterDocs(docs[1..]);
        }
      }
    }
  }

  /** The documents a chunker is built with: the string forms of the inputs, cleaned. */
  function InputDocs(inputs: seq<Value>): seq<string> {
    FilterDocs(ToStrings(inputs))
  }

  /** Appending one input appends its cleaned string form, if any. */
  lemma InputAppend(inputs: seq<Value>, extra: Value)
    ensures InputDocs(inputs + [extra]) == InputDocs(inputs) + FilterDocs([Str(extra)])
  {
    assert ToStrings(inputs + [extra]) == ToStrings(inputs) + [Str(extra)];
    FilterAppend(ToStrings(inputs), [Str(extra)]);
  }

  /** The string forms of `None` and of a float NaN are dropped. */
  lemma PlaceholderWordDropped(word: string)
    requires word == "None" || word == "nan"
    ensures FilterDocs([word]) == []
  {
    if word == "None" {
      assert TrimStart("None") == "None";
      assert Placeholders[0] == "None";
    } else {
      assert TrimStart("nan") == "nan";
      assert Placeholders[2] == "nan";
    }
  }

  /** A `None` input or a float NaN input becomes `'None'` or `'nan'` and is dropped. */
  lemma PlaceholderInputDropped(inputs: seq<Value>, v: Value)
    requires v == VNone || v == VFloat("nan")
    ensures InputDocs(inputs + [v]) == InputDocs(inputs)
  {
    InputAppend(inputs, v);
    var word := Str(v);
    assert word == "None" || word == "nan";
    PlaceholderWordDropped(word);
    assert InputDocs(inputs) + [] == InputDocs(inputs);
  }

  /** A string input that is not a placeholder is kept verbatim. */
  lemma StringInputKept(inputs: seq<Value>, text: string)
    requires IsKept(text)
    ensures InputDocs(inputs + [VStr(text)]) == InputDocs(inputs) + [text]
  {
    InputAppend(inputs, VStr(text));
  }
}
