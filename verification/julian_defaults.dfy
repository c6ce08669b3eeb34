/**
 * The extension's built-in configuration: the request schemas of the two bundled providers, the
 * provider list with Ollama selected, and the one bundled prompt recipe, "Summarize Page".
 */
module JulianDefaults {
  import opened Wrappers
  import opened Text
  import opened Json

  /** How to call a provider: HTTP method, header templates and a body template. */
  datatype Schema = Schema(httpMethod: Option<string>, headers: Option<seq<Member>>, body: Option<Json>)

  /** A configured language-model endpoint; an empty `apiKey` means no key is set. */
  datatype Provider = Provider(
    id: string,
    name: string,
    model: string,
    apiKey: string,
    apiUrl: string,
    lastUsed: Option<int>,
    schema: Schema)

  /** A named prompt template; `{text}` marks where the user's text goes. */
  datatype Recipe = Recipe(id: string, name: string, prompt: string)

  datatype GeneralSettings = GeneralSettings(showSidebarToggle: bool, autoShowSidebar: bool)

  const HuggingFaceSchema: Schema := Schema(
    Some("POST"),
    Some([Member("Content-Type", JStr("application/json")),
          Member("Authorization", JStr("Bearer {apiKey}"))]),
    Some(JObj([Member("inputs", JStr("{prompt}")),
               Member("options", JObj([Member("use_cache", JBool(true)),
                                       Member("wait_for_model", JBool(true))]))])))

  const OllamaSchema: Schema := Schema(
    Some("POST"),
    Some([Member("Content-Type", JStr("application/json"))]),
    Some(JObj([Member("model", JStr("{model}")),
               Member("messages", JArr([JObj([Member("role", JStr("user")),
                                              Member("content", JStr("{prompt}"))])])),
               Member("stream", JBool(false))])))

  const HuggingFaceProvider: Provider := Provider(
    "huggingface", "Hugging Face", "facebook/bart-large-cnn", "",
    "https://api-inference.huggingface.co/models/facebook/bart-large-cnn", None, HuggingFaceSchema)

  const OllamaProvider: Provider := Provider(
    "ollama", "Ollama", "mistral", "", "http://192.168.1.84:11434/api/chat", None, OllamaSchema)

  const DefaultProviders: seq<Provider> := [HuggingFaceProvider, OllamaProvider]

  const DefaultCurrentProviderId: string := "ollama"

  const DefaultRecipeId: string := "summarize"

  const DefaultGeneralSettings: GeneralSettings := GeneralSettings(true, true)

  /** The placeholder a recipe's prompt holds for the user's text. */
  const TextSlot: string := "{text}"

  /** The Summarize Page prompt: instructions, then the page text between two `####` lines. */
  const SummarizePrompt: string := SummarizeHead + (TextSlot + "\n####\n")

  const DefaultRecipes: seq<Recipe> := [Recipe("summarize", "Summarize Page", SummarizePrompt)]

  /** The bundled providers have distinct ids, and the default id names the second of them. */
  lemma DefaultProvidersSelectOllama()
    ensures forall i, j :: 0 <= i < j < |DefaultProviders| ==> DefaultProviders[i].id != DefaultProviders[j].id
    ensures DefaultProviders[1].id == DefaultCurrentProviderId
    ensures forall i :: 0 <= i < |DefaultProviders| ==> DefaultProviders[i].apiKey == ""
  {
  }

  /** The default recipe id names the bundled recipe, which is the one "Summarize Page" finds. */
  lemma DefaultRecipeIsSummarize()
    ensures |DefaultRecipes| == 1 && DefaultRecipes[0].id == DefaultRecipeId
    ensures DefaultRecipes[0].name == "Summarize Page"
  {
  }

  // ---- `{text}` occurs exactly once in the Summarize Page prompt

  /** `s` holds no `{text}` anywhere. */
  ghost predicate Clean(s: string)
  {
    forall j :: !OccursAt(s, TextSlot, j)
  }

  predicate NoBraceFrom(s: string, i: nat)
    decreases |s| - i
  {
    i >= |s| || (s[i] != '{' && NoBraceFrom(s, i + 1))
  }

  lemma {:induction false} NoBraceAt(s: string, i: nat, k: nat)
    requires NoBraceFrom(s, i) && i <= k < |s|
    ensures s[k] != '{'
    decreases k - i
  {
    if i < k {
      NoBraceAt(s, i + 1, k);
    }
  }

  /** A word with no `{` after its first character, and not starting with `{te`, holds no `{text}`. */
  lemma WordClean(p: string)
    requires |p| > 0 && NoBraceFrom(p, 1) && (p[0] != '{' || |p| < 6 || p[1] != 't' || p[2] != 'e')
    ensures Clean(p)
  {
    forall j | 0 <= j && j + 6 <= |p| ensures !OccursAt(p, TextSlot, j) {
      if j > 0 {
        assert p[j..j + 6][0] == p[j];
        NoBraceAt(p, 1, j);
      } else {
        assert p[..6][1] == p[1] && p[..6][2] == p[2];
      }
    }
  }

  /** Gluing two clean strings at a space or line break cannot create a `{text}`. */
  lemma CleanConcat(a: string, b: string)
    requires Clean(a) && Clean(b) && |a| > 0 && (a[|a| - 1] == ' ' || a[|a| - 1] == '\n')
    ensures Clean(a + b)
  {
    forall j | 0 <= j && j + 6 <= |a + b| ensures !OccursAt(a + b, TextSlot, j) {
      if j + 6 <= |a| {
        assert (a + b)[j..j + 6] == a[j..j + 6];
        assert !OccursAt(a, TextSlot, j);
      } else if j >= |a| {
        assert (a + b)[j..j + 6] == b[j - |a|..j - |a| + 6];
        assert !OccursAt(b, TextSlot, j - |a|);
      } else {
        var m := |a| - 1 - j;
        assert (a + b)[j..j + 6][m] == a[|a| - 1];
        assert m == 0 || m == 1 || m == 2 || m == 3 || m == 4 || m == 5;
        assert TextSlot[0] == '{' && TextSlot[1] == 't' && TextSlot[2] == 'e';
        assert TextSlot[3] == 'x' && TextSlot[4] == 't' && TextSlot[5] == '}';
      }
    }
  }

  /** A word ending in a blank or a line break, put before a clean text, keeps it clean. */
  lemma Prepend(w: string, rest: string)
    requires |w| > 0 && NoBraceFrom(w, 1) && (w[0] != '{' || |w| < 6 || w[1] != 't' || w[2] != 'e')
    requires (w[|w| - 1] == ' ' || w[|w| - 1] == '\n') && Clean(rest)
    ensures Clean(w + rest)
  {
    WordClean(w);
    CleanConcat(w, rest);
  }

  const PromptLine0: string := "\n"

  const PromptLine1: string := "\n"

  const PromptLine2: string := "# " + ("Instructions:\n")

  const PromptLine3: string := "## " + ("Summarize:\n")

  const PromptLine4: string := "Summarize " + ("the " + ("following " + ("article " + ("in " + ("the " + ("following " + ("dimension\n")))))))

  const PromptLine5: string := "- " + ("\"Sentiment\": " + ("{sentiment}\n"))

  const PromptLine6: string := "- " + ("\"Time " + ("to " + ("read\": " + ("{time_to_read}\n"))))

  const PromptLine7: string := "- " + ("\"Click " + ("bait-ness\": " + ("{click_bait}\n")))

  const PromptLine8: string := "- " + ("\"Fake " + ("news-ness\": " + ("{fake_news}. \n")))

  const PromptLine9: string := "- " + ("{summary}\n")

  const PromptLine10: string := "where,\n"

  const PromptLine11: string := "- " + ("{sentiment} " + ("is " + ("one " + ("word " + ("representing " + ("the " + ("sentiment " + ("of " + ("the " + ("article.\n"))))))))))

  const PromptLine12: string := "- " + ("{time_to_read} " + ("is " + ("the " + ("time " + ("it " + ("takes " + ("to " + ("read " + ("the " + ("article " + ("in " + ("minutes.\n"))))))))))))

  const PromptLine13: string := "- " + ("{click_bait} " + ("and " + ("{fake_news} " + ("are " + ("score " + ("from " + ("1 " + ("to " + ("5, " + ("respond " + ("only " + ("in " + ("number. " + ("Do " + ("not " + ("include " + ("other " + ("words. \n"))))))))))))))))))

  const PromptLine14: string := "- " + ("{summary} " + ("is " + ("the " + ("summary " + ("of " + ("the " + ("article.\n")))))))

  const PromptLine15: string := "\n"

  const PromptLine16: string := "####\n"

  lemma PromptLine0Clean()
    ensures Clean(PromptLine0)
  {
    var acc: string := "\n";
    WordClean(acc);
  }

  lemma PromptLine1Clean()
    ensures Clean(PromptLine1)
  {
    var acc: string := "\n";
    WordClean(acc);
  }

  lemma PromptLine2Clean()
    ensures Clean(PromptLine2)
  {
    var acc: string := "Instructions:\n";
    WordClean(acc);
    Prepend("# ", acc); acc := "# " + acc;
  }

  lemma PromptLine3Clean()
    ensures Clean(PromptLine3)
  {
    var acc: string := "Summarize:\n";
    WordClean(acc);
    Prepend("## ", acc); acc := "## " + acc;
  }

  lemma PromptLine4Clean()
    ensures Clean(PromptLine4)
  {
    var acc: string := "dimension\n";
    WordClean(acc);
    Prepend("following ", acc); acc := "following " + acc;
    Prepend("the ", acc); acc := "the " + acc;
    Prepend("in ", acc); acc := "in " + acc;
    Prepend("article ", acc); acc := "article " + acc;
    Prepend("following ", acc); acc := "following " + acc;
    Prepend("the ", acc); acc := "the " + acc;
    Prepend("Summarize ", acc); acc := "Summarize " + acc;
  }

  lemma PromptLine5Clean()
    ensures Clean(PromptLine5)
  {
    var acc: string := "{sentiment}\n";
    WordClean(acc);
    Prepend("\"Sentiment\": ", acc); acc := "\"Sentiment\": " + acc;
    Prepend("- ", acc); acc := "- " + acc;
  }

  lemma PromptLine6Clean()
    ensures Clean(PromptLine6)
  {
    var acc: string := "{time_to_read}\n";
    WordClean(acc);
    Prepend("read\": ", acc); acc := "read\": " + acc;
    Prepend("to ", acc); acc := "to " + acc;
    Prepend("\"Time ", acc); acc := "\"Time " + acc;
    Prepend("- ", acc); acc := "- " + acc;
  }

  lemma PromptLine7Clean()
    ensures Clean(PromptLine7)
  {
    var acc: string := "{click_bait}\n";
    WordClean(acc);
    Prepend("bait-ness\": ", acc); acc := "bait-ness\": " + acc;
    Prepend("\"Click ", acc); acc := "\"Click " + acc;
    Prepend("- ", acc); acc := "- " + acc;
  }

  lemma PromptLine8Clean()
    ensures Clean(PromptLine8)
  {
    var acc: string := "{fake_news}. \n";
    WordClean(acc);
    Prepend("news-ness\": ", acc); acc := "news-ness\": " + acc;
    Prepend("\"Fake ", acc); acc := "\"Fake " + acc;
    Prepend("- ", acc); acc := "- " + acc;
  }

  lemma PromptLine9Clean()
    ensures Clean(PromptLine9)
  {
    var acc: string := "{summary}\n";
    WordClean(acc);
    Prepend("- ", acc); acc := "- " + acc;
  }

  lemma PromptLine10Clean()
    ensures Clean(PromptLine10)
  {
    var acc: string := "where,\n";
    WordClean(acc);
  }

  /** The last 5 words of line 11. */
  lemma PromptLine11TailClean()
    ensures Clean("the " + ("sentiment " + ("of " + ("the " + ("article.\n")))))
  {
    var acc: string := "article.\n";
    WordClean(acc);
    Prepend("the ", acc); acc := "the " + acc;
    Prepend("of ", acc); acc := "of " + acc;
    Prepend("sentiment ", acc); acc := "sentiment " + acc;
    Prepend("the ", acc); acc := "the " + acc;
  }

  lemma PromptLine11Clean()
    ensures Clean(PromptLine11)
  {
    var acc: string := "the " + ("sentiment " + ("of " + ("the " + ("article.\n"))));
    PromptLine11TailClean();
    Prepend("representing ", acc); acc := "representing " + acc;
    Prepend("word ", acc); acc := "word " + acc;
    Prepend("one ", acc); acc := "one " + acc;
    Prepend("is ", acc); acc := "is " + acc;
    Prepend("{sentiment} ", acc); acc := "{sentiment} " + acc;
    Prepend("- ", acc); acc := "- " + acc;
  }

  /** The last 6 words of line 12. */
  lemma PromptLine12TailClean()
    ensures Clean("to " + ("read " + ("the " + ("article " + ("in " + ("minutes.\n"))))))
  {
    var acc: string := "minutes.\n";
    WordClean(acc);
    Prepend("in ", acc); acc := "in " + acc;
    Prepend("article ", acc); acc := "article " + acc;
    Prepend("the ", acc); acc := "the " + acc;
    Prepend("read ", acc); acc := "read " + acc;
    Prepend("to ", acc); acc := "to " + acc;
  }

  lemma PromptLine12Clean()
    ensures Clean(PromptLine12)
  {
    var acc: string := "to " + ("read " + ("the " + ("article " + ("in " + ("minutes.\n")))));
    PromptLine12TailClean();
    Prepend("takes ", acc); acc := "takes " + acc;
    Prepend("it ", acc); acc := "it " + acc;
    Prepend("time ", acc); acc := "time " + acc;
    Prepend("the ", acc); acc := "the " + acc;
    Prepend("is ", acc); acc := "is " + acc;
    Prepend("{time_to_read} ", acc); acc := "{time_to_read} " + acc;
    Prepend("- ", acc); acc := "- " + acc;
  }

  /** The last 9 words of line 13. */
  lemma PromptLine13TailClean()
    ensures Clean("respond " + ("only " + ("in " + ("number. " + ("Do " + ("not " + ("include " + ("other " + ("words. \n")))))))))
  {
    var acc: string := "words. \n";
    WordClean(acc);
    Prepend("other ", acc); acc := "other " + acc;
    Prepend("include ", acc); acc := "include " + acc;
    Prepend("not ", acc); acc := "not " + acc;
    Prepend("Do ", acc); acc := "Do " + acc;
    Prepend("number. ", acc); acc := "number. " + acc;
    Prepend("in ", acc); acc := "in " + acc;
    Prepend("only ", acc); acc := "only " + acc;
    Prepend("respond ", acc); acc := "respond " + acc;
  }

  lemma PromptLine13Clean()
    ensures Clean(PromptLine13)
  {
    var acc: string := "respond " + ("only " + ("in " + ("number. " + ("Do " + ("not " + ("include " + ("other " + ("words. \n"))))))));
    PromptLine13TailClean();
    Prepend("5, ", acc); acc := "5, " + acc;
    Prepend("to ", acc); acc := "to " + acc;
    Prepend("1 ", acc); acc := "1 " + acc;
    Prepend("from ", acc); acc := "from " + acc;
    Prepend("score ", acc); acc := "score " + acc;
    Prepend("are ", acc); acc := "are " + acc;
    Prepend("{fake_news} ", acc); acc := "{fake_news} " + acc;
    Prepend("and ", acc); acc := "and " + acc;
    Prepend("{click_bait} ", acc); acc := "{click_bait} " + acc;
    Prepend("- ", acc); acc := "- " + acc;
  }

  lemma PromptLine14Clean()
    ensures Clean(PromptLine14)
  {
    var acc: string := "article.\n";
    WordClean(acc);
    Prepend("the ", acc); acc := "the " + acc;
    Prepend("of ", acc); acc := "of " + acc;
    Prepend("summary ", acc); acc := "summary " + acc;
    Prepend("the ", acc); acc := "the " + acc;
    Prepend("is ", acc); acc := "is " + acc;
    Prepend("{summary} ", acc); acc := "{summary} " + acc;
    Prepend("- ", acc); acc := "- " + acc;
  }

  lemma PromptLine15Clean()
    ensures Clean(PromptLine15)
  {
    var acc: string := "\n";
    WordClean(acc);
  }

  lemma PromptLine16Clean()
    ensures Clean(PromptLine16)
  {
    var acc: string := "####\n";
    WordClean(acc);
  }

  /** The part of the Summarize Page prompt before its `{text}` placeholder. */
  const SummarizeHead: string := PromptLine0 + (PromptLine1 + (PromptLine2 + (PromptLine3 + (PromptLine4 + (PromptLine5 + (PromptLine6 + (PromptLine7 + (PromptLine8 + (PromptLine9 + (PromptLine10 + (PromptLine11 + (PromptLine12 + (PromptLine13 + (PromptLine14 + (PromptLine15 + (PromptLine16))))))))))))))))

  lemma SummarizeHeadClean()
    ensures Clean(SummarizeHead) && |SummarizeHead| == 533
    ensures SummarizeHead[|SummarizeHead| - 1] == '\n'
  {
    PromptLine16Clean();
    var acc: string := PromptLine16;
    PromptLine15Clean(); CleanConcat(PromptLine15, acc); acc := PromptLine15 + acc;
    PromptLine14Clean(); CleanConcat(PromptLine14, acc); acc := PromptLine14 + acc;
    PromptLine13Clean(); CleanConcat(PromptLine13, acc); acc := PromptLine13 + acc;
    PromptLine12Clean(); CleanConcat(PromptLine12, acc); acc := PromptLine12 + acc;
    PromptLine11Clean(); CleanConcat(PromptLine11, acc); acc := PromptLine11 + acc;
    PromptLine10Clean(); CleanConcat(PromptLine10, acc); acc := PromptLine10 + acc;
    PromptLine9Clean(); CleanConcat(PromptLine9, acc); acc := PromptLine9 + acc;
    PromptLine8Clean(); CleanConcat(PromptLine8, acc); acc := PromptLine8 + acc;
    PromptLine7Clean(); CleanConcat(PromptLine7, acc); acc := PromptLine7 + acc;
    PromptLine6Clean(); CleanConcat(PromptLine6, acc); acc := PromptLine6 + acc;
    PromptLine5Clean(); CleanConcat(PromptLine5, acc); acc := PromptLine5 + acc;
    PromptLine4Clean(); CleanConcat(PromptLine4, acc); acc := PromptLine4 + acc;
    PromptLine3Clean(); CleanConcat(PromptLine3, acc); acc := PromptLine3 + acc;
    PromptLine2Clean(); CleanConcat(PromptLine2, acc); acc := PromptLine2 + acc;
    PromptLine1Clean(); CleanConcat(PromptLine1, acc); acc := PromptLine1 + acc;
    PromptLine0Clean(); CleanConcat(PromptLine0, acc); acc := PromptLine0 + acc;
  }

  /** A slice inside the front part of a concatenation is a slice of that part. */
  lemma SliceOfFront(a: string, b: string, i: nat, k: nat)
    requires i <= k <= |a|
    ensures (a + b)[i..k] == a[i..k]
  {
    assert forall m :: 0 <= m < k - i ==> (a + b)[i..k][m] == a[i..k][m];
  }

  /** A clean text ending in a line break, then `{text}`, then text without `{`, holds `{text}` once. */
  lemma SingleSlot(h: string, tail: string)
    requires Clean(h) && |h| > 0 && h[|h| - 1] == '\n' && '{' !in tail
    ensures forall j :: OccursAt(h + (TextSlot + tail), TextSlot, j) <==> j == |h|
  {
    var p := h + (TextSlot + tail);
    forall j ensures OccursAt(p, TextSlot, j) <==> j == |h| {
      if 0 <= j && j + 6 <= |p| {
        if j + 6 <= |h| {
          SliceOfFront(h, TextSlot + tail, j, j + 6);
          assert !OccursAt(h, TextSlot, j);
        } else if j < |h| {
          var m := |h| - 1 - j;
          assert p[j..j + 6][m] == h[|h| - 1];
          assert m == 0 || m == 1 || m == 2 || m == 3 || m == 4 || m == 5;
          assert TextSlot[0] == '{' && TextSlot[1] == 't' && TextSlot[2] == 'e';
          assert TextSlot[3] == 'x' && TextSlot[4] == 't' && TextSlot[5] == '}';
        } else if j == |h| {
          assert p[j..j + 6] == TextSlot;
        } else {
          assert p[j..j + 6][0] == p[j];
          if j < |h| + 6 {
            assert p[j] == TextSlot[j - |h|];
            assert TextSlot[1] == 't' && TextSlot[2] == 'e' && TextSlot[3] == 'x' && TextSlot[4] == 't' && TextSlot[5] == '}';
          } else {
            assert p[j] == tail[j - |h| - 6];
          }
        }
      }
    }
  }

  /** In such a text, replacing the first `{text}` splices the replacement in its place. */
  lemma SpliceAfterClean(h: string, tail: string, text: string)
    requires Clean(h) && |h| > 0 && h[|h| - 1] == '\n' && '{' !in tail && '$' !in text
    ensures ReplaceFirst(h + (TextSlot + tail), TextSlot, text) == h + text + tail
  {
    var p := h + (TextSlot + tail);
    SingleSlot(h, tail);
    assert OccursAt(p, TextSlot, |h|) by { assert p[|h|..|h| + 6] == TextSlot; }
    ContainsAt(p, TextSlot, |h|);
    assert IndexOf(p, TextSlot) == Some(|h|);
    ReplaceFirstLiteral(p, TextSlot, text);
    assert p[..|h|] == h;
    assert p[|h| + 6..] == tail;
  }

  /** `{text}` occurs in the Summarize Page prompt exactly once, right after the instructions. */
  lemma SummarizePromptHasOneTextSlot()
    ensures forall j :: OccursAt(SummarizePrompt, TextSlot, j) <==> j == |SummarizeHead|
    ensures IndexOf(SummarizePrompt, TextSlot) == Some(|SummarizeHead|)
  {
    SummarizeHeadClean();
    var tail := "\n####\n";
    assert '{' !in tail;
    SingleSlot(SummarizeHead, tail);
    assert OccursAt(SummarizePrompt, TextSlot, |SummarizeHead|);
  }
}
