/**
 * The extension's service layer: choosing the current provider, filling the header and body
 * templates, building prompts from recipes, and reading replies either whole or chunk by chunk.
 * Storage reads are the `SyncStore` argument, the network is the `server` function, and
 * `JSON.parse` is the `parse` function.
 */
module JulianService {
  import opened Wrappers
  import opened Text
  import opened Json
  import opened JulianDefaults

  /** The keys of the synchronised extension storage the service reads; each may be missing. */
  datatype SyncStore = SyncStore(
    providers: Option<seq<Provider>>,
    currentProviderId: Option<string>,
    promptRecipes: Option<seq<Recipe>>)

  // ---------------------------------------------------------------- current provider

  /** `data.providers || DEFAULT_SETTINGS.providers`: a stored list, even an empty one, is kept. */
  function StoredProviders(store: SyncStore): seq<Provider>
  {
    store.providers.GetOr(DefaultProviders)
  }

  /** `data.currentProviderId || DEFAULT_SETTINGS.currentProviderId`: a missing or empty id falls back. */
  function SelectedId(store: SyncStore): string
  {
    match store.currentProviderId
    case Some(id) => if id != "" then id else DefaultCurrentProviderId
    case None => DefaultCurrentProviderId
  }

  /** The index of the first provider with the given id. */
  function FindProvider(ps: seq<Provider>, id: string): (r: Option<nat>)
    ensures r.Some? ==> r.value < |ps| && ps[r.value].id == id
    ensures r.Some? ==> forall j :: 0 <= j < r.value ==> ps[j].id != id
    ensures r.None? ==> forall j :: 0 <= j < |ps| ==> ps[j].id != id
  {
    if |ps| == 0 then None
    else if ps[0].id == id then Some(0)
    else match FindProvider(ps[1..], id)
         case None => None
         case Some(k) => Some(k + 1)
  }

  /**
   * `getCurrentProvider()`: the first provider whose id is the selected one, else the first
   * provider; `None` (JavaScript's `undefined`) when the stored list is empty.
   */
  function CurrentProvider(store: SyncStore): (r: Option<Provider>)
    ensures r.None? <==> |StoredProviders(store)| == 0
    ensures r.Some? ==> r.value in StoredProviders(store)
    ensures (exists i :: 0 <= i < |StoredProviders(store)| && StoredProviders(store)[i].id == SelectedId(store)) ==>
              r.Some? && r.value.id == SelectedId(store)
    ensures ((forall i :: 0 <= i < |StoredProviders(store)| ==> StoredProviders(store)[i].id != SelectedId(store))
             && |StoredProviders(store)| > 0) ==> r == Some(StoredProviders(store)[0])
  {
    var ps := StoredProviders(store);
    match FindProvider(ps, SelectedId(store))
    case Some(k) => Some(ps[k])
    case None => if |ps| > 0 then Some(ps[0]) else None
  }

  /** With nothing stored, the bundled Ollama provider is current. */
  lemma EmptyStoreSelectsOllama(recipes: Option<seq<Recipe>>)
    ensures CurrentProvider(SyncStore(None, None, recipes)) == Some(OllamaProvider)
    ensures CurrentProvider(SyncStore(None, Some(""), recipes)) == Some(OllamaProvider)
  {
    assert FindProvider(DefaultProviders, "ollama") == Some(1) by {
      assert DefaultProviders[0].id != "ollama";
      assert FindProvider(DefaultProviders[1..], "ollama") == Some(0);
    }
  }

  /** A stored but empty provider list is truthy, so it is not replaced and no provider is found. */
  lemma EmptyStoredListHasNoProvider(id: Option<string>, recipes: Option<seq<Recipe>>)
    ensures CurrentProvider(SyncStore(Some([]), id, recipes)) == None
  {
  }

  // ---------------------------------------------------------------- headers

  /** One header value: `{apiKey}` is replaced (first occurrence) only when a key is set. */
  function HeaderValue(v: string, apiKey: string): (r: string)
    ensures apiKey == "" || !Contains(v, "{apiKey}") ==> r == v
    ensures apiKey != "" && Contains(v, "{apiKey}") && '$' !in apiKey ==>
              var i := IndexOf(v, "{apiKey}").value; r == v[..i] + apiKey + v[i + 8..]
  {
    if Contains(v, "{apiKey}") && apiKey != "" then
      ReplaceFirstLiteralWhenPlain(v, "{apiKey}", apiKey);
      ReplaceFirst(v, "{apiKey}", apiKey)
    else v
  }

  lemma ReplaceFirstLiteralWhenPlain(s: string, pat: string, rep: string)
    requires Contains(s, pat)
    ensures '$' !in rep ==> var i := IndexOf(s, pat).value; ReplaceFirst(s, pat, rep) == s[..i] + rep + s[i + |pat|..]
  {
    if '$' !in rep { ReplaceFirstLiteral(s, pat, rep); }
  }

  /** The header entries sent: null entries dropped, strings templated, other values as they are. */
  function HeaderMembers(hs: seq<Member>, apiKey: string): (r: seq<Member>)
    ensures |r| <= |hs|
    ensures forall i :: 0 <= i < |r| ==> r[i].value != JNull
    ensures forall i :: 0 <= i < |r| ==> exists j :: 0 <= j < |hs| && hs[j].key == r[i].key
  {
    if |hs| == 0 then []
    else
      var rest := HeaderMembers(hs[1..], apiKey);
      var v := hs[0].value;
      if v == JNull then rest
      else [Member(hs[0].key, if v.JStr? then JStr(HeaderValue(v.s, apiKey)) else v)] + rest
  }

  /** What a header template entry becomes: gone if null, templated if a string, else kept. */
  function HeaderEntry(v: Option<Json>, apiKey: string): Option<Json>
  {
    match v
    case None => None
    case Some(JNull) => None
    case Some(JStr(s)) => Some(JStr(HeaderValue(s, apiKey)))
    case Some(other) => Some(other)
  }

  /**
   * Reading any header name from the prepared headers gives what that name's template entry
   * becomes, so every non-null entry is sent, templated, and nothing else is.
   */
  lemma {:induction false} HeaderLookup(hs: seq<Member>, apiKey: string, key: string)
    requires DistinctKeys(hs)
    ensures Lookup(HeaderMembers(hs, apiKey), key) == HeaderEntry(Lookup(hs, key), apiKey)
  {
    if |hs| > 0 {
      assert DistinctKeys(hs[1..]) by {
        forall a, b | 0 <= a < b < |hs[1..]| ensures hs[1..][a].key != hs[1..][b].key {
          assert hs[1..][a] == hs[a + 1] && hs[1..][b] == hs[b + 1];
        }
      }
      HeaderLookup(hs[1..], apiKey, key);
      if hs[0].key == key && hs[0].value == JNull {
        assert forall j :: 0 <= j < |hs[1..]| ==> hs[1..][j].key != key by {
          forall j | 0 <= j < |hs[1..]| ensures hs[1..][j].key != key {
            assert hs[1..][j] == hs[j + 1];
          }
        }
      }
    }
  }

  /** `prepareHeaders(provider)`: no headers at all when the schema has none. */
  function PrepareHeaders(p: Provider): (r: seq<Member>)
    ensures p.schema.headers.None? ==> r == []
    ensures p.schema.headers.Some? ==> |r| <= |p.schema.headers.value|
  {
    match p.schema.headers
    case None => []
    case Some(hs) => HeaderMembers(hs, p.apiKey)
  }

  // ---------------------------------------------------------------- body

  /**
   * One string value of the body template: the first `{prompt}` is replaced, then the first
   * `{model}` of the result, and a value that then still contains `{stream}` becomes the flag.
   */
  function TemplateLeaf(s: string, prompt: string, model: string, stream: bool): Json
  {
    var s1 := if Contains(s, "{prompt}") then ReplaceFirst(s, "{prompt}", prompt) else s;
    var s2 := if Contains(s1, "{model}") then ReplaceFirst(s1, "{model}", model) else s1;
    if Contains(s2, "{stream}") then JBool(stream) else JStr(s2)
  }

  /** A value of the body template under a key (`isStream` when that key is `stream`). */
  function TemplateValue(isStream: bool, v: Json, prompt: string, model: string, stream: bool): Json
    decreases v, 1
  {
    match v
    case JStr(s) => TemplateLeaf(s, prompt, model, stream)
    case JObj(_) => if isStream then JBool(stream) else TemplateContainer(v, prompt, model, stream)
    case JArr(_) => if isStream then JBool(stream) else TemplateContainer(v, prompt, model, stream)
    case _ => if isStream then JBool(stream) else v
  }

  /** `replaceInObject(obj)`: every member (or element) templated; scalars are left alone. */
  function TemplateContainer(v: Json, prompt: string, model: string, stream: bool): (r: Json)
    decreases v, 0
    ensures v.JObj? ==> r.JObj? && |r.members| == |v.members|
                        && forall i :: 0 <= i < |v.members| ==> r.members[i].key == v.members[i].key
    ensures v.JArr? ==> r.JArr? && |r.items| == |v.items|
    ensures !v.JObj? && !v.JArr? ==> r == v
  {
    match v
    case JObj(ms) =>
      JObj(seq(|ms|, i requires 0 <= i < |ms| =>
        Member(ms[i].key, TemplateValue(ms[i].key == "stream", ms[i].value, prompt, model, stream))))
    case JArr(items) =>
      JArr(seq(|items|, i requires 0 <= i < |items| => TemplateValue(false, items[i], prompt, model, stream)))
    case _ => v
  }

  /** `prepareBody(provider, prompt, stream)`: `{}` when the schema has no (truthy) body. */
  function PrepareBody(p: Provider, prompt: string, stream: bool): (r: Json)
    ensures p.schema.body.None? ==> r == JObj([])
    ensures p.schema.body.Some? && !Truthy(p.schema.body.value) ==> r == JObj([])
  {
    match p.schema.body
    case None => JObj([])
    case Some(b) => if Truthy(b) then TemplateContainer(b, prompt, p.model, stream) else JObj([])
  }

  /** The string holds none of the three placeholders. */
  predicate NoPlaceholder(s: string)
  {
    !Contains(s, "{prompt}") && !Contains(s, "{model}") && !Contains(s, "{stream}")
  }

  /**
   * A body template with nothing to fill in, at any depth: no string holds a placeholder, and
   * every member named `stream` holds a string.
   */
  predicate Untemplated(v: Json)
    decreases v
  {
    match v
    case JStr(s) => NoPlaceholder(s)
    case JObj(ms) => forall i :: 0 <= i < |ms| ==> (ms[i].key == "stream" ==> ms[i].value.JStr?) && Untemplated(ms[i].value)
    case JArr(items) => forall i :: 0 <= i < |items| ==> Untemplated(items[i])
    case _ => true
  }

  /** A template with nothing to fill in is sent as it is, however deep. */
  lemma {:induction false} ContainerUntemplated(v: Json, prompt: string, model: string, stream: bool)
    requires Untemplated(v)
    ensures TemplateContainer(v, prompt, model, stream) == v
    decreases v, 0
  {
    match v
    case JObj(ms) =>
      var r := TemplateContainer(v, prompt, model, stream);
      forall i | 0 <= i < |ms| ensures r.members[i] == ms[i] {
        ValueUntemplated(ms[i].key == "stream", ms[i].value, prompt, model, stream);
      }
      assert r.members == ms;
    case JArr(items) =>
      var r := TemplateContainer(v, prompt, model, stream);
      forall i | 0 <= i < |items| ensures r.items[i] == items[i] {
        ValueUntemplated(false, items[i], prompt, model, stream);
      }
      assert r.items == items;
    case _ =>
  }

  lemma {:induction false} ValueUntemplated(isStream: bool, v: Json, prompt: string, model: string, stream: bool)
    requires Untemplated(v) && (isStream ==> v.JStr?)
    ensures TemplateValue(isStream, v, prompt, model, stream) == v
    decreases v, 1
  {
    match v
    case JStr(s) => LeafWithoutPlaceholders(s, prompt, model, stream);
    case JObj(_) => ContainerUntemplated(v, prompt, model, stream);
    case JArr(_) => ContainerUntemplated(v, prompt, model, stream);
    case _ =>
  }

  /** A truthy body schema with nothing to fill in is the request body. */
  lemma BodyWithoutPlaceholders(p: Provider, prompt: string, stream: bool)
    requires p.schema.body.Some? && Truthy(p.schema.body.value) && Untemplated(p.schema.body.value)
    ensures PrepareBody(p, prompt, stream) == p.schema.body.value
  {
    ContainerUntemplated(p.schema.body.value, prompt, p.model, stream);
  }

  /** A string without placeholders is sent unchanged. */
  lemma LeafWithoutPlaceholders(s: string, prompt: string, model: string, stream: bool)
    requires NoPlaceholder(s)
    ensures TemplateLeaf(s, prompt, model, stream) == JStr(s)
  {
  }

  /** Any string that contains `{stream}` is sent as the stream flag, whatever else it holds. */
  lemma LeafWithStream(s: string, prompt: string, model: string, stream: bool)
    requires Contains(s, "{stream}")
    ensures TemplateLeaf(s, prompt, model, stream) == JBool(stream)
  {
    PlaceholderTokens();
    TwoReplacementsKeepToken(s, "{prompt}", prompt, "{model}", model, "{stream}");
  }

  lemma PlaceholderTokens()
    ensures BraceToken("{prompt}") && BraceToken("{model}") && BraceToken("{stream}")
    ensures "{prompt}"[1] != "{stream}"[1] && "{model}"[1] != "{stream}"[1]
  {
  }

  /** Replacing the first `p` and then the first `m` (each where present) keeps a token `t` both differ from. */
  lemma TwoReplacementsKeepToken(s: string, p: string, pr: string, m: string, mr: string, t: string)
    requires BraceToken(p) && BraceToken(m) && BraceToken(t) && p[1] != t[1] && m[1] != t[1]
    requires Contains(s, t)
    ensures var s1 := if Contains(s, p) then ReplaceFirst(s, p, pr) else s;
            var s2 := if Contains(s1, m) then ReplaceFirst(s1, m, mr) else s1;
            Contains(s2, t)
  {
    var s1 := if Contains(s, p) then ReplaceFirst(s, p, pr) else s;
    if Contains(s, p) {
      ReplaceKeepsToken(s, p, pr, t, IndexOf(s, t).value);
    }
    if Contains(s1, m) {
      ReplaceKeepsToken(s1, m, mr, t, IndexOf(s1, t).value);
    }
  }

  /**
   * A string whose first `{prompt}` is at `i` gets the prompt spliced in there, provided the
   * prompt has no `$` pattern and the spliced text has no further placeholder.
   */
  lemma LeafWithPrompt(s: string, prompt: string, model: string, stream: bool)
    requires Contains(s, "{prompt}") && '$' !in prompt
    requires var i := IndexOf(s, "{prompt}").value;
             var t := s[..i] + prompt + s[i + 8..];
             !Contains(t, "{model}") && !Contains(t, "{stream}")
    ensures var i := IndexOf(s, "{prompt}").value;
            TemplateLeaf(s, prompt, model, stream) == JStr(s[..i] + prompt + s[i + 8..])
  {
    ReplaceFirstLiteral(s, "{prompt}", prompt);
  }

  /** Text tokens that open with `{` and hold no other `{`, as the placeholders do. */
  predicate BraceToken(t: string)
  {
    |t| >= 2 && t[0] == '{' && forall k :: 1 <= k < |t| ==> t[k] != '{'
  }

  /**
   * Replacing the first occurrence of one placeholder keeps every occurrence of a different
   * placeholder intact, because two such tokens cannot overlap.
   */
  lemma ReplaceKeepsToken(s: string, pat: string, rep: string, other: string, k: int)
    requires BraceToken(pat) && BraceToken(other) && pat[1] != other[1]
    requires Contains(s, pat) && OccursAt(s, other, k)
    ensures Contains(ReplaceFirst(s, pat, rep), other)
  {
    var i := IndexOf(s, pat).value;
    var e := Expand(rep, pat, s[..i], s[i + |pat|..]);
    var r := ReplaceFirst(s, pat, rep);
    assert r == s[..i] + e + s[i + |pat|..];
    if k < i {
      if i < k + |other| {
        CharAt(s, pat, i, 0);
        CharAt(s, other, k, i - k);
        assert false;
      }
      assert r[k..k + |other|] == s[k..k + |other|];
      ContainsAt(r, other, k);
    } else if k == i {
      CharAt(s, pat, i, 1);
      CharAt(s, other, k, 1);
      assert false;
    } else if k < i + |pat| {
      CharAt(s, pat, i, k - i);
      CharAt(s, other, k, 0);
      assert false;
    } else {
      var k' := i + |e| + (k - i - |pat|);
      assert r[k'..k' + |other|] == s[i + |pat|..][k - i - |pat|..k - i - |pat| + |other|];
      assert s[i + |pat|..][k - i - |pat|..k - i - |pat| + |other|] == s[k..k + |other|];
      ContainsAt(r, other, k');
    }
  }

  lemma CharAt(s: string, t: string, k: int, m: int)
    requires OccursAt(s, t, k) && 0 <= m < |t|
    ensures s[k + m] == t[m]
  {
    assert s[k..k + |t|][m] == s[k + m];
  }

  /** A member named `stream` whose value is not a string is always sent as the flag. */
  lemma StreamMemberIsFlag(ms: seq<Member>, i: int, prompt: string, model: string, stream: bool)
    requires 0 <= i < |ms| && ms[i].key == "stream" && !ms[i].value.JStr?
    ensures TemplateContainer(JObj(ms), prompt, model, stream).members[i] == Member("stream", JBool(stream))
  {
  }

  /** The bundled Hugging Face body carries the prompt as `inputs` and keeps its options. */
  lemma HuggingFaceBody(p: Provider, prompt: string, stream: bool)
    requires p.schema == HuggingFaceSchema
    requires '$' !in prompt && !Contains(prompt, "{model}") && !Contains(prompt, "{stream}")
    ensures PrepareBody(p, prompt, stream) ==
            JObj([Member("inputs", JStr(prompt)),
                  Member("options", JObj([Member("use_cache", JBool(true)), Member("wait_for_model", JBool(true))]))])
  {
    SlotAlone("{prompt}", prompt);
    assert TemplateLeaf("{prompt}", prompt, p.model, stream) == JStr(prompt);
    var opts := JObj([Member("use_cache", JBool(true)), Member("wait_for_model", JBool(true))]);
    assert TemplateValue(false, opts, prompt, p.model, stream) == opts;
  }

  /**
   * The bundled Ollama body names the provider's model, carries the prompt as the user message's
   * content, and sends the caller's stream flag instead of the template's `false`.
   */
  lemma OllamaBody(p: Provider, prompt: string, stream: bool)
    requires p.schema == OllamaSchema
    requires '$' !in prompt && !Contains(prompt, "{model}") && !Contains(prompt, "{stream}")
    requires '$' !in p.model && !Contains(p.model, "{stream}")
    ensures PrepareBody(p, prompt, stream) ==
            JObj([Member("model", JStr(p.model)),
                  Member("messages", JArr([JObj([Member("role", JStr("user")), Member("content", JStr(prompt))])])),
                  Member("stream", JBool(stream))])
  {
    var msg := JObj([Member("role", JStr("user")), Member("content", JStr("{prompt}"))]);
    OllamaMessage(prompt, p.model, stream);
    ModelLeaf(prompt, p.model, stream);
    Template3(Member("model", JStr("{model}")), Member("messages", JArr([msg])), Member("stream", JBool(false)),
              prompt, p.model, stream);
  }

  lemma ModelLeaf(prompt: string, model: string, stream: bool)
    requires '$' !in model && !Contains(model, "{stream}")
    ensures TemplateValue(false, JStr("{model}"), prompt, model, stream) == JStr(model)
  {
    SlotAlone("{model}", model);
    NoSlotIn("{model}", "{prompt}");
  }

  /** The Ollama message template becomes one user message carrying the prompt. */
  lemma OllamaMessage(prompt: string, model: string, stream: bool)
    requires '$' !in prompt && !Contains(prompt, "{model}") && !Contains(prompt, "{stream}")
    ensures var msg := JObj([Member("role", JStr("user")), Member("content", JStr("{prompt}"))]);
            TemplateValue(false, JArr([msg]), prompt, model, stream)
            == JArr([JObj([Member("role", JStr("user")), Member("content", JStr(prompt))])])
  {
    SlotAlone("{prompt}", prompt);
    NoSlotIn("user", "{prompt}");
    NoSlotIn("user", "{model}");
    NoSlotIn("user", "{stream}");
    assert TemplateLeaf("user", prompt, model, stream) == JStr("user");
    assert TemplateLeaf("{prompt}", prompt, model, stream) == JStr(prompt);
    var msg := JObj([Member("role", JStr("user")), Member("content", JStr("{prompt}"))]);
    var msg' := JObj([Member("role", JStr("user")), Member("content", JStr(prompt))]);
    Template2(Member("role", JStr("user")), Member("content", JStr("{prompt}")), prompt, model, stream);
    assert TemplateValue(false, msg, prompt, model, stream) == msg';
    assert TemplateContainer(JArr([msg]), prompt, model, stream).items == [msg'];
  }

  /** The template of a two-member object, member by member. */
  lemma Template2(a: Member, b: Member, prompt: string, model: string, stream: bool)
    ensures TemplateContainer(JObj([a, b]), prompt, model, stream) ==
            JObj([Member(a.key, TemplateValue(a.key == "stream", a.value, prompt, model, stream)),
                  Member(b.key, TemplateValue(b.key == "stream", b.value, prompt, model, stream))])
  {
  }

  /** The template of a three-member object, member by member. */
  lemma Template3(a: Member, b: Member, c: Member, prompt: string, model: string, stream: bool)
    ensures TemplateContainer(JObj([a, b, c]), prompt, model, stream) ==
            JObj([Member(a.key, TemplateValue(a.key == "stream", a.value, prompt, model, stream)),
                  Member(b.key, TemplateValue(b.key == "stream", b.value, prompt, model, stream)),
                  Member(c.key, TemplateValue(c.key == "stream", c.value, prompt, model, stream))])
  {
  }

  /** A template that is exactly one placeholder becomes the plain replacement. */
  lemma SlotAlone(slot: string, rep: string)
    requires |slot| > 0 && '$' !in rep
    ensures Contains(slot, slot) && ReplaceFirst(slot, slot, rep) == rep
  {
    assert OccursAt(slot, slot, 0) by { assert slot[0..|slot|] == slot; }
    ContainsAt(slot, slot, 0);
    ReplaceFirstLiteral(slot, slot, rep);
  }

  /** A text whose only `{` can open nothing but a different token holds no occurrence of `slot`. */
  lemma NoSlotIn(s: string, slot: string)
    requires |slot| > 0 && slot[0] == '{'
    requires forall k :: 0 < k < |s| ==> s[k] != '{'
    requires |s| < |slot| || s[..|slot|] != slot
    ensures !Contains(s, slot)
  {
    forall j ensures !OccursAt(s, slot, j) {
      if OccursAt(s, slot, j) && j > 0 {
        CharAt(s, slot, j, 0);
      }
    }
  }

  // ---------------------------------------------------------------- prompts

  function FindRecipe(rs: seq<Recipe>, name: string): (r: Option<nat>)
    ensures r.Some? ==> r.value < |rs| && rs[r.value].name == name
    ensures r.Some? ==> forall j :: 0 <= j < r.value ==> rs[j].name != name
    ensures r.None? ==> forall j :: 0 <= j < |rs| ==> rs[j].name != name
  {
    if |rs| == 0 then None
    else if rs[0].name == name then Some(0)
    else match FindRecipe(rs[1..], name)
         case None => None
         case Some(k) => Some(k + 1)
  }

  /** The template `getPrompt` uses: the first stored recipe with that name, else the default. */
  function PromptTemplate(recipes: Option<seq<Recipe>>, name: string, defaultPrompt: string): (r: string)
    ensures recipes.None? ==> r == defaultPrompt
    ensures recipes.Some? && FindRecipe(recipes.value, name).None? ==> r == defaultPrompt
    ensures recipes.Some? && FindRecipe(recipes.value, name).Some? ==>
              r == recipes.value[FindRecipe(recipes.value, name).value].prompt
  {
    match recipes
    case None => defaultPrompt
    case Some(rs) =>
      match FindRecipe(rs, name)
      case None => defaultPrompt
      case Some(k) => rs[k].prompt
  }

  /** `getPrompt(name, defaultPrompt, text)`: the template with its first `{text}` replaced. */
  function GetPrompt(recipes: Option<seq<Recipe>>, name: string, defaultPrompt: string, text: string): string
  {
    ReplaceFirst(PromptTemplate(recipes, name, defaultPrompt), TextSlot, text)
  }

  /**
   * The prompt is the template with its first `{text}` replaced by the text (which has no `$`
   * pattern): the text stands where that `{text}` stood; a template without `{text}` is the
   * prompt as it is.
   */
  lemma GetPromptSplices(recipes: Option<seq<Recipe>>, name: string, defaultPrompt: string, text: string)
    requires '$' !in text
    ensures var t := PromptTemplate(recipes, name, defaultPrompt);
            var r := GetPrompt(recipes, name, defaultPrompt, text);
            (Contains(t, TextSlot) ==>
               var i := IndexOf(t, TextSlot).value;
               r == t[..i] + text + t[i + 6..])
            && (!Contains(t, TextSlot) ==> r == t)
  {
    var t := PromptTemplate(recipes, name, defaultPrompt);
    if Contains(t, TextSlot) {
      ReplaceFirstLiteral(t, TextSlot, text);
    }
  }

  /** Summarising with the bundled recipe puts the page text between the instructions and the closing `####`. */
  lemma SummarizeWithBundledRecipe(text: string)
    requires '$' !in text
    ensures GetPrompt(Some(DefaultRecipes), "Summarize Page", "Summarize the following text: {text}", text)
            == SummarizeHead + text + "\n####\n"
  {
    BundledTemplate();
    BundledSplice(text);
  }

  /** The bundled list holds the Summarize Page recipe first. */
  lemma BundledTemplate()
    ensures PromptTemplate(Some(DefaultRecipes), "Summarize Page", "Summarize the following text: {text}") == SummarizePrompt
  {
    assert FindRecipe(DefaultRecipes, "Summarize Page") == Some(0);
  }

  /** The page text takes the place of the bundled prompt's one `{text}`. */
  lemma BundledSplice(text: string)
    requires '$' !in text
    ensures ReplaceFirst(SummarizePrompt, TextSlot, text) == SummarizeHead + text + "\n####\n"
  {
    SummarizeHeadClean();
    SpliceAfterClean(SummarizeHead, "\n####\n", text);
  }

  /** Without stored recipes, the built-in default template is used. */
  lemma PromptFallsBackToDefault(name: string, prefix: string, text: string)
    requires '{' !in prefix && '$' !in text
    ensures GetPrompt(None, name, prefix + TextSlot, text) == prefix + text
  {
    var t := prefix + TextSlot;
    assert OccursAt(t, TextSlot, |prefix|) by { assert t[|prefix|..|prefix| + 6] == TextSlot; }
    forall j | 0 <= j < |prefix| ensures !OccursAt(t, TextSlot, j) {
      assert t[j] == prefix[j];
      assert t[j..j + 6][0] == t[j];
    }
    ContainsAt(t, TextSlot, |prefix|);
    assert IndexOf(t, TextSlot) == Some(|prefix|);
    ReplaceFirstLiteral(t, TextSlot, text);
    assert t[..|prefix|] == prefix;
    assert t[|prefix| + 6..] == "";
  }

  // ---------------------------------------------------------------- last-used stamp

  /**
   * The provider list `updateProviderLastUsed(id)` writes (to local storage): every provider with
   * that id stamped with `now`, every other provider unchanged, in the same order.
   */
  function StampLastUsed(providers: Option<seq<Provider>>, id: string, now: int): (r: seq<Provider>)
    ensures var ps := providers.GetOr([]);
            |r| == |ps| && forall i :: 0 <= i < |ps| ==>
              r[i] == (if ps[i].id == id then ps[i].(lastUsed := Some(now)) else ps[i])
  {
    StampEach(providers.GetOr([]), id, now)
  }

  function StampEach(ps: seq<Provider>, id: string, now: int): (r: seq<Provider>)
    ensures |r| == |ps|
    ensures forall i :: 0 <= i < |ps| ==> r[i] == (if ps[i].id == id then ps[i].(lastUsed := Some(now)) else ps[i])
  {
    if |ps| == 0 then []
    else [if ps[0].id == id then ps[0].(lastUsed := Some(now)) else ps[0]] + StampEach(ps[1..], id, now)
  }

  // ---------------------------------------------------------------- replies

  /** One piece of a reply; `completed` is set on the last one. */
  datatype Increment = Increment(text: Json, completed: bool)

  /** The fields a whole (non-streaming) reply is searched for, in the provider's order. */
  function WholeReplyFields(providerId: string, data: Json): seq<Option<Json>>
  {
    if providerId == "huggingface" then [GetOpt(Get(data, "0"), "generated_text"), Get(data, "generated_text")]
    else if providerId == "ollama" then [Get(data, "response")]
    else [Get(data, "generated_text"), Get(data, "response"), Get(data, "output"), Get(data, "text")]
  }

  /**
   * The text of a whole reply: the first truthy field in the provider's order, otherwise the
   * whole payload. Reading a field of `null` throws, so a `null` payload is an error.
   */
  function WholeReply(providerId: string, data: Json): (r: Result<Increment, string>)
    ensures r.Failure? <==> data == JNull
    ensures r.Success? ==> r.value.completed
    ensures r.Success? ==>
              var fs := WholeReplyFields(providerId, data);
              (r.value.text == data && forall i :: 0 <= i < |fs| ==> !TruthyOpt(fs[i]))
              || exists i :: 0 <= i < |fs| && fs[i] == Some(r.value.text) && Truthy(r.value.text)
                             && forall j :: 0 <= j < i ==> !TruthyOpt(fs[j])
  {
    if data == JNull then Failure("TypeError: Cannot read properties of null")
    else Success(Increment(FirstTruthy(WholeReplyFields(providerId, data), data), true))
  }

  /** The fields a streamed chunk is searched for: Ollama has one, every other provider four. */
  function ChunkFields(providerId: string, data: Json): seq<Option<Json>>
  {
    if providerId == "ollama" then [Get(data, "response")]
    else [Get(data, "generated_text"), Get(data, "response"), Get(data, "output"), Get(data, "text")]
  }

  /**
   * The text of one streamed chunk: the first truthy field, else `""`; a chunk that does not
   * parse, or parses to `null` (whose field read throws inside the `try`), is passed on raw.
   */
  function ChunkText(providerId: string, chunk: string, parse: string -> Option<Json>): (r: Json)
    ensures parse(chunk).None? || parse(chunk) == Some(JNull) ==> r == JStr(chunk)
    ensures parse(chunk).Some? && parse(chunk).value != JNull ==>
              var fs := ChunkFields(providerId, parse(chunk).value);
              (r == JStr("") && forall i :: 0 <= i < |fs| ==> !TruthyOpt(fs[i]))
              || exists i :: 0 <= i < |fs| && fs[i] == Some(r) && Truthy(r)
  {
    match parse(chunk)
    case None => JStr(chunk)
    case Some(data) =>
      if data == JNull then JStr(chunk) else FirstTruthy(ChunkFields(providerId, data), JStr(""))
  }

  /** A response body as the reader delivers it: decoded chunks, then either the end or an error (as its `toString()`). */
  datatype Body = Body(chunks: seq<string>, error: Option<string>)

  /** The streaming reply object: the provider it came from, the body, and how far it has been read. */
  datatype Reader = Reader(providerId: string, body: Body, pos: nat)

  /**
   * `read()`: the next chunk's text with `completed` false; at the end `""` with `completed`
   * true, or the reader's error.
   */
  function Read(rd: Reader, parse: string -> Option<Json>): (r: Result<(Increment, Reader), string>)
    ensures rd.pos < |rd.body.chunks| ==>
              r == Success((Increment(ChunkText(rd.providerId, rd.body.chunks[rd.pos], parse), false), rd.(pos := rd.pos + 1)))
    ensures rd.pos >= |rd.body.chunks| && rd.body.error.None? ==> r == Success((Increment(JStr(""), true), rd))
    ensures rd.pos >= |rd.body.chunks| && rd.body.error.Some? ==> r == Failure(rd.body.error.value)
  {
    if rd.pos < |rd.body.chunks| then
      Success((Increment(ChunkText(rd.providerId, rd.body.chunks[rd.pos], parse), false), rd.(pos := rd.pos + 1)))
    else match rd.body.error
      case Some(e) => Failure(e)
      case None => Success((Increment(JStr(""), true), rd))
  }

  /** `k` calls of `read()` one after another: the increments, and the reader after them; the first error stops them. */
  function ReadN(rd: Reader, parse: string -> Option<Json>, k: nat): Result<(seq<Increment>, Reader), string>
    decreases k
  {
    if k == 0 then Success(([], rd))
    else
      match Read(rd, parse)
      case Failure(e) => Failure(e)
      case Success((inc, next)) =>
        match ReadN(next, parse, k - 1)
        case Failure(e) => Failure(e)
        case Success((incs, last)) => Success(([inc] + incs, last))
  }

  /** A reader whose body fails: reading past every chunk left ends in the body's error. */
  lemma {:induction false} ReadToError(rd: Reader, parse: string -> Option<Json>)
    requires rd.pos <= |rd.body.chunks| && rd.body.error.Some?
    ensures ReadN(rd, parse, |rd.body.chunks| - rd.pos + 1) == Failure(rd.body.error.value)
    decreases |rd.body.chunks| - rd.pos
  {
    if rd.pos < |rd.body.chunks| {
      ReadToError(rd.(pos := rd.pos + 1), parse);
    }
  }

  /**
   * Reading a reader to the end: one increment per chunk left, with that chunk's text, in order
   * and not completed, then the completed empty increment.
   */
  lemma {:induction false} ReadToEnd(rd: Reader, parse: string -> Option<Json>)
    requires rd.pos <= |rd.body.chunks| && rd.body.error.None?
    ensures var n := |rd.body.chunks| - rd.pos;
            var r := ReadN(rd, parse, n + 1);
            && r.Success? && |r.value.0| == n + 1
            && (forall i :: 0 <= i < n ==>
                  r.value.0[i] == Increment(ChunkText(rd.providerId, rd.body.chunks[rd.pos + i], parse), false))
            && r.value.0[n] == Increment(JStr(""), true)
            && r.value.1.pos == |rd.body.chunks|
    decreases |rd.body.chunks| - rd.pos
  {
    var n := |rd.body.chunks| - rd.pos;
    if n > 0 {
      var next := rd.(pos := rd.pos + 1);
      var inc := Increment(ChunkText(rd.providerId, rd.body.chunks[rd.pos], parse), false);
      ReadToEnd(next, parse);
      var incs := ReadN(next, parse, n).value.0;
      assert ReadN(rd, parse, n + 1).value.0 == [inc] + incs;
      forall i | 0 < i < n
        ensures ([inc] + incs)[i] == Increment(ChunkText(rd.providerId, rd.body.chunks[rd.pos + i], parse), false)
      {
        assert ([inc] + incs)[i] == incs[i - 1];
      }
    }
  }

  /** What a request to the provider carries. */
  datatype Request = Request(url: string, httpMethod: string, headers: seq<Member>, body: Json)

  /** What the provider answers: status, the body as text (whole mode) and as chunks (stream mode). */
  datatype Response = Response(ok: bool, status: int, statusText: string, text: string, body: Body)

  /** The value `ask` and `summarize` resolve to. */
  datatype Reply = Whole(increment: Increment) | Streaming(reader: Reader)

  /** `schema.method || "POST"`. */
  function MethodOrPost(m: Option<string>): (r: string)
    ensures r != ""
  {
    match m
    case Some(s) => if s != "" then s else "POST"
    case None => "POST"
  }

  function BuildRequest(p: Provider, prompt: string, stream: bool): Request
  {
    Request(p.apiUrl, MethodOrPost(p.schema.httpMethod), PrepareHeaders(p), PrepareBody(p, prompt, stream))
  }

  /**
   * The error a non-ok response raises, as `toString()` shows it: the `Error: ` name, then the
   * message with the status, the status text and the body text. Every error text in this module
   * is the thrown error's `toString()`.
   */
  function FailureMessage(resp: Response): string
  {
    "Error: API request failed: " + IntToString(resp.status) + " " + resp.statusText + " - " + resp.text
  }

  /** Turning the provider's response into the reply: an error, the whole text, or a reader. */
  function Respond(p: Provider, resp: Response, stream: bool, parse: string -> Option<Json>): (r: Result<Reply, string>)
    ensures !resp.ok ==> r == Failure(FailureMessage(resp))
    ensures resp.ok && stream ==> r == Success(Streaming(Reader(p.id, resp.body, 0)))
    ensures resp.ok && !stream && parse(resp.text).None? ==> r.Failure?
    ensures resp.ok && !stream && parse(resp.text).Some? ==>
              (r.Success? <==> parse(resp.text).value != JNull)
    ensures r.Success? && !stream ==> r.value.Whole? && r.value.increment.completed
  {
    if !resp.ok then Failure(FailureMessage(resp))
    else if stream then Success(Streaming(Reader(p.id, resp.body, 0)))
    else match parse(resp.text)
      case None => Failure("SyntaxError: Unexpected token in JSON")
      case Some(data) =>
        match WholeReply(p.id, data)
        case Failure(e) => Failure(e)
        case Success(inc) => Success(Whole(inc))
  }

  /**
   * The shared flow of `ask` and `summarize`: pick the provider, build the prompt from the named
   * recipe, send it, and read the answer. Without a provider the first field read throws.
   */
  function Send(store: SyncStore, recipeName: string, defaultPrompt: string, text: string, stream: bool,
                server: Request -> Response, parse: string -> Option<Json>): (r: Result<Reply, string>)
    ensures CurrentProvider(store).None? ==> r.Failure?
    ensures CurrentProvider(store).Some? ==>
              var p := CurrentProvider(store).value;
              var req := BuildRequest(p, GetPrompt(store.promptRecipes, recipeName, defaultPrompt, text), stream);
              var resp := server(req);
              && req.url == p.apiUrl && req.httpMethod != ""
              && (!resp.ok ==> r == Failure(FailureMessage(resp)))
              && (resp.ok && stream ==> r == Success(Streaming(Reader(p.id, resp.body, 0))))
              && (resp.ok && !stream ==>
                    (r.Success? <==> parse(resp.text).Some? && parse(resp.text).value != JNull)
                    && (r.Success? ==> r == Success(Whole(WholeReply(p.id, parse(resp.text).value).value))))
  {
    match CurrentProvider(store)
    case None => Failure("TypeError: Cannot read properties of undefined (reading 'id')")
    case Some(p) =>
      var prompt := GetPrompt(store.promptRecipes, recipeName, defaultPrompt, text);
      Respond(p, server(BuildRequest(p, prompt, stream)), stream, parse)
  }

  const AskRecipe: string := "Ask Julian"
  const AskDefault: string := "Answer the following question: {text}"
  const SummarizeRecipe: string := "Summarize Page"
  const SummarizeDefault: string := "Summarize the following text: {text}"
  const PingPrompt: string := "Hello, this is a test. Please response yes."

  /** `ask(question, stream)`. */
  function Ask(store: SyncStore, question: string, stream: bool, server: Request -> Response,
               parse: string -> Option<Json>): (r: Result<Reply, string>)
    ensures CurrentProvider(store).None? ==> r.Failure?
    ensures r.Success? && !stream ==> r.value.Whole? && r.value.increment.completed
    ensures r.Success? && stream ==> r.value.Streaming? && r.value.reader.pos == 0
  {
    Send(store, AskRecipe, AskDefault, question, stream, server, parse)
  }

  /** `summarize(text, stream)`. */
  function Summarize(store: SyncStore, text: string, stream: bool, server: Request -> Response,
                     parse: string -> Option<Json>): (r: Result<Reply, string>)
    ensures CurrentProvider(store).None? ==> r.Failure?
    ensures r.Success? && !stream ==> r.value.Whole? && r.value.increment.completed
    ensures r.Success? && stream ==> r.value.Streaming? && r.value.reader.pos == 0
  {
    Send(store, SummarizeRecipe, SummarizeDefault, text, stream, server, parse)
  }

  /** `ping(stream)`: the fixed test prompt, answered by the parsed response body. */
  function Ping(store: SyncStore, stream: bool, server: Request -> Response,
                parse: string -> Option<Json>): (r: Result<Json, string>)
    ensures CurrentProvider(store).None? ==> r.Failure?
    ensures CurrentProvider(store).Some? ==>
              var resp := server(BuildRequest(CurrentProvider(store).value, PingPrompt, stream));
              (r.Success? <==> resp.ok && parse(resp.text).Some?)
              && (!resp.ok ==> r == Failure(FailureMessage(resp)))
  {
    match CurrentProvider(store)
    case None => Failure("TypeError: Cannot read properties of undefined (reading 'id')")
    case Some(p) =>
      var resp := server(BuildRequest(p, PingPrompt, stream));
      if !resp.ok then Failure(FailureMessage(resp))
      else match parse(resp.text)
        case None => Failure("SyntaxError: Unexpected token in JSON")
        case Some(data) => Success(data)
  }
}
