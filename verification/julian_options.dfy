/**
 * The extension's settings page: how API keys are shown, how provider names are displayed and
 * normalised, and how adding, deleting and selecting keys and deleting recipes change the
 * stored settings. The settings page keeps its own records (`llmConfig`, `providerApiKeys`,
 * `apiKeyUsage`), which are separate from the provider list the service reads.
 */
module JulianOptions {
  import opened Wrappers
  import opened Text

  /** A stored API key: older settings hold the bare key, newer ones a key and an endpoint. */
  datatype KeyEntry = LegacyKey(key: string) | KeyRecord(key: string, url: string)

  /** When a key was last used; `None` is a stored `null`. */
  datatype Usage = Usage(lastUsed: Option<int>)

  /** The provider the settings page considers current, with its model, key and endpoint. */
  datatype LlmConfig = LlmConfig(provider: string, model: string, apiKey: string, customUrl: string)

  /** A prompt recipe as the settings page edits it. */
  datatype NamedPrompt = NamedPrompt(name: string, prompt: string)

  /** The settings page's records as read from storage; each may be missing. */
  datatype StoredOptions = StoredOptions(
    llmConfig: Option<LlmConfig>,
    providerApiKeys: Option<map<string, KeyEntry>>,
    apiKeyUsage: Option<map<string, Usage>>,
    promptRecipes: Option<seq<NamedPrompt>>)

  /** The key records after the defaults have been filled in, as the page writes them back. */
  datatype KeyStore = KeyStore(keys: map<string, KeyEntry>, usage: map<string, Usage>, config: LlmConfig)

  const DefaultLlmConfig: LlmConfig := LlmConfig("huggingface", "facebook/bart-large-cnn", "", "")

  const DefaultKeys: map<string, KeyEntry> := map["huggingface" := LegacyKey(""), "custom" := LegacyKey("")]

  const DefaultUsage: map<string, Usage> := map["huggingface" := Usage(None), "custom" := Usage(None)]

  const DefaultPrompts: seq<NamedPrompt> := [
    NamedPrompt("Ask Julian", "Answer the following question: {text}"),
    NamedPrompt("Summarize Page", "Summarize the following text in a concise way: {text}"),
    NamedPrompt("Generate Text", "Generate text based on: {text}")
  ]

  /** Each record falls back to its default when it is missing. */
  function LoadKeyStore(stored: StoredOptions): (ks: KeyStore)
    ensures stored.providerApiKeys.None? ==> ks.keys == DefaultKeys
    ensures stored.apiKeyUsage.None? ==> ks.usage == DefaultUsage
    ensures stored.llmConfig.None? ==> ks.config == DefaultLlmConfig
    ensures stored.providerApiKeys.Some? ==> ks.keys == stored.providerApiKeys.value
  {
    KeyStore(stored.providerApiKeys.GetOr(DefaultKeys), stored.apiKeyUsage.GetOr(DefaultUsage),
             stored.llmConfig.GetOr(DefaultLlmConfig))
  }

  // ---------------------------------------------------------------- masking

  /** Eight bullets (U+2022), which stand for the hidden part of a key. */
  const Bullets: string := "\U{2022}\U{2022}\U{2022}\U{2022}\U{2022}\U{2022}\U{2022}\U{2022}"

  /**
   * `maskApiKey(key)`: "Not set" for no key, only bullets for a key of at most eight
   * characters, and otherwise the first four and last four characters around the bullets.
   */
  function MaskApiKey(key: string): (r: string)
    ensures key == "" <==> r == "Not set"
    ensures 0 < |key| <= 8 ==> r == Bullets
    ensures |key| > 8 ==> |r| == 16 && r[..4] == key[..4] && r[4..12] == Bullets && r[12..] == key[|key| - 4..]
  {
    if key == "" then "Not set"
    else if |key| <= 8 then Bullets
    else key[..4] + Bullets + key[|key| - 4..]
  }

  /**
   * A mask reveals nothing about a short key and nothing beyond the first and last four
   * characters of a long one: keys that agree there are masked alike.
   */
  lemma MaskHidesMiddle(a: string, b: string)
    requires (0 < |a| <= 8 && 0 < |b| <= 8)
             || (|a| > 8 && |b| > 8 && a[..4] == b[..4] && a[|a| - 4..] == b[|b| - 4..])
    ensures MaskApiKey(a) == MaskApiKey(b)
  {
  }

  // ---------------------------------------------------------------- provider names

  predicate IsNameSeparator(c: char)
  {
    c == '_' || c == '-'
  }

  predicate NoNameSeparator(s: string)
  {
    forall i :: 0 <= i < |s| ==> !IsNameSeparator(s[i])
  }

  /** `s.split(/[_-]/)`: the pieces between single `_` or `-` characters, empty pieces included. */
  function SplitName(s: string): (r: seq<string>)
    ensures |r| >= 1
    ensures forall i :: 0 <= i < |r| ==> NoNameSeparator(r[i])
  {
    if |s| == 0 then [""]
    else if IsNameSeparator(s[0]) then [""] + SplitName(s[1..])
    else
      var rest := SplitName(s[1..]);
      [[s[0]] + rest[0]] + rest[1..]
  }

  /** Joining the pieces with `_` gives back a name that used `_` as its only separator. */
  lemma {:induction false} SplitNameJoin(s: string)
    requires '-' !in s
    ensures Join(SplitName(s), "_") == s
  {
    if |s| > 0 {
      var rest := SplitName(s[1..]);
      SplitNameJoin(s[1..]);
      if IsNameSeparator(s[0]) {
        assert s == "_" + s[1..];
      } else {
        JoinHead(rest, [s[0]], "_");
      }
    }
  }

  /** Prefixing the first piece prefixes the joined text. */
  lemma JoinHead(words: seq<string>, p: string, sep: string)
    requires |words| >= 1
    ensures Join([p + words[0]] + words[1..], sep) == p + Join(words, sep)
  {
    var w := [p + words[0]] + words[1..];
    if |words| > 1 {
      assert w[1..] == words[1..];
    }
  }

  /** `word.charAt(0).toUpperCase() + word.slice(1).toLowerCase()`. */
  function Capitalize(w: string): (r: string)
    ensures |r| == |w|
    ensures |w| > 0 ==> r[0] == UpperChar(w[0]) && r[1..] == Lower(w[1..])
  {
    if w == "" then "" else [UpperChar(w[0])] + Lower(w[1..])
  }

  function CapitalizeAll(ws: seq<string>): (r: seq<string>)
    ensures |r| == |ws| && forall i :: 0 <= i < |ws| ==> r[i] == Capitalize(ws[i])
  {
    if |ws| == 0 then [] else [Capitalize(ws[0])] + CapitalizeAll(ws[1..])
  }

  /**
   * `formatProviderName(provider)`: fixed labels for the built-ins; any other name is split at
   * `_` and `-`, each piece capitalised, and the pieces joined with spaces.
   */
  function FormatProviderName(p: string): (r: string)
    ensures p == "huggingface" ==> r == "Hugging Face"
    ensures p == "custom" ==> r == "Custom"
    ensures p != "huggingface" && p != "custom" ==> NoNameSeparator(r) && r == TitleFrom(p, true)
  {
    if p == "huggingface" then "Hugging Face"
    else if p == "custom" then "Custom"
    else
      var ws := CapitalizeAll(SplitName(p));
      assert forall i :: 0 <= i < |ws| ==> NoNameSeparator(ws[i]) by {
        forall i | 0 <= i < |ws| ensures NoNameSeparator(ws[i]) {
          CapitalizeKeepsNoSeparator(SplitName(p)[i]);
        }
      }
      JoinNoSeparator(ws, " ");
      TitleJoin(p);
      Join(ws, " ")
  }

  /**
   * Title case character by character, the reference for `FormatProviderName`: a separator
   * becomes a space, a letter that opens a piece (`start` for the first) goes to upper case,
   * every other letter to lower case.
   */
  function TitleFrom(s: string, start: bool): (r: string)
    ensures |r| == |s|
  {
    if |s| == 0 then ""
    else if IsNameSeparator(s[0]) then " " + TitleFrom(s[1..], true)
    else [if start then UpperChar(s[0]) else LowerChar(s[0])] + TitleFrom(s[1..], false)
  }

  /** What `TitleFrom` puts at position `i`. */
  function TitleChar(s: string, i: nat, start: bool): char
    requires i < |s|
  {
    if IsNameSeparator(s[i]) then ' '
    else if (if i == 0 then start else IsNameSeparator(s[i - 1])) then UpperChar(s[i])
    else LowerChar(s[i])
  }

  /** Each separator of the name becomes a space, each piece's first letter upper case, the rest lower case. */
  lemma {:induction false} TitleFromChars(s: string, start: bool)
    ensures forall i :: 0 <= i < |s| ==> TitleFrom(s, start)[i] == TitleChar(s, i, start)
  {
    if |s| > 0 {
      var next := IsNameSeparator(s[0]);
      TitleFromChars(s[1..], next);
      forall i | 0 < i < |s| ensures TitleFrom(s, start)[i] == TitleChar(s, i, start) {
        assert TitleFrom(s, start)[i] == TitleFrom(s[1..], next)[i - 1];
        assert s[1..][i - 1] == s[i];
        if i > 1 { assert s[1..][i - 2] == s[i - 1]; }
      }
    }
  }

  /** The formatted name, read character by character. */
  lemma FormatProviderChars(p: string)
    requires p != "huggingface" && p != "custom"
    ensures var r := FormatProviderName(p);
            |r| == |p| && forall i :: 0 <= i < |p| ==> r[i] == TitleChar(p, i, true)
  {
    TitleFromChars(p, true);
  }

  /**
   * Splitting at the separators, capitalising the pieces and joining them with spaces is title
   * case; with `start` false the first piece is only lowered.
   */
  lemma {:induction false} TitleJoin(s: string)
    ensures var ws := SplitName(s);
            TitleFrom(s, true) == Join(CapitalizeAll(ws), " ")
            && TitleFrom(s, false) == Join([Lower(ws[0])] + CapitalizeAll(ws[1..]), " ")
  {
    if |s| > 0 {
      var ws := SplitName(s);
      var rest := SplitName(s[1..]);
      TitleJoin(s[1..]);
      if IsNameSeparator(s[0]) {
        assert ws == [""] + rest;
        assert ws[1..] == rest;
        var tail := CapitalizeAll(rest);
        assert CapitalizeAll(ws) == [""] + tail;
        assert Join([""] + tail, " ") == "" + " " + Join(tail, " ") by {
          assert ([""] + tail)[1..] == tail;
        }
        assert [Lower(ws[0])] + CapitalizeAll(ws[1..]) == [""] + tail;
      } else {
        var c := s[0];
        assert ws == [[c] + rest[0]] + rest[1..];
        assert ws[0] == [c] + rest[0] && ws[1..] == rest[1..];
        var words := [Lower(rest[0])] + CapitalizeAll(rest[1..]);
        assert Capitalize([c] + rest[0]) == [UpperChar(c)] + Lower(rest[0]) by {
          assert ([c] + rest[0])[1..] == rest[0];
        }
        assert Lower([c] + rest[0]) == [LowerChar(c)] + Lower(rest[0]) by {
          assert ([c] + rest[0])[1..] == rest[0];
        }
        assert CapitalizeAll(ws) == [[UpperChar(c)] + words[0]] + words[1..] by {
          assert CapitalizeAll(ws)[1..] == CapitalizeAll(ws[1..]);
        }
        JoinHead(words, [UpperChar(c)], " ");
        assert [Lower(ws[0])] + CapitalizeAll(ws[1..]) == [[LowerChar(c)] + words[0]] + words[1..];
        JoinHead(words, [LowerChar(c)], " ");
      }
    }
  }

  lemma CapitalizeKeepsNoSeparator(w: string)
    requires NoNameSeparator(w)
    ensures NoNameSeparator(Capitalize(w))
  {
    if |w| > 0 {
      var r := Capitalize(w);
      forall i | 0 <= i < |r| ensures !IsNameSeparator(r[i]) {
        if i > 0 {
          assert r[i] == Lower(w[1..])[i - 1];
        }
      }
    }
  }

  lemma {:induction false} JoinNoSeparator(ws: seq<string>, sep: string)
    requires NoNameSeparator(sep) && forall i :: 0 <= i < |ws| ==> NoNameSeparator(ws[i])
    ensures NoNameSeparator(Join(ws, sep))
  {
    if |ws| > 1 {
      JoinNoSeparator(ws[1..], sep);
      var j := Join(ws[1..], sep);
      assert Join(ws, sep) == ws[0] + sep + j;
      forall i | 0 <= i < |ws[0] + sep + j| ensures !IsNameSeparator((ws[0] + sep + j)[i]) {
        if i < |ws[0]| {
        } else if i < |ws[0]| + |sep| {
          assert (ws[0] + sep + j)[i] == sep[i - |ws[0]|];
        } else {
          assert (ws[0] + sep + j)[i] == j[i - |ws[0]| - |sep|];
        }
      }
    }
  }

  /** A one-word lowercase name is shown with its first letter in upper case. */
  lemma FormatOneWord(w: string)
    requires |w| > 0 && w != "huggingface" && w != "custom"
    requires forall i :: 0 <= i < |w| ==> 'a' <= w[i] <= 'z'
    ensures FormatProviderName(w) == [UpperChar(w[0])] + w[1..]
  {
    assert NoNameSeparator(w);
    SplitNameWhole(w);
    assert Lower(w[1..]) == w[1..];
  }

  lemma {:induction false} SplitNameWhole(w: string)
    requires NoNameSeparator(w)
    ensures SplitName(w) == [w]
  {
    if |w| > 0 {
      SplitNameWhole(w[1..]);
      assert [w[0]] + w[1..] == w;
    }
  }

  /**
   * The name under which `addNewApiKey` stores a key: the trimmed input in lower case, with
   * each white-space run replaced by one `_`.
   */
  function NormalizeName(raw: string): (r: string)
    ensures NoSpace(r)
  {
    ReplaceSpaceRunsNoSpace(Lower(Trim(raw)), "_");
    ReplaceSpaceRuns(Lower(Trim(raw)), "_")
  }

  /** Normalising a normalised name changes nothing. */
  lemma NormalizeIdempotent(raw: string)
    ensures NormalizeName(NormalizeName(raw)) == NormalizeName(raw)
  {
    var n := NormalizeName(raw);
    TrimNoEdgeSpace(n);
    assert Lower(n) == n by {
      forall i | 0 <= i < |n| ensures Lower(n)[i] == n[i] {
        LowerAfterNormalize(raw, i);
      }
    }
    ReplaceSpaceRunsIdentity(n, "_");
  }

  predicate NoUpper(s: string)
  {
    forall k :: 0 <= k < |s| ==> !('A' <= s[k] <= 'Z')
  }

  /** A normalised name has no upper-case ASCII letter. */
  lemma LowerAfterNormalize(raw: string, i: int)
    requires 0 <= i < |NormalizeName(raw)|
    ensures !('A' <= NormalizeName(raw)[i] <= 'Z')
  {
    var l := Lower(Trim(raw));
    assert NoUpper(l);
    SplitNoUpper(l);
    JoinNoUpper(SplitSpaces(l), "_");
  }

  lemma SplitNoUpper(s: string)
    requires NoUpper(s)
    ensures forall i :: 0 <= i < |SplitSpaces(s)| ==> NoUpper(SplitSpaces(s)[i])
    decreases |s|
  {
    var k := FirstSpace(s);
    if k < |s| {
      var t := TrimStart(s[k..]);
      assert NoUpper(t) by {
        forall j | 0 <= j < |t| ensures !('A' <= t[j] <= 'Z') {
          assert t[j] == s[k..][|s[k..]| - |t| + j];
        }
      }
      SplitNoUpper(t);
      assert NoUpper(s[..k]);
      assert SplitSpaces(s) == [s[..k]] + SplitSpaces(t);
    }
  }

  lemma {:induction false} JoinNoUpper(ws: seq<string>, sep: string)
    requires NoUpper(sep) && forall i :: 0 <= i < |ws| ==> NoUpper(ws[i])
    ensures NoUpper(Join(ws, sep))
  {
    if |ws| > 1 {
      JoinNoUpper(ws[1..], sep);
      var j := Join(ws[1..], sep);
      assert Join(ws, sep) == ws[0] + sep + j;
      forall k | 0 <= k < |ws[0] + sep + j| ensures !('A' <= (ws[0] + sep + j)[k] <= 'Z') {
        if k < |ws[0]| {
        } else if k < |ws[0]| + |sep| {
          assert (ws[0] + sep + j)[k] == sep[k - |ws[0]|];
        } else {
          assert (ws[0] + sep + j)[k] == j[k - |ws[0]| - |sep|];
        }
      }
    }
  }

  // ---------------------------------------------------------------- key management

    /**
   * The store after a key is saved under the normalised name `n`: the key and its endpoint are
   * recorded, a usage entry is created if there is none, and the key (and a non-empty endpoint)
   * becomes the current configuration's when it is the only key or belongs to the current provider.
   */
  function StoreKey(ks: KeyStore, n: string, key: string, url: string): (out: KeyStore)
    ensures n in out.keys && out.keys[n] == KeyRecord(key, url)
    ensures forall p :: p != n ==> (p in out.keys <==> p in ks.keys)
    ensures forall p :: p != n && p in ks.keys ==> out.keys[p] == ks.keys[p]
    ensures n in out.usage
    ensures n in ks.usage ==> out.usage == ks.usage
    ensures n !in ks.usage ==> out.usage == ks.usage[n := Usage(None)]
    ensures out.config.provider == ks.config.provider && out.config.model == ks.config.model
    ensures if |out.keys| == 1 || n == ks.config.provider
            then out.config.apiKey == key
                 && out.config.customUrl == (if url != "" then url else ks.config.customUrl)
            else out.config == ks.config
  {
    var keys := ks.keys[n := KeyRecord(key, url)];
    var usage := if n in ks.usage then ks.usage else ks.usage[n := Usage(None)];
    var config :=
      if |keys| == 1 || n == ks.config.provider then
        ks.config.(apiKey := key, customUrl := if url != "" then url else ks.config.customUrl)
      else ks.config;
    KeyStore(keys, usage, config)
  }

  /**
   * `addNewApiKey()` with the three form fields: a blank name or key writes nothing; otherwise
   * the trimmed key and endpoint are stored under the normalised name as `StoreKey` describes.
   */
  function AddNewApiKey(ks: KeyStore, nameField: string, keyField: string, urlField: string): (r: Result<KeyStore, string>)
    ensures r.Failure? <==> Trim(nameField) == "" || Trim(keyField) == ""
    ensures r.Success? ==>
              var n := NormalizeName(nameField);
              var out := r.value;
              && n in out.keys && out.keys[n] == KeyRecord(Trim(keyField), Trim(urlField))
              && (forall p :: p != n ==> (p in out.keys <==> p in ks.keys))
              && (forall p :: p != n && p in ks.keys ==> out.keys[p] == ks.keys[p])
              && n in out.usage
              && (n in ks.usage ==> out.usage == ks.usage)
              && (n !in ks.usage ==> out.usage == ks.usage[n := Usage(None)])
    ensures r.Success? ==>
              var n := NormalizeName(nameField);
              var out := r.value;
              out.config.provider == ks.config.provider && out.config.model == ks.config.model
              && (if |out.keys| == 1 || n == ks.config.provider
                  then out.config.apiKey == Trim(keyField)
                       && out.config.customUrl == (if Trim(urlField) != "" then Trim(urlField) else ks.config.customUrl)
                  else out.config == ks.config)
  {
    var name := Trim(nameField);
    var key := Trim(keyField);
    if name == "" then Failure("Please enter a provider name")
    else if key == "" then Failure("Please enter an API key")
    else Success(StoreKey(ks, NormalizeName(nameField), key, Trim(urlField)))
  }

  predicate IsBuiltIn(p: string)
  {
    p == "huggingface" || p == "custom"
  }

  /**
   * `deleteApiKey(provider)` once confirmed: a built-in provider keeps its entry with an empty
   * key (and a legacy entry becomes a record with no endpoint); any other provider loses both its
   * entry and its usage record. Clearing a missing built-in entry throws. When the provider is
   * the current one, its key is cleared from the configuration, and for "custom" its endpoint too.
   */
  function DeleteApiKey(ks: KeyStore, provider: string): (r: Result<KeyStore, string>)
    ensures r.Failure? <==> IsBuiltIn(provider) && provider !in ks.keys
    ensures r.Success? && IsBuiltIn(provider) ==>
              provider in r.value.keys && r.value.keys[provider].KeyRecord? && r.value.keys[provider].key == ""
              && r.value.keys.Keys == ks.keys.Keys && r.value.usage == ks.usage
    ensures r.Success? && !IsBuiltIn(provider) ==>
              r.value.keys.Keys == ks.keys.Keys - {provider} && r.value.usage.Keys == ks.usage.Keys - {provider}
    ensures r.Success? ==> forall p :: p in ks.keys && p != provider ==> p in r.value.keys && r.value.keys[p] == ks.keys[p]
    ensures r.Success? && provider == ks.config.provider ==>
              r.value.config == ks.config.(apiKey := "", customUrl := if provider == "custom" then "" else ks.config.customUrl)
    ensures r.Success? && provider != ks.config.provider ==> r.value.config == ks.config
  {
    var config :=
      if provider == ks.config.provider then
        ks.config.(apiKey := "", customUrl := if provider == "custom" then "" else ks.config.customUrl)
      else ks.config;
    if IsBuiltIn(provider) then
      if provider !in ks.keys then Failure("TypeError: Cannot set properties of undefined (setting 'key')")
      else
        var cleared := match ks.keys[provider]
                       case LegacyKey(_) => KeyRecord("", "")
                       case KeyRecord(_, url) => KeyRecord("", url);
        Success(KeyStore(ks.keys[provider := cleared], ks.usage, config))
    else
      Success(KeyStore(ks.keys - {provider}, ks.usage - {provider}, config))
  }

  /** Adding a key under a new, non-built-in name and deleting it again restores the key and usage maps. */
  lemma DeleteUndoesAdd(ks: KeyStore, nameField: string, keyField: string, urlField: string)
    requires Trim(nameField) != "" && Trim(keyField) != ""
    requires var n := NormalizeName(nameField); !IsBuiltIn(n) && n !in ks.keys && n !in ks.usage
    ensures var added := AddNewApiKey(ks, nameField, keyField, urlField).value;
            var back := DeleteApiKey(added, NormalizeName(nameField));
            back.Success? && back.value.keys == ks.keys && back.value.usage == ks.usage
  {
    var n := NormalizeName(nameField);
    var added := AddNewApiKey(ks, nameField, keyField, urlField).value;
    assert added.keys == ks.keys[n := KeyRecord(Trim(keyField), Trim(urlField))];
    assert added.usage == ks.usage[n := Usage(None)];
    RemoveAdded(ks.keys, n, KeyRecord(Trim(keyField), Trim(urlField)));
    RemoveAdded(ks.usage, n, Usage(None));
  }

  lemma RemoveAdded<V>(m: map<string, V>, k: string, v: V)
    requires k !in m
    ensures m[k := v] - {k} == m
  {
  }

  /** The built-in entries survive every deletion. */
  lemma BuiltInsSurviveDelete(ks: KeyStore, provider: string, builtIn: string)
    requires IsBuiltIn(builtIn) && builtIn in ks.keys
    requires DeleteApiKey(ks, provider).Success?
    ensures builtIn in DeleteApiKey(ks, provider).value.keys
  {
  }

  /**
   * `setCurrentProvider(provider, key, url)`: the configuration names the provider and its key;
   * its endpoint is replaced only for "custom" or when an endpoint is given.
   */
  function SetCurrentProvider(config: LlmConfig, provider: string, key: string, url: string): (r: LlmConfig)
    ensures r.provider == provider && r.apiKey == key && r.model == config.model
    ensures provider == "custom" || url != "" ==> r.customUrl == url
    ensures provider != "custom" && url == "" ==> r.customUrl == config.customUrl
  {
    config.(provider := provider, apiKey := key, customUrl := if provider == "custom" || url != "" then url else config.customUrl)
  }

  // ---------------------------------------------------------------- recipes

  /** The recipes the page shows: the stored ones, or the defaults. */
  function LoadPrompts(stored: Option<seq<NamedPrompt>>): seq<NamedPrompt>
  {
    stored.GetOr(DefaultPrompts)
  }

  /** `addRecipe()`: a placeholder recipe is appended to the list shown. */
  function AddRecipe(recipes: seq<NamedPrompt>): (r: seq<NamedPrompt>)
    ensures |r| == |recipes| + 1 && r[..|recipes|] == recipes
    ensures r[|recipes|] == NamedPrompt("New Recipe", "Enter your prompt here. Use {text} as placeholder.")
  {
    recipes + [NamedPrompt("New Recipe", "Enter your prompt here. Use {text} as placeholder.")]
  }

  /**
   * `deleteRecipe(index)`: for an index inside the list, the list shown without that recipe;
   * for any other index nothing is shown again (`None`).
   */
  function DeleteRecipe(recipes: seq<NamedPrompt>, index: int): (r: Option<seq<NamedPrompt>>)
    ensures r.Some? <==> 0 <= index < |recipes|
    ensures r.Some? ==> |r.value| == |recipes| - 1
    ensures r.Some? ==> forall j :: 0 <= j < index ==> r.value[j] == recipes[j]
    ensures r.Some? ==> forall j :: index < j < |recipes| ==> r.value[j - 1] == recipes[j]
  {
    if 0 <= index < |recipes| then Some(recipes[..index] + recipes[index + 1..]) else None
  }

  /** Deleting a recipe and putting it back where it was restores the list. */
  lemma DeleteRecipeInverse(recipes: seq<NamedPrompt>, index: int)
    requires 0 <= index < |recipes|
    ensures var rest := DeleteRecipe(recipes, index).value;
            rest[..index] + [recipes[index]] + rest[index..] == recipes
  {
    var rest := DeleteRecipe(recipes, index).value;
    assert rest[..index] == recipes[..index];
    assert rest[index..] == recipes[index + 1..];
    assert recipes == recipes[..index] + [recipes[index]] + recipes[index + 1..];
  }
}
