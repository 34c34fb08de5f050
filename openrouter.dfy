/**
 * Normalising the configured OpenRouter base URL into the chat
 * completions endpoint.
 */
module OpenRouter {
  import opened Wrappers
  import opened Text

  const DefaultBaseUrl: string := "https://openrouter.ai/api/v1"
  const CompletionsPath: string := "/chat/completions"

  /** `s.replace(/\/+$/, "")`: the prefix left before the trailing run of slashes. */
  function StripTrailingSlashes(s: string): (r: string)
    ensures |r| <= |s| && r == s[..|r|]
    ensures r == [] || r[|r| - 1] != '/'
    ensures forall i :: |r| <= i < |s| ==> s[i] == '/'
  {
    if |s| > 0 && s[|s| - 1] == '/' then StripTrailingSlashes(s[..|s| - 1]) else s
  }

  /** The base actually used: the trimmed configured base, or the default
      root when it is absent or blank. */
  function EffectiveBase(base: Option<string>): string {
    var raw := if base.Some? then Trim(base.value) else "";
    if |raw| > 0 then raw else DefaultBaseUrl
  }

  /** Append the completions path unless the URL already ends with it. */
  function AppendPathOnce(trimmed: string): string {
    if EndsWith(trimmed, CompletionsPath) then trimmed else trimmed + CompletionsPath
  }

  /** `buildCompletionsUrl`: trim the base (an absent or blank one becomes
      the default), drop trailing slashes, and append the completions path
      unless it is already there. */
  function BuildCompletionsUrl(base: Option<string>): (url: string)
    ensures EndsWith(url, CompletionsPath)
  {
    AppendPathOnce(StripTrailingSlashes(EffectiveBase(base)))
  }

  /** An absent or whitespace-only base gives the default endpoint. */
  lemma BlankBaseGivesDefault(base: Option<string>)
    requires base.None? || AllWhitespace(base.value)
    ensures BuildCompletionsUrl(base) == DefaultBaseUrl + CompletionsPath
  {
    if base.Some? {
      TrimProperties(base.value);
    }
    assert EffectiveBase(base) == DefaultBaseUrl;
    RootLacksPath();
  }

  /** A base that already ends in the completions path (after trimming
      and dropping trailing slashes) comes back trimmed and without those
      slashes: never appended twice. */
  lemma NoDoubleAppend(base: string)
    requires EndsWith(StripTrailingSlashes(Trim(base)), CompletionsPath)
    ensures BuildCompletionsUrl(Some(base)) == StripTrailingSlashes(Trim(base))
  {
    var t := Trim(base);
    assert |StripTrailingSlashes(t)| <= |t|;
  }

  /** Otherwise the result is the trimmed base without its trailing
      slashes, followed by the completions path. */
  lemma AppendsAfterStrippingSlashes(base: string)
    requires |Trim(base)| > 0
    requires !EndsWith(StripTrailingSlashes(Trim(base)), CompletionsPath)
    ensures BuildCompletionsUrl(Some(base)) == StripTrailingSlashes(Trim(base)) + CompletionsPath
  {
  }

  /** The result has no whitespace at either end and no trailing slash. */
  lemma ResultIsClean(base: Option<string>)
    ensures var url := BuildCompletionsUrl(base);
            |url| > 0 && !IsWhitespace(url[0]) && !IsWhitespace(url[|url| - 1]) && url[|url| - 1] != '/'
  {
    var url := BuildCompletionsUrl(base);
    var raw := if base.Some? then Trim(base.value) else "";
    if base.Some? {
      TrimProperties(base.value);
    }
    var effective := if |raw| > 0 then raw else DefaultBaseUrl;
    var trimmed := StripTrailingSlashes(effective);
    assert url[|url| - 1] == 's';
    if |trimmed| > 0 {
      assert url[0] == trimmed[0] == effective[0];
    } else {
      assert url == CompletionsPath;
    }
  }

  /** Normalising twice is normalising once: the endpoint is targeted
      exactly once. */
  lemma Idempotent(base: Option<string>)
    ensures BuildCompletionsUrl(Some(BuildCompletionsUrl(base))) == BuildCompletionsUrl(base)
  {
    var url := BuildCompletionsUrl(base);
    ResultIsClean(base);
    TrimProperties(url);
    assert StripTrailingSlashes(url) == url;
  }

  /** The default root does not already end in the completions path. */
  lemma RootLacksPath()
    ensures !EndsWith(DefaultBaseUrl, CompletionsPath)
    ensures StripTrailingSlashes(DefaultBaseUrl) == DefaultBaseUrl
    ensures Trim(DefaultBaseUrl) == DefaultBaseUrl
    ensures DefaultBaseUrl != [] && !IsWhitespace(DefaultBaseUrl[0])
    ensures DefaultBaseUrl[|DefaultBaseUrl| - 1] != '/'
  {
    assert DefaultBaseUrl[0] == 'h';
    assert DefaultBaseUrl[|DefaultBaseUrl| - 1] == '1';
    assert CompletionsPath[|CompletionsPath| - 1] == 's';
    TrimProperties(DefaultBaseUrl);
  }

  /** The documented cases: the root API gains the path ... */
  lemma RootGainsPath()
    ensures BuildCompletionsUrl(Some(DefaultBaseUrl)) == DefaultBaseUrl + CompletionsPath
  {
    RootLacksPath();
  }

  /** ... a full endpoint is left as it is ... */
  lemma FullEndpointUnchanged()
    ensures BuildCompletionsUrl(Some(DefaultBaseUrl + CompletionsPath)) == DefaultBaseUrl + CompletionsPath
  {
    var full := DefaultBaseUrl + CompletionsPath;
    assert full[|full| - |CompletionsPath|..] == CompletionsPath;
    TrimProperties(full);
    NoDoubleAppend(full);
  }

  /** ... and a trailing slash on the root is dropped before appending. */
  lemma TrailingSlashDropped()
    ensures BuildCompletionsUrl(Some(DefaultBaseUrl + "/")) == DefaultBaseUrl + CompletionsPath
  {
    RootLacksPath();
    SlashedBaseGainsPath(DefaultBaseUrl);
  }

  /** A root that starts without whitespace, ends without '/' and lacks
      the completions path gives, with one '/' appended, the root followed
      by the path. (Trailing whitespace before the slash would survive:
      trimming happens before the slashes are stripped.) */
  lemma SlashedBaseGainsPath(root: string)
    requires root != [] && !IsWhitespace(root[0]) && root[|root| - 1] != '/'
    requires !EndsWith(root, CompletionsPath)
    ensures BuildCompletionsUrl(Some(root + "/")) == root + CompletionsPath
  {
    SlashedIsEffective(root);
    StripOneSlash(root);
    AppendsToBare(root);
  }

  lemma SlashedIsEffective(root: string)
    requires root != [] && !IsWhitespace(root[0])
    ensures EffectiveBase(Some(root + "/")) == root + "/"
  {
    TrimWithSlash(root);
  }

  lemma AppendsToBare(root: string)
    requires !EndsWith(root, CompletionsPath)
    ensures AppendPathOnce(root) == root + CompletionsPath
  {
  }

  /** One slash added to a URL that does not end in one is stripped again. */
  lemma StripOneSlash(s: string)
    requires s == [] || s[|s| - 1] != '/'
    ensures StripTrailingSlashes(s + "/") == s
  {
    assert (s + "/")[..|s|] == s;
  }

  /** A URL that starts with a non-whitespace character, with a slash
      added, is its own trim. */
  lemma TrimWithSlash(s: string)
    requires s != [] && !IsWhitespace(s[0])
    ensures Trim(s + "/") == s + "/"
  {
    var t := s + "/";
    assert t[0] == s[0] && t[|t| - 1] == '/';
    TrimProperties(t);
  }
}
