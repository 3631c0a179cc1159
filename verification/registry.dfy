/** The service registry: the four AI chat services a slot can target, the
    capability flag for a temporary (non-persistent) chat, and the URL each
    service opens with the prompt in its `q` query parameter. */
module Registry {
  import opened Basics

  datatype Service = ChatGpt | Perplexity | Gemini | Grok

  const DefaultService: Service := ChatGpt

  /** The identifier stored in a slot's `service` field. */
  function Id(s: Service): string {
    match s
    case ChatGpt => "chatgpt"
    case Perplexity => "perplexity"
    case Gemini => "gemini"
    case Grok => "grok"
  }

  function Label(s: Service): string {
    match s
    case ChatGpt => "ChatGPT"
    case Perplexity => "Perplexity"
    case Gemini => "Gemini"
    case Grok => "Grok"
  }

  /** Registry lookup by identifier. */
  function Lookup(id: string): (r: Option<Service>)
    ensures r.Some? ==> Id(r.value) == id
    ensures r.None? ==> forall s: Service :: Id(s) != id
  {
    if id == "chatgpt" then Some(ChatGpt)
    else if id == "perplexity" then Some(Perplexity)
    else if id == "gemini" then Some(Gemini)
    else if id == "grok" then Some(Grok)
    else None
  }

  lemma LookupId(s: Service)
    ensures Lookup(Id(s)) == Some(s)
  {
  }

  /** Only ChatGPT offers a temporary chat. */
  predicate SupportsTemporary(s: Service) {
    s == ChatGpt
  }

  const ChatGptTemporaryBase := "https://chatgpt.com/?temporary-chat=true"
  const ChatGptBase := "https://chatgpt.com/?"

  /** The text in front of the encoded prompt. */
  function UrlPrefix(s: Service, temporary: bool): string {
    match s
    case ChatGpt =>
      var base := if temporary then ChatGptTemporaryBase else ChatGptBase;
      base + (if EndsWith(base, "?") then "" else "&") + "q="
    case Perplexity => "https://www.perplexity.ai/search?q="
    case Gemini => "https://gemini.google.com/app?q="
    case Grok => "https://grok.com/?q="
  }

  /** `SERVICE_DEFINITIONS[s].buildUrl(prompt, { temporary })`. */
  function BuildUrl(s: Service, prompt: string, temporary: bool, encode: string -> string): (url: string)
    ensures s == ChatGpt && temporary ==> url == "https://chatgpt.com/?temporary-chat=true&q=" + encode(prompt)
    ensures s == ChatGpt && !temporary ==> url == "https://chatgpt.com/?q=" + encode(prompt)
    ensures s == Perplexity ==> url == "https://www.perplexity.ai/search?q=" + encode(prompt)
    ensures s == Gemini ==> url == "https://gemini.google.com/app?q=" + encode(prompt)
    ensures s == Grok ==> url == "https://grok.com/?q=" + encode(prompt)
  {
    assert EndsWith(ChatGptBase, "?");
    assert !EndsWith(ChatGptTemporaryBase, "?") by {
      assert ChatGptTemporaryBase[|ChatGptTemporaryBase| - 1] == 'e';
    }
    UrlPrefix(s, temporary) + encode(prompt)
  }

  /** Services without a temporary chat ignore the flag. */
  lemma BuildUrlIgnoresTemporary(s: Service, prompt: string, encode: string -> string)
    requires !SupportsTemporary(s)
    ensures BuildUrl(s, prompt, true, encode) == BuildUrl(s, prompt, false, encode)
  {
  }

  /** Two equal URLs agree at every position k inside both prefixes,
      whatever follows them. */
  lemma PrefixesAgree(p: string, q: string, x: string, y: string, k: nat)
    requires p + x == q + y && k < |p| && k < |q|
    ensures p[k] == q[k]
  {
    assert (p + x)[k] == p[k];
    assert (q + y)[k] == q[k];
  }

  /** A URL determines the service it was built for, the encoded prompt and,
      for ChatGPT, whether a temporary chat was asked for. */
  lemma BuildUrlInjective(s1: Service, p1: string, t1: bool, s2: Service, p2: string, t2: bool,
                          encode: string -> string)
    requires BuildUrl(s1, p1, t1, encode) == BuildUrl(s2, p2, t2, encode)
    ensures s1 == s2
    ensures encode(p1) == encode(p2)
    ensures s1 == ChatGpt ==> t1 == t2
  {
    var a := BuildUrl(s1, p1, t1, encode);
    var tb := "https://chatgpt.com/?temporary-chat=true&q=";
    var nb := "https://chatgpt.com/?q=";
    var pb := "https://www.perplexity.ai/search?q=";
    var gb := "https://gemini.google.com/app?q=";
    var kb := "https://grok.com/?q=";
    var x1 := UrlPrefix(s1, t1);
    var x2 := UrlPrefix(s2, t2);
    assert x1 == (if s1 == ChatGpt then (if t1 then tb else nb) else if s1 == Perplexity then pb else if s1 == Gemini then gb else kb);
    assert x2 == (if s2 == ChatGpt then (if t2 then tb else nb) else if s2 == Perplexity then pb else if s2 == Gemini then gb else kb);
    // Distinct prefixes disagree at a position inside both.
    assert tb[21] == 't' && nb[21] == 'q';
    assert pb[8] == 'w' && tb[8] == 'c' && gb[8] == 'g' && kb[8] == 'g';
    assert gb[10] == 'm' && kb[10] == 'o';
    PrefixesAgree(x1, x2, encode(p1), encode(p2), 8);
    PrefixesAgree(x1, x2, encode(p1), encode(p2), 10);
    if |x1| > 21 && |x2| > 21 {
      PrefixesAgree(x1, x2, encode(p1), encode(p2), 21);
    }
    assert x1 == x2;
    assert encode(p1) == a[|x1|..];
    assert encode(p2) == a[|x2|..];
  }

  /** The temporary-chat URL is opened exactly for a ChatGPT slot with the
      temporary flag set. */
  lemma BuildUrlTemporaryChat(s: Service, prompt: string, temporary: bool, encode: string -> string)
    ensures StartsWith(BuildUrl(s, prompt, temporary, encode), ChatGptTemporaryBase + "&q=")
        <==> s == ChatGpt && temporary
  {
    var url := BuildUrl(s, prompt, temporary, encode);
    var t := ChatGptTemporaryBase + "&q=";
    var x := UrlPrefix(s, temporary);
    assert url == x + encode(prompt);
    if s == ChatGpt && temporary {
      assert x == t;
      assert url[..|t|] == t;
    } else {
      var k := if s == ChatGpt then 21 else 8;
      assert x[k] != t[k];
      assert url[k] == x[k];
    }
  }
}
