/** The prompt builder of the background worker (bg.js `buildPrompt`): the
    template is converted to a string (a falsy one gives "") and three
    replace-all passes substitute `{url}`, `{title}` and `{selection}`, in
    that order. A missing selection is the empty string.

    `BuildPrompt` performs the passes as literal replacements, which is what
    the extension intends: the page values are inserted verbatim. `BuildPromptAsWritten` is the source as
    the JavaScript engine runs it: a replacement string is a template, so a
    page URL, title or selection containing `$&`, `$$`, `` $` `` or `$'` is
    not inserted verbatim. */
module Prompt {
  import opened JsValues
  import opened Replace

  const UrlToken := "{url}"
  const TitleToken := "{title}"
  const SelectionToken := "{selection}"

  /** `String(template || "")`. */
  function TemplateText(env: Env, template: JsValue): (r: string)
    ensures !Truthy(template) ==> r == ""
    ensures template.Str? ==> r == template.s
  {
    if Truthy(template) then Text(env, template) else ""
  }

  /** `String(selection ?? "")`. */
  function SelectionText(env: Env, selection: JsValue): (r: string)
    ensures Nullish(selection) ==> r == ""
    ensures selection.Str? ==> r == selection.s
  {
    if Nullish(selection) then "" else Text(env, selection)
  }

  /** The prompt with literal substitution. */
  function BuildPrompt(env: Env, template: JsValue, url: string, title: string, selection: JsValue): (r: string)
    ensures !Truthy(template) ==> r == ""
  {
    var t := TemplateText(env, template);
    var afterUrl := ReplaceAll(t, UrlToken, url);
    var afterTitle := ReplaceAll(afterUrl, TitleToken, title);
    ReplaceAll(afterTitle, SelectionToken, SelectionText(env, selection))
  }

  /** The prompt as the three `replaceAll` calls compute it. */
  function BuildPromptAsWritten(env: Env, template: JsValue, url: string, title: string, selection: JsValue): (r: string)
    ensures !Truthy(template) ==> r == ""
  {
    var t := TemplateText(env, template);
    JsReplaceAll(JsReplaceAll(JsReplaceAll(t, UrlToken, url), TitleToken, title),
                 SelectionToken, SelectionText(env, selection))
  }

  /** The three placeholders of "{url} {title} {selection}" are filled in
      order: the page "https://a" titled "T" with the selection "S" gives
      "https://a T S". */
  lemma BuildPromptExample(env: Env, url: string, title: string, selection: string)
    requires url == "https://a" && title == "T" && selection == "S"
    ensures BuildPrompt(env, Str(UrlToken + " " + TitleToken + " " + SelectionToken), url, title, Str(selection))
         == "https://a T S"
  {
    BuildPromptFillsInOrder(env, url, title, selection);
  }

  /** A template holding each placeholder once, in pass order, receives the
      three values verbatim, provided the URL and the title contain no `{`
      that a later pass could read as the start of a placeholder. */
  lemma BuildPromptFillsInOrder(env: Env, url: string, title: string, selection: string)
    requires '{' !in url && '{' !in title
    ensures BuildPrompt(env, Str(UrlToken + " " + TitleToken + " " + SelectionToken), url, title, Str(selection))
         == url + " " + title + " " + selection
  {
    var template := UrlToken + " " + TitleToken + " " + SelectionToken;
    assert TemplateText(env, Str(template)) == template;
    assert SelectionText(env, Str(selection)) == selection;
    FillFirst(UrlToken, TitleToken, SelectionToken, url);
    FillSecond(url, TitleToken, SelectionToken, title);
    FillLast(url + " " + title + " ", SelectionToken, selection);
  }

  /** The first pass of a "p q r" template fills p and leaves q and r, which
      depart from p at their second character. */
  lemma FillFirst(p: string, q: string, r: string, v: string)
    requires |p| >= 2 && |q| >= 2 && |r| >= 2 && p[0] != ' '
    requires q[1] != p[1] && r[1] != p[1] && p[0] !in q[1..] && p[0] !in r[1..]
    ensures ReplaceAll(p + " " + q + " " + r, p, v) == v + " " + q + " " + r
  {
    var rest := " " + q + (" " + r);
    SkipTwoSpaced(q, r, p, v);
    ReplaceAllLeading(p, rest, v);
    Regroup(p, " ", q, " ", r);
    Regroup(v, " ", q, " ", r);
  }

  lemma Regroup(a: string, b: string, c: string, d: string, e: string)
    ensures a + b + c + d + e == a + (b + c + (d + e))
  {
  }

  /** " q r" comes through a pass for p unchanged. */
  lemma SkipTwoSpaced(q: string, r: string, p: string, v: string)
    requires |p| >= 2 && |q| >= 2 && |r| >= 2 && p[0] != ' '
    requires q[1] != p[1] && r[1] != p[1] && p[0] !in q[1..] && p[0] !in r[1..]
    ensures ReplaceAll(" " + q + (" " + r), p, v) == " " + q + (" " + r)
  {
    var tail := " " + r;
    SkipSpaced(r, "", p, v);
    assert ReplaceAll("", p, v) == "";
    assert " " + r + "" == tail;
    SkipSpaced(q, tail, p, v);
  }

  /** A space and then a text that departs from p at its second character
      are copied through. */
  lemma SkipSpaced(x: string, t: string, p: string, v: string)
    requires |x| >= 2 && |p| >= 2 && x[1] != p[1] && p[0] !in x[1..] && p[0] != ' '
    ensures ReplaceAll(" " + x + t, p, v) == " " + x + ReplaceAll(t, p, v)
  {
    assert " " + x + t == " " + (x + t);
    ReplaceAllPassesOver(" ", x + t, p, v);
    ReplaceAllPassesNearMiss(x, t, p, v);
  }

  /** The second pass fills q after a text u free of q's first character. */
  lemma FillSecond(u: string, q: string, r: string, v: string)
    requires |q| >= 2 && |r| >= 2 && q[0] != ' ' && q[0] !in u
    requires r[1] != q[1] && q[0] !in r[1..]
    ensures ReplaceAll(u + " " + q + " " + r, q, v) == u + " " + v + " " + r
  {
    var tail := " " + r;
    SkipSpaced(r, "", q, v);
    assert ReplaceAll("", q, v) == "";
    assert " " + r + "" == tail;
    ReplaceAllLeading(q, tail, v);
    assert u + " " + q + " " + r == (u + " ") + (q + tail);
    ReplaceAllPassesOver(u + " ", q + tail, q, v);
  }

  /** The last pass fills r after a text u free of r's first character. */
  lemma FillLast(u: string, r: string, v: string)
    requires r != [] && r[0] !in u
    ensures ReplaceAll(u + r, r, v) == u + v
  {
    var last := r + "";
    assert u + r == u + last;
    ReplaceAllPassesOver(u, last, r, v);
    ReplaceAllLeading(r, "", v);
    var empty := ReplaceAll("", r, v);
    assert empty == "";
    assert u + v == u + (v + empty);
  }

  /** A template without placeholders comes back unchanged. */
  lemma BuildPromptNoPlaceholders(env: Env, template: string, url: string, title: string, selection: JsValue)
    requires Absent(template, UrlToken) && Absent(template, TitleToken) && Absent(template, SelectionToken)
    ensures BuildPrompt(env, Str(template), url, title, selection) == template
  {
    ReplaceAllAbsent(template, UrlToken, url);
    ReplaceAllAbsent(template, TitleToken, title);
    ReplaceAllAbsent(template, SelectionToken, SelectionText(env, selection));
  }

  /** Absence by the first two characters: if every occurrence of the
      pattern's first character is followed by something other than its
      second, the pattern does not occur. */
  lemma AbsentByOpening(s: string, pattern: string)
    requires |pattern| >= 2
    requires forall k :: 0 <= k < |s| - 1 && s[k] == pattern[0] ==> s[k + 1] != pattern[1]
    ensures Absent(s, pattern)
  {
    forall k: nat ensures !OccursAt(s, pattern, k) {
      if k + |pattern| <= |s| {
        var w := s[k..k + |pattern|];
        assert w[0] == s[k] && w[1] == s[k + 1];
      }
    }
  }

  lemma SelectionTokenAbsentOthers()
    ensures Absent(SelectionToken, UrlToken) && Absent(SelectionToken, TitleToken)
  {
    AbsentByOpening(SelectionToken, UrlToken);
    AbsentByOpening(SelectionToken, TitleToken);
  }

  /** The selection value is never rescanned: a `{selection}` template gives
      the selection verbatim, whatever placeholders it contains. */
  lemma SelectionNotRescanned(env: Env, url: string, title: string, selection: string)
    ensures BuildPrompt(env, Str(SelectionToken), url, title, Str(selection)) == selection
  {
    SelectionTokenAbsentOthers();
    ReplaceAllAbsent(SelectionToken, UrlToken, url);
    ReplaceAllAbsent(SelectionToken, TitleToken, title);
    ReplaceAllWhole(SelectionToken, selection);
  }

  /** The URL value is inserted first, so the two later passes do rescan it:
      a `{title}` or `{selection}` inside the page URL is replaced. */
  lemma UrlValueRescanned(env: Env, url: string, title: string, selection: JsValue)
    ensures BuildPrompt(env, Str(UrlToken), url, title, selection)
         == ReplaceAll(ReplaceAll(url, TitleToken, title), SelectionToken, SelectionText(env, selection))
  {
    ReplaceAllWhole(UrlToken, url);
  }

  /** Likewise a `{selection}` inside the page title is replaced, but a `{url}`
      inside it is not. */
  lemma TitleValueRescanned(env: Env, url: string, title: string, selection: JsValue)
    ensures BuildPrompt(env, Str(TitleToken), url, title, selection)
         == ReplaceAll(title, SelectionToken, SelectionText(env, selection))
  {
    AbsentByOpening(TitleToken, UrlToken);
    ReplaceAllAbsent(TitleToken, UrlToken, url);
    ReplaceAllWhole(TitleToken, title);
  }

  /** Without `$` in the substituted values the source computes the literal
      prompt. */
  lemma AsWrittenIsLiteralWithoutDollar(env: Env, template: JsValue, url: string, title: string, selection: JsValue)
    requires '$' !in url && '$' !in title && '$' !in SelectionText(env, selection)
    ensures BuildPromptAsWritten(env, template, url, title, selection)
         == BuildPrompt(env, template, url, title, selection)
  {
    var t := TemplateText(env, template);
    JsReplaceAllLiteral(t, UrlToken, url);
    var a := ReplaceAll(t, UrlToken, url);
    JsReplaceAllLiteral(a, TitleToken, title);
    var b := ReplaceAll(a, TitleToken, title);
    JsReplaceAllLiteral(b, SelectionToken, SelectionText(env, selection));
  }

  /** The discrepancy: selected text "$&" is replaced by the matched
      placeholder, so the prompt reads "{selection}" instead of "$&". */
  lemma AsWrittenExpandsDollar(env: Env)
    ensures BuildPromptAsWritten(env, Str(SelectionToken), "", "", Str("$&")) == SelectionToken
    ensures BuildPrompt(env, Str(SelectionToken), "", "", Str("$&")) == "$&"
  {
    SelectionNotRescanned(env, "", "", "$&");
    SelectionTokenAbsentOthers();
    JsReplaceAllLiteral(SelectionToken, UrlToken, "");
    ReplaceAllAbsent(SelectionToken, UrlToken, "");
    JsReplaceAllLiteral(SelectionToken, TitleToken, "");
    ReplaceAllAbsent(SelectionToken, TitleToken, "");
    JsReplaceAllWhole(SelectionToken, "$&");
    SubstitutionMatched(SelectionToken, "", "");
  }
}
