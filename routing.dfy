/**
 * The pure rules of the chat route: which client and model name a request
 * goes to, the role and text of the system prompt, which models are taken to
 * read images, how a message with an attachment is turned into prompt
 * content, and the status of a failed request.
 *
 * Environment variables are parameters, `""` standing for an unset one.
 */
module Routing {
  import opened Base
  import opened Text
  import opened Forest

  const DEFAULT_MODEL: string := "gpt-5-nano"
  const OPENAI_PREFIX: string := "openai/"
  const ROUTER_KEY_PREFIX: string := "sk-or-"

  datatype Client = OpenAIClient | OpenRouterClient

  /** `model || 'gpt-5-nano'`. */
  function ModelOrDefault(model: string): string {
    if model != "" then model else DEFAULT_MODEL
  }

  /** `s.replace('openai/', '')` on a name that starts with the prefix drops the prefix. */
  lemma StripPrefix(s: string)
    requires StartsWith(s, OPENAI_PREFIX)
    ensures ReplaceFirst(s, OPENAI_PREFIX, "") == s[|OPENAI_PREFIX|..]
  {
    assert s[0..|OPENAI_PREFIX|] == OPENAI_PREFIX;
    FirstAt(s, OPENAI_PREFIX, 0);
  }

  /**
   * The client and final model name for a request. `openaiKey` and
   * `routerKey` are `OPENAI_API_KEY` and `OPENROUTER_API_KEY`.
   */
  function SelectClient(model: string, openaiKey: string, routerKey: string): (r: (Client, string))
    ensures var m, isRouterKey := ModelOrDefault(model), StartsWith(openaiKey, ROUTER_KEY_PREFIX);
      && (m == DEFAULT_MODEL ==> r == (if isRouterKey then OpenRouterClient else OpenAIClient, m))
      && (r.0 == OpenAIClient <==>
            !isRouterKey && (m == DEFAULT_MODEL || (StartsWith(m, OPENAI_PREFIX) && routerKey == "" && openaiKey != "")))
      && r.1 == (if r.0 == OpenAIClient && StartsWith(m, OPENAI_PREFIX) then m[|OPENAI_PREFIX|..] else m)
  {
    var m := ModelOrDefault(model);
    var isRouterKey := StartsWith(openaiKey, ROUTER_KEY_PREFIX);
    assert !StartsWith(DEFAULT_MODEL, OPENAI_PREFIX) by { assert DEFAULT_MODEL[0] != OPENAI_PREFIX[0]; }
    if m == DEFAULT_MODEL then
      (if isRouterKey then OpenRouterClient else OpenAIClient, m)
    else if StartsWith(m, OPENAI_PREFIX) then
      if !isRouterKey && (routerKey != "" || openaiKey == "") then (OpenRouterClient, m)
      else if !isRouterKey then
        StripPrefix(m);
        (OpenAIClient, ReplaceFirst(m, OPENAI_PREFIX, ""))
      else (OpenRouterClient, m)
    else (OpenRouterClient, m)
  }

  /** `finalModel.startsWith('o')`: such models get the `developer` role for the system prompt. */
  function SystemRole(finalModel: string): (r: string)
    ensures r == "developer" || r == "system"
    ensures r == "developer" <==> |finalModel| > 0 && finalModel[0] == 'o'
  {
    if StartsWith(finalModel, "o") then "developer" else "system"
  }

  /**
   * The role test sees the final name: a model kept with its `openai/` prefix
   * (the OpenRouter client) always gets the `developer` role, since the prefix
   * itself starts with `o`; one whose prefix was dropped gets it only when its
   * own name starts with `o`.
   */
  lemma PrefixedRole(name: string, openaiKey: string, routerKey: string)
    ensures var r := SelectClient(OPENAI_PREFIX + name, openaiKey, routerKey);
      SystemRole(r.1) == "developer" <==> r.0 == OpenRouterClient || (|name| > 0 && name[0] == 'o')
  {
    var m := OPENAI_PREFIX + name;
    assert StartsWith(m, OPENAI_PREFIX);
    assert m[|OPENAI_PREFIX|..] == name;
    assert m[0] == 'o';
  }

  // ---------------------------------------------------------------- system prompt

  const BASE_PROMPT: string := "You are a helpful AI assistant. Always format code using markdown code blocks. Specify the programming language after the first set of backticks for proper syntax highlighting."
  const PROJECT_HEADER: string := "\n\nProject Context:\n"
  const SEARCH_HEADER: string := "\n\nYou have access to the following real-time search results to answer the user's question.Base your answer primarily on these results and cite them using [1], [2] etc. \n"

  /** A section of the prompt: the header and the text, or nothing when the text is empty. */
  function Section(header: string, text: string): string {
    if text != "" then header + text else ""
  }

  /** Where the parts of `a + p + q` lie. */
  lemma Parts3(a: string, p: string, q: string)
    ensures var r := a + p + q;
      && StartsWith(r, a) && |r| == |a| + |p| + |q|
      && r[|a|..|a| + |p|] == p && r[|r| - |q|..] == q
  {
    var r := a + p + q;
    assert r[..|a|] == a;
    assert r[|a|..|a| + |p|] == p;
    assert r[|r| - |q|..] == q;
  }

  /** The system prompt: the fixed instructions, then the project instructions, then the search results, each only when non-empty. */
  function SystemPrompt(projectInstructions: string, searchContext: string): (r: string)
    ensures StartsWith(r, BASE_PROMPT)
    ensures |r| == |BASE_PROMPT| + |Section(PROJECT_HEADER, projectInstructions)| + |Section(SEARCH_HEADER, searchContext)|
    ensures r[|BASE_PROMPT|..|BASE_PROMPT| + |Section(PROJECT_HEADER, projectInstructions)|]
      == Section(PROJECT_HEADER, projectInstructions)
    ensures r[|r| - |Section(SEARCH_HEADER, searchContext)|..] == Section(SEARCH_HEADER, searchContext)
  {
    var p, q := Section(PROJECT_HEADER, projectInstructions), Section(SEARCH_HEADER, searchContext);
    Parts3(BASE_PROMPT, p, q);
    BASE_PROMPT + p + q
  }

  /** With neither project instructions nor search results the prompt is the fixed instructions alone. */
  lemma PlainPrompt()
    ensures SystemPrompt("", "") == BASE_PROMPT
  {
    assert BASE_PROMPT + "" + "" == BASE_PROMPT;
  }

  // ---------------------------------------------------------------- vision models

  const VISION_MARKERS: seq<string> :=
    ["gpt-4", "claude-3", "gemini-1.5", "pixtral", "vision", "llama-3.2-90b-vision", "llama-3.2-11b-vision"]

  /** Whether `s` contains one of `pats`. */
  function ContainsAny(s: string, pats: seq<string>): (r: bool)
    ensures r <==> exists i :: 0 <= i < |pats| && Contains(s, pats[i])
  {
    if pats == [] then false
    else if Contains(s, pats[0]) then true
    else
      var r := ContainsAny(s, pats[1..]);
      assert r ==> exists i :: 1 <= i < |pats| && Contains(s, pats[i]) by {
        if r {
          var i :| 0 <= i < |pats[1..]| && Contains(s, pats[1..][i]);
          assert Contains(s, pats[i + 1]);
        }
      }
      r
  }

  /** `isVisionModel`: the lower-cased name contains one of the vision markers. */
  function IsVision(model: string): (r: bool)
    ensures r <==> exists i :: 0 <= i < |VISION_MARKERS| && Contains(ToLower(model), VISION_MARKERS[i])
  {
    ContainsAny(ToLower(model), VISION_MARKERS)
  }

  /** Upper-casing an ASCII name does not change whether it is a vision model. */
  lemma VisionIgnoresCase(model: string)
    requires Ascii(model)
    ensures IsVision(ToUpper(model)) == IsVision(model)
  {
    assert ToLower(ToUpper(model)) == ToLower(model);
  }

  /** A text holding `p` holds every suffix of `p`. */
  lemma SuffixContained(s: string, p: string, q: string)
    requires Contains(s, p) && |q| <= |p| && p[|p| - |q|..] == q
    ensures Contains(s, q)
  {
    var i := IndexOf(s, p);
    assert s[i + |p| - |q|..i + |p|] == s[i..i + |p|][|p| - |q|..];
    assert OccursAt(s, q, i + |p| - |q|);
  }

  /** The two Llama markers add nothing: a name holding either of them holds `vision`. */
  lemma LlamaMarkersSubsumed(s: string)
    requires Contains(s, VISION_MARKERS[5]) || Contains(s, VISION_MARKERS[6])
    ensures Contains(s, VISION_MARKERS[4])
  {
    var p := if Contains(s, VISION_MARKERS[5]) then VISION_MARKERS[5] else VISION_MARKERS[6];
    assert p[|p| - 6..] == VISION_MARKERS[4];
    SuffixContained(s, p, VISION_MARKERS[4]);
  }

  // ---------------------------------------------------------------- attachments

  /** Prompt content: plain text, or a text part and an image part. */
  datatype Content = TextContent(text: string) | WithImage(text: string, imageUrl: string)

  datatype Prompted = Prompted(role: Role, content: Content)

  /** `s || fallback`. */
  function OrElse(s: string, fallback: string): string {
    if s != "" then s else fallback
  }

  const PDF_PREVIEW: nat := 100

  /** The text note for an image sent to a model that may not read it. */
  function ImageNote(name: string, finalModel: string, content: string): string {
    "[Attached Image: " + name + "]\n(Note: The selected model \"" + finalModel
      + "\" might not support direct image analysis. Here is the image metadata.)\n\nUser Message: "
      + OrElse(content, "Please analyze the attached image.")
  }

  /** The text for a PDF: its name and the first 100 characters of its data URL. */
  function PdfNote(name: string, data: string, content: string): string {
    "[Attached PDF: " + name + "]\n(Binary Content provided in Data URL format: " + Take(data, PDF_PREVIEW)
      + "...)\n\nUser Message: " + OrElse(content, "Please analyze the attached PDF.")
  }

  /** The text for any other file: its whole content inlined. */
  function FileNote(name: string, data: string, content: string): string {
    "[Attached File: " + name + "]\n\nContent:\n" + data + "\n\nUser Message: "
      + OrElse(content, "Please analyze the attached file.")
  }

  /** One history message as prompt content for `finalModel`. */
  function MapMessage(m: Message, finalModel: string): (r: Prompted)
    ensures r.role == m.role
    ensures m.attachment.None? ==> r.content == TextContent(m.content)
    ensures r.content.WithImage? <==>
      m.attachment.Some? && StartsWith(m.attachment.value.mime, "image/") && IsVision(finalModel)
    ensures r.content.WithImage? ==>
      r.content == WithImage(OrElse(m.content, "Image description request"), m.attachment.value.content)
  {
    match m.attachment
    case None => Prompted(m.role, TextContent(m.content))
    case Some(a) =>
      if StartsWith(a.mime, "image/") then
        if IsVision(finalModel) then Prompted(m.role, WithImage(OrElse(m.content, "Image description request"), a.content))
        else Prompted(m.role, TextContent(ImageNote(a.name, finalModel, m.content)))
      else if a.mime == "application/pdf" then Prompted(m.role, TextContent(PdfNote(a.name, a.content, m.content)))
      else Prompted(m.role, TextContent(FileNote(a.name, a.content, m.content)))
  }

  /**
   * However large a PDF is, its note carries at most 100 characters of it:
   * two PDFs whose data agree on the first 100 characters give the same prompt.
   */
  lemma PdfPreviewOnly(m: Message, data1: string, data2: string, finalModel: string)
    requires m.attachment.Some? && m.attachment.value.mime == "application/pdf"
    requires Take(data1, PDF_PREVIEW) == Take(data2, PDF_PREVIEW)
    ensures MapMessage(m.(attachment := Some(m.attachment.value.(content := data1))), finalModel)
         == MapMessage(m.(attachment := Some(m.attachment.value.(content := data2))), finalModel)
  {
    assert !StartsWith("application/pdf", "image/") by { assert "application/pdf"[0] != "image/"[0]; }
  }

  /** Other files are inlined whole: the note ends with the data, then the user's question. */
  lemma FileInlined(m: Message, finalModel: string)
    requires m.attachment.Some? && !StartsWith(m.attachment.value.mime, "image/") && m.attachment.value.mime != "application/pdf"
    ensures var t := MapMessage(m, finalModel).content.text;
      var tail := "\n\nUser Message: " + OrElse(m.content, "Please analyze the attached file.");
      var data := m.attachment.value.content;
      |t| >= |data| + |tail| && t[|t| - |tail| - |data|..] == data + tail
  {
    var a := m.attachment.value;
    var head := "[Attached File: " + a.name + "]\n\nContent:\n";
    var tail := "\n\nUser Message: " + OrElse(m.content, "Please analyze the attached file.");
    assert FileNote(a.name, a.content, m.content) == head + a.content + tail;
    Parts3(head, a.content, tail);
    assert (head + a.content + tail)[|head|..] == a.content + tail;
  }

  // ---------------------------------------------------------------- failure

  /** `error.status || 500`: a missing or zero status becomes 500. */
  function ErrorStatus(status: Option<int>): (r: int)
    ensures r != 0
    ensures status.Some? && status.value != 0 ==> r == status.value
    ensures status.None? || status == Some(0) ==> r == 500
  {
    if status.Some? && status.value != 0 then status.value else 500
  }
}
