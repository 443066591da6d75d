/**
 * The language-model client of CodeBridge AI: choosing the endpoint from the
 * provider, classifying a query by regular-expression search, picking the system
 * prompt for its class, and assembling the exact text sent to LM Studio (an
 * OpenAI-style chat request) or Ollama (one prompt string). Sending the request and
 * reading the reply are not modelled: the methods return the request they would send.
 */
module Llm {
  import opened Wrappers
  import opened PyStr
  import opened Patterns
  import Embeddings

  /** The provider name, after lowering, that selects LM Studio; every other name selects Ollama. */
  const LmStudioProvider := "lmstudio"

  const ChatPath := "/v1/chat/completions"
  const GeneratePath := "/api/generate"

  /** The three query classes. */
  const SwiftError := "swift_error"
  const SwiftCode := "swift_code"
  const General := "general"

  /*
   * The classifier's patterns, in the order they are tried. Matching ignores case,
   * so each literal is written in lower case and the query is lowered before the
   * search (ASCII letters only).
   */
  const ErrorPatterns: seq<Pattern> := [
    [Lit("error:")],
    [Lit("warning:")],
    [Lit("cannot find")],
    [Lit("value of type "), AnyRun, Lit(" has no member")],
    [Lit("undeclared type")],
    [Lit("unexpectedly found nil")],
    [Lit("thread "), Digits, Lit(": "), AnyRun, Lit(" error")],
    [Lit("fatal error")],
    [Lit("unresolved identifier")],
    [Lit("expression was too complex")],
    [Lit("failed to build")]
  ]

  const CodePatterns: seq<Pattern> := [
    [Lit("swift")],
    [Lit("xcode")],
    [Lit("ios")],
    [Lit("swiftui")],
    [Lit("uikit")],
    [Lit("cocoa")],
    [Lit("appkit")],
    [Lit("foundation")],
    [Lit("core data")],
    [Lit("watchkit")],
    [Lit("app clip")],
    [Lit("@state")],
    [Lit("@binding")],
    [Lit("@published")],
    [Lit("@environment")],
    [Lit("struct"), AnyRun, Lit(":"), AnyRun, Lit("view")],
    [Lit("func"), AnyRun, Lit("some view")]
  ]

  /** The index of the first pattern found in `s`, as the early-returning loop over the list finds it. */
  function FirstMatch(patterns: seq<Pattern>, s: string): (r: Option<nat>)
    ensures r.Some? ==> r.value < |patterns| && Search(patterns[r.value], s)
    ensures r.Some? ==> forall k :: 0 <= k < r.value ==> !Search(patterns[k], s)
    ensures r.None? <==> forall k :: 0 <= k < |patterns| ==> !Search(patterns[k], s)
  {
    if patterns == [] then None
    else if Search(patterns[0], s) then Some(0)
    else match FirstMatch(patterns[1..], s)
      case None => None
      case Some(k) => Some(k + 1)
  }

  /** Some pattern of the list is found in `s`. */
  predicate AnyFound(patterns: seq<Pattern>, s: string)
  {
    exists k :: 0 <= k < |patterns| && Search(patterns[k], s)
  }

  /**
   * `detect_query_type`: error patterns first, then code patterns, then the default.
   * The class is `swift_error` exactly when an error pattern is found, `swift_code`
   * exactly when no error pattern but a code pattern is found, and `general`
   * exactly when no pattern of either list is found.
   */
  function DetectQueryType(query: string): (tag: string)
    ensures tag == SwiftError || tag == SwiftCode || tag == General
    ensures tag == SwiftError <==> AnyFound(ErrorPatterns, ToLower(query))
    ensures tag == SwiftCode <==> !AnyFound(ErrorPatterns, ToLower(query)) && AnyFound(CodePatterns, ToLower(query))
    ensures tag == General <==> !AnyFound(ErrorPatterns, ToLower(query)) && !AnyFound(CodePatterns, ToLower(query))
  {
    var q := ToLower(query);
    if FirstMatch(ErrorPatterns, q).Some? then SwiftError
    else if FirstMatch(CodePatterns, q).Some? then SwiftCode
    else General
  }

  /** The classification ignores case. */
  lemma DetectIgnoresCase(query: string)
    ensures DetectQueryType(ToLower(query)) == DetectQueryType(query)
  {
    ToLowerIdempotent(query);
  }

  /** Lowering a concatenation lowers each part. */
  lemma ToLowerAppend(a: string, b: string)
    ensures ToLower(a + b) == ToLower(a) + ToLower(b)
  {
  }

  /** `Error:` anywhere in a query, in any mix of cases (`Error:`, `ERROR:`, ...), makes it an error query. */
  lemma ErrorMarkerAnywhere(before: string, marker: string, after: string)
    requires ToLower(marker) == "error:"
    ensures DetectQueryType(before + marker + after) == SwiftError
  {
    var q := ToLower(before + marker + after);
    ToLowerAppend(before + marker, after);
    ToLowerAppend(before, marker);
    assert q == ToLower(before) + "error:" + ToLower(after);
    var i := |before|;
    assert q[i..i + 6] == "error:";
    assert [Lit("error:")][1..] == [];
    assert MatchAt([Lit("error:")], q, i);
    assert ErrorPatterns[0] == [Lit("error:")];
    FoundAnywhere(ErrorPatterns[0], q, i);
    assert AnyFound(ErrorPatterns, q);
  }

  /**
   * `SwiftUI` anywhere in a query, in any mix of cases, makes it a code query unless
   * an error pattern catches the query first.
   */
  lemma SwiftUIAnywhere(before: string, marker: string, after: string)
    requires ToLower(marker) == "swiftui"
    requires !AnyFound(ErrorPatterns, ToLower(before + marker + after))
    ensures DetectQueryType(before + marker + after) == SwiftCode
  {
    var q := ToLower(before + marker + after);
    ToLowerAppend(before + marker, after);
    ToLowerAppend(before, marker);
    assert q == ToLower(before) + "swiftui" + ToLower(after);
    var i := |before|;
    assert q[i..i + 7] == "swiftui";
    assert [Lit("swiftui")][1..] == [];
    assert MatchAt([Lit("swiftui")], q, i);
    assert CodePatterns[3] == [Lit("swiftui")];
    FoundAnywhere(CodePatterns[3], q, i);
    assert AnyFound(CodePatterns, q);
  }

  const SwiftErrorPrompt :=
      "You are CodeBridge AI, an expert Swift and "
    + "iOS development assistant specializing in "
    + "debugging and error resolution.\n"
    + "\n"
    + "You help developers understand and fix "
    + "errors in their Swift code. When analyzing "
    + "an error:\n"
    + "1. Clearly identify the error type and root "
    + "cause\n"
    + "2. Provide a step-by-step solution with "
    + "clear explanations\n"
    + "3. Include example code that solves the "
    + "problem\n"
    + "4. Suggest ways to avoid similar issues in "
    + "the future\n"
    + "\n"
    + "Use the provided context to provide "
    + "accurate solutions specific to Swift, "
    + "SwiftUI, and UIKit development.\n"
    + "If you're not completely sure of a "
    + "solution, mention alternatives and explain "
    + "the tradeoffs.\n"
    + "Always format Swift code properly using "
    + "Swift syntax conventions."

  const SwiftCodePrompt :=
      "You are CodeBridge AI, an expert Swift and "
    + "iOS development assistant.\n"
    + "\n"
    + "You help developers write clean, efficient, "
    + "and modern Swift code. When providing code:\n"
    + "1. Follow Swift best practices and "
    + "conventions\n"
    + "2. Write code that's easy to maintain and "
    + "debug\n"
    + "3. Provide explanations for non-obvious "
    + "parts\n"
    + "4. Consider performance and memory "
    + "implications\n"
    + "5. Use modern Swift features and APIs when "
    + "appropriate\n"
    + "\n"
    + "Use the provided context to provide "
    + "accurate and effective Swift code "
    + "solutions.\n"
    + "Include helpful comments to explain the "
    + "code's functionality.\n"
    + "Format Swift code properly using Swift "
    + "syntax conventions."

  const GeneralPrompt :=
      "You are CodeBridge AI, a helpful coding "
    + "assistant specializing in software "
    + "development.\n"
    + "\n"
    + "Answer the following question using the "
    + "provided context. \n"
    + "If the context doesn't contain relevant "
    + "information, say so and provide general "
    + "guidance.\n"
    + "Always include example code when "
    + "appropriate."

  /** The prompts have different lengths, so no two of them are equal. */
  lemma PromptLengths()
    ensures |SwiftErrorPrompt| == 686 && |SwiftCodePrompt| == 605 && |GeneralPrompt| == 283
  {
  }

  /**
   * `get_system_prompt`: total, with one prompt per class; every tag other than the
   * two Swift ones gets the general prompt, and the three prompts differ.
   */
  function GetSystemPrompt(queryType: string): (prompt: string)
    ensures prompt == SwiftErrorPrompt <==> queryType == SwiftError
    ensures prompt == SwiftCodePrompt <==> queryType == SwiftCode
    ensures prompt == GeneralPrompt <==> queryType != SwiftError && queryType != SwiftCode
  {
    PromptLengths();
    if queryType == SwiftError then SwiftErrorPrompt
    else if queryType == SwiftCode then SwiftCodePrompt
    else GeneralPrompt
  }

  /** The `source` recorded with a retrieved chunk, shown without `.txt`. */
  function SourceLabel(source: string): string
  {
    Replace(source, ".txt", "")
  }

  /** The block for the `i`-th retrieved chunk (counted from 0, shown from 1). */
  function ContextBlock(i: nat, item: Embeddings.Hit): string
  {
    "\n--- Context " + NatToString(i + 1) + " (Source: " + SourceLabel(item.metadata.source) + ") ---\n" + item.text + "\n"
  }

  /** The context text for the retrieved chunks: their blocks, numbered in order, one after another. */
  function ContextText(context: seq<Embeddings.Hit>): string
  {
    Join(seq(|context|, i requires 0 <= i < |context| => ContextBlock(i, context[i])), "")
  }

  /** Joining with the empty separator: one more part adds its text at the end. */
  lemma ConcatSnoc(parts: seq<string>, part: string)
    ensures Join(parts + [part], "") == Join(parts, "") + part
  {
    if parts == [] {
      assert parts + [part] == [part];
    } else {
      JoinLast(parts + [part], "");
      assert (parts + [part])[..|parts|] == parts;
    }
  }

  /** No retrieved chunk, no context text. */
  lemma ContextTextEmpty()
    ensures ContextText([]) == ""
  {
  }

  /** One more retrieved chunk adds one block, numbered after the others, at the end. */
  lemma ContextTextSnoc(context: seq<Embeddings.Hit>, item: Embeddings.Hit)
    ensures ContextText(context + [item]) == ContextText(context) + ContextBlock(|context|, item)
  {
    var c := context + [item];
    var blocks := seq(|c|, i requires 0 <= i < |c| => ContextBlock(i, c[i]));
    var prefix := seq(|context|, i requires 0 <= i < |context| => ContextBlock(i, context[i]));
    assert blocks == prefix + [ContextBlock(|context|, item)];
    ConcatSnoc(prefix, ContextBlock(|context|, item));
  }

  /** The context-building loop of `generate_response`, which extends the text with `+=`. */
  method BuildContextText(context: seq<Embeddings.Hit>) returns (contextText: string)
    ensures contextText == ContextText(context)
  {
    contextText := "";
    for i := 0 to |context|
      invariant contextText == ContextText(context[..i])
    {
      ContextTextSnoc(context[..i], context[i]);
      assert context[..i + 1] == context[..i] + [context[i]];
      contextText := contextText + ContextBlock(i, context[i]);
    }
    assert context[..|context|] == context;
  }

  /** One chat message of an OpenAI-style request. */
  datatype Message = Message(role: string, content: string)

  /** What the engine posts: a chat request to LM Studio or a generate request to Ollama. */
  datatype Request =
    | ChatRequest(endpoint: string, model: string, messages: seq<Message>, temperature: real, maxTokens: nat, stream: bool)
    | GenerateRequest(endpoint: string, model: string, prompt: string, stream: bool)

  const Temperature: real := 0.7
  const MaxTokens: nat := 2000

  const ContextHeader := "Here is the relevant context:\n"
  const QuestionLabel := "\n\nQuestion: "
  const AnswerCue := "\n\nAnswer:"

  /**
   * The user message sent to LM Studio with the retrieved context: the header, then
   * exactly the context text, then the question label, then exactly the query.
   */
  function ContextUserMessage(contextText: string, query: string): (m: string)
    ensures var c := |ContextHeader|; var q := c + |contextText|;
      |m| == q + |QuestionLabel| + |query| &&
      m[..c] == ContextHeader && m[c..q] == contextText &&
      m[q..q + |QuestionLabel|] == QuestionLabel && m[q + |QuestionLabel|..] == query
  {
    ContextHeader + contextText + QuestionLabel + query
  }

  /**
   * The single prompt sent to Ollama with the retrieved context: the system prompt,
   * a blank line, exactly the context text, the question label, exactly the query, and
   * the `Answer:` cue.
   */
  function ContextPrompt(systemPrompt: string, contextText: string, query: string): (p: string)
    ensures var c := |systemPrompt| + 2; var q := c + |contextText| + |QuestionLabel|; var a := q + |query|;
      |p| == a + |AnswerCue| &&
      p[..c] == systemPrompt + "\n\n" && p[c..c + |contextText|] == contextText &&
      p[c + |contextText|..q] == QuestionLabel && p[q..a] == query && p[a..] == AnswerCue
  {
    var body := systemPrompt + "\n\n" + contextText;
    var p := body + QuestionLabel + query + AnswerCue;
    assert p[..|body|] == body;
    p
  }

  const XcodeSystemPrompt :=
      "You are CodeBridge AI, an expert Swift and "
    + "iOS development assistant specializing in "
    + "debugging Xcode errors.\n"
    + "\n"
    + "Analyze the provided Xcode error message "
    + "and code context to:\n"
    + "1. Identify the exact error and its root "
    + "cause\n"
    + "2. Explain why this error is occurring\n"
    + "3. Provide a complete, working solution "
    + "with code examples\n"
    + "4. Suggest how to avoid this error in the "
    + "future\n"
    + "\n"
    + "Be specific and precise in your analysis "
    + "and solution."

  const XcodeErrorHeader := "Xcode Error Message:\n"
  const HelpRequest := "Please help me fix this error. Provide a complete solution with code examples."

  /** Python's truth value of the optional code context: present and non-empty. */
  predicate Truthy(codeContext: Option<string>)
  {
    codeContext.Some? && codeContext.value != ""
  }

  /** The fenced Swift block for a code context. */
  function CodeBlock(code: string): string
  {
    "Code Context:\n```swift\n" + code + "\n```\n\n"
  }

  /** The user content for an Xcode error: the error, the code block when there is code, the request. */
  function XcodeUserContent(errorMessage: string, codeContext: Option<string>): string
  {
    XcodeErrorHeader + errorMessage + "\n\n"
      + (if Truthy(codeContext) then CodeBlock(codeContext.value) else "")
      + HelpRequest
  }

  /**
   * The Xcode user content always opens with the error and closes with the request;
   * between them is exactly the code block when the code context is truthy, and
   * nothing otherwise.
   */
  lemma XcodeUserContentShape(errorMessage: string, codeContext: Option<string>)
    ensures var u := XcodeUserContent(errorMessage, codeContext);
      var head := XcodeErrorHeader + errorMessage + "\n\n";
      |head| + |HelpRequest| <= |u| &&
      u[..|head|] == head &&
      u[|u| - |HelpRequest|..] == HelpRequest &&
      u[|head|..|u| - |HelpRequest|] == (if Truthy(codeContext) then CodeBlock(codeContext.value) else "")
  {
    var u := XcodeUserContent(errorMessage, codeContext);
    var head := XcodeErrorHeader + errorMessage + "\n\n";
    var middle := if Truthy(codeContext) then CodeBlock(codeContext.value) else "";
    assert u == head + middle + HelpRequest;
    assert u[..|head|] == head;
    assert u[|u| - |HelpRequest|..] == HelpRequest;
    assert u[|head|..|u| - |HelpRequest|] == middle;
  }

  /** The `+=` construction of the user content in `generate_response_for_xcode_error`. */
  method BuildXcodeUserContent(errorMessage: string, codeContext: Option<string>) returns (userContent: string)
    ensures userContent == XcodeUserContent(errorMessage, codeContext)
  {
    userContent := XcodeErrorHeader + errorMessage + "\n\n";
    if codeContext.Some? && codeContext.value != "" {
      userContent := userContent + CodeBlock(codeContext.value);
    }
    userContent := userContent + HelpRequest;
  }

  /** The LLM client. Every field is set once, by the constructor. */
  class LlmEngine {
    const modelName: string
    const provider: string
    const lmStudioBaseUrl: string
    const ollamaBaseUrl: string
    const apiEndpoint: string

    /**
     * The provider is stored lowercased; exactly `lmstudio` selects LM Studio's chat
     * endpoint, and every other value selects Ollama's generate endpoint.
     */
    constructor (modelName: string, provider: string, lmStudioBaseUrl: string, ollamaBaseUrl: string)
      ensures this.modelName == modelName
      ensures this.provider == ToLower(provider)
      ensures this.lmStudioBaseUrl == lmStudioBaseUrl && this.ollamaBaseUrl == ollamaBaseUrl
      ensures this.provider == LmStudioProvider ==> apiEndpoint == lmStudioBaseUrl + ChatPath
      ensures this.provider != LmStudioProvider ==> apiEndpoint == ollamaBaseUrl + GeneratePath
    {
      this.modelName := modelName;
      this.provider := ToLower(provider);
      this.lmStudioBaseUrl := lmStudioBaseUrl;
      this.ollamaBaseUrl := ollamaBaseUrl;
      if ToLower(provider) == LmStudioProvider {
        apiEndpoint := lmStudioBaseUrl + ChatPath;
      } else {
        apiEndpoint := ollamaBaseUrl + GeneratePath;
      }
    }

    /** The request posted for `system` and `user` text: two chat messages, or one prompt ending in `Answer:`. */
    function RequestFor(systemPrompt: string, userText: string): (r: Request)
      ensures r.endpoint == apiEndpoint && r.model == modelName
      ensures r.ChatRequest? <==> provider == LmStudioProvider
    {
      if provider == LmStudioProvider then
        ChatRequest(apiEndpoint, modelName, [Message("system", systemPrompt), Message("user", userText)], Temperature, MaxTokens, false)
      else
        GenerateRequest(apiEndpoint, modelName, systemPrompt + "\n\n" + userText + AnswerCue, false)
    }

    /**
     * The request `generate_response` posts: the query's class picks the system
     * prompt, and the numbered context blocks go into the user message (LM Studio)
     * or between the system prompt and the question (Ollama).
     */
    method GenerateResponseRequest(query: string, context: seq<Embeddings.Hit>) returns (r: Request)
      ensures var systemPrompt := GetSystemPrompt(DetectQueryType(query));
        var contextText := ContextText(context);
        if provider == LmStudioProvider then
          r == ChatRequest(apiEndpoint, modelName,
                 [Message("system", systemPrompt), Message("user", ContextUserMessage(contextText, query))],
                 Temperature, MaxTokens, false)
        else
          r == GenerateRequest(apiEndpoint, modelName, ContextPrompt(systemPrompt, contextText, query), false)
    {
      var contextText := BuildContextText(context);
      var queryType := DetectQueryType(query);
      var systemPrompt := GetSystemPrompt(queryType);
      if provider == LmStudioProvider {
        r := ChatRequest(apiEndpoint, modelName,
               [Message("system", systemPrompt), Message("user", ContextUserMessage(contextText, query))],
               Temperature, MaxTokens, false);
      } else {
        r := GenerateRequest(apiEndpoint, modelName, ContextPrompt(systemPrompt, contextText, query), false);
      }
    }

    /** The request `generate_response_for_xcode_error` posts: the fixed Xcode prompt and the user content. */
    method XcodeErrorRequest(errorMessage: string, codeContext: Option<string>) returns (r: Request)
      ensures r == RequestFor(XcodeSystemPrompt, XcodeUserContent(errorMessage, codeContext))
    {
      var userContent := BuildXcodeUserContent(errorMessage, codeContext);
      if provider == LmStudioProvider {
        r := ChatRequest(apiEndpoint, modelName,
               [Message("system", XcodeSystemPrompt), Message("user", userContent)],
               Temperature, MaxTokens, false);
      } else {
        r := GenerateRequest(apiEndpoint, modelName, XcodeSystemPrompt + "\n\n" + userContent + AnswerCue, false);
      }
    }
  }
}
