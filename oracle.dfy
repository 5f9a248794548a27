/** The language model behind every agent, seen from the pipeline: a prompt
    goes in, text or an exception comes out, and the text is stripped,
    unfenced and handed to `json.loads`. Prompt wording is not modelled; a
    prompt is the tuple of values the agent substitutes into its template. */
module Oracles {
  import opened Wrappers
  import opened Json
  import opened Text
  import opened Fence

  /** The three domain experts; they differ only in their prompt text. */
  datatype Persona = Html | Css | Js

  /** The `name` each expert agent is constructed with. */
  function PersonaName(p: Persona): string {
    match p
    case Html => "HTMLAccessibilityExpert"
    case Css => "CSSAccessibilityExpert"
    case Js => "JavaScriptAccessibilityExpert"
  }

  /** The substitutions of each agent's prompt template. */
  datatype Prompt =
    | AnalysisRequest(filePath: string, content: string)
    | LocationRequest(description: Value, wcag: Value, recommendation: Value, line: Value, content: string)
    | FixRequest(persona: Persona, description: Value, wcag: Value, codeSnippet: Value, recommendation: Value)
    | ReviewRequest(description: Value, wcag: Value, severity: Value, originalCode: Value,
                    fixedCode: Value, explanation: Value)

  /** `chain.invoke` (which may raise) and `json.loads` (which may raise). */
  datatype Oracle = Oracle(ask: Prompt -> Outcome<string>, parse: string -> Outcome<Value>)

  /** The request-and-parse sequence every agent repeats: invoke, strip the
      reply, drop a Markdown fence, parse. */
  function Consult(o: Oracle, p: Prompt): Outcome<Value> {
    match o.ask(p)
    case Raised(m) => Raised(m)
    case Returned(text) => o.parse(StripFence(Strip(text)))
  }

  /** What an agent sees of an oracle: the parsed answer to each prompt. The
      agents are written against this, so that their proofs never look
      inside the reply cleaning. */
  type Answers = Prompt -> Outcome<Value>

  function Answered(o: Oracle): Answers {
    p => Consult(o, p)
  }

  /** A failed request is reported as it came, and an unfenced reply is
      parsed once stripped. */
  lemma ConsultPlainReply(o: Oracle, p: Prompt)
    ensures o.ask(p).Raised? ==> Consult(o, p) == Raised(o.ask(p).message)
    ensures o.ask(p).Returned? && !StartsWith(Strip(o.ask(p).value), Backticks) ==>
              Consult(o, p) == o.parse(Strip(o.ask(p).value))
  {
  }

  /** Text that neither starts nor ends with white space is left alone by
      `strip()`. */
  lemma StripKeeps(s: string)
    requires s != [] && !IsSpace(s[0]) && !IsSpace(s[|s| - 1])
    ensures Strip(s) == s
  {
    assert IsSpace(s[0]) || |TrimStart(s)| == |s|;
    assert IsSpace(s[|s| - 1]) || |TrimEnd(s)| == |s|;
  }

  /** A reply wrapped as a fenced `json` block reaches the parser as exactly
      the block's body. */
  lemma {:induction false} ConsultFencedReply(o: Oracle, p: Prompt, body: string)
    requires TickFree(body)
    requires o.ask(p) == Returned(Backticks + "json" + body + Backticks)
    ensures Consult(o, p) == o.parse(body)
  {
    var t := Backticks + "json" + body + Backticks;
    assert t[0] == '`' && t[|t| - 1] == '`';
    StripKeeps(t);
    FencedJsonYieldsBody(body, []);
    assert t + [] == t;
  }
}
