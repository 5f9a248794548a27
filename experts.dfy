/** The three domain experts (`HTMLAccessibilityExpert`,
    `CSSAccessibilityExpert`, `JavaScriptAccessibilityExpert`). Their
    `_generate_fix` methods differ only in the prompt text, which the persona
    tag of the request stands for; the handling of the reply is one function. */
module Experts {
  import opened Wrappers
  import opened Json
  import opened Oracles

  /** What `.get` raises on a parsed reply that is not a dictionary. */
  const NotADictMessage: string := "object has no attribute 'get'"

  /** A fix record: `{'success': True, 'fixed_code', 'explanation',
      'additional_notes', 'issue'}` or `{'success': False, 'error', 'issue'}`. */
  datatype FixResult =
    | Fixed(fixedCode: Value, explanation: Value, notes: Value, issue: Record)
    | FixFailed(error: string, issue: Record)

  /** `fix.get('success', False)`. */
  predicate Succeeded(f: FixResult) {
    f.Fixed?
  }

  /** The request: the issue's description, WCAG reference, located snippet
      and recommendation, each defaulting to ''. */
  function FixPrompt(persona: Persona, issue: Record): Prompt {
    FixRequest(persona, Field(issue, "description", Str("")), Field(issue, "wcag", Str("")),
               Field(issue, "code_snippet", Str("")), Field(issue, "recommendation", Str("")))
  }

  /** The result logic shared by the three experts: a parsed dictionary is
      unpacked with `.get`, and every failure (request, parse, or a reply
      that is not a dictionary) becomes a failure record. */
  function FixFromReply(reply: Outcome<Value>, issue: Record): (r: FixResult)
    ensures r.issue == issue
    ensures r.Fixed? <==> reply.Returned? && reply.value.Obj?
    ensures r.Fixed? ==> r.fixedCode == Field(reply.value.fields, "fixed_code", Null) &&
                         r.explanation == Field(reply.value.fields, "explanation", Null) &&
                         r.notes == Field(reply.value.fields, "additional_notes", Null)
    ensures reply.Raised? ==> r.error == reply.message
  {
    match reply
    case Raised(m) => FixFailed(m, issue)
    case Returned(v) =>
      if v.Obj? then
        Fixed(Field(v.fields, "fixed_code", Null), Field(v.fields, "explanation", Null),
              Field(v.fields, "additional_notes", Null), issue)
      else FixFailed(NotADictMessage, issue)
  }

  /** `_generate_fix` of the expert named by `persona`; it never raises. The
      file content it is also given is never read, so it is not a parameter. */
  function GenerateFix(o: Answers, persona: Persona, issue: Record): FixResult {
    FixFromReply(o(FixPrompt(persona, issue)), issue)
  }

  /** Only the four prompt fields of an issue influence the fix; the rest of
      the issue is merely echoed back. */
  lemma FixSeesOnlyPromptFields(o: Answers, persona: Persona, i1: Record, i2: Record)
    requires FixPrompt(persona, i1) == FixPrompt(persona, i2)
    ensures GenerateFix(o, persona, i1).(issue := i2) == GenerateFix(o, persona, i2)
  {
  }

  /** The experts are interchangeable: given the same reply, any two of them
      produce the same record. */
  lemma ExpertsAgree(o: Answers, p1: Persona, p2: Persona, issue: Record)
    requires o(FixPrompt(p1, issue)) == o(FixPrompt(p2, issue))
    ensures GenerateFix(o, p1, issue) == GenerateFix(o, p2, issue)
  {
  }
}
