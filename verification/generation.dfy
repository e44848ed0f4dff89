/** `generate_response`: build a prompt from the retrieved knowledge and the query and hand it
    to the language model, answering a fixed message when anything goes wrong. The model's
    `get_response` is a parameter that either answers or raises. */
module Generation {
  import opened Wrappers
  import opened Text

  /** The context used when nothing was retrieved. */
  const NoContext: string := "No additional context available."
  /** The answer when building the prompt or asking the model raises. */
  const GenerationFailed: string := "Error generating response"

  const PromptHead: string := "Context: "
  const QuestionMark: string := "\n\nQuestion: "
  const AnswerMark: string := "\n\nAnswer:"

  /** `"\n".join(knowledge) if knowledge else "No additional context available."` */
  function Context(knowledge: seq<string>): (c: string)
    ensures |knowledge| == 0 ==> c == NoContext
    ensures |knowledge| > 0 ==> c == Join(knowledge, "\n")
    ensures |knowledge| > 0 && (forall i :: 0 <= i < |knowledge| ==> '\n' !in knowledge[i]) ==>
      Split(c, '\n') == knowledge
  {
    if |knowledge| == 0 then NoContext
    else
      SplitJoinLines(knowledge);
      Join(knowledge, "\n")
  }

  lemma SplitJoinLines(parts: seq<string>)
    ensures |parts| >= 1 && (forall i :: 0 <= i < |parts| ==> '\n' !in parts[i]) ==>
      Split(Join(parts, "\n"), '\n') == parts
  {
    if |parts| >= 1 && (forall i :: 0 <= i < |parts| ==> '\n' !in parts[i]) {
      assert "\n" == ['\n'];
      SplitJoin(parts, '\n');
    }
  }

  /** `f"Context: {context}\n\nQuestion: {query}\n\nAnswer:"`: the context and the query sit at
      fixed places between the three markers. */
  function Prompt(context: string, query: string): (p: string)
    ensures |p| == |PromptHead| + |context| + |QuestionMark| + |query| + |AnswerMark|
    ensures p[..|PromptHead|] == PromptHead
    ensures p[|PromptHead|..|PromptHead| + |context|] == context
    ensures p[|PromptHead| + |context|..|PromptHead| + |context| + |QuestionMark|] == QuestionMark
    ensures p[|p| - |AnswerMark| - |query|..|p| - |AnswerMark|] == query
    ensures p[|p| - |AnswerMark|..] == AnswerMark
  {
    PromptHead + context + QuestionMark + query + AnswerMark
  }

  /** With the context fixed, different queries give different prompts, and with the query
      fixed, different contexts give different prompts. */
  lemma PromptInjective(c1: string, q1: string, c2: string, q2: string)
    requires Prompt(c1, q1) == Prompt(c2, q2)
    ensures c1 == c2 ==> q1 == q2
    ensures q1 == q2 ==> c1 == c2
  {
    var p := Prompt(c1, q1);
    if c1 == c2 {
      assert |q1| == |q2|;
      assert q1 == p[|p| - |AnswerMark| - |q1|..|p| - |AnswerMark|] == q2;
    }
    if q1 == q2 {
      assert |c1| == |c2|;
      assert c1 == p[|PromptHead|..|PromptHead| + |c1|] == c2;
    }
  }

  /** The model's `get_response`: an answer, or `None` when it raises. */
  type LanguageModel = string -> Option<string>

  /** `generate_response(query, knowledge, transformer_model)`. */
  function GenerateResponse(query: string, knowledge: seq<string>, model: LanguageModel): (r: string)
    ensures model(Prompt(Context(knowledge), query)).Some? ==>
      r == model(Prompt(Context(knowledge), query)).value
    ensures model(Prompt(Context(knowledge), query)).None? ==> r == GenerationFailed
  {
    match model(Prompt(Context(knowledge), query))
    case Some(answer) => answer
    case None => GenerationFailed
  }

  /** The model sees the retrieved passages, one per line, between the context marker and the
      question, and the query right after the question marker. */
  lemma PromptCarriesKnowledge(query: string, knowledge: seq<string>)
    requires |knowledge| > 0 && forall i :: 0 <= i < |knowledge| ==> '\n' !in knowledge[i]
    ensures var p := Prompt(Context(knowledge), query);
      var c := Context(knowledge);
      Split(p[|PromptHead|..|PromptHead| + |c|], '\n') == knowledge
  {
  }

  /** An empty knowledge list and a single retrieved passage reading "No additional context
      available." produce the same prompt: the model cannot tell the two apart. */
  lemma NoKnowledgeLooksLikeOnePassage(query: string)
    ensures Prompt(Context([]), query) == Prompt(Context([NoContext]), query)
  {
  }
}
