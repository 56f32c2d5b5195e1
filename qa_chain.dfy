/**
 * The control logic of the question-answering chain: the table of
 * instruction blocks per question type, the prompt composed around a block,
 * the lazily created retrieval chain that `clear_memory` discards, and the
 * shape of the answer (an error message, or the answer with its sources).
 *
 * The retrieval chain itself (retriever, language model, memory update) is
 * the parameter `run`: given the prompt, the conversation so far and the
 * question, it answers with a text and the source documents, or raises.
 */
module QaChain {
  import opened Text
  import opened JsonValue

  // ---------------------------------------------------------------------------
  // Prompts
  // ---------------------------------------------------------------------------

  /** `question_type_prompts`: the instruction block for each question type. */
  const QuestionTypePrompts: map<string, string> := map[
    "factual" :=
      "请基于以下文档内容回答问题，同时可以结合你的知识进行补充说明。\n            1. 首先使用文档中明确提到的信息作为主要依据\n            2. 如果文档信息不足，可以补充你的相关知识\n            3. 如果使用了自己的知识，请明确标注\"补充说明：\"\n            4. 确保回答准确、完整、有深度",
    "inferential" :=
      "请基于以下文档内容进行推理分析，并结合你的知识进行深入解读。\n            1. 使用文档内容作为推理的基础\n            2. 结合你的知识进行合理的延伸和解释\n            3. 区分文档中的信息和你的推理\n            4. 提供有深度的分析和见解",
    "summary" :=
      "请对以下文档内容进行总结，并加入你的专业见解。\n            1. 提取文档中的关键信息\n            2. 补充相关的背景知识\n            3. 提供专业的分析和建议\n            4. 确保总结全面且有深度",
    "comparison" :=
      "请比较以下文档内容中的不同观点或方法，并加入你的专业分析。\n            1. 基于文档内容进行对比\n            2. 补充相关的专业知识和经验\n            3. 提供深入的分析和见解\n            4. 给出专业的建议和结论",
    "definition" :=
      "请解释以下文档内容中的概念或术语，并补充相关知识。\n            1. 使用文档中的定义作为基础\n            2. 补充相关的专业解释和例子\n            3. 提供更广泛的应用场景\n            4. 确保解释准确且易于理解",
    "procedural" :=
      "请详细说明以下文档内容中描述的过程或步骤，并补充最佳实践。\n            1. 基于文档内容描述基本流程\n            2. 补充相关的专业经验和技巧\n            3. 提供实用的建议和注意事项\n            4. 确保说明清晰且可操作",
    "opinion" :=
      "请分析以下文档内容中的观点和论证，并提供专业的见解。\n            1. 基于文档内容分析主要观点\n            2. 补充相关的专业知识和经验\n            3. 提供深入的分析和评价\n            4. 给出专业的建议和结论"
  ]

  /** The question type `_get_qa_prompt` and the lookup fall back to. */
  const DefaultQuestionType: string := "factual"

  /** `question_type_prompts.get(question_type, question_type_prompts["factual"])`. */
  function InstructionBlock(questionType: string): (b: string)
    ensures b in QuestionTypePrompts.Values
    ensures questionType in QuestionTypePrompts ==> b == QuestionTypePrompts[questionType]
    ensures questionType !in QuestionTypePrompts ==> b == QuestionTypePrompts[DefaultQuestionType]
  {
    if questionType in QuestionTypePrompts then QuestionTypePrompts[questionType]
    else QuestionTypePrompts[DefaultQuestionType]
  }

  /** A question type outside the table is answered with the `factual` prompt. */
  lemma UnknownTypeUsesFactual(questionType: string)
    requires questionType !in QuestionTypePrompts
    ensures GetQaPrompt(questionType) == GetQaPrompt(DefaultQuestionType)
  {
  }

  /** The literal pieces of the f-string around the block and the two
      placeholders, which its doubled braces leave for the chain to fill. */
  const PromptLead: string := "\n        "
  const ContextLabel: string := "\n        \n        文档内容：\n        "
  const ContextPlaceholder: string := "{context}"
  const QuestionLabel: string := "\n        \n        问题："
  const QuestionPlaceholder: string := "{question}"
  const PromptClosing: string := "\n        \n        请基于文档内容回答问题，同时可以结合你的知识进行补充说明。\n        回答时请：\n        1. 首先引用相关的文档内容作为支持\n        2. 然后可以补充你的专业知识和见解\n        3. 如果使用了自己的知识，请明确标注\"补充说明：\"\n        4. 确保回答准确、完整、有深度\n        "

  /** Where `{context}` starts in the prompt built around `block`. */
  function ContextOffset(block: string): nat
  {
    |PromptLead| + |block| + |ContextLabel|
  }

  /** Where `{question}` starts in the prompt built around `block`. */
  function QuestionOffset(block: string): nat
  {
    ContextOffset(block) + |ContextPlaceholder| + |QuestionLabel|
  }

  /** `_get_qa_prompt(question_type)`: the chosen block, then the literal
      placeholder `{context}`, then the literal placeholder `{question}`. */
  function GetQaPrompt(questionType: string): (p: string)
    ensures var block := InstructionBlock(questionType);
      && OccursAt(p, block, |PromptLead|)
      && OccursAt(p, ContextPlaceholder, ContextOffset(block))
      && OccursAt(p, QuestionPlaceholder, QuestionOffset(block))
      && |PromptLead| + |block| < ContextOffset(block)
      && ContextOffset(block) + |ContextPlaceholder| < QuestionOffset(block)
  {
    var block := InstructionBlock(questionType);
    var p := PromptLead + block + ContextLabel + ContextPlaceholder + QuestionLabel + QuestionPlaceholder + PromptClosing;
    assert p[|PromptLead|..|PromptLead| + |block|] == block;
    assert p[ContextOffset(block)..ContextOffset(block) + |ContextPlaceholder|] == ContextPlaceholder;
    assert p[QuestionOffset(block)..QuestionOffset(block) + |QuestionPlaceholder|] == QuestionPlaceholder;
    p
  }

  // ---------------------------------------------------------------------------
  // Answers
  // ---------------------------------------------------------------------------

  /** A retrieved document: its text and its metadata. */
  datatype Document = Document(pageContent: string, metadata: map<string, Json>)

  /** One entry of `sources` in a successful answer. */
  datatype Source = Source(content: string, metadata: map<string, Json>, relevanceScore: Json)

  /** The dictionary `answer_question` returns: `status="success"` with the
      answer and its sources, or `status="error"` with a message. */
  datatype Answer = Success(answer: string, sources: seq<Source>) | Error(message: string)

  /** One exchange kept in the conversation memory. */
  datatype Turn = Turn(question: string, answer: string)

  /** What calling the retrieval chain yields: the answer with its source
      documents, or a raised exception with its `str(e)`. */
  datatype ChainResult = ChainAnswered(answer: string, sourceDocuments: seq<Document>) | ChainRaised(error: string)

  /** The retrieval chain: prompt, conversation so far and question to result. */
  type ChainRun = (string, seq<Turn>, string) -> ChainResult

  const EmptyKnowledgeBaseMessage: string := "知识库为空，请先添加文档"
  const ErrorPrefix: string := "回答问题时出错: "

  /** The source entry for one document: its text and metadata, and the
      metadata's `score`, or 0 when there is none. */
  function ToSource(doc: Document): (s: Source)
    ensures s.content == doc.pageContent && s.metadata == doc.metadata
    ensures "score" in doc.metadata ==> s.relevanceScore == doc.metadata["score"]
    ensures "score" !in doc.metadata ==> s.relevanceScore == JNumber(0.0)
  {
    Source(doc.pageContent, doc.metadata, Get(doc.metadata, "score", JNumber(0.0)))
  }

  /** The `sources` list: one entry per source document, in the same order. */
  function PackageSources(docs: seq<Document>): (sources: seq<Source>)
    ensures |sources| == |docs|
    ensures forall i :: 0 <= i < |docs| ==> sources[i] == ToSource(docs[i])
  {
    seq(|docs|, i requires 0 <= i < |docs| => ToSource(docs[i]))
  }

  /** The answer `answer_question` builds from what the chain yielded: the
      success dictionary, or an error message with the fixed prefix. */
  function AnswerFrom(result: ChainResult): (r: Answer)
    ensures r.Success? <==> result.ChainAnswered?
    ensures r.Success? ==> r.answer == result.answer && |r.sources| == |result.sourceDocuments|
    ensures r.Success? ==> r.sources == PackageSources(result.sourceDocuments)
    ensures r.Error? ==>
      |r.message| >= |ErrorPrefix| && r.message[..|ErrorPrefix|] == ErrorPrefix
      && r.message[|ErrorPrefix|..] == result.error
  {
    match result
    case ChainAnswered(answer, docs) => Success(answer, PackageSources(docs))
    case ChainRaised(e) => Error(ErrorPrefix + e)
  }

  /** The conversation memory after a call: a successful call records the
      exchange, a raising one leaves the memory as it was. */
  function HistoryAfter(history: seq<Turn>, question: string, result: ChainResult): (h: seq<Turn>)
    ensures result.ChainAnswered? ==> h == history + [Turn(question, result.answer)]
    ensures result.ChainRaised? ==> h == history
  {
    if result.ChainAnswered? then history + [Turn(question, result.answer)] else history
  }

  // ---------------------------------------------------------------------------
  // The chain's state
  // ---------------------------------------------------------------------------

  /** A created retrieval chain; only its prompt is modelled. */
  class Chain {
    var prompt: string

    constructor (prompt: string)
      ensures this.prompt == prompt
    {
      this.prompt := prompt;
    }
  }

  /** `QAChain`: whether the knowledge base has a vector store, the lazily
      created chain (`None` until the first answer and after `clear_memory`)
      and the conversation memory. */
  class QAChain {
    var vectorstoreLoaded: bool
    var qaChain: Chain?
    var history: seq<Turn>

    /** A fresh instance: no chain and an empty memory. */
    constructor (vectorstoreLoaded: bool)
      ensures this.vectorstoreLoaded == vectorstoreLoaded
      ensures qaChain == null && history == []
    {
      this.vectorstoreLoaded := vectorstoreLoaded;
      qaChain := null;
      history := [];
    }

    /** `_create_qa_chain`: no chain without a vector store, otherwise a new
        chain with the default prompt. */
    method CreateQaChain() returns (c: Chain?)
      ensures !vectorstoreLoaded ==> c == null
      ensures vectorstoreLoaded ==> c != null && fresh(c) && c.prompt == GetQaPrompt(DefaultQuestionType)
    {
      if !vectorstoreLoaded {
        return null;
      }
      c := new Chain(GetQaPrompt(DefaultQuestionType));
    }

    /** `answer_question`. With no vector store it reports the empty
        knowledge base and builds nothing. Otherwise it creates the chain if
        there is none (and reuses it if there is), sets the chain's prompt
        for the question type, runs it, and packages the result or the
        error. */
    method AnswerQuestion(question: string, questionType: string, run: ChainRun) returns (r: Answer)
      modifies this, qaChain
      ensures vectorstoreLoaded == old(vectorstoreLoaded)
      ensures !vectorstoreLoaded ==>
        r == Error(EmptyKnowledgeBaseMessage) && qaChain == old(qaChain) && history == old(history)
      ensures vectorstoreLoaded ==>
        && qaChain != null
        && (old(qaChain) != null ==> qaChain == old(qaChain))
        && (old(qaChain) == null ==> fresh(qaChain))
        && qaChain.prompt == GetQaPrompt(questionType)
        && var result := run(GetQaPrompt(questionType), old(history), question);
           r == AnswerFrom(result) && history == HistoryAfter(old(history), question, result)
    {
      if !vectorstoreLoaded {
        return Error(EmptyKnowledgeBaseMessage);
      }
      if qaChain == null {
        qaChain := CreateQaChain();
        // The "cannot create the chain" branch of `answer_question`: the vector store
        // was checked just above, so creation yields a chain.
        assert qaChain != null;
      }
      var chain := qaChain;
      var prompt := GetQaPrompt(questionType);
      chain.prompt := prompt;
      var result := run(prompt, history, question);
      history := HistoryAfter(history, question, result);
      r := AnswerFrom(result);
    }

    /** `clear_memory`: forget the conversation and drop the chain, so the
        next answer creates a new one. */
    method ClearMemory()
      modifies this
      ensures history == [] && qaChain == null
      ensures vectorstoreLoaded == old(vectorstoreLoaded)
    {
      history := [];
      qaChain := null;
    }
  }

  /** The chain's life cycle: the first answer creates it, the second reuses
      it, and after `clear_memory` the next answer creates another one. */
  method ChainLifecycle(run: ChainRun) returns (first: Chain, second: Chain, third: Chain)
    ensures first == second
    ensures third != first
  {
    var qa := new QAChain(true);
    var _ := qa.AnswerQuestion("q1", DefaultQuestionType, run);
    first := qa.qaChain;
    var _ := qa.AnswerQuestion("q2", "summary", run);
    second := qa.qaChain;
    qa.ClearMemory();
    var _ := qa.AnswerQuestion("q3", DefaultQuestionType, run);
    third := qa.qaChain;
  }

  /** Without a vector store every answer is the empty-knowledge-base error,
      and no chain is ever created. */
  method EmptyKnowledgeBase(question: string, questionType: string, run: ChainRun)
    returns (r: Answer, created: bool)
    ensures r == Error(EmptyKnowledgeBaseMessage)
    ensures !created
  {
    var qa := new QAChain(false);
    r := qa.AnswerQuestion(question, questionType, run);
    created := qa.qaChain != null;
  }
}
