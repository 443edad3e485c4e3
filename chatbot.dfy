/**
 * The question-answering side of the chatbot (`rag_chatbot.py`): the context
 * string built from the retrieved documents, the conversation memory, the
 * choice of prompt template and the chat session's two lists.
 *
 * The retriever and the language model are services outside the model; they
 * are given as the function fields of `Services`, which answer `None` where
 * the service raises.
 */
module Chatbot {
  import opened Web
  import opened Text
  import opened VectorStore

  /** One remembered `{question, answer}` entry of `conversation_context`. */
  datatype Exchange = Exchange(question: string, answer: string)

  /** An entry of `messages`: the user's question, or the answer with the documents it drew on. */
  datatype Message =
    | UserMessage(content: string)
    | AssistantMessage(content: string, sources: seq<Document>)

  /** How many recent exchanges the prompt shows. */
  const HISTORY_WINDOW: nat := 3
  /** How many exchanges `conversation_context` keeps. */
  const MEMORY_LIMIT: nat := 5
  /** How many characters of a source the preview shows. */
  const PREVIEW_LENGTH: nat := 200
  /** The line that opens a non-empty history block. */
  const HISTORY_HEADER: string := "\n\nHistorique récent de la conversation:\n"

  /** `s[-n:]` for `n > 0`: the last `n` elements of `s`, all of it when shorter. */
  function Last<T>(s: seq<T>, n: nat): seq<T>
    requires n > 0
  {
    if |s| <= n then s else s[|s| - n..]
  }

  /** `s[-n:]` is the suffix of `s` of length `min(|s|, n)`, in its original order. */
  lemma LastSpec<T>(s: seq<T>, n: nat)
    requires n > 0
    ensures var r := Last(s, n);
      && |r| == (if |s| <= n then |s| else n)
      && (forall i :: 0 <= i < |r| ==> r[i] == s[|s| - |r| + i])
  {
  }

  // ---------------------------------------------------------------------
  // The context string
  // ---------------------------------------------------------------------

  /** The block for the `i`-th retrieved document (numbered from 1). */
  function SourceBlock(i: nat, doc: Document): string
  {
    "[Source " + NatToString(i) + "]\n" + doc.pageContent
  }

  /** The blocks of `docs`, numbered from 1 in retrieval order. */
  function SourceBlocks(docs: seq<Document>): (r: seq<string>)
    ensures |r| == |docs|
    ensures forall i :: 0 <= i < |docs| ==> r[i] == SourceBlock(i + 1, docs[i])
  {
    if docs == [] then []
    else SourceBlocks(docs[..|docs| - 1]) + [SourceBlock(|docs|, docs[|docs| - 1])]
  }

  /** The `context` passed to the prompt: the source blocks separated by blank lines. */
  function Context(docs: seq<Document>): string
  {
    Join("\n\n", SourceBlocks(docs))
  }

  /** One more retrieved document adds a blank line and its numbered block. */
  lemma ContextAppend(docs: seq<Document>, doc: Document)
    ensures Context(docs + [doc])
         == if docs == [] then SourceBlock(1, doc)
            else Context(docs) + "\n\n" + SourceBlock(|docs| + 1, doc)
  {
    var blocks := SourceBlocks(docs + [doc]);
    assert blocks == SourceBlocks(docs) + [SourceBlock(|docs| + 1, doc)] by {
      assert (docs + [doc])[..|docs|] == docs;
    }
    if docs != [] {
      JoinSnoc("\n\n", SourceBlocks(docs), SourceBlock(|docs| + 1, doc));
    }
  }

  /** A joined string starts with its first part. */
  lemma JoinStartsWithFirst(sep: string, parts: seq<string>)
    requires parts != []
    ensures parts[0] <= Join(sep, parts)
  {
  }

  /** The context is empty exactly when nothing was retrieved; otherwise it opens with source 1. */
  lemma ContextEmptyIff(docs: seq<Document>)
    ensures Context(docs) == "" <==> docs == []
    ensures docs != [] ==> SourceBlock(1, docs[0]) <= Context(docs)
  {
    if docs != [] {
      JoinStartsWithFirst("\n\n", SourceBlocks(docs));
      assert SourceBlock(1, docs[0])[0] == '[';
    }
  }

  // ---------------------------------------------------------------------
  // The history block
  // ---------------------------------------------------------------------

  /** An exchange as the history block shows it. */
  function Render(e: Exchange): string
  {
    "Q: " + e.question + "\n" + "R: " + e.answer + "\n\n"
  }

  /**
   * `h` followed by the exchanges `es`, oldest first, each added as the loop
   * adds it. The rendering is written out in the loop's left-associated shape
   * on purpose, rather than as `Render(e)`; `AppendedSnoc` ties the two.
   */
  function Appended(h: string, es: seq<Exchange>): string
  {
    if es == [] then h
    else
      var e := es[|es| - 1];
      Appended(h, es[..|es| - 1]) + "Q: " + e.question + "\n" + "R: " + e.answer + "\n\n"
  }

  /** Adding exchanges only extends the text already there. */
  lemma {:induction false} AppendedExtends(h: string, es: seq<Exchange>)
    ensures h <= Appended(h, es)
    ensures |Appended(h, es)| >= |h| + 9 * |es|
  {
    if es != [] {
      AppendedExtends(h, es[..|es| - 1]);
    }
  }

  /** The `conversation_history` text for the remembered exchanges `ctx`. */
  function HistoryText(ctx: seq<Exchange>): string
  {
    var recent := Last(ctx, HISTORY_WINDOW);
    if recent == [] then "" else Appended(HISTORY_HEADER, recent)
  }

  /** The history is empty exactly when nothing is remembered. */
  lemma HistoryEmptyIff(ctx: seq<Exchange>)
    ensures HistoryText(ctx) == "" <==> ctx == []
  {
    if ctx != [] {
      AppendedExtends(HISTORY_HEADER, Last(ctx, HISTORY_WINDOW));
    }
  }

  /** Each exchange adds its rendering at the end. */
  lemma AppendedSnoc(h: string, es: seq<Exchange>, e: Exchange)
    ensures Appended(h, es + [e]) == Appended(h, es) + Render(e)
  {
    assert (es + [e])[..|es|] == es;
  }

  /** Three exchanges follow `h` one after the other, in their order. */
  lemma AppendedThree(h: string, a: Exchange, b: Exchange, c: Exchange)
    ensures Appended(h, [a, b, c]) == h + Render(a) + Render(b) + Render(c)
  {
    AppendedSnoc(h, [], a);
    AppendedSnoc(h, [a], b);
    AppendedSnoc(h, [a, b], c);
    assert [] + [a] == [a] && [a] + [b] == [a, b] && [a, b] + [c] == [a, b, c];
  }

  /** The last `n` elements of a sequence do not depend on what comes before them. */
  lemma LastOfExtended<T>(older: seq<T>, s: seq<T>, n: nat)
    requires 0 < n <= |s|
    ensures Last(older + s, n) == Last(s, n)
  {
    var all := older + s;
    assert all[|all| - n..] == s[|s| - n..];
  }

  /**
   * With three or more exchanges remembered the history shows the last three,
   * oldest first, after the header.
   */
  lemma HistoryShowsLastThree(ctx: seq<Exchange>)
    requires |ctx| >= HISTORY_WINDOW
    ensures var n := |ctx|;
      HistoryText(ctx) == HISTORY_HEADER + Render(ctx[n - 3]) + Render(ctx[n - 2]) + Render(ctx[n - 1])
  {
    var n := |ctx|;
    assert Last(ctx, HISTORY_WINDOW) == [ctx[n - 3], ctx[n - 2], ctx[n - 1]];
    AppendedThree(HISTORY_HEADER, ctx[n - 3], ctx[n - 2], ctx[n - 1]);
  }

  /** Exchanges older than the last three do not reach the prompt. */
  lemma HistoryIgnoresOlder(older: seq<Exchange>, ctx: seq<Exchange>)
    requires |ctx| >= HISTORY_WINDOW
    ensures HistoryText(older + ctx) == HistoryText(ctx)
  {
    LastOfExtended(older, ctx, HISTORY_WINDOW);
  }

  /** The history string of `get_rag_response`, built with `+=` in a loop. */
  method BuildHistory(ctx: seq<Exchange>) returns (history: string)
    ensures history == HistoryText(ctx)
  {
    history := "";
    var recentExchanges := Last(ctx, HISTORY_WINDOW);
    if recentExchanges != [] {
      history := HISTORY_HEADER;
      for i := 0 to |recentExchanges|
        invariant history == Appended(HISTORY_HEADER, recentExchanges[..i])
      {
        var exchange := recentExchanges[i];
        assert recentExchanges[..i + 1][..i] == recentExchanges[..i];
        history := history + "Q: " + exchange.question + "\n";
        history := history + "R: " + exchange.answer + "\n\n";
      }
      assert recentExchanges[..|recentExchanges|] == recentExchanges;
    }
  }

  // ---------------------------------------------------------------------
  // The prompt
  // ---------------------------------------------------------------------

  /** The two prompt templates: with the conversation history, or without it. */
  datatype Template = PlainTemplate | HistoryTemplate

  /** The placeholders each template names. */
  function Placeholders(t: Template): set<string>
  {
    match t
    case PlainTemplate => {"context", "question"}
    case HistoryTemplate => {"context", "question", "conversation_history"}
  }

  /** The template chosen and the `chain_input` values formatted into it. */
  datatype Prompt = Prompt(template: Template, input: map<string, string>)

  /** The template choice of `get_rag_response`: the history template only when there is a history. */
  function ChainInput(context: string, question: string, history: string): Prompt
  {
    if history != "" then
      Prompt(HistoryTemplate, map["context" := context, "question" := question, "conversation_history" := history])
    else
      Prompt(PlainTemplate, map["context" := context, "question" := question])
  }

  /**
   * The history template and its `conversation_history` key come exactly with
   * a non-empty history; the input supplies every placeholder of the chosen
   * template and nothing more, so formatting never misses a value.
   */
  lemma ChainInputSpec(context: string, question: string, history: string)
    ensures var p := ChainInput(context, question, history);
      && (p.template == HistoryTemplate <==> history != "")
      && ("conversation_history" in p.input <==> history != "")
      && p.input.Keys == Placeholders(p.template)
      && p.input["context"] == context
      && p.input["question"] == question
      && (history != "" ==> p.input["conversation_history"] == history)
  {
    var p := ChainInput(context, question, history);
    if history == "" {
      assert "conversation_history" != "context" && "conversation_history" != "question";
      assert "conversation_history" !in p.input;
    }
  }

  /** The history template is used exactly when some exchange is remembered. */
  lemma TemplateFollowsMemory(context: string, question: string, ctx: seq<Exchange>)
    ensures ChainInput(context, question, HistoryText(ctx)).template == HistoryTemplate <==> ctx != []
  {
    HistoryEmptyIff(ctx);
  }

  /**
   * The retriever and the language model. Either call may raise; `None`
   * stands for the exception, which `rag_chatbot.py` never catches.
   */
  datatype Services = Services(
    /** The `k` documents the vector store finds closest to a question. */
    retrieve: (string, nat) -> Option<seq<Document>>,
    /** The model's answer to a formatted prompt. */
    generate: Prompt -> Option<string>)

  /** What `get_rag_response` returns: the answer and the documents it drew on. */
  datatype Reply = Reply(answer: string, sources: seq<Document>)

  /**
   * `get_rag_response(question, k)`: retrieve the sources, build the context
   * and the history, choose the template and ask the model. A reply comes
   * back exactly when neither the retriever nor the model raises.
   */
  method GetRagResponse(services: Services, ctx: seq<Exchange>, question: string, k: nat)
    returns (reply: Option<Reply>)
    ensures reply.Some? <==>
      && services.retrieve(question, k).Some?
      && services.generate(ChainInput(Context(services.retrieve(question, k).value), question, HistoryText(ctx))).Some?
    ensures reply.Some? ==>
      && reply.value.sources == services.retrieve(question, k).value
      && Some(reply.value.answer)
         == services.generate(ChainInput(Context(reply.value.sources), question, HistoryText(ctx)))
  {
    var retrieved := services.retrieve(question, k);
    if retrieved.None? {
      return None;
    }
    var sources := retrieved.value;
    var context := Context(sources);
    var history := BuildHistory(ctx);
    var generated := services.generate(ChainInput(context, question, history));
    if generated.None? {
      return None;
    }
    reply := Some(Reply(generated.value, sources));
  }

  // ---------------------------------------------------------------------
  // The session
  // ---------------------------------------------------------------------

  /** `conversation_context` after a turn: the new exchange appended, then only the last five kept. */
  function Remember(ctx: seq<Exchange>, e: Exchange): seq<Exchange>
  {
    Last(ctx + [e], MEMORY_LIMIT)
  }

  /**
   * After a turn the memory ends with the new exchange, holds at most five
   * entries, and before it keeps the most recent older ones in their order.
   */
  lemma RememberSpec(ctx: seq<Exchange>, e: Exchange)
    ensures var r := Remember(ctx, e);
      && |r| == (if |ctx| < MEMORY_LIMIT then |ctx| + 1 else MEMORY_LIMIT)
      && r[|r| - 1] == e
      && (forall i :: 0 <= i < |r| - 1 ==> r[i] == ctx[|ctx| - (|r| - 1) + i])
  {
    LastSpec(ctx + [e], MEMORY_LIMIT);
    var r := Remember(ctx, e);
    forall i | 0 <= i < |r| - 1
      ensures r[i] == ctx[|ctx| - (|r| - 1) + i]
    {
      assert (ctx + [e])[|ctx| + 1 - |r| + i] == ctx[|ctx| - (|r| - 1) + i];
    }
  }

  /** A memory of at most five entries whose last is `e`, however long the conversation. */
  lemma RememberBounded(ctx: seq<Exchange>, e: Exchange)
    ensures 0 < |Remember(ctx, e)| <= MEMORY_LIMIT
    ensures Remember(ctx, e)[|Remember(ctx, e)| - 1] == e
  {
    RememberSpec(ctx, e);
  }

  /** `doc.page_content[:200].replace('\n', ' ')`, the excerpt shown under each source. */
  function Preview(content: string): string
  {
    ReplaceChar(Take(content, PREVIEW_LENGTH), '\n', ' ')
  }

  /** The preview is the first 200 characters of the content, each newline turned into a space. */
  lemma PreviewSpec(content: string)
    ensures var r := Preview(content);
      && |r| == (if |content| <= PREVIEW_LENGTH then |content| else PREVIEW_LENGTH)
      && '\n' !in r
      && (forall i :: 0 <= i < |r| ==> r[i] == (if content[i] == '\n' then ' ' else content[i]))
  {
    var r := Preview(content);
    var t := Take(content, PREVIEW_LENGTH);
    assert forall i :: 0 <= i < |r| ==> t[i] == content[i];
    assert forall i :: 0 <= i < |r| ==> r[i] == (if t[i] == '\n' then ' ' else t[i]);
  }

  /** The chat state kept across reruns: the displayed messages and the remembered exchanges. */
  class Session {
    /** `st.session_state.messages`. */
    var messages: seq<Message>
    /** `st.session_state.conversation_context`. */
    var conversationContext: seq<Exchange>

    /** The memory never holds more than five exchanges. */
    predicate Valid()
      reads this
    {
      |conversationContext| <= MEMORY_LIMIT
    }

    /** The session as first created: both lists empty. */
    constructor ()
      ensures messages == [] && conversationContext == []
      ensures Valid()
    {
      messages := [];
      conversationContext := [];
    }

    /** The clear-history button: forget every message and every exchange. */
    method Clear()
      modifies this
      ensures messages == [] && conversationContext == []
      ensures Valid()
    {
      messages := [];
      conversationContext := [];
    }

    /**
     * A question typed into the chat: record it, answer it with `k` sources,
     * record the answer with its sources, and remember the exchange. When the
     * retriever or the model raises, the run stops after the question is
     * recorded: one message is added and the memory is unchanged.
     */
    method Submit(services: Services, prompt: string, k: nat) returns (reply: Option<Reply>)
      requires Valid()
      modifies this
      ensures Valid()
      ensures reply.Some? <==>
        && services.retrieve(prompt, k).Some?
        && services.generate(ChainInput(Context(services.retrieve(prompt, k).value), prompt,
                                        HistoryText(old(conversationContext)))).Some?
      ensures reply.Some? ==>
        && reply.value.sources == services.retrieve(prompt, k).value
        && Some(reply.value.answer)
           == services.generate(ChainInput(Context(reply.value.sources), prompt, HistoryText(old(conversationContext))))
        && messages == old(messages) + [UserMessage(prompt), AssistantMessage(reply.value.answer, reply.value.sources)]
        && conversationContext == Remember(old(conversationContext), Exchange(prompt, reply.value.answer))
      ensures reply.None? ==>
        && messages == old(messages) + [UserMessage(prompt)]
        && conversationContext == old(conversationContext)
    {
      messages := messages + [UserMessage(prompt)];
      reply := GetRagResponse(services, conversationContext, prompt, k);
      if reply.None? {
        return;
      }
      var answer, sources := reply.value.answer, reply.value.sources;
      messages := messages + [AssistantMessage(answer, sources)];
      conversationContext := conversationContext + [Exchange(prompt, answer)];
      if |conversationContext| > MEMORY_LIMIT {
        conversationContext := conversationContext[|conversationContext| - MEMORY_LIMIT..];
      }
    }
  }
}
