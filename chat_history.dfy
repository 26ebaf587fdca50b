/**
 A bounded chat-memory log (`ChatHistoryHandler`): messages are appended in
 conversation order, two windowing views select recent parts of the log, and
 once enough messages have been recorded since the last compression the whole
 log is replaced by one synthetic system entry carrying a summary.
 */
module ChatHistory {

  import opened Wrappers
  import opened Text
  import opened Completion

  /** One message of the log; the timestamp is an opaque ISO-8601 string supplied by the caller. */
  datatype Entry = Entry(role: string, content: string, timestamp: string)

  const SystemRole: string := "system"
  const ContextPrefix: string := "Context from earlier: "
  const NothingToSummarize: string := "Nothing to summarize yet."
  const SummaryFailurePrefix: string := "Couldn't create summary: "
  const SummaryPromptPrefix: string := "Summarize this chat:\n\n"

  /** Sum of the content lengths of `log`. */
  function TotalChars(log: seq<Entry>): nat
  {
    if log == [] then 0 else |log[0].content| + TotalChars(log[1..])
  }

  lemma {:induction false} TotalCharsAppend(a: seq<Entry>, b: seq<Entry>)
    ensures TotalChars(a + b) == TotalChars(a) + TotalChars(b)
  {
    if a == [] {
      assert a + b == b;
    } else {
      assert (a + b)[1..] == a[1..] + b;
      TotalCharsAppend(a[1..], b);
    }
  }

  /** `a` is a contiguous suffix of `b`, in `b`'s order. */
  predicate IsSuffix(a: seq<Entry>, b: seq<Entry>)
  {
    |a| <= |b| && a == b[|b| - |a|..]
  }

  // ---------------------------------------------------------------------------
  // Turn window: keep_recent_turns

  /** Python's `s[start:]`: a negative start counts from the end, and both ends are clamped. */
  function SliceFrom(s: seq<Entry>, start: int): (r: seq<Entry>)
    ensures IsSuffix(r, s)
    ensures start >= 0 ==> |r| == if start >= |s| then 0 else |s| - start
    ensures start < 0 ==> |r| == if -start >= |s| then |s| else -start
  {
    if start < 0 then (if -start >= |s| then s else s[|s| + start..])
    else if start >= |s| then []
    else s[start..]
  }

  /**
   The last `howManyTurns` turns, a turn being two entries. A zero count keeps
   the whole log (`log[-0:]` is all of it), and a negative count drops the first
   `-2 * howManyTurns` entries.
   */
  function RecentTurns(log: seq<Entry>, howManyTurns: int): (r: seq<Entry>)
    ensures IsSuffix(r, log)
    ensures howManyTurns >= 1 ==> |r| == if |log| <= 2 * howManyTurns then |log| else 2 * howManyTurns
    ensures howManyTurns == 0 ==> r == log
    ensures howManyTurns < 0 ==> |r| == if |log| <= -2 * howManyTurns then 0 else |log| + 2 * howManyTurns
  {
    var messagesToKeep := howManyTurns * 2;
    if |log| <= messagesToKeep then log
    else
      var r := SliceFrom(log, -messagesToKeep);
      assert howManyTurns > 0 ==> |r| == messagesToKeep;
      assert howManyTurns == 0 ==> r == log;
      r
  }

  /** For every count, appending messages moves the window forward: the new window ends with the new messages and starts no earlier than the old one. */
  lemma RecentTurnsAfterAppend(log: seq<Entry>, extra: seq<Entry>, howManyTurns: int)
    ensures IsSuffix(RecentTurns(log + extra, howManyTurns), RecentTurns(log, howManyTurns) + extra)
  {
  }

  // ---------------------------------------------------------------------------
  // Character-budget window: fit_to_size

  /**
   `w` is what fit_to_size returns for `log` and `limit`: a contiguous suffix of
   the log in its order, within the budget (only the empty window when the budget
   is negative), and maximal: either the whole log, or the next older message
   would take it over the budget.
   */
  ghost predicate BudgetWindow(log: seq<Entry>, limit: int, w: seq<Entry>)
  {
    && IsSuffix(w, log)
    && (w == [] || TotalChars(w) <= limit)
    && (|w| == |log| || TotalChars(w) + |log[|log| - |w| - 1].content| > limit)
  }

  /** A longer suffix costs at least the shorter one plus the message just before it. */
  lemma LongerSuffixCosts(log: seq<Entry>, short: seq<Entry>, long: seq<Entry>)
    requires IsSuffix(short, log) && IsSuffix(long, log) && |short| < |long|
    ensures TotalChars(long) >= TotalChars(short) + |log[|log| - |short| - 1].content|
  {
    var i := |log| - |long|;
    var j := |log| - |short| - 1;
    assert long == log[i..j] + [log[j]] + short;
    TotalCharsAppend(log[i..j] + [log[j]], short);
    TotalCharsAppend(log[i..j], [log[j]]);
  }

  /** The budget window is determined by the log and the limit. */
  lemma BudgetWindowUnique(log: seq<Entry>, limit: int, w1: seq<Entry>, w2: seq<Entry>)
    requires BudgetWindow(log, limit, w1) && BudgetWindow(log, limit, w2)
    ensures w1 == w2
  {
    if |w1| < |w2| {
      LongerSuffixCosts(log, w1, w2);
    } else if |w2| < |w1| {
      LongerSuffixCosts(log, w2, w1);
    }
  }

  /** A budget that covers every character keeps the whole log. */
  lemma BudgetWindowWhole(log: seq<Entry>, limit: int, w: seq<Entry>)
    requires BudgetWindow(log, limit, w) && limit >= TotalChars(log)
    ensures w == log
  {
  }

  lemma {:induction false} TotalCharsZero(log: seq<Entry>, i: int)
    requires TotalChars(log) == 0 && 0 <= i < |log|
    ensures log[i].content == ""
  {
    if i > 0 {
      TotalCharsZero(log[1..], i - 1);
    }
  }

  /**
   With a zero budget the window is not empty in general: it is the run of
   trailing messages with empty content, stopping at the newest non-empty one.
   */
  lemma BudgetWindowZero(log: seq<Entry>, w: seq<Entry>)
    requires BudgetWindow(log, 0, w)
    ensures forall i :: 0 <= i < |w| ==> w[i].content == ""
    ensures |w| < |log| ==> log[|log| - |w| - 1].content != ""
  {
    forall i | 0 <= i < |w| ensures w[i].content == "" {
      TotalCharsZero(w, i);
    }
  }

  // ---------------------------------------------------------------------------
  // Summary transcript: create_summary

  /** One transcript line, `role: content`: the role, a colon and a space, then the whole content. */
  function Line(e: Entry): (r: string)
    ensures |r| == |e.role| + 2 + |e.content|
    ensures r[..|e.role|] == e.role && r[|e.role|] == ':' && r[|e.role| + 1] == ' '
    ensures r[|e.role| + 2..] == e.content
  {
    e.role + ": " + e.content
  }

  /** The lines of `msgs` joined by newlines, with nothing cut; empty exactly when there are no messages. */
  function Transcript(msgs: seq<Entry>): (r: string)
    ensures r == "" <==> msgs == []
  {
    if msgs == [] then ""
    else if |msgs| == 1 then Line(msgs[0])
    else Line(msgs[0]) + "\n" + Transcript(msgs[1..])
  }

  /** The transcript starts with the first message's line and ends with the last one's. */
  lemma {:induction false} TranscriptEnds(msgs: seq<Entry>)
    requires msgs != []
    ensures var t, first, last := Transcript(msgs), Line(msgs[0]), Line(msgs[|msgs| - 1]);
            |first| <= |t| && t[..|first|] == first && |last| <= |t| && t[|t| - |last|..] == last
  {
    if |msgs| > 1 {
      var first, rest := Line(msgs[0]), Transcript(msgs[1..]);
      var last := Line(msgs[|msgs| - 1]);
      TranscriptEnds(msgs[1..]);
      assert msgs[1..][|msgs[1..]| - 1] == msgs[|msgs| - 1];
      assert |last| <= |rest| && rest[|rest| - |last|..] == last;
      var t := first + "\n" + rest;
      assert Transcript(msgs) == t;
      assert t[..|first|] == first;
      assert t[|t| - |last|..] == rest[|rest| - |last|..];
    }
  }

  /** The transcript of two consecutive runs of messages is their transcripts joined by one newline. */
  lemma {:induction false} TranscriptAppend(a: seq<Entry>, b: seq<Entry>)
    requires a != [] && b != []
    ensures Transcript(a + b) == Transcript(a) + "\n" + Transcript(b)
  {
    assert (a + b)[0] == a[0];
    assert (a + b)[1..] == a[1..] + b;
    if |a| > 1 {
      TranscriptAppend(a[1..], b);
    }
  }

  /** Sum over the messages of the lengths of their lines. */
  function LinesLength(msgs: seq<Entry>): nat
  {
    if msgs == [] then 0 else |Line(msgs[0])| + LinesLength(msgs[1..])
  }

  /** Nothing is truncated: the transcript has every line's characters and one newline between each two lines. */
  lemma {:induction false} TranscriptLength(msgs: seq<Entry>)
    requires msgs != []
    ensures |Transcript(msgs)| == LinesLength(msgs) + |msgs| - 1
  {
    if |msgs| > 1 {
      TranscriptLength(msgs[1..]);
    }
  }

  /** The request create_summary sends for `msgs`. */
  function SummaryRequest(model: string, msgs: seq<Entry>): (r: CompletionRequest)
    ensures r.model == model && r.instruction == SummarizeBriefly
    ensures |r.prompt| == |SummaryPromptPrefix| + |Transcript(msgs)|
    ensures r.prompt[..|SummaryPromptPrefix|] == SummaryPromptPrefix && r.prompt[|SummaryPromptPrefix|..] == Transcript(msgs)
    ensures r.temperature == 0.3 && r.maxTokens == Some(200) && !r.jsonObjectMode
  {
    CompletionRequest(model, SummarizeBriefly, SummaryPromptPrefix + Transcript(msgs), 0.3, Some(200), false)
  }

  /**
   create_summary: the sentinel for no messages, otherwise the service's reply to
   the transcript or, when the call fails, a message embedding the error.
   */
  function CreateSummary(model: string, msgs: seq<Entry>, service: CompletionRequest -> Result<string, string>): (r: string)
    ensures msgs == [] ==> r == NothingToSummarize
    ensures msgs != [] && service(SummaryRequest(model, msgs)).Ok? ==> r == service(SummaryRequest(model, msgs)).value
    ensures msgs != [] && service(SummaryRequest(model, msgs)).Err? ==>
              r == SummaryFailurePrefix + service(SummaryRequest(model, msgs)).error
  {
    if msgs == [] then NothingToSummarize
    else
      match service(SummaryRequest(model, msgs))
      case Ok(text) => text
      case Err(error) => SummaryFailurePrefix + error
  }

  /** With no messages the service is never consulted: any two services give the same answer. */
  lemma EmptySummaryIgnoresService(model: string, s1: CompletionRequest -> Result<string, string>, s2: CompletionRequest -> Result<string, string>)
    ensures CreateSummary(model, [], s1) == CreateSummary(model, [], s2) == NothingToSummarize
  {
  }

  // ---------------------------------------------------------------------------
  // Metrics: get_chat_metrics

  datatype ChatMetrics = ChatMetrics(totalMessages: nat, totalCharacters: nat, totalWords: nat, turns: nat)

  function TotalWords(log: seq<Entry>): nat
  {
    if log == [] then 0 else WordCount(log[0].content) + TotalWords(log[1..])
  }

  lemma {:induction false} TotalWordsAppend(a: seq<Entry>, b: seq<Entry>)
    ensures TotalWords(a + b) == TotalWords(a) + TotalWords(b)
  {
    if a == [] {
      assert a + b == b;
    } else {
      assert (a + b)[1..] == a[1..] + b;
      TotalWordsAppend(a[1..], b);
    }
  }

  function Metrics(log: seq<Entry>): (m: ChatMetrics)
    ensures m.totalMessages == |log| && m.totalCharacters == TotalChars(log) && m.totalWords == TotalWords(log)
    ensures 2 * m.turns <= m.totalMessages <= 2 * m.turns + 1
  {
    ChatMetrics(|log|, TotalChars(log), TotalWords(log), |log| / 2)
  }

  /** There are never more words than characters. */
  lemma {:induction false} WordsAtMostCharacters(log: seq<Entry>)
    ensures Metrics(log).totalWords <= Metrics(log).totalCharacters
  {
    if log != [] {
      WordsAtMostCharacters(log[1..]);
    }
  }

  /** Every metric is zero on an empty log. */
  lemma MetricsOfEmptyLog()
    ensures Metrics([]) == ChatMetrics(0, 0, 0, 0)
  {
  }

  /** Recording one message adds one message, its characters and its words. */
  lemma MetricsAfterRecord(log: seq<Entry>, e: Entry)
    ensures Metrics(log + [e]).totalMessages == Metrics(log).totalMessages + 1
    ensures Metrics(log + [e]).totalCharacters == Metrics(log).totalCharacters + |e.content|
    ensures Metrics(log + [e]).totalWords == Metrics(log).totalWords + WordCount(e.content)
  {
    TotalCharsAppend(log, [e]);
    TotalWordsAppend(log, [e]);
  }

  // ---------------------------------------------------------------------------
  // The handler's state and its transitions

  datatype ChatState = ChatState(chatLog: seq<Entry>, messageCount: nat, lastSummary: string)

  /**
   What recording and compressing maintain: before the first compression the
   counter is the log length and there is no summary; afterwards the log is one
   summary entry followed by the messages counted since.
   */
  ghost predicate Consistent(s: ChatState)
  {
    || (|s.chatLog| == s.messageCount && s.lastSummary == "")
    || (&& |s.chatLog| == s.messageCount + 1
        && s.chatLog[0].role == SystemRole
        && s.chatLog[0].content == ContextPrefix + s.lastSummary)
  }

  /** record_message on a state. */
  function Recorded(s: ChatState, speaker: string, text: string, timestamp: string): (t: ChatState)
    ensures t.chatLog == s.chatLog + [Entry(speaker, text, timestamp)]
    ensures t.messageCount == s.messageCount + 1 && t.lastSummary == s.lastSummary
  {
    ChatState(s.chatLog + [Entry(speaker, text, timestamp)], s.messageCount + 1, s.lastSummary)
  }

  /** check_and_compress on a state. */
  function Compressed(model: string, s: ChatState, threshold: int, service: CompletionRequest -> Result<string, string>,
                      timestamp: string): (t: ChatState)
    ensures s.messageCount < threshold ==> t == s
    ensures s.messageCount >= threshold ==>
              && t.chatLog == [Entry(SystemRole, ContextPrefix + t.lastSummary, timestamp)]
              && t.messageCount == 0
              && t.lastSummary == CreateSummary(model, s.chatLog, service)
  {
    if s.messageCount < threshold then s
    else
      var summary := CreateSummary(model, s.chatLog, service);
      ChatState([Entry(SystemRole, ContextPrefix + summary, timestamp)], 0, summary)
  }

  /** Under the invariant the counter never exceeds the log, and falls short of it by at most the summary entry. */
  lemma ConsistentCounterBound(s: ChatState)
    requires Consistent(s)
    ensures s.messageCount <= |s.chatLog| <= s.messageCount + 1
  {
  }

  lemma RecordedKeepsConsistent(s: ChatState, speaker: string, text: string, timestamp: string)
    requires Consistent(s)
    ensures Consistent(Recorded(s, speaker, text, timestamp))
  {
  }

  lemma CompressedKeepsConsistent(model: string, s: ChatState, threshold: int,
                                  service: CompletionRequest -> Result<string, string>, timestamp: string)
    requires Consistent(s)
    ensures Consistent(Compressed(model, s, threshold, service, timestamp))
  {
  }

  /** For a positive threshold a second compression straight after the first changes nothing. */
  lemma CompressedIdempotent(model: string, s: ChatState, threshold: int,
                             service: CompletionRequest -> Result<string, string>, t1: string, t2: string)
    requires threshold >= 1
    ensures Compressed(model, Compressed(model, s, threshold, service, t1), threshold, service, t2)
         == Compressed(model, s, threshold, service, t1)
  {
  }

  /** A threshold of zero or less compresses whatever the state, even an empty log. */
  lemma NonPositiveThresholdAlwaysCompresses(model: string, s: ChatState, threshold: int,
                                             service: CompletionRequest -> Result<string, string>, timestamp: string)
    requires threshold <= 0
    ensures |Compressed(model, s, threshold, service, timestamp).chatLog| == 1
    ensures s.chatLog == [] ==> Compressed(model, s, threshold, service, timestamp).lastSummary == NothingToSummarize
  {
  }

  /**
   The handler object. Its fields are the source's `chat_log`, `message_count`
   and `last_summary`; `aiModel` is fixed at construction.
   */
  class ChatHistoryHandler {
    const aiModel: string
    var chatLog: seq<Entry>
    var messageCount: nat
    var lastSummary: string

    function State(): ChatState
      reads this
    {
      ChatState(chatLog, messageCount, lastSummary)
    }

    /** The log/counter invariant `Consistent`, kept by the constructor and both mutators. */
    ghost predicate Valid()
      reads this
    {
      Consistent(State())
    }

    constructor (aiModel: string := DefaultModel)
      ensures Valid()
      ensures this.aiModel == aiModel && chatLog == [] && messageCount == 0 && lastSummary == ""
    {
      this.aiModel := aiModel;
      chatLog := [];
      messageCount := 0;
      lastSummary := "";
    }

    /** record_message: append one entry at the end and count it. */
    method RecordMessage(speaker: string, text: string, timestamp: string)
      requires Valid()
      modifies this
      ensures Valid()
      ensures chatLog == old(chatLog) + [Entry(speaker, text, timestamp)]
      ensures messageCount == old(messageCount) + 1
      ensures lastSummary == old(lastSummary)
      ensures State() == Recorded(old(State()), speaker, text, timestamp)
    {
      chatLog := chatLog + [Entry(speaker, text, timestamp)];
      messageCount := messageCount + 1;
    }

    /** keep_recent_turns: a suffix of the log, all of it for a zero count. */
    function KeepRecentTurns(howManyTurns: int): (r: seq<Entry>)
      reads this
      ensures IsSuffix(r, chatLog)
      ensures howManyTurns >= 1 ==> |r| == if |chatLog| <= 2 * howManyTurns then |chatLog| else 2 * howManyTurns
      ensures howManyTurns == 0 ==> r == chatLog
      ensures r == RecentTurns(chatLog, howManyTurns)
    {
      RecentTurns(chatLog, howManyTurns)
    }

    /** fit_to_size: walk back from the newest message, stopping before the first one that does not fit. */
    method FitToSize(characterLimit: int) returns (selected: seq<Entry>)
      ensures BudgetWindow(chatLog, characterLimit, selected)
      ensures characterLimit >= TotalChars(chatLog) ==> selected == chatLog
    {
      selected := [];
      var charsUsed := 0;
      var i := |chatLog|;
      while i > 0
        invariant 0 <= i <= |chatLog|
        invariant selected == chatLog[i..]
        invariant charsUsed == TotalChars(selected)
        invariant selected == [] || charsUsed <= characterLimit
      {
        var msgSize := |chatLog[i - 1].content|;
        if charsUsed + msgSize > characterLimit {
          break;
        }
        assert ([chatLog[i - 1]] + selected)[1..] == selected;
        selected := [chatLog[i - 1]] + selected;
        charsUsed := charsUsed + msgSize;
        i := i - 1;
      }
      if characterLimit >= TotalChars(chatLog) {
        BudgetWindowWhole(chatLog, characterLimit, selected);
      }
    }

    /** create_summary, with the service as a parameter and this handler's model. */
    function Summarize(messages: seq<Entry>, service: CompletionRequest -> Result<string, string>): (r: string)
      ensures messages == [] ==> r == NothingToSummarize
      ensures messages != [] && service(SummaryRequest(aiModel, messages)).Err? ==>
                r == SummaryFailurePrefix + service(SummaryRequest(aiModel, messages)).error
      ensures r == CreateSummary(aiModel, messages, service)
    {
      CreateSummary(aiModel, messages, service)
    }

    /**
     check_and_compress: below the threshold nothing changes; otherwise the log
     becomes one system entry carrying the summary of the whole log, which is
     also kept as the last summary, and the counter restarts.
     */
    method CheckAndCompress(afterNMessages: int, service: CompletionRequest -> Result<string, string>, timestamp: string)
      requires Valid()
      modifies this
      ensures Valid()
      ensures old(messageCount) < afterNMessages ==>
                chatLog == old(chatLog) && messageCount == old(messageCount) && lastSummary == old(lastSummary)
      ensures old(messageCount) >= afterNMessages ==>
                && lastSummary == CreateSummary(aiModel, old(chatLog), service)
                && chatLog == [Entry(SystemRole, ContextPrefix + lastSummary, timestamp)]
                && messageCount == 0
      ensures State() == Compressed(aiModel, old(State()), afterNMessages, service, timestamp)
    {
      if messageCount < afterNMessages {
        return;
      }
      lastSummary := Summarize(chatLog, service);
      chatLog := [Entry(SystemRole, ContextPrefix + lastSummary, timestamp)];
      messageCount := 0;
    }

    /** get_chat_metrics. */
    function GetChatMetrics(): (m: ChatMetrics)
      reads this
      ensures m.totalMessages == |chatLog| && m.totalCharacters == TotalChars(chatLog)
      ensures m.totalWords == TotalWords(chatLog) && m.turns == |chatLog| / 2
    {
      Metrics(chatLog)
    }
  }
}
