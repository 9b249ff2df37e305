/** The conversation-context manager of the admin dashboard: it reads a bounded
    window of one (channel, user) partition, builds a rolling summary of the
    last turns, renders the previous exchanges, composes the prompt, records a
    new turn with its summary, and prunes or clears a partition.
    The API route carries its own copy of the class, identical in behaviour
    except that it has no `clearConversation`; both are modelled here. */
module ContextManager {
  import opened Sequences
  import opened Text
  import opened ConversationStore

  /** Default `limit` of `getConversationContext`. */
  const DefaultLimit: nat := 5
  /** Default `keepCount` of `cleanupOldConversations`. */
  const DefaultKeepCount: nat := 50
  /** `slice(-3)` in `createSummary`. */
  const SummaryTurns: nat := 3
  /** `substring(0, 100)` in `createSummary`. */
  const SummaryCut: nat := 100
  const SummaryTitle: string := "Recent conversation summary:"
  const SummaryHeader: string := SummaryTitle + "\n"
  /** A summary line is at most "User: " + 100 + " | Bot: " + 100 characters. */
  const MaxSummaryLine: nat := 6 + 100 + 8 + 100

  function SummaryLine(t: Turn): string {
    "User: " + Take(t.userMessage, SummaryCut) + " | Bot: " + Take(t.response, SummaryCut)
  }

  function SummaryLines(ts: seq<Turn>): (lines: seq<string>)
    ensures |lines| == |ts|
    ensures forall i :: 0 <= i < |ts| ==> lines[i] == SummaryLine(ts[i])
  {
    seq(|ts|, i requires 0 <= i < |ts| => SummaryLine(ts[i]))
  }

  /** `createSummary`: empty for no turns, otherwise the header followed by one
      line per turn of the last three, joined by line feeds. */
  function CreateSummary(ts: seq<Turn>): (summary: string)
    ensures summary == "" <==> ts == []
  {
    if ts == [] then ""
    else SummaryHeader + Join(SummaryLines(LastN(ts, SummaryTurns)), "\n")
  }

  /** A non-empty summary opens with its header line. */
  lemma SummaryStartsWithHeader(ts: seq<Turn>)
    requires ts != []
    ensures StartsWith(CreateSummary(ts), SummaryHeader)
  {
    SuffixAfterPrefix(SummaryHeader, Join(SummaryLines(LastN(ts, SummaryTurns)), "\n"));
  }

  /** Turns older than the last three never influence the summary. */
  lemma SummaryIgnoresOlderTurns(older: seq<Turn>, recent: seq<Turn>)
    requires |recent| >= SummaryTurns
    ensures CreateSummary(older + recent) == CreateSummary(recent)
  {
    assert LastN(older + recent, SummaryTurns) == LastN(recent, SummaryTurns);
  }

  /** The summary's last line describes the newest turn. */
  lemma SummaryEndsWithNewest(ts: seq<Turn>)
    requires ts != []
    ensures EndsWith(CreateSummary(ts), SummaryLine(ts[|ts| - 1]))
  {
    var lines := SummaryLines(LastN(ts, SummaryTurns));
    JoinEndsWith(lines, "\n");
    var j := Join(lines, "\n");
    var last := lines[|lines| - 1];
    assert (SummaryHeader + j)[|SummaryHeader + j| - |last|..] == j[|j| - |last|..];
  }

  predicate NoLineFeed(t: Turn) {
    '\n' !in t.userMessage && '\n' !in t.response
  }

  lemma SummaryLineHasNoLineFeed(t: Turn)
    requires NoLineFeed(t)
    ensures '\n' !in SummaryLine(t)
  {
    var a := Take(t.userMessage, SummaryCut);
    var b := Take(t.response, SummaryCut);
    assert forall c :: c in a ==> c in t.userMessage;
    assert forall c :: c in b ==> c in t.response;
    assert SummaryLine(t) == "User: " + a + " | Bot: " + b;
  }

  lemma TitleHoldsNoLineFeed()
    ensures '\n' !in SummaryTitle
  {
  }

  lemma HeaderHoldsOneLineFeed()
    ensures multiset(SummaryHeader)['\n'] == 1
  {
    TitleHoldsNoLineFeed();
    assert multiset(SummaryTitle)['\n'] == 0;
    assert multiset(SummaryTitle + "\n") == multiset(SummaryTitle) + multiset("\n");
  }

  lemma SummaryLinesHaveNoLineFeed(ts: seq<Turn>)
    requires forall i :: 0 <= i < |ts| ==> NoLineFeed(ts[i])
    ensures forall i :: 0 <= i < |ts| ==> '\n' !in SummaryLines(ts)[i]
  {
    forall i | 0 <= i < |ts| ensures '\n' !in SummaryLines(ts)[i] {
      SummaryLineHasNoLineFeed(ts[i]);
    }
  }

  lemma RecentHaveNoLineFeed(ts: seq<Turn>)
    requires forall i :: 0 <= i < |ts| ==> NoLineFeed(ts[i])
    ensures forall i :: 0 <= i < |LastN(ts, SummaryTurns)| ==> NoLineFeed(LastN(ts, SummaryTurns)[i])
  {
    var recent := LastN(ts, SummaryTurns);
    forall i | 0 <= i < |recent| ensures NoLineFeed(recent[i]) {
      assert recent[i] == ts[|ts| - |recent| + i];
    }
  }

  /** When no message holds a line feed, the summary has exactly min(3, n)
      lines after its header line: it holds min(3, n) line feeds in all. */
  lemma SummaryLineCount(ts: seq<Turn>)
    requires ts != []
    requires forall i :: 0 <= i < |ts| ==> NoLineFeed(ts[i])
    ensures multiset(CreateSummary(ts))['\n'] == Min(SummaryTurns, |ts|)
  {
    var recent := LastN(ts, SummaryTurns);
    RecentHaveNoLineFeed(ts);
    SummaryLinesHaveNoLineFeed(recent);
    var lines := SummaryLines(recent);
    JoinCountsSeparators(lines, '\n');
    HeaderHoldsOneLineFeed();
    CountOfConcat(SummaryHeader, Join(lines, "\n"), '\n');
    assert CreateSummary(ts) == SummaryHeader + Join(lines, "\n");
  }

  lemma SummaryLineBounded(t: Turn)
    ensures |SummaryLine(t)| <= MaxSummaryLine
  {
  }

  lemma {:induction false} JoinLengthBound(xs: seq<string>, sep: string, bound: nat)
    requires |xs| > 0
    requires forall i :: 0 <= i < |xs| ==> |xs[i]| <= bound
    ensures |Join(xs, sep)| <= |xs| * bound + (|xs| - 1) * |sep|
  {
    if |xs| > 1 {
      JoinLengthBound(xs[1..], sep, bound);
      assert |xs| * bound == bound + (|xs| - 1) * bound;
      assert (|xs| - 1) * |sep| == |sep| + (|xs| - 2) * |sep|;
    }
  }

  /** Summary bound: however long the history and its messages, the summary
      is at most the header, three bounded lines and two line feeds. */
  lemma SummaryBounded(ts: seq<Turn>)
    ensures |CreateSummary(ts)| <= |SummaryHeader| + SummaryTurns * MaxSummaryLine + 2
  {
    if ts != [] {
      var lines := SummaryLines(LastN(ts, SummaryTurns));
      forall i | 0 <= i < |lines| ensures |lines[i]| <= MaxSummaryLine {
        SummaryLineBounded(LastN(ts, SummaryTurns)[i]);
      }
      JoinLengthBound(lines, "\n", MaxSummaryLine);
      assert |lines| * MaxSummaryLine <= SummaryTurns * MaxSummaryLine;
    }
  }

  function ExchangeBlock(t: Turn): string {
    "User: " + t.userMessage + "\nAssistant: " + t.response
  }

  function ExchangeBlocks(ts: seq<Turn>): (blocks: seq<string>)
    ensures |blocks| == |ts|
    ensures forall i :: 0 <= i < |ts| ==> blocks[i] == ExchangeBlock(ts[i])
  {
    seq(|ts|, i requires 0 <= i < |ts| => ExchangeBlock(ts[i]))
  }

  /** The `previousConversations` transcript: each turn as
      `User: m\nAssistant: r`, in window order, separated by a blank line.
      It is empty exactly when the window is. */
  function PreviousExchanges(ts: seq<Turn>): (text: string)
    ensures text == "" <==> ts == []
    ensures ts != [] ==> StartsWith(text, ExchangeBlock(ts[0]))
    ensures ts != [] ==> EndsWith(text, ExchangeBlock(ts[|ts| - 1]))
  {
    var blocks := ExchangeBlocks(ts);
    if blocks == [] then ""
    else
      JoinStartsWith(blocks, BlankLine);
      JoinEndsWith(blocks, BlankLine);
      Join(blocks, BlankLine)
  }

  /** The route's `historyLength`: 0 for an empty transcript, otherwise the
      number of pieces `split('\n\n')` yields. */
  function HistoryLength(previous: string): (n: nat)
    ensures n == 0 <==> previous == ""
  {
    if previous == "" then 0 else SplitCount(previous, BlankLine)
  }

  lemma {:induction false} SplitCountOfJoinAtLeast(xs: seq<string>)
    requires |xs| > 0
    ensures SplitCount(Join(xs, BlankLine), BlankLine) >= |xs|
  {
    if |xs| > 1 {
      SplitCountOfJoinAtLeast(xs[1..]);
      var rest := Join(xs[1..], BlankLine);
      assert Join(xs, BlankLine) == xs[0] + (BlankLine + rest);
      SplitCountPrefix(xs[0], BlankLine + rest);
      assert (BlankLine + rest)[..2] == BlankLine && (BlankLine + rest)[2..] == rest;
    }
  }

  /** An exchange block whose messages hold no line feed adds no separator. */
  lemma ExchangeBlockAddsNoSeparator(t: Turn, s: string)
    requires NoLineFeed(t)
    ensures SplitCount(ExchangeBlock(t) + s, BlankLine) == SplitCount(s, BlankLine)
  {
    var front := "User: " + t.userMessage;
    var back := "Assistant: " + t.response;
    assert ExchangeBlock(t) + s == front + ("\n" + (back + s));
    SplitCountNoNewlinePrefix(front, "\n" + (back + s));
    var u := "\n" + (back + s);
    assert u[..2] != BlankLine by { assert u[1] == 'A'; }
    assert u[1..] == back + s;
    SplitCountNoNewlinePrefix(back, s);
  }

  lemma {:induction false} SplitCountOfBlocks(ts: seq<Turn>)
    requires ts != []
    requires forall i :: 0 <= i < |ts| ==> NoLineFeed(ts[i])
    ensures SplitCount(Join(ExchangeBlocks(ts), BlankLine), BlankLine) == |ts|
  {
    var blocks := ExchangeBlocks(ts);
    if |ts| == 1 {
      ExchangeBlockAddsNoSeparator(ts[0], "");
      assert ExchangeBlock(ts[0]) + "" == ExchangeBlock(ts[0]);
    } else {
      SplitCountOfBlocks(ts[1..]);
      assert ExchangeBlocks(ts[1..]) == blocks[1..];
      var rest := Join(blocks[1..], BlankLine);
      assert Join(blocks, BlankLine) == ExchangeBlock(ts[0]) + (BlankLine + rest);
      ExchangeBlockAddsNoSeparator(ts[0], BlankLine + rest);
      assert (BlankLine + rest)[..2] == BlankLine && (BlankLine + rest)[2..] == rest;
    }
  }

  /** `historyLength` is 0 exactly for an empty window, never less than the
      window's length, and equal to it when no message holds a line feed. */
  lemma HistoryLengthCountsTurns(ts: seq<Turn>)
    ensures HistoryLength(PreviousExchanges(ts)) == 0 <==> ts == []
    ensures HistoryLength(PreviousExchanges(ts)) >= |ts|
    ensures (forall i :: 0 <= i < |ts| ==> NoLineFeed(ts[i])) ==>
              HistoryLength(PreviousExchanges(ts)) == |ts|
  {
    if ts != [] {
      SplitCountOfJoinAtLeast(ExchangeBlocks(ts));
      if forall i :: 0 <= i < |ts| ==> NoLineFeed(ts[i]) {
        SplitCountOfBlocks(ts);
      }
    }
  }

  const InstructionsHead: string := "\nSYSTEM INSTRUCTIONS:\n"
  const SummaryLabel: string := "CONVERSATION SUMMARY:\n"
  const PreviousLabel: string := "PREVIOUS CONVERSATION:\n"
  const CurrentLabel: string := "\nCURRENT MESSAGE:\n"
  const ResponseCue: string := "\n\nASSISTANT RESPONSE:"

  function InstructionsBlock(instructions: string): string {
    InstructionsHead + instructions + "\n\n"
  }

  /** A labelled block that the template leaves out when its text is empty. */
  function OptionalBlock(heading: string, text: string): string {
    if text != "" then heading + text + "\n\n" else ""
  }

  function CurrentBlock(current: string): string {
    CurrentLabel + current + ResponseCue
  }

  /** The `fullContext` template literal. */
  function FullContext(instructions: string, summary: string, previous: string,
                       current: string): string
  {
    InstructionsBlock(instructions) + OptionalBlock(SummaryLabel, summary) + "\n" +
    OptionalBlock(PreviousLabel, previous) + CurrentBlock(current)
  }

  /** The prompt opens with the instructions, closes with the current message
      and the response cue, and contains both. */
  lemma PromptFrame(instructions: string, summary: string, previous: string, current: string)
    ensures var prompt := FullContext(instructions, summary, previous, current);
            && StartsWith(prompt, InstructionsBlock(instructions))
            && EndsWith(prompt, CurrentBlock(current))
            && Contains(prompt, instructions)
            && Contains(prompt, current)
  {
    var head := InstructionsBlock(instructions);
    var tail := CurrentBlock(current);
    var x := head + OptionalBlock(SummaryLabel, summary);
    var y := x + "\n";
    var z := y + OptionalBlock(PreviousLabel, previous);
    var prompt := z + tail;
    PrefixExtends(head, OptionalBlock(SummaryLabel, summary), head);
    PrefixExtends(x, "\n", head);
    PrefixExtends(y, OptionalBlock(PreviousLabel, previous), head);
    PrefixExtends(z, tail, head);
    SuffixOfConcat(z, tail);
    Pieces(InstructionsHead, instructions, "\n\n");
    OccursInPrefix(prompt, head, instructions, |InstructionsHead|);
    Pieces(CurrentLabel, current, ResponseCue);
    OccursInSuffix(prompt, tail, current, |CurrentLabel|);
  }

  /** A non-empty summary is spliced in right after the instructions block,
      and an empty one leaves no trace. */
  lemma PromptSummaryBlock(instructions: string, summary: string, previous: string, current: string)
    ensures var bare := FullContext(instructions, "", previous, current);
            var at := |InstructionsBlock(instructions)|;
            && at <= |bare|
            && FullContext(instructions, summary, previous, current) ==
               bare[..at] + OptionalBlock(SummaryLabel, summary) + bare[at..]
  {
    var head := InstructionsBlock(instructions);
    var sb := OptionalBlock(SummaryLabel, summary);
    var pb := OptionalBlock(PreviousLabel, previous);
    var cb := CurrentBlock(current);
    Regroup(head, sb, "\n", pb, cb);
    Regroup(head, "", "\n", pb, cb);
    assert head + "" == head;
    SpliceAt(head, sb, "\n" + pb + cb);
  }

  /** Likewise the previous-exchanges block, one line feed after the summary
      block. */
  lemma PromptPreviousBlock(instructions: string, summary: string, previous: string, current: string)
    ensures var bare := FullContext(instructions, summary, "", current);
            var at := |InstructionsBlock(instructions) + OptionalBlock(SummaryLabel, summary) + "\n"|;
            && at <= |bare|
            && FullContext(instructions, summary, previous, current) ==
               bare[..at] + OptionalBlock(PreviousLabel, previous) + bare[at..]
  {
    var front := InstructionsBlock(instructions) + OptionalBlock(SummaryLabel, summary) + "\n";
    var tail := CurrentBlock(current);
    assert front + "" == front;
    SpliceAt(front, OptionalBlock(PreviousLabel, previous), tail);
  }

  /** With no history, the prompt is the instructions and the current message
      and nothing else. */
  lemma EmptyHistoryPrompt(instructions: string, current: string)
    ensures FullContext(instructions, CreateSummary([]), PreviousExchanges([]), current) ==
            InstructionsBlock(instructions) + "\n" + CurrentBlock(current)
  {
    var head := InstructionsBlock(instructions);
    assert head + "" == head;
    assert head + "\n" + "" == head + "\n";
  }

  /** The value `assembleContext` returns. */
  datatype AssembledContext = AssembledContext(
    systemInstructions: string,
    conversationSummary: string,
    previousConversations: string,
    currentMessage: string,
    fullContext: string)

  function Assemble(instructions: string, history: seq<Turn>, current: string): (a: AssembledContext)
    ensures a.systemInstructions == instructions && a.currentMessage == current
    ensures a.conversationSummary == "" <==> history == []
    ensures a.previousConversations == "" <==> history == []
    ensures a.fullContext ==
              FullContext(instructions, a.conversationSummary, a.previousConversations, current)
  {
    var summary := CreateSummary(history);
    var previous := PreviousExchanges(history);
    AssembledContext(instructions, summary, previous, current,
                     FullContext(instructions, summary, previous, current))
  }

  lemma SummaryOfTwo(t0: Turn, t1: Turn)
    ensures CreateSummary([t0, t1]) == SummaryHeader + (SummaryLine(t0) + "\n" + SummaryLine(t1))
  {
    var ts := [t0, t1];
    assert LastN(ts, SummaryTurns) == ts;
    var lines := SummaryLines(ts);
    assert lines == [SummaryLine(t0), SummaryLine(t1)];
    assert lines[1..] == [SummaryLine(t1)];
    assert Join(lines, "\n") == lines[0] + "\n" + Join(lines[1..], "\n");
  }

  /** A two-exchange summary written out. */
  lemma TwoTurnSummary()
    ensures CreateSummary([Turn("hi", "hello!"), Turn("bye", "see you")]) ==
            "Recent conversation summary:\n" + ("User: hi | Bot: hello!" + "\n" +
            "User: bye | Bot: see you")
  {
    var t0, t1 := Turn("hi", "hello!"), Turn("bye", "see you");
    var l0, l1 := SummaryLine(t0), SummaryLine(t1);
    assert Take(t0.userMessage, SummaryCut) == "hi";
    assert Take(t0.response, SummaryCut) == "hello!";
    assert Take(t1.userMessage, SummaryCut) == "bye";
    assert Take(t1.response, SummaryCut) == "see you";
    assert l0 == "User: hi | Bot: hello!";
    assert l1 == "User: bye | Bot: see you";
    SummaryOfTwo(t0, t1);
  }

  /** The summary of three or more turns lists exactly the last three, oldest
      first, one per line. */
  lemma SummaryOfLastThree(ts: seq<Turn>)
    requires |ts| >= SummaryTurns
    ensures CreateSummary(ts) ==
            SummaryHeader + (SummaryLine(ts[|ts| - 3]) + "\n" +
            (SummaryLine(ts[|ts| - 2]) + "\n" + SummaryLine(ts[|ts| - 1])))
  {
    var window := LastN(ts, SummaryTurns);
    assert window == [ts[|ts| - 3], ts[|ts| - 2], ts[|ts| - 1]];
    var lines := SummaryLines(window);
    JoinOfThree(lines, "\n");
  }

  lemma JoinOfThree(xs: seq<string>, sep: string)
    requires |xs| == 3
    ensures Join(xs, sep) == xs[0] + sep + (xs[1] + sep + xs[2])
  {
    assert xs[1..][1..] == [xs[2]];
    assert Join(xs[1..], sep) == xs[1] + sep + xs[2];
  }

  /** Recording one more turn appends its block, after a blank line, to the end
      of a non-empty transcript. */
  lemma {:induction false} TranscriptAppend(ts: seq<Turn>, t: Turn)
    requires ts != []
    ensures PreviousExchanges(ts + [t]) == PreviousExchanges(ts) + BlankLine + ExchangeBlock(t)
  {
    var blocks := ExchangeBlocks(ts);
    assert ExchangeBlocks(ts + [t]) == blocks + [ExchangeBlock(t)];
    JoinAppend(blocks, ExchangeBlock(t), BlankLine);
  }

  lemma TranscriptOfTwo(t0: Turn, t1: Turn)
    ensures PreviousExchanges([t0, t1]) == ExchangeBlock(t0) + BlankLine + ExchangeBlock(t1)
  {
    var blocks := ExchangeBlocks([t0, t1]);
    assert blocks == [ExchangeBlock(t0), ExchangeBlock(t1)];
    assert blocks[1..] == [ExchangeBlock(t1)];
    assert Join(blocks, BlankLine) == blocks[0] + BlankLine + Join(blocks[1..], BlankLine);
  }

  /** A two-exchange transcript written out. */
  lemma TwoTurnTranscript()
    ensures PreviousExchanges([Turn("hi", "hello!"), Turn("bye", "see you")]) ==
            "User: hi\nAssistant: hello!" + "\n\n" + "User: bye\nAssistant: see you"
  {
    ExampleBlocks();
    TranscriptOfTwo(Turn("hi", "hello!"), Turn("bye", "see you"));
  }

  lemma ExampleBlocks()
    ensures ExchangeBlock(Turn("hi", "hello!")) == "User: hi\nAssistant: hello!"
    ensures ExchangeBlock(Turn("bye", "see you")) == "User: bye\nAssistant: see you"
  {
  }

  /** What the store does wrong during one `saveConversation`. */
  datatype StoreFaults = StoreFaults(
    historyReadFails: bool,
    insertFails: bool,
    pruneSelectFails: bool,
    pruneDeleteFails: bool)

  /** `getConversationContext`: the partition's newest `limit` rows, oldest
      first; `[]` when the read fails. */
  method GetConversationContext(table: Table, channel: string, user: string, limit: nat,
                                readFails: bool) returns (history: seq<Row>)
    requires table.Valid()
    ensures readFails ==> history == []
    ensures !readFails ==> history == Window(table.rows, channel, user, limit)
    ensures |history| <= limit
    ensures forall r :: r in history ==> r in table.rows && r.channel == channel && r.user == user
    ensures IdsIncreasing(history)
  {
    if readFails {
      return [];
    }
    var newestFirst := Take(Reverse(Partition(table.rows, channel, user)), limit);
    history := Reverse(newestFirst);
    WindowIsNewestOfPartition(table.rows, channel, user, limit);
  }

  /** `assembleContext`: the window read with the default limit, then the pure
      composition; a failed read gives the empty-history prompt. */
  method AssembleContext(table: Table, instructions: string, channel: string, user: string,
                         current: string, readFails: bool) returns (context: AssembledContext)
    requires table.Valid()
    ensures context == Assemble(instructions,
                                Turns(if readFails then [] else Window(table.rows, channel, user, DefaultLimit)),
                                current)
    ensures readFails ==> context == Assemble(instructions, [], current)
  {
    var history := GetConversationContext(table, channel, user, DefaultLimit, readFails);
    context := Assemble(instructions, Turns(history), current);
  }

  /** `cleanupOldConversations`: keeps the partition's `keep` newest rows;
      a failed select or delete leaves the table as it was. */
  method CleanupOldConversations(table: Table, channel: string, user: string, keep: nat,
                                 selectFails: bool, deleteFails: bool)
    requires table.Valid()
    modifies table
    ensures table.Valid() && table.nextId == old(table.nextId)
    ensures table.rows ==
              if selectFails || (|Partition(old(table.rows), channel, user)| > keep && deleteFails)
              then old(table.rows)
              else Pruned(old(table.rows), channel, user, keep)
    ensures !selectFails && !deleteFails ==>
              Partition(table.rows, channel, user) == LastN(Partition(old(table.rows), channel, user), keep)
    ensures forall c, u :: (c != channel || u != user) ==>
              Partition(table.rows, c, u) == Partition(old(table.rows), c, u)
  {
    PrunedPartition(table.rows, channel, user, keep);
    forall c, u | c != channel || u != user
      ensures Partition(Pruned(table.rows, channel, user, keep), c, u) == Partition(table.rows, c, u)
    {
      PrunedOtherPartition(table.rows, channel, user, keep, c, u);
    }
    if selectFails {
      return;
    }
    var newestFirst := Ids(Reverse(Partition(table.rows, channel, user)));
    if |newestFirst| > keep {
      var idsToDelete := set id | id in Drop(newestFirst, keep);
      if deleteFails {
        return;
      }
      table.DeleteWhere(IdNotIn(idsToDelete));
    }
  }

  /** `saveConversation`: records one row whose summary covers the window
      plus the new turn, then prunes the partition to 50 rows. The result is
      false exactly when the insert fails; a pruning failure is swallowed. */
  method SaveConversation(table: Table, channel: string, user: string, userMessage: string,
                          botResponse: string, faults: StoreFaults) returns (saved: bool)
    requires table.Valid()
    modifies table
    ensures table.Valid()
    ensures saved == !faults.insertFails
    ensures !saved ==> table.rows == old(table.rows) && table.nextId == old(table.nextId)
    ensures saved ==>
              var window := if faults.historyReadFails then []
                            else Window(old(table.rows), channel, user, DefaultLimit);
              var row := Row(old(table.nextId), channel, user, Turn(userMessage, botResponse),
                             CreateSummary(Turns(window) + [Turn(userMessage, botResponse)]));
              var inserted := old(table.rows) + [row];
              && table.nextId == old(table.nextId) + 1
              && table.rows == (if faults.pruneSelectFails ||
                                   (|Partition(inserted, channel, user)| > DefaultKeepCount && faults.pruneDeleteFails)
                                then inserted
                                else Pruned(inserted, channel, user, DefaultKeepCount))
              && (!faults.pruneSelectFails && !faults.pruneDeleteFails ==>
                    Partition(table.rows, channel, user) ==
                    LastN(Partition(old(table.rows), channel, user) + [row], DefaultKeepCount))
    ensures forall c, u :: (c != channel || u != user) ==>
              Partition(table.rows, c, u) == Partition(old(table.rows), c, u)
  {
    var history := GetConversationContext(table, channel, user, DefaultLimit, faults.historyReadFails);
    var turn := Turn(userMessage, botResponse);
    var newSummary := CreateSummary(Turns(history) + [turn]);
    if faults.insertFails {
      return false;
    }
    ghost var before := table.rows;
    var id := table.Insert(channel, user, turn, newSummary);
    ghost var row := Row(id, channel, user, turn, newSummary);
    AppendedPartition(before, row, channel, user);
    forall c, u | c != channel || u != user
      ensures Partition(table.rows, c, u) == Partition(before, c, u)
    {
      AppendedPartition(before, row, c, u);
    }
    CleanupOldConversations(table, channel, user, DefaultKeepCount,
                            faults.pruneSelectFails, faults.pruneDeleteFails);
    return true;
  }

  /** `clearConversation`: removes every row of the partition and no other. */
  method ClearConversation(table: Table, channel: string, user: string, deleteFails: bool)
    returns (cleared: bool)
    requires table.Valid()
    modifies table
    ensures table.Valid() && cleared == !deleteFails
    ensures !cleared ==> table.rows == old(table.rows)
    ensures cleared ==> table.rows == Filter(OutsidePartition(channel, user), old(table.rows))
    ensures cleared ==> Partition(table.rows, channel, user) == []
    ensures forall c, u :: (c != channel || u != user) ==>
              Partition(table.rows, c, u) == Partition(old(table.rows), c, u)
  {
    if deleteFails {
      return false;
    }
    ghost var before := table.rows;
    table.DeleteWhere(OutsidePartition(channel, user));
    ClearedPartition(before, channel, user, channel, user);
    forall c, u | c != channel || u != user
      ensures Partition(table.rows, c, u) == Partition(before, c, u)
    {
      ClearedPartition(before, channel, user, c, u);
    }
    return true;
  }
}
