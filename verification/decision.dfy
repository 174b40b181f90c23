/** The part of `analyze_image` (main.py) that runs after the decision model
    has answered: the history ledger update and the split of the response
    content into text blocks and tool-use blocks. The request itself, the
    image encoding and the model are not modelled; a response is an opaque
    ordered sequence of blocks. */
module Decision {
  import opened Values

  /** A tool invocation: the model's `tool_use` block payload. */
  datatype ToolCall = ToolCall(id: string, name: string, input: map<string, Value>)

  /** The type tag of a block that is neither text nor a tool call. */
  type OtherKind = k: string | k != "text" && k != "tool_use" witness "image"

  /** One content block of a response, by its type tag: "text", "tool_use",
      or any other tag. */
  datatype Block =
    | TextBlock(text: string)
    | ToolUseBlock(call: ToolCall)
    | OtherBlock(kind: OtherKind)

  /** The two type tags the loop filters on. */
  datatype Tag = Text | ToolUse

  predicate HasTag(b: Block, tag: Tag) {
    match tag
    case Text => b.TextBlock?
    case ToolUse => b.ToolUseBlock?
  }

  /** The blocks of `content` carrying `tag`, in their original order
      (the list comprehensions `[item for item in content if item.type == …]`). */
  function Select(content: seq<Block>, tag: Tag): (r: seq<Block>)
    ensures forall k :: 0 <= k < |r| ==> HasTag(r[k], tag)
    ensures |r| <= |content|
  {
    if |content| == 0 then []
    else
      assert content == [content[0]] + content[1..];
      (if HasTag(content[0], tag) then [content[0]] else []) + Select(content[1..], tag)
  }

  function TextBlocks(content: seq<Block>): seq<Block> {
    Select(content, Text)
  }

  function ToolBlocks(content: seq<Block>): seq<Block> {
    Select(content, ToolUse)
  }

  /** What `analyze_image` hands back to the loop. */
  datatype Analysis = Analysis(newHistory: seq<Block>, textBlocks: seq<Block>, toolBlocks: seq<Block>)

  /** Post-processing of one response `content` given the ledger `history`. */
  function Analyze(history: seq<Block>, content: seq<Block>): (a: Analysis)
    ensures |a.newHistory| == |history| + |content|
    ensures a.newHistory[..|history|] == history
    ensures a.newHistory[|history|..] == content
    ensures a.textBlocks == TextBlocks(content) && a.toolBlocks == ToolBlocks(content)
  {
    Analysis(history + content, TextBlocks(content), ToolBlocks(content))
  }

  /** Selection distributes over concatenation: filtering keeps the order of
      blocks, both within one response and across the ledger. */
  lemma {:induction false} SelectAppend(a: seq<Block>, b: seq<Block>, tag: Tag)
    ensures Select(a + b, tag) == Select(a, tag) + Select(b, tag)
    decreases |a|
  {
    if |a| > 0 {
      var head := if HasTag(a[0], tag) then [a[0]] else [];
      assert (a + b)[0] == a[0];
      assert (a + b)[1..] == a[1..] + b;
      calc {
        Select(a + b, tag);
        head + Select(a[1..] + b, tag);
        { SelectAppend(a[1..], b, tag); }
        head + (Select(a[1..], tag) + Select(b, tag));
        (head + Select(a[1..], tag)) + Select(b, tag);
        Select(a, tag) + Select(b, tag);
      }
    } else {
      assert a + b == b;
    }
  }

  /** Selection keeps every block carrying the tag, as often as it occurs,
      and no block of another tag. */
  lemma {:induction false} SelectCounts(content: seq<Block>, tag: Tag, b: Block)
    ensures multiset(Select(content, tag))[b] == if HasTag(b, tag) then multiset(content)[b] else 0
    decreases |content|
  {
    if |content| > 0 {
      assert content == [content[0]] + content[1..];
      SelectCounts(content[1..], tag, b);
    }
  }

  /** Each block of the response lands in exactly the list its tag names, and
      blocks of any other type land in neither. */
  lemma PartitionExact(content: seq<Block>, b: Block)
    requires b in content
    ensures b.TextBlock? <==> b in TextBlocks(content)
    ensures b.ToolUseBlock? <==> b in ToolBlocks(content)
    ensures b.OtherBlock? <==> (b !in TextBlocks(content) && b !in ToolBlocks(content))
  {
    assert multiset(content)[b] > 0;
    SelectCounts(content, Text, b);
    SelectCounts(content, ToolUse, b);
    assert b in multiset(TextBlocks(content)) <==> b.TextBlock?;
    assert b in multiset(ToolBlocks(content)) <==> b.ToolUseBlock?;
  }

  /** The text and tool lists over a grown ledger are the old lists followed
      by the new response's lists. */
  lemma LedgerSelection(history: seq<Block>, content: seq<Block>, tag: Tag)
    ensures Select(Analyze(history, content).newHistory, tag) == Select(history, tag) + Select(content, tag)
  {
    SelectAppend(history, content, tag);
  }
}
