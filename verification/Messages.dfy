/** `Message` of shared_types/message.rs, with the fields the modelled code reads. */
module Messages {
  import opened Text

  datatype Role = System | User | Assistant | Tool

  datatype ContentBlock = TextBlock(text: string) | OtherBlock(mimeType: string)

  datatype Message = Message(role: Role, content: seq<ContentBlock>)

  function TextsOf(content: seq<ContentBlock>): seq<string> {
    if content == [] then []
    else (if content[0].TextBlock? then [content[0].text] else []) + TextsOf(content[1..])
  }

  function TextContent(m: Message): string {
    Join(TextsOf(m.content), " ")
  }

  function EstimateTokens(m: Message): nat {
    |TextContent(m)| / 2 + 1
  }

  function TokenSum(messages: seq<Message>): nat {
    if messages == [] then 0 else EstimateTokens(messages[0]) + TokenSum(messages[1..])
  }

  /** The texts of a message are those of its text blocks, in order. */
  lemma {:induction false} TextsOfAppend(content: seq<ContentBlock>, last: ContentBlock)
    ensures TextsOf(content + [last]) == TextsOf(content) + if last.TextBlock? then [last.text] else []
  {
    if content == [] {
      assert [last][1..] == [];
    } else {
      assert (content + [last])[1..] == content[1..] + [last];
      TextsOfAppend(content[1..], last);
    }
  }

  /** A message of one text costs a token for every two characters, and one more. */
  lemma TokensOfText(role: Role, text: string)
    ensures var tokens := EstimateTokens(Message(role, [TextBlock(text)]));
      2 * tokens - 2 <= |text| <= 2 * tokens - 1
  {
    assert [TextBlock(text)][1..] == [];
    assert TextsOf([TextBlock(text)]) == [text];
  }

  /** Another text costs its own characters and a space. */
  lemma TokensOfLongerText(role: Role, content: seq<ContentBlock>, text: string)
    requires TextsOf(content) != []
    ensures var before, after := Message(role, content), Message(role, content + [TextBlock(text)]);
      && TextContent(after) == TextContent(before) + " " + text
      && EstimateTokens(after) == (|TextContent(before)| + 1 + |text|) / 2 + 1
  {
    TextsOfAppend(content, TextBlock(text));
    JoinAppend(TextsOf(content), text, " ");
  }

  lemma {:induction false} TokenSumOfAll(messages: seq<Message>, last: Message)
    ensures TokenSum(messages + [last]) == TokenSum(messages) + EstimateTokens(last)
  {
    if messages == [] {
      assert [last][1..] == [];
    } else {
      assert (messages + [last])[1..] == messages[1..] + [last];
      TokenSumOfAll(messages[1..], last);
    }
  }
}
