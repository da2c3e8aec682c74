/** Prompt assembly for one chat turn (steps 4 to 6 of the handler and the
    helper `buildSystemPrompt`): the system message that carries the
    instructions and the current JSON memory, and the rolling window of at
    most four recent turns that follows it. */
module Prompt {

  datatype Role = System | User | Assistant

  /** One entry of the message list sent to the completion API. */
  datatype Message = Message(role: Role, content: string)

  /** The memory a new session starts with, and the one shown when the
      current memory is empty. */
  const DefaultMemory := "{\"name\":\"\",\"email\":\"\",\"phone\":\"\",\"location\":\"\",\"artist\":\"\",\"priceRange\":\"\",\"description\":\"\",\"date\":\"\",\"alreadyGreeted\":false}"

  /** The text between the instructions and the memory in the system prompt. */
  const MemoryHeading := "\n\nCurrent Known JSON Memory:\n"

  /** The rolling window keeps 2 user-assistant pairs. */
  const WindowLimit := 4

  /** `currentMemory || default`: an empty memory is shown as the default. */
  function ShownMemory(memory: string): (shown: string)
    ensures shown != ""
    ensures memory != "" ==> shown == memory
    ensures memory == "" ==> shown == DefaultMemory
  {
    if memory == "" then DefaultMemory else memory
  }

  /** The memory as it stands in a system prompt built for `instructions`. */
  function MemoryInPrompt(instructions: string, p: string): string
    requires |p| >= |instructions| + |MemoryHeading| + 2
  {
    p[|instructions| + 1 + |MemoryHeading|..|p| - 1]
  }

  /** `buildSystemPrompt`: the system prompt opens with a newline and the
      instructions, then the memory heading; the memory shown can be read
      back out of it unchanged (an empty memory reads back as the default),
      and a newline ends it. */
  function BuildSystemPrompt(instructions: string, memory: string): (p: string)
    ensures |p| >= |instructions| + |MemoryHeading| + 2
    ensures p[0] == '\n' && p[1..|instructions| + 1] == instructions && p[|p| - 1] == '\n'
    ensures p[|instructions| + 1..|instructions| + 1 + |MemoryHeading|] == MemoryHeading
    ensures MemoryInPrompt(instructions, p) == ShownMemory(memory)
  {
    var shown := ShownMemory(memory);
    var head := "\n" + instructions + MemoryHeading;
    var p := head + shown + "\n";
    var n := |instructions| + 1 + |MemoryHeading|;
    assert |head| == n && p[..n] == head;
    assert head[1..|instructions| + 1] == instructions;
    assert head[|instructions| + 1..] == MemoryHeading;
    assert p[n..|p| - 1] == shown;
    p
  }

  /** Steps 5 and 6: `[{role: 'system', content: systemPrompt}, ...conversation]`.
      The list starts with a system message carrying the memory (the only
      one when the conversation holds none); the conversation follows
      unchanged. */
  function AssemblePrompt(instructions: string, memory: string, conversation: seq<Message>): (msgs: seq<Message>)
    ensures |msgs| == |conversation| + 1
    ensures msgs[0].role == System
    ensures |msgs[0].content| >= |instructions| + |MemoryHeading| + 2
    ensures MemoryInPrompt(instructions, msgs[0].content) == ShownMemory(memory)
    ensures msgs[1..] == conversation
    ensures (forall t :: t in conversation ==> t.role != System) ==>
              forall i :: 1 <= i < |msgs| ==> msgs[i].role != System
  {
    [Message(System, BuildSystemPrompt(instructions, memory))] + conversation
  }

  /** The rolling window (the `while (length > 4) shift()` loops): the last
      min(4, n) of n turns, in arrival order. */
  function Window(h: seq<Message>): (w: seq<Message>)
    ensures |w| == if |h| <= WindowLimit then |h| else WindowLimit
    ensures w == h[|h| - |w|..]
  {
    if |h| <= WindowLimit then h else h[|h| - WindowLimit..]
  }

  /** Windowing after every push gives the same conversation as windowing the
      whole history once: the stored conversation is always the last
      min(4, n) turns of the n turns pushed so far. */
  lemma {:induction false} WindowPush(h: seq<Message>, t: Message)
    ensures Window(Window(h) + [t]) == Window(h + [t])
  {
    var w := Window(h);
    if |h| > WindowLimit {
      assert w + [t] == (h + [t])[|h| - WindowLimit..];
      assert Window(w + [t]) == (w + [t])[1..];
      assert (h + [t])[|h| + 1 - WindowLimit..] == (w + [t])[1..];
    }
  }
}
