/** Tool-call items, as every streaming detector emits them. */
module ToolCalls {
  import opened Text

  /** The first item of a call gives its name, the others pieces of its arguments. */
  datatype Item = Item(index: int, name: Option<string>, args: string)

  datatype Result = Result(normal: string, calls: seq<Item>)

  /** The names announced for index `i`. */
  function NamesFor(items: seq<Item>, i: int): seq<string> {
    if items == [] then []
    else (if items[0].index == i && items[0].name.Some? then [items[0].name.value] else []) + NamesFor(items[1..], i)
  }

  /** The argument deltas of index `i`, concatenated. */
  function ArgsFor(items: seq<Item>, i: int): string {
    if items == [] then ""
    else (if items[0].index == i then items[0].args else "") + ArgsFor(items[1..], i)
  }

  lemma {:induction false} NamesAppend(a: seq<Item>, b: seq<Item>, i: int)
    ensures NamesFor(a + b, i) == NamesFor(a, i) + NamesFor(b, i)
  {
    if a == [] {
      assert a + b == b;
    } else {
      assert (a + b)[1..] == a[1..] + b;
      NamesAppend(a[1..], b, i);
    }
  }

  lemma {:induction false} ArgsAppend(a: seq<Item>, b: seq<Item>, i: int)
    ensures ArgsFor(a + b, i) == ArgsFor(a, i) + ArgsFor(b, i)
  {
    if a == [] {
      assert a + b == b;
    } else {
      assert (a + b)[1..] == a[1..] + b;
      ArgsAppend(a[1..], b, i);
    }
  }

  /** `check_for_unstreamed_tool_args` at the end of a request: of the last of
  `count` cached calls, the part of its arguments, if cached, beyond the length
  already streamed. */
  function Unsent(count: nat, cached: Option<string>, streamed: seq<string>): Option<(string, int)> {
    if count > 0 && count - 1 < |streamed| && cached.Some? && |cached.value| > |streamed[count - 1]| then
      Some((cached.value[|streamed[count - 1]|..], count - 1))
    else None
  }
}
