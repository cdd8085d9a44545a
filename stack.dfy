/** The linked-list token stack of calculator.c:314-344, used by
    `infix_to_postfix` for operators and by `calc_rpn` for values. The nodes
    become a sequence whose last element is the top. */
module Stacks {
  import opened CalcTypes

  /** `pop` on a stack given as a sequence (top last): on an empty stack it
      fails and leaves both the stack and the caller's buffer `buf` as they
      were, as `pop` leaves `token[]` untouched. */
  function PopFrom(items: seq<string>, buf: string): (r: (Status, string, seq<string>))
    ensures items == [] ==> r == (Error, buf, items)
    ensures items != [] ==> r.0 == Success && r.2 + [r.1] == items
  {
    if items == [] then (Error, buf, items)
    else (Success, items[|items| - 1], items[..|items| - 1])
  }

  /** Pushing then popping gives back the pushed token and the prior stack. */
  lemma PushThenPop(items: seq<string>, token: string, buf: string)
    ensures PopFrom(items + [token], buf) == (Success, token, items)
  {
  }

  class Stack {
    /** Bottom first; the top is the last element. */
    var items: seq<string>

    constructor ()
      ensures items == []
    {
      items := [];
    }

    /** `is_empty` */
    predicate IsEmpty(): (b: bool)
      reads this
      ensures b <==> !Peek().Some?
    {
      items == []
    }

    /** `peek`: the top token, or `None` (the source's ERROR) when empty;
        it never changes the stack. */
    function Peek(): (r: Option)
      reads this
      ensures r.Some? <==> items != []
      ensures r.Some? ==> r.value == items[|items| - 1]
    {
      if items == [] then None else Some(items[|items| - 1])
    }

    /** `push` */
    method Push(token: string)
      modifies this
      ensures items == old(items) + [token]
    {
      items := items + [token];
    }

    /** `pop`: the caller's buffer `buf` comes back unchanged on failure. */
    method Pop(buf: string) returns (status: Status, token: string)
      modifies this
      ensures (status, token, items) == PopFrom(old(items), buf)
    {
      if items == [] {
        status, token := Error, buf;
      } else {
        status, token := Success, items[|items| - 1];
        items := items[..|items| - 1];
      }
    }

    /** `clean`: release every node, top first. */
    method Clean()
      modifies this
      ensures IsEmpty()
    {
      while items != []
        decreases |items|
      {
        items := items[..|items| - 1];
      }
    }
  }

  datatype Option = None | Some(value: string)
}
