/** The LIFO stack the runner keeps its pending work items in, and the
    non-throwing `TryPop` used to drain it. */
module Stacks {
  import opened Errors

  /** A `System.Collections.Generic.Stack<T>`: `items` lists the elements
      from the bottom to the top, so the top is the last element. */
  class Stack<T> {
    var items: seq<T>

    constructor ()
      ensures items == []
    {
      items := [];
    }

    function Count(): nat
      reads this
    {
      |items|
    }

    method Push(x: T)
      modifies this
      ensures items == old(items) + [x]
    {
      items := items + [x];
    }

    /** The library's `Pop` throws on an empty stack; its callers here check
        the count first, which is what the precondition records. */
    method Pop() returns (x: T)
      requires |items| > 0
      modifies this
      ensures old(items) == items + [x]
    {
      x := items[|items| - 1];
      items := items[..|items| - 1];
    }
  }

  /** What `TryPop` does to a stack holding `items`: whether it popped, what it
      handed out (`None` stands for `default`), and what is left. */
  datatype Popped<T> = Popped(success: bool, value: Option<T>, rest: seq<T>)

  function TryPopped<T>(items: seq<T>): (r: Popped<T>)
    ensures r.success <==> items != []
    ensures r.success ==> r.value.Some? && items == r.rest + [r.value.value]
    ensures !r.success ==> r.value == None && r.rest == items
  {
    if |items| > 0 then Popped(true, Some(items[|items| - 1]), items[..|items| - 1])
    else Popped(false, None, items)
  }

  /** Pops the top element if there is one; never fails. */
  method TryPop<T>(stack: Stack<T>) returns (success: bool, value: Option<T>)
    modifies stack
    ensures Popped(success, value, stack.items) == TryPopped(old(stack.items))
  {
    if stack.Count() > 0 {
      var x := stack.Pop();
      value := Some(x);
      success := true;
    } else {
      value := None;
      success := false;
    }
  }

  function Reverse<T>(s: seq<T>): (r: seq<T>)
    ensures |r| == |s|
  {
    if s == [] then [] else Reverse(s[1..]) + [s[0]]
  }

  /** The elements `n` successive `TryPop` calls hand out, in order, and the
      stack they leave; a call that finds the stack empty hands out nothing. */
  function Drain<T>(items: seq<T>, n: nat): (seq<T>, seq<T>)
  {
    if n == 0 then ([], items)
    else
      var p := TryPopped(items);
      var (more, rest) := Drain(p.rest, n - 1);
      (if p.success then [p.value.value] + more else more, rest)
  }

  /** Last in, first out: after pushing `xs` onto any stack, as many pops hand
      `xs` back in reverse order and leave the stack as it was. */
  lemma {:induction false} DrainAfterPushes<T>(base: seq<T>, xs: seq<T>)
    ensures Drain(base + xs, |xs|) == (Reverse(xs), base)
  {
    if xs != [] {
      var last := |xs| - 1;
      var init := xs[..last];
      assert base + xs == (base + init) + [xs[last]];
      assert TryPopped(base + xs) == Popped(true, Some(xs[last]), base + init);
      DrainAfterPushes(base, init);
      assert |init| == |xs| - 1;
      assert Drain(base + xs, |xs|) == ([xs[last]] + Reverse(init), base);
      ReverseSnoc(init, xs[last]);
      assert init + [xs[last]] == xs;
    } else {
      assert base + xs == base;
    }
  }

  lemma {:induction false} ReverseSnoc<T>(s: seq<T>, x: T)
    ensures Reverse(s + [x]) == [x] + Reverse(s)
  {
    if s != [] {
      assert (s + [x])[1..] == s[1..] + [x];
      ReverseSnoc(s[1..], x);
    } else {
      assert [x][1..] == [];
    }
  }
}
