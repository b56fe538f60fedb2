/** The typewriter effect of the hero section: a timer-driven step that appends
    the next character of a fixed code snippet to an element's text until the
    snippet is exhausted. One timer callback is one call of `Typewriter.Type`. */
module Typing {

  /** The snippet that is typed out, character by character. */
  const Snippet: string := "# AI/ML Engineer\n\nimport coffee\nfrom brain import ideas\n\n"
    + "while coffee.level > 0:\n    ideas.generate()\n    bugs.fix()\n    models.train()\n    \n"
    + "if success:\n    print(\"Let's build something cool!\")\nelse:\n    coffee.refill()"

  /** The element's text and the index of the next character to type. */
  datatype Typed = Typed(text: string, index: nat)

  /** The typewriter shows `initial` followed by exactly the characters typed so far. */
  predicate Shows(initial: string, s: Typed)
  {
    s.index <= |Snippet| && s.text == initial + Snippet[..s.index]
  }

  /** One call of the timer callback. */
  function TypeStep(s: Typed): (r: Typed)
    ensures s.index < |Snippet| ==> r.text == s.text + [Snippet[s.index]] && r.index == s.index + 1
    ensures s.index >= |Snippet| ==> r == s
  {
    if s.index < |Snippet| then Typed(s.text + [Snippet[s.index]], s.index + 1) else s
  }

  /** A step keeps the text equal to the initial content plus the typed prefix. */
  lemma StepKeepsShowing(initial: string, s: Typed)
    requires Shows(initial, s)
    ensures Shows(initial, TypeStep(s))
  {
    if s.index < |Snippet| {
      PrefixGrows(Snippet, s.index);
    }
  }

  lemma PrefixGrows<T>(w: seq<T>, i: nat)
    requires i < |w|
    ensures w[..i + 1] == w[..i] + [w[i]]
  {
  }

  /** `n` timer callbacks in a row. */
  function TypeSteps(s: Typed, n: nat): Typed
    decreases n
  {
    if n == 0 then s else TypeSteps(TypeStep(s), n - 1)
  }

  function Min(a: nat, b: nat): nat { if a <= b then a else b }

  /** After `n` more callbacks the text is the initial content followed by the
      first `index + n` characters of the snippet (all of it once that reaches
      its length), and the index says how many were typed. From a fresh
      start (`index == 0`) that is the first `n` characters. */
  lemma {:induction false} TypedAfter(initial: string, s: Typed, n: nat)
    requires Shows(initial, s)
    ensures var k := Min(s.index + n, |Snippet|);
            TypeSteps(s, n) == Typed(initial + Snippet[..k], k)
    decreases n
  {
    if n == 0 {
    } else {
      StepKeepsShowing(initial, s);
      TypedAfter(initial, TypeStep(s), n - 1);
      if s.index >= |Snippet| {
        assert TypeStep(s) == s;
      }
    }
  }

  /** Once the snippet is exhausted, further callbacks change nothing. */
  lemma {:induction false} DoneIsFinal(s: Typed, n: nat)
    requires s.index >= |Snippet|
    ensures TypeSteps(s, n) == s
  {
    if n > 0 {
      DoneIsFinal(TypeStep(s), n - 1);
    }
  }

  /** The typing element with the closure variable `index`. */
  class Typewriter {
    ghost const initial: string
    var text: string
    var index: nat

    ghost predicate Valid()
      reads this
    {
      Shows(initial, Typed(text, index))
    }

    /** `content` is the element's text before the first callback. */
    constructor (content: string)
      ensures Valid() && initial == content && text == content && index == 0
    {
      initial := content;
      text := content;
      index := 0;
    }

    method Type()
      requires Valid()
      modifies this
      ensures Valid()
      ensures Typed(text, index) == TypeStep(Typed(old(text), old(index)))
    {
      if index < |Snippet| {
        text := text + [Snippet[index]];
        index := index + 1;
        StepKeepsShowing(initial, Typed(old(text), old(index)));
      }
    }
  }
}
