/** The Konami-code easter egg: a keydown listener that counts how much of a
    fixed ten-key sequence has been typed and fires when all ten arrive in a row.
    A wrong key always restarts the count at zero; there is no fallback to a
    shorter partial match. */
module Konami {

  /** The key sequence, as compared against `KeyboardEvent.key`. */
  const Code: seq<string> := ["ArrowUp", "ArrowUp", "ArrowDown", "ArrowDown",
                              "ArrowLeft", "ArrowRight", "ArrowLeft", "ArrowRight",
                              "b", "a"]

  /** What one keydown does: the next index and whether the easter egg fired. */
  datatype Step = Step(index: nat, fired: bool)

  /** One keydown, starting from a partial match of length `index`. */
  function KeyStep(index: nat, key: string): (r: Step)
    requires index < |Code|
    ensures r.index < |Code|
    ensures r.fired <==> index == |Code| - 1 && key == Code[index]
    ensures key == Code[index] && !r.fired ==> r.index == index + 1
    ensures key != Code[index] || r.fired ==> r.index == 0
  {
    if key == Code[index] then
      if index + 1 == |Code| then Step(0, true) else Step(index + 1, false)
    else
      Step(0, false)
  }

  /** The listener's state after a whole sequence of keys, from a fresh page:
      the current index and how many times the easter egg has fired. */
  datatype Run = Run(index: nat, fires: nat)

  function Feed(keys: seq<string>): (r: Run)
    ensures r.index < |Code|
    ensures r.index <= |keys|
  {
    if keys == [] then Run(0, 0)
    else
      var before := Feed(keys[..|keys| - 1]);
      var s := KeyStep(before.index, keys[|keys| - 1]);
      Run(s.index, before.fires + if s.fired then 1 else 0)
  }

  /** The index counts exactly a matched prefix of the code that the keys end with. */
  lemma {:induction false} IndexIsMatchedSuffix(keys: seq<string>)
    ensures var k := Feed(keys).index;
            k <= |keys| && keys[|keys| - k..] == Code[..k]
  {
    if keys != [] {
      var pre := keys[..|keys| - 1];
      IndexIsMatchedSuffix(pre);
      var b := Feed(pre).index;
      var key := keys[|keys| - 1];
      var s := KeyStep(b, key);
      if s.index == b + 1 {
        assert keys == pre + [key];
        assert keys[|keys| - s.index..] == pre[|pre| - b..] + [key];
        assert Code[..s.index] == Code[..b] + [Code[b]];
      }
    }
  }

  /** The easter egg fires on a key only if it completes the code: the keys
      before it end with the first nine keys of the code and it is the tenth. */
  lemma FiresOnlyAfterCode(pre: seq<string>, key: string)
    requires KeyStep(Feed(pre).index, key).fired
    ensures |pre + [key]| >= |Code| && (pre + [key])[|pre| + 1 - |Code|..] == Code
  {
    var b := Feed(pre).index;
    assert b == |Code| - 1 && key == Code[b];
    IndexIsMatchedSuffix(pre);
    ExtendSuffix(pre + [key], Code, b);
    assert (pre + [key])[..|pre|] == pre;
    assert Code[..b + 1] == Code;
  }

  /** If all but the last element of `s` end with `p[..k]` and the last element
      is `p[k]`, then `s` ends with `p[..k + 1]`. */
  lemma ExtendSuffix<T>(s: seq<T>, p: seq<T>, k: nat)
    requires 0 < |s| && k < |p|
    requires k <= |s| - 1 && s[..|s| - 1][|s| - 1 - k..] == p[..k]
    requires s[|s| - 1] == p[k]
    ensures s[|s| - (k + 1)..] == p[..k + 1]
  {
    assert s[|s| - (k + 1)..] == s[..|s| - 1][|s| - 1 - k..] + [s[|s| - 1]];
  }

  /** From an idle listener, typing the code advances the index one key at a
      time and fires exactly once, on the last key, leaving the index at 0. */
  lemma {:induction false} CodeAdvances(pre: seq<string>, k: nat)
    requires Feed(pre).index == 0
    requires k <= |Code|
    ensures k < |Code| ==> Feed(pre + Code[..k]) == Run(k, Feed(pre).fires)
    ensures k == |Code| ==> Feed(pre + Code[..k]) == Run(0, Feed(pre).fires + 1)
  {
    if k == 0 {
      assert pre + Code[..0] == pre;
    } else {
      CodeAdvances(pre, k - 1);
      var keys := pre + Code[..k];
      assert keys[..|keys| - 1] == pre + Code[..k - 1];
      assert keys[|keys| - 1] == Code[k - 1];
    }
  }

  lemma CodeFiresOnce(pre: seq<string>)
    requires Feed(pre).index == 0
    ensures Feed(pre + Code) == Run(0, Feed(pre).fires + 1)
  {
    CodeAdvances(pre, |Code|);
    assert Code[..|Code|] == Code;
  }

  /** Without fallback, one extra "ArrowUp" in front of the code spoils it:
      the third "ArrowUp" resets the index, so the keys end with the code and
      yet nothing fires. */
  lemma NoFallback()
    ensures var keys := ["ArrowUp"] + Code;
            keys[|keys| - |Code|..] == Code && Feed(keys).fires == 0
  {
    var keys := ["ArrowUp"] + Code;
    assert keys[1..] == Code;
    assert Feed(keys[..1]) == Run(1, 0);
    assert Feed(keys[..2]) == Run(2, 0) by { assert keys[..2][..1] == keys[..1]; }
    assert Feed(keys[..3]) == Run(0, 0) by { assert keys[..3][..2] == keys[..2]; }
    var k := 3;
    while k < |keys|
      invariant 3 <= k <= |keys|
      invariant Feed(keys[..k]) == Run(0, 0)
    {
      assert keys[..k + 1][..k] == keys[..k];
      assert keys[k] != Code[0];
      k := k + 1;
    }
    assert keys[..|keys|] == keys;
  }

  /** The keydown listener: the closure variable `konamiIndex` becomes a field. */
  class Listener {
    var index: nat

    ghost predicate Valid()
      reads this
    {
      index < |Code|
    }

    constructor ()
      ensures Valid() && index == 0
    {
      index := 0;
    }

    /** Handles one keydown; `fired` says whether the easter egg is shown. */
    method KeyDown(key: string) returns (fired: bool)
      requires Valid()
      modifies this
      ensures Valid()
      ensures Step(index, fired) == KeyStep(old(index), key)
    {
      if key == Code[index] {
        index := index + 1;
        fired := index == |Code|;
        if fired {
          index := 0;
        }
      } else {
        fired := false;
        index := 0;
      }
    }
  }
}
