/**
 * `getNonce`: a time-derived request nonce that is kept apart from a bounded
 * window of the most recently issued ones.
 */
module Nonce {

  /** How many old entries `lastNonces.slice(-50)` keeps before the new nonce is pushed. */
  const Retained: nat := 50

  /** JavaScript's `s.slice(-n)`: the last `n` elements, or all of them when there are fewer. */
  function Suffix<T>(s: seq<T>, n: nat): seq<T> {
    if |s| <= n then s else s[|s| - n..]
  }

  /** Taking the last `n` of the last `n + 1` is taking the last `n`. */
  lemma SuffixOfSuffix<T>(s: seq<T>, n: nat)
    ensures Suffix(Suffix(s, n + 1), n) == Suffix(s, n)
  {
  }

  /** Trimming to the last `n` and pushing `x` keeps the last `n + 1` of the extended history. */
  lemma SuffixPush<T>(s: seq<T>, n: nat, x: T)
    ensures Suffix(s, n) + [x] == Suffix(s + [x], n + 1)
  {
    if |s| > n {
      assert (s + [x])[|s| + 1 - (n + 1)..] == s[|s| - n..] + [x];
    }
  }

  /** No two entries of `h` less than `Retained + 2` positions apart are equal. */
  ghost predicate SpreadDistinct(h: seq<nat>) {
    forall i, j :: 0 <= i < j < |h| && j - i <= Retained + 1 ==> h[i] != h[j]
  }

  /** A nonce absent from the window keeps the history spread-distinct once it is appended. */
  lemma FreshExtendsHistory(h: seq<nat>, nonce: nat)
    requires SpreadDistinct(h)
    requires nonce !in Suffix(h, Retained + 1)
    ensures SpreadDistinct(h + [nonce])
  {
    var h' := h + [nonce];
    forall a, b | 0 <= a < b < |h'| && b - a <= Retained + 1
      ensures h'[a] != h'[b]
    {
      if b == |h| {
        var w := Suffix(h, Retained + 1);
        assert h[a] == w[a - (|h| - |w|)];
      }
    }
  }

  /** Trimming the window and pushing a nonce that was not in it keeps the window invariant for the longer history. */
  lemma WindowStep(h: seq<nat>, window: seq<nat>, nonce: nat)
    requires window == Suffix(h, Retained + 1) && SpreadDistinct(h)
    requires nonce !in window
    ensures Suffix(window, Retained) + [nonce] == Suffix(h + [nonce], Retained + 1)
    ensures SpreadDistinct(h + [nonce])
  {
    SuffixOfSuffix(h, Retained);
    SuffixPush(h, Retained, nonce);
    FreshExtendsHistory(h, nonce);
  }

  /**
   * The retry loop of `getNonce`: the index of the first clock reading that
   * is not in `window`.
   */
  method FirstReadingOutside(clock: seq<nat>, window: seq<nat>) returns (k: nat)
    requires exists k :: 0 <= k < |clock| && clock[k] !in window
    ensures k < |clock| && clock[k] !in window
    ensures forall j :: 0 <= j < k ==> clock[j] in window
  {
    ghost var outside :| 0 <= outside < |clock| && clock[outside] !in window;
    k := 0;
    var nonce := clock[0];
    while nonce in window
      invariant 0 <= k <= outside && nonce == clock[k]
      invariant forall j :: 0 <= j < k ==> clock[j] in window
      decreases outside - k
    {
      k := k + 1;
      nonce := clock[k];
    }
  }

  /**
   * The module-level `lastNonces` of the client, with the history of every
   * nonce it has handed out as a ghost field.
   */
  class NonceWindow {
    var lastNonces: seq<nat>
    ghost var issued: seq<nat>

    /**
     * The window is the last `Retained + 1` issued nonces, and any
     * `Retained + 2` consecutively issued nonces are pairwise distinct.
     */
    ghost predicate Valid()
      reads this
    {
      && lastNonces == Suffix(issued, Retained + 1)
      && SpreadDistinct(issued)
    }

    constructor ()
      ensures Valid() && lastNonces == [] && issued == []
    {
      lastNonces := [];
      issued := [];
    }

    /**
     * node.bittrex.api.js `getNonce`.  `clock` lists the successive readings
     * of `new Date().getTime()`; the first one not in the window is returned.
     * The source retries without bound, so a caller that gets a nonce is one
     * whose clock eventually leaves the window: that is the precondition.
     */
    method GetNonce(clock: seq<nat>) returns (nonce: nat)
      requires Valid()
      requires exists k :: 0 <= k < |clock| && clock[k] !in lastNonces
      modifies this
      ensures Valid()
      ensures nonce !in old(lastNonces)
      ensures exists k :: 0 <= k < |clock| && clock[k] == nonce &&
                forall j :: 0 <= j < k ==> clock[j] in old(lastNonces)
      ensures lastNonces == Suffix(old(lastNonces), Retained) + [nonce]
      ensures |lastNonces| <= Retained + 1 && lastNonces[|lastNonces| - 1] == nonce
      ensures issued == old(issued) + [nonce]
    {
      var k := FirstReadingOutside(clock, lastNonces);
      nonce := clock[k];
      WindowStep(issued, lastNonces, nonce);
      lastNonces := Suffix(lastNonces, Retained) + [nonce];
      issued := issued + [nonce];
    }
  }
}
