/**
 * The effect of `addButtonListeners` on the document: every button inside
 * `main` whose `data-post-id` is non-empty gets one new click closure, in
 * document order, with consecutive fresh identities.
 */
module Listeners {
  import opened Wrappers
  import opened Dom
  import opened Layout

  /** A button that `addButtonListeners` and `removeButtonListeners` act on: `button.dataset.postId` is truthy. */
  predicate Keyed(p: Props)
  {
    p.tag == "button" && p.postId.Some? && p.postId.value != ""
  }

  /** How many keyed buttons a stretch of the document holds. */
  function KeyedCount(f: seq<Props>): (n: nat)
    ensures n <= |f|
  {
    if f == [] then 0 else KeyedCount(f[..|f| - 1]) + (if Keyed(f[|f| - 1]) then 1 else 0)
  }

  /** Every listener id on the page is below n: an id from n on is fresh. */
  predicate ClosuresBelow(f: seq<Props>, n: nat)
  {
    forall j, c :: 0 <= j < |f| && c in f[j].listeners ==> c.id < n
  }

  /** Appending elements without listeners keeps every listener id below n. */
  lemma ClosuresBelowAppend(a: seq<Props>, b: seq<Props>, n: nat)
    requires ClosuresBelow(a, n) && NoListeners(b)
    ensures ClosuresBelow(a + b, n)
  {
    forall j | 0 <= j < |a + b| ensures (a + b)[j] == if j < |a| then a[j] else b[j - |a|] {
    }
  }

  /** The closure `addButtonListeners` registers on the keyed button at position j, when its ids start at base. */
  function ClosureAt(f: seq<Props>, j: nat, base: nat): (c: Closure)
    requires j < |f| && Keyed(f[j])
  {
    Closure(base + KeyedCount(f[..j]), f[j].postId.value)
  }

  function AttachAt(f: seq<Props>, j: nat, base: nat): (q: Props)
    requires j < |f|
  {
    if Keyed(f[j]) then Apply(AddListener(ClosureAt(f, j, base)), f[j]) else f[j]
  }

  /** The document after `addButtonListeners`, when the fresh ids start at base. */
  function Attached(f: seq<Props>, base: nat): (r: seq<Props>)
    ensures |r| == |f| && forall j :: 0 <= j < |f| ==> r[j] == AttachAt(f, j, base)
  {
    seq(|f|, j requires 0 <= j < |f| => AttachAt(f, j, base))
  }

  lemma {:induction false} KeyedCountPrefix(f: seq<Props>, i: nat, j: nat)
    requires i <= j <= |f|
    ensures KeyedCount(f[..i]) <= KeyedCount(f[..j])
    ensures i < j && Keyed(f[i]) ==> KeyedCount(f[..i]) < KeyedCount(f[..j])
    decreases j - i
  {
    if i < j {
      KeyedCountPrefix(f, i, j - 1);
      assert f[..j][..j - 1] == f[..j - 1];
      if i == j - 1 {
        assert f[..j][j - 1] == f[i];
      }
    }
  }

  lemma {:induction false} KeyedCountSameKeys(f: seq<Props>, g: seq<Props>)
    requires |f| == |g| && forall j :: 0 <= j < |f| ==> Keyed(f[j]) == Keyed(g[j])
    ensures KeyedCount(f) == KeyedCount(g)
    ensures forall j :: 0 <= j <= |f| ==> KeyedCount(f[..j]) == KeyedCount(g[..j])
  {
    if f != [] {
      KeyedCountSameKeys(f[..|f| - 1], g[..|g| - 1]);
      forall j | 0 <= j <= |f| ensures KeyedCount(f[..j]) == KeyedCount(g[..j]) {
        if j < |f| {
          assert f[..j] == f[..|f| - 1][..j] && g[..j] == g[..|g| - 1][..j];
        } else {
          assert f[..j] == f && g[..j] == g;
        }
      }
    }
  }

  /** The keyed buttons get distinct closures, all from base on and below base plus their number. */
  lemma AttachedFresh(f: seq<Props>, base: nat)
    ensures forall i, j :: 0 <= i < j < |f| && Keyed(f[i]) && Keyed(f[j]) ==> ClosureAt(f, i, base) != ClosureAt(f, j, base)
    ensures forall j :: 0 <= j < |f| && Keyed(f[j]) ==> base <= ClosureAt(f, j, base).id < base + KeyedCount(f)
  {
    forall i, j | 0 <= i < j < |f| && Keyed(f[i]) && Keyed(f[j])
      ensures ClosureAt(f, i, base).id < ClosureAt(f, j, base).id
    {
      KeyedCountPrefix(f, i, j);
    }
    forall j | 0 <= j < |f| && Keyed(f[j]) ensures ClosureAt(f, j, base).id < base + KeyedCount(f) {
      KeyedCountPrefix(f, j, |f|);
      assert f[..|f|] == f;
    }
  }

  /** Listener ids stay below the counter once it has moved past the ids just handed out. */
  lemma AttachedBelow(f: seq<Props>, base: nat)
    requires ClosuresBelow(f, base)
    ensures ClosuresBelow(Attached(f, base), base + KeyedCount(f))
  {
    AttachedFresh(f, base);
  }

  /**
   * On a page that has no listener yet, one pass leaves every keyed button
   * with exactly one listener, bound to its own post id, and no other element
   * with any.
   */
  lemma AttachedOnce(f: seq<Props>, base: nat)
    requires NoListeners(f)
    ensures forall j :: 0 <= j < |f| && Keyed(f[j]) ==>
              |Attached(f, base)[j].listeners| == 1 &&
              forall c :: c in Attached(f, base)[j].listeners ==> c.postId == f[j].postId.value
    ensures forall j :: 0 <= j < |f| && !Keyed(f[j]) ==> Attached(f, base)[j].listeners == {}
  {
  }

  /**
   * A second pass without clearing the page stacks a second listener on every
   * keyed button: listeners accumulate, so one click would run two closures.
   */
  lemma AttachedTwice(f: seq<Props>, b1: nat, b2: nat)
    requires NoListeners(f)
    requires b2 >= b1 + KeyedCount(f)
    ensures forall j :: 0 <= j < |f| && Keyed(f[j]) ==> |Attached(Attached(f, b1), b2)[j].listeners| == 2
  {
    var g := Attached(f, b1);
    forall j | 0 <= j < |f| ensures Keyed(g[j]) == Keyed(f[j]) {
      assert g[j] == AttachAt(f, j, b1);
    }
    KeyedCountSameKeys(f, g);
    AttachedFresh(f, b1);
    forall j | 0 <= j < |f| && Keyed(f[j])
      ensures |Attached(g, b2)[j].listeners| == 2
    {
      TwoListeners(f, g, j, b1, b2);
    }
  }

  /** One keyed button after two passes: the first closure, then a second one with a later id. */
  lemma TwoListeners(f: seq<Props>, g: seq<Props>, j: nat, b1: nat, b2: nat)
    requires j < |f| && Keyed(f[j]) && f[j].listeners == {}
    requires g == Attached(f, b1) && Keyed(g[j])
    requires ClosureAt(f, j, b1).id < b2
    ensures |Attached(g, b2)[j].listeners| == 2
  {
    var c1, c2 := ClosureAt(f, j, b1), ClosureAt(g, j, b2);
    assert g[j] == AttachAt(f, j, b1);
    assert g[j].listeners == {c1};
    assert Attached(g, b2)[j] == AttachAt(g, j, b2);
    assert Attached(g, b2)[j].listeners == {c1, c2};
  }

  /** A pass keeps every tag, label and post id, so every later lookup lands where it did before. */
  lemma AttachedKeepsKeys(f: seq<Props>, base: nat)
    ensures forall j :: 0 <= j < |f| ==>
              Attached(f, base)[j].tag == f[j].tag && Attached(f, base)[j].postId == f[j].postId && Attached(f, base)[j].text == f[j].text
    ensures forall key :: FirstMatch(Attached(f, base), key) == FirstMatch(f, key)
    ensures ButtonsFirst(f) ==> ButtonsFirst(Attached(f, base))
    ensures SectionsHidden(f) ==> SectionsHidden(Attached(f, base))
    ensures ShowsLabel(f) ==> ShowsLabel(Attached(f, base))
    ensures ButtonsKeyed(f) ==> ButtonsKeyed(Attached(f, base))
  {
    var g := Attached(f, base);
    forall j | 0 <= j < |f|
      ensures g[j].tag == f[j].tag && g[j].postId == f[j].postId && g[j].text == f[j].text && g[j].classes == f[j].classes
    {
      assert g[j] == AttachAt(f, j, base);
    }
    SameLabelsSameLayout(f, g);
  }

  /** Two documents that agree position by position on everything but listeners share every layout property. */
  lemma SameLabelsSameLayout(f: seq<Props>, g: seq<Props>)
    requires |g| == |f|
    requires forall j :: 0 <= j < |f| ==>
               g[j].tag == f[j].tag && g[j].postId == f[j].postId && g[j].text == f[j].text && g[j].classes == f[j].classes
    ensures forall key :: FirstMatch(g, key) == FirstMatch(f, key)
    ensures ButtonsFirst(f) ==> ButtonsFirst(g)
    ensures SectionsHidden(f) ==> SectionsHidden(g)
    ensures ShowsLabel(f) ==> ShowsLabel(g)
    ensures ButtonsKeyed(f) ==> ButtonsKeyed(g)
  {
    forall key ensures FirstMatch(g, key) == FirstMatch(f, key) {
      SameKeysSameMatch(f, g, key);
    }
  }

  /** One step of the `addButtonListeners` loop: position i gets its closure and the ids move on when it is keyed. */
  lemma AttachProgress(f: seq<Props>, base: nat, i: nat, cur: seq<Props>, n: nat)
    requires i < |f| && cur == Attached(f, base)[..i] + f[i..]
    requires n == base + KeyedCount(f[..i])
    ensures |cur| == |f| && cur[i] == f[i]
    ensures Keyed(f[i]) ==> cur[i := Apply(AddListener(Closure(n, f[i].postId.value)), cur[i])] == Attached(f, base)[..i + 1] + f[i + 1..]
    ensures !Keyed(f[i]) ==> cur == Attached(f, base)[..i + 1] + f[i + 1..]
    ensures KeyedCount(f[..i + 1]) == KeyedCount(f[..i]) + (if Keyed(f[i]) then 1 else 0)
  {
    assert f[..i + 1][..i] == f[..i];
  }
}
