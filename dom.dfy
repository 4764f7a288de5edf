/**
 * An abstract document tree. An element carries its tag, its text, its class
 * list, its `data-post-id` attribute, its `value` attribute and the click
 * listeners registered on it, plus its element children in order.
 * Document order is the preorder of the tree, as `querySelector` and
 * `querySelectorAll` use it.
 */
module Dom {
  import opened Wrappers

  /** A listener closure: its identity (every evaluation of an arrow function is a new object) and the post id it captured. */
  datatype Closure = Closure(id: nat, postId: string)

  /** What an element holds besides its children. */
  datatype Props = Props(
    tag: string,
    text: string,
    classes: set<string>,
    postId: Option<string>,
    value: Option<string>,
    listeners: set<Closure>)

  datatype Elem = Elem(props: Props, children: seq<Elem>)

  /** A freshly created element with the given tag: no text, class, attribute, listener or child. */
  function NewProps(tag: string): (p: Props)
    ensures p.tag == tag && p.text == "" && p.classes == {}
    ensures p.postId == None && p.value == None && p.listeners == {}
  {
    Props(tag, "", {}, None, None, {})
  }

  /** The elements of a forest in document order (preorder), without their children. */
  function Flatten(ns: seq<Elem>): (f: seq<Props>)
    decreases ns
  {
    if ns == [] then [] else [ns[0].props] + Flatten(ns[0].children) + Flatten(ns[1..])
  }

  /** The number of children of each element of a forest, in document order: the shape of the tree. */
  function Outline(ns: seq<Elem>): (o: seq<nat>)
    ensures |o| == |Flatten(ns)|
    decreases ns
  {
    if ns == [] then [] else [|ns[0].children|] + Outline(ns[0].children) + Outline(ns[1..])
  }

  lemma {:induction false} FlattenAppend(a: seq<Elem>, b: seq<Elem>)
    ensures Flatten(a + b) == Flatten(a) + Flatten(b)
    decreases a
  {
    if a != [] {
      assert (a + b)[0] == a[0];
      assert (a + b)[1..] == a[1..] + b;
      FlattenAppend(a[1..], b);
    } else {
      assert a + b == b;
    }
  }

  /** In-place changes the program makes to one element. */
  datatype Edit =
    | ToggleClass(name: string)   // classList.toggle(name)
    | FlipLabel                    // the toggle button's textContent swap
    | AddListener(c: Closure)      // addEventListener('click', c)
    | RemoveListener(c: Closure)   // removeEventListener('click', c)

  /** The two labels of a post's toggle button. */
  const ShowLabel: string := "Show Comments"
  const HideLabel: string := "Hide Comments"

  /** The label swap of the toggle button: only "Show Comments" turns into "Hide Comments". */
  function FlipText(t: string): (r: string)
    ensures r == HideLabel <==> t == ShowLabel
    ensures r != HideLabel ==> r == ShowLabel
  {
    if t == ShowLabel then HideLabel else ShowLabel
  }

  function Apply(ed: Edit, p: Props): (q: Props)
    ensures q.tag == p.tag && q.postId == p.postId && q.value == p.value
    ensures ed.ToggleClass? ==> q.text == p.text && q.listeners == p.listeners
    ensures ed.ToggleClass? ==> (ed.name in q.classes <==> ed.name !in p.classes)
    ensures ed.ToggleClass? ==> q.classes - {ed.name} == p.classes - {ed.name}
    ensures ed.FlipLabel? ==> q.classes == p.classes && q.listeners == p.listeners && q.text == FlipText(p.text)
    ensures ed.AddListener? ==> q.text == p.text && q.classes == p.classes && q.listeners == p.listeners + {ed.c}
    ensures ed.RemoveListener? ==> q.text == p.text && q.classes == p.classes && q.listeners == p.listeners - {ed.c}
  {
    match ed
    case ToggleClass(name) =>
      p.(classes := if name in p.classes then p.classes - {name} else p.classes + {name})
    case FlipLabel =>
      p.(text := FlipText(p.text))
    case AddListener(c) =>
      p.(listeners := p.listeners + {c})
    case RemoveListener(c) =>
      p.(listeners := p.listeners - {c})
  }

  /** Unfolds Flatten and Outline on a forest given as its first tree and the rest. */
  lemma FlattenCons(e: Elem, rest: seq<Elem>)
    ensures Flatten([e] + rest) == [e.props] + Flatten(e.children) + Flatten(rest)
    ensures Outline([e] + rest) == [|e.children|] + Outline(e.children) + Outline(rest)
  {
    assert ([e] + rest)[0] == e && ([e] + rest)[1..] == rest;
  }

  /**
   * Applies an edit to the element at document-order position k. UpdateNthSpec
   * states its effect: that one element changes, nothing else does.
   */
  function UpdateNth(ns: seq<Elem>, k: nat, ed: Edit): (r: seq<Elem>)
    requires k < |Flatten(ns)|
    ensures |r| == |ns|
    decreases ns
  {
    var h := ns[0];
    var m := |Flatten(h.children)|;
    if k == 0 then [Elem(Apply(ed, h.props), h.children)] + ns[1..]
    else if k <= m then [Elem(h.props, UpdateNth(h.children, k - 1, ed))] + ns[1..]
    else [h] + UpdateNth(ns[1..], k - 1 - m, ed)
  }

  lemma {:induction false} UpdateNthSpec(ns: seq<Elem>, k: nat, ed: Edit)
    requires k < |Flatten(ns)|
    ensures Flatten(UpdateNth(ns, k, ed)) == Flatten(ns)[k := Apply(ed, Flatten(ns)[k])]
    ensures Outline(UpdateNth(ns, k, ed)) == Outline(ns)
    decreases |Flatten(ns)|, 1
  {
    if k == 0 {
      UpdateAtHead(ns, ed);
    } else if k <= |Flatten(ns[0].children)| {
      UpdateInChildren(ns, k, ed);
    } else {
      UpdateInRest(ns, k, ed);
    }
  }

  lemma UpdateAtHead(ns: seq<Elem>, ed: Edit)
    requires 0 < |Flatten(ns)|
    ensures Flatten(UpdateNth(ns, 0, ed)) == Flatten(ns)[0 := Apply(ed, Flatten(ns)[0])]
    ensures Outline(UpdateNth(ns, 0, ed)) == Outline(ns)
  {
    var h, rest := ns[0], ns[1..];
    var e := Elem(Apply(ed, h.props), h.children);
    var A, B := Flatten(h.children), Flatten(rest);
    FlattenCons(h, rest);
    FlattenCons(e, rest);
    assert ns == [h] + rest;
    assert UpdateNth(ns, 0, ed) == [e] + rest;
    UpdateLeft(h.props, A, B, Apply(ed, h.props));
  }

  lemma {:induction false} UpdateInChildren(ns: seq<Elem>, k: nat, ed: Edit)
    requires ns != []
    requires 0 < k <= |Flatten(ns[0].children)|
    ensures k < |Flatten(ns)|
    ensures Flatten(UpdateNth(ns, k, ed)) == Flatten(ns)[k := Apply(ed, Flatten(ns)[k])]
    ensures Outline(UpdateNth(ns, k, ed)) == Outline(ns)
    decreases |Flatten(ns)|, 0
  {
    var h, rest := ns[0], ns[1..];
    var c := UpdateNth(h.children, k - 1, ed);
    UpdateNthSpec(h.children, k - 1, ed);
    ChildrenLift(h, rest, c, k, ed);
    assert ns == [h] + rest;
    assert UpdateNth(ns, k, ed) == [Elem(h.props, c)] + rest;
  }

  /** An edit inside the first tree's children, seen from the whole forest. */
  lemma ChildrenLift(h: Elem, rest: seq<Elem>, c: seq<Elem>, k: nat, ed: Edit)
    requires 0 < k <= |Flatten(h.children)| && |c| == |h.children|
    requires Flatten(c) == Flatten(h.children)[k - 1 := Apply(ed, Flatten(h.children)[k - 1])]
    requires Outline(c) == Outline(h.children)
    ensures k < |Flatten([h] + rest)|
    ensures Flatten([Elem(h.props, c)] + rest) == Flatten([h] + rest)[k := Apply(ed, Flatten([h] + rest)[k])]
    ensures Outline([Elem(h.props, c)] + rest) == Outline([h] + rest)
  {
    FlattenCons(h, rest);
    FlattenCons(Elem(h.props, c), rest);
    UpdateMiddle(h.props, Flatten(h.children), Flatten(rest), k - 1, Apply(ed, Flatten(h.children)[k - 1]));
  }

  lemma {:induction false} UpdateInRest(ns: seq<Elem>, k: nat, ed: Edit)
    requires ns != []
    requires |Flatten(ns[0].children)| < k < |Flatten(ns)|
    ensures Flatten(UpdateNth(ns, k, ed)) == Flatten(ns)[k := Apply(ed, Flatten(ns)[k])]
    ensures Outline(UpdateNth(ns, k, ed)) == Outline(ns)
    decreases |Flatten(ns)|, 0
  {
    var i := k - 1 - |Flatten(ns[0].children)|;
    UpdateNthSpec(ns[1..], i, ed);
    RestLift(ns, UpdateNth(ns[1..], i, ed), i, k, ed);
  }

  /** An edit in the trees after the first one, seen from the whole forest. */
  lemma RestLift(ns: seq<Elem>, t: seq<Elem>, i: nat, k: nat, ed: Edit)
    requires ns != [] && i < |Flatten(ns[1..])| && |t| == |ns[1..]| && k == 1 + |Flatten(ns[0].children)| + i
    requires Flatten(t) == Flatten(ns[1..])[i := Apply(ed, Flatten(ns[1..])[i])] && Outline(t) == Outline(ns[1..])
    ensures k < |Flatten(ns)|
    ensures Flatten([ns[0]] + t) == Flatten(ns)[k := Apply(ed, Flatten(ns)[k])]
    ensures Outline([ns[0]] + t) == Outline(ns)
  {
    FlattenCons(ns[0], t);
    UpdateRight(ns[0].props, Flatten(ns[0].children), Flatten(ns[1..]), i, Apply(ed, Flatten(ns[1..])[i]));
  }

  lemma UpdateLeft<T>(p: T, a: seq<T>, b: seq<T>, x: T)
    ensures ([p] + a + b)[0 := x] == [x] + a + b
    ensures ([p] + a + b)[0] == p
  {
  }

  lemma UpdateMiddle<T>(p: T, a: seq<T>, b: seq<T>, i: nat, x: T)
    requires i < |a|
    ensures ([p] + a + b)[i + 1 := x] == [p] + a[i := x] + b
    ensures ([p] + a + b)[i + 1] == a[i]
  {
  }

  lemma UpdateRight<T>(p: T, a: seq<T>, b: seq<T>, i: nat, x: T)
    requires i < |b|
    ensures ([p] + a + b)[1 + |a| + i := x] == [p] + a + b[i := x]
    ensures ([p] + a + b)[1 + |a| + i] == b[i]
  {
  }

  /** Two concatenations that agree and whose first parts have one length agree part by part. */
  lemma SplitEqual<T>(p1: seq<T>, q1: seq<T>, p2: seq<T>, q2: seq<T>)
    requires p1 + q1 == p2 + q2 && |p1| == |p2|
    ensures p1 == p2 && q1 == q2
  {
    assert p1 == (p1 + q1)[..|p1|] && p2 == (p2 + q2)[..|p2|];
    assert q1 == (p1 + q1)[|p1|..] && q2 == (p2 + q2)[|p2|..];
  }

  lemma DropHead<T>(p: T, u: seq<T>, v: seq<T>, x: seq<T>)
    ensures ([p] + u + v + x)[1..] == u + (v + x)
  {
  }

  lemma DropHead2<T>(p: T, u: seq<T>, v: seq<T>)
    ensures ([p] + u + v)[1..] == u + v
  {
  }

  /**
   * The shape of a forest of n trees is never a proper prefix of the shape of
   * another forest of n trees: every shape can be read back unambiguously.
   */
  lemma {:induction false} OutlinePrefix(a: seq<Elem>, b: seq<Elem>, x: seq<nat>, y: seq<nat>)
    requires |a| == |b|
    requires Outline(a) + x == Outline(b) + y
    ensures Outline(a) == Outline(b)
    decreases |Outline(a)|
  {
    if a != [] {
      FlattenCons(a[0], a[1..]);
      FlattenCons(b[0], b[1..]);
      assert a == [a[0]] + a[1..] && b == [b[0]] + b[1..];
      var ca, cb := a[0].children, b[0].children;
      assert (Outline(a) + x)[0] == |ca| && (Outline(b) + y)[0] == |cb|;
      assert Outline(ca) + (Outline(a[1..]) + x) == Outline(cb) + (Outline(b[1..]) + y) by {
        DropHead(|ca|, Outline(ca), Outline(a[1..]), x);
        DropHead(|cb|, Outline(cb), Outline(b[1..]), y);
      }
      OutlinePrefix(ca, cb, Outline(a[1..]) + x, Outline(b[1..]) + y);
      SplitEqual(Outline(ca), Outline(a[1..]) + x, Outline(cb), Outline(b[1..]) + y);
      OutlinePrefix(a[1..], b[1..], x, y);
    }
  }

  /** A forest is determined by its elements in document order together with its shape. */
  lemma {:induction false} Determined(a: seq<Elem>, b: seq<Elem>)
    requires |a| == |b| && Flatten(a) == Flatten(b) && Outline(a) == Outline(b)
    ensures a == b
    decreases |Flatten(a)|
  {
    if a != [] {
      FlattenCons(a[0], a[1..]);
      FlattenCons(b[0], b[1..]);
      assert a == [a[0]] + a[1..] && b == [b[0]] + b[1..];
      var ca, cb := a[0].children, b[0].children;
      assert Outline(a)[0] == |ca| && Outline(b)[0] == |cb|;
      assert Outline(ca) + Outline(a[1..]) == Outline(cb) + Outline(b[1..]) by {
        DropHead2(|ca|, Outline(ca), Outline(a[1..]));
        DropHead2(|cb|, Outline(cb), Outline(b[1..]));
      }
      OutlinePrefix(ca, cb, Outline(a[1..]), Outline(b[1..]));
      SplitEqual(Outline(ca), Outline(a[1..]), Outline(cb), Outline(b[1..]));
      assert Flatten(ca) + Flatten(a[1..]) == Flatten(cb) + Flatten(b[1..]) by {
        DropHead2(a[0].props, Flatten(ca), Flatten(a[1..]));
        DropHead2(b[0].props, Flatten(cb), Flatten(b[1..]));
      }
      SplitEqual(Flatten(ca), Flatten(a[1..]), Flatten(cb), Flatten(b[1..]));
      assert a[0].props == Flatten(a)[0] && b[0].props == Flatten(b)[0];
      Determined(ca, cb);
      Determined(a[1..], b[1..]);
    }
  }

  /** An edit that leaves its element as it was leaves the whole tree as it was. */
  lemma UpdateNthUnchanged(ns: seq<Elem>, k: nat, ed: Edit)
    requires k < |Flatten(ns)|
    requires Apply(ed, Flatten(ns)[k]) == Flatten(ns)[k]
    ensures UpdateNth(ns, k, ed) == ns
  {
    UpdateNthSpec(ns, k, ed);
    assert Flatten(ns)[k := Flatten(ns)[k]] == Flatten(ns);
    Determined(UpdateNth(ns, k, ed), ns);
  }

  /** Two edits in a row at one position act on the document like their composition on that element. */
  lemma UpdateNthTwice(ns: seq<Elem>, k: nat, e1: Edit, e2: Edit)
    requires k < |Flatten(ns)|
    ensures k < |Flatten(UpdateNth(ns, k, e1))|
    ensures Flatten(UpdateNth(UpdateNth(ns, k, e1), k, e2)) == Flatten(ns)[k := Apply(e2, Apply(e1, Flatten(ns)[k]))]
    ensures Outline(UpdateNth(UpdateNth(ns, k, e1), k, e2)) == Outline(ns)
  {
    var f := Flatten(ns);
    UpdateNthSpec(ns, k, e1);
    var once := UpdateNth(ns, k, e1);
    UpdateNthSpec(once, k, e2);
    assert Flatten(once)[k] == Apply(e1, f[k]);
    assert f[k := Apply(e1, f[k])][k := Apply(e2, Apply(e1, f[k]))] == f[k := Apply(e2, Apply(e1, f[k]))];
  }

  /** Two edits at the same position whose composition is the identity there restore the tree. */
  lemma UpdateNthUndo(ns: seq<Elem>, k: nat, e1: Edit, e2: Edit)
    requires k < |Flatten(ns)|
    requires Apply(e2, Apply(e1, Flatten(ns)[k])) == Flatten(ns)[k]
    ensures k < |Flatten(UpdateNth(ns, k, e1))|
    ensures UpdateNth(UpdateNth(ns, k, e1), k, e2) == ns
  {
    UpdateNthTwice(ns, k, e1, e2);
    assert Flatten(ns)[k := Flatten(ns)[k]] == Flatten(ns);
    Determined(UpdateNth(UpdateNth(ns, k, e1), k, e2), ns);
  }

  /** Two pairs of edits at the same position that agree on the element there agree on the whole tree. */
  lemma UpdateNthPairs(ns: seq<Elem>, k: nat, e1: Edit, e2: Edit, e3: Edit, e4: Edit)
    requires k < |Flatten(ns)|
    requires Apply(e2, Apply(e1, Flatten(ns)[k])) == Apply(e4, Apply(e3, Flatten(ns)[k]))
    ensures k < |Flatten(UpdateNth(ns, k, e1))| && k < |Flatten(UpdateNth(ns, k, e3))|
    ensures UpdateNth(UpdateNth(ns, k, e1), k, e2) == UpdateNth(UpdateNth(ns, k, e3), k, e4)
  {
    UpdateNthTwice(ns, k, e1, e2);
    UpdateNthTwice(ns, k, e3, e4);
    Determined(UpdateNth(UpdateNth(ns, k, e1), k, e2), UpdateNth(UpdateNth(ns, k, e3), k, e4));
  }

  /** The position of the first element in document order whose `data-post-id` is key. */
  function FirstMatch(flat: seq<Props>, key: string): (r: Option<nat>)
    ensures r.Some? ==> r.value < |flat| && flat[r.value].postId == Some(key)
    ensures r.Some? ==> forall j :: 0 <= j < r.value ==> flat[j].postId != Some(key)
    ensures r.None? ==> forall j :: 0 <= j < |flat| ==> flat[j].postId != Some(key)
  {
    if flat == [] then None
    else if flat[0].postId == Some(key) then Some(0)
    else match FirstMatch(flat[1..], key)
      case None => None
      case Some(j) => Some(j + 1)
  }

  /** Two documents whose elements carry the same post ids, position by position, answer every lookup alike. */
  lemma SameKeysSameMatch(a: seq<Props>, b: seq<Props>, key: string)
    requires |a| == |b| && forall j :: 0 <= j < |a| ==> a[j].postId == b[j].postId
    ensures FirstMatch(a, key) == FirstMatch(b, key)
  {
    var ra, rb := FirstMatch(a, key), FirstMatch(b, key);
    if ra.Some? && rb.Some? {
      assert !(ra.value < rb.value) && !(rb.value < ra.value);
    }
  }

  /** Edits never change a `data-post-id`, so a lookup finds the same position before and after any edit. */
  lemma FirstMatchAfterEdit(ns: seq<Elem>, k: nat, ed: Edit, key: string)
    requires k < |Flatten(ns)|
    ensures FirstMatch(Flatten(UpdateNth(ns, k, ed)), key) == FirstMatch(Flatten(ns), key)
  {
    UpdateNthSpec(ns, k, ed);
    SameKeysSameMatch(Flatten(ns), Flatten(UpdateNth(ns, k, ed)), key);
  }
}
