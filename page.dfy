/**
 * The stateful part of the program: the `<main>` element whose children the
 * handlers replace, the toggles that edit one element of it in place, the
 * listener passes over its buttons, and the change handler of the select menu.
 */
module Document {
  import opened Wrappers
  import opened Records
  import opened Dom
  import opened Gateway
  import opened ViewBuilder
  import opened Layout
  import opened Listeners

  /** An element whose children the program replaces: `<main>`. */
  class Container {
    var children: seq<Elem>

    constructor(content: seq<Elem>)
      ensures children == content
    {
      children := content;
    }
  }

  /**
   * `deleteChildElements`: removes the last child until none is left. A null
   * parent (a missing element) is answered with null, the model of `undefined`.
   */
  method DeleteChildElements(parent: Container?) returns (r: Container?)
    modifies parent
    ensures r == parent
    ensures parent != null ==> parent.children == []
  {
    if parent == null {
      return null;
    }
    while parent.children != []
      decreases |parent.children|
    {
      parent.children := parent.children[..|parent.children| - 1];
    }
    return parent;
  }

  /** The answer of a lookup by post id: `undefined` for a falsy id, `null` when no element matches, or the element found. */
  datatype Found = NoId | Missing | Hit(at: nat)

  /** The id check followed by `document.querySelector('[data-post-id="…"]')` over the page. */
  function Lookup(ns: seq<Elem>, postId: JsId): (r: Found)
    ensures r.NoId? <==> !Truthy(postId)
    ensures r.Hit? ==> r.at < |Flatten(ns)| && Flatten(ns)[r.at].postId == Some(Render(postId))
    ensures r.Hit? ==> forall j :: 0 <= j < r.at ==> Flatten(ns)[j].postId != Some(Render(postId))
    ensures r.Missing? ==> forall j :: 0 <= j < |Flatten(ns)| ==> Flatten(ns)[j].postId != Some(Render(postId))
  {
    if !Truthy(postId) then NoId
    else match FirstMatch(Flatten(ns), Render(postId))
      case None => Missing
      case Some(k) => Hit(k)
  }

  /** The page after an edit of the element a lookup by post id finds; unchanged when it finds nothing. */
  function Toggled(ns: seq<Elem>, postId: JsId, ed: Edit): (r: seq<Elem>)
  {
    match Lookup(ns, postId)
    case Hit(k) => UpdateNth(ns, k, ed)
    case _ => ns
  }

  /** What a toggle does to the page: one element changes, the shape and every later lookup stay as they were. */
  lemma ToggledEffect(ns: seq<Elem>, postId: JsId, ed: Edit)
    ensures Outline(Toggled(ns, postId, ed)) == Outline(ns)
    ensures Lookup(ns, postId).Hit? ==>
              Flatten(Toggled(ns, postId, ed)) == Flatten(ns)[Lookup(ns, postId).at := Apply(ed, Flatten(ns)[Lookup(ns, postId).at])]
    ensures !Lookup(ns, postId).Hit? ==> Toggled(ns, postId, ed) == ns
    ensures forall id :: Lookup(Toggled(ns, postId, ed), id) == Lookup(ns, id)
  {
    match Lookup(ns, postId)
    case Hit(k) =>
      UpdateNthSpec(ns, k, ed);
      forall id ensures Lookup(Toggled(ns, postId, ed), id) == Lookup(ns, id) {
        FirstMatchAfterEdit(ns, k, ed, Render(id));
      }
    case _ =>
  }

  /** An edit that undoes itself on the element found makes a second toggle restore the page. */
  lemma ToggledTwice(ns: seq<Elem>, postId: JsId, ed: Edit)
    requires Lookup(ns, postId).Hit? ==>
               Apply(ed, Apply(ed, Flatten(ns)[Lookup(ns, postId).at])) == Flatten(ns)[Lookup(ns, postId).at]
    ensures Toggled(Toggled(ns, postId, ed), postId, ed) == ns
  {
    ToggledEffect(ns, postId, ed);
    match Lookup(ns, postId)
    case Hit(k) =>
      UpdateNthUndo(ns, k, ed, ed);
    case _ =>
  }

  /** Two edits that commute on the element found may be toggled in either order. */
  lemma ToggledCommute(ns: seq<Elem>, postId: JsId, e1: Edit, e2: Edit)
    requires Lookup(ns, postId).Hit? ==>
               Apply(e2, Apply(e1, Flatten(ns)[Lookup(ns, postId).at])) == Apply(e1, Apply(e2, Flatten(ns)[Lookup(ns, postId).at]))
    ensures Toggled(Toggled(ns, postId, e1), postId, e2) == Toggled(Toggled(ns, postId, e2), postId, e1)
  {
    ToggledEffect(ns, postId, e1);
    ToggledEffect(ns, postId, e2);
    match Lookup(ns, postId)
    case Hit(k) =>
      UpdateNthPairs(ns, k, e1, e2, e2, e1);
    case _ =>
  }

  /** `classList.toggle` applied twice gives back the class list. */
  lemma ToggleClassTwice(name: string, p: Props)
    ensures Apply(ToggleClass(name), Apply(ToggleClass(name), p)) == p
  {
    var q := Apply(ToggleClass(name), p);
    assert Apply(ToggleClass(name), q).classes == p.classes;
  }

  /** Calling `toggleCommentSection` twice with the same id restores the page. */
  lemma ToggleSectionTwice(ns: seq<Elem>, postId: JsId)
    ensures Toggled(Toggled(ns, postId, ToggleClass("hide")), postId, ToggleClass("hide")) == ns
  {
    if Lookup(ns, postId).Hit? {
      ToggleClassTwice("hide", Flatten(ns)[Lookup(ns, postId).at]);
    }
    ToggledTwice(ns, postId, ToggleClass("hide"));
  }

  /** Calling `toggleCommentButton` twice restores the page when the label found is one of the two labels. */
  lemma ToggleButtonTwice(ns: seq<Elem>, postId: JsId)
    requires Lookup(ns, postId).Hit? ==> Flatten(ns)[Lookup(ns, postId).at].text in {ShowLabel, HideLabel}
    ensures Toggled(Toggled(ns, postId, FlipLabel), postId, FlipLabel) == ns
  {
    if Lookup(ns, postId).Hit? {
      var p := Flatten(ns)[Lookup(ns, postId).at];
      assert Apply(FlipLabel, Apply(FlipLabel, p)).text == p.text;
    }
    ToggledTwice(ns, postId, FlipLabel);
  }

  /** The page after `toggleComments(event, postId)`: the section toggle, then the button toggle. */
  function ToggledComments(ns: seq<Elem>, postId: JsId): (r: seq<Elem>)
  {
    Toggled(Toggled(ns, postId, ToggleClass("hide")), postId, FlipLabel)
  }

  /** Two clicks on the same post restore the page, provided the label found is one of the two labels. */
  lemma ToggleCommentsTwice(ns: seq<Elem>, postId: JsId)
    requires Lookup(ns, postId).Hit? ==> Flatten(ns)[Lookup(ns, postId).at].text in {ShowLabel, HideLabel}
    ensures ToggledComments(ToggledComments(ns, postId), postId) == ns
  {
    var a := Toggled(ns, postId, ToggleClass("hide"));
    var b := Toggled(a, postId, FlipLabel);
    ToggledEffect(ns, postId, ToggleClass("hide"));
    ToggledEffect(a, postId, FlipLabel);
    if Lookup(b, postId).Hit? {
      var p := Flatten(b)[Lookup(b, postId).at];
      assert Apply(FlipLabel, Apply(ToggleClass("hide"), p)) == Apply(ToggleClass("hide"), Apply(FlipLabel, p));
    }
    ToggledCommute(b, postId, ToggleClass("hide"), FlipLabel);
    ToggleButtonTwice(a, postId);
    ToggleSectionTwice(ns, postId);
  }

  /**
   * On a page where every lookup finds a button, a toggle edits that button:
   * every section keeps its `hide` class, no listener changes and lookups still
   * find buttons. So in this program a click never reveals a comment section.
   */
  lemma ToggleKeepsPage(ns: seq<Elem>, postId: JsId, ed: Edit)
    requires ed.ToggleClass? || ed.FlipLabel?
    requires ButtonsFirst(Flatten(ns))
    ensures ButtonsFirst(Flatten(Toggled(ns, postId, ed)))
    ensures SectionsHidden(Flatten(ns)) ==> SectionsHidden(Flatten(Toggled(ns, postId, ed)))
    ensures |Flatten(Toggled(ns, postId, ed))| == |Flatten(ns)|
    ensures forall j :: 0 <= j < |Flatten(ns)| ==> Flatten(Toggled(ns, postId, ed))[j].listeners == Flatten(ns)[j].listeners
  {
    ToggledEffect(ns, postId, ed);
    var f, g := Flatten(ns), Flatten(Toggled(ns, postId, ed));
    if Lookup(ns, postId).Hit? {
      var k := Lookup(ns, postId).at;
      assert FirstMatch(f, Render(postId)) == Some(k);
      assert f[k].tag == "button";
      forall key ensures FirstMatch(g, key) == FirstMatch(f, key) {
        SameKeysSameMatch(f, g, key);
      }
    }
  }

  /**
   * Clicking the same post twice restores any page whose lookups find an
   * element labelled "Show Comments", as every page `createPosts` builds does.
   */
  lemma ClickTwiceRestores(ns: seq<Elem>, postId: JsId)
    requires ShowsLabel(Flatten(ns))
    ensures ToggledComments(ToggledComments(ns, postId), postId) == ns
  {
    if Lookup(ns, postId).Hit? {
      assert FirstMatch(Flatten(ns), Render(postId)) == Some(Lookup(ns, postId).at);
    }
    ToggleCommentsTwice(ns, postId);
  }

  /** The positions of the buttons in document order: `querySelectorAll('main button')`. */
  function Buttons(f: seq<Props>): (b: seq<nat>)
  {
    if f == [] then []
    else Buttons(f[..|f| - 1]) + (if f[|f| - 1].tag == "button" then [|f| - 1] else [])
  }

  /** The buttons are listed once each, in document order, and nothing else is. */
  lemma ButtonsSpec(f: seq<Props>)
    ensures forall i :: 0 <= i < |Buttons(f)| ==> Buttons(f)[i] < |f| && f[Buttons(f)[i]].tag == "button"
    ensures forall i, j :: 0 <= i < j < |Buttons(f)| ==> Buttons(f)[i] < Buttons(f)[j]
    ensures forall j :: 0 <= j < |f| && f[j].tag == "button" ==> j in Buttons(f)
  {
    ButtonsSorted(f);
    ButtonsComplete(f);
  }

  lemma {:induction false} ButtonsSorted(f: seq<Props>)
    ensures forall i :: 0 <= i < |Buttons(f)| ==> Buttons(f)[i] < |f| && f[Buttons(f)[i]].tag == "button"
    ensures forall i, j :: 0 <= i < j < |Buttons(f)| ==> Buttons(f)[i] < Buttons(f)[j]
  {
    if f != [] {
      var g := f[..|f| - 1];
      var b := Buttons(g);
      var t: seq<nat> := if f[|f| - 1].tag == "button" then [|f| - 1] else [];
      assert Buttons(f) == b + t;
      ButtonsSorted(g);
      forall i | 0 <= i < |b + t| ensures (b + t)[i] < |f| && f[(b + t)[i]].tag == "button" {
        if i < |b| {
          assert (b + t)[i] == b[i] && f[b[i]] == g[b[i]];
        }
      }
      forall i, j | 0 <= i < j < |b + t| ensures (b + t)[i] < (b + t)[j] {
        if j < |b| {
          assert (b + t)[i] == b[i] && (b + t)[j] == b[j];
        } else {
          assert (b + t)[i] == b[i] && (b + t)[j] == |f| - 1;
        }
      }
    }
  }

  lemma {:induction false} ButtonsComplete(f: seq<Props>)
    ensures forall j :: 0 <= j < |f| && f[j].tag == "button" ==> j in Buttons(f)
  {
    if f != [] {
      var g := f[..|f| - 1];
      var b := Buttons(g);
      var t: seq<nat> := if f[|f| - 1].tag == "button" then [|f| - 1] else [];
      assert Buttons(f) == b + t;
      ButtonsComplete(g);
      forall j | 0 <= j < |f| && f[j].tag == "button" ensures j in b + t {
        if j < |g| {
          assert g[j] == f[j];
        }
      }
    }
  }

  lemma ButtonsStep(f: seq<Props>, i: nat)
    requires i < |f|
    ensures Buttons(f[..i + 1]) == Buttons(f[..i]) + (if f[i].tag == "button" then [i] else [])
  {
    assert f[..i + 1][..i] == f[..i];
  }

  /**
   * The page `refreshPosts` leaves behind when the posts build: `<main>` holds
   * the new articles after one listener pass (see `Page.RefreshPosts`), so
   * every button holds exactly one listener, bound to its own post id, no other
   * element holds any, lookups find buttons labelled "Show Comments", and
   * every section is hidden.
   */
  lemma RefreshedPage(net: Remote, posts: seq<Post>, base: nat)
    requires PostArticles(net, posts).Some?
    ensures var g := Attached(Flatten(PostArticles(net, posts).value), base);
      && ButtonsFirst(g) && SectionsHidden(g) && ShowsLabel(g)
      && (forall j :: 0 <= j < |g| && g[j].tag == "button" ==>
            |g[j].listeners| == 1 && forall c :: c in g[j].listeners ==> g[j].postId == Some(c.postId))
      && forall j :: 0 <= j < |g| && g[j].tag != "button" ==> g[j].listeners == {}
  {
    var f := Flatten(PostArticles(net, posts).value);
    PageRendered(net, posts);
    AttachedOnce(f, base);
    AttachedKeepsKeys(f, base);
  }

  /** Removing a closure that no element holds, as `removeButtonListeners` does, changes nothing. */
  lemma DetachFresh(ns: seq<Elem>, i: nat, n: nat)
    requires i < |Flatten(ns)| && Keyed(Flatten(ns)[i])
    requires ClosuresBelow(Flatten(ns), n)
    ensures UpdateNth(ns, i, RemoveListener(Closure(n, Flatten(ns)[i].postId.value))) == ns
  {
    var c := Closure(n, Flatten(ns)[i].postId.value);
    assert c !in Flatten(ns)[i].listeners;
    assert Apply(RemoveListener(c), Flatten(ns)[i]) == Flatten(ns)[i];
    UpdateNthUnchanged(ns, i, RemoveListener(c));
  }

  /**
   * A page being rendered: `<main>` and the counter from which listener
   * closures take their identities. Every listener on the page has an
   * identity below the counter, so the next closure is a new object.
   */
  class Page {
    const main: Container
    var nextClosure: nat

    ghost predicate Valid()
      reads this, main
    {
      ClosuresBelow(Flatten(main.children), nextClosure)
    }

    constructor(content: seq<Elem>)
      requires NoListeners(Flatten(content))
      ensures fresh(main) && main.children == content && nextClosure == 0
      ensures Valid()
    {
      main := new Container(content);
      nextClosure := 0;
    }

    /** `toggleCommentSection`: toggles `hide` on the first element carrying the post id. */
    method ToggleCommentSection(postId: JsId) returns (r: Found)
      requires Valid()
      modifies main
      ensures r == Lookup(old(main.children), postId)
      ensures main.children == Toggled(old(main.children), postId, ToggleClass("hide"))
      ensures Valid()
    {
      ToggledEffect(main.children, postId, ToggleClass("hide"));
      r := Lookup(main.children, postId);
      if r.Hit? {
        main.children := UpdateNth(main.children, r.at, ToggleClass("hide"));
      }
    }

    /** `toggleCommentButton`: swaps the label of the first element carrying the post id. */
    method ToggleCommentButton(postId: JsId) returns (r: Found)
      requires Valid()
      modifies main
      ensures r == Lookup(old(main.children), postId)
      ensures main.children == Toggled(old(main.children), postId, FlipLabel)
      ensures Valid()
    {
      ToggledEffect(main.children, postId, FlipLabel);
      r := Lookup(main.children, postId);
      if r.Hit? {
        main.children := UpdateNth(main.children, r.at, FlipLabel);
      }
    }

    /**
     * `toggleComments(event, postId)`: both toggles, in that order. Both
     * lookups find the same element, so the pair holds one position twice.
     */
    method ToggleComments(hasEvent: bool, postId: JsId) returns (r: Toggle)
      requires Valid()
      modifies main
      ensures !hasEvent ==> r == NotToggled && main.children == old(main.children)
      ensures hasEvent ==> main.children == ToggledComments(old(main.children), postId)
      ensures hasEvent ==> (r.Pair? <==> Lookup(old(main.children), postId).Hit?)
      ensures r.Pair? ==> r.section == r.button == Lookup(old(main.children), postId).at
      ensures Valid()
    {
      if !hasEvent || !Truthy(postId) {
        return NotToggled;
      }
      ToggledEffect(main.children, postId, ToggleClass("hide"));
      var section := ToggleCommentSection(postId);
      var button := ToggleCommentButton(postId);
      if !section.Hit? || !button.Hit? {
        return NotToggled;
      }
      r := Pair(section.at, button.at);
    }

    /**
     * `addEventListener('click', c)` on the element at document position i of
     * `<main>`. Document order and shape together fix the whole tree
     * (`Dom.Determined`), so the two postconditions state the new tree.
     */
    method AddListenerAt(i: nat, c: Closure)
      requires i < |Flatten(main.children)|
      modifies main
      ensures Flatten(main.children) == old(Flatten(main.children))[i := Apply(AddListener(c), old(Flatten(main.children))[i])]
      ensures Outline(main.children) == old(Outline(main.children))
    {
      UpdateNthSpec(main.children, i, AddListener(c));
      main.children := UpdateNth(main.children, i, AddListener(c));
    }

    /**
     * The callback `addButtonListeners` runs on the button at document
     * position i: when its `data-post-id` is non-empty it registers a new
     * closure bound to that id, which takes the next identity.
     */
    method ListenIfKeyed(ghost f: seq<Props>, ghost base: nat, i: nat)
      requires i < |f| && f[i].tag == "button"
      requires Flatten(main.children) == Attached(f, base)[..i] + f[i..]
      requires nextClosure == base + KeyedCount(f[..i])
      modifies this, main
      ensures Flatten(main.children) == Attached(f, base)[..i + 1] + f[i + 1..]
      ensures Outline(main.children) == old(Outline(main.children))
      ensures nextClosure == base + KeyedCount(f[..i + 1])
    {
      AttachProgress(f, base, i, Flatten(main.children), nextClosure);
      var key := Flatten(main.children)[i].postId;
      if key.Some? && key.value != "" {
        var c := Closure(nextClosure, key.value);
        AddListenerAt(i, c);
        nextClosure := nextClosure + 1;
      }
    }

    /**
     * `addButtonListeners`: every button in `<main>` with a non-empty
     * `data-post-id` gets a new click closure bound to that id. Answers the
     * positions of all buttons, keyed or not.
     */
    method AddButtonListeners() returns (buttons: seq<nat>)
      requires Valid()
      modifies this, main
      ensures buttons == Buttons(old(Flatten(main.children)))
      ensures Flatten(main.children) == Attached(old(Flatten(main.children)), old(nextClosure))
      ensures Outline(main.children) == old(Outline(main.children))
      ensures nextClosure == old(nextClosure) + KeyedCount(old(Flatten(main.children)))
      ensures Valid()
    {
      var f := Flatten(main.children);
      ghost var shape := Outline(main.children);
      ghost var base := nextClosure;
      buttons := [];
      for i := 0 to |f|
        invariant Flatten(main.children) == Attached(f, base)[..i] + f[i..]
        invariant Outline(main.children) == shape
        invariant nextClosure == base + KeyedCount(f[..i])
        invariant buttons == Buttons(f[..i])
      {
        ButtonsStep(f, i);
        if f[i].tag == "button" {
          buttons := buttons + [i];
          ListenIfKeyed(f, base, i);
        } else {
          AttachProgress(f, base, i, Flatten(main.children), nextClosure);
        }
      }
      assert f[..|f|] == f;
      AttachedBelow(f, base);
    }

    /**
     * `removeButtonListeners`: for every keyed button it passes a closure
     * created on the spot to `removeEventListener`. That closure is a new
     * object, never one that was registered, so the page does not change. It
     * is dropped right away, so it takes the next unused identity without
     * using it up.
     */
    method RemoveButtonListeners() returns (buttons: seq<nat>)
      requires Valid()
      modifies main
      ensures buttons == Buttons(Flatten(main.children))
      ensures main.children == old(main.children)
    {
      var f := Flatten(main.children);
      buttons := [];
      for i := 0 to |f|
        invariant main.children == old(main.children)
        invariant buttons == Buttons(f[..i])
      {
        ButtonsStep(f, i);
        if f[i].tag == "button" {
          buttons := buttons + [i];
          var key := f[i].postId;
          if key.Some? && key.value != "" {
            var c := Closure(nextClosure, key.value);
            DetachFresh(main.children, i, nextClosure);
            var t := UpdateNth(main.children, i, RemoveListener(c));
            main.children := t;
          }
        }
      }
      assert f[..|f|] == f;
    }

    /**
     * `displayPosts`: with no posts it appends the placeholder paragraph; with
     * posts it appends their articles and answers the fragment, which moving
     * its children into `<main>` leaves empty. A build that throws appends nothing.
     */
    method DisplayPosts(net: Remote, posts: Option<seq<Post>>) returns (r: Shown)
      requires Valid()
      modifies main
      ensures posts.None? ==> r == ShownPlaceholder(Placeholder()) && main.children == old(main.children) + [Placeholder()]
      ensures posts.Some? && PostArticles(net, posts.value).None? ==> r == ShownThrew && main.children == old(main.children)
      ensures posts.Some? && PostArticles(net, posts.value).Some? ==>
                r == ShownFragment([]) && main.children == old(main.children) + PostArticles(net, posts.value).value
      ensures Valid()
    {
      if posts.None? {
        var p := Placeholder();
        FlattenAppend(main.children, [p]);
        FlattenCons(p, []);
        ClosuresBelowAppend(Flatten(main.children), Flatten([p]), nextClosure);
        main.children := main.children + [p];
        return ShownPlaceholder(p);
      }
      var built := CreatePosts(net, posts);
      if !built.Fragment? {
        return ShownThrew;
      }
      PageRendered(net, posts.value);
      FlattenAppend(main.children, built.children);
      ClosuresBelowAppend(Flatten(main.children), Flatten(built.children), nextClosure);
      main.children := main.children + built.children;
      r := ShownFragment([]);
    }

    /**
     * `refreshPosts`: the listener pass that removes nothing, clearing
     * `<main>`, showing the posts, and the listener pass that adds one closure
     * per keyed button. A build that throws leaves `<main>` empty.
     */
    method RefreshPosts(net: Remote, posts: Option<seq<Post>>) returns (r: Refresh)
      requires Valid()
      modifies this, main
      ensures posts.None? ==> r == NotProvided && main.children == old(main.children) && nextClosure == old(nextClosure)
      ensures posts.Some? && PostArticles(net, posts.value).None? ==>
                r == RefreshThrew && main.children == [] && nextClosure == old(nextClosure)
      ensures posts.Some? && PostArticles(net, posts.value).Some? ==>
                var arts := PostArticles(net, posts.value).value;
                r == Refreshed(Buttons(old(Flatten(main.children))), main, ShownFragment([]), Buttons(Flatten(arts))) &&
                Flatten(main.children) == Attached(Flatten(arts), old(nextClosure)) &&
                Outline(main.children) == Outline(arts) &&
                nextClosure == old(nextClosure) + KeyedCount(Flatten(arts))
      ensures Valid()
    {
      if posts.None? {
        return NotProvided;
      }
      var removed := RemoveButtonListeners();
      var cleared := DeleteChildElements(main);
      assert Flatten(main.children) == [];
      var shown := DisplayPosts(net, posts);
      if shown.ShownThrew? {
        assert PostArticles(net, posts.value).None?;
        return RefreshThrew;
      }
      ghost var arts := PostArticles(net, posts.value).value;
      assert main.children == arts;
      var added := AddButtonListeners();
      r := Refreshed(removed, cleared, shown, added);
    }
  }

  /** A change event: its `type` and its `currentTarget`, the select menu or nothing. */
  datatype ChangeEvent = ChangeEvent(kind: string, currentTarget: SelectMenu?)

  /** The `<select>` element: its current value and whether it is disabled. */
  class SelectMenu {
    var value: string
    var disabled: bool

    constructor(value0: string)
      ensures value == value0 && !disabled
    {
      value := value0;
      disabled := false;
    }
  }

  /** The user id the handler asks for: the menu's value, or the number 1 when that is empty. */
  function ChosenUser(value: string): (id: JsId)
    ensures Truthy(id)
    ensures value != "" ==> id == Text(value)
    ensures value == "" ==> id == Num(1)
  {
    if value != "" then Text(value) else Num(1)
  }

  /** A gateway answer as the argument `refreshPosts` sees: `undefined` or the posts. */
  function Posts(f: Fetch<seq<Post>>): (r: Option<seq<Post>>)
    ensures r.None? <==> f.NotAttempted?
    ensures f.Got? ==> r == Some(f.value)
  {
    match f
    case NotAttempted => None
    case Got(ps) => Some(ps)
  }

  /** The event is a change event that comes from a menu: the only kind the handler acts on. */
  predicate FromMenu(event: Option<ChangeEvent>)
  {
    event.Some? && event.value.kind == "change" && event.value.currentTarget != null
  }

  /** The menu the change handler may change: the one a change event came from, and none for any other event. */
  function Menus(event: Option<ChangeEvent>): (menus: set<object>)
  {
    if FromMenu(event) then {event.value.currentTarget} else {}
  }

  /**
   * `selectMenuChangeEventHandler`: ignores anything but a change event from
   * a menu; otherwise disables the menu, fetches the chosen user's posts,
   * refreshes the page and enables the menu again. A build that throws is
   * caught: the menu is enabled again and the answer is `undefined`.
   */
  method SelectMenuChangeEventHandler(page: Page, net: Remote, event: Option<ChangeEvent>) returns (r: Handled)
    requires page.Valid()
    modifies page, page.main, Menus(event)
    ensures page.Valid()
    ensures !FromMenu(event) ==>
              r == Ignored && page.main.children == old(page.main.children) && page.nextClosure == old(page.nextClosure)
    ensures !FromMenu(event) && event.Some? && event.value.currentTarget != null ==> unchanged(event.value.currentTarget)
    ensures FromMenu(event) ==>
              var menu := event.value.currentTarget;
              !menu.disabled && menu.value == old(menu.value) && GetUserPosts(net, ChosenUser(old(menu.value))).Got?
    ensures FromMenu(event) ==>
              var posts := GetUserPosts(net, ChosenUser(old(event.value.currentTarget.value)));
              PostArticles(net, posts.value).None? ==>
                r == Ignored && page.main.children == [] &&
                page.nextClosure == old(page.nextClosure)
    ensures FromMenu(event) ==>
              var id := ChosenUser(old(event.value.currentTarget.value));
              var posts := GetUserPosts(net, id);
              PostArticles(net, posts.value).Some? ==>
                r.Handled? && r.userId == id && r.posts == posts &&
                r.refresh == Refreshed(Buttons(old(Flatten(page.main.children))), page.main, ShownFragment([]),
                                       Buttons(Flatten(PostArticles(net, posts.value).value))) &&
                page.nextClosure == old(page.nextClosure) + KeyedCount(Flatten(PostArticles(net, posts.value).value)) &&
                Outline(page.main.children) == Outline(PostArticles(net, posts.value).value) &&
                Flatten(page.main.children) ==
                  Attached(Flatten(PostArticles(net, posts.value).value), old(page.nextClosure))
  {
    if !FromMenu(event) {
      return Ignored;
    }
    var menu := event.value.currentTarget;
    menu.disabled := true;
    var id := ChosenUser(menu.value);
    var posts := GetUserPosts(net, id);
    var refreshed := page.RefreshPosts(net, Posts(posts));
    menu.disabled := false;
    if refreshed.RefreshThrew? {
      return Ignored;
    }
    r := Handled(id, posts, refreshed);
  }


  /** The answer of `toggleComments`: `undefined`, or the section and the button it toggled. */
  datatype Toggle = NotToggled | Pair(section: nat, button: nat)

  /** The answer of `displayPosts`: the placeholder, the emptied fragment, or a rejection. */
  datatype Shown = ShownPlaceholder(p: Elem) | ShownFragment(rest: seq<Elem>) | ShownThrew

  /** The answer of `refreshPosts`: `undefined`, a rejection, or its four parts. */
  datatype Refresh =
    | NotProvided
    | RefreshThrew
    | Refreshed(removed: seq<nat>, cleared: Container?, shown: Shown, added: seq<nat>)

  /** The answer of the change handler: `undefined`, or the user id, the posts and what `refreshPosts` answered. */
  datatype Handled = Ignored | Handled(userId: JsId, posts: Fetch<seq<Post>>, refresh: Refresh)
}
