/**
 * What the built posts look like in document order, the order in which
 * `querySelector('[data-post-id="…"]')` searches. Inside each post article
 * the button comes before the section and both carry the post id, so the
 * first element a post id selects is always a button.
 */
module Layout {
  import opened Wrappers
  import opened Records
  import opened Dom
  import opened Gateway
  import opened ViewBuilder

  /** An element no lookup or listener pass can select: no post id, no listener, neither button nor section. */
  predicate Plain(p: Props)
  {
    p.postId == None && p.listeners == {} && p.tag != "button" && p.tag != "section"
  }

  /** Every lookup by post id that finds something finds a button. */
  ghost predicate ButtonsFirst(f: seq<Props>)
  {
    forall key :: FirstMatch(f, key).Some? ==> f[FirstMatch(f, key).value].tag == "button"
  }

  /** Every comment section carries the `hide` class. */
  predicate SectionsHidden(f: seq<Props>)
  {
    forall j :: 0 <= j < |f| && f[j].tag == "section" ==> "hide" in f[j].classes
  }

  /** Every lookup by post id that finds something finds an element labelled "Show Comments". */
  ghost predicate ShowsLabel(f: seq<Props>)
  {
    forall key :: FirstMatch(f, key).Some? ==> f[FirstMatch(f, key).value].text == ShowLabel
  }

  /** Every button carries a non-empty `data-post-id`, so both listener passes act on it. */
  predicate ButtonsKeyed(f: seq<Props>)
  {
    forall j :: 0 <= j < |f| && f[j].tag == "button" ==> f[j].postId.Some? && f[j].postId.value != ""
  }

  /** No element has a click listener. */
  predicate NoListeners(f: seq<Props>)
  {
    forall j :: 0 <= j < |f| ==> f[j].listeners == {}
  }

  /** A forest of childless elements flattens to their own properties. */
  lemma {:induction false} FlattenLeaves(ls: seq<Elem>)
    requires forall i :: 0 <= i < |ls| ==> ls[i].children == []
    ensures |Flatten(ls)| == |ls|
    ensures forall i :: 0 <= i < |ls| ==> Flatten(ls)[i] == ls[i].props
  {
    if ls != [] {
      FlattenCons(ls[0], ls[1..]);
      assert ls == [ls[0]] + ls[1..];
      FlattenLeaves(ls[1..]);
    }
  }

  /** The comment articles contain nothing a lookup or a listener pass selects. */
  lemma {:induction false} CommentsPlain(cs: seq<Comment>)
    ensures forall j :: 0 <= j < |Flatten(CommentArticles(cs))| ==> Plain(Flatten(CommentArticles(cs))[j])
  {
    if cs != [] {
      var a := CommentArticle(cs[0]);
      var head, tail := Flatten(a.children), Flatten(CommentArticles(cs[1..]));
      assert CommentArticles(cs) == [a] + CommentArticles(cs[1..]);
      FlattenCons(a, CommentArticles(cs[1..]));
      FlattenLeaves(a.children);
      CommentsPlain(cs[1..]);
      var f := [a.props] + head + tail;
      forall j | 0 <= j < |f| ensures Plain(f[j]) {
        if 1 + |head| <= j {
          assert f[j] == tail[j - 1 - |head|];
        } else if 1 <= j {
          assert f[j] == head[j - 1];
        }
      }
    }
  }

  /** What a post needs of its comment section: hidden, tagged with the post id, no listener, plain contents. */
  predicate SectionFor(sec: Elem, id: int)
  {
    && sec.props.tag == "section" && sec.props.postId == Some(Decimal(id))
    && "hide" in sec.props.classes && sec.props.listeners == {}
    && forall j :: 0 <= j < |Flatten(sec.children)| ==> Plain(Flatten(sec.children)[j])
  }

  lemma DisplayedSection(net: Remote, id: int)
    requires id != 0
    ensures SectionFor(DisplayComments(net, Num(id)).value, id)
  {
    CommentsPlain(SectionComments(net, Num(id)));
  }

  /**
   * One post's article in document order: the article, h2(title), p(body),
   * p("Post ID: …"), p("Author: … with …"), p(catch phrase), the button, the
   * section, then the section's comment articles, which carry no post id.
   */
  lemma ArticleDocumentOrder(post: Post, author: User, sec: Elem)
    requires SectionFor(sec, post.id)
    ensures var f := Flatten([PostArticle(post, author, sec)]);
      && |f| >= 8
      && f[0] == NewProps("article")
      && f[1] == CreateElemWithText("h2", post.title).props
      && f[2] == CreateElemWithText("p", post.body).props
      && f[3] == CreateElemWithText("p", "Post ID: " + Decimal(post.id)).props
      && f[4] == CreateElemWithText("p", "Author: " + author.name + " with " + author.company.name).props
      && f[5] == CreateElemWithText("p", author.company.catchPhrase).props
      && f[6] == CommentButton(post.id).props
      && f[7] == sec.props
      && forall j :: 8 <= j < |f| ==> Plain(f[j])
  {
    var a := PostArticle(post, author, sec);
    var leaves := a.children[..6];
    assert a.children == leaves + [sec];
    FlattenCons(a, []);
    FlattenAppend(leaves, [sec]);
    FlattenLeaves(leaves);
    FlattenCons(sec, []);
  }

  lemma FirstMatchConcat(a: seq<Props>, b: seq<Props>, key: string)
    ensures FirstMatch(a + b, key) ==
      if FirstMatch(a, key).Some? then FirstMatch(a, key)
      else match FirstMatch(b, key)
        case None => None
        case Some(j) => Some(|a| + j)
  {
    var ra, rb, r := FirstMatch(a, key), FirstMatch(b, key), FirstMatch(a + b, key);
    if ra.Some? {
      assert (a + b)[ra.value] == a[ra.value];
    } else if rb.Some? {
      assert (a + b)[|a| + rb.value] == b[rb.value];
    }
  }

  /** Within one post's article: lookups hit the button, the section is hidden, nothing has a listener. */
  lemma ArticleProperties(post: Post, author: User, sec: Elem)
    requires SectionFor(sec, post.id)
    ensures var f := Flatten([PostArticle(post, author, sec)]);
      && ButtonsFirst(f) && SectionsHidden(f) && NoListeners(f) && ShowsLabel(f) && ButtonsKeyed(f)
      && forall key :: FirstMatch(f, key).Some? <==> key == Decimal(post.id)
  {
    ArticleDocumentOrder(post, author, sec);
    var f := Flatten([PostArticle(post, author, sec)]);
    assert ArticleLayout(f, Decimal(post.id));
    LayoutProperties(f, Decimal(post.id));
  }

  /** The shape of one post's article in document order: six plain elements, the keyed button, the hidden keyed section, plain comments. */
  predicate ArticleLayout(f: seq<Props>, id: string)
  {
    && |f| >= 8
    && (forall j :: 0 <= j < 6 ==> Plain(f[j]))
    && id != ""
    && f[6].tag == "button" && f[6].postId == Some(id) && f[6].listeners == {} && f[6].text == ShowLabel
    && f[7].tag == "section" && f[7].postId == Some(id) && "hide" in f[7].classes && f[7].listeners == {}
    && forall j :: 8 <= j < |f| ==> Plain(f[j])
  }

  lemma LayoutProperties(f: seq<Props>, id: string)
    requires ArticleLayout(f, id)
    ensures ButtonsFirst(f) && SectionsHidden(f) && NoListeners(f) && ShowsLabel(f) && ButtonsKeyed(f)
    ensures forall key :: FirstMatch(f, key).Some? <==> key == id
  {
    forall key ensures FirstMatch(f, key) == if key == id then Some(6) else None {
      OnlyKey(f, 6, id, key);
    }
  }

  /** A document whose only post id is id, first carried at position k: lookups find k for id and nothing else. */
  lemma OnlyKey(f: seq<Props>, k: nat, id: string, key: string)
    requires k < |f| && f[k].postId == Some(id)
    requires forall j :: 0 <= j < k ==> f[j].postId == None
    requires forall j :: 0 <= j < |f| ==> f[j].postId == None || f[j].postId == Some(id)
    ensures FirstMatch(f, key) == if key == id then Some(k) else None
  {
    var r := FirstMatch(f, key);
    if r.None? {
      assert f[k].postId != Some(key);
    }
  }

  lemma PostProperties(net: Remote, post: Post)
    requires BuildPost(net, post).Some?
    ensures var f := Flatten([BuildPost(net, post).value]);
      && ButtonsFirst(f) && SectionsHidden(f) && NoListeners(f) && ShowsLabel(f) && ButtonsKeyed(f)
      && forall key :: FirstMatch(f, key).Some? <==> key == Decimal(post.id)
  {
    DisplayedSection(net, post.id);
    ArticleProperties(post, GetUser(net, Num(post.userId)).value.user, DisplayComments(net, Num(post.id)).value);
  }

  /** A page of post articles, in document order, is the first article followed by the others. */
  lemma PageSplit(net: Remote, posts: seq<Post>)
    requires posts != [] && PostArticles(net, posts).Some?
    ensures PostArticles(net, posts[1..]).Some? && BuildPost(net, posts[0]).Some?
    ensures Flatten(PostArticles(net, posts).value)
         == Flatten([BuildPost(net, posts[0]).value]) + Flatten(PostArticles(net, posts[1..]).value)
  {
    var a := BuildPost(net, posts[0]).value;
    var rest := PostArticles(net, posts[1..]).value;
    assert PostArticles(net, posts).value == [a] + rest;
    FlattenAppend([a], rest);
  }

  /** Every layout property of two stretches of the document holds of the two side by side. */
  lemma ConcatProperties(a: seq<Props>, b: seq<Props>)
    ensures ButtonsFirst(a) && ButtonsFirst(b) ==> ButtonsFirst(a + b)
    ensures SectionsHidden(a) && SectionsHidden(b) ==> SectionsHidden(a + b)
    ensures NoListeners(a) && NoListeners(b) ==> NoListeners(a + b)
    ensures ShowsLabel(a) && ShowsLabel(b) ==> ShowsLabel(a + b)
    ensures ButtonsKeyed(a) && ButtonsKeyed(b) ==> ButtonsKeyed(a + b)
    ensures forall key :: FirstMatch(a + b, key).Some? <==> FirstMatch(a, key).Some? || FirstMatch(b, key).Some?
  {
    forall key ensures FirstMatch(a + b, key).Some? <==> FirstMatch(a, key).Some? || FirstMatch(b, key).Some? {
      FirstMatchConcat(a, b, key);
    }
    if ButtonsFirst(a) && ButtonsFirst(b) {
      ConcatButtonsFirst(a, b);
    }
    if ShowsLabel(a) && ShowsLabel(b) {
      ConcatShowsLabel(a, b);
    }
    ConcatElementwise(a, b);
  }

  lemma ConcatButtonsFirst(a: seq<Props>, b: seq<Props>)
    requires ButtonsFirst(a) && ButtonsFirst(b)
    ensures ButtonsFirst(a + b)
  {
    forall key | FirstMatch(a + b, key).Some?
      ensures (a + b)[FirstMatch(a + b, key).value].tag == "button"
    {
      FirstMatchConcat(a, b, key);
      if FirstMatch(a, key).None? {
        assert (a + b)[FirstMatch(a + b, key).value] == b[FirstMatch(b, key).value];
      }
    }
  }

  lemma ConcatShowsLabel(a: seq<Props>, b: seq<Props>)
    requires ShowsLabel(a) && ShowsLabel(b)
    ensures ShowsLabel(a + b)
  {
    forall key | FirstMatch(a + b, key).Some?
      ensures (a + b)[FirstMatch(a + b, key).value].text == ShowLabel
    {
      FirstMatchConcat(a, b, key);
      if FirstMatch(a, key).None? {
        assert (a + b)[FirstMatch(a + b, key).value] == b[FirstMatch(b, key).value];
      }
    }
  }

  /** The properties that hold element by element carry over to a concatenation. */
  lemma ConcatElementwise(a: seq<Props>, b: seq<Props>)
    ensures SectionsHidden(a) && SectionsHidden(b) ==> SectionsHidden(a + b)
    ensures NoListeners(a) && NoListeners(b) ==> NoListeners(a + b)
    ensures ButtonsKeyed(a) && ButtonsKeyed(b) ==> ButtonsKeyed(a + b)
  {
    forall j | 0 <= j < |a + b| ensures (a + b)[j] == if j < |a| then a[j] else b[j - |a|] {
    }
  }

  /** The document-order properties a page of posts shares with each of its articles. */
  ghost predicate RenderedPage(f: seq<Props>)
  {
    ButtonsFirst(f) && SectionsHidden(f) && NoListeners(f) && ShowsLabel(f) && ButtonsKeyed(f)
  }

  /**
   * A page rendered by `createPosts`: every lookup that finds something finds
   * a button (never a section) labelled "Show Comments", every button carries
   * its post id, every section is hidden and no element has a listener yet.
   */
  lemma {:induction false} PageRendered(net: Remote, posts: seq<Post>)
    requires PostArticles(net, posts).Some?
    ensures RenderedPage(Flatten(PostArticles(net, posts).value))
  {
    if posts == [] {
      assert PostArticles(net, posts).value == [];
    } else {
      PageSplit(net, posts);
      PageRendered(net, posts[1..]);
      PostProperties(net, posts[0]);
      ConcatProperties(Flatten([BuildPost(net, posts[0]).value]), Flatten(PostArticles(net, posts[1..]).value));
    }
  }

  /** Some post in `posts` has the id written `key`. */
  predicate HasPost(posts: seq<Post>, key: string)
  {
    exists i :: 0 <= i < |posts| && Decimal(posts[i].id) == key
  }

  lemma HasPostCons(posts: seq<Post>, key: string)
    requires posts != []
    ensures HasPost(posts, key) <==> Decimal(posts[0].id) == key || HasPost(posts[1..], key)
  {
    if HasPost(posts[1..], key) {
      var i :| 0 <= i < |posts[1..]| && Decimal(posts[1..][i].id) == key;
      assert posts[i + 1] == posts[1..][i];
    }
    if HasPost(posts, key) {
      var i :| 0 <= i < |posts| && Decimal(posts[i].id) == key;
      if i > 0 {
        assert posts[i] == posts[1..][i - 1];
      }
    }
  }

  /** A lookup on a rendered page finds something exactly for the ids of the posts. */
  lemma {:induction false} PageKeys(net: Remote, posts: seq<Post>, key: string)
    requires PostArticles(net, posts).Some?
    ensures FirstMatch(Flatten(PostArticles(net, posts).value), key).Some? <==> HasPost(posts, key)
  {
    if posts == [] {
      assert PostArticles(net, posts).value == [];
    } else {
      PageSplit(net, posts);
      var f0 := Flatten([BuildPost(net, posts[0]).value]);
      var fr := Flatten(PostArticles(net, posts[1..]).value);
      PageKeys(net, posts[1..], key);
      PostProperties(net, posts[0]);
      FirstMatchConcat(f0, fr, key);
      HasPostCons(posts, key);
    }
  }
}
