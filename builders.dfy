/**
 * The element builders of js/main.js: `createElemWithText`,
 * `createSelectOptions`, `createComments`, `displayComments` and
 * `createPosts`. Remote data arrives through the gateway's `Remote`
 * parameter. A builder that would throw a TypeError in the source (reading
 * `author.company` of a user that was not fetched, appending the `undefined`
 * that `displayComments` returns for a falsy id) yields no element here.
 */
module ViewBuilder {
  import opened Wrappers
  import opened Records
  import opened Dom
  import opened Gateway

  const PlaceholderText: string := "Select an Employee to display their posts."

  /** `createElemWithText(elementType = 'p', textContent = '', className = '')`. */
  function CreateElemWithText(tag: string := "p", text: string := "", className: string := ""): (e: Elem)
    ensures e.props.tag == tag && e.props.text == text
    ensures className == "" ==> e.props.classes == {}
    ensures className != "" ==> e.props.classes == {className}
    ensures e.props.postId == None && e.props.value == None && e.props.listeners == {}
    ensures e.children == []
  {
    var p := NewProps(tag).(text := text);
    Elem(if className != "" then p.(classes := {className}) else p, [])
  }

  /** The `<option>` built for one user: value is the id's text, label is the name. */
  function UserOption(u: User): (e: Elem)
  {
    Elem(NewProps("option").(text := u.name, value := Some(Decimal(u.id))), [])
  }

  /** The option a user gets carries that user's id: its value reads back as the id. */
  lemma UserOptionIdentifiesUser(u: User)
    ensures UserOption(u).props.tag == "option" && UserOption(u).props.text == u.name
    ensures UserOption(u).props.value.Some?
    ensures ParseDecimal(UserOption(u).props.value.value) == u.id
  {
    DecimalRoundTrip(u.id);
  }

  /** `createSelectOptions`: `undefined` for missing input, else one option per user, in order. */
  method CreateSelectOptions(users: Option<seq<User>>) returns (r: Option<seq<Elem>>)
    ensures r.None? <==> users.None?
    ensures users.Some? ==> |r.value| == |users.value|
    ensures users.Some? ==> forall i :: 0 <= i < |users.value| ==> r.value[i] == UserOption(users.value[i])
  {
    if users.None? {
      return None;
    }
    var options: seq<Elem> := [];
    for i := 0 to |users.value|
      invariant |options| == i
      invariant forall j :: 0 <= j < i ==> options[j] == UserOption(users.value[j])
    {
      options := options + [UserOption(users.value[i])];
    }
    r := Some(options);
  }

  /** The `<article>` of one comment: h3(name), p(body), p("From: " + email). */
  function CommentArticle(c: Comment): (e: Elem)
  {
    Elem(NewProps("article"), [
      CreateElemWithText("h3", c.name),
      CreateElemWithText("p", c.body),
      CreateElemWithText("p", "From: " + c.email)])
  }

  function CommentArticles(cs: seq<Comment>): (r: seq<Elem>)
    ensures |r| == |cs| && forall i :: 0 <= i < |cs| ==> r[i] == CommentArticle(cs[i])
  {
    seq(|cs|, i requires 0 <= i < |cs| => CommentArticle(cs[i]))
  }

  /** `createComments`: `undefined` for missing input, else one article per comment, in order. */
  method CreateComments(comments: Option<seq<Comment>>) returns (r: Option<seq<Elem>>)
    ensures r.None? <==> comments.None?
    ensures comments.Some? ==> |r.value| == |comments.value|
    ensures comments.Some? ==> forall i :: 0 <= i < |comments.value| ==>
              r.value[i].props == NewProps("article") &&
              r.value[i].children == [
                CreateElemWithText("h3", comments.value[i].name),
                CreateElemWithText("p", comments.value[i].body),
                CreateElemWithText("p", "From: " + comments.value[i].email)]
    ensures comments.Some? ==> r.value == CommentArticles(comments.value)
  {
    if comments.None? {
      return None;
    }
    var fragment: seq<Elem> := [];
    for i := 0 to |comments.value|
      invariant fragment == CommentArticles(comments.value[..i])
    {
      var c := comments.value[i];
      var h3 := CreateElemWithText("h3", c.name);
      var p1 := CreateElemWithText("p", c.body);
      var p2 := CreateElemWithText("p", "From: " + c.email);
      var article := Elem(NewProps("article"), [h3, p1, p2]);
      fragment := fragment + [article];
    }
    assert comments.value[..|comments.value|] == comments.value;
    r := Some(fragment);
  }

  /** The comments `displayComments` embeds: the fetched list, or none on failure. */
  function SectionComments(net: Remote, postId: JsId): (cs: seq<Comment>)
  {
    match GetPostComments(net, postId)
    case Got(cs) => cs
    case NotAttempted => []
  }

  /** `displayComments`: `undefined` for a falsy id, else a hidden comment section tagged with the id. */
  function DisplayComments(net: Remote, postId: JsId): (r: Option<Elem>)
    ensures r.None? <==> !Truthy(postId)
    ensures r.Some? ==> r.value.props.tag == "section" && r.value.props.text == ""
    ensures r.Some? ==> r.value.props.postId == Some(Render(postId))
    ensures r.Some? ==> r.value.props.classes == {"comments", "hide"}
    ensures r.Some? ==> r.value.props.value == None && r.value.props.listeners == {}
    ensures r.Some? ==> r.value.children == CommentArticles(SectionComments(net, postId))
  {
    if !Truthy(postId) then None
    else
      var section := NewProps("section").(postId := Some(Render(postId)), classes := {"comments", "hide"});
      Some(Elem(section, CommentArticles(SectionComments(net, postId))))
  }

  /** The toggle button of a post: labelled "Show Comments" and tagged with the post id. */
  function CommentButton(postId: int): (e: Elem)
  {
    Elem(NewProps("button").(text := ShowLabel, postId := Some(Decimal(postId))), [])
  }

  /** The `<article>` of one post, in the source's child order. */
  function PostArticle(post: Post, author: User, section: Elem): (e: Elem)
  {
    Elem(NewProps("article"), [
      CreateElemWithText("h2", post.title),
      CreateElemWithText("p", post.body),
      CreateElemWithText("p", "Post ID: " + Decimal(post.id)),
      CreateElemWithText("p", "Author: " + author.name + " with " + author.company.name),
      CreateElemWithText("p", author.company.catchPhrase),
      CommentButton(post.id),
      section])
  }

  /**
   * One iteration of `createPosts`' loop. None stands for the TypeError the
   * source throws when the author is `undefined` or `{}`, or when the post id
   * is falsy so that `displayComments` returns `undefined`.
   */
  function BuildPost(net: Remote, post: Post): (r: Option<Elem>)
    ensures r.Some? <==> GetUser(net, Num(post.userId)).Got? && GetUser(net, Num(post.userId)).value.FullUser? && post.id != 0
    ensures r.Some? ==> r.value == PostArticle(post, GetUser(net, Num(post.userId)).value.user, DisplayComments(net, Num(post.id)).value)
  {
    match GetUser(net, Num(post.userId))
    case Got(FullUser(author)) =>
      (match DisplayComments(net, Num(post.id))
       case Some(section) => Some(PostArticle(post, author, section))
       case None => None)
    case _ => None
  }

  /** The articles of all posts in input order, or None when building any one of them throws. */
  function PostArticles(net: Remote, posts: seq<Post>): (r: Option<seq<Elem>>)
    ensures r.Some? <==> forall i :: 0 <= i < |posts| ==> BuildPost(net, posts[i]).Some?
    ensures r.Some? ==> |r.value| == |posts|
    ensures r.Some? ==> forall i :: 0 <= i < |posts| ==> Some(r.value[i]) == BuildPost(net, posts[i])
  {
    if posts == [] then Some([])
    else match (BuildPost(net, posts[0]), PostArticles(net, posts[1..]))
      case (Some(a), Some(rest)) => Some([a] + rest)
      case _ => None
  }

  /**
   * The body of `createPosts`' loop for one post: fetch the author, build the
   * section, assemble the article. It takes the steps `BuildPost` describes in
   * one expression; it is a method of its own so that the loop of `CreatePosts`
   * reasons about one call per post rather than about the steps themselves.
   */
  method CreatePost(net: Remote, post: Post) returns (r: Option<Elem>)
    ensures r == BuildPost(net, post)
  {
    var author := GetUser(net, Num(post.userId));
    if !(author.Got? && author.value.FullUser?) {
      return None;
    }
    var section := DisplayComments(net, Num(post.id));
    if section.None? {
      return None;
    }
    r := Some(PostArticle(post, author.value.user, section.value));
  }

  /** The outcome of a builder that returns a fragment. */
  datatype Built = Undefined | Threw | Fragment(children: seq<Elem>)

  /** `createPosts`: `undefined` for missing input, a thrown TypeError, or one article per post, in order. */
  method CreatePosts(net: Remote, posts: Option<seq<Post>>) returns (r: Built)
    ensures posts.None? ==> r == Undefined
    ensures posts.Some? ==> r == (match PostArticles(net, posts.value) case Some(arts) => Fragment(arts) case None => Threw)
  {
    if posts.None? {
      return Undefined;
    }
    var ps := posts.value;
    var fragment: seq<Elem> := [];
    for i := 0 to |ps|
      invariant |fragment| == i
      invariant forall j :: 0 <= j < i ==> Some(fragment[j]) == BuildPost(net, ps[j])
    {
      var article := CreatePost(net, ps[i]);
      if article.None? {
        PostArticlesFail(net, ps, i);
        return Threw;
      }
      fragment := fragment + [article.value];
    }
    PostArticlesOf(net, ps, fragment);
    r := Fragment(fragment);
  }

  /** One post that cannot be built makes the whole page throw. */
  lemma PostArticlesFail(net: Remote, posts: seq<Post>, i: nat)
    requires i < |posts| && BuildPost(net, posts[i]).None?
    ensures PostArticles(net, posts) == None
  {
  }

  /** Articles built one by one, each as `BuildPost` builds it, are what `PostArticles` builds. */
  lemma PostArticlesOf(net: Remote, posts: seq<Post>, arts: seq<Elem>)
    requires |arts| == |posts| && forall j :: 0 <= j < |posts| ==> Some(arts[j]) == BuildPost(net, posts[j])
    ensures PostArticles(net, posts) == Some(arts)
  {
    assert PostArticles(net, posts).Some?;
    assert PostArticles(net, posts).value == arts;
  }

  /** The paragraph `displayPosts` shows when it is given no posts. */
  function Placeholder(): (e: Elem)
  {
    Elem(NewProps("p").(text := PlaceholderText, classes := {"default-text"}), [])
  }
}
