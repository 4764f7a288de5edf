# A verified model of the posts page (js/main.js)

The program shows the posts of one user from a remote JSON service. Each post
is an `<article>` holding a "Show Comments" button and a hidden comments
section. Choosing a user from a `<select>` menu clears `<main>`, builds the new
articles and registers a click listener on every button. This project models
the following parts in Dafny and proves what they promise:

- the element builders;
- the lookup by `data-post-id` and the two toggles around it;
- the clearing of `<main>`;
- the listener passes;
- the refresh sequence and the change handler;
- the fallback rules of the four fetch wrappers.

## How the model is laid out

- `wrappers.dfy`, module `Wrappers`: `Option`.
- `records.dfy`, module `Records`: the JSON records (`User`, `Company`, `Post`, `Comment`).
  - `JsId` is an id as the program sees it: `undefined`, a number or an attribute's text.
  - It also holds JavaScript truthiness and the decimal text a number renders to. Template literals, `dataset.postId = post.id` and `option.value = user.id` all use that text.
- `gateway.dfy`, module `Gateway`: `getUsers`, `getUserPosts`, `getUser` and `getPostComments`.
  - The remote service is a parameter `Remote`. For every URL it says whether `fetch` plus `response.json()` succeeds and with what data.
- `dom.dfy`, module `Dom`: an element is `Elem(props, children)`.
  - `props` holds the tag, the text, the class set, `data-post-id`, `value` and the set of click listeners.
  - Document order is the preorder `Flatten`. `Outline` records the child counts, that is the shape.
  - `UpdateNth` edits the element at one document position. `FirstMatch` is `querySelector('[data-post-id="…"]')`.
  - A listener is a `Closure(id, postId)`. Every evaluation of the arrow function is a new object, so each one gets a new id.
- `builders.dfy`, module `ViewBuilder`: `createElemWithText`, `createSelectOptions`, `createComments`, `displayComments` and `createPosts`.
- `layout.dfy`, module `Layout`: what a page of built posts looks like in document order.
- `listeners.dfy`, module `Listeners`: the effect of one listener pass on the document, as a function `Attached`.
- `page.dfy`, module `Document`: the stateful part.
  - `Container` is `<main>`, a class whose `children` field the methods replace.
  - `Page` holds `<main>` and the closure counter.
  - `SelectMenu` is the `<select>` element with `value` and `disabled`.
  - This module also has the toggles, `deleteChildElements`, the listener passes, `displayPosts`, `refreshPosts` and `selectMenuChangeEventHandler`.

Sentinel returns become datatypes. Examples:

- `Found = NoId | Missing | Hit(at)` stands for `undefined`, `null` or the element found.
- `Built = Undefined | Threw | Fragment(…)`.
- `Refresh` stands for the 4-element array that `refreshPosts` returns.

An element returned by a lookup is identified by its document position.

### Where the code and its description differ

The model follows the code.

- **Both toggles find the button.**
  - Inside each article the button is appended before the comments section, and both carry the same `data-post-id`.
  - `document.querySelector` therefore finds the button in both `toggleCommentSection` and `toggleCommentButton`.
  - So `hide` is toggled on the button's class list, and the section is never revealed.
  - `Document.ToggleKeepsPage` proves this for any page that `createPosts` builds: every section keeps `hide` whatever is clicked.
- **Listeners are added but never removed.**
  - `removeButtonListeners` passes a newly created closure, which was never registered, so it removes nothing (`Document.DetachFresh`).
  - A second `addButtonListeners` on the same page stacks a second closure on every button (`Listeners.AttachedTwice`).
  - `refreshPosts` clears `<main>` first, so the new buttons each get exactly one listener (`Document.RefreshedPage`).
- **An empty post list shows no placeholder.**
  - `refreshPosts([])` clears `<main>` and appends an empty fragment.
  - The placeholder paragraph appears only when `displayPosts` gets no list at all.
- **A failed author fetch is a crash.**
  - `getUser` answers `{}` on failure. `createPosts` then reads `author.company.name`, which throws a TypeError.
  - A falsy post id also makes `displayComments` return `undefined`, and appending that throws too.
  - The model treats both as a thrown error. It propagates to the `catch` of the change handler, which enables the menu again and returns `undefined`.

## Model

| member | source | states |
|---|---|---|
| Records.DecimalRoundTrip | js/main.js:260 | the text a post id renders to reads back as that id, so `data-post-id` loses nothing |
| Records.DecimalInjective | js/main.js:260 | different post ids give different `data-post-id` texts |
| Gateway.GetUsers | js/main.js:157-166 | the fetched user list, or `[]` when the fetch or the JSON decoding fails |
| Gateway.GetUserPosts | js/main.js:169-183 | `undefined` exactly for a falsy user id; else the fetched posts of `/posts?userId=…`, or `[]` on failure |
| Gateway.GetUser | js/main.js:187-201 | `undefined` exactly for a falsy user id; else the fetched user of `/users/…`, or `{}` on failure |
| Gateway.GetPostComments | js/main.js:205-219 | `undefined` exactly for a falsy post id; else the fetched comments of `/comments?postId=…`, or `[]` on failure |
| ViewBuilder.CreateElemWithText | js/main.js:4-12 | the element has the given tag and text; the class set is `{className}` when className is non-empty, else empty; defaults `p`, `''`, `''`; no attribute, listener or child |
| ViewBuilder.UserOptionIdentifiesUser | js/main.js:19-21 | a user's option is an `option` labelled with the name whose value reads back as the user's id |
| ViewBuilder.CreateSelectOptions | js/main.js:15-25 | `undefined` exactly for missing input; else one option per user, in input order, value = id text, label = name |
| ViewBuilder.CreateComments | js/main.js:111-131 | `undefined` exactly for missing input; else one `article` per comment, in order, with children h3(name), p(body), p("From: " + email) |
| ViewBuilder.DisplayComments | js/main.js:223-238 | `undefined` exactly for a falsy post id; else a `section` with `data-post-id` = the id, classes exactly `comments` and `hide`, holding the articles of the fetched comments (none when the fetch failed) |
| ViewBuilder.BuildPost | js/main.js:250-273 | one post's article is built exactly when the author was fetched in full and the post id is non-zero; it is then h2(title), p(body), p("Post ID: …"), p("Author: … with …"), p(catch phrase), the "Show Comments" button and the comments section |
| ViewBuilder.PostArticles | js/main.js:248-275 | the page builds exactly when every post builds; then one article per post, in input order |
| ViewBuilder.CreatePost | js/main.js:251-272 | the loop body of `createPosts` produces exactly the article `BuildPost` describes, or the thrown error |
| ViewBuilder.CreatePosts | js/main.js:242-276 | `undefined` for missing input; a thrown error when any post cannot be built; else the fragment of all articles in order |
| ViewBuilder.PostArticlesFail | js/main.js:255-270 | one post whose author is missing or whose id is falsy makes the whole `createPosts` throw |
| Dom.FlipText | js/main.js:60 | the label becomes "Hide Comments" exactly when it was "Show Comments", and "Show Comments" otherwise |
| Dom.Apply | js/main.js:41 | `classList.toggle(name)` flips whether that one class is present and changes no other class, text or listener; no edit changes the tag, `data-post-id` or value |
| Dom.UpdateNthSpec | js/main.js:41 | an in-place edit of the element at one document position changes that element only: document order and shape are otherwise unchanged |
| Dom.FirstMatch | js/main.js:34 | the lookup answers the first element in document order carrying the id, and nothing only when no element carries it |
| Dom.FirstMatchAfterEdit | js/main.js:34-41 | edits keep every `data-post-id`, so every lookup answers the same position after an edit |
| Layout.CommentsPlain | js/main.js:119-128 | comment articles carry no post id, no listener, no button and no section |
| Layout.DisplayedSection | js/main.js:229-236 | the section of a truthy post id is hidden, tagged with that id, listener-free and holds only plain elements |
| Layout.ArticleDocumentOrder | js/main.js:262-270 | in document order an article is: article, h2, p, p, p, p, the button, the section, the comment articles |
| Layout.ArticleProperties | js/main.js:258-270 | within one article a lookup finds something exactly for the post's id, and it finds the button labelled "Show Comments"; the button carries the post id; the section is hidden; nothing has a listener |
| Layout.PageRendered | js/main.js:242-276 | on a page `createPosts` builds, every lookup that finds something finds a button labelled "Show Comments", every button carries a non-empty post id, every section is hidden and no element has a listener |
| Layout.PageKeys | js/main.js:260 | a lookup on a built page finds something exactly when some post has that id |
| Listeners.AttachedFresh | js/main.js:89 | the keyed buttons of one pass get pairwise distinct closures, with ids from the counter's value up to that value plus their number |
| Listeners.AttachedBelow | js/main.js:89 | after a pass, every listener id on the page is below the advanced counter |
| Listeners.AttachedOnce | js/main.js:83-94 | on a page without listeners, one pass leaves each keyed button with exactly one listener, bound to its own post id, and every other element with none |
| Listeners.AttachedTwice | js/main.js:83-94 | a second pass without clearing the page leaves each keyed button with two listeners |
| Listeners.AttachedKeepsKeys | js/main.js:83-94 | a pass keeps tags, labels and post ids, so every lookup lands where it did, buttons stay first, labels and keys stay and sections stay hidden |
| Document.DeleteChildElements | js/main.js:65-79 | a missing parent is answered as missing; otherwise the same parent comes back with no children left |
| Document.Lookup | js/main.js:28-39 | `undefined` exactly for a falsy id; `null` exactly when no element in document order carries the rendered id; else the first element that does |
| Document.ToggledEffect | js/main.js:34-41 | a toggle edits only the element found and leaves the page unchanged when nothing is found; shape and all lookups stay |
| Document.ToggleClassTwice | js/main.js:41 | toggling a class twice restores the class set |
| Document.ToggleSectionTwice | js/main.js:28-43 | two `toggleCommentSection` calls with the same id restore the page |
| Document.ToggleButtonTwice | js/main.js:47-62 | two `toggleCommentButton` calls restore the page when the label found is "Show Comments" or "Hide Comments" |
| Document.ToggleCommentsTwice | js/main.js:305-322 | two `toggleComments` calls for the same post restore the page, under the same label condition |
| Document.ClickTwiceRestores | js/main.js:305-322 | on a page whose lookups find "Show Comments" labels, as every built page's do, two `toggleComments` calls for the same post restore the page |
| Document.RefreshedPage | js/main.js:329-341 | after `refreshPosts` shows built posts, every button holds exactly one listener bound to its own post id, no other element holds any, lookups find "Show Comments" buttons and every section is hidden |
| Document.ToggleKeepsPage | js/main.js:28-62 | on a page where lookups find buttons, a toggle keeps that so, keeps every section hidden and changes no listener: a click never reveals comments |
| Document.ButtonsSpec | js/main.js:84 | `querySelectorAll('main button')` lists positions of buttons only, strictly in document order, and every button |
| Document.DetachFresh | js/main.js:103 | removing a newly created closure, whose identity no element holds, from a keyed element leaves the page exactly as it was |
| Document.Page.ToggleCommentSection | js/main.js:28-43 | answers the lookup on the page before; the new page is the old one with `hide` toggled on the element found |
| Document.Page.ToggleCommentButton | js/main.js:47-62 | answers the lookup on the page before; the new page is the old one with the label of the element found swapped |
| Document.Page.ToggleComments | js/main.js:305-322 | without an event nothing changes and `undefined` comes back; else both toggles run in order, the pair is answered exactly when the id is found, and both members are that same position |
| Document.Page.AddListenerAt | js/main.js:89 | `addEventListener` adds the closure to the element at that position and changes nothing else |
| Document.Page.ListenIfKeyed | js/main.js:86-91 | the callback on one button adds one new closure exactly when its `data-post-id` is non-empty, and advances the counter then |
| Document.Page.AddButtonListeners | js/main.js:83-94 | answers every button position of `<main>`; the new page is the old one with one fresh closure per keyed button, the shape is unchanged and the counter advances by their number |
| Document.Page.RemoveButtonListeners | js/main.js:97-108 | answers every button position of `<main>` and leaves the page exactly as it was |
| Document.Page.DisplayPosts | js/main.js:280-296 | no posts: appends the placeholder paragraph and answers it; a build that throws changes nothing; else appends every post's article in order and answers the emptied fragment |
| Document.Page.RefreshPosts | js/main.js:329-341 | no posts: `undefined`, nothing changes; a throw: `<main>` is left empty; else `<main>` is exactly the new articles with one fresh closure per keyed button, and the four answers are the old buttons, `<main>`, the emptied fragment and the new buttons |
| Document.ChosenUser | js/main.js:360 | the user id is the menu's value, or 1 when the value is empty; it is always truthy |
| Document.SelectMenuChangeEventHandler | js/main.js:345-374 | anything but a change event from a menu is ignored with no change; else the menu ends enabled with its value kept, the chosen user's posts are requested, and `<main>` ends as `refreshPosts` leaves it: empty with the answer `undefined` when the build throws, else the user's articles with their listeners, the counter advanced by the number of keyed buttons, and the answer holds the user id, the posts and `refreshPosts`' four-part answer |

## Left out

- The real `fetch`, `response.json()` and the network are not modelled. The remote service is the `Remote` parameter, which answers the same way each time a URL is asked.
- `async`/`await` scheduling is not modelled. Every await completes before the next statement. Overlapping refresh cycles, and a change event arriving while the menu is disabled, are not modelled.
- `console.warn`, `console.error` and `console.log` output is not modelled.
- Bootstrap wiring is not modelled: `populateSelectMenu`, `getElementById('selectMenu')`, `initPage`, `initApp` and the `DOMContentLoaded` registration (js/main.js:135-153, js/main.js:384-396). It is glue over the browser.
- `event.target.listener = true` (js/main.js:311) is not modelled. No code reads it, so `toggleComments` takes only whether an event was passed.
- Click dispatch itself is not modelled. A listener is a value on an element, and what a click does is `ToggleComments`.
- `Document.DeleteChildElements` does not check `instanceof Element`. A parent is either `<main>` or missing, because the program calls it only with `querySelector('main')`.
- `querySelector` and `querySelectorAll` search `<main>`'s subtree, not the whole document. Only `<main>` holds elements with `data-post-id` and buttons.
- `Document.Page.RemoveButtonListeners` gives its closures the next unused id without consuming it, because they are dropped at once. Any id not yet used models a new object equally well.
- Text nodes, CSS, attribute escaping in selectors, whitespace splitting of `className` and `textContent` of elements with children are not modelled. Elements carry only the properties the program reads or writes.
- Listener lists are sets of closures. Registering the same function object twice has no effect in the DOM, and every closure here is a new object.
- `Gateway.GetUser`: a `/users/…` request answered with a 404 still completes `fetch` and `response.json()`, yielding `{}`. `Remote.user` has no way to say "succeeded with an empty object", so the model expresses that reply as `Failed`, which leads to the same `{}`.
- Numbers are unbounded integers. Non-integer ids and non-numeric JSON values are outside the records' types.
