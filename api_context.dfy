/**
 * The API context of swaggapi (swaggapi/src/context.rs and
 * swaggapi/src/internals/handler.rs): `ApiContext` collects one
 * `ContextHandler` per handler, together with the tags and pages of the
 * context it was added through, and `finish` adds every handler to the
 * page of everything and to each of its own pages, with its path
 * rewritten into OpenAPI's placeholder syntax.
 *
 * A `PtrSet` (a set compared by address) is a `set` compared by value.
 * The axum `Router` the context wraps is not part of this model.
 */
module ApiContext {
  import opened Wrappers
  import opened Text
  import opened PathJoin
  import R = Router

  /** A `SwaggapiPageBuilder`: the page of everything or a page of the application. */
  datatype Page = PageOfEverything | NamedPage(name: string)

  /** `SwaggapiHandler`: what the handler macro records about a handler. */
  datatype SwaggapiHandler = SwaggapiHandler(
    httpMethod: R.HttpMethod,
    path: string,
    deprecated: bool,
    doc: seq<string>,
    ident: string,
    tags: seq<string>)

  /** `ContextHandler`: a handler with the path, tags and pages the context gave it. */
  datatype ContextHandler = ContextHandler(original: SwaggapiHandler, path: string, tags: set<string>, pages: set<Page>)

  /** `ContextHandler::new`: the original's path and tags, and no page yet. */
  function NewContextHandler(original: SwaggapiHandler): (r: ContextHandler)
    ensures r.original == original && r.path == original.path && r.pages == {}
    ensures forall t :: t in r.tags <==> t in original.tags
  {
    ContextHandler(original, original.path, set t | t in original.tags, {})
  }

  /** The longest prefix of `s` without a `/`: what `[^/]*` matches. */
  function Segment(s: string): (r: string)
    ensures |r| <= |s| && r == s[..|r|]
    ensures '/' !in r
    ensures |r| < |s| ==> s[|r|] == '/'
  {
    if s == [] || s[0] == '/' then [] else [s[0]] + Segment(s[1..])
  }

  /**
   * `framework_path_to_openapi`: every `:` and the run of non-`/`
   * characters after it, left to right, becomes that run in braces. Each
   * `:name` gains one character, so a path with a `:` is changed and one
   * without is returned as it is.
   */
  function ToOpenapi(path: string): (r: string)
    ensures |r| >= |path|
    ensures ':' in path ==> |r| > |path|
    ensures ':' !in path ==> r == path
    decreases |path|
  {
    if path == [] then []
    else if path[0] == ':' then
      var name := Segment(path[1..]);
      "{" + name + "}" + ToOpenapi(path[1 + |name|..])
    else
      assert ':' in path ==> ':' in path[1..];
      assert path == [path[0]] + path[1..];
      [path[0]] + ToOpenapi(path[1..])
  }

  /** A run never crosses a `/`: the rewrite works segment by segment. */
  lemma {:induction false} ToOpenapiSegments(a: string, b: string)
    requires '/' !in a
    ensures ToOpenapi(a + "/" + b) == ToOpenapi(a) + "/" + ToOpenapi(b)
    decreases |a|
  {
    if a == [] {
      assert a + "/" + b == "/" + b;
      ToOpenapiSlash(b);
    } else if a[0] == ':' {
      ToOpenapiColonSegment(a, b);
    } else {
      var s := a + "/" + b;
      assert s[1..] == a[1..] + "/" + b;
      ToOpenapiSegments(a[1..], b);
    }
  }

  lemma ToOpenapiSlash(b: string)
    ensures ToOpenapi("/" + b) == "/" + ToOpenapi(b)
  {
    assert ("/" + b)[1..] == b;
  }

  lemma ToOpenapiColonSegment(a: string, b: string)
    requires a != [] && a[0] == ':' && '/' !in a
    ensures ToOpenapi(a + "/" + b) == ToOpenapi(a) + "/" + ToOpenapi(b)
  {
    var name := a[1..];
    assert a == ":" + name;
    ToOpenapiParameter(name);
    var s := a + "/" + b;
    assert s[0] == ':';
    assert s[1..] == name + "/" + b;
    SegmentStopsAtSlash(name, b);
    assert s[1 + |name|..] == "/" + b;
    ToOpenapiSlash(b);
  }

  lemma {:induction false} SegmentStopsAtSlash(a: string, b: string)
    requires '/' !in a
    ensures Segment(a + "/" + b) == a
    decreases |a|
  {
    if a == [] {
      assert (a + "/" + b)[0] == '/';
    } else {
      assert (a + "/" + b)[1..] == a[1..] + "/" + b;
      SegmentStopsAtSlash(a[1..], b);
      assert a == [a[0]] + a[1..];
    }
  }

  /** Text before the first `:` is copied as it is. */
  lemma {:induction false} ToOpenapiPlainPrefix(p: string, q: string)
    requires ':' !in p
    ensures ToOpenapi(p + q) == p + ToOpenapi(q)
    decreases |p|
  {
    if p != [] {
      assert (p + q)[1..] == p[1..] + q;
      ToOpenapiPlainPrefix(p[1..], q);
      assert p == [p[0]] + p[1..];
    } else {
      assert p + q == q;
    }
  }

  /** A path ending in one parameter, such as `/users/:id`, is documented with it in braces, as `/users/{id}`. */
  lemma TrailingParameter(p: string, name: string)
    requires ':' !in p && '/' !in name
    ensures ToOpenapi(p + ":" + name) == p + "{" + name + "}"
  {
    assert p + ":" + name == p + (":" + name);
    ToOpenapiPlainPrefix(p, ":" + name);
    ToOpenapiParameter(name);
  }

  /** A lone parameter `:name` becomes `{name}`. */
  lemma ToOpenapiParameter(name: string)
    requires '/' !in name
    ensures ToOpenapi(":" + name) == "{" + name + "}"
  {
    var s := ":" + name;
    assert s[1..] == name;
    assert Segment(name) == name;
    assert s[1 + |name|..] == [];
  }

  /** The handlers `finish` adds to `page`, in order: every handler to the page of everything, and each to its own pages. */
  function PageContents(handlers: seq<ContextHandler>, page: Page): (r: seq<ContextHandler>)
    ensures page.NamedPage? ==> |r| <= |handlers|
    ensures page == PageOfEverything ==> |handlers| <= |r| <= 2 * |handlers|
    decreases |handlers|
  {
    if handlers == [] then []
    else PageContents(handlers[..|handlers| - 1], page) + Additions(handlers[|handlers| - 1], page)
  }

  /** What `finish` adds to `page` for one handler. */
  function Additions(h: ContextHandler, page: Page): seq<ContextHandler> {
    var documented := h.(path := ToOpenapi(h.path));
    (if page == PageOfEverything then [documented] else []) + (if page in h.pages then [documented] else [])
  }

  /** A page's handlers so far. */
  function Listed(added: map<Page, seq<ContextHandler>>, page: Page): seq<ContextHandler> {
    if page in added then added[page] else []
  }

  /**
   * Every handler is on the page of everything, and a handler is on a
   * named page exactly when the page is one of its own.
   */
  lemma {:induction false} PageContentsMembers(handlers: seq<ContextHandler>, i: int, name: string)
    requires 0 <= i < |handlers|
    ensures handlers[i].(path := ToOpenapi(handlers[i].path)) in PageContents(handlers, PageOfEverything)
    ensures NamedPage(name) in handlers[i].pages ==>
      handlers[i].(path := ToOpenapi(handlers[i].path)) in PageContents(handlers, NamedPage(name))
    decreases |handlers|
  {
    var last := |handlers| - 1;
    if i < last {
      PageContentsMembers(handlers[..last], i, name);
    }
  }

  /** A named page lists only handlers that have it among their pages. */
  lemma {:induction false} NamedPageOnlyOwn(handlers: seq<ContextHandler>, name: string, h: ContextHandler)
    requires h in PageContents(handlers, NamedPage(name))
    ensures exists i :: 0 <= i < |handlers| && NamedPage(name) in handlers[i].pages && h == handlers[i].(path := ToOpenapi(handlers[i].path))
    decreases |handlers|
  {
    var last := |handlers| - 1;
    if h in PageContents(handlers[..last], NamedPage(name)) {
      NamedPageOnlyOwn(handlers[..last], name, h);
      var i :| 0 <= i < last && NamedPage(name) in handlers[..last][i].pages && h == handlers[..last][i].(path := ToOpenapi(handlers[..last][i].path));
      assert handlers[..last][i] == handlers[i];
    } else {
      assert h in Additions(handlers[last], NamedPage(name));
    }
  }

  /** The handler `push_handler` appends for `h`. */
  function Adopted(h: ContextHandler, path: string, tags: seq<string>, pages: seq<Page>): (r: ContextHandler)
    ensures r.original == h.original
    ensures path == "" ==> r.path == h.path
    ensures path != "" ==> r.path == path + h.path
    ensures forall t :: t in r.tags <==> t in h.tags || t in tags
    ensures forall p :: p in r.pages <==> p in h.pages || p in pages
  {
    h.(path := if path != "" then path + h.path else h.path,
       tags := h.tags + (set t | t in tags),
       pages := h.pages + (set p | p in pages))
  }

  /** `ApiContext`. */
  class ApiContext {
    var handlers: seq<ContextHandler>
    var path: string
    var pages: seq<Page>
    var tags: seq<string>

    /** `ApiContext::new`: no handlers, an empty path, no pages and no tags. */
    constructor ()
      ensures handlers == [] && path == "" && pages == [] && tags == []
    {
      handlers := [];
      path := "";
      pages := [];
      tags := [];
    }

    /** `push_handler`: the context's path prefixes the handler's unless empty; its tags and pages are added. */
    method PushHandler(h: ContextHandler)
      modifies this
      ensures handlers == old(handlers) + [Adopted(h, path, tags, pages)]
      ensures path == old(path) && tags == old(tags) && pages == old(pages)
    {
      var handler := h;
      if path != "" {
        handler := handler.(path := path + handler.path);
      }
      handler := handler.(tags := handler.tags + (set t | t in tags));
      handler := handler.(pages := handler.pages + (set p | p in pages));
      handlers := handlers + [handler];
    }

    /** `handler`: one `ContextHandler::new` of the handler, through `push_handler`. */
    method Handler(original: SwaggapiHandler)
      modifies this
      ensures handlers == old(handlers) + [Adopted(NewContextHandler(original), path, tags, pages)]
      ensures path == old(path) && tags == old(tags) && pages == old(pages)
    {
      PushHandler(NewContextHandler(original));
    }

    /** `page`: recorded for later handlers and added to every existing one. */
    method AddPage(page: Page)
      modifies this
      ensures pages == old(pages) + [page]
      ensures |handlers| == |old(handlers)|
      ensures forall i :: 0 <= i < |handlers| ==> handlers[i] == old(handlers)[i].(pages := old(handlers)[i].pages + {page})
      ensures path == old(path) && tags == old(tags)
    {
      pages := pages + [page];
      var i := 0;
      while i < |handlers|
        invariant 0 <= i <= |handlers| == |old(handlers)|
        invariant forall k :: 0 <= k < i ==> handlers[k] == old(handlers)[k].(pages := old(handlers)[k].pages + {page})
        invariant forall k :: i <= k < |handlers| ==> handlers[k] == old(handlers)[k]
        invariant pages == old(pages) + [page] && path == old(path) && tags == old(tags)
      {
        handlers := handlers[i := handlers[i].(pages := handlers[i].pages + {page})];
        i := i + 1;
      }
    }

    /** `tag`: recorded for later handlers and added to every existing one. */
    method AddTag(tag: string)
      modifies this
      ensures tags == old(tags) + [tag]
      ensures |handlers| == |old(handlers)|
      ensures forall i :: 0 <= i < |handlers| ==> handlers[i] == old(handlers)[i].(tags := old(handlers)[i].tags + {tag})
      ensures path == old(path) && pages == old(pages)
    {
      tags := tags + [tag];
      var i := 0;
      while i < |handlers|
        invariant 0 <= i <= |handlers| == |old(handlers)|
        invariant forall k :: 0 <= k < i ==> handlers[k] == old(handlers)[k].(tags := old(handlers)[k].tags + {tag})
        invariant forall k :: i <= k < |handlers| ==> handlers[k] == old(handlers)[k]
        invariant tags == old(tags) + [tag] && path == old(path) && pages == old(pages)
      {
        handlers := handlers[i := handlers[i].(tags := handlers[i].tags + {tag})];
        i := i + 1;
      }
    }

    /** The loop of `nest` and `merge`: each handler, moved under `prefix` if one is given, through `push_handler`. */
    method PushAll(others: seq<ContextHandler>, prefix: Option<string>)
      modifies this
      ensures |handlers| == |old(handlers)| + |others|
      ensures handlers[..|old(handlers)|] == old(handlers)
      ensures forall i :: 0 <= i < |others| ==>
        handlers[|old(handlers)| + i] ==
          Adopted(if prefix.Some? then others[i].(path := NestedPath(prefix.value, others[i].path)) else others[i], path, tags, pages)
      ensures path == old(path) && tags == old(tags) && pages == old(pages)
    {
      var i := 0;
      while i < |others|
        invariant 0 <= i <= |others|
        invariant |handlers| == |old(handlers)| + i
        invariant handlers[..|old(handlers)|] == old(handlers)
        invariant forall k :: 0 <= k < i ==>
          handlers[|old(handlers)| + k] ==
            Adopted(if prefix.Some? then others[k].(path := NestedPath(prefix.value, others[k].path)) else others[k], path, tags, pages)
        invariant path == old(path) && tags == old(tags) && pages == old(pages)
      {
        var handler := others[i];
        if prefix.Some? {
          handler := handler.(path := NestedPath(prefix.value, handler.path));
        }
        PushHandler(handler);
        i := i + 1;
      }
    }

    /** `nest`: every handler of `other` moved under `prefix` by the router's rule, then through `push_handler`; no path is refused. */
    method Nest(prefix: string, other: ApiContext)
      requires other != this
      modifies this
      ensures |handlers| == |old(handlers)| + |other.handlers|
      ensures handlers[..|old(handlers)|] == old(handlers)
      ensures forall i :: 0 <= i < |other.handlers| ==>
        handlers[|old(handlers)| + i] ==
          Adopted(other.handlers[i].(path := NestedPath(prefix, other.handlers[i].path)), path, tags, pages)
      ensures path == old(path) && tags == old(tags) && pages == old(pages)
    {
      PushAll(other.handlers, Some(prefix));
    }

    /** `merge`: every handler of `other`, in order, through `push_handler`. */
    method Merge(other: ApiContext)
      requires other != this
      modifies this
      ensures |handlers| == |old(handlers)| + |other.handlers|
      ensures handlers[..|old(handlers)|] == old(handlers)
      ensures forall i :: 0 <= i < |other.handlers| ==> handlers[|old(handlers)| + i] == Adopted(other.handlers[i], path, tags, pages)
      ensures path == old(path) && tags == old(tags) && pages == old(pages)
    {
      PushAll(other.handlers, None);
    }

    /**
     * `finish`: each handler, its path rewritten for OpenAPI, is added to
     * the page of everything and then to each of its own pages.
     */
    method Finish() returns (added: map<Page, seq<ContextHandler>>)
      ensures forall page :: Listed(added, page) == PageContents(handlers, page)
    {
      added := map[];
      var i := 0;
      while i < |handlers|
        invariant 0 <= i <= |handlers|
        invariant forall page :: Listed(added, page) == PageContents(handlers[..i], page)
      {
        var handler := handlers[i];
        var documented := handler.(path := ToOpenapi(handler.path));
        ghost var before := added;
        added := AddToPages(added, documented, {PageOfEverything});
        ghost var mid := added;
        added := AddToPages(added, documented, handler.pages);
        FinishStep(handlers, i, before, mid, added);
        i := i + 1;
      }
      assert handlers[..i] == handlers;
    }
  }

  /** One round of `finish`'s loop extends every page's list as `PageContents` does. */
  lemma FinishStep(handlers: seq<ContextHandler>, i: int, before: map<Page, seq<ContextHandler>>,
                   mid: map<Page, seq<ContextHandler>>, added: map<Page, seq<ContextHandler>>)
    requires 0 <= i < |handlers|
      && (forall page :: Listed(before, page) == PageContents(handlers[..i], page))
      && (forall page :: Listed(mid, page) == Listed(before, page)
            + (if page in {PageOfEverything} then [handlers[i].(path := ToOpenapi(handlers[i].path))] else []))
      && (forall page :: Listed(added, page) == Listed(mid, page)
            + (if page in handlers[i].pages then [handlers[i].(path := ToOpenapi(handlers[i].path))] else []))
    ensures forall page :: Listed(added, page) == PageContents(handlers[..i + 1], page)
  {
    assert handlers[..i + 1][..i] == handlers[..i];
    forall page
      ensures Listed(added, page) == PageContents(handlers[..i + 1], page)
    {
      var documented := handlers[i].(path := ToOpenapi(handlers[i].path));
      var everything := if page == PageOfEverything then [documented] else [];
      var own := if page in handlers[i].pages then [documented] else [];
      assert Listed(mid, page) == Listed(before, page) + everything;
      assert Additions(handlers[i], page) == everything + own;
      assert Listed(added, page) == Listed(before, page) + (everything + own);
    }
  }

  /** The loop over one handler's pages in `finish`: the handler is appended to each of them, in any order. */
  method AddToPages(added: map<Page, seq<ContextHandler>>, handler: ContextHandler, pages: set<Page>) returns (r: map<Page, seq<ContextHandler>>)
    ensures forall page :: Listed(r, page) == Listed(added, page) + (if page in pages then [handler] else [])
  {
    r := added;
    var rest := pages;
    while rest != {}
      invariant rest <= pages
      invariant forall page :: Listed(r, page) == Listed(added, page) + (if page in pages - rest then [handler] else [])
      decreases rest
    {
      var page :| page in rest;
      r := r[page := Listed(r, page) + [handler]];
      rest := rest - {page};
    }
  }

  /** A tag reaches a context's handlers whether they were added before or after it. */
  method TagBeforeAndAfter(first: SwaggapiHandler, second: SwaggapiHandler, tag: string) returns (handlers: seq<ContextHandler>)
    ensures |handlers| == 2 && handlers[0].original == first && handlers[1].original == second
    ensures tag in handlers[0].tags && tag in handlers[1].tags
    ensures handlers[0].path == first.path && handlers[1].path == second.path
  {
    var context := new ApiContext();
    context.Handler(first);
    context.AddTag(tag);
    context.Handler(second);
    handlers := context.handlers;
  }
}
