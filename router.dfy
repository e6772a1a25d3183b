/**
 * The route table of the core crate (galvyn-core/src/router/mod.rs):
 * `GalvynRouter` collects one `GalvynRoute` per handler, together with
 * the route metadata of the router it was added through.
 *
 * The route metadata set (`RouteMetadataSet`) holds at most one metadata
 * value per type; the only metadata type is the OpenAPI one, so the set
 * is an `Option<OpenapiMetadata>`, and inserting into an occupied slot
 * merges into the value already there. The axum `Router` the builder
 * wraps is not part of this model.
 */
module Router {
  import opened Wrappers
  import opened Text
  import opened OpenapiMeta
  import opened PathJoin

  datatype HttpMethod = Get | Post | Put | Delete | Head | Options | Patch | Trace

  /** `HandlerMeta`: what the handler macro records about a handler. */
  datatype HandlerMeta = HandlerMeta(httpMethod: HttpMethod, path: string, ident: string)

  /** `RouteMetadataSet`. */
  type MetadataSet = Option<OpenapiMetadata>

  /**
   * `RouteMetadataSet::insert`: a second value of the same type is merged
   * into the first, which keeps its pages and its tags in their places.
   */
  function Insert(s: MetadataSet, extension: OpenapiMetadata): (r: MetadataSet)
    ensures s.None? ==> r == Some(extension)
    ensures s.Some? ==> r.Some? && r.value.pages == s.value.pages
    ensures s.Some? ==> |s.value.tags| <= |r.value.tags| && r.value.tags[..|s.value.tags|] == s.value.tags
  {
    if s.None? then Some(extension) else Some(Merged(s.value, extension))
  }

  /**
   * `RouteMetadataSet::merge`: every value of `other` is inserted. An
   * empty `other` changes nothing; otherwise the result holds a value,
   * whose tags start with those of `s`.
   */
  function MergeSets(s: MetadataSet, other: MetadataSet): (r: MetadataSet)
    ensures other.None? ==> r == s
    ensures r.None? <==> s.None? && other.None?
    ensures |TagsOf(s)| <= |TagsOf(r)| && TagsOf(r)[..|TagsOf(s)|] == TagsOf(s)
  {
    if other.None? then s else Insert(s, other.value)
  }

  /** The tags of a metadata set. */
  function TagsOf(s: MetadataSet): seq<string> {
    if s.None? then [] else s.value.tags
  }

  /** Inserting metadata loses no tag, adds the extension's tags and no other. */
  lemma InsertTags(s: MetadataSet, extension: OpenapiMetadata, t: string)
    ensures t in TagsOf(Insert(s, extension)) <==> t in TagsOf(s) || t in extension.tags
  {
    if s.Some? {
      MergeTagsElements(s.value.tags, extension.tags, t);
    }
  }

  /** Merging a router's set into a route's set loses no tag, adds the router's tags and no other. */
  lemma MergeSetsTags(s: MetadataSet, other: MetadataSet, t: string)
    ensures t in TagsOf(MergeSets(s, other)) <==> t in TagsOf(s) || t in TagsOf(other)
  {
    if other.Some? {
      InsertTags(s, other.value, t);
    }
  }

  /** `GalvynRoute`. */
  datatype GalvynRoute = GalvynRoute(handler: HandlerMeta, path: string, extensions: MetadataSet)

  /** `GalvynRoute::new`: routed at the handler's own path, with no metadata yet. */
  function NewRoute(original: HandlerMeta): (r: GalvynRoute)
    ensures r.handler == original && r.path == original.path && r.extensions == None
  {
    GalvynRoute(original, original.path, None)
  }

  /** The routes `routes` after `push_handler` merged `extensions` into each. */
  function Adopted(routes: seq<GalvynRoute>, extensions: MetadataSet): (r: seq<GalvynRoute>)
    ensures |r| == |routes|
  {
    seq(|routes|, i requires 0 <= i < |routes| => routes[i].(extensions := MergeSets(routes[i].extensions, extensions)))
  }

  /** The routes `routes` moved under `prefix`. */
  function Renamed(routes: seq<GalvynRoute>, prefix: string): (r: seq<GalvynRoute>)
    ensures |r| == |routes|
  {
    seq(|routes|, i requires 0 <= i < |routes| => routes[i].(path := NestedPath(prefix, routes[i].path)))
  }

  const ROOT_NEST_PANIC := "Nesting at the root is no longer supported. Use merge instead."
  const NO_SLASH_PANIC := "Paths must start with a slash."

  /** `GalvynRouter`. */
  class GalvynRouter {
    var handlers: seq<GalvynRoute>
    var extensions: MetadataSet

    /** `GalvynRouter::new`. */
    constructor ()
      ensures handlers == [] && extensions == None
    {
      handlers := [];
      extensions := None;
    }

    /** `push_handler`: the router's metadata is merged into the route, which is appended. */
    method PushHandler(route: GalvynRoute)
      modifies this
      ensures handlers == old(handlers) + Adopted([route], extensions)
      ensures extensions == old(extensions)
    {
      handlers := handlers + [route.(extensions := MergeSets(route.extensions, extensions))];
    }

    /** `handler`: one route at the handler's own path, carrying the router's metadata. */
    method Handler(meta: HandlerMeta)
      modifies this
      ensures handlers == old(handlers) + [GalvynRoute(meta, meta.path, extensions)]
      ensures extensions == old(extensions)
    {
      PushHandler(NewRoute(meta));
    }

    /**
     * `metadata`: the extension is inserted into every existing route and
     * into the router's own set, from which later routes receive it.
     */
    method Metadata(extension: OpenapiMetadata)
      modifies this
      ensures |handlers| == |old(handlers)|
      ensures forall i :: 0 <= i < |handlers| ==>
        handlers[i] == old(handlers)[i].(extensions := Insert(old(handlers)[i].extensions, extension))
      ensures extensions == Insert(old(extensions), extension)
    {
      var i := 0;
      while i < |handlers|
        invariant 0 <= i <= |handlers| == |old(handlers)|
        invariant forall k :: 0 <= k < i ==>
          handlers[k] == old(handlers)[k].(extensions := Insert(old(handlers)[k].extensions, extension))
        invariant forall k :: i <= k < |handlers| ==> handlers[k] == old(handlers)[k]
        invariant extensions == old(extensions)
      {
        handlers := handlers[i := handlers[i].(extensions := Insert(handlers[i].extensions, extension))];
        i := i + 1;
      }
      extensions := Insert(extensions, extension);
    }

    /** `finish`: the routes, in the order they were added. */
    method Finish() returns (routes: seq<GalvynRoute>)
      ensures routes == handlers
    {
      routes := handlers;
    }

    /** The loop shared by `nest` and `merge`: every route of `routes`, in order, through `push_handler`. */
    method PushAll(routes: seq<GalvynRoute>)
      modifies this
      ensures handlers == old(handlers) + Adopted(routes, extensions)
      ensures extensions == old(extensions)
    {
      var i := 0;
      while i < |routes|
        invariant 0 <= i <= |routes|
        invariant handlers == old(handlers) + Adopted(routes[..i], extensions)
        invariant extensions == old(extensions)
      {
        PushHandler(routes[i]);
        assert Adopted(routes[..i + 1], extensions) == Adopted(routes[..i], extensions) + Adopted([routes[i]], extensions);
        i := i + 1;
      }
      assert routes[..i] == routes;
    }

    /**
     * `nest`: panics for the root path and for a path without a leading
     * slash; otherwise every route of `other` is moved under `path` and
     * appended, in order, with this router's metadata merged in.
     */
    method Nest(path: string, other: GalvynRouter) returns (o: Outcome<()>)
      requires other != this
      modifies this
      ensures (path == "" || path == "/") ==> o == Panicked(ROOT_NEST_PANIC)
      ensures !(path == "" || path == "/") && !StartsWith(path, "/") ==> o == Panicked(NO_SLASH_PANIC)
      ensures o.Panicked? ==> handlers == old(handlers)
      ensures !(path == "" || path == "/") && StartsWith(path, "/") ==>
        o.Returned? && handlers == old(handlers) + Adopted(Renamed(other.handlers, path), extensions)
      ensures extensions == old(extensions)
    {
      if path == "" || path == "/" {
        return Panicked(ROOT_NEST_PANIC);
      }
      if !StartsWith(path, "/") {
        return Panicked(NO_SLASH_PANIC);
      }
      PushAll(Renamed(other.handlers, path));
      o := Returned(());
    }

    /** `merge`: every route of `other` is appended, in order, with this router's metadata merged in. */
    method Merge(other: GalvynRouter)
      requires other != this
      modifies this
      ensures handlers == old(handlers) + Adopted(other.handlers, extensions)
      ensures extensions == old(extensions)
    {
      PushAll(other.handlers);
    }
  }

  /**
   * Metadata reaches a router's routes whether they were added before or
   * after it, and `finish` lists the routes in the order they were added.
   */
  method MetadataBeforeAndAfter(first: HandlerMeta, second: HandlerMeta, extension: OpenapiMetadata) returns (routes: seq<GalvynRoute>)
    ensures |routes| == 2 && routes[0].handler == first && routes[1].handler == second
    ensures routes[0].path == first.path && routes[1].path == second.path
    ensures forall t :: t in extension.tags ==> t in TagsOf(routes[0].extensions) && t in TagsOf(routes[1].extensions)
  {
    var router := new GalvynRouter();
    router.Handler(first);
    router.Metadata(extension);
    router.Handler(second);
    routes := router.Finish();
    forall t | t in extension.tags
      ensures t in TagsOf(routes[0].extensions) && t in TagsOf(routes[1].extensions)
    {
      InsertTags(None, extension, t);
    }
  }
}
