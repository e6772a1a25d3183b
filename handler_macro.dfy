/**
 * The `handler` attribute macro (galvyn-macros/src/handler/mod.rs): how
 * it resolves its arguments into a handler's method, path and tags, and
 * which of the function's types it documents as request and response
 * parts and bodies. The emitted token stream itself is not modelled, and
 * the argument parser (`parse::parse`, which is not part of this model)
 * is a parameter: its result, or its error.
 */
module HandlerMacro {
  import opened Wrappers

  datatype Delimiter = Parenthesis | Brace | Bracket | NoDelimiter

  /** `proc_macro2::TokenTree`, reduced to what the arguments hold. */
  datatype TokenTree = Ident(name: string) | Literal(text: string) | Group(delimiter: Delimiter, stream: seq<TokenTree>)

  /** `parse::Args`: the positional arguments in order, and the `key = value` ones by key. */
  datatype Args = Args(positional: seq<TokenTree>, keyword: map<string, TokenTree>)

  /** A `syn::Type`: a tuple type with its elements, or any other type by its text. */
  datatype Type = TupleType(elems: seq<Type>) | OtherType(text: string)

  /** `syn::FnArg`. */
  datatype FnArg = Receiver | Typed(ty: Type)

  /** `syn::ReturnType`. */
  datatype ReturnType = DefaultReturn | Returns(ty: Type)

  /** `syn::Meta` of an attribute, with its path as segments. */
  datatype Meta = PathMeta(path: seq<string>) | ListMeta(path: seq<string>) | NameValueMeta(path: seq<string>, value: string)

  /** The parts of a `syn::ItemFn` the macro reads. */
  datatype ItemFn = ItemFn(attrs: seq<Meta>, ident: string, inputs: seq<FnArg>, output: ReturnType)

  /** The compile errors the macro emits. */
  datatype MacroError = ParseError(message: string) | UnexpectedValue(value: TokenTree) | UnknownKey(keys: set<string>)

  /** What `HandlerMeta` is generated from. */
  datatype HandlerTokens = HandlerTokens(
    httpMethod: TokenTree,
    path: TokenTree,
    deprecated: bool,
    doc: seq<string>,
    ident: string,
    tags: TokenTree,
    requestParts: seq<Type>,
    requestBody: Option<Type>,
    responseModifier: Option<Type>,
    responseParts: seq<Type>,
    responseBody: Option<Type>)

  /**
   * The expansion: a compile error followed by the annotated function's
   * tokens, unchanged, or the generated handler.
   */
  datatype Expansion = CompileError(error: MacroError, original: seq<TokenTree>) | Generated(meta: HandlerTokens)

  /** The panic of `Option::unwrap` on `None`. */
  const UNWRAP_NONE := "called `Option::unwrap()` on a `None` value"

  /** `Path::get_ident`: the path's only segment. */
  function PathIdent(path: seq<string>): (r: Option<string>)
    ensures r.Some? <==> |path| == 1
    ensures r.Some? ==> r.value == path[0]
  {
    if |path| == 1 then Some(path[0]) else None
  }

  // ---------------------------------------------------------------------
  // Argument resolution
  // ---------------------------------------------------------------------

  /** The method is taken from the positional arguments: no fixed method and no `method` key. */
  predicate MethodIsPositional(fixed: Option<string>, keyword: map<string, TokenTree>) {
    fixed.None? && "method" !in keyword
  }

  /** How many positional arguments the method and the path take. */
  function Consumed(fixed: Option<string>, keyword: map<string, TokenTree>): nat {
    (if MethodIsPositional(fixed, keyword) then 1 else 0) + (if "path" in keyword then 0 else 1)
  }

  /** The keys nothing consumes: all but `path` and `tags`, and `method` when no method is fixed. */
  function LeftoverKeys(fixed: Option<string>, keyword: map<string, TokenTree>): set<string> {
    keyword.Keys - {"path", "tags"} - (if fixed.None? then {"method"} else {})
  }

  /** The tags: the `tags` key's value, or an empty bracket group. */
  function Tags(keyword: map<string, TokenTree>): (r: TokenTree)
    ensures "tags" in keyword ==> r == keyword["tags"]
    ensures "tags" !in keyword ==> r == Group(Bracket, [])
  {
    if "tags" in keyword then keyword["tags"] else Group(Bracket, [])
  }

  // ---------------------------------------------------------------------
  // Type selection
  // ---------------------------------------------------------------------

  /** The types of the typed arguments, in order; receivers are skipped. */
  function RequestTypes(inputs: seq<FnArg>): (r: seq<Type>)
    ensures |r| <= |inputs|
    ensures forall t :: t in r <==> Typed(t) in inputs
  {
    if inputs == [] then []
    else
      var init := inputs[..|inputs| - 1];
      var last := inputs[|inputs| - 1];
      assert inputs == init + [last];
      RequestTypes(init) + (if last.Typed? then [last.ty] else [])
  }

  /** The last element of a sequence, if any. */
  function Last<T>(s: seq<T>): (r: Option<T>)
    ensures r.None? <==> s == []
    ensures r.Some? ==> r.value == s[|s| - 1]
  {
    if s == [] then None else Some(s[|s| - 1])
  }

  /** The first element of a sequence, if any. */
  function First<T>(s: seq<T>): (r: Option<T>)
    ensures r.None? <==> s == []
    ensures r.Some? ==> r.value == s[0]
  {
    if s == [] then None else Some(s[0])
  }

  /** The request body is absent iff every argument is a receiver. */
  lemma NoRequestBody(inputs: seq<FnArg>)
    ensures Last(RequestTypes(inputs)).None? <==> forall i :: 0 <= i < |inputs| ==> inputs[i].Receiver?
  {
    if RequestTypes(inputs) != [] {
      assert Typed(RequestTypes(inputs)[0]) in inputs;
    }
    if exists i :: 0 <= i < |inputs| && inputs[i].Typed? {
      var i :| 0 <= i < |inputs| && inputs[i].Typed?;
      assert inputs[i] == Typed(inputs[i].ty);
      assert inputs[i].ty in RequestTypes(inputs);
    }
  }

  /** The request body is the type of the last typed argument: only receivers follow it. */
  lemma {:induction false} RequestBodyIsLastTyped(inputs: seq<FnArg>)
    requires Last(RequestTypes(inputs)).Some?
    ensures exists i :: 0 <= i < |inputs| && inputs[i] == Typed(Last(RequestTypes(inputs)).value)
                        && (forall j :: i < j < |inputs| ==> inputs[j].Receiver?)
  {
    var init := inputs[..|inputs| - 1];
    var last := inputs[|inputs| - 1];
    assert inputs == init + [last];
    if last.Receiver? {
      assert RequestTypes(inputs) == RequestTypes(init);
      RequestBodyIsLastTyped(init);
      var i :| 0 <= i < |init| && init[i] == Typed(Last(RequestTypes(init)).value)
               && (forall j :: i < j < |init| ==> init[j].Receiver?);
      assert inputs[i] == init[i];
      assert forall j :: i < j < |inputs| ==> inputs[j].Receiver?;
    } else {
      assert inputs[|inputs| - 1] == Typed(Last(RequestTypes(inputs)).value);
    }
  }

  /** The response types: a tuple's elements, nothing for the default return type, else the one type. */
  function ResponseTypes(output: ReturnType): (r: seq<Type>)
    ensures output.DefaultReturn? ==> r == []
    ensures output.Returns? && !output.ty.TupleType? ==> r == [output.ty]
    ensures output.Returns? && output.ty.TupleType? ==> r == output.ty.elems
  {
    match output
    case DefaultReturn => []
    case Returns(TupleType(elems)) => elems
    case Returns(t) => [t]
  }

  /**
   * The response modifier is the first response type and the body the
   * last; for a single non-tuple type they are the same type, and the
   * unit type `()` documents no response at all, like the default return
   * type.
   */
  lemma ModifierAndBody(output: ReturnType)
    ensures output.Returns? && !output.ty.TupleType? ==>
      First(ResponseTypes(output)) == Last(ResponseTypes(output)) == Some(output.ty)
    ensures output.Returns? && output.ty == TupleType([]) ==>
      First(ResponseTypes(output)).None? && Last(ResponseTypes(output)).None? && ResponseTypes(output) == ResponseTypes(DefaultReturn)
    ensures output.Returns? && output.ty.TupleType? && |output.ty.elems| >= 2 ==>
      First(ResponseTypes(output)) == Some(output.ty.elems[0])
      && Last(ResponseTypes(output)) == Some(output.ty.elems[|output.ty.elems| - 1])
  {
  }

  /**
   * Whether any attribute's path is the single identifier `deprecated`:
   * exactly when some attribute, whatever its form, has the path
   * `deprecated`.
   */
  function Deprecated(attrs: seq<Meta>): (r: bool)
    ensures r <==> exists i :: 0 <= i < |attrs| && attrs[i].path == ["deprecated"]
  {
    if attrs == [] then false
    else if PathIdent(attrs[0].path) == Some("deprecated") then
      assert attrs[0].path == ["deprecated"];
      true
    else
      var rest := Deprecated(attrs[1..]);
      assert forall i :: 1 <= i < |attrs| ==> attrs[i] == attrs[1..][i - 1];
      rest
  }

  /** The values of the `doc = ...` attributes, in order. */
  function Doc(attrs: seq<Meta>): (r: seq<string>)
    ensures |r| <= |attrs|
  {
    if attrs == [] then []
    else
      (if attrs[0].NameValueMeta? && PathIdent(attrs[0].path) == Some("doc") then [attrs[0].value] else [])
      + Doc(attrs[1..])
  }

  /** A string is documented iff some `doc` name-value attribute has it as its value. */
  lemma {:induction false} DocMembers(attrs: seq<Meta>, v: string)
    ensures v in Doc(attrs) <==> exists i :: 0 <= i < |attrs| && attrs[i] == NameValueMeta(["doc"], v)
  {
    if attrs != [] {
      DocMembers(attrs[1..], v);
      if exists i :: 0 <= i < |attrs[1..]| && attrs[1..][i] == NameValueMeta(["doc"], v) {
        var i :| 0 <= i < |attrs[1..]| && attrs[1..][i] == NameValueMeta(["doc"], v);
        assert attrs[i + 1] == NameValueMeta(["doc"], v);
      }
      if exists i :: 0 <= i < |attrs| && attrs[i] == NameValueMeta(["doc"], v) {
        var i :| 0 <= i < |attrs| && attrs[i] == NameValueMeta(["doc"], v);
        if i > 0 {
          assert attrs[1..][i - 1] == attrs[i];
        }
      }
    }
  }

  /** Doc comments of consecutive attributes are concatenated in order. */
  lemma {:induction false} DocConcat(a: seq<Meta>, b: seq<Meta>)
    ensures Doc(a + b) == Doc(a) + Doc(b)
  {
    if a != [] {
      assert (a + b)[1..] == a[1..] + b;
      DocConcat(a[1..], b);
    } else {
      assert a + b == b;
    }
  }

  /** The metadata of a resolved handler. */
  function Resolved(httpMethod: TokenTree, path: TokenTree, tags: TokenTree, item: ItemFn): HandlerTokens {
    var requests := RequestTypes(item.inputs);
    var responses := ResponseTypes(item.output);
    HandlerTokens(httpMethod, path, Deprecated(item.attrs), Doc(item.attrs), item.ident, tags,
                  requests, Last(requests), First(responses), responses, Last(responses))
  }

  /**
   * `handler`: on a parse failure, the error and the original tokens. The
   * method is the fixed one, else the `method` key, else the first
   * positional argument; the path is the `path` key, else the next
   * positional argument; either missing panics on `unwrap`. A positional
   * argument left over is an "Unexpected value"; then a key left over is
   * an "Unknown key" (with a fixed method, a `method` key is one).
   */
  method ExpandHandler(tokens: seq<TokenTree>, fixed: Option<string>, parsed: Result<(Args, ItemFn), string>)
    returns (r: Outcome<Expansion>)
    ensures parsed.Err? ==> r == Returned(CompileError(ParseError(parsed.error), tokens))
    ensures parsed.Ok? ==>
      var (args, item) := parsed.value;
      var n := Consumed(fixed, args.keyword);
      (n > |args.positional| ==> r == Panicked(UNWRAP_NONE))
      && (n < |args.positional| ==> r == Returned(CompileError(UnexpectedValue(args.positional[n]), tokens)))
      && (n == |args.positional| && LeftoverKeys(fixed, args.keyword) != {} ==>
            r == Returned(CompileError(UnknownKey(LeftoverKeys(fixed, args.keyword)), tokens)))
      && (n == |args.positional| && LeftoverKeys(fixed, args.keyword) == {} ==>
            r.Returned? && r.value.Generated?
            && r.value.meta.httpMethod == (if fixed.Some? then Ident(fixed.value)
                                           else if "method" in args.keyword then args.keyword["method"]
                                           else args.positional[0])
            && r.value.meta.path == (if "path" in args.keyword then args.keyword["path"]
                                     else args.positional[if MethodIsPositional(fixed, args.keyword) then 1 else 0])
            && r.value.meta == Resolved(r.value.meta.httpMethod, r.value.meta.path, Tags(args.keyword), item))
    ensures parsed.Ok? && fixed.Some? && "method" in parsed.value.0.keyword
            && Consumed(fixed, parsed.value.0.keyword) == |parsed.value.0.positional| ==>
      r.Returned? && r.value.CompileError? && r.value.error.UnknownKey? && "method" in r.value.error.keys
  {
    if parsed.Err? {
      return Returned(CompileError(ParseError(parsed.error), tokens));
    }
    var (args, item) := parsed.value;
    var keyword := args.keyword;
    var next := 0;

    var httpMethod: TokenTree;
    if fixed.Some? {
      httpMethod := Ident(fixed.value);
    } else if "method" in keyword {
      httpMethod := keyword["method"];
      keyword := keyword - {"method"};
    } else if next < |args.positional| {
      httpMethod := args.positional[next];
      next := next + 1;
    } else {
      return Panicked(UNWRAP_NONE);
    }

    var path: TokenTree;
    if "path" in keyword {
      path := keyword["path"];
      keyword := keyword - {"path"};
    } else if next < |args.positional| {
      path := args.positional[next];
      next := next + 1;
    } else {
      return Panicked(UNWRAP_NONE);
    }

    var tags := Group(Bracket, []);
    if "tags" in keyword {
      tags := keyword["tags"];
      keyword := keyword - {"tags"};
    }

    assert next == Consumed(fixed, args.keyword);
    assert keyword.Keys == LeftoverKeys(fixed, args.keyword);
    assert fixed.Some? && "method" in args.keyword ==> "method" in keyword;
    if next < |args.positional| {
      return Returned(CompileError(UnexpectedValue(args.positional[next]), tokens));
    }
    if keyword != map[] {
      return Returned(CompileError(UnknownKey(keyword.Keys), tokens));
    }
    assert LeftoverKeys(fixed, args.keyword) == {};
    r := Returned(Generated(Resolved(httpMethod, path, tags, item)));
  }
}
