/**
 * How request and response types of a handler describe themselves to the
 * OpenAPI generator (galvyn-core/src/handler/impls.rs).
 *
 * The schemas the generator derives for a type (`generate`,
 * `generate_refless`, `generate_object`) are parameters: a `Schema` value
 * in the shape schemars gives it, reduced to the parts these rules read.
 */
module HandlerImpls {
  import opened Wrappers
  import opened Text
  import C = ApiErrorCore
  import R = Router

  /** schemars' `InstanceType`. */
  datatype InstanceType = NullType | BooleanType | ObjectType | ArrayType | NumberType | StringType | IntegerType

  /** schemars' `SingleOrVec`. */
  datatype SingleOrVec<T> = Single(one: T) | Vec(many: seq<T>)

  /**
   * schemars' `Schema`: either a boolean schema or a schema object with
   * its instance type, its object properties (in the order the schema
   * lists them) and its array validation.
   */
  datatype Schema =
    | BoolSchema(accepts: bool)
    | ObjectSchema(instanceType: Option<SingleOrVec<InstanceType>>,
                   properties: Option<seq<(string, Schema)>>,
                   arrayValidation: Option<ArrayValidation>)

  /** schemars' `ArrayValidation`: the item schema, or one schema per tuple position. */
  datatype ArrayValidation = ArrayValidation(items: Option<SingleOrVec<Schema>>)

  /** A path or query parameter: its name and, if known, its schema. */
  type Param = (string, Option<Schema>)

  /** The names of some parameters, in order. */
  function Names(ps: seq<Param>): seq<string> {
    seq(|ps|, i requires 0 <= i < |ps| => ps[i].0)
  }

  // ---------------------------------------------------------------------
  // Path placeholders
  // ---------------------------------------------------------------------

  /** The position of the first `c` in `s`. */
  function FirstIndex(s: string, c: char): (r: nat)
    requires c in s
    ensures r < |s|
    ensures r < |s| ==> s[r] == c
    ensures forall i :: 0 <= i < r && i < |s| ==> s[i] != c
  {
    if s[0] == c then 0
    else
      assert c in s[1..];
      var k := FirstIndex(s[1..], c);
      assert s[..k + 1] == [s[0]] + s[1..][..k];
      k + 1
  }

  /**
   * The matches of `PATH_PARAM_REGEX` (`\{[^}]*}`) in `path`, without
   * their braces: leftmost first, each running from a `{` to the next
   * `}`. A `{` with no `}` after it starts no match, and neither does
   * anything after it.
   */
  function Placeholders(path: string): (r: seq<string>)
    ensures forall k :: k in r ==> '}' !in k
    ensures '{' !in path ==> r == []
    decreases |path|
  {
    if path == [] then []
    else if path[0] != '{' then Placeholders(path[1..])
    else if '}' !in path[1..] then []
    else
      var j := FirstIndex(path[1..], '}');
      assert path[1..j + 1] == path[1..][..j];
      [path[1..j + 1]] + Placeholders(path[j + 2..])
  }

  /**
   * A `{name}` after text without braces is the first placeholder, and
   * what follows it is read on its own.
   */
  lemma {:induction false} PlaceholdersBraced(a: string, name: string, b: string)
    requires '{' !in a && '}' !in name
    ensures Placeholders(a + "{" + name + "}" + b) == [name] + Placeholders(b)
    decreases |a|
  {
    var path := a + "{" + name + "}" + b;
    if a == [] {
      assert path == "{" + name + "}" + b;
      var rest := path[1..];
      assert rest == name + "}" + b;
      assert rest[|name|] == '}';
      var j := FirstIndex(rest, '}');
      assert j == |name| by {
        assert forall m :: 0 <= m < |name| ==> rest[m] == name[m];
      }
      assert path[1..j + 1] == name;
      assert path[j + 2..] == b;
    } else {
      assert path[0] == a[0];
      assert path[1..] == a[1..] + "{" + name + "}" + b;
      PlaceholdersBraced(a[1..], name, b);
    }
  }

  // ---------------------------------------------------------------------
  // Path::path_parameters
  // ---------------------------------------------------------------------

  /** Every key of `s` that is not `key`, in order (`retain_mut(|k| k != key)`). */
  function WithoutKey(s: seq<string>, key: string): seq<string> {
    if s == [] then [] else (if s[0] == key then [] else [s[0]]) + WithoutKey(s[1..], key)
  }

  /** The placeholders no name of `names` covers, in order. */
  function Unmatched(placeholders: seq<string>, names: seq<string>): seq<string> {
    if placeholders == [] then []
    else (if placeholders[0] in names then [] else [placeholders[0]]) + Unmatched(placeholders[1..], names)
  }

  /** A placeholder is left unmatched iff it is no name of `names`. */
  lemma {:induction false} UnmatchedMembers(placeholders: seq<string>, names: seq<string>, k: string)
    ensures k in Unmatched(placeholders, names) <==> k in placeholders && k !in names
  {
    if placeholders != [] {
      UnmatchedMembers(placeholders[1..], names, k);
      assert k in placeholders <==> k == placeholders[0] || k in placeholders[1..];
    }
  }

  /** Before any name is matched, every placeholder is unmatched. */
  lemma {:induction false} UnmatchedByNothing(placeholders: seq<string>)
    ensures Unmatched(placeholders, []) == placeholders
  {
    if placeholders != [] {
      UnmatchedByNothing(placeholders[1..]);
      assert placeholders == [placeholders[0]] + placeholders[1..];
    }
  }

  /** Retaining the keys other than `key` is matching one more name. */
  lemma {:induction false} UnmatchedStep(placeholders: seq<string>, names: seq<string>, key: string)
    ensures Unmatched(placeholders, names + [key]) == WithoutKey(Unmatched(placeholders, names), key)
  {
    if placeholders != [] {
      UnmatchedStep(placeholders[1..], names, key);
      var p := placeholders[0];
      assert p in names + [key] <==> p in names || p == key;
      var head := if p in names then [] else [p];
      var tail := Unmatched(placeholders[1..], names);
      assert Unmatched(placeholders, names) == head + tail;
      if p !in names {
        assert (head + tail)[0] == p && (head + tail)[1..] == tail;
      } else {
        assert head + tail == tail;
      }
    }
  }

  /** The placeholders as parameters without a schema. */
  function Untyped(keys: seq<string>): (r: seq<Param>)
    ensures Names(r) == keys
  {
    seq(|keys|, i requires 0 <= i < |keys| => (keys[i], None))
  }

  /** Every placeholder with the same item schema. */
  function Typed(keys: seq<string>, item: Schema): (r: seq<Param>)
    ensures Names(r) == keys
  {
    seq(|keys|, i requires 0 <= i < |keys| => (keys[i], Some(item)))
  }

  /** Each placeholder with the tuple schema at its position. */
  function Zipped(keys: seq<string>, items: seq<Schema>): (r: seq<Param>)
    requires |keys| == |items|
    ensures Names(r) == keys
  {
    seq(|keys|, i requires 0 <= i < |keys| => (keys[i], Some(items[i])))
  }

  /** The properties of an object schema, each with its schema; none if the schema has no object part. */
  function PropertyParams(schema: Schema): seq<Param>
    requires schema.ObjectSchema?
  {
    var props := if schema.properties.Some? then schema.properties.value else [];
    seq(|props|, i requires 0 <= i < |props| => (props[i].0, Some(props[i].1)))
  }

  /** The items of an array schema; a missing array part or a missing `items` counts as an empty tuple. */
  function ArrayItems(schema: Schema): SingleOrVec<Schema>
    requires schema.ObjectSchema?
  {
    if schema.arrayValidation.None? || schema.arrayValidation.value.items.None? then Vec([]) else schema.arrayValidation.value.items.value
  }

  /** The panic of `Vec::drain(..end)` on a vector of length `len < end`. */
  function DrainPanic(end: nat, len: nat): string {
    "range end index " + NatToString(end) + " out of range for slice of length " + NatToString(len)
  }

  /** The schema is a schema object of the single instance type `t`. */
  predicate SingleType(schema: Schema, t: InstanceType) {
    schema.ObjectSchema? && schema.instanceType == Some(Single(t))
  }

  /** The schema is a schema object of some single instance type. */
  predicate SomeSingleType(schema: Schema) {
    schema.ObjectSchema? && schema.instanceType.Some? && schema.instanceType.value.Single?
  }

  /**
   * The path parameters `Path<T>` documents for the schema of `T` in a
   * route at `path`, or the panic of a tuple longer than the path's
   * placeholders.
   */
  function PathParameters(schema: Schema, path: string): (r: Outcome<seq<Param>>)
    ensures r.Panicked? <==>
      (SingleType(schema, ArrayType) && ArrayItems(schema).Vec? && |ArrayItems(schema).many| > |Placeholders(path)|)
    ensures r.Panicked? ==> r == Panicked(DrainPanic(|ArrayItems(schema).many|, |Placeholders(path)|))
  {
    var ph := Placeholders(path);
    if !schema.ObjectSchema? then Returned([])
    else if SingleType(schema, ObjectType) then
      var handled := PropertyParams(schema);
      Returned(handled + Untyped(Unmatched(ph, Names(handled))))
    else if SingleType(schema, ArrayType) then
      (match ArrayItems(schema)
       case Single(item) => Returned(Typed(ph, item))
       case Vec(items) =>
         if |items| > |ph| then Panicked(DrainPanic(|items|, |ph|))
         else Returned(Zipped(ph[..|items|], items) + Untyped(ph[|items|..])))
    else if SomeSingleType(schema) then
      if ph == [] then Returned([]) else Returned([(ph[0], Some(schema))] + Untyped(ph[1..]))
    else Returned(Untyped(ph))
  }

  /**
   * `Path::path_parameters`: the placeholders are collected, the schema's
   * parameters are handled, matched placeholders are retained away one
   * handled name at a time, and the rest are appended without a schema.
   */
  method PathParametersOf(schema: Schema, path: string) returns (r: Outcome<seq<Param>>)
    ensures r == PathParameters(schema, path)
  {
    if !schema.ObjectSchema? {
      return Returned([]);
    }
    var unhandled := Placeholders(path);
    var handled: seq<Param> := [];
    assert Untyped([]) == [];
    if SingleType(schema, ObjectType) {
      handled := PropertyParams(schema);
      UnmatchedByNothing(unhandled);
      assert Names(handled[..0]) == [];
      var i := 0;
      while i < |handled|
        invariant 0 <= i <= |handled|
        invariant unhandled == Unmatched(Placeholders(path), Names(handled[..i]))
      {
        assert Names(handled[..i + 1]) == Names(handled[..i]) + [handled[i].0];
        UnmatchedStep(Placeholders(path), Names(handled[..i]), handled[i].0);
        unhandled := WithoutKey(unhandled, handled[i].0);
        i := i + 1;
      }
      assert handled[..i] == handled;
      assert Returned(handled + Untyped(unhandled)) == PathParameters(schema, path);
    } else if SingleType(schema, ArrayType) {
      match ArrayItems(schema) {
        case Single(item) =>
          handled := Typed(unhandled, item);
          unhandled := [];
          assert handled + [] == handled;
        case Vec(items) =>
          if |items| > |unhandled| {
            return Panicked(DrainPanic(|items|, |unhandled|));
          }
          handled := Zipped(unhandled[..|items|], items);
          unhandled := unhandled[|items|..];
          assert Returned(handled + Untyped(unhandled)) == PathParameters(schema, path);
      }
    } else if SomeSingleType(schema) {
      if unhandled != [] {
        handled := [(unhandled[0], Some(schema))];
        unhandled := unhandled[1..];
        assert Returned(handled + Untyped(unhandled)) == PathParameters(schema, path);
      } else {
        assert handled + Untyped(unhandled) == [];
      }
    } else {
      assert handled + Untyped(unhandled) == Untyped(unhandled);
    }
    r := Returned(handled + Untyped(unhandled));
  }

  /**
   * Unless the schema is not a schema object, every placeholder of the
   * path is a documented parameter.
   */
  lemma EveryPlaceholderListed(schema: Schema, path: string, k: string)
    requires schema.ObjectSchema? && PathParameters(schema, path).Returned?
    requires k in Placeholders(path)
    ensures k in Names(PathParameters(schema, path).value)
  {
    if SingleType(schema, ObjectType) {
      var ph := Placeholders(path);
      var handled := PropertyParams(schema);
      UnmatchedMembers(ph, Names(handled), k);
      assert Names(PathParameters(schema, path).value) == Names(handled) + Unmatched(ph, Names(handled));
    } else {
      PositionalParameters(schema, path);
    }
  }

  /**
   * For an object schema: the properties come first, with their schemas,
   * followed by exactly the placeholders no property names, without one.
   */
  lemma ObjectParameters(schema: Schema, path: string, k: string)
    requires SingleType(schema, ObjectType)
    ensures PathParameters(schema, path).Returned?
    ensures PathParameters(schema, path).value[..|PropertyParams(schema)|] == PropertyParams(schema)
    ensures k in Names(PathParameters(schema, path).value[|PropertyParams(schema)|..]) <==>
      k in Placeholders(path) && k !in Names(PropertyParams(schema))
    ensures forall i :: |PropertyParams(schema)| <= i < |PathParameters(schema, path).value| ==>
      PathParameters(schema, path).value[i].1.None?
  {
    var handled := PropertyParams(schema);
    var rest := Untyped(Unmatched(Placeholders(path), Names(handled)));
    assert (handled + rest)[|handled|..] == rest;
    UnmatchedMembers(Placeholders(path), Names(handled), k);
  }

  /** An object schema naming every placeholder documents its properties and nothing else. */
  lemma ObjectCoversPath(schema: Schema, path: string)
    requires SingleType(schema, ObjectType)
    requires forall k :: k in Placeholders(path) ==> k in Names(PropertyParams(schema))
    ensures PathParameters(schema, path) == Returned(PropertyParams(schema))
  {
    var ph := Placeholders(path);
    var names := Names(PropertyParams(schema));
    var u := Unmatched(ph, names);
    if u != [] {
      UnmatchedMembers(ph, names, u[0]);
      assert false;
    }
    assert PropertyParams(schema) + [] == PropertyParams(schema);
  }

  /**
   * For any schema object that is not an object, the parameters are the
   * placeholders themselves, in the order the path has them.
   */
  lemma PositionalParameters(schema: Schema, path: string)
    requires schema.ObjectSchema? && !SingleType(schema, ObjectType)
    requires PathParameters(schema, path).Returned?
    ensures Names(PathParameters(schema, path).value) == Placeholders(path)
  {
    var ph := Placeholders(path);
    var out := PathParameters(schema, path).value;
    if SingleType(schema, ArrayType) {
      match ArrayItems(schema) {
        case Single(item) =>
          assert out == Typed(ph, item);
        case Vec(items) =>
          var n := |items|;
          assert out == Zipped(ph[..n], items) + Untyped(ph[n..]);
          NamesConcat(Zipped(ph[..n], items), Untyped(ph[n..]));
          assert ph == ph[..n] + ph[n..];
      }
    } else if SomeSingleType(schema) && ph != [] {
      assert out == [(ph[0], Some(schema))] + Untyped(ph[1..]);
      NamesConcat([(ph[0], Some(schema))], Untyped(ph[1..]));
      assert ph == [ph[0]] + ph[1..];
    }
  }

  /** The names of two parameter lists, one after the other. */
  lemma NamesConcat(a: seq<Param>, b: seq<Param>)
    ensures Names(a + b) == Names(a) + Names(b)
  {
  }

  /**
   * A parameter documented without a schema is a placeholder no part of
   * the schema covers: for an object, it comes after the properties and
   * no property has its name; for a tuple, it comes after the tuple's
   * positions; for an array of one item schema, there is none; for any
   * other single type, it is not the first placeholder.
   */
  lemma UntypedOnlyForPlaceholders(schema: Schema, path: string, i: nat)
    requires PathParameters(schema, path).Returned? && i < |PathParameters(schema, path).value|
      && PathParameters(schema, path).value[i].1.None?
    ensures PathParameters(schema, path).value[i].0 in Placeholders(path)
    ensures SingleType(schema, ObjectType) ==>
      i >= |PropertyParams(schema)| && PathParameters(schema, path).value[i].0 !in Names(PropertyParams(schema))
    ensures SingleType(schema, ArrayType) ==> ArrayItems(schema).Vec? && i >= |ArrayItems(schema).many|
    ensures SomeSingleType(schema) && !SingleType(schema, ObjectType) && !SingleType(schema, ArrayType) ==> i >= 1
  {
    var out := PathParameters(schema, path).value;
    if SingleType(schema, ObjectType) {
      var handled := PropertyParams(schema);
      var u := Unmatched(Placeholders(path), Names(handled));
      assert out[i] == Untyped(u)[i - |handled|];
      UnmatchedMembers(Placeholders(path), Names(handled), out[i].0);
    } else if schema.ObjectSchema? {
      PositionalParameters(schema, path);
      assert Names(out)[i] == out[i].0;
    }
  }

  // ---------------------------------------------------------------------
  // Request bodies and query parameters
  // ---------------------------------------------------------------------

  /** The mime types request bodies are documented with. */
  datatype RequestMime = TextPlainUtf8 | ApplicationOctetStream | ApplicationJson | ApplicationWwwFormUrlencoded | ApplicationXEmpty

  /** The request body extractors: `String`, `Bytes`, `Json<T>`, `Form<T>` and `RawForm`, with `T`'s schema. */
  datatype RequestKind = TextBody | BytesBody | JsonBody(schema: Schema) | FormBody(schema: Schema) | RawFormBody

  /**
   * `RequestBody::body`: the mime type and schema of the body. A `Form`
   * or `RawForm` on a GET route reads the query, so its body is
   * documented as `application/x-empty` with no schema.
   */
  function RequestBody(kind: RequestKind, httpMethod: R.HttpMethod): (r: (RequestMime, Option<Schema>))
    ensures kind.TextBody? ==> r == (TextPlainUtf8, None)
    ensures kind.BytesBody? ==> r == (ApplicationOctetStream, None)
    ensures kind.JsonBody? ==> r == (ApplicationJson, Some(kind.schema))
    ensures (kind.FormBody? || kind.RawFormBody?) && httpMethod == R.Get ==> r == (ApplicationXEmpty, None)
    ensures kind.FormBody? && httpMethod != R.Get ==> r == (ApplicationWwwFormUrlencoded, Some(kind.schema))
    ensures kind.RawFormBody? && httpMethod != R.Get ==> r == (ApplicationWwwFormUrlencoded, None)
    ensures r.1.Some? <==> kind.JsonBody? || (kind.FormBody? && httpMethod != R.Get)
  {
    match kind
    case TextBody => (TextPlainUtf8, None)
    case BytesBody => (ApplicationOctetStream, None)
    case JsonBody(s) => (ApplicationJson, Some(s))
    case FormBody(s) => if httpMethod == R.Get then (ApplicationXEmpty, None) else (ApplicationWwwFormUrlencoded, Some(s))
    case RawFormBody => if httpMethod == R.Get then (ApplicationXEmpty, None) else (ApplicationWwwFormUrlencoded, None)
  }

  /**
   * `Query::query_parameters`: the properties of `T`'s object schema, each
   * with its schema; nothing when `T` has no object schema.
   */
  function QueryParameters(fields: Option<seq<(string, Schema)>>): (r: seq<Param>)
    ensures fields.None? ==> r == []
    ensures fields.Some? ==> |r| == |fields.value| && forall i :: 0 <= i < |r| ==> r[i] == (fields.value[i].0, Some(fields.value[i].1))
  {
    if fields.None? then []
    else seq(|fields.value|, i requires 0 <= i < |fields.value| => (fields.value[i].0, Some(fields.value[i].1)))
  }

  /** `Form::query_parameters`: `Query`'s parameters on a GET route, none on any other. */
  function FormQueryParameters(httpMethod: R.HttpMethod, fields: Option<seq<(string, Schema)>>): (r: seq<Param>)
    ensures httpMethod != R.Get ==> r == []
  {
    if httpMethod == R.Get then QueryParameters(fields) else []
  }

  /**
   * A form's fields are documented in exactly one place: in the query on a
   * GET route, where the body carries no schema; in the body on any other
   * route, where there are no query parameters.
   */
  lemma FormDocumentedOnce(schema: Schema, httpMethod: R.HttpMethod, fields: Option<seq<(string, Schema)>>)
    ensures httpMethod == R.Get ==>
      FormQueryParameters(httpMethod, fields) == QueryParameters(fields) && RequestBody(FormBody(schema), httpMethod).1 == None
    ensures httpMethod != R.Get ==>
      FormQueryParameters(httpMethod, fields) == [] && RequestBody(FormBody(schema), httpMethod) == (ApplicationWwwFormUrlencoded, Some(schema))
  {
  }

  // ---------------------------------------------------------------------
  // Response bodies
  // ---------------------------------------------------------------------

  /** `ResponseBody for Result<T, E>`: `T`'s bodies, then `E`'s. */
  function ResultBody(ok: seq<C.BodyEntry>, err: seq<C.BodyEntry>): (r: seq<C.BodyEntry>)
    ensures |r| == |ok| + |err|
    ensures r[..|ok|] == ok && r[|ok|..] == err
    ensures forall e :: e in r <==> e in ok || e in err
  {
    ok + err
  }

  /** `Result<Result<A, B>, D>` and `Result<A, Result<B, D>>` document the same bodies. */
  lemma ResultBodyAssociative(a: seq<C.BodyEntry>, b: seq<C.BodyEntry>, d: seq<C.BodyEntry>)
    ensures ResultBody(ResultBody(a, b), d) == ResultBody(a, ResultBody(b, d))
  {
    assert (a + b) + d == a + (b + d);
  }

  /** `axum::response::Redirect`: a redirect status and the `Location` it sends. */
  datatype Redirect = Redirect(status: C.StatusCode, location: string)

  /** `Redirect::temporary` */
  function Temporary(location: string): (r: Redirect)
    ensures r.status == C.TEMPORARY_REDIRECT && r.location == location
  {
    Redirect(C.TEMPORARY_REDIRECT, location)
  }

  /** `ResponseBody for Redirect`: 303, 307 and 308 in this order, none with a body. */
  function RedirectBody(): (r: seq<C.BodyEntry>)
    ensures |r| == 3
    ensures r[0].status == C.SEE_OTHER && r[1].status == C.TEMPORARY_REDIRECT && r[2].status == C.PERMANENT_REDIRECT
    ensures forall i :: 0 <= i < |r| ==> r[i].content.None?
    ensures forall e :: e in r ==> e.status in {C.SEE_OTHER, C.TEMPORARY_REDIRECT, C.PERMANENT_REDIRECT}
  {
    [C.BodyEntry(C.SEE_OTHER, None), C.BodyEntry(C.TEMPORARY_REDIRECT, None), C.BodyEntry(C.PERMANENT_REDIRECT, None)]
  }

  /** `ResponseBody::header for Redirect` */
  function RedirectHeaders(): seq<string> {
    ["location"]
  }

  /** Every redirect `Temporary` builds is documented, with the `Location` header. */
  lemma RedirectDocumented(location: string)
    ensures exists i :: 0 <= i < |RedirectBody()| && RedirectBody()[i].status == Temporary(location).status
    ensures RedirectHeaders() == ["location"]
  {
    assert RedirectBody()[1].status == C.TEMPORARY_REDIRECT;
  }
}
