/**
 * The OpenAPI route metadata of the main crate
 * (galvyn/src/openapi/metadata.rs): the tags and pages a route is
 * documented under, and how two of them merge.
 */
module OpenapiMeta {

  /** A page's `TypeId`. */
  type PageId = string

  /** `OpenapiMetadata`. */
  datatype OpenapiMetadata = OpenapiMetadata(tags: seq<string>, pages: seq<PageId>)

  /** No element occurs twice. */
  predicate NoDuplicates<T(==)>(s: seq<T>) {
    forall i, j :: 0 <= i < j < |s| ==> s[i] != s[j]
  }

  /** `a` is `b` with some elements left out, the rest in their order. */
  predicate IsSubsequence<T(==)>(a: seq<T>, b: seq<T>)
    decreases |b|
  {
    a == [] || (b != [] && (if a[0] == b[0] then IsSubsequence(a[1..], b[1..]) else IsSubsequence(a, b[1..])))
  }

  /**
   * The tags of `tags` merged with `other`: each tag of `other`, in turn,
   * is pushed unless already present. The existing tags keep their
   * places, as a prefix of the result, and at most one tag is added per
   * tag of `other`.
   */
  function MergeTags(tags: seq<string>, other: seq<string>): (r: seq<string>)
    ensures |tags| <= |r| <= |tags| + |other|
    ensures r[..|tags|] == tags
    decreases |other|
  {
    if other == [] then tags
    else
      var next := if other[0] in tags then tags else tags + [other[0]];
      var r := MergeTags(next, other[1..]);
      assert next[..|tags|] == tags;
      assert r[..|tags|] == r[..|next|][..|tags|];
      r
  }

  /** The metadata `merge` leaves behind. */
  function Merged(m: OpenapiMetadata, other: OpenapiMetadata): OpenapiMetadata {
    m.(tags := MergeTags(m.tags, other.tags))
  }

  /**
   * `RouteMetadata::merge for OpenapiMetadata`: the loop over the other
   * metadata's tags, pushing the absent ones. The pages stay as they are.
   */
  method Merge(m: OpenapiMetadata, other: OpenapiMetadata) returns (r: OpenapiMetadata)
    ensures r.tags == MergeTags(m.tags, other.tags)
    ensures r.pages == m.pages
  {
    var tags := m.tags;
    var i := 0;
    while i < |other.tags|
      invariant 0 <= i <= |other.tags|
      invariant MergeTags(tags, other.tags[i..]) == MergeTags(m.tags, other.tags)
    {
      var tag := other.tags[i];
      assert other.tags[i..][1..] == other.tags[i + 1..];
      if tag !in tags {
        tags := tags + [tag];
      }
      i := i + 1;
    }
    assert other.tags[i..] == [];
    r := m.(tags := tags);
  }

  /** A tag is in the result iff it was in either list: nothing is lost and nothing invented. */
  lemma {:induction false} MergeTagsElements(tags: seq<string>, other: seq<string>, t: string)
    ensures t in MergeTags(tags, other) <==> t in tags || t in other
    decreases |other|
  {
    if other != [] {
      var next := if other[0] in tags then tags else tags + [other[0]];
      MergeTagsElements(next, other[1..], t);
      assert t in other <==> t == other[0] || t in other[1..];
    }
  }

  /** A duplicate-free tag list stays duplicate-free. */
  lemma {:induction false} MergeTagsNoDuplicates(tags: seq<string>, other: seq<string>)
    requires NoDuplicates(tags)
    ensures NoDuplicates(MergeTags(tags, other))
    decreases |other|
  {
    if other != [] {
      var next := if other[0] in tags then tags else tags + [other[0]];
      assert NoDuplicates(next);
      MergeTagsNoDuplicates(next, other[1..]);
    }
  }

  /** Merging tags that are all present already changes nothing. */
  lemma {:induction false} MergeTagsPresent(tags: seq<string>, other: seq<string>)
    requires forall t :: t in other ==> t in tags
    ensures MergeTags(tags, other) == tags
    decreases |other|
  {
    if other != [] {
      assert other[0] in other;
      MergeTagsPresent(tags, other[1..]);
    }
  }

  /** Merging the same metadata twice is merging it once. */
  lemma MergeIdempotent(m: OpenapiMetadata, other: OpenapiMetadata)
    ensures Merged(Merged(m, other), other) == Merged(m, other)
  {
    var once := MergeTags(m.tags, other.tags);
    forall t | t in other.tags
      ensures t in once
    {
      MergeTagsElements(m.tags, other.tags, t);
    }
    MergeTagsPresent(once, other.tags);
  }

  lemma SubsequenceOfTail<T>(a: seq<T>, b: seq<T>)
    requires b != [] && IsSubsequence(a, b[1..])
    ensures IsSubsequence(a, b)
    decreases |b|, 0
  {
    if a != [] && a[0] == b[0] {
      SubsequenceDropFirst(a, b[1..]);
    }
  }

  lemma SubsequenceDropFirst<T>(a: seq<T>, c: seq<T>)
    requires a != [] && IsSubsequence(a, c)
    ensures IsSubsequence(a[1..], c)
    decreases |c|, 1
  {
    if a[0] != c[0] {
      SubsequenceDropFirst(a, c[1..]);
    }
    if a[1..] != [] {
      SubsequenceOfTail(a[1..], c);
    }
  }

  /**
   * The appended tags come from `other`, in `other`'s order, and none of
   * them was present before.
   */
  lemma {:induction false} MergeTagsAppendsInOrder(tags: seq<string>, other: seq<string>)
    ensures |tags| <= |MergeTags(tags, other)|
    ensures IsSubsequence(MergeTags(tags, other)[|tags|..], other)
    ensures forall k :: |tags| <= k < |MergeTags(tags, other)| ==> MergeTags(tags, other)[k] !in tags
    decreases |other|
  {
    var r := MergeTags(tags, other);
    if other != [] {
      if other[0] in tags {
        MergeTagsAppendsInOrder(tags, other[1..]);
        if r[|tags|..] != [] {
          SubsequenceOfTail(r[|tags|..], other);
        }
      } else {
        var next := tags + [other[0]];
        MergeTagsAppendsInOrder(next, other[1..]);
        assert r[|tags|] == next[|tags|] == other[0];
        assert r[|tags|..][1..] == r[|next|..];
        forall k | |tags| <= k < |r|
          ensures r[k] !in tags
        {
          if k > |tags| {
            assert r[k] !in next;
          }
        }
      }
    }
  }
}
