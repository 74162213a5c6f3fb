/** One page of a blob listing that squashes names at a delimiter. */
module Listing {
  import opened Options
  import opened Extents
  import opened PageRanges
  import opened Names

  /** A stored blob with its content; snapshots are further documents under the same name. */
  datatype Doc = Doc(
    name: string,
    snapshot: string,
    committedBlocksInOrder: seq<Chunk>,
    pageRangesInOrder: seq<PageRange>,
    persistency: Option<Chunk>)

  /** How names are squashed: at the first delimiter from `prefixLength` on. */
  datatype Shape = Shape(delimiter: Option<string>, prefixLength: nat)

  /** The handler passes no delimiter instead of an empty one. */
  predicate Proper(shape: Shape) {
    shape.delimiter.Some? ==> shape.delimiter.value != ""
  }

  predicate OccursAt(s: string, d: string, at: nat) {
    at + |d| <= |s| && s[at..at + |d|] == d
  }

  /** The first occurrence from a place on. */
  function IndexOf(s: string, d: string, from: nat): (at: Option<nat>)
    ensures at.Some? ==> from <= at.value && OccursAt(s, d, at.value)
    ensures forall i: nat :: from <= i && OccursAt(s, d, i) ==> at.Some? && at.value <= i
    decreases |s| - from
  {
    if from + |d| > |s| then None
    else if s[from..from + |d|] == d then Some(from)
    else if from == |s| then None
    else IndexOf(s, d, from + 1)
  }

  /** The reported prefix keeps one character of the delimiter, however long the delimiter is. */
  function Squash(shape: Shape, name: string): Option<string>
    requires Proper(shape)
  {
    match shape.delimiter
    case None => None
    case Some(d) =>
      match IndexOf(name, d, shape.prefixLength)
      case None => None
      case Some(at) => Some(name[..at + 1])
  }

  /** The documents a list shows as blobs. */
  function Blobs(shape: Shape, docs: seq<Doc>): (blobs: seq<Doc>)
    requires Proper(shape)
  {
    if docs == [] then []
    else
      var last := docs[|docs| - 1];
      Blobs(shape, docs[..|docs| - 1]) + if Squash(shape, last.name).None? then [last] else []
  }

  /** The prefixes a list shows, each once, in order of appearance. */
  function Prefixes(shape: Shape, docs: seq<Doc>): (prefixes: seq<string>)
    requires Proper(shape)
  {
    if docs == [] then []
    else
      var before := Prefixes(shape, docs[..|docs| - 1]);
      var prefix := Squash(shape, docs[|docs| - 1].name);
      if prefix.Some? && prefix.value !in before then before + [prefix.value] else before
  }

  function Size(shape: Shape, docs: seq<Doc>): nat
    requires Proper(shape)
  {
    |Blobs(shape, docs)| + |Prefixes(shape, docs)|
  }

  /** A document that adds an entry of its own to a list of the others. */
  predicate Opens(shape: Shape, docs: seq<Doc>, doc: Doc)
    requires Proper(shape)
  {
    var prefix := Squash(shape, doc.name);
    prefix.None? || prefix.value !in Prefixes(shape, docs)
  }

  lemma Snoc(shape: Shape, docs: seq<Doc>, doc: Doc)
    requires Proper(shape)
    ensures Blobs(shape, docs + [doc]) == Blobs(shape, docs) + if Squash(shape, doc.name).None? then [doc] else []
    ensures Prefixes(shape, docs + [doc]) == Prefixes(shape, docs) +
      if Squash(shape, doc.name).Some? && Opens(shape, docs, doc) then [Squash(shape, doc.name).value] else []
    ensures Size(shape, docs + [doc]) == Size(shape, docs) + if Opens(shape, docs, doc) then 1 else 0
  {
    assert (docs + [doc])[..|docs|] == docs;
  }

  ghost predicate Ascending(docs: seq<Doc>) {
    forall i, j :: 0 <= i < j < |docs| ==> AtMost(docs[i].name, docs[j].name)
  }

  /** How many of the sorted documents fit a page: the longest beginning of at most `max` entries. */
  function PageLength(shape: Shape, max: nat, docs: seq<Doc>): (k: nat)
    requires Proper(shape)
    ensures k <= |docs| && Size(shape, docs[..k]) <= max
  {
    if Size(shape, docs) <= max then
      assert docs[..|docs|] == docs;
      |docs|
    else
      var k := PageLength(shape, max, docs[..|docs| - 1]);
      assert docs[..|docs| - 1][..k] == docs[..k];
      k
  }

  /** The documents with the same prefix are contiguous, for a delimiter of any length. */
  lemma SquashedIsContiguous(shape: Shape, a: string, b: string, c: string)
    requires Proper(shape) && AtMost(a, b) && AtMost(b, c)
    requires Squash(shape, a).Some? && Squash(shape, a) == Squash(shape, c)
    ensures Squash(shape, b) == Squash(shape, a)
  {
    var d := shape.delimiter.value;
    var at := IndexOf(a, d, shape.prefixLength).value;
    var ct := IndexOf(c, d, shape.prefixLength).value;
    var n := at + |d|;
    assert |a[..at + 1]| == |c[..ct + 1]| && at == ct;
    Glue(a, c, at, n);
    SharedPrefixIsContiguous(a, b, c, n);
    IndexOfIsLocal(a, b, d, shape.prefixLength, n);
    assert b[..at + 1] == b[..n][..at + 1] && a[..at + 1] == a[..n][..at + 1];
  }

  lemma Glue(a: string, c: string, at: nat, n: nat)
    requires at < n <= |a| && n <= |c| && a[..at + 1] == c[..at + 1] && a[at..n] == c[at..n]
    ensures a[..n] == c[..n]
  {
    forall i | 0 <= i < n ensures a[i] == c[i] {
      if i <= at {
        assert a[i] == a[..at + 1][i] && c[i] == c[..at + 1][i];
      } else {
        assert a[i] == a[at..n][i - at] && c[i] == c[at..n][i - at];
      }
    }
  }

  lemma SliceOfPrefix(s: string, n: nat, i: nat, j: nat)
    requires i <= j <= n <= |s|
    ensures s[..n][i..j] == s[i..j]
  {
  }

  /** A search that ends inside a common beginning ends alike in both strings. */
  lemma {:induction false} IndexOfIsLocal(a: string, b: string, d: string, from: nat, n: nat)
    requires d != "" && IndexOf(a, d, from).Some? && n == IndexOf(a, d, from).value + |d|
    requires n <= |b| && a[..n] == b[..n]
    ensures IndexOf(b, d, from) == IndexOf(a, d, from)
    decreases |a| - from
  {
    SliceOfPrefix(a, n, from, from + |d|);
    SliceOfPrefix(b, n, from, from + |d|);
    if a[from..from + |d|] != d {
      IndexOfIsLocal(a, b, d, from + 1, n);
    }
  }

  lemma OccursInWhole(s: string, n: nat, d: string, at: nat)
    requires n <= |s| && OccursAt(s[..n], d, at)
    ensures OccursAt(s, d, at)
  {
    SliceOfPrefix(s, n, at, at + |d|);
  }

  predicate StartsWith(s: string, p: string) {
    |p| <= |s| && s[..|p|] == p
  }

  /** A reported prefix stands for exactly the names that start with it if and only if the delimiter
      is one character long. */
  lemma PrefixStandsForItsNames(shape: Shape, a: string, p: string)
    requires Proper(shape) && Squash(shape, a) == Some(p)
    ensures (forall n :: StartsWith(n, p) <==> Squash(shape, n) == Some(p)) <==> |shape.delimiter.value| == 1
  {
    var d, from := shape.delimiter.value, shape.prefixLength;
    var at := IndexOf(a, d, from).value;
    if |d| == 1 {
      forall n ensures StartsWith(n, p) <==> Squash(shape, n) == Some(p) {
        if StartsWith(n, p) {
          IndexOfIsLocal(a, n, d, from, at + 1);
        }
      }
    } else {
      assert StartsWith(p, p);
      if IndexOf(p, d, from).Some? {
        OccursInWhole(a, at + 1, d, IndexOf(p, d, from).value);
        assert false;
      }
    }
  }

  /** With a longer delimiter, a name outside the group can start with its prefix: a client that
      descends into "xa" sees "xac" twice, once beside the prefix and once below it. */
  lemma LongDelimiterSharesAPrefix()
    ensures var shape := Shape(Some("ab"), 0);
      Squash(shape, "xab1") == Some("xa") && Squash(shape, "xac") == None && StartsWith("xac", "xa")
  {
    var d, a, c := "ab", "xab1", "xac";
    assert a[0..2][0] == 'x' && c[0..2][0] == 'x' && c[1..3][1] == 'c' && d[0] == 'a' && d[1] == 'b';
    assert OccursAt(a, d, 1) && !OccursAt(a, d, 0);
    assert !OccursAt(c, d, 0) && !OccursAt(c, d, 1);
    assert a[..2] == "xa" && c[..2] == "xa";
  }

  /** Some document is squashed into the prefix. */
  ghost predicate Shown(shape: Shape, docs: seq<Doc>, p: string)
    requires Proper(shape)
  {
    exists i :: 0 <= i < |docs| && Squash(shape, docs[i].name) == Some(p)
  }

  lemma {:induction false} PrefixesAre(shape: Shape, docs: seq<Doc>, p: string)
    requires Proper(shape)
    ensures p in Prefixes(shape, docs) <==> Shown(shape, docs, p)
    decreases |docs|
  {
    if docs != [] {
      var most, last := docs[..|docs| - 1], docs[|docs| - 1];
      PrefixesAre(shape, most, p);
      ShownSnoc(shape, most, last, p);
      assert docs == most + [last];
    }
  }

  lemma ShownSnoc(shape: Shape, docs: seq<Doc>, doc: Doc, p: string)
    requires Proper(shape)
    ensures Shown(shape, docs + [doc], p) <==> Shown(shape, docs, p) || Squash(shape, doc.name) == Some(p)
  {
    if Shown(shape, docs, p) {
      var i :| 0 <= i < |docs| && Squash(shape, docs[i].name) == Some(p);
      assert (docs + [doc])[i] == docs[i];
    }
    assert (docs + [doc])[|docs|] == doc;
  }

  // ----- What a list shows, said of the names -----

  /** The delimiter does not occur behind the prefix of the listing. */
  ghost predicate Plain(shape: Shape, name: string) {
    shape.delimiter.Some? ==> forall i :: shape.prefixLength <= i ==> !OccursAt(name, shape.delimiter.value, i)
  }

  /** p is the name up to the first character of the first delimiter behind the prefix. */
  ghost predicate Grouped(shape: Shape, name: string, p: string) {
    && shape.delimiter.Some? && |p| > shape.prefixLength
    && StartsWith(name, p) && OccursAt(name, shape.delimiter.value, |p| - 1)
    && forall i :: shape.prefixLength <= i < |p| - 1 ==> !OccursAt(name, shape.delimiter.value, i)
  }

  ghost predicate SomeGrouped(shape: Shape, docs: seq<Doc>, p: string) {
    exists i :: 0 <= i < |docs| && Grouped(shape, docs[i].name, p)
  }

  lemma SquashExactly(shape: Shape, name: string, p: string)
    requires Proper(shape)
    ensures Squash(shape, name).None? <==> Plain(shape, name)
    ensures Squash(shape, name) == Some(p) <==> Grouped(shape, name, p)
  {
    if shape.delimiter.Some? {
      var found := IndexOf(name, shape.delimiter.value, shape.prefixLength);
      if Grouped(shape, name, p) {
        assert found.Some? && found.value <= |p| - 1;
        assert found.value == |p| - 1;
      }
    }
  }

  /** A list shows as blobs exactly the documents with plain names, each as often as it is there. */
  lemma {:induction false} BlobsExactly(shape: Shape, docs: seq<Doc>, doc: Doc)
    requires Proper(shape)
    ensures multiset(Blobs(shape, docs))[doc] == if Plain(shape, doc.name) then multiset(docs)[doc] else 0
    ensures doc in Blobs(shape, docs) <==> doc in docs && Plain(shape, doc.name)
    decreases |docs|
  {
    if docs != [] {
      var most, last := docs[..|docs| - 1], docs[|docs| - 1];
      SquashExactly(shape, last.name, "");
      BlobsExactly(shape, most, doc);
      assert docs == most + [last];
      hide Plain, Squash, OccursAt;
    }
  }

  lemma {:induction false} BlobsAscend(shape: Shape, docs: seq<Doc>)
    requires Proper(shape) && Ascending(docs)
    ensures Ascending(Blobs(shape, docs))
    decreases |docs|
  {
    if docs != [] {
      var most, last := docs[..|docs| - 1], docs[|docs| - 1];
      var blobs := Blobs(shape, most);
      BlobsAscend(shape, most);
      forall i | 0 <= i < |blobs| ensures AtMost(blobs[i].name, last.name) {
        BlobsExactly(shape, most, blobs[i]);
        assert blobs[i] in most;
      }
    }
  }

  /** And as prefixes exactly those that some name is grouped under. */
  lemma PrefixesExactly(shape: Shape, docs: seq<Doc>, p: string)
    requires Proper(shape)
    ensures p in Prefixes(shape, docs) <==> SomeGrouped(shape, docs, p)
    ensures shape.delimiter.None? ==> Prefixes(shape, docs) == []
  {
    PrefixesAre(shape, docs, p);
    forall i | 0 <= i < |docs| ensures Squash(shape, docs[i].name) == Some(p) <==> Grouped(shape, docs[i].name, p) {
      SquashExactly(shape, docs[i].name, p);
    }
    if shape.delimiter.None? && Prefixes(shape, docs) != [] {
      PrefixesAre(shape, docs, Prefixes(shape, docs)[0]);
    }
  }

  /** What a page reports of the documents it took. */
  ghost predicate Shows(shape: Shape, taken: seq<Doc>, items: seq<Doc>, prefixes: seq<string>) {
    && (forall doc :: doc in items <==> doc in taken && Plain(shape, doc.name))
    && Ascending(items)
    && (forall p :: p in prefixes <==> SomeGrouped(shape, taken, p))
    && (shape.delimiter.None? ==> prefixes == [])
  }

  lemma ListsShow(shape: Shape, docs: seq<Doc>)
    requires Proper(shape) && Ascending(docs)
    ensures Shows(shape, docs, Blobs(shape, docs), Prefixes(shape, docs))
  {
    BlobsAscend(shape, docs);
    PrefixesExactly(shape, docs, "");
    forall doc ensures doc in Blobs(shape, docs) <==> doc in docs && Plain(shape, doc.name) {
      BlobsExactly(shape, docs, doc);
    }
    forall p ensures p in Prefixes(shape, docs) <==> SomeGrouped(shape, docs, p) {
      PrefixesExactly(shape, docs, p);
    }
  }

  /** After a blob, no prefix of the page can come back. */
  lemma NothingReturnsAfterABlob(shape: Shape, docs: seq<Doc>, next: Doc)
    requires Proper(shape) && docs != [] && Ascending(docs + [next])
    requires Squash(shape, docs[|docs| - 1].name).None?
    ensures Opens(shape, docs, next)
  {
    var prefix := Squash(shape, next.name);
    if prefix.Some? && prefix.value in Prefixes(shape, docs) {
      PrefixesAre(shape, docs, prefix.value);
      var i :| 0 <= i < |docs| && Squash(shape, docs[i].name) == prefix;
      var all, l := docs + [next], |docs| - 1;
      assert all[i] == docs[i] && all[l] == docs[l] && all[l + 1] == next;
      SquashedIsContiguous(shape, docs[i].name, docs[l].name, next.name);
    }
  }

  lemma {:induction false} SizeGrows(shape: Shape, docs: seq<Doc>, k: nat)
    requires Proper(shape) && k <= |docs|
    ensures Size(shape, docs[..k]) <= Size(shape, docs)
    decreases |docs|
  {
    if k < |docs| {
      var most := docs[..|docs| - 1];
      SizeGrows(shape, most, k);
      assert most[..k] == docs[..k] && docs == most + [docs[|docs| - 1]];
    } else {
      assert docs[..k] == docs;
    }
  }

  /** The page length is the only cut that is within the limit and cannot be extended. */
  lemma {:induction false} PageLengthIs(shape: Shape, max: nat, docs: seq<Doc>, k: nat)
    requires Proper(shape) && k <= |docs| && Size(shape, docs[..k]) <= max
    ensures PageLength(shape, max, docs) == k <==> k == |docs| || Size(shape, docs[..k + 1]) > max
    decreases |docs|
  {
    if k < |docs| {
      SizeGrows(shape, docs, k + 1);
      if Size(shape, docs) > max {
        var most := docs[..|docs| - 1];
        assert most[..k] == docs[..k];
        PageLengthIs(shape, max, most, k);
        if k < |most| {
          assert most[..k + 1] == docs[..k + 1];
        } else {
          assert docs[..k + 1] == docs;
        }
      }
    } else {
      assert docs[..k] == docs;
    }
  }

  datatype Addition = Added | Refused | Unsorted

  /** A page that took everything ends the listing; otherwise its last name is where to resume. */
  function Marker(docs: seq<Doc>, k: nat): string
    requires k <= |docs|
  {
    if k == |docs| then "" else LastName(docs[..k])
  }

  lemma PageEnds(shape: Shape, max: nat, docs: seq<Doc>, k: nat)
    requires Proper(shape) && k <= |docs| && Size(shape, docs[..k]) <= max
    requires k < |docs| ==> Size(shape, docs[..k]) == max && Opens(shape, docs[..k], docs[k])
    ensures PageLength(shape, max, docs) == k
  {
    PageLengthIs(shape, max, docs, k);
    if k < |docs| {
      Snoc(shape, docs[..k], docs[k]);
      assert docs[..k + 1] == docs[..k] + [docs[k]];
    }
  }

  /** Sorted documents continue a sorted list. */
  lemma Continues(before: seq<Doc>, docs: seq<Doc>, i: nat)
    requires i < |docs| && Ascending(before + docs)
    ensures before + docs[..i + 1] == before + docs[..i] + [docs[i]]
    ensures Ascending(before + docs[..i] + [docs[i]])
    ensures !Less(docs[i].name, LastName(before + docs[..i]))
  {
    var all, taken := before + docs, before + docs[..i];
    assert all[|taken|] == docs[i] && taken == all[..|taken|];
    if taken == [] {
      LessTrichotomy(docs[i].name, "");
    } else {
      assert taken[|taken| - 1] == all[|taken| - 1];
    }
  }

  function LastName(docs: seq<Doc>): string {
    if docs == [] then "" else docs[|docs| - 1].name
  }

  function Read(source: seq<Doc>, offset: nat, max: nat): (docs: seq<Doc>)
    requires offset <= |source|
    ensures max >= 1 && docs == [] ==> offset == |source|
  {
    source[offset..if offset + max <= |source| then offset + max else |source|]
  }

  lemma ReadTakes(source: seq<Doc>, offset: nat, max: nat, added: nat)
    requires offset <= |source| && added <= |Read(source, offset, max)|
    ensures source[..offset] + Read(source, offset, max)[..added] == source[..offset + added]
    ensures added < |Read(source, offset, max)| ==>
      offset + added < |source| && Read(source, offset, max)[added] == source[offset + added]
    ensures added == |Read(source, offset, max)| < max ==> offset + added == |source|
  {
  }

  lemma ReadContinues(source: seq<Doc>, offset: nat, max: nat)
    requires offset <= |source| && Ascending(source)
    ensures Ascending(source[..offset] + Read(source, offset, max))
  {
    var docs := Read(source, offset, max);
    assert source[..offset] + docs == source[..offset + |docs|];
  }

  class PageWithDelimiter {
    const shape: Shape
    const maxResults: nat
    var blobItems: seq<Doc>
    var blobPrefixes: seq<string>
    var latestMarker: string
    var isFull: bool
    var isExhausted: bool
    /** The documents accepted so far. */
    ghost var taken: seq<Doc>

    ghost predicate Valid()
      reads this
    {
      && Proper(shape) && maxResults >= 1
      && blobItems == Blobs(shape, taken) && blobPrefixes == Prefixes(shape, taken)
      && latestMarker == LastName(taken)
      && Size(shape, taken) <= maxResults
      && isFull == (Size(shape, taken) == maxResults)
      && (isExhausted ==> isFull)
    }

    /** Exhausted by a blob, rather than by a document turned away. */
    ghost predicate Closed()
      reads this
    {
      Valid() && isExhausted && taken != [] && Squash(shape, latestMarker).None?
    }

    constructor (maxResults: nat, shape: Shape)
      requires maxResults >= 1 && Proper(shape)
      ensures Valid() && taken == [] && !isExhausted
      ensures this.shape == shape && this.maxResults == maxResults
    {
      this.maxResults, this.shape := maxResults, shape;
      blobItems, blobPrefixes, latestMarker, isFull, isExhausted := [], [], "", false, false;
      taken := [];
    }

    method UpdateFull()
      modifies this`isFull
      ensures isFull == (|blobItems| + |blobPrefixes| == maxResults)
    {
      isFull := |blobItems| + |blobPrefixes| == maxResults;
    }

    method AddItem(item: Doc) returns (added: bool)
      modifies this`blobItems, this`isFull, this`isExhausted
      ensures added == (!old(isExhausted) && !old(isFull))
      ensures blobItems == old(blobItems) + if added then [item] else []
      ensures old(isExhausted) ==> isFull == old(isFull) && isExhausted
      ensures !old(isExhausted) ==> isExhausted == isFull == (|blobItems| + |blobPrefixes| == maxResults)
    {
      if isExhausted {
        return false;
      }
      added := false;
      if !isFull {
        blobItems := blobItems + [item];
        added := true;
      }
      UpdateFull();
      isExhausted := isFull;
    }

    method AddPrefix(prefix: string) returns (added: bool)
      modifies this`blobPrefixes, this`isFull, this`isExhausted
      ensures added == (!old(isExhausted) && (!old(isFull) || prefix in old(blobPrefixes)))
      ensures blobPrefixes == old(blobPrefixes) + if added && prefix !in old(blobPrefixes) then [prefix] else []
      ensures isExhausted == (old(isExhausted) || !added)
      ensures old(isExhausted) ==> isFull == old(isFull)
      ensures !old(isExhausted) ==> isFull == (|blobItems| + |blobPrefixes| == maxResults)
    {
      if isExhausted {
        return false;
      }
      added := false;
      if isFull {
        isExhausted := prefix !in blobPrefixes;
        added := !isExhausted;
      } else {
        if prefix !in blobPrefixes {
          blobPrefixes := blobPrefixes + [prefix];
        }
        added := true;
      }
      UpdateFull();
    }

    /** A page takes a document unless it is exhausted, or full and the document opens an entry;
        names below the marker are an error. */
    method Add(item: Doc) returns (outcome: Addition)
      requires Valid()
      modifies this
      ensures Valid()
      ensures outcome.Unsorted? <==> !old(isExhausted) && Less(item.name, old(latestMarker))
      ensures outcome.Added? <==>
        && !old(isExhausted) && !Less(item.name, old(latestMarker))
        && !(old(isFull) && Opens(shape, old(taken), item))
      ensures taken == old(taken) + if outcome.Added? then [item] else []
      ensures outcome.Unsorted? ==> isExhausted == old(isExhausted)
      ensures outcome.Refused? ==> isExhausted
      ensures outcome.Added? && isExhausted ==> Closed()
    {
      hide Blobs, Prefixes, Squash, Less;
      if isExhausted {
        return Refused;
      }
      if Less(item.name, latestMarker) {
        return Unsorted;
      }
      LessTrichotomy(item.name, latestMarker);
      var marker := if Less(latestMarker, item.name) then item.name else latestMarker;
      Snoc(shape, taken, item);
      var added := Place(item);
      if added {
        latestMarker := marker;
        taken := taken + [item];
        return Added;
      }
      return Refused;
    }

    method Place(item: Doc) returns (added: bool)
      requires Proper(shape) && !isExhausted
      modifies this`blobItems, this`blobPrefixes, this`isFull, this`isExhausted
      ensures var p := Squash(shape, item.name);
        && added == (!old(isFull) || (p.Some? && p.value in old(blobPrefixes)))
        && blobItems == old(blobItems) + (if added && p.None? then [item] else [])
        && blobPrefixes == old(blobPrefixes) + (if added && p.Some? && p.value !in old(blobPrefixes) then [p.value] else [])
        && isFull == (|blobItems| + |blobPrefixes| == maxResults)
        && isExhausted == if p.None? then isFull else !added
    {
      if shape.delimiter.Some? {
        var position := IndexOf(item.name, shape.delimiter.value, shape.prefixLength);
        if position.None? {
          added := AddItem(item);
        } else {
          added := AddPrefix(item.name[..position.value + 1]);
        }
      } else {
        added := AddItem(item);
      }
    }

    /** Sorted documents never hit the error; the ones taken are a beginning of the list, and a
        remainder means that its first document would have opened one entry too many. */
    method ProcessList(docs: seq<Doc>) returns (added: nat)
      requires Valid() && (isExhausted ==> Closed())
      requires Ascending(taken + docs)
      modifies this
      ensures Valid() && added <= |docs| && taken == old(taken) + docs[..added]
      ensures added == |docs| && isExhausted ==> Closed()
      ensures added < |docs| ==> isExhausted && Opens(shape, taken, docs[added])
    {
      added := 0;
      while added < |docs|
        invariant added <= |docs| && Valid()
        invariant taken == old(taken) + docs[..added]
        invariant isExhausted ==> Closed()
        decreases |docs| - added
      {
        var item := docs[added];
        Continues(old(taken), docs, added);
        var outcome := Add(item);
        if outcome.Added? {
          added := added + 1;
        }
        if isExhausted {
          if added < |docs| {
            assert taken == old(taken) + docs[..added];
            Continues(old(taken), docs, added);
            if Squash(shape, latestMarker).None? {
              NothingReturnsAfterABlob(shape, taken, docs[added]);
            }
          }
          return;
        }
      }
    }

    ghost predicate TookFrom(source: seq<Doc>, offset: nat)
      reads this
    {
      Valid() && offset <= |source| && taken == source[..offset]
    }

    lemma Finished(source: seq<Doc>, offset: nat)
      requires TookFrom(source, offset)
      requires offset < |source| ==> isFull && Opens(shape, taken, source[offset])
      ensures taken == source[..PageLength(shape, maxResults, source)]
      ensures Marker(source, |taken|) == if offset < |source| then latestMarker else ""
    {
      PageEnds(shape, maxResults, source, offset);
    }

    /** One read, and as much of it as the page takes. */
    method Continue(source: seq<Doc>, offset: nat) returns (docs: seq<Doc>, added: nat)
      requires TookFrom(source, offset) && (isExhausted ==> Closed()) && Ascending(source)
      modifies this
      ensures docs == Read(source, offset, maxResults)
      ensures added <= |docs| && TookFrom(source, offset + added)
      ensures added < |docs| ==> isFull && offset + added < |source| && Opens(shape, taken, source[offset + added])
      ensures added == |docs| ==> (isExhausted ==> Closed()) && (|docs| < maxResults ==> offset + added == |source|)
    {
      docs := Read(source, offset, maxResults);
      ReadContinues(source, offset, maxResults);
      added := ProcessList(docs);
      ReadTakes(source, offset, maxResults, added);
    }

    /** Fills the page from a reader that returns up to `maxResults` documents from an offset on. */
    method Fill(source: seq<Doc>) returns (items: seq<Doc>, prefixes: seq<string>, marker: string)
      requires Valid() && taken == [] && !isExhausted && Ascending(source)
      modifies this
      ensures Valid() && taken == source[..PageLength(shape, maxResults, source)]
      ensures items == Blobs(shape, taken) && prefixes == Prefixes(shape, taken)
      ensures Shows(shape, taken, items, prefixes)
      ensures marker == Marker(source, |taken|)
    {
      hide Blobs, Prefixes, Opens, Squash, PageLength, Shows;
      var offset: nat := 0;
      var docs := Read(source, offset, maxResults);
      var added: nat := 0;
      while docs != []
        invariant TookFrom(source, offset)
        invariant docs == Read(source, offset, maxResults)
        invariant docs == [] ==> offset == |source|
        invariant isExhausted ==> Closed()
        decreases |source| - offset
      {
        docs, added := Continue(source, offset);
        offset := offset + added;
        if added < maxResults {
          assert added < |docs| || offset == |source|;
          break;
        }
        docs := Read(source, offset, maxResults);
      }
      assert offset < |source| ==> added < |docs|;
      Finished(source, offset);
      ListsShow(shape, taken);
      items, prefixes := blobItems, blobPrefixes;
      marker := if added < |docs| then latestMarker else "";
    }
  }
}
