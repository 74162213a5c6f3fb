/** Following the markers of a listing to its end, against the listing done in one pass. */
module ListingLaws {
  import opened Options
  import opened Names
  import opened Listing

  datatype Page = Page(blobs: seq<Doc>, prefixes: seq<string>, marker: string)

  /** The query of one request: the documents whose name is past the marker. */
  function After(all: seq<Doc>, marker: string): (docs: seq<Doc>)
    ensures |docs| <= |all|
  {
    if all == [] then []
    else (if Less(marker, all[0].name) then [all[0]] else []) + After(all[1..], marker)
  }

  /** In a sorted collection the query is a tail of it. */
  function Position(all: seq<Doc>, marker: string): (at: nat)
    ensures at <= |all|
    ensures at < |all| ==> Less(marker, all[at].name)
    ensures forall i :: 0 <= i < at ==> AtMost(all[i].name, marker)
  {
    if all == [] || Less(marker, all[0].name) then 0 else 1 + Position(all[1..], marker)
  }

  lemma {:induction false} AfterIsATail(all: seq<Doc>, marker: string)
    requires Ascending(all)
    ensures After(all, marker) == all[Position(all, marker)..]
    decreases |all|
  {
    if all != [] {
      AfterIsATail(all[1..], marker);
      if Less(marker, all[0].name) && |all| > 1 {
        LessTrichotomy(marker, all[0].name);
        AtMostTransitive(marker, all[0].name, all[1].name);
        assert Position(all[1..], marker) == 0;
      }
    }
  }

  /** The name of a document passes that document and the repetitions of its name. */
  lemma PositionPast(all: seq<Doc>, at: nat)
    requires Ascending(all) && at < |all|
    ensures at < Position(all, all[at].name)
    ensures forall i :: at < i < Position(all, all[at].name) ==> all[i].name == all[at].name
  {
    var name := all[at].name;
    var q := Position(all, name);
    if q <= at {
      LessTrichotomy(name, name);
      assert AtMost(all[q].name, name);
      assert false;
    }
    forall i | at < i < q ensures all[i].name == name {
      LessTrichotomy(all[i].name, name);
    }
  }

  /** What following a marker resumes with: everything taken is gone, with any repetition of the
      last name. */
  lemma Resumes(all: seq<Doc>, marker: string, k: nat) returns (j: nat)
    requires Ascending(all) && 1 <= k <= |After(all, marker)|
    ensures k <= j <= |After(all, marker)|
    ensures After(all, After(all, marker)[k - 1].name) == After(all, marker)[j..]
    ensures forall i :: k <= i < j ==> After(all, marker)[i].name == After(all, marker)[k - 1].name
    ensures j < |After(all, marker)| ==> Less(After(all, marker)[k - 1].name, After(all, marker)[j].name)
  {
    AfterIsATail(all, marker);
    var p := Position(all, marker);
    PositionPast(all, p + k - 1);
    AfterIsATail(all, all[p + k - 1].name);
    j := Position(all, all[p + k - 1].name) - p;
  }

  /** A marker resumes exactly after the documents taken if and only if none are left or the next
      one has another name. */
  lemma ResumesExactly(all: seq<Doc>, marker: string, k: nat)
    requires Ascending(all) && 1 <= k <= |After(all, marker)|
    ensures After(all, After(all, marker)[k - 1].name) == After(all, marker)[k..]
      <==> k == |After(all, marker)| || Less(After(all, marker)[k - 1].name, After(all, marker)[k].name)
  {
    var j := Resumes(all, marker, k);
    LessTrichotomy(After(all, marker)[k - 1].name, After(all, marker)[k - 1].name);
    assert j == k || |After(all, marker)[j..]| != |After(all, marker)[k..]|;
  }

  lemma {:induction false} BlobsAppend(shape: Shape, a: seq<Doc>, b: seq<Doc>)
    requires Proper(shape)
    ensures Blobs(shape, a + b) == Blobs(shape, a) + Blobs(shape, b)
    decreases |b|
  {
    hide Squash, Prefixes;
    if b == [] {
      assert a + b == a;
    } else {
      var most, last := b[..|b| - 1], b[|b| - 1];
      BlobsAppend(shape, a, most);
      assert a + b == (a + most) + [last] && b == most + [last];
      Snoc(shape, a + most, last);
      Snoc(shape, most, last);
    }
  }

  lemma {:induction false} PrefixesAppend(shape: Shape, a: seq<Doc>, b: seq<Doc>)
    requires Proper(shape) && forall i :: 0 <= i < |b| ==> Opens(shape, a, b[i])
    ensures Prefixes(shape, a + b) == Prefixes(shape, a) + Prefixes(shape, b)
    decreases |b|
  {
    if b == [] {
      assert a + b == a;
    } else {
      var most, last := b[..|b| - 1], b[|b| - 1];
      PrefixesAppend(shape, a, most);
      assert a + b == (a + most) + [last] && b == most + [last];
      Snoc(shape, a + most, last);
      Snoc(shape, most, last);
      assert Opens(shape, a, last);
    }
  }

  lemma {:induction false} PrefixesDistinct(shape: Shape, docs: seq<Doc>)
    requires Proper(shape)
    ensures forall i, j :: 0 <= i < j < |Prefixes(shape, docs)| ==> Prefixes(shape, docs)[i] != Prefixes(shape, docs)[j]
    decreases |docs|
  {
    if docs != [] {
      PrefixesDistinct(shape, docs[..|docs| - 1]);
    }
  }

  /** Where a page ends, the listing splits: no prefix is on both sides. */
  lemma ListingSplits(shape: Shape, docs: seq<Doc>, k: nat)
    requires Proper(shape) && Ascending(docs) && k < |docs| && Opens(shape, docs[..k], docs[k])
    ensures Blobs(shape, docs) == Blobs(shape, docs[..k]) + Blobs(shape, docs[k..])
    ensures Prefixes(shape, docs) == Prefixes(shape, docs[..k]) + Prefixes(shape, docs[k..])
  {
    var a, b := docs[..k], docs[k..];
    assert docs == a + b;
    forall i | 0 <= i < |b| ensures Opens(shape, a, b[i]) {
      var prefix := Squash(shape, b[i].name);
      if prefix.Some? && prefix.value in Prefixes(shape, a) {
        PrefixesAre(shape, a, prefix.value);
        var h :| 0 <= h < |a| && Squash(shape, a[h].name) == prefix;
        assert a[h] == docs[h] && b[i] == docs[k + i];
        assert AtMost(docs[h].name, docs[k].name);
        LessTrichotomy(docs[k].name, docs[k].name);
        SquashedIsContiguous(shape, docs[h].name, docs[k].name, docs[k + i].name);
        assert false;
      }
    }
    BlobsAppend(shape, a, b);
    PrefixesAppend(shape, a, b);
  }

  lemma {:induction false} PlainNames(shape: Shape, docs: seq<Doc>)
    requires Proper(shape) && forall i :: 0 <= i < |docs| ==> Squash(shape, docs[i].name).None?
    ensures Blobs(shape, docs) == docs && Prefixes(shape, docs) == []
    decreases |docs|
  {
    if docs != [] {
      var most, last := docs[..|docs| - 1], docs[|docs| - 1];
      PlainNames(shape, most);
      assert docs == most + [last];
    }
  }

  /** Dropping blobs from the front of a list loses those and nothing else. */
  lemma DropBlobs(shape: Shape, docs: seq<Doc>, n: nat)
    requires Proper(shape) && n <= |docs|
    requires forall i :: 0 <= i < n ==> Squash(shape, docs[i].name).None?
    ensures Prefixes(shape, docs) == Prefixes(shape, docs[n..])
    ensures |Blobs(shape, docs)| == n + |Blobs(shape, docs[n..])|
  {
    PlainNames(shape, docs[..n]);
    assert docs == docs[..n] + docs[n..];
    BlobsAppend(shape, docs[..n], docs[n..]);
    PrefixesAppend(shape, docs[..n], docs[n..]);
  }

  /** A page that leaves something over is full, and the next document would open an entry. */
  lemma FullPage(shape: Shape, max: nat, docs: seq<Doc>, k: nat)
    requires Proper(shape) && k == PageLength(shape, max, docs) < |docs|
    ensures Size(shape, docs[..k]) == max && Opens(shape, docs[..k], docs[k])
    ensures max >= 1 ==> k >= 1
  {
    PageLengthIs(shape, max, docs, k);
    assert docs[..k + 1] == docs[..k] + [docs[k]];
    Snoc(shape, docs[..k], docs[k]);
    if k == 0 {
      assert docs[..k] == [];
    }
  }

  /** Following a marker leaves strictly less to list, so the pages come to an end. */
  lemma Shrinks(shape: Shape, max: nat, all: seq<Doc>, marker: string)
    requires Proper(shape) && max >= 1 && Ascending(all)
    ensures var docs := After(all, marker);
      var k := PageLength(shape, max, docs);
      k < |docs| ==> k >= 1 && |After(all, docs[k - 1].name)| <= |docs| - k
  {
    var docs := After(all, marker);
    var k := PageLength(shape, max, docs);
    if k < |docs| {
      FullPage(shape, max, docs, k);
      var j := Resumes(all, marker, k);
    }
  }

  /** The page that a query's result is cut to. */
  function FirstPage(shape: Shape, max: nat, docs: seq<Doc>): Page
    requires Proper(shape)
  {
    var k := PageLength(shape, max, docs);
    Page(Blobs(shape, docs[..k]), Prefixes(shape, docs[..k]), Marker(docs, k))
  }

  /** A page carries a marker exactly when it leaves something over, and following it leaves
      strictly less to list. */
  lemma FollowsMarker(shape: Shape, max: nat, all: seq<Doc>, marker: string)
    requires Proper(shape) && max >= 1 && Ascending(all)
    ensures var docs := After(all, marker);
      var k, next := PageLength(shape, max, docs), FirstPage(shape, max, docs).marker;
      && (next == "" <==> k == |docs|)
      && (next != "" ==> k >= 1 && next == docs[k - 1].name && |After(all, next)| < |docs|)
  {
    hide Blobs, Prefixes, Ascending, Less, After;
    var docs := After(all, marker);
    var k := PageLength(shape, max, docs);
    Shrinks(shape, max, all, marker);
    if k < |docs| {
      AfterPasses(all, marker, k - 1);
      assert docs[..k][k - 1] == docs[k - 1];
    }
  }

  /** The client's loop: request, and again with the marker, until the marker is empty. */
  ghost function Follow(shape: Shape, max: nat, all: seq<Doc>, marker: string): (pages: seq<Page>)
    requires Proper(shape) && max >= 1 && Ascending(all)
    decreases |After(all, marker)|
  {
    var page := FirstPage(shape, max, After(all, marker));
    FollowsMarker(shape, max, all, marker);
    if page.marker == "" then [page] else [page] + Follow(shape, max, all, page.marker)
  }

  lemma FollowUnfolds(shape: Shape, max: nat, all: seq<Doc>, marker: string)
    requires Proper(shape) && max >= 1 && Ascending(all)
    ensures var docs := After(all, marker);
      var k, pages := PageLength(shape, max, docs), Follow(shape, max, all, marker);
      && pages != [] && pages[0] == FirstPage(shape, max, docs)
      && (k == |docs| ==> |pages| == 1)
      && (k < |docs| ==> k >= 1 && pages[1..] == Follow(shape, max, all, docs[k - 1].name)
                         && pages[1..] != [] && |After(all, docs[k - 1].name)| < |docs|)
  {
    hide Blobs, Prefixes, Ascending, Less, After, FirstPage, PageLength;
    FollowsMarker(shape, max, all, marker);
  }

  /** One request of the handler: a fresh page filled from the query past the marker. It shows
      exactly the plain names and the groups of the documents it took, and one without a marker
      took them all. */
  method ListBlobs(shape: Shape, max: nat, all: seq<Doc>, marker: string) returns (page: Page)
    requires Proper(shape) && max >= 1 && Ascending(all)
    ensures page == FirstPage(shape, max, After(all, marker))
    ensures var docs := After(all, marker);
      && Shows(shape, docs[..PageLength(shape, max, docs)], page.blobs, page.prefixes)
      && (page.marker == "" <==> PageLength(shape, max, docs) == |docs|)
  {
    AfterIsATail(all, marker);
    FollowsMarker(shape, max, all, marker);
    var source := After(all, marker);
    var filler := new PageWithDelimiter(max, shape);
    var items, prefixes, next := filler.Fill(source);
    hide Shows;
    page := Page(items, prefixes, next);
  }

  function ListedBlobs(pages: seq<Page>): seq<Doc> {
    if pages == [] then [] else pages[0].blobs + ListedBlobs(pages[1..])
  }

  function ListedPrefixes(pages: seq<Page>): seq<string> {
    if pages == [] then [] else pages[0].prefixes + ListedPrefixes(pages[1..])
  }

  /** No page ends between two documents of one name. */
  ghost predicate SplitFree(shape: Shape, max: nat, all: seq<Doc>, marker: string)
    requires Proper(shape) && max >= 1 && Ascending(all)
    decreases |After(all, marker)|
  {
    var docs := After(all, marker);
    var k := PageLength(shape, max, docs);
    Shrinks(shape, max, all, marker);
    k == |docs| || (Less(docs[k - 1].name, docs[k].name) && SplitFree(shape, max, all, docs[k - 1].name))
  }

  lemma RepeatedNameIsPlain(shape: Shape, docs: seq<Doc>, k: nat)
    requires Proper(shape) && 1 <= k < |docs| && Opens(shape, docs[..k], docs[k])
    requires docs[k].name == docs[k - 1].name
    ensures Squash(shape, docs[k].name).None?
  {
    var prefix := Squash(shape, docs[k].name);
    if prefix.Some? {
      assert docs[..k][k - 1] == docs[k - 1];
      PrefixesAre(shape, docs[..k], prefix.value);
    }
  }

  /** At the end of a page: what a request for `docs[j..]` lists on top of the page, and, if it
      starts later than the page ended, the blobs that are lost. */
  lemma PageBoundary(shape: Shape, docs: seq<Doc>, k: nat, j: nat)
    requires Proper(shape) && Ascending(docs) && 1 <= k <= j <= |docs|
    requires k < |docs| && Opens(shape, docs[..k], docs[k])
    requires forall i :: k <= i < j ==> docs[i].name == docs[k - 1].name
    ensures Prefixes(shape, docs) == Prefixes(shape, docs[..k]) + Prefixes(shape, docs[j..])
    ensures j == k ==> Blobs(shape, docs) == Blobs(shape, docs[..k]) + Blobs(shape, docs[j..])
    ensures j > k ==> |Blobs(shape, docs)| > |Blobs(shape, docs[..k])| + |Blobs(shape, docs[j..])|
  {
    ListingSplits(shape, docs, k);
    var rest := docs[k..];
    if j > k {
      RepeatedNameIsPlain(shape, docs, k);
      forall i | 0 <= i < j - k ensures Squash(shape, rest[i].name).None? {
        assert rest[i] == docs[k + i];
      }
    }
    DropBlobs(shape, rest, j - k);
    assert rest[j - k..] == docs[j..];
  }

  lemma Follows(shape: Shape, max: nat, all: seq<Doc>, marker: string, k: nat)
    requires Proper(shape) && max >= 1 && Ascending(all)
    requires k == PageLength(shape, max, After(all, marker)) < |After(all, marker)|
    ensures k >= 1
    ensures var docs := After(all, marker);
      var rest := After(all, docs[k - 1].name);
      && Prefixes(shape, docs) == Prefixes(shape, docs[..k]) + Prefixes(shape, rest)
      && (Less(docs[k - 1].name, docs[k].name) ==> Blobs(shape, docs) == Blobs(shape, docs[..k]) + Blobs(shape, rest))
      && (!Less(docs[k - 1].name, docs[k].name) ==> |Blobs(shape, docs)| > |Blobs(shape, docs[..k])| + |Blobs(shape, rest)|)
  {
    var docs := After(all, marker);
    AfterIsATail(all, marker);
    FullPage(shape, max, docs, k);
    var j := Resumes(all, marker, k);
    LessTrichotomy(docs[k - 1].name, docs[k - 1].name);
    PageBoundary(shape, docs, k, j);
  }

  /** Every prefix is listed in order on exactly one page, whatever the delimiter; the blobs are
      the one-pass listing exactly when no page ends between two documents of one name. */
  lemma {:induction false} FollowingListsEverything(shape: Shape, max: nat, all: seq<Doc>, marker: string)
    requires Proper(shape) && max >= 1 && Ascending(all)
    ensures ListedPrefixes(Follow(shape, max, all, marker)) == Prefixes(shape, After(all, marker))
    ensures |ListedBlobs(Follow(shape, max, all, marker))| <= |Blobs(shape, After(all, marker))|
    ensures ListedBlobs(Follow(shape, max, all, marker)) == Blobs(shape, After(all, marker))
      <==> SplitFree(shape, max, all, marker)
    ensures !SplitFree(shape, max, all, marker) ==>
      |ListedBlobs(Follow(shape, max, all, marker))| < |Blobs(shape, After(all, marker))|
    decreases |After(all, marker)|
  {
    hide Follow, Blobs, Prefixes, Ascending, After, PageLength;
    var docs := After(all, marker);
    var k := PageLength(shape, max, docs);
    FollowUnfolds(shape, max, all, marker);
    if k == |docs| {
      assert docs[..k] == docs;
    } else {
      Follows(shape, max, all, marker, k);
      FollowingListsEverything(shape, max, all, docs[k - 1].name);
    }
  }

  /** Names all different, as they are without snapshots. */
  ghost predicate Increasing(all: seq<Doc>) {
    forall i, j :: 0 <= i < j < |all| ==> Less(all[i].name, all[j].name)
  }

  lemma IncreasingAscends(all: seq<Doc>)
    requires Increasing(all)
    ensures Ascending(all)
  {
    forall i, j | 0 <= i < j < |all| ensures AtMost(all[i].name, all[j].name) {
      LessTrichotomy(all[i].name, all[j].name);
    }
  }

  lemma {:induction false} IncreasingIsSplitFree(shape: Shape, max: nat, all: seq<Doc>, marker: string)
    requires Proper(shape) && max >= 1 && Increasing(all) && Ascending(all)
    ensures SplitFree(shape, max, all, marker)
    decreases |After(all, marker)|
  {
    var docs := After(all, marker);
    var k := PageLength(shape, max, docs);
    Shrinks(shape, max, all, marker);
    AfterIsATail(all, marker);
    if k < |docs| {
      IncreasingIsSplitFree(shape, max, all, docs[k - 1].name);
    }
  }

  lemma {:induction false} StartsWithEverything(all: seq<Doc>)
    requires forall i :: 0 <= i < |all| ==> all[i].name != ""
    ensures After(all, "") == all
    decreases |all|
  {
    if all != [] {
      StartsWithEverything(all[1..]);
      assert all == [all[0]] + all[1..];
    }
  }

  /** The listing theorem: for distinct names, any delimiter and any page size, following the
      markers from the start gives the one-pass listing, and nothing twice. */
  lemma PagesAreTheOnePassListing(shape: Shape, max: nat, all: seq<Doc>)
    requires Proper(shape) && max >= 1 && Increasing(all)
    requires forall i :: 0 <= i < |all| ==> all[i].name != ""
    ensures Ascending(all)
    ensures ListedBlobs(Follow(shape, max, all, "")) == Blobs(shape, all)
    ensures ListedPrefixes(Follow(shape, max, all, "")) == Prefixes(shape, all)
    ensures forall i, j :: 0 <= i < j < |Prefixes(shape, all)| ==> Prefixes(shape, all)[i] != Prefixes(shape, all)[j]
  {
    IncreasingAscends(all);
    StartsWithEverything(all);
    IncreasingIsSplitFree(shape, max, all, "");
    FollowingListsEverything(shape, max, all, "");
    PrefixesDistinct(shape, all);
  }

  /** No page is over its limit; all but the last are full and carry a marker, and the last one
      carries none. */
  ghost predicate WellPaged(max: nat, pages: seq<Page>)
    decreases |pages|
  {
    && pages != []
    && |pages[0].blobs| + |pages[0].prefixes| <= max
    && (|pages| == 1 <==> pages[0].marker == "")
    && (|pages| > 1 ==> |pages[0].blobs| + |pages[0].prefixes| == max && WellPaged(max, pages[1..]))
  }

  lemma {:induction false} PagesAreFull(shape: Shape, max: nat, all: seq<Doc>, marker: string)
    requires Proper(shape) && max >= 1 && Ascending(all)
    ensures WellPaged(max, Follow(shape, max, all, marker))
    decreases |After(all, marker)|
  {
    hide Follow, Blobs, Prefixes, Ascending, After, PageLength;
    var docs := After(all, marker);
    var k := PageLength(shape, max, docs);
    FollowsMarker(shape, max, all, marker);
    FollowUnfolds(shape, max, all, marker);
    if k < |docs| {
      PagesAreFull(shape, max, all, docs[k - 1].name);
      FullPage(shape, max, docs, k);
    }
  }

  lemma AfterPasses(all: seq<Doc>, marker: string, i: nat)
    requires i < |After(all, marker)|
    ensures Less(marker, After(all, marker)[i].name) && After(all, marker)[i].name != ""
  {
    if all != [] {
      var rest := After(all[1..], marker);
      if !Less(marker, all[0].name) {
        AfterPasses(all[1..], marker, i);
      } else if i > 0 {
        AfterPasses(all[1..], marker, i - 1);
      }
    }
  }
}
