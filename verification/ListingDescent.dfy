/** A client that walks the names as a tree: it lists under a prefix, then under each prefix that
    the pages report. */
module ListingDescent {
  import opened Options
  import opened Names
  import opened Listing
  import opened ListingLaws

  /** The query of a listing under a prefix. */
  function Under(all: seq<Doc>, prefix: string): (docs: seq<Doc>)
    ensures forall doc :: doc in docs <==> doc in all && StartsWith(doc.name, prefix)
  {
    if all == [] then []
    else (if StartsWith(all[0].name, prefix) then [all[0]] else []) + Under(all[1..], prefix)
  }

  lemma {:induction false} UnderCounts(all: seq<Doc>, prefix: string, doc: Doc)
    ensures multiset(Under(all, prefix))[doc] == if StartsWith(doc.name, prefix) then multiset(all)[doc] else 0
    decreases |all|
  {
    hide StartsWith;
    if all != [] {
      UnderCounts(all[1..], prefix, doc);
      assert all == [all[0]] + all[1..];
    }
  }

  ghost predicate Named(all: seq<Doc>) {
    Increasing(all) && forall i :: 0 <= i < |all| ==> all[i].name != ""
  }

  lemma {:induction false} UnderIncreases(all: seq<Doc>, prefix: string)
    requires Increasing(all)
    ensures Increasing(Under(all, prefix))
    decreases |all|
  {
    if all != [] {
      var rest := Under(all[1..], prefix);
      UnderIncreases(all[1..], prefix);
      forall i | 0 <= i < |rest| ensures Less(all[0].name, rest[i].name) {
        assert rest[i] in rest;
        var k :| 0 <= k < |all[1..]| && all[1..][k] == rest[i];
        assert all[k + 1] == rest[i];
      }
      hide Less, StartsWith;
    }
  }

  lemma UnderNamed(all: seq<Doc>, prefix: string)
    requires Named(all)
    ensures Named(Under(all, prefix)) && Ascending(Under(all, prefix))
  {
    hide Under, Less, StartsWith;
    var docs := Under(all, prefix);
    UnderIncreases(all, prefix);
    IncreasingAscends(docs);
    forall i | 0 <= i < |docs| ensures docs[i].name != "" {
      assert docs[i] in all;
    }
  }

  function Longest(all: seq<Doc>): (n: nat)
    ensures forall i :: 0 <= i < |all| ==> |all[i].name| <= n
  {
    if all == [] then 0
    else
      var rest := Longest(all[1..]);
      if |all[0].name| > rest then |all[0].name| else rest
  }

  function Level(delimiter: char, prefix: string): Shape {
    Shape(Some([delimiter]), |prefix|)
  }

  /** What the pages under a prefix report, followed to the last one. */
  ghost function PagesUnder(delimiter: char, max: nat, all: seq<Doc>, prefix: string): seq<Page>
    requires max >= 1 && Named(all)
  {
    UnderNamed(all, prefix);
    Follow(Level(delimiter, prefix), max, Under(all, prefix), "")
  }

  lemma PagesUnderAre(delimiter: char, max: nat, all: seq<Doc>, prefix: string)
    requires max >= 1 && Named(all)
    ensures ListedBlobs(PagesUnder(delimiter, max, all, prefix)) == Blobs(Level(delimiter, prefix), Under(all, prefix))
    ensures ListedPrefixes(PagesUnder(delimiter, max, all, prefix)) == Prefixes(Level(delimiter, prefix), Under(all, prefix))
  {
    UnderNamed(all, prefix);
    PagesAreTheOnePassListing(Level(delimiter, prefix), max, Under(all, prefix));
  }

  /** A prefix to descend into lies below the one listed, and is no longer than some name. */
  ghost predicate Below(all: seq<Doc>, prefix: string, ps: seq<string>) {
    forall i :: 0 <= i < |ps| ==> |prefix| < |ps[i]| <= Longest(all)
  }

  lemma PrefixesBelow(delimiter: char, max: nat, all: seq<Doc>, prefix: string)
    requires max >= 1 && Named(all)
    ensures Below(all, prefix, ListedPrefixes(PagesUnder(delimiter, max, all, prefix)))
  {
    var shape, docs := Level(delimiter, prefix), Under(all, prefix);
    PagesUnderAre(delimiter, max, all, prefix);
    var ps := Prefixes(shape, docs);
    forall i | 0 <= i < |ps| ensures |prefix| < |ps[i]| <= Longest(all) {
      PrefixesExactly(shape, docs, ps[i]);
      var k :| 0 <= k < |docs| && Grouped(shape, docs[k].name, ps[i]);
      assert docs[k] in all;
    }
  }

  function Depth(all: seq<Doc>, prefix: string): nat {
    if |prefix| <= Longest(all) then Longest(all) - |prefix| else 0
  }

  /** Everything the walk is shown as a blob. */
  ghost function Walk(delimiter: char, max: nat, all: seq<Doc>, prefix: string): multiset<Doc>
    requires max >= 1 && Named(all)
    decreases Depth(all, prefix), 1, 0
  {
    var pages := PagesUnder(delimiter, max, all, prefix);
    PrefixesBelow(delimiter, max, all, prefix);
    multiset(ListedBlobs(pages)) + WalkEach(delimiter, max, all, prefix, ListedPrefixes(pages))
  }

  ghost function WalkEach(delimiter: char, max: nat, all: seq<Doc>, prefix: string, ps: seq<string>): multiset<Doc>
    requires max >= 1 && Named(all) && Below(all, prefix, ps)
    decreases Depth(all, prefix), 0, |ps|
  {
    if ps == [] then multiset{}
    else Walk(delimiter, max, all, ps[0]) + WalkEach(delimiter, max, all, prefix, ps[1..])
  }

  predicate Distinct(ps: seq<string>) {
    forall i, j :: 0 <= i < j < |ps| ==> ps[i] != ps[j]
  }

  /** A name lies under at most one of the prefixes a level reports: the one it is grouped under. */
  lemma UnderOne(delimiter: char, all: seq<Doc>, prefix: string, p: string, doc: Doc)
    requires p in Prefixes(Level(delimiter, prefix), Under(all, prefix))
    ensures StartsWith(doc.name, p) <==> Squash(Level(delimiter, prefix), doc.name) == Some(p)
    ensures StartsWith(doc.name, p) ==> StartsWith(doc.name, prefix)
  {
    hide Squash, Prefixes, Under, OccursAt, StartsWith, Grouped;
    var shape, docs := Level(delimiter, prefix), Under(all, prefix);
    PrefixesAre(shape, docs, p);
    var i :| 0 <= i < |docs| && Squash(shape, docs[i].name) == Some(p);
    assert docs[i] in docs;
    PrefixStandsForItsNames(shape, docs[i].name, p);
    SquashExactly(shape, docs[i].name, p);
    GroupStarts(shape, docs[i].name, p, prefix, doc.name);
  }

  lemma GroupStarts(shape: Shape, member: string, p: string, prefix: string, name: string)
    requires Grouped(shape, member, p) && shape.prefixLength == |prefix| && StartsWith(member, prefix)
    ensures StartsWith(name, p) ==> StartsWith(name, prefix)
  {
    hide OccursAt;
    if StartsWith(name, p) {
      assert member[..|p|][..|prefix|] == name[..|p|][..|prefix|];
    }
  }

  /** The prefixes of one level share the documents out. */
  lemma {:induction false} WalkEachVisits(delimiter: char, max: nat, all: seq<Doc>, prefix: string, ps: seq<string>, doc: Doc)
    requires max >= 1 && Named(all) && Below(all, prefix, ps) && Distinct(ps)
    requires forall i :: 0 <= i < |ps| ==> ps[i] in Prefixes(Level(delimiter, prefix), Under(all, prefix))
    ensures WalkEach(delimiter, max, all, prefix, ps)[doc] ==
      var p := Squash(Level(delimiter, prefix), doc.name);
      if p.Some? && p.value in ps then multiset(all)[doc] else 0
    decreases Depth(all, prefix), 0, |ps|
  {
    hide Squash, Prefixes, StartsWith, Under, Walk, Named;
    if ps != [] {
      UnderOne(delimiter, all, prefix, ps[0], doc);
      WalkVisits(delimiter, max, all, ps[0], doc);
      WalkEachVisits(delimiter, max, all, prefix, ps[1..], doc);
      assert ps == [ps[0]] + ps[1..];
    }
  }

  lemma {:induction false} WalkVisits(delimiter: char, max: nat, all: seq<Doc>, prefix: string, doc: Doc)
    requires max >= 1 && Named(all)
    ensures Walk(delimiter, max, all, prefix)[doc] == if StartsWith(doc.name, prefix) then multiset(all)[doc] else 0
    decreases Depth(all, prefix), 1, 0
  {
    hide Squash, Prefixes, Blobs, StartsWith, Under, WalkEach, Named, Plain, Grouped, PagesUnder;
    var shape, docs := Level(delimiter, prefix), Under(all, prefix);
    var ps := Prefixes(shape, docs);
    UnderCounts(all, prefix, doc);
    PagesUnderAre(delimiter, max, all, prefix);
    PrefixesBelow(delimiter, max, all, prefix);
    PrefixesDistinct(shape, docs);
    WalkEachVisits(delimiter, max, all, prefix, ps, doc);
    BlobsExactly(shape, docs, doc);
    var p := Squash(shape, doc.name);
    SquashExactly(shape, doc.name, if p.Some? then p.value else "");
    if p.Some? {
      PrefixesAre(shape, docs, p.value);
      if p.value in ps {
        UnderOne(delimiter, all, prefix, p.value, doc);
      }
      if doc in docs {
        var i :| 0 <= i < |docs| && docs[i] == doc;
      }
    }
  }

  /** Walking down a hierarchy of names, at any page size, every document under the prefix is shown
      as a blob exactly once, and no other document is. */
  lemma WalkVisitsEverythingOnce(delimiter: char, max: nat, all: seq<Doc>, prefix: string)
    requires max >= 1 && Named(all)
    ensures Walk(delimiter, max, all, prefix) == multiset(Under(all, prefix))
  {
    hide Walk, Under, Named;
    forall doc ensures Walk(delimiter, max, all, prefix)[doc] == multiset(Under(all, prefix))[doc] {
      UnderCounts(all, prefix, doc);
      WalkVisits(delimiter, max, all, prefix, doc);
    }
  }
}
