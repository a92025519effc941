/**
 Deleting a volume: a bucket's children are listed and deleted page by page, then the volume's
 directory itself is deleted.
 */
module BucketEmptying {
  import opened Common

  // ----- names in the filer's order -----

  /** Byte-wise lexicographic order. */
  predicate Less(a: string, b: string) {
    if b == "" then false
    else if a == "" then true
    else a[0] < b[0] || (a[0] == b[0] && Less(a[1..], b[1..]))
  }

  lemma {:induction false} LessIsTransitive(a: string, b: string, c: string)
    requires Less(a, b) && Less(b, c)
    ensures Less(a, c)
  {
    if a != "" && a[0] == b[0] == c[0] {
      LessIsTransitive(a[1..], b[1..], c[1..]);
    }
  }

  lemma {:induction false} LessIsIrreflexive(a: string)
    ensures !Less(a, a)
  {
    if a != "" {
      LessIsIrreflexive(a[1..]);
    }
  }

  predicate Sorted(names: seq<string>) {
    forall i, j {:trigger Less(names[i], names[j])} | 0 <= i < j < |names| :: Less(names[i], names[j])
  }

  /** Where the names after a cursor begin in a sorted list. */
  function FirstAfter(names: seq<string>, after: string): (k: nat)
    ensures k <= |names| && forall i | 0 <= i < k :: !Less(after, names[i])
    ensures k < |names| ==> Less(after, names[k])
  {
    if names == [] || Less(after, names[0]) then 0 else 1 + FirstAfter(names[1..], after)
  }

  function Without(names: seq<string>, name: string): seq<string> {
    if names == [] then []
    else if names[0] == name then Without(names[1..], name)
    else [names[0]] + Without(names[1..], name)
  }

  lemma {:induction false} WithoutAbsent(names: seq<string>, name: string)
    requires name !in names
    ensures Without(names, name) == names
  {
    if names != [] {
      WithoutAbsent(names[1..], name);
    }
  }

  lemma WithoutFirst(names: seq<string>)
    requires names != [] && Sorted(names)
    ensures Without(names, names[0]) == names[1..]
  {
    LessIsIrreflexive(names[0]);
    WithoutAbsent(names[1..], names[0]);
  }

  lemma {:induction false} WithoutKeepsOthers(names: seq<string>, name: string)
    ensures forall other :: other in Without(names, name) <==> other in names && other != name
    ensures Sorted(names) ==> Sorted(Without(names, name))
  {
    if names != [] {
      WithoutKeepsOthers(names[1..], name);
      if Sorted(names) {
        var rest := Without(names[1..], name);
        forall i | 0 <= i < |rest|
          ensures Less(names[0], rest[i])
        {
          assert rest[i] in names[1..];
        }
      }
    }
  }

  predicate Follow(names: seq<string>, after: string) {
    forall i {:trigger Less(after, names[i])} | 0 <= i < |names| :: Less(after, names[i])
  }

  lemma AllAfter(names: seq<string>, after: string)
    requires Follow(names, after)
    ensures FirstAfter(names, after) == 0
  {
  }

  lemma NamesAreAfterEmpty(names: seq<string>)
    requires "" !in names
    ensures Follow(names, "")
  {
    assert forall i | 0 <= i < |names| :: names[i] in names;
  }

  /** A page of a list that lies after the cursor. */
  lemma PageIsPrefix(names: seq<string>, after: string, page: Listing)
    requires Sorted(names) && Follow(names, after) && IsPage(page, names, after)
    ensures page.Page? && |page.names| <= |names| && page.names == names[..|page.names|]
    ensures page.hasMore ==> page.names != [] && Follow(names[|page.names|..], page.last)
    ensures !page.hasMore ==> |page.names| == |names|
    ensures page.hasMore <==> |names| > PAGE_SIZE
    ensures |page.names| == if page.hasMore then PAGE_SIZE else |names|
  {
    AllAfter(names, after);
  }

  /** Deleting a name up to the cursor leaves every page after the cursor as it was. */
  lemma {:induction false} DeletingBehindCursorKeepsPages(names: seq<string>, name: string, after: string)
    requires Sorted(names) && !Less(after, name)
    ensures Without(names, name)[FirstAfter(Without(names, name), after)..] == names[FirstAfter(names, after)..]
  {
    if names != [] {
      DeletingBehindCursorKeepsPages(names[1..], name, after);
      if Less(after, names[0]) {
        NothingBehind(names, name, after);
        WithoutAbsent(names, name);
      }
    }
  }

  lemma NothingBehind(names: seq<string>, name: string, after: string)
    requires Sorted(names) && names != [] && Less(after, names[0]) && !Less(after, name)
    ensures name !in names
  {
    forall i | 0 < i < |names|
      ensures Less(after, names[i])
    {
      LessIsTransitive(after, names[0], names[i]);
    }
  }

  // ----- the filer -----

  const PAGE_SIZE := 1000

  datatype Listing = NotFound | ListingFailed | Page(names: seq<string>, last: string, hasMore: bool)

  /** The first names after the cursor, at most a page of them, and whether more remain. */
  function PageAfter(names: seq<string>, after: string): Listing {
    var rest := names[FirstAfter(names, after)..];
    if |rest| == 0 then Page([], "", false)
    else if |rest| <= PAGE_SIZE then Page(rest, rest[|rest| - 1], false)
    else Page(rest[..PAGE_SIZE], rest[PAGE_SIZE - 1], true)
  }

  predicate IsPage(listing: Listing, names: seq<string>, after: string) {
    listing == PageAfter(names, after)
  }

  class Filer {
    /** How the n-th call goes. */
    const fates: nat -> Fate
    var calls: nat
    /** The volume's directory and its children in order. */
    var exists_: bool
    var children: seq<string>
    /** Whether attributes of the volume are persisted. */
    var attributes: bool
    /** The children whose deletion the filer has confirmed, in order. */
    ghost var deleted: seq<string>

    ghost predicate Valid()
      reads this
    {
      Sorted(children) && "" !in children && (!exists_ ==> children == [])
    }

    constructor (fates: nat -> Fate, children: seq<string>)
      requires Sorted(children) && "" !in children
      ensures Valid() && this.fates == fates && calls == 0 && exists_ && this.children == children && deleted == []
    {
      this.fates, calls, exists_, this.children, attributes, deleted := fates, 0, true, children, true, [];
    }

    /** Every call from one on, up to another, worked. */
    ghost predicate AllWorked(from: nat, to: nat) {
      forall n | from <= n < to :: fates(n) == Works
    }

    method ListChildren(after: string) returns (listing: Listing)
      modifies this`calls
      ensures calls == old(calls) + 1
      ensures fates(old(calls)) != Works ==> listing == ListingFailed
      ensures fates(old(calls)) == Works ==> if exists_ then IsPage(listing, children, after) else listing == NotFound
    {
      var fate := fates(calls);
      calls := calls + 1;
      listing := if fate != Works then ListingFailed else if !exists_ then NotFound else PageAfter(children, after);
    }

    /** Deletes a child with everything below it. */
    method DeleteChild(name: string) returns (ok: bool)
      requires Valid()
      modifies this
      ensures Valid() && exists_ == old(exists_) && attributes == old(attributes) && calls == old(calls) + 1
      ensures ok <==> fates(old(calls)) == Works
      ensures children == (if fates(old(calls)) == FailsBefore then old(children) else Without(old(children), name))
      ensures deleted == if ok then old(deleted) + [name] else old(deleted)
    {
      var fate := fates(calls);
      calls := calls + 1;
      WithoutKeepsOthers(children, name);
      if fate != FailsBefore {
        children := Without(children, name);
      }
      if fate == Works {
        deleted := deleted + [name];
      }
      ok := fate == Works;
    }

    /** Deletes the volume's directory with everything below it. */
    method DeleteRoot() returns (ok: bool)
      requires Valid()
      modifies this
      ensures Valid() && deleted == old(deleted) && attributes == old(attributes) && calls == old(calls) + 1
      ensures ok <==> fates(old(calls)) == Works
      ensures exists_ == (old(exists_) && fates(old(calls)) == FailsBefore)
    {
      var fate := fates(calls);
      calls := calls + 1;
      if fate != FailsBefore {
        exists_, children := false, [];
      }
      ok := fate == Works;
    }

    // ----- emptying -----

    /** What is deleted and what is left make up the whole list, but for one child deleted without a confirmation. */
    ghost predicate CutOff(all: seq<string>)
      reads this
    {
      deleted + children == all || exists name :: deleted + [name] + children == all
    }

    /** Every child of a bucket is deleted exactly once, in order; an error leaves a rest that was not. */
    method EmptyBucketChildren(place: Place) returns (ok: bool)
      requires Valid()
      modifies this
      ensures Valid() && exists_ == old(exists_) && attributes == old(attributes)
      ensures place != BucketRoot ==> children == old(children) && deleted == old(deleted) && (ok <==> place == Elsewhere)
      ensures place == BucketRoot && ok ==> children == [] && deleted == old(deleted) + old(children)
      ensures place == BucketRoot && !ok ==> CutOff(old(deleted) + old(children))
      ensures calls >= old(calls) && (ok <==> place != Unknown && AllWorked(old(calls), calls))
    {
      if place == Unknown {
        return false;
      }
      if place != BucketRoot {
        return true;
      }
      ok := EmptyPageByPage();
    }

    method EmptyPageByPage() returns (ok: bool)
      requires Valid()
      modifies this
      ensures Valid() && exists_ == old(exists_) && attributes == old(attributes)
      ensures ok ==> children == [] && deleted == old(deleted) + old(children)
      ensures !ok ==> CutOff(old(deleted) + old(children))
      ensures calls >= old(calls) && (ok <==> AllWorked(old(calls), calls))
    {
      ghost var all := deleted + children;
      NamesAreAfterEmpty(children);
      var after := "";
      while true
        invariant Valid() && exists_ == old(exists_) && attributes == old(attributes)
        invariant deleted + children == all && Follow(children, after)
        invariant calls >= old(calls) && AllWorked(old(calls), calls)
        decreases |children|
      {
        var listing := ListChildren(after);
        if listing.NotFound? {
          return true;
        }
        if listing.ListingFailed? {
          return false;
        }
        PageIsPrefix(children, after, listing);
        ok := DeletePage(listing.names, all);
        if !ok {
          return;
        }
        if !listing.hasMore || listing.last == "" {
          return true;
        }
        after := listing.last;
      }
    }

    method DeletePage(page: seq<string>, ghost all: seq<string>) returns (ok: bool)
      requires Valid() && |page| <= |children| && page == children[..|page|]
      requires deleted + children == all
      modifies this
      ensures Valid() && exists_ == old(exists_) && attributes == old(attributes)
      ensures ok ==> children == old(children)[|page|..] && deleted + children == all
      ensures !ok ==> CutOff(all)
      ensures calls >= old(calls) && (ok <==> AllWorked(old(calls), calls))
    {
      for j := 0 to |page|
        invariant Valid() && exists_ == old(exists_) && attributes == old(attributes)
        invariant children == old(children)[j..] && deleted + children == all
        invariant calls >= old(calls) && AllWorked(old(calls), calls)
      {
        WithoutFirst(children);
        assert page[j] == children[0] && deleted + [children[0]] + children[1..] == all;
        ok := DeleteChild(page[j]);
        if !ok {
          return;
        }
      }
      ok := true;
    }

    /**
     The volume's directory is deleted only after every child of a bucket has been, with confirmation,
     and the persisted attributes only after the directory; that they stay does not fail the call.
     */
    method DeleteVolume(volumeId: string, allowed: bool, place: Place, store: Fate) returns (ok: bool)
      requires Valid()
      modifies this
      ensures Valid()
      ensures ok ==> volumeId != "" && allowed && place != Unknown && !exists_
      ensures exists_ != old(exists_) && place == BucketRoot ==> deleted == old(deleted) + old(children)
      ensures exists_ != old(exists_) ==> volumeId != "" && allowed && place != Unknown
      ensures place != BucketRoot ==> deleted == old(deleted)
      ensures attributes == (old(attributes) && (ok ==> store == FailsBefore))
      ensures calls >= old(calls)
      ensures ok <==> volumeId != "" && allowed && place != Unknown && AllWorked(old(calls), calls)
    {
      if volumeId == "" || !allowed {
        return false;
      }
      ok := EmptyBucketChildren(place);
      if !ok {
        return;
      }
      ok := DeleteRoot();
      if ok && store != FailsBefore {
        attributes := false;
      }
    }
  }

  /** Whether the volume lies directly in the filer's bucket directory, which the filer may fail to tell. */
  datatype Place = Unknown | BucketRoot | Elsewhere
}
