/** The list transforms behind the component's event handlers. Each one
    computes the next `images` and `queue` from the current ones, as the
    handlers do with map, filter and spread, without changing anything in place. */
module ImageLists {
  import opened Images

  /** The two ordered lists the component holds: the images not yet queued,
      and the queue whose records become PDF pages. */
  datatype Store = Store(images: seq<ImageData>, queue: seq<ImageData>)

  /** The preview handles that occur in a list. */
  function Urls(s: seq<ImageData>): set<Url>
  {
    set x | x in s :: x.url
  }

  /** No two records of the list share a preview handle. */
  predicate DistinctUrls(s: seq<ImageData>)
  {
    forall i, j :: 0 <= i < j < |s| ==> s[i].url != s[j].url
  }

  /** Every handle in the list was made before the handle numbered `bound`. */
  predicate UrlsBelow(s: seq<ImageData>, bound: nat)
  {
    forall x :: x in s ==> x.url.id < bound
  }

  /** Every record of the list holds one of the four reachable angles. */
  predicate AllQuarterTurns(s: seq<ImageData>)
  {
    forall x :: x in s ==> IsQuarterTurn(x.rotated)
  }

  /** No handle is both waiting in `images` and queued. */
  predicate UrlDisjoint(s: Store)
  {
    Urls(s.images) !! Urls(s.queue)
  }

  // ---------------------------------------------------------------------
  // Import
  // ---------------------------------------------------------------------

  /** The records made for one batch of files: one per file, in file order,
      each unrotated and with a handle numbered from `first` upwards. */
  function NewImages(files: seq<File>, first: nat): (r: seq<ImageData>)
    ensures |r| == |files|
    ensures forall i :: 0 <= i < |r| ==> r[i].file == files[i] && r[i].url == Url(first + i) && r[i].rotated == 0
  {
    if files == [] then []
    else [ImageData(files[0], Url(first), 0)] + NewImages(files[1..], first + 1)
  }

  /** Appending a batch keeps the handles of the image list distinct and
      below the counter, and the new handles are held by nothing else. */
  lemma ImportKeepsUrlsFresh(s: seq<ImageData>, others: seq<ImageData>, files: seq<File>, next: nat)
    requires DistinctUrls(s) && UrlsBelow(s, next) && UrlsBelow(others, next)
    ensures DistinctUrls(s + NewImages(files, next))
    ensures UrlsBelow(s + NewImages(files, next), next + |files|)
    ensures AllQuarterTurns(NewImages(files, next))
    ensures Urls(NewImages(files, next)) !! Urls(s) && Urls(NewImages(files, next)) !! Urls(others)
  {
  }

  // ---------------------------------------------------------------------
  // Rotate one entry and remove one position
  // ---------------------------------------------------------------------

  /** The image list after pressing rotate on entry `idx`: that entry is
      turned by a quarter, every other entry and the length stay as they were. */
  function RotateAt(s: seq<ImageData>, idx: int): (r: seq<ImageData>)
    ensures |r| == |s|
    ensures forall i :: 0 <= i < |s| && i != idx ==> r[i] == s[i]
    ensures 0 <= idx < |s| ==> r[idx] == s[idx].(rotated := Rotate(s[idx].rotated))
  {
    if s == [] then []
    else [if idx == 0 then s[0].(rotated := Rotate(s[0].rotated)) else s[0]] + RotateAt(s[1..], idx - 1)
  }

  /** The list without position `k`: filtering by position drops exactly that
      element and keeps the order of the rest; a position outside the list
      drops nothing. */
  function RemoveAt(s: seq<ImageData>, k: int): (r: seq<ImageData>)
    ensures 0 <= k < |s| ==> r == s[..k] + s[k + 1..]
    ensures !(0 <= k < |s|) ==> r == s
  {
    if s == [] then []
    else (if k == 0 then [] else [s[0]]) + RemoveAt(s[1..], k - 1)
  }

  /** Removing a position loses exactly that record. */
  lemma RemoveAtMultiset(s: seq<ImageData>, k: int)
    requires 0 <= k < |s|
    ensures multiset(RemoveAt(s, k)) + multiset{s[k]} == multiset(s)
  {
    var r := RemoveAt(s, k);
    assert r == s[..k] + s[k + 1..];
    SplitAt(s, k);
  }

  lemma SplitAt(s: seq<ImageData>, k: int)
    requires 0 <= k < |s|
    ensures multiset(s[..k] + s[k + 1..]) + multiset{s[k]} == multiset(s)
  {
    assert s == s[..k] + [s[k]] + s[k + 1..];
  }

  /** Removing a position keeps every invariant a list of images has. */
  lemma RemoveAtKeeps(s: seq<ImageData>, k: int, bound: nat)
    ensures DistinctUrls(s) ==> DistinctUrls(RemoveAt(s, k))
    ensures UrlsBelow(s, bound) ==> UrlsBelow(RemoveAt(s, k), bound)
    ensures AllQuarterTurns(s) ==> AllQuarterTurns(RemoveAt(s, k))
    ensures Urls(RemoveAt(s, k)) <= Urls(s)
  {
  }

  // ---------------------------------------------------------------------
  // Filtering by handle
  // ---------------------------------------------------------------------

  /** The records of `s`, in order, whose handle is in `urls` (when `present`)
      or is not in `urls` (when not `present`). */
  function UrlFilter(s: seq<ImageData>, urls: set<Url>, present: bool): (r: seq<ImageData>)
    ensures |r| <= |s|
    ensures forall x :: x in r <==> x in s && (x.url in urls) == present
  {
    if s == [] then []
    else (if (s[0].url in urls) == present then [s[0]] else []) + UrlFilter(s[1..], urls, present)
  }

  /** Filtering a single record keeps it exactly when its handle passes the test. */
  lemma UrlFilterSingle(x: ImageData, urls: set<Url>, present: bool)
    ensures UrlFilter([x], urls, present) == if (x.url in urls) == present then [x] else []
  {
    assert [x][1..] == [];
  }

  /** Filtering a concatenation filters each part and keeps the parts in
      order; with UrlFilterSingle this determines the filter completely. */
  lemma {:induction false} UrlFilterAppend(a: seq<ImageData>, b: seq<ImageData>, urls: set<Url>, present: bool)
    ensures UrlFilter(a + b, urls, present) == UrlFilter(a, urls, present) + UrlFilter(b, urls, present)
  {
    if a == [] {
      assert a + b == b;
    } else {
      assert (a + b)[0] == a[0] && (a + b)[1..] == a[1..] + b;
      UrlFilterAppend(a[1..], b, urls, present);
    }
  }

  /** Two records that both pass the test keep their relative order: the
      earlier one in `s` is at an earlier position of the result. */
  lemma {:induction false} UrlFilterOrder(s: seq<ImageData>, urls: set<Url>, present: bool, i: nat, j: nat)
    requires i < j < |s|
    requires (s[i].url in urls) == present && (s[j].url in urls) == present
    ensures exists p, q ::
              0 <= p < q < |UrlFilter(s, urls, present)| &&
              UrlFilter(s, urls, present)[p] == s[i] && UrlFilter(s, urls, present)[q] == s[j]
  {
    var r := UrlFilter(s, urls, present);
    var tail := s[1..];
    var rest := UrlFilter(tail, urls, present);
    var head := if (s[0].url in urls) == present then [s[0]] else [];
    assert r == head + rest;
    if i == 0 {
      assert s[j] == tail[j - 1] && s[j] in tail;
      assert s[j] in rest;
      var q :| 0 <= q < |rest| && rest[q] == s[j];
      assert |head| == 1;
      assert 0 < q + 1 < |r| && r[0] == s[i] && r[q + 1] == s[j];
    } else {
      UrlFilterOrder(tail, urls, present, i - 1, j - 1);
      var p, q :| 0 <= p < q < |rest| && rest[p] == tail[i - 1] && rest[q] == tail[j - 1];
      assert tail[i - 1] == s[i] && tail[j - 1] == s[j];
      var p', q' := p + |head|, q + |head|;
      assert 0 <= p' < q' < |r| && r[p'] == s[i] && r[q'] == s[j];
    }
  }

  /** The records with a handle in `urls` and those without together are
      exactly the records of `s`: each record lands in exactly one of the two. */
  lemma {:induction false} UrlFilterPartition(s: seq<ImageData>, urls: set<Url>)
    ensures multiset(UrlFilter(s, urls, true)) + multiset(UrlFilter(s, urls, false)) == multiset(s)
  {
    if s != [] {
      var head, tail := s[0], s[1..];
      UrlFilterPartition(tail, urls);
      var kept := if head.url in urls then [head] else [];
      var dropped := if head.url in urls then [] else [head];
      assert UrlFilter(s, urls, true) == kept + UrlFilter(tail, urls, true);
      assert UrlFilter(s, urls, false) == dropped + UrlFilter(tail, urls, false);
      assert multiset(kept) + multiset(dropped) == multiset{head};
      assert s == [head] + tail;
    }
  }

  /** Filtering keeps the handles of the survivors distinct. */
  lemma {:induction false} UrlFilterDistinct(s: seq<ImageData>, urls: set<Url>, present: bool)
    requires DistinctUrls(s)
    ensures DistinctUrls(UrlFilter(s, urls, present))
  {
    if s != [] {
      var tail := s[1..];
      assert DistinctUrls(tail) by {
        forall i, j | 0 <= i < j < |tail| ensures tail[i].url != tail[j].url {
          assert tail[i] == s[i + 1] && tail[j] == s[j + 1];
        }
      }
      UrlFilterDistinct(tail, urls, present);
      var rest := UrlFilter(tail, urls, present);
      forall x | x in rest ensures x.url != s[0].url {
        var k :| 0 <= k < |tail| && tail[k] == x;
        assert s[k + 1] == x;
      }
    }
  }

  // ---------------------------------------------------------------------
  // Include one image (the include button and a double-click on a thumbnail)
  // ---------------------------------------------------------------------

  /** Including entry `idx`: when no queued record has its handle it moves to
      the end of the queue and leaves the image list; otherwise nothing changes. */
  function Include(s: Store, idx: nat): (r: Store)
    requires idx < |s.images|
    ensures s.images[idx].url !in Urls(s.queue) ==>
              r.queue == s.queue + [s.images[idx]] && r.images == s.images[..idx] + s.images[idx + 1..]
    ensures s.images[idx].url in Urls(s.queue) ==> r == s
    ensures multiset(r.images) + multiset(r.queue) == multiset(s.images) + multiset(s.queue)
  {
    var entry := s.images[idx];
    if entry.url !in Urls(s.queue) then
      RemoveAtMultiset(s.images, idx);
      Store(RemoveAt(s.images, idx), s.queue + [entry])
    else
      s
  }

  /** Including never puts a second copy of a handle in the queue: after an
      include, any entry still in the image list with the same handle is
      refused, and a queue without repeated handles keeps that property. */
  lemma IncludeNeverDuplicates(s: Store, idx: nat)
    requires idx < |s.images|
    ensures var r := Include(s, idx);
      s.images[idx].url in Urls(r.queue) &&
      (forall j :: 0 <= j < |r.images| && r.images[j].url == s.images[idx].url ==> Include(r, j) == r)
    ensures DistinctUrls(s.queue) ==> DistinctUrls(Include(s, idx).queue)
  {
  }

  /** Including keeps the image list and the queue apart when they were apart. */
  lemma IncludeKeepsDisjoint(s: Store, idx: nat)
    requires idx < |s.images| && UrlDisjoint(s) && DistinctUrls(s.images)
    ensures UrlDisjoint(Include(s, idx))
  {
    var entry := s.images[idx];
    if entry.url !in Urls(s.queue) {
      RemoveAtKeeps(s.images, idx, 0);
      RemoveAtDropsUrl(s.images, idx);
      UrlsAppend(s.queue, entry);
    }
  }

  lemma RemoveAtDropsUrl(s: seq<ImageData>, k: nat)
    requires DistinctUrls(s) && k < |s|
    ensures s[k].url !in Urls(RemoveAt(s, k))
  {
  }

  lemma UrlsAppend(q: seq<ImageData>, x: ImageData)
    ensures Urls(q + [x]) == Urls(q) + {x.url}
  {
  }

  // ---------------------------------------------------------------------
  // Include all
  // ---------------------------------------------------------------------

  /** Including every image: the records whose handle the queue lacks are
      appended to it in image-list order, and the image list keeps exactly
      the records whose handle the queue already had. */
  function IncludeAll(s: Store): (r: Store)
    ensures |s.queue| <= |r.queue| && r.queue[..|s.queue|] == s.queue
    ensures forall x :: x in r.images <==> x in s.images && x.url in Urls(s.queue)
    ensures forall x :: x in r.queue[|s.queue|..] <==> x in s.images && x.url !in Urls(s.queue)
  {
    var alreadyInQueue := Urls(s.queue);
    var newOnes := UrlFilter(s.images, alreadyInQueue, false);
    assert (s.queue + newOnes)[|s.queue|..] == newOnes;
    Store(UrlFilter(s.images, alreadyInQueue, true), s.queue + newOnes)
  }

  /** Every image lands in exactly one of the two lists, and the queue keeps
      what it had: nothing is lost and nothing is copied. */
  lemma IncludeAllConserves(s: Store)
    ensures var r := IncludeAll(s);
      multiset(r.images) + multiset(r.queue) == multiset(s.images) + multiset(s.queue)
  {
    UrlFilterPartition(s.images, Urls(s.queue));
  }

  /** Include-all keeps the image-list order on both sides: two images whose
      handles the queue lacked are appended in the order they had, and two
      images whose handles it had stay in the image list in that order. */
  lemma IncludeAllKeepsOrder(s: Store, i: nat, j: nat)
    requires i < j < |s.images|
    ensures var r := IncludeAll(s);
      s.images[i].url !in Urls(s.queue) && s.images[j].url !in Urls(s.queue) ==>
        exists p, q :: |s.queue| <= p < q < |r.queue| && r.queue[p] == s.images[i] && r.queue[q] == s.images[j]
    ensures var r := IncludeAll(s);
      s.images[i].url in Urls(s.queue) && s.images[j].url in Urls(s.queue) ==>
        exists p, q :: 0 <= p < q < |r.images| && r.images[p] == s.images[i] && r.images[q] == s.images[j]
  {
    var u := Urls(s.queue);
    var r := IncludeAll(s);
    if s.images[i].url !in u && s.images[j].url !in u {
      var newOnes := UrlFilter(s.images, u, false);
      UrlFilterOrder(s.images, u, false, i, j);
      var p, q :| 0 <= p < q < |newOnes| && newOnes[p] == s.images[i] && newOnes[q] == s.images[j];
      assert r.queue == s.queue + newOnes;
      assert r.queue[|s.queue| + p] == s.images[i] && r.queue[|s.queue| + q] == s.images[j];
    }
    if s.images[i].url in u && s.images[j].url in u {
      UrlFilterOrder(s.images, u, true, i, j);
    }
  }

  /** When no image shares a handle with the queue, every image is moved and
      the image list becomes empty. */
  lemma IncludeAllWhenDisjoint(s: Store)
    requires UrlDisjoint(s)
    ensures IncludeAll(s).images == []
    ensures IncludeAll(s).queue == s.queue + s.images
  {
    var r := IncludeAll(s);
    if r.images != [] {
      assert r.images[0] in r.images;
    }
    UrlFilterKeepsAll(s.images, Urls(s.queue));
  }

  lemma {:induction false} UrlFilterKeepsAll(s: seq<ImageData>, urls: set<Url>)
    requires Urls(s) !! urls
    ensures UrlFilter(s, urls, false) == s
  {
    if s != [] {
      assert s[0] in s;
      assert Urls(s[1..]) <= Urls(s) by {
        forall u | u in Urls(s[1..]) ensures u in Urls(s) {
          var x :| x in s[1..] && x.url == u;
          assert x in s;
        }
      }
      UrlFilterKeepsAll(s[1..], urls);
      assert s == [s[0]] + s[1..];
    }
  }

  /** Pressing include-all twice is the same as pressing it once. */
  lemma IncludeAllIdempotent(s: Store)
    ensures IncludeAll(IncludeAll(s)) == IncludeAll(s)
  {
    var r := IncludeAll(s);
    var u := Urls(r.queue);
    forall x | x in r.images ensures x.url in u {
      assert x.url in Urls(s.queue);
      var y :| y in s.queue && y.url == x.url;
      var k :| 0 <= k < |s.queue| && s.queue[k] == y;
      assert r.queue[k] == y;
    }
    UrlFilterAllPresent(r.images, u);
    assert r.queue + [] == r.queue;
  }

  lemma {:induction false} UrlFilterAllPresent(s: seq<ImageData>, urls: set<Url>)
    requires forall x :: x in s ==> x.url in urls
    ensures UrlFilter(s, urls, true) == s
    ensures UrlFilter(s, urls, false) == []
  {
    if s != [] {
      assert s[0] in s;
      UrlFilterAllPresent(s[1..], urls);
      assert s == [s[0]] + s[1..];
    }
  }

  /** With distinct handles on both sides, include-all leaves the queue
      free of repeated handles. */
  lemma IncludeAllKeepsQueueDistinct(s: Store)
    requires DistinctUrls(s.images) && DistinctUrls(s.queue)
    ensures DistinctUrls(IncludeAll(s).queue)
  {
    var newOnes := UrlFilter(s.images, Urls(s.queue), false);
    UrlFilterDistinct(s.images, Urls(s.queue), false);
    var q := s.queue + newOnes;
    forall i, j | 0 <= i < j < |q| ensures q[i].url != q[j].url {
      if i < |s.queue| && j >= |s.queue| {
        assert q[i] in s.queue && q[j] in newOnes;
      } else if j >= |s.queue| {
        assert q[i] == newOnes[i - |s.queue|] && q[j] == newOnes[j - |s.queue|];
      }
    }
  }

  // ---------------------------------------------------------------------
  // Queue the selected image
  // ---------------------------------------------------------------------

  /** Queueing the selected entry appends it with no check for a repeated
      handle and without taking it out of the image list; the record is then
      in both lists, and the include button on it does nothing. */
  lemma AddSelectedOverlaps(s: Store, selected: nat)
    requires selected < |s.images|
    ensures var r := Store(s.images, s.queue + [s.images[selected]]);
      !UrlDisjoint(r) && Include(r, selected) == r
  {
    var r := Store(s.images, s.queue + [s.images[selected]]);
    assert r.queue[|s.queue|] in r.queue;
    assert s.images[selected] in s.images;
    assert s.images[selected].url in Urls(r.images) * Urls(r.queue);
  }
}
