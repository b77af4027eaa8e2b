/**
 * The image buffer of image_buffer/image_buffer.go: frames captured in the recent past wait in
 * `recentPast`; when a trigger fires, the ones still inside the window move to the FIFO
 * `toSend`, and frames captured before `captureTill` go straight to `toSend`.
 */
module ImageBuffer {
  import opened Wrappers
  import opened CameraTypes

  /** One capture: the images of one camera call and their metadata. */
  datatype CachedData = CachedData(imgs: seq<NamedImage>, meta: ResponseMetadata)

  function Time(c: CachedData): int { c.meta.capturedAt }

  /** Non-decreasing capture time. */
  ghost predicate Sorted(s: seq<CachedData>) {
    forall i, j | 0 <= i < j < |s| :: Time(s[i]) <= Time(s[j])
  }

  /** The largest window, in seconds, whose duration fits in time.Duration without wrapping. */
  const MaxWindowSeconds: int := MaxInt64 / Second

  /** time.Second * time.Duration(windowSeconds), with int64 wrap-around. */
  function WindowDuration(windowSeconds: Int64): (d: Int64)
    ensures (d - windowSeconds * Second) % 0x1_0000_0000_0000_0000 == 0
    ensures -MaxWindowSeconds <= windowSeconds <= MaxWindowSeconds ==> d % Second == 0 && d / Second == windowSeconds
  {
    WholeSecondsFit(windowSeconds);
    Wrap64(Second * windowSeconds)
  }

  /** A window of at most MaxWindowSeconds seconds, in nanoseconds, fits in an int64 and is a
      whole number of seconds. */
  lemma WholeSecondsFit(windowSeconds: int)
    ensures -MaxWindowSeconds <= windowSeconds <= MaxWindowSeconds ==>
      && MinInt64 <= Second * windowSeconds <= MaxInt64
      && (Second * windowSeconds) % Second == 0
      && (Second * windowSeconds) / Second == windowSeconds
  {
    assert MaxWindowSeconds == 9_223_372_036;
  }

  /** The cut-off of cleanBuffer: now.Add(-1 * windowDuration(windowSeconds)). */
  function Early(windowSeconds: Int64, now: int): int {
    now + Wrap64(-1 * WindowDuration(windowSeconds))
  }

  /** The entries of `s`, in order, captured strictly after `early`. */
  function Fresh(s: seq<CachedData>, early: int): (r: seq<CachedData>)
    ensures forall x | x in r :: x in s && Time(x) > early
    ensures forall x | x in s && Time(x) > early :: x in r
  {
    if s == [] then []
    else if Time(s[0]) > early then [s[0]] + Fresh(s[1..], early)
    else Fresh(s[1..], early)
  }

  /** Fresh keeps every copy of a fresh entry and no copy of a stale one. */
  lemma {:induction false} FreshCount(s: seq<CachedData>, early: int, x: CachedData)
    ensures multiset(Fresh(s, early))[x] == if Time(x) > early then multiset(s)[x] else 0
  {
    if s != [] {
      FreshCount(s[1..], early, x);
      assert s == [s[0]] + s[1..];
    }
  }

  /** Fresh depends only on the multiset of its input, so sorting first changes only the order. */
  lemma FreshOfPermutation(a: seq<CachedData>, b: seq<CachedData>, early: int)
    requires multiset(a) == multiset(b)
    ensures multiset(Fresh(a, early)) == multiset(Fresh(b, early))
  {
    forall x ensures multiset(Fresh(a, early))[x] == multiset(Fresh(b, early))[x] {
      FreshCount(a, early, x);
      FreshCount(b, early, x);
    }
  }

  /** In a sorted sequence the stale entries form a head prefix: dropping the head while it is
      stale leaves exactly the fresh entries. */
  lemma {:induction false} DropStaleHead(s: seq<CachedData>, early: int, k: nat)
    requires Sorted(s) && k <= |s|
    requires forall i | 0 <= i < k :: Time(s[i]) <= early
    requires k == |s| || Time(s[k]) > early
    ensures s[k..] == Fresh(s, early)
  {
    if k == 0 {
      AllFresh(s, early);
    } else {
      assert Sorted(s[1..]);
      DropStaleHead(s[1..], early, k - 1);
      assert s[1..][k - 1..] == s[k..];
    }
  }

  /** What cleanBuffer leaves: the sorted input without its stale head is sorted and holds
      exactly the fresh entries of the input. */
  lemma CleanedIsFresh(original: seq<CachedData>, sorted: seq<CachedData>, early: int, k: nat)
    requires Sorted(sorted) && multiset(sorted) == multiset(original) && k <= |sorted|
    requires forall i | 0 <= i < k :: Time(sorted[i]) <= early
    requires k == |sorted| || Time(sorted[k]) > early
    ensures Sorted(sorted[k..])
    ensures multiset(sorted[k..]) == multiset(Fresh(original, early))
  {
    DropStaleHead(sorted, early, k);
    FreshOfPermutation(sorted, original, early);
    var rest := sorted[k..];
    forall i, j | 0 <= i < j < |rest| ensures Time(rest[i]) <= Time(rest[j]) {
      assert rest[i] == sorted[k + i] && rest[j] == sorted[k + j];
    }
  }

  lemma {:induction false} AllFresh(s: seq<CachedData>, early: int)
    requires Sorted(s)
    requires s == [] || Time(s[0]) > early
    ensures Fresh(s, early) == s
  {
    if s != [] {
      assert Sorted(s[1..]);
      assert s[1..] == [] || Time(s[1..][0]) > early;
      AllFresh(s[1..], early);
    }
  }

  /** Inserts `x` after every entry captured no later than it. */
  function Insert(x: CachedData, s: seq<CachedData>): (r: seq<CachedData>)
    ensures multiset(r) == multiset(s) + multiset{x}
  {
    if s == [] then [x]
    else if Time(x) < Time(s[0]) then [x] + s
    else
      assert s == [s[0]] + s[1..];
      [s[0]] + Insert(x, s[1..])
  }

  /** Inserting into a sorted sequence keeps it sorted. */
  lemma {:induction false} InsertSorted(x: CachedData, s: seq<CachedData>)
    requires Sorted(s)
    ensures Sorted(Insert(x, s))
  {
    if s != [] && Time(s[0]) <= Time(x) {
      var rest := Insert(x, s[1..]);
      assert Sorted(s[1..]);
      InsertSorted(x, s[1..]);
      forall y | y in rest ensures Time(s[0]) <= Time(y) {
        assert y in multiset(rest);
        assert y == x || y in s[1..];
      }
      SortedCons(s[0], rest);
    }
  }

  lemma SortedCons(head: CachedData, rest: seq<CachedData>)
    requires Sorted(rest)
    requires forall y | y in rest :: Time(head) <= Time(y)
    ensures Sorted([head] + rest)
  {
    var r := [head] + rest;
    forall i, j | 0 <= i < j < |r| ensures Time(r[i]) <= Time(r[j]) {
      if i > 0 {
        assert r[i] == rest[i - 1] && r[j] == rest[j - 1];
      } else {
        assert r[j] == rest[j - 1];
        assert r[j] in rest;
      }
    }
  }

  /** sort.Slice(recentPast, by CapturedAt): a sorted permutation of the input. */
  method SortByCapture(s: seq<CachedData>) returns (r: seq<CachedData>)
    ensures Sorted(r)
    ensures multiset(r) == multiset(s)
  {
    r := [];
    for i := 0 to |s|
      invariant Sorted(r)
      invariant multiset(r) == multiset(s[..i])
    {
      assert s[..i + 1] == s[..i] + [s[i]];
      InsertSorted(s[i], r);
      r := Insert(s[i], r);
    }
    assert s[..|s|] == s;
  }

  class ImageBuffer {
    var recentPast: seq<CachedData>
    var toSend: seq<CachedData>
    var captureTill: int

    /** The zero value ImageBuffer{}. */
    constructor ()
      ensures recentPast == [] && toSend == [] && captureTill == ZeroTime
    {
      recentPast := [];
      toSend := [];
      captureTill := ZeroTime;
    }

    /** cleanBuffer: sort recentPast by capture time, then drop the head while it was captured at
        or before now - window. */
    method CleanBuffer(windowSeconds: Int64, now: int)
      modifies this`recentPast
      ensures Sorted(recentPast)
      ensures multiset(recentPast) == multiset(Fresh(old(recentPast), Early(windowSeconds, now)))
    {
      var sorted := SortByCapture(recentPast);
      ghost var original := recentPast;
      recentPast := sorted;
      var early := Early(windowSeconds, now);
      ghost var k := 0;
      while |recentPast| > 0
        invariant 0 <= k <= |sorted| && recentPast == sorted[k..]
        invariant forall i | 0 <= i < k :: Time(sorted[i]) <= early
      {
        if Time(recentPast[0]) > early {
          CleanedIsFresh(original, sorted, early, k);
          return;
        }
        recentPast := recentPast[1..];
        k := k + 1;
      }
      CleanedIsFresh(original, sorted, early, k);
    }

    /** AddToBuffer: with a zero window nothing happens; otherwise recentPast is cleaned and the
        capture is appended to recentPast when captureTill is before now, and to toSend otherwise. */
    method AddToBuffer(imgs: seq<NamedImage>, meta: ResponseMetadata, windowSeconds: Int64, now: int)
      modifies this`recentPast, this`toSend
      ensures windowSeconds == 0 ==> recentPast == old(recentPast) && toSend == old(toSend)
      ensures windowSeconds != 0 && old(captureTill) < now ==>
        && |recentPast| > 0
        && recentPast[|recentPast| - 1] == CachedData(imgs, meta)
        && Sorted(recentPast[..|recentPast| - 1])
        && multiset(recentPast[..|recentPast| - 1]) == multiset(Fresh(old(recentPast), Early(windowSeconds, now)))
        && toSend == old(toSend)
      ensures windowSeconds != 0 && now <= old(captureTill) ==>
        && Sorted(recentPast)
        && multiset(recentPast) == multiset(Fresh(old(recentPast), Early(windowSeconds, now)))
        && toSend == old(toSend) + [CachedData(imgs, meta)]
    {
      if windowSeconds == 0 {
        return;
      }
      CleanBuffer(windowSeconds, now);
      if captureTill < now {
        recentPast := recentPast + [CachedData(imgs, meta)];
      } else {
        toSend := toSend + [CachedData(imgs, meta)];
      }
    }

    /** MarkShouldSend: open the window until now + window, and move the cleaned recentPast, in
        capture order, onto the end of toSend. */
    method MarkShouldSend(windowSeconds: Int64, now: int)
      modifies this
      ensures captureTill == now + WindowDuration(windowSeconds)
      ensures recentPast == []
      ensures |toSend| >= |old(toSend)| && toSend[..|old(toSend)|] == old(toSend)
      ensures Sorted(toSend[|old(toSend)|..])
      ensures multiset(toSend[|old(toSend)|..]) == multiset(Fresh(old(recentPast), Early(windowSeconds, now)))
    {
      captureTill := now + WindowDuration(windowSeconds);
      CleanBuffer(windowSeconds, now);
      ghost var before := toSend;
      toSend := toSend + recentPast;
      assert toSend[|before|..] == recentPast;
      recentPast := [];
    }

    /** GetCachedData: pop the oldest entry of toSend; None when it is empty. */
    method GetCachedData() returns (r: Option<CachedData>)
      modifies this`toSend
      ensures old(toSend) == [] ==> r == None && toSend == []
      ensures old(toSend) != [] ==> r == Some(old(toSend)[0]) && toSend == old(toSend)[1..]
    {
      if |toSend| == 0 {
        return None;
      }
      var value := toSend[0];
      toSend := toSend[1..];
      return Some(value);
    }
  }

  /** Whatever order recentPast holds captures at now, now - 1s and now - 1min in, a trigger
      with a 10-second window leaves exactly [now - 1s, now] to send. */
  lemma TenSecondWindow(a: CachedData, b: CachedData, c: CachedData, now: int, past: seq<CachedData>, sent: seq<CachedData>)
    requires Time(a) == now && Time(b) == now - Second && Time(c) == now - 60 * Second
    requires multiset(past) == multiset{a, b, c}
    requires Sorted(sent) && multiset(sent) == multiset(Fresh(past, Early(10, now)))
    ensures sent == [b, a]
  {
    EarlyOfWholeSeconds(10, now);
    ThreeCapturesOneStale(a, b, c, Early(10, now), past, sent);
  }

  lemma ThreeCapturesOneStale(a: CachedData, b: CachedData, c: CachedData, early: int, past: seq<CachedData>, sent: seq<CachedData>)
    requires Time(c) <= early < Time(b) < Time(a)
    requires multiset(past) == multiset{a, b, c}
    requires Sorted(sent) && multiset(sent) == multiset(Fresh(past, early))
    ensures sent == [b, a]
  {
    FreshOfPermutation(past, [a, b, c], early);
    FreshOfThree(a, b, c, early);
    SortedPair(sent, b, a);
  }

  lemma EarlyOfWholeSeconds(windowSeconds: Int64, now: int)
    requires -MaxWindowSeconds <= windowSeconds <= MaxWindowSeconds
    ensures Early(windowSeconds, now) == now - windowSeconds * Second
  {
    var d := WindowDuration(windowSeconds);
    assert d == windowSeconds * Second;
  }

  lemma FreshOfThree(a: CachedData, b: CachedData, c: CachedData, early: int)
    requires Time(a) > early && Time(b) > early && Time(c) <= early
    ensures Fresh([a, b, c], early) == [a, b]
  {
    assert Fresh([c], early) == [] by { assert [c][1..] == []; }
    assert Fresh([b, c], early) == [b] by { assert [b, c][1..] == [c]; }
    assert [a, b, c][1..] == [b, c];
  }

  lemma SortedPair(s: seq<CachedData>, p: CachedData, q: CachedData)
    requires Time(p) < Time(q)
    requires Sorted(s) && multiset(s) == multiset{p, q}
    ensures s == [p, q]
  {
    assert |s| == 2;
    assert s == [s[0], s[1]];
    assert multiset(s) == multiset{s[0], s[1]};
    assert s[0] in multiset{p, q} && s[1] in multiset{p, q};
  }
}
