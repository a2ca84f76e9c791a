/** Unnumbered frames taken in runs of four: when each run becomes one group. */
module GroupingRuns {
  import opened Numeric
  import opened Sorting
  import opened Grouping

  // ------------------------------------------------------------------- unnumbered runs

  /** The unnumbered frames of the prefix, taken in order, carry sub-indices 1, 2, 3, 4, 1, 2, 3, 4, ... */
  ghost predicate InRuns(s: seq<Frame>, prefix: Prefix) {
    AllParsed(s) && forall i :: 0 <= i < |s| && Unnumbered(s[i], prefix) ==> SubIndex(s[i]) == Rank(s, i, prefix) % 4 + 1
  }

  predicate Unnumbered(f: Frame, prefix: Prefix) { f.Parsed() && f.sequenceNumber.None? && PrefixOf(f) == prefix }

  /** How many unnumbered frames of the prefix are among the first n. */
  function Rank(s: seq<Frame>, n: nat, prefix: Prefix): nat
    requires n <= |s|
  {
    if n == 0 then 0 else Rank(s, n - 1, prefix) + (if Unnumbered(s[n - 1], prefix) then 1 else 0)
  }

  /** With r frames seen, c of the runs have begun. */
  predicate RunsBegun(c: int, r: int) { 4 * c - 4 < r <= 4 * c }

  lemma {:induction false} CountStep(c: int, d: int, r: int, q: int, more: bool)
    requires 0 <= r && RunsBegun(c, r) && q == r + (if more then 1 else 0)
    requires d == c + (if more && r % 4 == 0 then 1 else 0)
    ensures RunsBegun(d, q)
  {}

  /** One more frame: the two counts advance together as far as the frame belongs to the prefix and opens a run. */
  lemma {:induction false} CounterStep(s: seq<Frame>, i: nat, prefix: Prefix, c: int, r: nat)
    requires i < |s| && InRuns(s, prefix) && c == Counter(s, i, prefix) && r == Rank(s, i, prefix) && RunsBegun(c, r)
    ensures RunsBegun(Counter(s, i + 1, prefix), Rank(s, i + 1, prefix))
  {
    if Unnumbered(s[i], prefix) {
      assert SubIndex(s[i]) == r % 4 + 1;
      CountStep(c, c + (if r % 4 == 0 then 1 else 0), r, r + 1, true);
    }
  }

  lemma {:induction false} CounterCountsRuns(s: seq<Frame>, n: nat, prefix: Prefix)
    requires n <= |s| && InRuns(s, prefix)
    ensures RunsBegun(Counter(s, n, prefix), Rank(s, n, prefix))
  {
    for i := 0 to n
      invariant RunsBegun(Counter(s, i, prefix), Rank(s, i, prefix))
    {
      CounterStep(s, i, prefix, Counter(s, i, prefix), Rank(s, i, prefix));
    }
  }

  /** The frame of rank r falls into run r / 4 + 1. */
  lemma {:induction false} RunOfFrame(s: seq<Frame>, i: nat, prefix: Prefix)
    requires i < |s| && InRuns(s, prefix) && Unnumbered(s[i], prefix)
    ensures Assigned(s, i) == Key(prefix, Rank(s, i, prefix) / 4 + 1)
  {
    CounterCountsRuns(s, i + 1, prefix);
    assert Rank(s, i + 1, prefix) == Rank(s, i, prefix) + 1;
  }

  // --------------------------------------------------------------------- one run, one bucket

  /** The unnumbered frames of the prefix among the first n, in order: the frame of rank r is the r-th of them. */
  ghost function Loose(s: seq<Frame>, n: nat, prefix: Prefix): (r: seq<Frame>)
    requires n <= |s|
    ensures |r| == Rank(s, n, prefix)
  {
    if n == 0 then [] else Loose(s, n - 1, prefix) + (if Unnumbered(s[n - 1], prefix) then [s[n - 1]] else [])
  }

  /** The frames of run g among the first n: those of rank 4g - 4 to 4g - 1. */
  ghost function RunFrames(s: seq<Frame>, n: nat, key: Key): seq<Frame>
    requires n <= |s| && key.number >= 1
  {
    Part(Loose(s, n, key.prefix), 4 * key.number - 4, 4 * key.number)
  }

  function Part<T>(s: seq<T>, low: nat, high: nat): (r: seq<T>)
    requires low <= high
  {
    if |s| <= low then [] else if |s| <= high then s[low..] else s[low..high]
  }

  lemma {:induction false} PartGrows<T>(s: seq<T>, x: T, low: nat, high: nat)
    requires low <= high
    ensures Part(s + [x], low, high) == Part(s, low, high) + (if low <= |s| < high then [x] else [])
  {}

  predicate NumberedAs(f: Frame, key: Key) {
    f.Parsed() && f.sequenceNumber == Some(key.number) && PrefixOf(f) == key.prefix
  }

  /** The frames among the first n that carry the number of the key themselves. */
  ghost function NumberedFrames(s: seq<Frame>, n: nat, key: Key): seq<Frame>
    requires n <= |s|
  {
    if n == 0 then [] else NumberedFrames(s, n - 1, key) + (if NumberedAs(s[n - 1], key) then [s[n - 1]] else [])
  }

  /** Frame i is unnumbered and of a rank that belongs to run g. */
  predicate InRun(s: seq<Frame>, i: nat, key: Key)
    requires i < |s|
  {
    Unnumbered(s[i], key.prefix) && 4 * key.number - 4 <= Rank(s, i, key.prefix) < 4 * key.number
  }

  lemma {:induction false} FrameOfRun(s: seq<Frame>, i: nat, key: Key)
    requires i < |s| && InRuns(s, key.prefix) && key.number >= 1
    ensures Assigned(s, i) == key <==> NumberedAs(s[i], key) || InRun(s, i, key)
    ensures !(NumberedAs(s[i], key) && InRun(s, i, key))
  {
    if Unnumbered(s[i], key.prefix) {
      RunOfFrame(s, i, key.prefix);
    }
  }

  lemma {:induction false} RunGrows(s: seq<Frame>, i: nat, key: Key)
    requires i < |s| && key.number >= 1
    ensures RunFrames(s, i + 1, key) == RunFrames(s, i, key) + (if InRun(s, i, key) then [s[i]] else [])
  {
    if Unnumbered(s[i], key.prefix) {
      PartGrows(Loose(s, i, key.prefix), s[i], 4 * key.number - 4, 4 * key.number);
    }
  }

  /** One more frame goes to the bucket when it goes to one of the two parts. */
  lemma {:induction false} BothPartsGrow(bucket: seq<Frame>, run: seq<Frame>, numbered: seq<Frame>, x: Frame,
                                         inRun: bool, isNumbered: bool)
    requires |bucket| == |run| + |numbered| && (numbered == [] ==> bucket == run) && !(inRun && isNumbered)
    ensures var (b, r, n) := (bucket + (if inRun || isNumbered then [x] else []), run + (if inRun then [x] else []),
                              numbered + (if isNumbered then [x] else []));
      |b| == |r| + |n| && (n == [] ==> b == r)
  {}

  /** A bucket holds the frames of its run and the frames that carry its number: as many as both together, and just the
      frames of the run when nothing else carries the number. */
  lemma {:induction false} BucketOfRun(s: seq<Frame>, n: nat, key: Key)
    requires n <= |s| && InRuns(s, key.prefix) && key.number >= 1
    ensures |Bucket(s, n, key)| == |RunFrames(s, n, key)| + |NumberedFrames(s, n, key)|
    ensures NumberedFrames(s, n, key) == [] ==> Bucket(s, n, key) == RunFrames(s, n, key)
  {
    if n > 0 {
      var i := n - 1;
      BucketOfRun(s, i, key);
      FrameOfRun(s, i, key);
      RunGrows(s, i, key);
      BothPartsGrow(Bucket(s, i, key), RunFrames(s, i, key), NumberedFrames(s, i, key), s[i], InRun(s, i, key),
          NumberedAs(s[i], key));
    }
  }

  lemma {:induction false} NumberedIff(s: seq<Frame>, n: nat, key: Key)
    requires n <= |s|
    ensures NumberedFrames(s, n, key) == [] <==> forall i :: 0 <= i < n ==> !NumberedAs(s[i], key)
  {
    if n > 0 {
      NumberedIff(s, n - 1, key);
    }
  }

  /** Some frame carries the number of the key itself. */
  ghost predicate Collides(s: seq<Frame>, key: Key) { exists i :: 0 <= i < |s| && NumberedAs(s[i], key) }

  /** The key belongs to a run of which all four frames are there. */
  ghost predicate IsFullRun(s: seq<Frame>, key: Key) { 1 <= key.number && 4 * key.number <= Rank(s, |s|, key.prefix) }

  lemma {:induction false} SubIndexByRank(s: seq<Frame>, i: nat, prefix: Prefix, r: nat)
    requires i < |s| && InRuns(s, prefix) && Unnumbered(s[i], prefix) && r == Rank(s, i, prefix)
    ensures SubIndex(s[i]) == r % 4 + 1
  {}

  lemma {:induction false} LooseInRuns(s: seq<Frame>, n: nat, prefix: Prefix, r: nat)
    requires n <= |s| && InRuns(s, prefix) && r < |Loose(s, n, prefix)|
    ensures SubIndex(Loose(s, n, prefix)[r]) == r % 4 + 1
  {
    var rest := Loose(s, n - 1, prefix);
    if r < |rest| {
      LooseInRuns(s, n - 1, prefix, r);
    } else {
      SubIndexByRank(s, n - 1, prefix, r);
    }
  }

  predicate OneToFour(items: seq<Frame>) {
    && |items| == 4 && SubIndex(items[0]) == 1 && SubIndex(items[1]) == 2
    && SubIndex(items[2]) == 3 && SubIndex(items[3]) == 4
  }

  lemma {:induction false} FullRunIsPart(s: seq<Frame>, key: Key)
    requires IsFullRun(s, key)
    ensures RunFrames(s, |s|, key) == Loose(s, |s|, key.prefix)[4 * key.number - 4..4 * key.number]
  {}

  lemma {:induction false} ModFour(g: int, d: int)
    requires 0 <= d < 4
    ensures (4 * g - 4 + d) % 4 == d
  {}

  lemma {:induction false} FrameInRun(s: seq<Frame>, key: Key, d: nat)
    requires InRuns(s, key.prefix) && IsFullRun(s, key) && d < 4
    ensures |RunFrames(s, |s|, key)| == 4 && SubIndex(RunFrames(s, |s|, key)[d]) == d + 1
  {
    var loose, low := Loose(s, |s|, key.prefix), 4 * key.number - 4;
    FullRunIsPart(s, key);
    LooseInRuns(s, |s|, key.prefix, low + d);
    ModFour(key.number, d);
    assert loose[low..low + 4][d] == loose[low + d];
  }

  lemma {:induction false} RunIsOneToFour(s: seq<Frame>, key: Key)
    requires InRuns(s, key.prefix) && IsFullRun(s, key)
    ensures OneToFour(RunFrames(s, |s|, key))
  {
    FrameInRun(s, key, 0);
    FrameInRun(s, key, 1);
    FrameInRun(s, key, 2);
    FrameInRun(s, key, 3);
  }

  lemma {:induction false} OneToFourIsSorted(items: seq<Frame>)
    requires OneToFour(items)
    ensures SortBy(items, IndexLe) == items
  {
    SortOfSorted(items, IndexLe);
  }

  lemma {:induction false} OneToFourIsComplete(items: seq<Frame>)
    requires OneToFour(items)
    ensures Complete(items)
  {
    var values := set f | f in items :: SubIndex(f);
    forall v
      ensures v in values <==> v in {1, 2, 3, 4}
    {
      assert items[0] in items && items[1] in items && items[2] in items && items[3] in items;
      if v in values {
        var f :| f in items && SubIndex(f) == v;
        var i :| 0 <= i < 4 && items[i] == f;
      }
    }
  }

  /** The bucket of a full run is exactly the four frames of that run, in order, and complete, exactly when no frame carries
      the number of the run itself: the fallback counter does not look at explicit numbers. */
  lemma {:induction false} RunIsRecoveredIff(s: seq<Frame>, key: Key)
    requires InRuns(s, key.prefix) && IsFullRun(s, key)
    ensures Bucket(s, |s|, key) == Loose(s, |s|, key.prefix)[4 * key.number - 4..4 * key.number] <==> !Collides(s, key)
    ensures Complete(Bucket(s, |s|, key)) <==> !Collides(s, key)
  {
    BucketOfRun(s, |s|, key);
    NumberedIff(s, |s|, key);
    FullRunIsPart(s, key);
    RunIsOneToFour(s, key);
    OneToFourIsComplete(RunFrames(s, |s|, key));
  }

  // ------------------------------------------------------------------------ all groups

  /** All unnumbered frames were taken in full runs of four. */
  ghost predicate AllInRuns(s: seq<Frame>) {
    AllParsed(s) && forall prefix :: InRuns(s, prefix) && Rank(s, |s|, prefix) % 4 == 0
  }

  ghost predicate AllComplete(s: seq<Frame>, keys: seq<Key>)
    requires AllParsed(s)
  {
    forall i :: 0 <= i < |keys| ==> Complete(Bucket(s, |s|, keys[i]))
  }

  lemma {:induction false} OneMoreComplete(s: seq<Frame>, keys: seq<Key>)
    requires AllParsed(s) && keys != []
    ensures AllComplete(s, keys) <==>
      AllComplete(s, keys[..|keys| - 1]) && Complete(Bucket(s, |s|, keys[|keys| - 1]))
  {
    var m := |keys| - 1;
    var rest := keys[..m];
    if AllComplete(s, rest) && Complete(Bucket(s, |s|, keys[m])) {
      forall i | 0 <= i < |keys|
        ensures Complete(Bucket(s, |s|, keys[i]))
      {
        assert i < m ==> keys[i] == rest[i];
      }
    }
    if AllComplete(s, keys) {
      forall i | 0 <= i < |rest|
        ensures Complete(Bucket(s, |s|, rest[i]))
      {
        assert rest[i] == keys[i];
      }
    }
  }

  lemma {:induction false} GroupedIff(s: seq<Frame>, keys: seq<Key>)
    requires AllParsed(s)
    ensures Groups(s, keys).Grouped? <==> AllComplete(s, keys)
  {
    if keys != [] {
      GroupedIff(s, keys[..|keys| - 1]);
      OneMoreComplete(s, keys);
    }
  }

  lemma {:induction false} LastGroup(s: seq<Frame>, keys: seq<Key>)
    requires AllParsed(s) && Groups(s, keys).Grouped? && keys != []
    ensures Groups(s, keys[..|keys| - 1]).Grouped?
    ensures Groups(s, keys).groups == Groups(s, keys[..|keys| - 1]).groups
                                   + [Group(keys[|keys| - 1], SortBy(Bucket(s, |s|, keys[|keys| - 1]), IndexLe))]
  {}

  lemma {:induction false} GroupOfKey(s: seq<Frame>, keys: seq<Key>, i: nat)
    requires AllParsed(s) && Groups(s, keys).Grouped? && i < |keys|
    ensures Group(keys[i], SortBy(Bucket(s, |s|, keys[i]), IndexLe)) in Groups(s, keys).groups
  {
    LastGroup(s, keys);
    if i < |keys| - 1 {
      GroupOfKey(s, keys[..|keys| - 1], i);
    }
  }

  /** A bucket without frames of a run holds the frames that carry its number. */
  lemma {:induction false} BucketOfNumber(s: seq<Frame>, n: nat, key: Key)
    requires n <= |s| && AllParsed(s)
    requires forall i :: 0 <= i < n && Assigned(s, i) == key ==> NumberedAs(s[i], key)
    ensures Bucket(s, n, key) == NumberedFrames(s, n, key)
  {
    if n > 0 {
      BucketOfNumber(s, n - 1, key);
    }
  }

  lemma {:induction false} RanksRise(s: seq<Frame>, m: nat, n: nat, prefix: Prefix)
    requires m <= n <= |s|
    ensures Rank(s, m, prefix) <= Rank(s, n, prefix)
  {
    if m < n {
      RanksRise(s, m, n - 1, prefix);
    }
  }

  /** A frame is numbered itself, or the key it is assigned belongs to a full run. */
  lemma {:induction false} FrameIsNumberedOrInRun(s: seq<Frame>, i: nat)
    requires AllInRuns(s) && i < |s|
    ensures NumberedAs(s[i], Assigned(s, i)) || IsFullRun(s, Assigned(s, i))
  {
    if s[i].sequenceNumber.None? {
      var prefix := PrefixOf(s[i]);
      assert InRuns(s, prefix) && Rank(s, |s|, prefix) % 4 == 0;
      RunOfFrame(s, i, prefix);
      RanksRise(s, i + 1, |s|, prefix);
      FullRun(Rank(s, i, prefix), Rank(s, |s|, prefix));
    }
  }

  lemma {:induction false} FullRun(r: int, total: int)
    requires 0 <= r < total && total % 4 == 0
    ensures 4 * (r / 4 + 1) <= total
  {}

  /** Every number a frame carries belongs to four frames that carry it, with sub-indices 1 to 4. */
  ghost predicate NumbersComplete(s: seq<Frame>) {
    forall key :: Collides(s, key) ==> Complete(NumberedFrames(s, |s|, key))
  }

  ghost predicate RunsAreFree(s: seq<Frame>) { forall key :: IsFullRun(s, key) ==> !Collides(s, key) }

  lemma {:induction false} CollisionIsKey(s: seq<Frame>, keys: seq<Key>, key: Key)
    requires AllParsed(s) && SortedKeys(s, keys) && Collides(s, key)
    ensures key in keys
  {
    var i :| 0 <= i < |s| && NumberedAs(s[i], key);
    assert Assigned(s, i) == key;
  }

  /** Outside the runs a bucket holds just the frames that carry its number. */
  lemma {:induction false} BucketOutsideRuns(s: seq<Frame>, key: Key)
    requires AllInRuns(s) && !IsFullRun(s, key)
    ensures Bucket(s, |s|, key) == NumberedFrames(s, |s|, key)
  {
    forall i | 0 <= i < |s| && Assigned(s, i) == key
      ensures NumberedAs(s[i], key)
    {
      FrameIsNumberedOrInRun(s, i);
    }
    BucketOfNumber(s, |s|, key);
  }

  lemma {:induction false} CompleteWhenFree(s: seq<Frame>, keys: seq<Key>, key: Key)
    requires AllInRuns(s) && SortedKeys(s, keys) && key in keys && RunsAreFree(s) && NumbersComplete(s)
    ensures Complete(Bucket(s, |s|, key))
  {
    if IsFullRun(s, key) {
      RunIsRecoveredIff(s, key);
    } else {
      BucketOutsideRuns(s, key);
      var i :| 0 <= i < |s| && Assigned(s, i) == key;
      FrameIsNumberedOrInRun(s, i);
    }
  }

  lemma {:induction false} FreeWhenComplete(s: seq<Frame>, key: Key)
    requires AllInRuns(s) && Collides(s, key) && Complete(Bucket(s, |s|, key))
    ensures !IsFullRun(s, key) && Complete(NumberedFrames(s, |s|, key))
  {
    if IsFullRun(s, key) {
      RunIsRecoveredIff(s, key);
    }
    BucketOutsideRuns(s, key);
  }

  /** When all unnumbered frames were taken in full runs, grouping succeeds exactly when no frame carries the number of one
      of these runs and the numbered frames are complete among themselves. */
  lemma {:induction false} GroupingSucceedsIff(s: seq<Frame>, keys: seq<Key>)
    requires AllInRuns(s) && SortedKeys(s, keys)
    ensures Groups(s, keys).Grouped? <==> RunsAreFree(s) && NumbersComplete(s)
  {
    GroupedIff(s, keys);
    if Groups(s, keys).Grouped? {
      forall key | Collides(s, key)
        ensures !IsFullRun(s, key) && Complete(NumberedFrames(s, |s|, key))
      {
        CollisionIsKey(s, keys, key);
        var i :| 0 <= i < |keys| && keys[i] == key;
        FreeWhenComplete(s, key);
      }
    } else if RunsAreFree(s) && NumbersComplete(s) {
      forall i | 0 <= i < |keys|
        ensures Complete(Bucket(s, |s|, keys[i]))
      {
        CompleteWhenFree(s, keys, keys[i]);
      }
    }
  }

  lemma {:induction false} RunIsKey(s: seq<Frame>, keys: seq<Key>, key: Key)
    requires AllInRuns(s) && SortedKeys(s, keys) && Bucket(s, |s|, key) != []
    ensures key in keys
  {
    if key !in keys {
      EmptyBucket(s, |s|, key);
    }
  }

  /** Then every run is one group: the frames of rank 4g - 4 to 4g - 1, in the order in which they were taken. */
  lemma {:induction false} RunsBecomeGroups(s: seq<Frame>, keys: seq<Key>, key: Key)
    requires AllInRuns(s) && SortedKeys(s, keys) && Groups(s, keys).Grouped? && IsFullRun(s, key)
    ensures key in keys
    ensures Group(key, Loose(s, |s|, key.prefix)[4 * key.number - 4..4 * key.number]) in Groups(s, keys).groups
  {
    GroupingSucceedsIff(s, keys);
    RunIsRecoveredIff(s, key);
    FullRunIsPart(s, key);
    RunIsOneToFour(s, key);
    OneToFourIsSorted(RunFrames(s, |s|, key));
    RunIsKey(s, keys, key);
    var i :| 0 <= i < |keys| && keys[i] == key;
    GroupOfKey(s, keys, i);
  }

  /** In particular runs without any numbered frame are always recovered, one group for each run. */
  lemma {:induction false} UnnumberedRunsAreRecovered(s: seq<Frame>, keys: seq<Key>)
    requires AllInRuns(s) && SortedKeys(s, keys) && forall i :: 0 <= i < |s| ==> s[i].sequenceNumber.None?
    ensures Groups(s, keys).Grouped?
    ensures forall key :: key in keys <==> IsFullRun(s, key)
    ensures forall key :: IsFullRun(s, key) ==>
      Group(key, Loose(s, |s|, key.prefix)[4 * key.number - 4..4 * key.number]) in Groups(s, keys).groups
  {
    GroupingSucceedsIff(s, keys);
    forall key
      ensures key in keys <==> IsFullRun(s, key)
      ensures IsFullRun(s, key) ==>
        Group(key, Loose(s, |s|, key.prefix)[4 * key.number - 4..4 * key.number]) in Groups(s, keys).groups
    {
      if key in keys {
        var i :| 0 <= i < |s| && Assigned(s, i) == key;
        FrameIsNumberedOrInRun(s, i);
      }
      if IsFullRun(s, key) {
        RunsBecomeGroups(s, keys, key);
      }
    }
  }

  // --------------------------------------------------------------------- a collision

  const PREFIX: Prefix := Prefix("n", "t", "Q")

  const FIRST: Key := Key(PREFIX, 1)

  function Exposed(time: char, subIndex: int, number: Option<int>): Frame {
    Frame(true, [time], Some([time]), true, Some("Q"), Some(subIndex), number, "n", "t")
  }

  /** One unnumbered run, and a later frame that carries the number 1 itself. */
  const COLLISION: seq<Frame> :=
    [Exposed('1', 1, None), Exposed('2', 2, None), Exposed('3', 3, None), Exposed('4', 4, None), Exposed('5', 1, Some(1))]

  lemma {:induction false} CollisionRanks()
    ensures forall i :: 0 <= i < 5 ==> Rank(COLLISION, i, PREFIX) == i
    ensures Rank(COLLISION, 5, PREFIX) == 4
  {
    assert Rank(COLLISION, 1, PREFIX) == 1;
    assert Rank(COLLISION, 2, PREFIX) == 2;
    assert Rank(COLLISION, 3, PREFIX) == 3;
    assert Rank(COLLISION, 4, PREFIX) == 4;
  }

  lemma {:induction false} CollisionKeys()
    ensures InRuns(COLLISION, PREFIX) && IsFullRun(COLLISION, FIRST) && Collides(COLLISION, FIRST)
    ensures Keys(COLLISION, 5) == {FIRST}
  {
    CollisionRanks();
    assert NumberedAs(COLLISION[4], FIRST);
    forall i | 0 <= i < 5
      ensures Assigned(COLLISION, i) == FIRST
    {
      FrameOfRun(COLLISION, i, FIRST);
    }
    assert Assigned(COLLISION, 0) in Keys(COLLISION, 5);
  }

  lemma {:induction false} InTime(a: char, b: char, i: int, j: int, m: Option<int>, n: Option<int>)
    requires a < b
    ensures FrameLe(Exposed(a, i, m), Exposed(b, j, n))
  {
    assert [a] != [b] && StringLe([a], [b]);
  }

  lemma {:induction false} CollisionIsInOrder(i: nat, j: nat)
    requires i < j < 5
    ensures FrameLe(COLLISION[i], COLLISION[j])
  {
    var a, b := COLLISION[i], COLLISION[j];
    InTime(a.path[0], b.path[0], SubIndex(a), SubIndex(b), a.sequenceNumber, b.sequenceNumber);
  }

  lemma {:induction false} SortedScience(frames: seq<Frame>)
    requires SortedBy(frames, FrameLe) && forall i :: 0 <= i < |frames| ==> frames[i].science
    ensures Chronological(frames) == frames
  {
    SortOfSorted(frames, FrameLe);
    AllScience(frames);
  }

  lemma {:induction false} CollisionIsChronological()
    ensures Chronological(COLLISION) == COLLISION
  {
    forall i, j | 0 <= i < j < 5
      ensures FrameLe(COLLISION[i], COLLISION[j])
    {
      CollisionIsInOrder(i, j);
    }
    SortedScience(COLLISION);
  }

  lemma {:induction false} AllScience(frames: seq<Frame>)
    requires forall i :: 0 <= i < |frames| ==> frames[i].science
    ensures Science(frames) == frames
  {
    if frames != [] {
      AllScience(frames[1..]);
      assert frames == [frames[0]] + frames[1..];
    }
  }

  lemma {:induction false} OneKeyRefused(s: seq<Frame>, key: Key)
    requires AllParsed(s) && Keys(s, |s|) == {key} && !Complete(Bucket(s, |s|, key))
    ensures SortedKeys(s, [key]) && Groups(s, [key]) == Refused(Incomplete(key))
  {
    assert [key][..0] == [];
    assert Groups(s, [key][..0]) == Grouped([]);
  }

  /** The numbered frame joins the complete run, and the whole list is refused. */
  lemma {:induction false} CollisionIsRefused()
    ensures InRuns(COLLISION, PREFIX) && Rank(COLLISION, |COLLISION|, PREFIX) == 4
    ensures IsOutcome(COLLISION, Refused(Incomplete(FIRST)))
  {
    CollisionRanks();
    CollisionKeys();
    CollisionIsChronological();
    RunIsRecoveredIff(COLLISION, FIRST);
    OneKeyRefused(COLLISION, FIRST);
  }
}
