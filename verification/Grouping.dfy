/** Grouping science frames into modulation groups of four. */
module Grouping {
  import opened Numeric
  import opened Sorting

  type Stokes = string

  /** What the grouping reads of a raw frame. */
  datatype Frame = Frame(science: bool, path: string, observedAt: Option<string>, hasMode: bool, stokes: Option<Stokes>,
                         subIndex: Option<int>, sequenceNumber: Option<int>, night: string, target: string) {
    predicate Parsed() { hasMode && stokes.Some? && subIndex.Some? }
  }

  datatype Prefix = Prefix(night: string, target: string, stokes: Stokes)

  datatype Key = Key(prefix: Prefix, number: int)

  function PrefixOf(f: Frame): Prefix
    requires f.stokes.Some?
  {
    Prefix(f.night, f.target, f.stokes.value)
  }

  // ------------------------------------------------------------------------- orders

  function SortKey(f: Frame): (string, string) { (if f.observedAt.Some? then f.observedAt.value else "", f.path) }

  predicate PairLe(p: (string, string), q: (string, string)) { Lex(StringLe, StringLe, p, q) }

  /** Chronological order, ties broken by path. */
  predicate FrameLe(a: Frame, b: Frame) { PairLe(SortKey(a), SortKey(b)) }

  predicate NumberedLe(p: (string, int), q: (string, int)) { Lex(StringLe, IntLe, p, q) }

  predicate StokesLe(p: (string, (string, int)), q: (string, (string, int))) { Lex(StringLe, NumberedLe, p, q) }

  predicate TupleLe(p: (string, (string, (string, int))), q: (string, (string, (string, int)))) { Lex(StringLe,
                    StokesLe, p, q) }

  function KeyTuple(k: Key): (string, (string, (string, int))) { (k.prefix.night, (k.prefix.target, (k.prefix.stokes,
                    k.number))) }

  predicate KeyLe(a: Key, b: Key) { TupleLe(KeyTuple(a), KeyTuple(b)) }

  lemma {:induction false} PairOrder()
    ensures TotalOrder(PairLe) && Antisymmetric(PairLe)
  {
    StringOrder();
  }

  lemma {:induction false} FrameOrder()
    ensures TotalOrder(FrameLe)
    ensures forall a, b :: FrameLe(a, b) && FrameLe(b, a) ==> a.path == b.path
  {
    PairOrder();
  }

  lemma {:induction false} KeyOrder()
    ensures TotalOrder(KeyLe) && Antisymmetric(KeyLe)
  {
    StringOrder();
  }

  predicate IndexLe(a: Frame, b: Frame) { SubIndex(a) <= SubIndex(b) }

  function SubIndex(f: Frame): int { if f.subIndex.Some? then f.subIndex.value else 0 }

  // ---------------------------------------------------------------- sequence numbers

  predicate Opens(f: Frame, prefix: Prefix) {
    f.Parsed() && f.sequenceNumber.None? && f.subIndex.value == 1 && PrefixOf(f) == prefix
  }

  /** How many unnumbered frames of the prefix with sub-index 1 are among the first n. */
  function Counter(s: seq<Frame>, n: nat, prefix: Prefix): nat
    requires n <= |s|
  {
    if n == 0 then 0 else Counter(s, n - 1, prefix) + (if Opens(s[n - 1], prefix) then 1 else 0)
  }

  /** The key of frame i: its own number, or the number of the run it falls into. */
  function Assigned(s: seq<Frame>, i: nat): Key
    requires i < |s| && s[i].Parsed()
  {
    Key(PrefixOf(s[i]), if s[i].sequenceNumber.Some? then s[i].sequenceNumber.value else Counter(s, i + 1, PrefixOf(s[i])))
  }

  ghost predicate AllParsed(s: seq<Frame>) { forall i :: 0 <= i < |s| ==> s[i].Parsed() }

  /** The frames among the first n that are assigned the key, in order. */
  ghost function Bucket(s: seq<Frame>, n: nat, key: Key): seq<Frame>
    requires n <= |s| && AllParsed(s)
  {
    if n == 0 then [] else Bucket(s, n - 1, key) + (if Assigned(s, n - 1) == key then [s[n - 1]] else [])
  }

  /** The keys of the first n frames. */
  ghost function Keys(s: seq<Frame>, n: nat): set<Key>
    requires n <= |s| && AllParsed(s)
  {
    set i | 0 <= i < n :: Assigned(s, i)
  }

  predicate Complete(items: seq<Frame>) {
    |items| == 4 && (set f | f in items :: SubIndex(f)) == {1, 2, 3, 4}
  }

  datatype Group = Group(key: Key, items: seq<Frame>)

  datatype GroupError = NoSequence(path: string) | Incomplete(key: Key)

  datatype Outcome = Grouped(groups: seq<Group>) | Refused(error: GroupError)

  // --------------------------------------------------------------------- computation

  function Science(frames: seq<Frame>): seq<Frame> {
    if frames == [] then [] else (if frames[0].science then [frames[0]] else []) + Science(frames[1..])
  }

  function Chronological(frames: seq<Frame>): seq<Frame> { SortBy(Science(frames), FrameLe) }

  function CountOf(counters: map<Prefix, nat>, p: Prefix): nat { if p in counters then counters[p] else 0 }

  ghost predicate CountersFit(counters: map<Prefix, nat>, s: seq<Frame>, n: nat)
    requires n <= |s|
  {
    forall p: Prefix :: CountOf(counters, p) == Counter(s, n, p)
  }

  /** The counters after the frame, and the number of the frame. */
  method NumberOf(item: Frame, counters: map<Prefix, nat>, ghost s: seq<Frame>, ghost i: nat)
    returns (after: map<Prefix, nat>, number: int)
    requires i < |s| && s[i] == item && item.Parsed() && CountersFit(counters, s, i)
    ensures CountersFit(after, s, i + 1)
    ensures number == Assigned(s, i).number
  {
    var prefix := PrefixOf(item);
    after := counters;
    if item.sequenceNumber.None? {
      if item.subIndex.value == 1 {
        after := counters[prefix := CountOf(counters, prefix) + 1];
      }
    }
    forall p: Prefix
      ensures CountOf(after, p) == Counter(s, i + 1, p)
    {
      assert CountOf(counters, p) == Counter(s, i, p);
    }
    number := if item.sequenceNumber.None? then CountOf(after, prefix) else item.sequenceNumber.value;
  }

  method AddTo(item: Frame, key: Key, keys: seq<Key>, buckets: map<Key, seq<Frame>>)
    returns (keys': seq<Key>, buckets': map<Key, seq<Frame>>)
    ensures buckets' == buckets[key := (if key in buckets then buckets[key] else []) + [item]]
    ensures keys' == if key in buckets then keys else keys + [key]
  {
    keys' := keys;
    var bucket := [];
    if key in buckets {
      bucket := buckets[key];
    } else {
      keys' := keys + [key];
    }
    buckets' := buckets[key := bucket + [item]];
  }

  /** One pass over the frames fills the buckets in the order in which their keys appear. */
  method FillBuckets(s: seq<Frame>) returns (failed: Option<GroupError>, keys: seq<Key>, buckets: map<Key, seq<Frame>>)
    ensures failed.Some? <==> !AllParsed(s)
    ensures failed.Some? ==> FirstUnparsed(s, failed.value)
    ensures AllParsed(s) ==> IsFilled(s, keys, buckets)
  {
    keys, buckets := [], map[];
    var counters: map<Prefix, nat> := map[];
    for i := 0 to |s|
      invariant AllParsed(s[..i]) && CountersFit(counters, s, i) && IsFilled(s[..i], keys, buckets)
    {
      if !s[i].Parsed() {
        return Some(NoSequence(s[i].path)), keys, buckets;
      }
      var number;
      counters, number := NumberOf(s[i], counters, s, i);
      var key := Key(PrefixOf(s[i]), number);
      ghost var keys0, before := keys, buckets;
      keys, buckets := AddTo(s[i], key, keys, buckets);
      AssignedOfPrefix(s, i + 1, i);
      FilledStep(s, i, keys0, before, key, keys, buckets);
    }
    assert s[..|s|] == s;
    failed := None;
  }

  /** The error names the first frame that lacks a sequence. */
  ghost predicate FirstUnparsed(s: seq<Frame>, error: GroupError) {
    exists i :: 0 <= i < |s| && AllParsed(s[..i]) && !s[i].Parsed() && error == NoSequence(s[i].path)
  }

  ghost predicate IsFilled(s: seq<Frame>, keys: seq<Key>, buckets: map<Key, seq<Frame>>)
    requires AllParsed(s)
  {
    && buckets.Keys == Keys(s, |s|)
    && (forall k :: k in buckets ==> buckets[k] == Bucket(s, |s|, k))
    && (forall k :: k in keys <==> k in buckets)
    && Distinct(keys)
  }

  lemma {:induction false} CounterOfPrefix(s: seq<Frame>, m: nat, n: nat, prefix: Prefix)
    requires n <= m <= |s|
    ensures Counter(s[..m], n, prefix) == Counter(s, n, prefix)
  {
    if n > 0 {
      CounterOfPrefix(s, m, n - 1, prefix);
    }
  }

  lemma {:induction false} AssignedOfPrefix(s: seq<Frame>, m: nat, i: nat)
    requires i < m <= |s| && s[i].Parsed()
    ensures Assigned(s[..m], i) == Assigned(s, i)
  {
    CounterOfPrefix(s, m, i + 1, PrefixOf(s[i]));
  }

  lemma {:induction false} BucketOfPrefix(s: seq<Frame>, m: nat, n: nat, key: Key)
    requires n <= m <= |s| && AllParsed(s)
    ensures Bucket(s[..m], n, key) == Bucket(s, n, key)
  {
    if n > 0 {
      BucketOfPrefix(s, m, n - 1, key);
      AssignedOfPrefix(s, m, n - 1);
    }
  }

  lemma {:induction false} KeysStep(s: seq<Frame>, i: nat)
    requires i < |s| && AllParsed(s[..i + 1]) && AllParsed(s[..i])
    ensures Keys(s[..i + 1], i + 1) == Keys(s[..i], i) + {Assigned(s[..i + 1], i)}
  {
    var longer := s[..i + 1];
    assert longer[..i] == s[..i];
    forall j | 0 <= j < i
      ensures Assigned(longer, j) == Assigned(s[..i], j)
    {
      AssignedOfPrefix(longer, i, j);
    }
  }

  lemma {:induction false} BucketStep(s: seq<Frame>, i: nat, key: Key)
    requires i < |s| && AllParsed(s[..i + 1]) && AllParsed(s[..i])
    ensures Bucket(s[..i + 1], i + 1, key)
         == Bucket(s[..i], i, key) + (if Assigned(s[..i + 1], i) == key then [s[i]] else [])
  {
    assert s[..i + 1][..i] == s[..i];
    BucketOfPrefix(s[..i + 1], i, i, key);
  }

  lemma {:induction false} OneMoreParsed(s: seq<Frame>, i: nat)
    requires i < |s| && AllParsed(s[..i]) && s[i].Parsed()
    ensures AllParsed(s[..i + 1])
  {
    var longer := s[..i + 1];
    forall k | 0 <= k < |longer|
      ensures longer[k].Parsed()
    {
      assert k < i ==> longer[k] == s[..i][k];
    }
  }

  lemma {:induction false} FilledStep(s: seq<Frame>, i: nat, keys0: seq<Key>, before: map<Key, seq<Frame>>, key: Key,
                                      keys: seq<Key>, buckets: map<Key, seq<Frame>>)
    requires i < |s| && AllParsed(s[..i]) && s[i].Parsed() && IsFilled(s[..i], keys0, before)
    requires key == Assigned(s[..i + 1], i)
    requires buckets == before[key := (if key in before then before[key] else []) + [s[i]]]
    requires keys == if key in before then keys0 else keys0 + [key]
    ensures AllParsed(s[..i + 1]) && IsFilled(s[..i + 1], keys, buckets)
  {
    OneMoreParsed(s, i);
    KeysStep(s, i);
    BucketsStep(s, i, before, key, buckets);
    KeysAreBuckets(keys0, before, key, keys, buckets.Keys);
    assert buckets.Keys == before.Keys + {key};
  }

  lemma {:induction false} KeysAreBuckets(keys0: seq<Key>, before: map<Key, seq<Frame>>, key: Key, keys: seq<Key>,
                                          domain: set<Key>)
    requires Distinct(keys0) && (forall k :: k in keys0 <==> k in before) && domain == before.Keys + {key}
    requires keys == if key in before then keys0 else keys0 + [key]
    ensures Distinct(keys) && forall k :: k in keys <==> k in domain
  {
    NewKey(keys0, before, key);
  }

  lemma {:induction false} BucketsStep(s: seq<Frame>, i: nat, before: map<Key, seq<Frame>>, key: Key,
                                       buckets: map<Key, seq<Frame>>)
    requires i < |s| && AllParsed(s[..i]) && AllParsed(s[..i + 1]) && key == Assigned(s[..i + 1], i)
    requires before.Keys == Keys(s[..i], i) && forall k :: k in before ==> before[k] == Bucket(s[..i], i, k)
    requires buckets == before[key := (if key in before then before[key] else []) + [s[i]]]
    ensures forall k :: k in buckets ==> buckets[k] == Bucket(s[..i + 1], i + 1, k)
  {
    forall k | k in buckets
      ensures buckets[k] == Bucket(s[..i + 1], i + 1, k)
    {
      BucketStep(s, i, k);
      if k == key && key !in before {
        EmptyBucket(s[..i], i, key);
      }
    }
  }

  lemma {:induction false} NewKey(keys: seq<Key>, buckets: map<Key, seq<Frame>>, key: Key)
    requires Distinct(keys) && forall k :: k in keys <==> k in buckets
    ensures key !in buckets ==> Distinct(keys + [key])
  {}

  lemma {:induction false} EmptyBucket(s: seq<Frame>, n: nat, key: Key)
    requires n <= |s| && AllParsed(s) && key !in Keys(s, n)
    ensures Bucket(s, n, key) == []
  {
    if n > 0 {
      assert Assigned(s, n - 1) in Keys(s, n);
      assert Keys(s, n - 1) <= Keys(s, n);
      EmptyBucket(s, n - 1, key);
    }
  }

  /** The groups of the keys, in the order of the keys; refused at the first incomplete one. */
  ghost function Groups(s: seq<Frame>, keys: seq<Key>): Outcome
    requires AllParsed(s)
  {
    if keys == [] then Grouped([])
    else
      var before := Groups(s, keys[..|keys| - 1]);
      var key := keys[|keys| - 1];
      if before.Refused? then before
      else if !Complete(Bucket(s, |s|, key)) then Refused(Incomplete(key))
      else Grouped(before.groups + [Group(key, SortBy(Bucket(s, |s|, key), IndexLe))])
  }

  /** Checks and orders the buckets in the order of their keys. */
  method BuildGroups(s: seq<Frame>, sorted: seq<Key>, buckets: map<Key, seq<Frame>>) returns (r: Outcome)
    requires AllParsed(s) && forall k :: k in sorted ==> k in buckets && buckets[k] == Bucket(s, |s|, k)
    ensures r == Groups(s, sorted)
  {
    var groups := [];
    for i := 0 to |sorted|
      invariant Groups(s, sorted[..i]) == Grouped(groups)
    {
      var key := sorted[i];
      var items := buckets[key];
      assert sorted[..i + 1][..i] == sorted[..i];
      if !Complete(items) {
        RefusalStays(s, sorted, i + 1);
        return Refused(Incomplete(key));
      }
      groups := groups + [Group(key, SortBy(items, IndexLe))];
    }
    assert sorted[..|sorted|] == sorted;
    r := Grouped(groups);
  }

  /** What the grouping of the frames gives: the groups of their keys, or the name of the first frame without a sequence. */
  ghost predicate IsOutcome(frames: seq<Frame>, r: Outcome) {
    var s := Chronological(frames);
    if AllParsed(s) then exists keys :: SortedKeys(s, keys) && r == Groups(s, keys)
    else r.Refused? && FirstUnparsed(s, r.error)
  }

  method GroupScience(frames: seq<Frame>) returns (r: Outcome)
    ensures IsOutcome(frames, r)
  {
    var s := Chronological(frames);
    var failed, unsorted, buckets := FillBuckets(s);
    if failed.Some? {
      r := Refused(failed.value);
      return;
    }
    var sorted := SortBy(unsorted, KeyLe);
    KeysAreSorted(s, unsorted, sorted, buckets);
    r := BuildGroups(s, sorted, buckets);
  }

  lemma {:induction false} KeysAreSorted(s: seq<Frame>, unsorted: seq<Key>, sorted: seq<Key>, buckets: map<Key, seq<Frame>>)
    requires AllParsed(s) && IsFilled(s, unsorted, buckets) && sorted == SortBy(unsorted, KeyLe)
    ensures SortedKeys(s, sorted) && forall k :: k in sorted <==> k in buckets
  {
    KeyOrder();
    SortIsSorted(unsorted, KeyLe);
    SortedAreDistinct(unsorted, sorted);
    SameMembers(unsorted, sorted);
  }

  /** The keys of the frames, once each and in order. */
  ghost predicate SortedKeys(s: seq<Frame>, keys: seq<Key>)
    requires AllParsed(s)
  {
    SortedBy(keys, KeyLe) && Distinct(keys) && forall k :: k in keys <==> k in Keys(s, |s|)
  }

  lemma {:induction false} RefusalStays(s: seq<Frame>, keys: seq<Key>, n: nat)
    requires AllParsed(s) && n <= |keys| && Groups(s, keys[..n]).Refused?
    ensures Groups(s, keys) == Groups(s, keys[..n])
    decreases |keys|
  {
    if n < |keys| {
      assert keys[..|keys| - 1][..n] == keys[..n];
      RefusalStays(s, keys[..|keys| - 1], n);
    } else {
      assert keys[..n] == keys;
    }
  }

  lemma {:induction false} DistinctByCount(keys: seq<Key>)
    ensures Distinct(keys) <==> forall k :: multiset(keys)[k] <= 1
  {
    if keys != [] {
      var n := |keys| - 1;
      DistinctByCount(keys[..n]);
      assert keys == keys[..n] + [keys[n]];
      assert forall k :: multiset(keys)[k] == multiset(keys[..n])[k] + (if k == keys[n] then 1 else 0);
      if Distinct(keys[..n]) && multiset(keys[..n])[keys[n]] == 0 {
        assert keys[n] !in keys[..n];
      }
      if !Distinct(keys[..n]) {
        var i, j :| 0 <= i < j < n && keys[..n][i] == keys[..n][j];
        assert keys[i] == keys[j];
      }
      if keys[n] in multiset(keys[..n]) {
        var i :| 0 <= i < n && keys[..n][i] == keys[n];
        assert keys[i] == keys[n];
      }
    }
  }

  lemma {:induction false} SortedAreDistinct(keys: seq<Key>, sorted: seq<Key>)
    requires Distinct(keys) && multiset(sorted) == multiset(keys)
    ensures Distinct(sorted)
  {
    DistinctByCount(keys);
    DistinctByCount(sorted);
  }

  // ---------------------------------------------------------------------- the partition

  /** All frames of the groups. */
  ghost function Members(groups: seq<Group>): multiset<Frame> {
    if groups == [] then multiset{} else Members(groups[..|groups| - 1]) + multiset(groups[|groups| - 1].items)
  }

  /** Sub-indices 1 to 4 in order, all with the key of the group. */
  ghost predicate WellFormed(g: Group) {
    |g.items| == 4 && forall i :: 0 <= i < 4 ==> g.items[i].subIndex == Some(i + 1) && Belongs(g.items[i], g.key)
  }

  ghost predicate Belongs(f: Frame, key: Key) {
    f.Parsed() && PrefixOf(f) == key.prefix && (f.sequenceNumber.Some? ==> f.sequenceNumber.value == key.number)
  }

  ghost function BucketTotal(s: seq<Frame>, n: nat, keys: seq<Key>): multiset<Frame>
    requires n <= |s| && AllParsed(s)
  {
    if keys == [] then multiset{}
    else BucketTotal(s, n, keys[..|keys| - 1]) + multiset(Bucket(s, n, keys[|keys| - 1]))
  }

  /** The n-th frame, if it is assigned the key. */
  ghost function Share(s: seq<Frame>, n: nat, key: Key): multiset<Frame>
    requires 0 < n <= |s| && AllParsed(s)
  {
    if Assigned(s, n - 1) == key then multiset{s[n - 1]} else multiset{}
  }

  lemma {:induction false} BucketShare(s: seq<Frame>, n: nat, key: Key)
    requires 0 < n <= |s| && AllParsed(s)
    ensures multiset(Bucket(s, n, key)) == multiset(Bucket(s, n - 1, key)) + Share(s, n, key)
  {}

  /** The n-th frame, if one of the keys is its own. */
  ghost function ShareOf(s: seq<Frame>, n: nat, keys: seq<Key>): multiset<Frame>
    requires 0 < n <= |s| && AllParsed(s)
  {
    if Assigned(s, n - 1) in keys then multiset{s[n - 1]} else multiset{}
  }

  lemma {:induction false} ShareOfOneMore(s: seq<Frame>, n: nat, keys: seq<Key>)
    requires 0 < n <= |s| && AllParsed(s) && Distinct(keys) && keys != []
    ensures ShareOf(s, n, keys) == ShareOf(s, n, keys[..|keys| - 1]) + Share(s, n, keys[|keys| - 1])
  {
    var m := |keys| - 1;
    assert keys == keys[..m] + [keys[m]];
    assert keys[m] !in keys[..m];
  }

  lemma {:induction false} RegroupedSum(a: multiset<Frame>, b: multiset<Frame>, c: multiset<Frame>, d: multiset<Frame>)
    ensures (a + b) + (c + d) == (a + c) + (b + d)
  {}

  lemma {:induction false} BucketTotalStep(s: seq<Frame>, n: nat, keys: seq<Key>)
    requires 0 < n <= |s| && AllParsed(s) && Distinct(keys)
    ensures BucketTotal(s, n, keys) == BucketTotal(s, n - 1, keys) + ShareOf(s, n, keys)
  {
    if keys != [] {
      var m := |keys| - 1;
      var rest, last := keys[..m], keys[m];
      BucketTotalStep(s, n, rest);
      BucketShare(s, n, last);
      ShareOfOneMore(s, n, keys);
      RegroupedSum(BucketTotal(s, n - 1, rest), ShareOf(s, n, rest), multiset(Bucket(s, n - 1, last)), Share(s, n, last));
    }
  }

  lemma {:induction false} EmptyTotal(s: seq<Frame>, keys: seq<Key>)
    requires AllParsed(s)
    ensures BucketTotal(s, 0, keys) == multiset{}
  {
    if keys != [] {
      EmptyTotal(s, keys[..|keys| - 1]);
    }
  }

  /** Over all keys, the buckets hold every frame exactly once. */
  lemma {:induction false} BucketsHoldAll(s: seq<Frame>, n: nat, keys: seq<Key>)
    requires n <= |s| && AllParsed(s) && Distinct(keys) && forall i :: 0 <= i < n ==> Assigned(s, i) in keys
    ensures BucketTotal(s, n, keys) == multiset(s[..n])
  {
    if n == 0 {
      EmptyTotal(s, keys);
    } else {
      BucketsHoldAll(s, n - 1, keys);
      BucketTotalStep(s, n, keys);
      PrefixMembers(s, n);
      assert ShareOf(s, n, keys) == multiset{s[n - 1]};
    }
  }

  lemma {:induction false} PrefixMembers(s: seq<Frame>, n: nat)
    requires 0 < n <= |s|
    ensures multiset(s[..n]) == multiset(s[..n - 1]) + multiset{s[n - 1]}
  {
    assert s[..n] == s[..n - 1] + [s[n - 1]];
  }

  lemma {:induction false} MembersAreBuckets(s: seq<Frame>, keys: seq<Key>)
    requires AllParsed(s) && Groups(s, keys).Grouped?
    ensures Members(Groups(s, keys).groups) == BucketTotal(s, |s|, keys)
  {
    if keys != [] {
      var m := |keys| - 1;
      MembersAreBuckets(s, keys[..m]);
      var bucket := Bucket(s, |s|, keys[m]);
    }
  }

  ghost predicate HaveKeys(groups: seq<Group>, keys: seq<Key>) {
    |groups| == |keys| && forall i :: 0 <= i < |keys| ==> groups[i].key == keys[i]
  }

  lemma {:induction false} MoreKeys(groups: seq<Group>, keys: seq<Key>, g: Group)
    requires keys != [] && HaveKeys(groups, keys[..|keys| - 1]) && g.key == keys[|keys| - 1]
    ensures HaveKeys(groups + [g], keys)
  {}

  lemma {:induction false} GroupKeys(s: seq<Frame>, keys: seq<Key>)
    requires AllParsed(s) && Groups(s, keys).Grouped?
    ensures HaveKeys(Groups(s, keys).groups, keys)
  {
    if keys != [] {
      var m := |keys| - 1;
      GroupKeys(s, keys[..m]);
      MoreKeys(Groups(s, keys[..m]).groups, keys, Group(keys[m], SortBy(Bucket(s, |s|, keys[m]), IndexLe)));
    }
  }

  /** The grouping of a sorted list is a partition into well-formed groups with distinct ordered keys. */
  lemma {:induction false} GroupsPartition(s: seq<Frame>, keys: seq<Key>)
    requires AllParsed(s) && SortedKeys(s, keys) && Groups(s, keys).Grouped?
    ensures Members(Groups(s, keys).groups) == multiset(s)
    ensures forall g :: g in Groups(s, keys).groups ==> WellFormed(g)
    ensures HaveKeys(Groups(s, keys).groups, keys)
  {
    MembersAreBuckets(s, keys);
    GroupKeys(s, keys);
    forall i | 0 <= i < |s|
      ensures Assigned(s, i) in keys
    {
      assert Assigned(s, i) in Keys(s, |s|);
    }
    BucketsHoldAll(s, |s|, keys);
    assert s[..|s|] == s;
    GroupsAreWellFormed(s, keys);
  }

  lemma {:induction false} BucketMembers(s: seq<Frame>, n: nat, key: Key, f: Frame)
    requires n <= |s| && AllParsed(s) && f in Bucket(s, n, key)
    ensures Belongs(f, key)
  {
    if n > 0 && f in Bucket(s, n - 1, key) {
      BucketMembers(s, n - 1, key, f);
    }
  }

  lemma {:induction false} GroupsAreWellFormed(s: seq<Frame>, keys: seq<Key>)
    requires AllParsed(s) && Groups(s, keys).Grouped?
    ensures forall g :: g in Groups(s, keys).groups ==> WellFormed(g)
  {
    if keys != [] {
      var m := |keys| - 1;
      GroupsAreWellFormed(s, keys[..m]);
      var bucket := Bucket(s, |s|, keys[m]);
      forall f | f in bucket
        ensures Belongs(f, keys[m])
      {
        BucketMembers(s, |s|, keys[m], f);
      }
      CompleteIsWellFormed(keys[m], bucket);
    }
  }

  lemma {:induction false} CompleteInOrder(items: seq<Frame>)
    requires Complete(items)
    ensures var s := SortBy(items, IndexLe);
      |s| == 4 && SubIndex(s[0]) == 1 && SubIndex(s[1]) == 2 && SubIndex(s[2]) == 3 && SubIndex(s[3]) == 4
  {
    var sorted := SortBy(items, IndexLe);
    SortIsSorted(items, IndexLe);
    SameMembers(items, sorted);
    FourInOrder(sorted);
  }

  lemma {:induction false} CompleteIsWellFormed(key: Key, items: seq<Frame>)
    requires Complete(items) && forall f :: f in items ==> Belongs(f, key)
    ensures WellFormed(Group(key, SortBy(items, IndexLe)))
  {
    CompleteInOrder(items);
    SortedBelong(key, items, SortBy(items, IndexLe));
  }

  lemma {:induction false} SortedBelong(key: Key, items: seq<Frame>, sorted: seq<Frame>)
    requires multiset(sorted) == multiset(items) && forall f :: f in items ==> Belongs(f, key)
    requires |sorted| == 4 && SubIndex(sorted[0]) == 1 && SubIndex(sorted[1]) == 2
    requires SubIndex(sorted[2]) == 3 && SubIndex(sorted[3]) == 4
    ensures WellFormed(Group(key, sorted))
  {
    SameMembers(items, sorted);
    forall i | 0 <= i < 4
      ensures sorted[i].subIndex == Some(i + 1) && Belongs(sorted[i], key)
    {
      assert sorted[i] in items;
    }
  }

  lemma {:induction false} FourInOrder(s: seq<Frame>)
    requires |s| == 4 && SortedBy(s, IndexLe) && (set f | f in s :: SubIndex(f)) == {1, 2, 3, 4}
    ensures SubIndex(s[0]) == 1 && SubIndex(s[1]) == 2 && SubIndex(s[2]) == 3 && SubIndex(s[3]) == 4
  {
    var values := set f | f in s :: SubIndex(f);
    assert IndexLe(s[0], s[1]) && IndexLe(s[1], s[2]) && IndexLe(s[2], s[3]);
    assert values == {SubIndex(s[0]), SubIndex(s[1]), SubIndex(s[2]), SubIndex(s[3])};
    assert 1 in values && 2 in values && 3 in values && 4 in values;
  }

  /** On success every science frame is in exactly one group, every group lists sub-indices 1, 2, 3, 4 of one night,
      target, Stokes parameter and sequence, and the keys are distinct and in order. */
  lemma {:induction false} GroupingPartitions(frames: seq<Frame>, groups: seq<Group>)
    requires IsOutcome(frames, Grouped(groups))
    ensures Members(groups) == multiset(Science(frames))
    ensures forall g :: g in groups ==> WellFormed(g)
    ensures forall i, j :: 0 <= i < j < |groups| ==> groups[i].key != groups[j].key && KeyLe(groups[i].key, groups[j].key)
  {
    var keys :| SortedKeys(Chronological(frames), keys) && Grouped(groups) == Groups(Chronological(frames), keys);
    GroupsPartition(Chronological(frames), keys);
  }

  // --------------------------------------------------------------------- order of the input

  ghost predicate DistinctPaths(frames: seq<Frame>) {
    forall a, b :: a in frames && b in frames && a.path == b.path ==> a == b
  }

  lemma {:induction false} ScienceMembers(frames: seq<Frame>)
    ensures forall f :: f in Science(frames) <==> f in frames && f.science
    ensures forall f :: multiset(Science(frames))[f] == if f.science then multiset(frames)[f] else 0
  {
    if frames != [] {
      ScienceMembers(frames[1..]);
      assert frames == [frames[0]] + frames[1..];
    }
  }

  lemma {:induction false} SameKeys(s: seq<Frame>, keys: seq<Key>, others: seq<Key>)
    requires AllParsed(s) && SortedKeys(s, keys) && SortedKeys(s, others)
    ensures keys == others
  {
    KeyOrder();
    DistinctByCount(keys);
    DistinctByCount(others);
    forall k
      ensures multiset(keys)[k] == multiset(others)[k]
    {
      assert k in multiset(keys) <==> k in keys;
      assert k in multiset(others) <==> k in others;
    }
    SortedIsUnique(keys, others, KeyLe);
  }

  lemma {:induction false} SameScience(frames: seq<Frame>, relisted: seq<Frame>)
    requires multiset(frames) == multiset(relisted)
    ensures multiset(Science(frames)) == multiset(Science(relisted))
  {
    ScienceMembers(frames);
    ScienceMembers(relisted);
  }

  lemma {:induction false} DistinctScience(frames: seq<Frame>, a: Frame, b: Frame)
    requires DistinctPaths(frames) && a in Science(frames) && b in Science(frames) && FrameLe(a, b) && FrameLe(b, a)
    ensures a == b
  {
    FrameOrder();
    ScienceMembers(frames);
  }

  /** With distinct paths the chronological list does not depend on the order in which the frames are listed. */
  lemma {:induction false} SameChronology(frames: seq<Frame>, relisted: seq<Frame>)
    requires multiset(frames) == multiset(relisted) && DistinctPaths(frames)
    ensures Chronological(frames) == Chronological(relisted)
  {
    FrameOrder();
    SameScience(frames, relisted);
    var s, t := Chronological(frames), Chronological(relisted);
    SortIsSorted(Science(frames), FrameLe);
    SortIsSorted(Science(relisted), FrameLe);
    SameMembers(s, Science(frames));
    forall a, b | a in s && b in s && FrameLe(a, b) && FrameLe(b, a)
      ensures a == b
    {
      DistinctScience(frames, a, b);
    }
    SortedIsUnique(s, t, FrameLe);
  }

  lemma {:induction false} PrefixParsed(s: seq<Frame>, n: nat)
    requires n <= |s| && AllParsed(s[..n])
    ensures forall i :: 0 <= i < n ==> s[i].Parsed()
  {
    forall i | 0 <= i < n
      ensures s[i].Parsed()
    {
      assert s[..n][i] == s[i];
    }
  }

  lemma {:induction false} OneFirstUnparsed(s: seq<Frame>, e: GroupError, f: GroupError)
    requires FirstUnparsed(s, e) && FirstUnparsed(s, f)
    ensures e == f
  {
    var i :| 0 <= i < |s| && AllParsed(s[..i]) && !s[i].Parsed() && e == NoSequence(s[i].path);
    var j :| 0 <= j < |s| && AllParsed(s[..j]) && !s[j].Parsed() && f == NoSequence(s[j].path);
    PrefixParsed(s, i);
    PrefixParsed(s, j);
  }

  /** Hence neither does the result, groups or error. */
  lemma {:induction false} InputOrderIrrelevant(frames: seq<Frame>, relisted: seq<Frame>, r: Outcome, q: Outcome)
    requires multiset(frames) == multiset(relisted) && DistinctPaths(frames)
    requires IsOutcome(frames, r) && IsOutcome(relisted, q)
    ensures r == q
  {
    SameChronology(frames, relisted);
    var s := Chronological(frames);
    if AllParsed(s) {
      var keys :| SortedKeys(s, keys) && r == Groups(s, keys);
      var others :| SortedKeys(s, others) && q == Groups(s, others);
      SameKeys(s, keys, others);
    } else {
      OneFirstUnparsed(s, r.error, q.error);
    }
  }
}
