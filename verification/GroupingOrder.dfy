/** The orders in which grouping takes frames and keys, and which frame list it refuses for what. */
module GroupingOrder {
  import opened Numeric
  import opened Sorting
  import opened Grouping
  import opened GroupingRuns

  // ---------------------------------------------------------------------------- orders

  /** b continues a, or the first character in which they differ is smaller in a. */
  ghost predicate Precedes(a: string, b: string) { exists k: nat :: DiffersAt(a, b, k) }

  ghost predicate DiffersAt(a: string, b: string, k: nat) {
    k <= |a| && k <= |b| && a[..k] == b[..k] && (k == |a| || (k < |b| && a[k] < b[k]))
  }

  lemma {:induction false} StringLeIff(a: string, b: string)
    ensures StringLe(a, b) <==> Precedes(a, b)
  {
    if a == "" {
      assert DiffersAt(a, b, 0);
    } else if b != "" && a[0] < b[0] {
      assert DiffersAt(a, b, 0);
    } else if b != "" && a[0] == b[0] {
      StringLeIff(a[1..], b[1..]);
      if k: nat :| DiffersAt(a[1..], b[1..], k) {
        assert a[..k + 1] == [a[0]] + a[1..][..k] && b[..k + 1] == [b[0]] + b[1..][..k];
        assert DiffersAt(a, b, k + 1);
      }
      if k: nat :| DiffersAt(a, b, k) {
        assert k > 0;
        assert a[1..][..k - 1] == a[..k][1..] && b[1..][..k - 1] == b[..k][1..];
        assert DiffersAt(a[1..], b[1..], k - 1);
      }
    } else {
      NothingPrecedes(a, b);
    }
  }

  lemma {:induction false} NothingPrecedes(a: string, b: string)
    requires a != "" && (b == "" || b[0] < a[0])
    ensures !Precedes(a, b)
  {
    forall k: nat
      ensures !DiffersAt(a, b, k)
    {
      if k > 0 && k <= |a| && k <= |b| {
        assert a[..k][0] == a[0] && b[..k][0] == b[0];
      }
    }
  }

  function TimeOf(f: Frame): string { if f.observedAt.Some? then f.observedAt.value else "" }

  /** Frames are taken by time of observation, those without one first, and at equal times by path. */
  lemma {:induction false} FrameLeIff(a: Frame, b: Frame)
    ensures FrameLe(a, b) <==>
      if TimeOf(a) == TimeOf(b) then Precedes(a.path, b.path) else Precedes(TimeOf(a), TimeOf(b))
  {
    StringLeIff(TimeOf(a), TimeOf(b));
    StringLeIff(a.path, b.path);
  }

  /** Groups come by night, then by target, then by Stokes parameter, then by sequence number. */
  lemma {:induction false} KeyLeIff(a: Key, b: Key)
    ensures KeyLe(a, b) <==>
      if a.prefix.night != b.prefix.night then Precedes(a.prefix.night, b.prefix.night)
      else if a.prefix.target != b.prefix.target then Precedes(a.prefix.target, b.prefix.target)
      else if a.prefix.stokes != b.prefix.stokes then Precedes(a.prefix.stokes, b.prefix.stokes)
      else a.number <= b.number
  {
    StringLeIff(a.prefix.night, b.prefix.night);
    StringLeIff(a.prefix.target, b.prefix.target);
    StringLeIff(a.prefix.stokes, b.prefix.stokes);
  }

  // -------------------------------------------------------------------------- refusals

  ghost predicate Has(items: seq<Frame>, index: int) { exists f :: f in items && SubIndex(f) == index }

  /** Four frames, one for each sub-index. */
  ghost predicate IsFour(items: seq<Frame>) {
    |items| == 4 && Has(items, 1) && Has(items, 2) && Has(items, 3) && Has(items, 4)
  }

  lemma {:induction false} CompleteIff(items: seq<Frame>)
    ensures Complete(items) <==> IsFour(items)
  {
    var values := set f | f in items :: SubIndex(f);
    if Complete(items) {
      assert 1 in values && 2 in values && 3 in values && 4 in values;
    }
    if IsFour(items) {
      var a :| a in items && SubIndex(a) == 1;
      var b :| b in items && SubIndex(b) == 2;
      var c :| c in items && SubIndex(c) == 3;
      var d :| d in items && SubIndex(d) == 4;
      FourFrames(items, a, b, c, d);
    }
  }

  lemma {:induction false} FourFrames(items: seq<Frame>, a: Frame, b: Frame, c: Frame, d: Frame)
    requires |items| == 4 && a in items && b in items && c in items && d in items
    requires SubIndex(a) == 1 && SubIndex(b) == 2 && SubIndex(c) == 3 && SubIndex(d) == 4
    ensures (set f | f in items :: SubIndex(f)) == {1, 2, 3, 4}
  {
    assert items == [items[0], items[1], items[2], items[3]];
    assert {1, 2, 3, 4} <= set f | f in items :: SubIndex(f);
  }

  /** Key i is the first one whose frames are not four with sub-indices 1 to 4. */
  ghost predicate FirstIncomplete(s: seq<Frame>, keys: seq<Key>, i: int)
    requires AllParsed(s) && 0 <= i < |keys|
  {
    !IsFour(Bucket(s, |s|, keys[i])) && forall j :: 0 <= j < i ==> IsFour(Bucket(s, |s|, keys[j]))
  }

  ghost predicate AllFours(s: seq<Frame>, keys: seq<Key>)
    requires AllParsed(s)
  {
    forall i :: 0 <= i < |keys| ==> IsFour(Bucket(s, |s|, keys[i]))
  }

  lemma {:induction false} AllFoursIff(s: seq<Frame>, keys: seq<Key>)
    requires AllParsed(s)
    ensures Groups(s, keys).Grouped? <==> AllFours(s, keys)
  {
    GroupedIff(s, keys);
    forall i | 0 <= i < |keys|
      ensures Complete(Bucket(s, |s|, keys[i])) <==> IsFour(Bucket(s, |s|, keys[i]))
    {
      CompleteIff(Bucket(s, |s|, keys[i]));
    }
  }

  lemma {:induction false} RefusedAt(s: seq<Frame>, keys: seq<Key>, i: nat)
    requires AllParsed(s) && i < |keys| && FirstIncomplete(s, keys, i)
    ensures Groups(s, keys) == Refused(Incomplete(keys[i]))
  {
    AllFoursIff(s, keys[..i]);
    CompleteIff(Bucket(s, |s|, keys[i]));
    assert keys[..i + 1][..i] == keys[..i];
    assert Groups(s, keys[..i + 1]) == Refused(Incomplete(keys[i]));
    RefusalStays(s, keys, i + 1);
  }

  lemma {:induction false} FirstExists(s: seq<Frame>, keys: seq<Key>) returns (i: nat)
    requires AllParsed(s) && !AllFours(s, keys)
    ensures i < |keys| && FirstIncomplete(s, keys, i)
  {
    i := 0;
    while IsFour(Bucket(s, |s|, keys[i]))
      invariant i < |keys| && forall j :: 0 <= j < i ==> IsFour(Bucket(s, |s|, keys[j]))
      decreases |keys| - i
    {
      i := i + 1;
    }
  }

  /** A key of the science frames, the first one in order whose frames are not four with sub-indices 1 to 4. */
  ghost predicate FirstBadKey(s: seq<Frame>, key: Key)
    requires AllParsed(s)
  {
    exists keys, i: nat :: SortedKeys(s, keys) && i < |keys| && keys[i] == key && FirstIncomplete(s, keys, i)
  }

  /** The mode, the Stokes parameter and the sub-index of the frame are known. */
  predicate HasSequence(f: Frame) { f.hasMode && f.stokes != None && f.subIndex != None }

  lemma {:induction false} ParsedIff(frames: seq<Frame>)
    ensures AllParsed(Chronological(frames)) <==> forall f :: f in frames && f.science ==> HasSequence(f)
  {
    var s := Chronological(frames);
    SameMembers(Science(frames), s);
    ScienceMembers(frames);
    if AllParsed(s) {
      forall f | f in frames && f.science
        ensures HasSequence(f)
      {
        assert f in s;
        var i :| 0 <= i < |s| && s[i] == f;
      }
    }
    if forall f :: f in frames && f.science ==> HasSequence(f) {
      forall i | 0 <= i < |s|
        ensures s[i].Parsed()
      {
        assert s[i] in s;
      }
    }
  }

  /** A list of frames is refused for a missing sequence exactly when a science frame has none. Otherwise it is refused for a
      key exactly when this is the first key, in order, whose frames are not four with sub-indices 1 to 4, and grouped
      exactly when there is no such key. */
  lemma {:induction false} RefusedIff(frames: seq<Frame>, r: Outcome, key: Key)
    requires IsOutcome(frames, r)
    ensures r.Refused? && r.error.NoSequence? <==> exists f :: f in frames && f.science && !HasSequence(f)
    ensures r.Refused? && r.error.NoSequence? <==> !AllParsed(Chronological(frames))
    ensures AllParsed(Chronological(frames)) ==>
      && (r == Refused(Incomplete(key)) <==> FirstBadKey(Chronological(frames), key))
      && (r.Grouped? <==> !exists bad :: FirstBadKey(Chronological(frames), bad))
  {
    var s := Chronological(frames);
    ParsedIff(frames);
    if AllParsed(s) {
      var keys :| SortedKeys(s, keys) && r == Groups(s, keys);
      forall bad | FirstBadKey(s, bad)
        ensures r == Refused(Incomplete(bad))
      {
        var others, i: nat :| SortedKeys(s, others) && i < |others| && others[i] == bad && FirstIncomplete(s, others, i);
        SameKeys(s, keys, others);
        RefusedAt(s, keys, i);
      }
      AllFoursIff(s, keys);
      if !AllFours(s, keys) {
        var i := FirstExists(s, keys);
        RefusedAt(s, keys, i);
        assert FirstBadKey(s, keys[i]);
      }
    }
  }
}
