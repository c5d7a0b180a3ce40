/**
 * Last-write-wins de-duplication of the attribute frames of one container, as applied after a
 * bulk `AddMultipleAttributes` call. A write is either an attribute frame in the run, or a
 * suppressed ("silent") write that produced no frame but still knocks out earlier frames of
 * the same name.
 */
module AttributeDedup {
  import opened RenderTreeFrames

  /**
   * A suppressed attribute write: `position` is the buffer length at the time of the call, so
   * it supersedes every frame at a smaller index and none at an equal or larger one.
   */
  datatype SilentWrite = SilentWrite(name: string, position: nat)

  predicate AllAttributes(run: seq<Frame>) {
    forall i :: 0 <= i < |run| ==> run[i].Attribute?
  }

  /** The case-insensitive names of the frames `run[from..]`. */
  function NamesFrom(run: seq<Frame>, from: nat): set<string>
    requires AllAttributes(run)
  {
    set j | from <= j < |run| :: FoldName(run[j].attributeName)
  }

  /** The case-insensitive names of the silent writes made after buffer index `index`. */
  function SilentNamesAfter(silent: seq<SilentWrite>, index: nat): set<string>
  {
    set k | 0 <= k < |silent| && index < silent[k].position :: FoldName(silent[k].name)
  }

  /**
   * The frame `run[i]`, which sits at buffer index `first + i`, is superseded by a later write
   * of the same case-insensitive name: a later frame of the run, or a later silent write.
   */
  predicate Overwritten(run: seq<Frame>, first: nat, silent: seq<SilentWrite>, i: nat)
    requires AllAttributes(run) && i < |run|
  {
    var n := FoldName(run[i].attributeName);
    n in NamesFrom(run, i + 1) || n in SilentNamesAfter(silent, first + i)
  }

  /** The frames of `run[from..]` that are not overwritten, in their original order. */
  function Survivors(run: seq<Frame>, first: nat, silent: seq<SilentWrite>, from: nat): seq<Frame>
    requires AllAttributes(run) && from <= |run|
    decreases |run| - from
  {
    if from == |run| then []
    else (if Overwritten(run, first, silent, from) then [] else [run[from]])
         + Survivors(run, first, silent, from + 1)
  }

  /** The de-duplicated run. */
  function Dedup(run: seq<Frame>, first: nat, silent: seq<SilentWrite>): seq<Frame>
    requires AllAttributes(run)
  {
    Survivors(run, first, silent, 0)
  }

  /** `a` is `b` with some elements left out, the rest in their original order. */
  predicate Subsequence<T(==)>(a: seq<T>, b: seq<T>)
    decreases |b|
  {
    if a == [] then true
    else if b == [] then false
    else (a[0] == b[0] && Subsequence(a[1..], b[1..])) || Subsequence(a, b[1..])
  }

  lemma {:induction false} SubsequenceLength<T>(a: seq<T>, b: seq<T>)
    requires Subsequence(a, b)
    ensures |a| <= |b|
    decreases |b|
  {
    if a != [] {
      if a[0] == b[0] && Subsequence(a[1..], b[1..]) {
        SubsequenceLength(a[1..], b[1..]);
      } else {
        SubsequenceLength(a, b[1..]);
      }
    }
  }

  /** Every survivor is an attribute frame of the run that no later write overwrites. */
  lemma {:induction false} SurvivorsOrigin(run: seq<Frame>, first: nat, silent: seq<SilentWrite>, from: nat)
    requires AllAttributes(run) && from <= |run|
    ensures AllAttributes(Survivors(run, first, silent, from))
    ensures forall k :: 0 <= k < |Survivors(run, first, silent, from)| ==>
              exists i :: from <= i < |run| && Survivors(run, first, silent, from)[k] == run[i]
                          && !Overwritten(run, first, silent, i)
    decreases |run| - from
  {
    if from < |run| {
      SurvivorsOrigin(run, first, silent, from + 1);
      var rest := Survivors(run, first, silent, from + 1);
      var s := Survivors(run, first, silent, from);
      if !Overwritten(run, first, silent, from) {
        assert s == [run[from]] + rest;
        forall k | 0 <= k < |s|
          ensures exists i :: from <= i < |run| && s[k] == run[i] && !Overwritten(run, first, silent, i)
        {
          if k == 0 {
          } else {
            assert s[k] == rest[k - 1];
          }
        }
      } else {
        assert s == rest;
      }
    }
  }

  /** Every frame that no later write overwrites survives. */
  lemma {:induction false} SurvivorsComplete(run: seq<Frame>, first: nat, silent: seq<SilentWrite>, from: nat)
    requires AllAttributes(run) && from <= |run|
    ensures forall i :: from <= i < |run| && !Overwritten(run, first, silent, i) ==>
              run[i] in Survivors(run, first, silent, from)
    decreases |run| - from
  {
    if from < |run| {
      SurvivorsComplete(run, first, silent, from + 1);
      var rest := Survivors(run, first, silent, from + 1);
      var head := if Overwritten(run, first, silent, from) then [] else [run[from]];
      assert Survivors(run, first, silent, from) == head + rest;
      forall i | from <= i < |run| && !Overwritten(run, first, silent, i)
        ensures run[i] in Survivors(run, first, silent, from)
      {
        if i == from {
          assert run[i] in head;
        } else {
          assert run[i] in rest;
        }
      }
    }
  }

  /** Survivors keep the relative order of the run. */
  lemma {:induction false} SurvivorsInOrder(run: seq<Frame>, first: nat, silent: seq<SilentWrite>, from: nat)
    requires AllAttributes(run) && from <= |run|
    ensures Subsequence(Survivors(run, first, silent, from), run[from..])
    decreases |run| - from
  {
    var s := Survivors(run, first, silent, from);
    if from < |run| {
      SurvivorsInOrder(run, first, silent, from + 1);
      var rest := Survivors(run, first, silent, from + 1);
      assert run[from..][1..] == run[from + 1..];
      if !Overwritten(run, first, silent, from) {
        assert s == [run[from]] + rest;
        assert s[1..] == rest;
      } else {
        assert s == rest;
        if s != [] {
          assert Subsequence(s, run[from..][1..]);
        }
      }
    }
  }

  /** After de-duplication no two frames share a case-insensitive name. */
  lemma {:induction false} SurvivorsDistinct(run: seq<Frame>, first: nat, silent: seq<SilentWrite>, from: nat)
    requires AllAttributes(run) && from <= |run|
    ensures AllAttributes(Survivors(run, first, silent, from))
    ensures forall a, b :: 0 <= a < b < |Survivors(run, first, silent, from)| ==>
              !SameName(Survivors(run, first, silent, from)[a].attributeName,
                        Survivors(run, first, silent, from)[b].attributeName)
    decreases |run| - from
  {
    SurvivorsOrigin(run, first, silent, from);
    if from < |run| {
      SurvivorsDistinct(run, first, silent, from + 1);
      SurvivorsOrigin(run, first, silent, from + 1);
      var rest := Survivors(run, first, silent, from + 1);
      var s := Survivors(run, first, silent, from);
      if !Overwritten(run, first, silent, from) {
        assert s == [run[from]] + rest;
        forall a, b | 0 <= a < b < |s|
          ensures !SameName(s[a].attributeName, s[b].attributeName)
        {
          if a == 0 {
            assert s[b] == rest[b - 1];
            var i :| from + 1 <= i < |run| && rest[b - 1] == run[i] && !Overwritten(run, first, silent, i);
          } else {
            assert s[a] == rest[a - 1] && s[b] == rest[b - 1];
          }
        }
      } else {
        assert s == rest;
      }
    }
  }

  /**
   * Last write wins: a frame that no later write overwrites is kept, and it is the only kept
   * frame of its name.
   */
  lemma LastFrameWriteSurvives(run: seq<Frame>, first: nat, silent: seq<SilentWrite>, i: nat)
    requires AllAttributes(run) && i < |run| && !Overwritten(run, first, silent, i)
    ensures run[i] in Dedup(run, first, silent)
    ensures forall x :: x in Dedup(run, first, silent) && x.Attribute? && SameName(x.attributeName, run[i].attributeName) ==> x == run[i]
  {
    SurvivorsComplete(run, first, silent, 0);
    SurvivorsDistinct(run, first, silent, 0);
    var d := Dedup(run, first, silent);
    forall x | x in d && SameName(x.attributeName, run[i].attributeName)
      ensures x == run[i]
    {
      var a :| 0 <= a < |d| && d[a] == x;
      var b :| 0 <= b < |d| && d[b] == run[i];
      assert SameName(d[a].attributeName, d[b].attributeName);
      assert a == b;
    }
  }

  /** A suppressed write that comes after every frame of its name removes that name entirely. */
  lemma SuppressedLastWriteRemovesName(run: seq<Frame>, first: nat, silent: seq<SilentWrite>, k: nat)
    requires AllAttributes(run) && k < |silent|
    requires forall j :: 0 <= j < |run| && SameName(run[j].attributeName, silent[k].name) ==> first + j < silent[k].position
    ensures forall x :: x in Dedup(run, first, silent) ==> x.Attribute? && !SameName(x.attributeName, silent[k].name)
  {
    SurvivorsOrigin(run, first, silent, 0);
    var d := Dedup(run, first, silent);
    forall x | x in d
      ensures !SameName(x.attributeName, silent[k].name)
    {
      var a :| 0 <= a < |d| && d[a] == x;
      var i :| 0 <= i < |run| && d[a] == run[i] && !Overwritten(run, first, silent, i);
    }
  }

  /** De-duplication only removes frames, so the run can only shrink. */
  lemma DedupShrinks(run: seq<Frame>, first: nat, silent: seq<SilentWrite>)
    requires AllAttributes(run)
    ensures AllAttributes(Dedup(run, first, silent))
    ensures |Dedup(run, first, silent)| <= |run|
  {
    SurvivorsOrigin(run, first, silent, 0);
    SurvivorsInOrder(run, first, silent, 0);
    assert run[0..] == run;
    SubsequenceLength(Dedup(run, first, silent), run);
  }

  /**
   * What de-duplication of a run keeps: attribute frames only, no more than the run, no two
   * sharing a case-insensitive name, in the run's order, and every frame no later write overwrites.
   */
  lemma DedupKeeps(run: seq<Frame>, first: nat, silent: seq<SilentWrite>)
    requires AllAttributes(run)
    ensures AllAttributes(Dedup(run, first, silent)) && |Dedup(run, first, silent)| <= |run|
    ensures forall a, b :: 0 <= a < b < |Dedup(run, first, silent)| ==>
              !SameName(Dedup(run, first, silent)[a].attributeName, Dedup(run, first, silent)[b].attributeName)
    ensures Subsequence(Dedup(run, first, silent), run)
    ensures forall i :: 0 <= i < |run| && !Overwritten(run, first, silent, i) ==> run[i] in Dedup(run, first, silent)
    ensures forall k :: 0 <= k < |Dedup(run, first, silent)| ==>
              exists i :: 0 <= i < |run| && Dedup(run, first, silent)[k] == run[i] && !Overwritten(run, first, silent, i)
  {
    SurvivorsOrigin(run, first, silent, 0);
    DedupShrinks(run, first, silent);
    SurvivorsDistinct(run, first, silent, 0);
    SurvivorsInOrder(run, first, silent, 0);
    assert run[0..] == run;
    SurvivorsComplete(run, first, silent, 0);
  }

  /** The latest silent-write position for each case-insensitive name. */
  method LatestSilentWrites(silent: seq<SilentWrite>) returns (latest: map<string, nat>)
    ensures forall n, index: nat :: (n in latest && index < latest[n]) <==> n in SilentNamesAfter(silent, index)
  {
    latest := map[];
    var k := 0;
    while k < |silent|
      invariant 0 <= k <= |silent|
      invariant forall n, index: nat :: (n in latest && index < latest[n]) <==> n in SilentNamesAfter(silent[..k], index)
    {
      var n := FoldName(silent[k].name);
      ghost var prev := latest;
      if n !in latest || latest[n] < silent[k].position {
        latest := latest[n := silent[k].position];
      }
      ghost var scanned := silent[..k + 1];
      assert scanned == silent[..k] + [silent[k]];
      forall m, index: nat
        ensures (m in latest && index < latest[m]) <==> m in SilentNamesAfter(scanned, index)
      {
        SilentNamesAfterSnoc(silent[..k], silent[k], index);
        assert (m in prev && index < prev[m]) <==> m in SilentNamesAfter(silent[..k], index);
      }
      k := k + 1;
    }
    assert silent[..k] == silent;
  }

  lemma SilentNamesAfterSnoc(silent: seq<SilentWrite>, w: SilentWrite, index: nat)
    ensures SilentNamesAfter(silent + [w], index)
            == SilentNamesAfter(silent, index) + (if index < w.position then {FoldName(w.name)} else {})
  {
    var ext := silent + [w];
    forall n | n in SilentNamesAfter(ext, index)
      ensures n in SilentNamesAfter(silent, index) + (if index < w.position then {FoldName(w.name)} else {})
    {
      var k :| 0 <= k < |ext| && index < ext[k].position && FoldName(ext[k].name) == n;
      if k < |silent| {
        assert ext[k] == silent[k];
      }
    }
    forall n | n in SilentNamesAfter(silent, index)
      ensures n in SilentNamesAfter(ext, index)
    {
      var k :| 0 <= k < |silent| && index < silent[k].position && FoldName(silent[k].name) == n;
      assert ext[k] == silent[k];
    }
    if index < w.position {
      assert ext[|silent|] == w;
    }
  }

  /** Extending the scanned suffix by one frame adds that frame's name. */
  lemma NamesFromStep(run: seq<Frame>, i: nat)
    requires AllAttributes(run) && i < |run|
    ensures NamesFrom(run, i) == NamesFrom(run, i + 1) + {FoldName(run[i].attributeName)}
  {
  }

  /**
   * The compaction pass: one backward scan over the run with the set of names already seen
   * later, and the latest silent write per name, keeping the frames no later write overwrites.
   */
  method Compact(run: seq<Frame>, first: nat, silent: seq<SilentWrite>) returns (kept: seq<Frame>)
    requires AllAttributes(run)
    ensures kept == Dedup(run, first, silent)
  {
    var latest := LatestSilentWrites(silent);
    var seen: set<string> := {};
    kept := [];
    var i := |run|;
    while i > 0
      invariant 0 <= i <= |run|
      invariant kept == Survivors(run, first, silent, i)
      invariant seen == NamesFrom(run, i)
    {
      i := i - 1;
      var n := FoldName(run[i].attributeName);
      var overwritten := n in seen || (n in latest && first + i < latest[n]);
      if !overwritten {
        kept := [run[i]] + kept;
      }
      NamesFromStep(run, i);
      seen := seen + {n};
    }
  }
}
