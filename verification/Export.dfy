// Reading an export that is one array of records, resumed at `start + written`.

module ExportDiscovery {
  import opened Ordering
  import Discovery

  /** A record of the export, and the candidate it makes when it has an id and a title. */
  type Entry = Option<string>

  predicate Usable(records: seq<Entry>, i: nat) {
    i < |records| && records[i].Some?
  }

  /** How many usable records lie from `i` up to `j`. */
  function UsableIn(records: seq<Entry>, i: nat, j: nat): (n: nat)
    ensures i <= j ==> n <= j - i
    ensures j <= i ==> n == 0
    decreases j
  {
    if j <= i then 0 else UsableIn(records, i, j - 1) + if Usable(records, j - 1) then 1 else 0
  }

  lemma {:induction false} UsableJoin(records: seq<Entry>, i: nat, j: nat, k: nat)
    requires i <= j <= k
    ensures UsableIn(records, i, k) == UsableIn(records, i, j) + UsableIn(records, j, k)
    decreases k
  {
    if j < k {
      UsableJoin(records, i, j, k - 1);
    }
  }

  /** A pass from `start` emits a usable record when fewer than the cap come before it. */
  predicate Emits(records: seq<Entry>, cap: Option<nat>, start: nat, i: nat) {
    start <= i && Usable(records, i) && !Discovery.Capped(cap, UsableIn(records, start, i))
  }

  /** How many records a pass writes. */
  function Written(records: seq<Entry>, cap: Option<nat>, start: nat): nat {
    var all := UsableIn(records, start, |records|);
    if Discovery.Capped(cap, all) then cap.value else all
  }

  /** One pass over the export: the positions it emits, in order. */
  method StreamExport(records: seq<Entry>, cap: Option<nat>, start: nat) returns (emitted: seq<nat>)
    ensures forall i: nat :: i in emitted <==> Emits(records, cap, start, i)
    ensures forall a, b :: 0 <= a < b < |emitted| ==> emitted[a] < emitted[b]
    ensures |emitted| == Written(records, cap, start)
  {
    emitted := [];
    var index := 0;
    while index < |records|
      invariant index <= |records|
      invariant |emitted| == UsableIn(records, start, index)
      invariant cap.Some? ==> |emitted| <= cap.value
      invariant forall a :: 0 <= a < |emitted| ==> emitted[a] < index
      invariant forall i: nat :: i in emitted <==> i < index && Emits(records, cap, start, i)
      invariant forall a, b :: 0 <= a < b < |emitted| ==> emitted[a] < emitted[b]
    {
      if Discovery.Capped(cap, |emitted|) {
        break;
      }
      if start <= index && records[index].Some? {
        emitted := emitted + [index];
      }
      index := index + 1;
    }
    forall i | index <= i ensures UsableIn(records, start, index) <= UsableIn(records, start, i) {
      UsableGrows(records, start, index, i);
    }
  }

  lemma {:induction false} UsableGrows(records: seq<Entry>, i: nat, j: nat, k: nat)
    requires j <= k
    ensures UsableIn(records, i, j) <= UsableIn(records, i, k)
    ensures Usable(records, j) && i <= j < k ==> UsableIn(records, i, j) < UsableIn(records, i, k)
    decreases k
  {
    if j < k {
      UsableGrows(records, i, j, k - 1);
    }
  }

  // ----- a whole schedule of passes

  /** Where the saved position ends up: each pass moves it on by what it wrote. */
  function FinalOffset(records: seq<Entry>, caps: seq<Option<nat>>, start: nat): nat
    decreases |caps|
  {
    if caps == [] then start else FinalOffset(records, caps[1..], start + Written(records, caps[0], start))
  }

  /** How many of the passes emit record `i`. */
  function Times(records: seq<Entry>, caps: seq<Option<nat>>, start: nat, i: nat): nat
    decreases |caps|
  {
    if caps == [] then 0 else
      (if Emits(records, caps[0], start, i) then 1 else 0)
      + Times(records, caps[1..], start + Written(records, caps[0], start), i)
  }

  predicate CapsPositive(caps: seq<Option<nat>>) {
    forall cap :: cap in caps ==> !Discovery.Capped(cap, 0)
  }

  /** The passes have come to one that writes nothing. */
  predicate Finished(records: seq<Entry>, caps: seq<Option<nat>>, start: nat) {
    CapsPositive(caps) && UsableIn(records, FinalOffset(records, caps, start), |records|) == 0
  }

  lemma OffsetStaysInFile(records: seq<Entry>, cap: Option<nat>, start: nat)
    requires start <= |records|
    ensures start + Written(records, cap, start) <= |records|
  {
  }

  lemma CapsTail(caps: seq<Option<nat>>)
    requires CapsPositive(caps) && caps != []
    ensures CapsPositive(caps[1..]) && !Discovery.Capped(caps[0], 0)
  {
    assert caps[0] in caps;
  }

  /** Every pass but a finishing one moves on, so a pass that writes nothing comes within the file's length. */
  lemma {:induction false} PassesEnd(records: seq<Entry>, caps: seq<Option<nat>>, start: nat)
    requires CapsPositive(caps) && start <= |records| && |caps| >= |records| - start
    ensures Finished(records, caps, start)
    decreases |caps|
  {
    if caps != [] {
      CapsTail(caps);
      OffsetStaysInFile(records, caps[0], start);
      if UsableIn(records, start, |records|) == 0 {
        NothingLeft(records, caps, start);
      } else {
        PassesEnd(records, caps[1..], start + Written(records, caps[0], start));
      }
    }
  }

  lemma {:induction false} NothingLeft(records: seq<Entry>, caps: seq<Option<nat>>, start: nat)
    requires CapsPositive(caps) && UsableIn(records, start, |records|) == 0
    ensures FinalOffset(records, caps, start) == start
    decreases |caps|
  {
    if caps != [] {
      CapsTail(caps);
      NothingLeft(records, caps[1..], start);
    }
  }

  lemma UsableAhead(records: seq<Entry>, i: nat, k: nat)
    requires Usable(records, i) && k <= i
    ensures UsableIn(records, k, |records|) > 0
  {
    UsableGrows(records, k, i, |records|);
  }

  /** What the position moves past, the pass has emitted. */
  lemma PassedIsEmitted(records: seq<Entry>, cap: Option<nat>, start: nat, i: nat)
    requires Usable(records, i) && start <= i < start + Written(records, cap, start)
    ensures Emits(records, cap, start, i)
  {
  }

  /**
   * No gap: whatever unusable records are mixed in and whatever the caps, every usable record
   * has been emitted by the time a pass writes nothing.
   */
  lemma {:induction false} NoGap(records: seq<Entry>, caps: seq<Option<nat>>, start: nat, i: nat)
    requires Finished(records, caps, start) && Usable(records, i) && start <= i
    ensures Times(records, caps, start, i) >= 1
    decreases |caps|
  {
    if caps == [] {
      UsableAhead(records, i, start);
    } else {
      CapsTail(caps);
      var next := start + Written(records, caps[0], start);
      if i < next {
        PassedIsEmitted(records, caps[0], start, i);
      } else {
        NoGap(records, caps[1..], next, i);
      }
    }
  }

  /** An unusable record with a usable one after it. */
  predicate Holed(records: seq<Entry>, start: nat) {
    exists u, v :: start <= u < v < |records| && !Usable(records, u) && Usable(records, v)
  }

  lemma {:induction false} Dense(records: seq<Entry>, start: nat, i: nat, j: nat)
    requires !Holed(records, start) && start <= j <= i && Usable(records, i)
    ensures UsableIn(records, start, j) == j - start
    decreases j
  {
    if start < j {
      Dense(records, start, i, j - 1);
      assert Usable(records, j - 1);
    }
  }

  lemma {:induction false} NotAgain(records: seq<Entry>, caps: seq<Option<nat>>, start: nat, i: nat)
    requires i < start
    ensures Times(records, caps, start, i) == 0
    decreases |caps|
  {
    if caps != [] {
      NotAgain(records, caps[1..], start + Written(records, caps[0], start), i);
    }
  }

  lemma {:induction false} OnceWhenWhole(records: seq<Entry>, caps: seq<Option<nat>>, start: nat, i: nat)
    requires Finished(records, caps, start) && !Holed(records, start) && Usable(records, i) && start <= i
    ensures Times(records, caps, start, i) == 1
    decreases |caps|
  {
    NoGap(records, caps, start, i);
    if caps != [] {
      CapsTail(caps);
      var next := start + Written(records, caps[0], start);
      Dense(records, start, i, i);
      UsableGrows(records, start, i, |records|);
      if i < next {
        NotAgain(records, caps[1..], next, i);
      } else {
        assert !Emits(records, caps[0], start, i);
        OnceWhenWhole(records, caps[1..], next, i);
      }
    }
  }

  /** The last record a pass emits. */
  lemma {:induction false} NthUsable(records: seq<Entry>, start: nat, n: nat) returns (i: nat)
    requires 0 < n <= UsableIn(records, start, |records|)
    ensures start <= i && Usable(records, i) && UsableIn(records, start, i) == n - 1
  {
    i := NthUsableBelow(records, start, n, |records|);
  }

  lemma {:induction false} NthUsableBelow(records: seq<Entry>, start: nat, n: nat, j: nat) returns (i: nat)
    requires j <= |records| && 0 < n <= UsableIn(records, start, j)
    ensures start <= i < j && Usable(records, i) && UsableIn(records, start, i) == n - 1
    decreases j
  {
    if n <= UsableIn(records, start, j - 1) {
      i := NthUsableBelow(records, start, n, j - 1);
    } else {
      i := j - 1;
    }
  }

  /** An unusable record that is passed over puts the position behind a record already emitted. */
  lemma {:induction false} SomeTwiceWhenHoled(records: seq<Entry>, caps: seq<Option<nat>>, start: nat, u: nat, v: nat)
    returns (i: nat)
    requires Finished(records, caps, start)
    requires start <= u < v < |records| && !Usable(records, u) && Usable(records, v)
    ensures start <= i && Usable(records, i) && Times(records, caps, start, i) >= 2
    decreases |caps|
  {
    UsableAhead(records, v, start);
    if caps == [] {
      i := v;
    } else {
      CapsTail(caps);
      var w := Written(records, caps[0], start);
      var next := start + w;
      if u < next {
        i := NthUsable(records, start, w);
        assert next <= i by {
          if i < next {
            UsableJoin(records, start, i, next);
            UsableSkips(records, start, u, next);
            UsableGrows(records, start, i, next);
            assert false;
          }
        }
        NoGap(records, caps[1..], next, i);
      } else {
        i := SomeTwiceWhenHoled(records, caps[1..], next, u, v);
      }
    }
  }

  lemma UsableSkips(records: seq<Entry>, start: nat, u: nat, j: nat)
    requires start <= u < j && !Usable(records, u)
    ensures UsableIn(records, start, j) < j - start
  {
    UsableJoin(records, start, u, j);
    UsableJoin(records, u, u + 1, j);
  }

  /** Each usable record is emitted exactly once if and only if no unusable one comes before a usable one. */
  lemma OnceExactlyWhenWhole(records: seq<Entry>, caps: seq<Option<nat>>)
    requires Finished(records, caps, 0)
    ensures (forall i :: Usable(records, i) ==> Times(records, caps, 0, i) == 1) <==> !Holed(records, 0)
  {
    if Holed(records, 0) {
      var u, v :| 0 <= u < v < |records| && !Usable(records, u) && Usable(records, v);
      var i := SomeTwiceWhenHoled(records, caps, 0, u, v);
    } else {
      forall i | Usable(records, i) ensures Times(records, caps, 0, i) == 1 {
        OnceWhenWhole(records, caps, 0, i);
      }
    }
  }

  lemma {:induction false} OffsetStep(records: seq<Entry>, caps: seq<Option<nat>>, start: nat, k: nat)
    requires k < |caps|
    ensures FinalOffset(records, caps[..k + 1], start) ==
      FinalOffset(records, caps[..k], start) + Written(records, caps[k], FinalOffset(records, caps[..k], start))
    decreases k
  {
    assert caps[..k + 1][1..] == caps[1..][..k];
    if k > 0 {
      assert caps[..k][1..] == caps[1..][..k - 1];
      OffsetStep(records, caps[1..], start + Written(records, caps[0], start), k - 1);
    }
  }

  /** Scheduled runs over one export: the position moves on by what was written, if anything was. */
  method DiscoverExport(records: seq<Entry>, caps: seq<Option<nat>>) returns (offset: nat, manifests: seq<seq<nat>>)
    ensures offset == FinalOffset(records, caps, 0)
    ensures |manifests| == |caps|
    ensures forall k, i: nat :: 0 <= k < |caps| ==>
      (i in manifests[k] <==> Emits(records, caps[k], FinalOffset(records, caps[..k], 0), i))
  {
    offset, manifests := 0, [];
    for k := 0 to |caps|
      invariant offset == FinalOffset(records, caps[..k], 0)
      invariant |manifests| == k
      invariant forall m, i: nat :: 0 <= m < k ==>
        (i in manifests[m] <==> Emits(records, caps[m], FinalOffset(records, caps[..m], 0), i))
    {
      var written := StreamExport(records, caps[k], offset);
      manifests := manifests + [written];
      OffsetStep(records, caps, 0, k);
      if written != [] {
        offset := offset + |written|;
      }
    }
    assert caps[..|caps|] == caps;
  }

  /** An unusable record and then a usable one: two passes without a cap emit the usable one twice. */
  lemma HoleEmitsTwice(records: seq<Entry>, caps: seq<Option<nat>>)
    requires |records| == 2 && records[0].None? && records[1].Some? && caps == [None, None]
    ensures Finished(records, caps, 0) && Times(records, caps, 0, 1) == 2
  {
    assert UsableIn(records, 0, 0) == UsableIn(records, 0, 1) == 0 && UsableIn(records, 0, 2) == 1;
    assert UsableIn(records, 1, 1) == 0 && UsableIn(records, 1, 2) == 1;
    assert Written(records, None, 0) == 1 && Written(records, None, 1) == 1;
    assert caps[1..] == [None] && caps[1..][1..] == [];
    assert Times(records, caps[1..][1..], 2, 1) == 0 && Times(records, caps[1..], 1, 1) == 1;
    assert FinalOffset(records, caps[1..], 1) == 2;
  }
}
