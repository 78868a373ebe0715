// What one batch of resolutions becomes before it is loaded.

module Ingest {
  import opened Ordering
  import opened Domain
  import opened Merge

  /**
   * What the resolver made of one candidate. An observation is what canonicalisation made of it:
   * None when it was rejected.
   */
  datatype Resolution = Resolution(
    resolved: bool, attempts: nat, rejections: nat, observations: seq<Option<CleanBook>>)

  function CleanOnes(observations: seq<Option<CleanBook>>): seq<CleanBook> {
    if observations == [] then [] else
      var last := observations[|observations|-1];
      CleanOnes(observations[..|observations|-1]) + if last.Some? then [last.value] else []
  }

  lemma {:induction false} CleanOnesJoin(xs: seq<Option<CleanBook>>, ys: seq<Option<CleanBook>>)
    ensures CleanOnes(xs + ys) == CleanOnes(xs) + CleanOnes(ys)
  {
    if ys == [] {
      assert xs + ys == xs;
    } else {
      assert (xs + ys)[..|xs + ys|-1] == xs + ys[..|ys|-1];
      CleanOnesJoin(xs, ys[..|ys|-1]);
    }
  }

  /** A clean observation is kept where it stands, and a rejected one makes no difference to the rest. */
  lemma CleanOnesAre(xs: seq<Option<CleanBook>>, c: CleanBook, ys: seq<Option<CleanBook>>)
    ensures CleanOnes(xs + [Some(c)] + ys) == CleanOnes(xs) + [c] + CleanOnes(ys)
    ensures CleanOnes(xs + [None] + ys) == CleanOnes(xs + ys)
  {
    var one, none: seq<Option<CleanBook>> := [Some(c)], [None];
    CleanOnesJoin(xs + one, ys);
    CleanOnesJoin(xs, one);
    CleanOnesJoin(xs + none, ys);
    CleanOnesJoin(xs, none);
    CleanOnesJoin(xs, ys);
    assert one[..0] == [] && none[..0] == [];
  }

  /** One candidate's records on one identity, or as they came when their ISBNs conflict. */
  function Settle(cs: seq<CleanBook>): seq<CleanBook> {
    match UnifyIdentity(cs)
    case Some(unified) => unified
    case None => cs
  }

  function Loadable(resolutions: seq<Resolution>): seq<CleanBook> {
    if resolutions == [] then [] else
      Loadable(resolutions[..|resolutions|-1]) + Settle(CleanOnes(resolutions[|resolutions|-1].observations))
  }

  function KeysOf(cs: seq<CleanBook>): (ks: seq<Key>)
    ensures |ks| == |cs|
  {
    seq(|cs|, i requires 0 <= i < |cs| => KeyOf(cs[i]))
  }

  /** Every record that passed canonicalisation, under the key it came with. */
  function CleanKeys(resolutions: seq<Resolution>): seq<Key> {
    if resolutions == [] then [] else
      CleanKeys(resolutions[..|resolutions|-1]) + KeysOf(CleanOnes(resolutions[|resolutions|-1].observations))
  }

  /** Unifying or not, each record goes on to the loader once, in order, under its own source and id. */
  lemma {:induction false} NothingIsLostOrRenamed(resolutions: seq<Resolution>)
    ensures KeysOf(Loadable(resolutions)) == CleanKeys(resolutions)
  {
    if resolutions != [] {
      var init, cs := resolutions[..|resolutions|-1], CleanOnes(resolutions[|resolutions|-1].observations);
      NothingIsLostOrRenamed(init);
      SettlingKeepsKeys(cs);
      KeysJoin(Loadable(init), Settle(cs));
    }
  }

  lemma SettlingKeepsKeys(cs: seq<CleanBook>)
    ensures KeysOf(Settle(cs)) == KeysOf(cs)
  {
    hide UnifiedIdentity;
  }

  lemma KeysJoin(xs: seq<CleanBook>, ys: seq<CleanBook>)
    ensures KeysOf(xs + ys) == KeysOf(xs) + KeysOf(ys)
  {
  }

  /** The records of one candidate go on under one identity exactly when no two of them carry different ISBNs. */
  lemma OneIdentityExactlyWhen(cs: seq<CleanBook>)
    ensures (forall c, d :: c in Settle(cs) && d in Settle(cs) ==> c.identity == d.identity) <==>
      (forall c, d :: c in cs && d in cs && c.isbn13.Some? && d.isbn13.Some? ==> c.isbn13 == d.isbn13)
  {
    UnifyRefusesExactlyWhen(cs);
    if UnifyIdentity(cs).None? {
      var c, d :| c in cs && d in cs && c.isbn13.Some? && d.isbn13.Some? && c.isbn13 != d.isbn13;
      assert Agrees(c.identity, c.isbn13) && Agrees(d.identity, d.isbn13);
    }
  }

  class IngestReport {
    var resolved: nat
    var unresolved: nat
    var attempts: nat
    var observations: nat
    var rejected: nat

    constructor ()
      ensures resolved == unresolved == attempts == observations == rejected == 0
    {
      resolved, unresolved, attempts, observations, rejected := 0, 0, 0, 0, 0;
    }

    /** Count one candidate's observations; keep the clean ones. */
    method Sift(resolution: Resolution) returns (clean: seq<CleanBook>)
      modifies this`observations, this`rejected
      ensures clean == CleanOnes(resolution.observations)
      ensures observations == old(observations) + |resolution.observations|
      ensures |clean| + rejected == |resolution.observations| + old(rejected)
    {
      clean := [];
      for i := 0 to |resolution.observations|
        invariant clean == CleanOnes(resolution.observations[..i])
        invariant observations == old(observations) + i
        invariant |clean| + rejected == i + old(rejected)
      {
        var o := resolution.observations[i];
        observations := observations + 1;
        assert resolution.observations[..i + 1][..i] == resolution.observations[..i];
        if o.Some? {
          clean := clean + [o.value];
        } else {
          rejected := rejected + 1;
        }
      }
      assert resolution.observations[..|resolution.observations|] == resolution.observations;
    }

    /** Record what a batch produced and return what is loadable. */
    method AccountFor(resolutions: seq<Resolution>) returns (clean: seq<CleanBook>)
      modifies this
      ensures clean == Loadable(resolutions)
      ensures resolved == old(resolved) + Resolved(resolutions)
      ensures unresolved == old(unresolved) + |resolutions| - Resolved(resolutions)
      ensures attempts == old(attempts) + Attempts(resolutions)
      ensures observations == old(observations) + Observations(resolutions)
      ensures |clean| + rejected == Observations(resolutions) + old(rejected) + Rejections(resolutions)
    {
      NothingResolved();
      hide Loadable, CleanOnes, Settle, Resolved, Attempts, Observations, Rejections;
      assert resolutions[..0] == [];
      clean := [];
      for i := 0 to |resolutions|
        invariant clean == Loadable(resolutions[..i])
        invariant resolved == old(resolved) + Resolved(resolutions[..i])
        invariant unresolved == old(unresolved) + i - Resolved(resolutions[..i])
        invariant attempts == old(attempts) + Attempts(resolutions[..i])
        invariant observations == old(observations) + Observations(resolutions[..i])
        invariant |clean| + rejected == Observations(resolutions[..i]) + old(rejected) + Rejections(resolutions[..i])
      {
        var r := resolutions[i];
        OneMoreResolution(resolutions, i);
        if r.resolved {
          resolved := resolved + 1;
        } else {
          unresolved := unresolved + 1;
        }
        attempts := attempts + r.attempts;
        rejected := rejected + r.rejections;
        var mine := Sift(r);
        var settled := Settle(mine);
        clean := clean + settled;
      }
      assert resolutions[..|resolutions|] == resolutions;
    }
  }

  lemma NothingResolved()
    ensures Loadable([]) == [] && Resolved([]) == Attempts([]) == Observations([]) == Rejections([]) == 0
  {
  }

  lemma OneMoreResolution(resolutions: seq<Resolution>, i: nat)
    requires i < |resolutions|
    ensures var r := resolutions[i]; var before, now := resolutions[..i], resolutions[..i + 1];
      && Loadable(now) == Loadable(before) + Settle(CleanOnes(r.observations))
      && |Settle(CleanOnes(r.observations))| == |CleanOnes(r.observations)|
      && Resolved(now) == Resolved(before) + (if r.resolved then 1 else 0)
      && Attempts(now) == Attempts(before) + r.attempts
      && Observations(now) == Observations(before) + |r.observations|
      && Rejections(now) == Rejections(before) + r.rejections
  {
    assert resolutions[..i + 1][..i] == resolutions[..i];
    hide CleanOnes;
    SettlingKeepsKeys(CleanOnes(resolutions[i].observations));
    hide Settle;
  }

  function Resolved(resolutions: seq<Resolution>): nat {
    if resolutions == [] then 0
    else Resolved(resolutions[..|resolutions|-1]) + if resolutions[|resolutions|-1].resolved then 1 else 0
  }

  function Attempts(resolutions: seq<Resolution>): nat {
    if resolutions == [] then 0
    else Attempts(resolutions[..|resolutions|-1]) + resolutions[|resolutions|-1].attempts
  }

  function Observations(resolutions: seq<Resolution>): nat {
    if resolutions == [] then 0
    else Observations(resolutions[..|resolutions|-1]) + |resolutions[|resolutions|-1].observations|
  }

  function Rejections(resolutions: seq<Resolution>): nat {
    if resolutions == [] then 0
    else Rejections(resolutions[..|resolutions|-1]) + resolutions[|resolutions|-1].rejections
  }
}
