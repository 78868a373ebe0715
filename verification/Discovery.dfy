// Reading a file of candidates a slice at a time, and what a whole schedule of slices covers.

module Discovery {
  import opened Ordering

  datatype Candidate = Candidate(key: string, languages: set<string>)

  /** A line of the dump: how many columns, whether an edition, and the candidate it yields. */
  datatype Line = Line(columns: nat, edition: bool, candidate: Option<Candidate>)

  const DUMP_COLUMNS: nat := 5

  /** A candidate with no stated language is kept even when filtering. */
  predicate Spoken(c: Candidate, languages: Option<set<string>>) {
    languages.None? || c.languages == {} || c.languages * languages.value != {}
  }

  predicate Picked(line: Line, languages: Option<set<string>>) {
    && line.columns == DUMP_COLUMNS && line.edition
    && line.candidate.Some? && Spoken(line.candidate.value, languages)
  }

  /** Every candidate of a stretch of lines, in order. */
  function Candidates(lines: seq<Line>, languages: Option<set<string>>): seq<Candidate> {
    if lines == [] then [] else
      var last := lines[|lines|-1];
      Candidates(lines[..|lines|-1], languages) +
        if Picked(last, languages) then [last.candidate.value] else []
  }

  lemma {:induction false} CandidatesJoin(xs: seq<Line>, ys: seq<Line>, languages: Option<set<string>>)
    ensures Candidates(xs + ys, languages) == Candidates(xs, languages) + Candidates(ys, languages)
  {
    if ys == [] {
      assert xs + ys == xs;
    } else {
      assert (xs + ys)[..|xs + ys|-1] == xs + ys[..|ys|-1];
      CandidatesJoin(xs, ys[..|ys|-1], languages);
    }
  }

  /**
   * What is kept of a stretch of lines: the candidates of whole edition lines that state no
   * language, or one of those asked for, or when none are asked for.
   */
  lemma {:induction false} CandidatesAre(lines: seq<Line>, languages: Option<set<string>>, c: Candidate)
    ensures c in Candidates(lines, languages) <==>
      && (exists i :: 0 <= i < |lines| && lines[i] == Line(5, true, Some(c)))
      && (languages.Some? && c.languages != {} ==> exists l :: l in c.languages && l in languages.value)
  {
    if lines != [] {
      var init, last := lines[..|lines|-1], lines[|lines|-1];
      CandidatesAre(init, languages, c);
      assert lines == init + [last];
      if languages.Some? {
        assert c.languages * languages.value != {} <==> exists l :: l in c.languages && l in languages.value by {
          if l :| l in c.languages && l in languages.value {
            assert l in c.languages * languages.value;
          }
        }
      }
      if last == Line(5, true, Some(c)) {
        assert lines[|lines|-1] == Line(5, true, Some(c));
      }
      if i :| 0 <= i < |init| && init[i] == Line(5, true, Some(c)) {
        assert lines[i] == Line(5, true, Some(c));
      }
    }
  }

  lemma NextLine(lines: seq<Line>, start: nat, i: nat, languages: Option<set<string>>)
    requires start <= i < |lines|
    ensures Candidates(lines[start..i + 1], languages) ==
      Candidates(lines[start..i], languages) + if Picked(lines[i], languages) then [lines[i].candidate.value] else []
  {
    assert lines[start..i + 1][..i - start] == lines[start..i];
  }

  /** A cap of nothing at all is `-1`; zero asks for the configured default and never gets here. */
  predicate Capped(cap: Option<nat>, emitted: nat) {
    cap.Some? && emitted >= cap.value
  }

  function Min(a: nat, b: nat): nat {
    if a <= b then a else b
  }

  /**
   * One streaming pass. The cap is tested before a line is counted, so the lines counted are
   * exactly the lines examined.
   */
  method StreamDump(lines: seq<Line>, languages: Option<set<string>>, cap: Option<nat>, start: nat)
    returns (emitted: seq<Candidate>, linesRead: nat, exhausted: bool)
    ensures linesRead <= |lines|
    ensures !Capped(cap, 0) ==> Min(start, |lines|) <= linesRead
    ensures emitted == Candidates(lines[Min(start, linesRead)..linesRead], languages)
    ensures exhausted <==> cap.None? || |emitted| < cap.value
    ensures exhausted ==> linesRead == |lines|
    ensures !exhausted ==> |emitted| == cap.value
    ensures !exhausted && !Capped(cap, 0) ==> start < linesRead && Picked(lines[linesRead - 1], languages)
    ensures Capped(cap, 0) ==> linesRead == 0 && emitted == []
  {
    emitted := [];
    var seen := 0;
    assert Candidates([], languages) == [];
    hide Candidates;
    assert lines[0..0] == [];
    for i := 0 to |lines|
      invariant seen == i
      invariant emitted == Candidates(lines[Min(start, i)..i], languages)
      invariant cap.Some? ==> |emitted| <= cap.value
      invariant Capped(cap, |emitted|) && !Capped(cap, 0) ==> start < i && Picked(lines[i - 1], languages)
      invariant Capped(cap, 0) ==> i == 0
    {
      if Capped(cap, |emitted|) {
        break;
      }
      seen := seen + 1;
      if seen <= start {
        assert lines[Min(start, i + 1)..i + 1] == [] == lines[Min(start, i)..i];
        continue;
      }
      NextLine(lines, start, i, languages);
      var line := lines[i];
      if line.columns != DUMP_COLUMNS || !line.edition {
        continue;
      }
      if line.candidate.None? {
        continue;
      }
      var candidate := line.candidate.value;
      if languages.Some? && candidate.languages != {} && candidate.languages * languages.value == {} {
        continue;
      }
      emitted := emitted + [candidate];
    }
    linesRead := seen;
    exhausted := cap.None? || |emitted| < cap.value;
  }

  /** With a cap of zero a pass forgets where it was: it reports no line read. Any other cap keeps its place. */
  method CapZeroForgets(lines: seq<Line>, languages: Option<set<string>>, cap: Option<nat>, start: nat)
    returns (emitted: seq<Candidate>, linesRead: nat, exhausted: bool)
    requires 0 < start <= |lines|
    ensures linesRead < start <==> cap == Some(0)
  {
    emitted, linesRead, exhausted := StreamDump(lines, languages, cap, start);
  }

  // ----- the stored position

  datatype Position = Position(offset: nat, emitted: nat, exhausted: bool)

  function Stored(rows: map<string, Position>, key: string): Position {
    if key in rows then rows[key] else Position(0, 0, false)
  }

  /** A pass over the dump: where it began, what it wrote, where it stopped, and whether that was saved. */
  datatype Pass = Pass(start: nat, emitted: seq<Candidate>, stop: nat, exhausted: bool, saved: bool)

  /** What a pass with a cap of at least one does from its starting line. */
  predicate PassOver(lines: seq<Line>, languages: Option<set<string>>, p: Pass) {
    && p.start <= p.stop <= |lines|
    && p.emitted == Candidates(lines[p.start..p.stop], languages)
    && (p.exhausted ==> p.stop == |lines|)
    && (!p.exhausted ==> p.emitted != [])
  }

  function Offset(passes: seq<Pass>): nat {
    if passes == [] then 0
    else if passes[|passes|-1].saved then passes[|passes|-1].stop
    else Offset(passes[..|passes|-1])
  }

  predicate Exhausted(passes: seq<Pass>) {
    passes != [] &&
    if passes[|passes|-1].saved then passes[|passes|-1].exhausted else Exhausted(passes[..|passes|-1])
  }

  /** Each pass starts at the last position saved, and none starts once the file is exhausted. */
  predicate Scheduled(lines: seq<Line>, languages: Option<set<string>>, passes: seq<Pass>) {
    passes == [] ||
    var init, p := passes[..|passes|-1], passes[|passes|-1];
    && Scheduled(lines, languages, init)
    && !Exhausted(init) && p.start == Offset(init) && PassOver(lines, languages, p)
  }

  function Kept(passes: seq<Pass>): seq<Candidate> {
    if passes == [] then [] else
      Kept(passes[..|passes|-1]) + if passes[|passes|-1].saved then passes[|passes|-1].emitted else []
  }

  /** What the row ends up saying after these passes, each saving once its manifest is written. */
  function RowAfter(passes: seq<Pass>): Position {
    Position(Offset(passes), |Kept(passes)|, Exhausted(passes))
  }

  lemma PassAdded(lines: seq<Line>, languages: Option<set<string>>, passes: seq<Pass>, p: Pass)
    requires Scheduled(lines, languages, passes) && !Exhausted(passes) && p.start == Offset(passes)
    requires PassOver(lines, languages, p)
    ensures Scheduled(lines, languages, passes + [p]) && (passes + [p])[..|passes|] == passes
    ensures RowAfter(passes + [p]) ==
      if p.saved then Position(p.stop, RowAfter(passes).emitted + |p.emitted|, p.exhausted) else RowAfter(passes)
  {
    hide PassOver;
    assert (passes + [p])[..|passes|] == passes;
  }

  /**
   * However the file is cut up and whatever is lost to crashes, the saved passes have emitted
   * exactly the candidates of the lines before the position, once each and in order; an unsaved
   * pass repeats from there.
   */
  lemma {:induction false} SavedPassesCover(lines: seq<Line>, languages: Option<set<string>>, passes: seq<Pass>)
    requires Scheduled(lines, languages, passes)
    ensures Offset(passes) <= |lines|
    ensures Kept(passes) == Candidates(lines[..Offset(passes)], languages)
    ensures Exhausted(passes) ==> Kept(passes) == Candidates(lines, languages)
  {
    if passes != [] {
      var init, p := passes[..|passes|-1], passes[|passes|-1];
      SavedPassesCover(lines, languages, init);
      if p.saved {
        assert lines[..p.stop] == lines[..p.start] + lines[p.start..p.stop];
        CandidatesJoin(lines[..p.start], lines[p.start..p.stop], languages);
        assert p.stop == |lines| ==> lines[..p.stop] == lines;
      }
    } else {
      assert lines[..0] == [];
    }
  }

  /** A crash before the position is saved repeats a slice: what it wrote, the next saved pass covers. */
  lemma CrashOnlyRepeats(lines: seq<Line>, languages: Option<set<string>>, passes: seq<Pass>, lost: Pass, again: Pass)
    requires Scheduled(lines, languages, passes + [lost, again]) && !lost.saved && again.saved
    ensures again.start == lost.start
    ensures again.stop <= lost.stop ==> again.emitted <= lost.emitted
    ensures lost.stop <= again.stop ==> lost.emitted <= again.emitted
  {
    var two := passes + [lost, again];
    assert two[..|two|-1] == passes + [lost] && (passes + [lost])[..|passes|] == passes;
    if again.stop <= lost.stop {
      assert lines[lost.start..lost.stop] == lines[again.start..again.stop] + lines[again.stop..lost.stop];
      CandidatesJoin(lines[again.start..again.stop], lines[again.stop..lost.stop], languages);
    }
    if lost.stop <= again.stop {
      assert lines[again.start..again.stop] == lines[lost.start..lost.stop] + lines[lost.stop..again.stop];
      CandidatesJoin(lines[lost.start..lost.stop], lines[lost.stop..again.stop], languages);
    }
  }

  function Saved(passes: seq<Pass>): nat {
    if passes == [] then 0 else Saved(passes[..|passes|-1]) + if passes[|passes|-1].saved then 1 else 0
  }

  /** Every saved pass that is not the last one emits something, so few are needed. */
  lemma {:induction false} SchedulesEnd(lines: seq<Line>, languages: Option<set<string>>, passes: seq<Pass>)
    requires Scheduled(lines, languages, passes)
    ensures !Exhausted(passes) ==> Saved(passes) <= |Candidates(lines, languages)|
    ensures Saved(passes) <= |Candidates(lines, languages)| + 1
  {
    SavedAtMostKept(lines, languages, passes);
    SavedPassesCover(lines, languages, passes);
    var n := Offset(passes);
    assert lines == lines[..n] + lines[n..];
    CandidatesJoin(lines[..n], lines[n..], languages);
  }

  lemma {:induction false} SavedAtMostKept(lines: seq<Line>, languages: Option<set<string>>, passes: seq<Pass>)
    requires Scheduled(lines, languages, passes)
    ensures Saved(passes) <= |Kept(passes)| + if Exhausted(passes) then 1 else 0
  {
    if passes != [] {
      SavedAtMostKept(lines, languages, passes[..|passes|-1]);
    }
  }

  class DiscoveryState {
    var rows: map<string, Position>

    constructor ()
      ensures rows == map[]
    {
      rows := map[];
    }

    method ReadPosition(key: string) returns (p: Position)
      ensures p == Stored(rows, key)
    {
      p := if key in rows then rows[key] else Position(0, 0, false);
    }

    method SavePosition(key: string, offset: nat, emitted: nat, exhausted: bool)
      modifies this
      ensures rows == old(rows)[key := Position(offset, Stored(old(rows), key).emitted + emitted, exhausted)]
    {
      var already := if key in rows then rows[key].emitted else 0;
      rows := rows[key := Position(offset, already + emitted, exhausted)];
    }

    /** One scheduled run over the dump; a crash strikes after the manifest is written, before the save. */
    method DiscoverDump(key: string, lines: seq<Line>, languages: Option<set<string>>, cap: Option<nat>, crash: bool,
                        ghost passes: seq<Pass>)
      returns (manifest: seq<Candidate>, ghost passes': seq<Pass>)
      requires !Capped(cap, 0)
      requires Scheduled(lines, languages, passes) && Stored(rows, key) == RowAfter(passes)
      modifies this
      ensures Scheduled(lines, languages, passes') && Stored(rows, key) == RowAfter(passes')
      ensures Exhausted(passes) ==> passes' == passes && manifest == []
      ensures !Exhausted(passes) ==> |passes'| == |passes| + 1 && passes'[..|passes|] == passes
      ensures !Exhausted(passes) ==> passes'[|passes|].emitted == manifest && passes'[|passes|].saved == !crash
      ensures forall k :: k != key ==> Stored(rows, k) == Stored(old(rows), k)
    {
      var position := ReadPosition(key);
      if position.exhausted {
        return [], passes;
      }
      var stop, exhausted;
      manifest, stop, exhausted := StreamDump(lines, languages, cap, position.offset);
      SavedPassesCover(lines, languages, passes);
      ghost var p := Pass(position.offset, manifest, stop, exhausted, !crash);
      PassAdded(lines, languages, passes, p);
      hide Scheduled, RowAfter, Exhausted, Candidates;
      passes' := passes + [p];
      if !crash {
        SavePosition(key, stop, |manifest|, exhausted);
      }
    }
  }
}
