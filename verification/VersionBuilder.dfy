/**
 Version edits and `VersionSet::Builder`, which applies a run of edits to a base version
 without building the versions in between.
 */
module VersionBuilder {
  import opened InternalKeys
  import opened Versions

  datatype Edit = Edit(deleted: set<(nat, nat)>, added: seq<(nat, File)>)

  ghost predicate ValidEdit(e: Edit)
  {
    && (forall p :: p in e.deleted ==> p.0 < NumLevels)
    && (forall i :: 0 <= i < |e.added| ==> e.added[i].0 < NumLevels)
  }

  /** BySmallestKey: by smallest key, ties broken by file number. */
  predicate Less(f: File, g: File)
  {
    || Before(f.smallest, g.smallest)
    || (!Before(g.smallest, f.smallest) && f.number < g.number)
  }

  ghost predicate StrictOrder(files: Level)
  {
    forall i, j :: 0 <= i < j < |files| ==> Less(files[i], files[j])
  }

  /** What the builder records about one level. */
  datatype LevelState = LevelState(deleted: set<nat>, added: Level)

  type LevelStates = seq<LevelState>

  /** Insertion into the ordered set of added files; an equivalent file is kept instead. */
  function InsertFile(f: File, files: Level): (r: Level)
    ensures forall g :: g in r ==> g == f || g in files
    ensures forall g :: g in files ==> g in r
    ensures exists g :: g in r && !Less(f, g) && !Less(g, f)
  {
    if files == [] then [f]
    else if Less(f, files[0]) then
      assert f in [f] + files;
      [f] + files
    else if !Less(files[0], f) then files
    else
      var rest := InsertFile(f, files[1..]);
      var g :| g in rest && !Less(f, g) && !Less(g, f);
      assert g in [files[0]] + rest;
      [files[0]] + rest
  }

  lemma {:induction false} InsertKeepsOrder(f: File, files: Level)
    requires StrictOrder(files)
    ensures StrictOrder(InsertFile(f, files))
  {
    if files != [] && Less(files[0], f) {
      InsertKeepsOrder(f, files[1..]);
      var rest := InsertFile(f, files[1..]);
      forall j | 0 <= j < |rest|
        ensures Less(files[0], rest[j])
      {
        assert rest[j] in rest;
        assert rest[j] in files[1..] ==> rest[j] in files;
      }
    } else if files != [] && Less(f, files[0]) {
      forall j | 0 <= j < |files|
        ensures Less(f, files[j])
      {
        assert j > 0 ==> Less(files[0], files[j]);
      }
    }
  }

  function DeletedAt(deleted: set<(nat, nat)>, level: nat): set<nat>
  {
    set p | p in deleted && p.0 == level :: p.1
  }

  function ApplyDeletions(ls: LevelStates, deleted: set<(nat, nat)>): (r: LevelStates)
    ensures |r| == |ls|
  {
    seq(|ls|, l requires 0 <= l < |ls| =>
      LevelState(ls[l].deleted + DeletedAt(deleted, l), ls[l].added))
  }

  function ApplyAdditions(ls: LevelStates, added: seq<(nat, File)>): (r: LevelStates)
    requires forall i :: 0 <= i < |added| ==> added[i].0 < |ls|
    ensures |r| == |ls|
  {
    if added == [] then ls else
      var n := |added| - 1;
      var r := ApplyAdditions(ls, added[..n]);
      var (l, f) := added[n];
      r[l := LevelState(r[l].deleted - {f.number}, InsertFile(f, r[l].added))]
  }

  function ApplyEdit(ls: LevelStates, e: Edit): LevelStates
    requires |ls| == NumLevels && ValidEdit(e)
  {
    ApplyAdditions(ApplyDeletions(ls, e.deleted), e.added)
  }

  /** `MaybeAddFile`: what a file contributes to the new level. */
  function MaybeAdd(f: File, deleted: set<nat>): Level
  {
    if f.number in deleted then [] else [f]
  }

  /** The level `SaveTo` writes: base and added files merged, the deleted ones left out. */
  function Saved(base: Level, added: Level, deleted: set<nat>): Level
    decreases |base| + |added|
  {
    if base == [] && added == [] then []
    else if added == [] || (base != [] && !Less(added[0], base[0])) then
      MaybeAdd(base[0], deleted) + Saved(base[1..], added, deleted)
    else
      MaybeAdd(added[0], deleted) + Saved(base, added[1..], deleted)
  }

  class Builder {
    const base: Version
    var levels: LevelStates

    ghost predicate Valid()
      reads this
    {
      && |base| == NumLevels && |levels| == NumLevels
      && (forall l :: 0 <= l < NumLevels ==> StrictOrder(levels[l].added))
    }

    constructor (base: Version)
      requires |base| == NumLevels
      ensures Valid() && this.base == base
      ensures levels == NoStates
    {
      this.base := base;
      levels := NoStates;
    }

    method Apply(e: Edit)
      requires Valid() && ValidEdit(e)
      modifies this
      ensures Valid()
      ensures levels == ApplyEdit(old(levels), e)
    {
      DeleteFiles(e.deleted);
      AddFiles(e.added);
    }

    method DeleteFiles(deleted: set<(nat, nat)>)
      requires Valid() && forall p :: p in deleted ==> p.0 < NumLevels
      modifies this
      ensures Valid()
      ensures levels == ApplyDeletions(old(levels), deleted)
    {
      var todo := deleted;
      while todo != {}
        invariant todo <= deleted
        invariant Valid()
        invariant forall l :: 0 <= l < NumLevels ==>
                    levels[l] == LevelState(old(levels)[l].deleted + DeletedAt(deleted - todo, l), old(levels)[l].added)
      {
        var p :| p in todo;
        ghost var done := deleted - todo;
        assert forall l :: DeletedAt(done + {p}, l) == DeletedAt(done, l) + (if l == p.0 then {p.1} else {});
        levels := levels[p.0 := levels[p.0].(deleted := levels[p.0].deleted + {p.1})];
        todo := todo - {p};
        assert deleted - todo == done + {p};
      }
      assert deleted - todo == deleted;
    }

    method AddFiles(added: seq<(nat, File)>)
      requires Valid() && forall i :: 0 <= i < |added| ==> added[i].0 < NumLevels
      modifies this
      ensures Valid()
      ensures levels == ApplyAdditions(old(levels), added)
    {
      for i := 0 to |added|
        invariant Valid()
        invariant levels == ApplyAdditions(old(levels), added[..i])
      {
        assert added[..i + 1][..i] == added[..i];
        var (l, f) := added[i];
        InsertKeepsOrder(f, levels[l].added);
        levels := levels[l := LevelState(levels[l].deleted - {f.number}, InsertFile(f, levels[l].added))];
      }
      assert added[..|added|] == added;
    }

    method SaveTo() returns (v: Version)
      requires Valid()
      ensures v == SavedVersion(base, levels)
    {
      v := [];
      for level := 0 to NumLevels
        invariant |v| == level
        invariant forall l :: 0 <= l < level ==> v[l] == Saved(base[l], levels[l].added, levels[l].deleted)
      {
        var files := SaveLevel(base[level], levels[level]);
        v := v + [files];
      }
    }
  }

  function SavedVersion(base: Version, ls: LevelStates): Version
    requires |base| == |ls|
  {
    seq(|base|, l requires 0 <= l < |base| => Saved(base[l], ls[l].added, ls[l].deleted))
  }

  /** The merge loop of `SaveTo` for one level. */
  method SaveLevel(base: Level, st: LevelState) returns (files: Level)
    ensures files == Saved(base, st.added, st.deleted)
  {
    files := [];
    var pos := 0;
    assert base[0..] == base && st.added[0..] == st.added;
    for i := 0 to |st.added|
      invariant 0 <= pos <= |base|
      invariant files + Saved(base[pos..], st.added[i..], st.deleted) == Saved(base, st.added, st.deleted)
    {
      files, pos := AddBaseFiles(base, pos, st.added, i, st.deleted, files);
      assert st.added[i..][1..] == st.added[i + 1..];
      files := files + MaybeAdd(st.added[i], st.deleted);
    }
    files, pos := AddBaseFiles(base, pos, st.added, |st.added|, st.deleted, files);
  }

  /** The inner loops of `SaveTo`: the base files that are not after the next added file. */
  method AddBaseFiles(base: Level, pos: nat, added: Level, i: nat, deleted: set<nat>, files: Level)
    returns (files': Level, pos': nat)
    requires pos <= |base| && i <= |added|
    ensures pos <= pos' <= |base|
    ensures files' + Saved(base[pos'..], added[i..], deleted) == files + Saved(base[pos..], added[i..], deleted)
    ensures pos' < |base| ==> i < |added| && Less(added[i], base[pos'])
  {
    hide Saved, MaybeAdd, Less;
    files', pos' := files, pos;
    while pos' < |base| && (i == |added| || !Less(added[i], base[pos']))
      invariant pos <= pos' <= |base|
      invariant files' + Saved(base[pos'..], added[i..], deleted) == files + Saved(base[pos..], added[i..], deleted)
    {
      BaseFirst(base, pos', added, i, deleted);
      files' := files' + MaybeAdd(base[pos'], deleted);
      pos' := pos' + 1;
    }
  }

  lemma {:induction false} BaseFirst(base: Level, pos: nat, added: Level, i: nat, deleted: set<nat>)
    requires pos < |base| && i <= |added| && (i == |added| || !Less(added[i], base[pos]))
    ensures Saved(base[pos..], added[i..], deleted) ==
      MaybeAdd(base[pos], deleted) + Saved(base[pos + 1..], added[i..], deleted)
  {
    assert base[pos..][1..] == base[pos + 1..];
  }

  lemma {:induction false} SavedMembers(base: Level, added: Level, deleted: set<nat>, f: File)
    ensures f in Saved(base, added, deleted) <==> (f in base || f in added) && f.number !in deleted
    decreases |base| + |added|
  {
    if base == [] && added == [] {
    } else if added == [] || (base != [] && !Less(added[0], base[0])) {
      assert base == [base[0]] + base[1..];
      SavedMembers(base[1..], added, deleted, f);
    } else {
      assert added == [added[0]] + added[1..];
      SavedMembers(base, added[1..], deleted, f);
    }
  }

  /** Every file of `files` comes after `f`. */
  ghost predicate AllAfter(f: File, files: Level)
  {
    forall g :: g in files ==> Less(f, g)
  }

  /** No file of one list ties with a file of the other. */
  ghost predicate Apart(base: Level, added: Level)
  {
    forall f, g :: f in base && g in added ==> Less(f, g) || Less(g, f)
  }

  lemma {:induction false} LessTransitive(f: File, g: File, h: File)
    requires Less(f, g) && Less(g, h)
    ensures Less(f, h)
  {
  }

  lemma {:induction false} HeadFirst(files: Level)
    requires StrictOrder(files) && files != []
    ensures AllAfter(files[0], files[1..]) && StrictOrder(files[1..])
  {
  }

  lemma {:induction false} SavedInOrder(base: Level, added: Level, deleted: set<nat>)
    requires StrictOrder(base) && StrictOrder(added) && Apart(base, added)
    ensures StrictOrder(Saved(base, added, deleted))
    decreases |base| + |added|
  {
    if base == [] && added == [] {
    } else if added == [] || (base != [] && !Less(added[0], base[0])) {
      HeadFirst(base);
      SavedInOrder(base[1..], added, deleted);
      if added != [] {
        HeadAfter(base[0], added);
      }
      PrependInOrder(base[0], base[1..], added, deleted);
    } else {
      HeadFirst(added);
      SavedInOrder(base, added[1..], deleted);
      if base != [] {
        HeadAfter(added[0], base);
      }
      PrependInOrder(added[0], base, added[1..], deleted);
    }
  }

  /** A saved level runs by smallest key, and among files with the same one by number. */
  lemma {:induction false} SavedByKeyThenNumber(base: Level, added: Level, deleted: set<nat>, i: nat, j: nat)
    requires StrictOrder(base) && StrictOrder(added) && Apart(base, added) && i < j < |Saved(base, added, deleted)|
    ensures var f, g := Saved(base, added, deleted)[i], Saved(base, added, deleted)[j];
      !Before(g.smallest, f.smallest) && (!Before(f.smallest, g.smallest) ==> f.number < g.number)
  {
    SavedInOrder(base, added, deleted);
  }

  lemma {:induction false} HeadAfter(f: File, files: Level)
    requires StrictOrder(files) && files != [] && Less(f, files[0])
    ensures AllAfter(f, files)
  {
    forall g | g in files
      ensures Less(f, g)
    {
      var k :| 0 <= k < |files| && files[k] == g;
      if k > 0 {
        LessTransitive(f, files[0], g);
      }
    }
  }

  /** Putting a least file in front keeps the order. */
  lemma {:induction false} PrependInOrder(f: File, base: Level, added: Level, deleted: set<nat>)
    requires StrictOrder(Saved(base, added, deleted))
    requires AllAfter(f, base) && AllAfter(f, added)
    ensures StrictOrder(MaybeAdd(f, deleted) + Saved(base, added, deleted))
  {
    var rest := Saved(base, added, deleted);
    forall j | 0 <= j < |rest|
      ensures Less(f, rest[j])
    {
      SavedMembers(base, added, deleted, rest[j]);
    }
  }

  /** An ordered list of files is determined by its members. */
  lemma {:induction false} OrderedByMembers(a: Level, b: Level)
    requires StrictOrder(a) && StrictOrder(b)
    requires forall f :: f in a <==> f in b
    ensures a == b
  {
    assert |a| > 0 ==> a[0] in a;
    assert |b| > 0 ==> b[0] in b;
    if a != [] {
      SameHead(a, b);
      HeadFirst(a);
      HeadFirst(b);
      assert !Less(a[0], a[0]);
      forall f
        ensures f in a[1..] <==> f in b[1..]
      {
        assert f in a <==> f == a[0] || f in a[1..];
        assert f in b <==> f == b[0] || f in b[1..];
      }
      OrderedByMembers(a[1..], b[1..]);
    }
  }

  lemma {:induction false} SameHead(a: Level, b: Level)
    requires StrictOrder(a) && StrictOrder(b)
    requires a != [] && b != [] && a[0] in b && b[0] in a
    ensures a[0] == b[0]
  {
    var i :| 0 <= i < |b| && b[i] == a[0];
    var j :| 0 <= j < |a| && a[j] == b[0];
    assert i > 0 ==> Less(b[0], b[i]);
    assert j > 0 ==> Less(a[0], a[j]);
  }

  // ------------------------------------------------------------------
  // Replaying a run of edits through one builder.

  const NoState := LevelState({}, [])
  const NoStates: LevelStates := [NoState, NoState, NoState, NoState, NoState, NoState, NoState]
  const EmptyVersion: Version := [[], [], [], [], [], [], []]

  function ApplyAll(ls: LevelStates, edits: seq<Edit>): (r: LevelStates)
    requires |ls| == NumLevels
    requires forall i :: 0 <= i < |edits| ==> ValidEdit(edits[i])
    ensures |r| == NumLevels
  {
    if edits == [] then ls
    else ApplyEdit(ApplyAll(ls, edits[..|edits| - 1]), edits[|edits| - 1])
  }

  /** `LogAndApply`: one edit applied to the current version. */
  function ApplyOne(v: Version, e: Edit): (r: Version)
    requires |v| == NumLevels && ValidEdit(e)
    ensures |r| == NumLevels
  {
    SavedVersion(v, ApplyEdit(NoStates, e))
  }

  /** Every edit applied in turn, building each version on the way. */
  function ApplyEach(v: Version, edits: seq<Edit>): (r: Version)
    requires |v| == NumLevels
    requires forall i :: 0 <= i < |edits| ==> ValidEdit(edits[i])
    ensures |r| == NumLevels
  {
    if edits == [] then v
    else ApplyOne(ApplyEach(v, edits[..|edits| - 1]), edits[|edits| - 1])
  }

  /** A file number stands for one file throughout. */
  ghost predicate NumbersFixFiles(files: set<File>)
  {
    forall f, g :: f in files && g in files && f.number == g.number ==> f == g
  }

  ghost predicate AddsFrom(e: Edit, files: set<File>)
  {
    forall p :: p in e.added ==> p.1 in files
  }

  ghost predicate AddsOnlyNew(v: Version, e: Edit)
    requires |v| == NumLevels && ValidEdit(e)
  {
    forall i :: 0 <= i < |e.added| ==> e.added[i].1 !in v[e.added[i].0]
  }

  /** No edit adds a file to a level that already holds it. */
  ghost predicate FreshAdds(v: Version, edits: seq<Edit>)
    requires |v| == NumLevels
    requires forall i :: 0 <= i < |edits| ==> ValidEdit(edits[i])
  {
    edits == [] ||
    (FreshAdds(v, edits[..|edits| - 1]) &&
     AddsOnlyNew(ApplyEach(v, edits[..|edits| - 1]), edits[|edits| - 1]))
  }

  ghost predicate AddedFrom(ls: LevelStates, files: set<File>)
  {
    forall l, f :: 0 <= l < |ls| && f in ls[l].added ==> f in files
  }

  ghost predicate AddedInOrder(ls: LevelStates)
  {
    forall l :: 0 <= l < |ls| ==> StrictOrder(ls[l].added)
  }

  lemma {:induction false} AdditionsMembers(ls: LevelStates, added: seq<(nat, File)>, files: set<File>, l: nat, f: File)
    requires forall i :: 0 <= i < |added| ==> added[i].0 < |ls|
    requires l < |ls| && NumbersFixFiles(files) && f in files
    requires AddedFrom(ls, files) && forall p :: p in added ==> p.1 in files
    ensures f in ApplyAdditions(ls, added)[l].added <==> f in ls[l].added || (l, f) in added
    ensures f.number in ApplyAdditions(ls, added)[l].deleted <==>
            f.number in ls[l].deleted && (l, f) !in added
  {
    if added != [] {
      var n := |added| - 1;
      assert added == added[..n] + [added[n]];
      AdditionsMembers(ls, added[..n], files, l, f);
      AdditionsFrom(ls, added[..n], files);
    }
  }

  lemma {:induction false} AdditionsFrom(ls: LevelStates, added: seq<(nat, File)>, files: set<File>)
    requires forall i :: 0 <= i < |added| ==> added[i].0 < |ls|
    requires AddedFrom(ls, files) && forall p :: p in added ==> p.1 in files
    ensures AddedFrom(ApplyAdditions(ls, added), files)
  {
    if added != [] {
      AdditionsFrom(ls, added[..|added| - 1], files);
    }
  }

  lemma {:induction false} AdditionsInOrder(ls: LevelStates, added: seq<(nat, File)>)
    requires forall i :: 0 <= i < |added| ==> added[i].0 < |ls|
    requires AddedInOrder(ls)
    ensures AddedInOrder(ApplyAdditions(ls, added))
  {
    if added != [] {
      var n := |added| - 1;
      AdditionsInOrder(ls, added[..n]);
      var (l, f) := added[n];
      InsertKeepsOrder(f, ApplyAdditions(ls, added[..n])[l].added);
    }
  }

  ghost predicate ValidEdits(edits: seq<Edit>)
  {
    forall i :: 0 <= i < |edits| ==> ValidEdit(edits[i])
  }

  /** What one edit does to the builder's record of file `f` at level `l`. */
  lemma {:induction false} EditMembers(ls: LevelStates, e: Edit, files: set<File>, l: nat, f: File)
    requires |ls| == NumLevels && ValidEdit(e) && l < NumLevels
    requires NumbersFixFiles(files) && f in files && AddsFrom(e, files) && AddedFrom(ls, files)
    ensures f in ApplyEdit(ls, e)[l].added <==> f in ls[l].added || (l, f) in e.added
    ensures f.number in ApplyEdit(ls, e)[l].deleted <==>
            (f.number in ls[l].deleted || (l, f.number) in e.deleted) && (l, f) !in e.added
  {
    var middle := ApplyDeletions(ls, e.deleted);
    AdditionsMembers(middle, e.added, files, l, f);
    assert f.number in DeletedAt(e.deleted, l) <==> (l, f.number) in e.deleted;
  }

  ghost predicate Records(st: LevelState, level: Level)
  {
    forall f :: f in level <==> f in st.added && f.number !in st.deleted
  }

  /** The builder's record of a level says exactly which files the level holds. */
  ghost predicate Mirrors(ls: LevelStates, v: Version, files: set<File>)
    requires |ls| == NumLevels && |v| == NumLevels
  {
    && AddedFrom(ls, files) && AddedInOrder(ls)
    && (forall l :: 0 <= l < NumLevels ==> StrictOrder(v[l]))
    && (forall l :: 0 <= l < NumLevels ==> Records(ls[l], v[l]))
  }

  lemma {:induction false} MirrorStep(ls: LevelStates, v: Version, e: Edit, files: set<File>)
    requires |ls| == NumLevels && |v| == NumLevels && ValidEdit(e)
    requires NumbersFixFiles(files) && AddsFrom(e, files)
    requires Mirrors(ls, v, files) && AddsOnlyNew(v, e)
    ensures Mirrors(ApplyEdit(ls, e), ApplyOne(v, e), files)
  {
    var v' := ApplyOne(v, e);
    AdditionsInOrder(ApplyDeletions(ls, e.deleted), e.added);
    AdditionsFrom(ApplyDeletions(ls, e.deleted), e.added, files);
    forall l | 0 <= l < NumLevels
      ensures StrictOrder(v'[l])
    {
      forall f | f in v[l] ensures f in files {
        assert Records(ls[l], v[l]);
      }
      StepInOrder(v, e, files, l);
    }
    forall l | 0 <= l < NumLevels
      ensures Records(ApplyEdit(ls, e)[l], v'[l])
    {
      forall f {
        StepMembers(ls, v, e, files, l, f);
      }
    }
  }

  lemma {:induction false} StepInOrder(v: Version, e: Edit, files: set<File>, l: nat)
    requires |v| == NumLevels && ValidEdit(e) && l < NumLevels
    requires NumbersFixFiles(files) && AddsFrom(e, files) && AddsOnlyNew(v, e)
    requires StrictOrder(v[l]) && forall f :: f in v[l] ==> f in files
    ensures StrictOrder(ApplyOne(v, e)[l])
  {
    var st := ApplyEdit(NoStates, e);
    AdditionsInOrder(ApplyDeletions(NoStates, e.deleted), e.added);
    AdditionsFrom(ApplyDeletions(NoStates, e.deleted), e.added, files);
    forall f, g | f in v[l] && g in st[l].added
      ensures Less(f, g) || Less(g, f)
    {
      EditMembers(NoStates, e, files, l, g);
      assert f != g;
      assert f.number != g.number;
    }
    SavedInOrder(v[l], st[l].added, st[l].deleted);
  }

  /** Which files a level holds after one edit. */
  lemma {:induction false} AppliedMembers(v: Version, e: Edit, files: set<File>, l: nat, f: File)
    requires |v| == NumLevels && ValidEdit(e) && l < NumLevels
    requires NumbersFixFiles(files) && AddsFrom(e, files) && forall g :: g in v[l] ==> g in files
    ensures f in ApplyOne(v, e)[l] <==> (l, f) in e.added || (f in v[l] && (l, f.number) !in e.deleted)
  {
    var st := ApplyEdit(NoStates, e);
    SavedMembers(v[l], st[l].added, st[l].deleted, f);
    AdditionsFrom(ApplyDeletions(NoStates, e.deleted), e.added, files);
    if f in files {
      EditMembers(NoStates, e, files, l, f);
    }
  }

  lemma {:induction false} StepMembers(ls: LevelStates, v: Version, e: Edit, files: set<File>, l: nat, f: File)
    requires |ls| == NumLevels && |v| == NumLevels && ValidEdit(e) && l < NumLevels
    requires NumbersFixFiles(files) && AddsFrom(e, files) && Mirrors(ls, v, files)
    ensures f in ApplyOne(v, e)[l] <==>
            f in ApplyEdit(ls, e)[l].added && f.number !in ApplyEdit(ls, e)[l].deleted
  {
    assert Records(ls[l], v[l]);
    AppliedMembers(v, e, files, l, f);
    AdditionsFrom(ApplyDeletions(ls, e.deleted), e.added, files);
    if f in files {
      EditMembers(ls, e, files, l, f);
    }
  }

  lemma {:induction false} MirrorAll(edits: seq<Edit>, files: set<File>)
    requires ValidEdits(edits) && NumbersFixFiles(files) && FreshAdds(EmptyVersion, edits)
    requires forall i :: 0 <= i < |edits| ==> AddsFrom(edits[i], files)
    ensures Mirrors(ApplyAll(NoStates, edits), ApplyEach(EmptyVersion, edits), files)
  {
    if edits != [] {
      var n := |edits| - 1;
      MirrorAll(edits[..n], files);
      MirrorStep(ApplyAll(NoStates, edits[..n]), ApplyEach(EmptyVersion, edits[..n]), edits[n], files);
    }
  }

  /**
   Manifest replay: one builder fed every edit of the manifest saves the very version that
   applying the edits one at a time installed last.
   */
  lemma {:induction false} ReplayMatches(edits: seq<Edit>, files: set<File>)
    requires ValidEdits(edits) && NumbersFixFiles(files) && FreshAdds(EmptyVersion, edits)
    requires forall i :: 0 <= i < |edits| ==> AddsFrom(edits[i], files)
    ensures SavedVersion(EmptyVersion, ApplyAll(NoStates, edits)) == ApplyEach(EmptyVersion, edits)
  {
    MirrorAll(edits, files);
    SavedFromMirror(ApplyAll(NoStates, edits), ApplyEach(EmptyVersion, edits), files);
  }

  lemma {:induction false} SavedFromMirror(ls: LevelStates, v: Version, files: set<File>)
    requires |ls| == NumLevels && |v| == NumLevels && Mirrors(ls, v, files)
    ensures SavedVersion(EmptyVersion, ls) == v
  {
    forall l | 0 <= l < NumLevels
      ensures Saved(EmptyVersion[l], ls[l].added, ls[l].deleted) == v[l]
    {
      assert EmptyVersion[l] == [];
      SavedFromRecord(ls[l], v[l]);
    }
  }

  lemma {:induction false} SavedFromRecord(st: LevelState, level: Level)
    requires StrictOrder(st.added) && StrictOrder(level)
    requires Records(st, level)
    ensures Saved([], st.added, st.deleted) == level
  {
    var saved := Saved([], st.added, st.deleted);
    SavedInOrder([], st.added, st.deleted);
    forall f
      ensures f in saved <==> f in level
    {
      SavedMembers([], st.added, st.deleted, f);
    }
    OrderedByMembers(saved, level);
  }
}
