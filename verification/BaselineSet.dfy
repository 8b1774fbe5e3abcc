/** Baseline sets: paths that cover everything under them, and their roll-up into directories. */
module BaselineSet {
  const BL_MAX: nat := 512
  const PATH_CAP: nat := 256

  // ----- paths -----

  /** Whether a path is the prefix or lies below it. */
  predicate Under(path: string, prefix: string) {
    && prefix != "" && prefix <= path
    && (|path| == |prefix| || path[|prefix|] == '/' || prefix[|prefix| - 1] == '/')
  }

  predicate Covered(set_: seq<string>, path: string) {
    exists i | 0 <= i < |set_| :: Under(path, set_[i])
  }

  /** The index of the last slash, or the length when there is none. */
  function LastSlash(path: string): (i: nat)
    ensures i <= |path| && (i < |path| ==> path[i] == '/')
    ensures i == |path| <==> '/' !in path
    ensures forall j | i < j < |path| :: path[j] != '/'
  {
    if path == "" then 0
    else if path[|path| - 1] == '/' then |path| - 1
    else
      var i := LastSlash(path[..|path| - 1]);
      if i == |path| - 1 then |path| else i
  }

  /** The directory of a path: up to the last slash, at least one character if there is one. */
  function Parent(path: string): (d: string)
    requires |path| < PATH_CAP
    ensures |d| < PATH_CAP && d <= path && (d == "" <==> path == "")
  {
    var slash := LastSlash(path);
    if path == "" then "" else path[..if 0 < slash < |path| then slash else 1]
  }

  lemma {:induction false} UnderTrans(p: string, q: string, r: string)
    requires Under(p, q) && Under(q, r)
    ensures Under(p, r)
  {
    if |q| > |r| {
      assert p[|r|] == q[|r|];
    }
  }

  /** A path with a slash, as every absolute path, or of at most one character. */
  predicate Anchored(path: string) {
    '/' in path || |path| <= 1
  }

  /** Such a path lies under its directory, and no other path does. */
  lemma UnderParent(path: string)
    requires 0 < |path| < PATH_CAP
    ensures Under(path, Parent(path)) <==> Anchored(path)
  {
  }

  // ----- adding -----

  /** What a slot of the set holds; a set read from a file may hold empty paths. */
  predicate Storable(p: string) {
    |p| < PATH_CAP
  }

  function Cut(p: string): (r: string) {
    if |p| < PATH_CAP then p else p[..PATH_CAP - 1]
  }

  /** The set after an addition: 1 added, 0 present, -1 empty path or full. */
  function Added(set_: seq<string>, p: string): (r: (seq<string>, int)) {
    if p == "" then (set_, -1)
    else if p in set_ then (set_, 0)
    else if |set_| >= BL_MAX then (set_, -1)
    else (set_ + [Cut(p)], 1)
  }

  function AddedAll(set_: seq<string>, ps: seq<string>): (r: seq<string>) {
    if |ps| == 0 then set_ else Added(AddedAll(set_, ps[..|ps| - 1]), ps[|ps| - 1]).0
  }

  predicate AllStorable(ps: seq<string>) {
    forall i | 0 <= i < |ps| :: Storable(ps[i])
  }

  /** With room for all, nothing but empty paths is lost. */
  lemma {:induction false} AddedAllExact(set_: seq<string>, ps: seq<string>)
    requires AllStorable(ps) && |set_| + |ps| <= BL_MAX
    ensures |AddedAll(set_, ps)| <= |set_| + |ps|
    ensures forall p :: p in AddedAll(set_, ps) <==> p in set_ || (p in ps && p != "")
  {
    if |ps| > 0 {
      var n := |ps| - 1;
      AddedAllExact(set_, ps[..n]);
      assert ps == ps[..n] + [ps[n]];
    }
  }

  // ----- rolling up -----

  /** The directories of the entries, in the order they appear. */
  function Dirs(ps: seq<string>): (ds: seq<string>)
    requires AllStorable(ps)
    ensures |ds| <= |ps| && AllStorable(ds)
  {
    if |ps| == 0 then []
    else
      var ds, d := Dirs(ps[..|ps| - 1]), Parent(ps[|ps| - 1]);
      if d in ds then ds else ds + [d]
  }

  lemma {:induction false} DirKnown(ps: seq<string>, i: nat)
    requires AllStorable(ps) && i < |ps|
    ensures Parent(ps[i]) in Dirs(ps)
  {
    if i < |ps| - 1 {
      DirKnown(ps[..|ps| - 1], i);
    }
  }

  /** How many entries a directory has. */
  function CountIn(ps: seq<string>, d: string): (n: nat)
    requires AllStorable(ps)
  {
    if |ps| == 0 then 0 else CountIn(ps[..|ps| - 1], d) + if Parent(ps[|ps| - 1]) == d then 1 else 0
  }

  /** The directories with at least `t` entries in `all`. */
  function Big(ds: seq<string>, all: seq<string>, t: int): (r: seq<string>)
    requires AllStorable(all)
  {
    if |ds| == 0 then []
    else
      var last := ds[|ds| - 1];
      Big(ds[..|ds| - 1], all, t) + if CountIn(all, last) >= t then [last] else []
  }

  /** The entries whose directory has fewer. */
  function Small(ps: seq<string>, all: seq<string>, t: int): (r: seq<string>)
    requires AllStorable(ps) && AllStorable(all)
    ensures AllStorable(r)
  {
    if |ps| == 0 then []
    else
      var last := ps[|ps| - 1];
      Small(ps[..|ps| - 1], all, t) + if CountIn(all, Parent(last)) < t then [last] else []
  }

  function AtLeastOne(t: int): (r: int) {
    if t < 1 then 1 else t
  }

  function RolledUp(ps: seq<string>, t: int): (r: seq<string>)
    requires AllStorable(ps)
  {
    AddedAll(AddedAll([], Big(Dirs(ps), ps, AtLeastOne(t))), Small(ps, ps, AtLeastOne(t)))
  }

  lemma {:induction false} BigExact(ds: seq<string>, all: seq<string>, t: int)
    requires AllStorable(all) && AllStorable(ds)
    ensures AllStorable(Big(ds, all, t))
    ensures forall d :: d in Big(ds, all, t) <==> d in ds && CountIn(all, d) >= t
  {
    if |ds| > 0 {
      BigExact(ds[..|ds| - 1], all, t);
      assert ds == ds[..|ds| - 1] + [ds[|ds| - 1]];
    }
  }

  lemma {:induction false} SmallExact(ps: seq<string>, all: seq<string>, t: int)
    requires AllStorable(ps) && AllStorable(all)
    ensures forall p :: p in Small(ps, all, t) <==> p in ps && CountIn(all, Parent(p)) < t
  {
    if |ps| > 0 {
      SmallExact(ps[..|ps| - 1], all, t);
      assert ps == ps[..|ps| - 1] + [ps[|ps| - 1]];
    }
  }

  lemma {:induction false} OneMoreDir(ds: seq<string>, d: string, all: seq<string>, t: int)
    requires AllStorable(all)
    ensures |Big(ds + [d], all, t)| == |Big(ds, all, t)| + if CountIn(all, d) >= t then 1 else 0
  {
    assert (ds + [d])[..|ds|] == ds;
  }

  /** Counting: each directory that is kept absorbs an entry. */
  lemma {:induction false} RolledFits(ps: seq<string>, all: seq<string>, t: int)
    requires AllStorable(ps) && AllStorable(all)
    ensures |Big(Dirs(ps), all, t)| + |Small(ps, all, t)| <= |ps|
  {
    if |ps| > 0 {
      var n := |ps| - 1;
      RolledFits(ps[..n], all, t);
      OneMoreDir(Dirs(ps[..n]), Parent(ps[n]), all, t);
    }
  }

  lemma {:induction false} CountFound(ps: seq<string>, d: string) returns (i: nat)
    requires AllStorable(ps) && CountIn(ps, d) > 0
    ensures i < |ps| && Parent(ps[i]) == d
  {
    i := |ps| - 1;
    if Parent(ps[i]) != d {
      i := CountFound(ps[..i], d);
    }
  }

  /** The rolled-up set: the directories with at least `t` entries, and the entries of the
      others. It never overflows. */
  lemma {:induction false} RolledUpExact(ps: seq<string>, t: int)
    requires AllStorable(ps) && |ps| <= BL_MAX
    ensures |RolledUp(ps, t)| <= |ps|
    ensures forall x :: x in RolledUp(ps, t) <==>
              && x != ""
              && (|| (x in Dirs(ps) && CountIn(ps, x) >= AtLeastOne(t))
                  || (x in ps && CountIn(ps, Parent(x)) < AtLeastOne(t)))
  {
    var m := AtLeastOne(t);
    var big, small := Big(Dirs(ps), ps, m), Small(ps, ps, m);
    RolledFits(ps, ps, m);
    BigExact(Dirs(ps), ps, m);
    SmallExact(ps, ps, m);
    AddedAllExact([], big);
    AddedAllExact(AddedAll([], big), small);
  }

  /** A directory that was the parent of at least `t` entries. */
  predicate Busy(ps: seq<string>, t: int, d: string)
    requires AllStorable(ps)
  {
    CountIn(ps, d) >= AtLeastOne(t)
  }

  ghost predicate UnderBusy(ps: seq<string>, t: int, path: string)
    requires AllStorable(ps)
  {
    exists d :: Busy(ps, t, d) && Under(path, d)
  }

  /** Covered by an entry that is not rolled up. */
  predicate UnderSmall(ps: seq<string>, t: int, path: string)
    requires AllStorable(ps)
  {
    exists i | 0 <= i < |ps| :: Under(path, ps[i]) && !Busy(ps, t, Parent(ps[i]))
  }

  lemma {:induction false} InCovers(set_: seq<string>, x: string, path: string)
    requires x in set_ && Under(path, x)
    ensures Covered(set_, path)
  {
    var i :| 0 <= i < |set_| && set_[i] == x;
    assert Under(path, set_[i]);
  }

  lemma {:induction false} RollupReaches(ps: seq<string>, t: int, path: string, d: string)
    requires AllStorable(ps) && |ps| <= BL_MAX && Busy(ps, t, d) && Under(path, d)
    ensures Covered(RolledUp(ps, t), path)
  {
    RolledUpExact(ps, t);
    var k := CountFound(ps, d);
    DirKnown(ps, k);
    InCovers(RolledUp(ps, t), d, path);
  }

  /** What a roll-up covers, for every set: all that lies under a directory with at least `t`
      entries, and all that was covered by an entry of a directory with fewer. */
  lemma {:induction false} RollupCovers(ps: seq<string>, t: int, path: string)
    requires AllStorable(ps) && |ps| <= BL_MAX
    ensures Covered(RolledUp(ps, t), path) <==> UnderBusy(ps, t, path) || UnderSmall(ps, t, path)
  {
    RolledUpExact(ps, t);
    if Covered(RolledUp(ps, t), path) {
      var i :| 0 <= i < |RolledUp(ps, t)| && Under(path, RolledUp(ps, t)[i]);
      var x := RolledUp(ps, t)[i];
      assert x in RolledUp(ps, t);
      if !Busy(ps, t, x) {
        var j :| 0 <= j < |ps| && ps[j] == x;
        assert Under(path, ps[j]);
      }
    }
    if d :| Busy(ps, t, d) && Under(path, d) {
      RollupReaches(ps, t, path, d);
    }
    if i :| 0 <= i < |ps| && Under(path, ps[i]) && !Busy(ps, t, Parent(ps[i])) {
      InCovers(RolledUp(ps, t), ps[i], path);
    }
  }

  /** What a caller can count before a roll-up: every entry has a slash or at most one
      character, or is in a directory with few entries, or is itself a directory with many. */
  predicate Sheltered(ps: seq<string>, t: int)
    requires AllStorable(ps)
  {
    forall i | 0 <= i < |ps| :: SafeEntry(ps, t, ps[i])
  }

  predicate SafeEntry(ps: seq<string>, t: int, p: string)
    requires AllStorable(ps) && Storable(p)
  {
    Anchored(p) || !Busy(ps, t, Parent(p)) || Busy(ps, t, p)
  }

  ghost predicate KeepsCoverage(ps: seq<string>, t: int)
    requires AllStorable(ps)
  {
    forall path :: Covered(ps, path) ==> Covered(RolledUp(ps, t), path)
  }

  /** Roll-up keeps all coverage if and only if every entry is safe. */
  lemma {:induction false} CoverageKeptIff(ps: seq<string>, t: int)
    requires AllStorable(ps) && |ps| <= BL_MAX
    ensures KeepsCoverage(ps, t) <==> Sheltered(ps, t)
  {
    if Sheltered(ps, t) {
      forall path | Covered(ps, path) ensures Covered(RolledUp(ps, t), path) {
        SafeKept(ps, t, path);
      }
    } else {
      var i :| 0 <= i < |ps| && !SafeEntry(ps, t, ps[i]);
      UnanchoredLost(ps, t, ps[i]);
    }
  }

  lemma {:induction false} SafeKept(ps: seq<string>, t: int, path: string)
    requires AllStorable(ps) && |ps| <= BL_MAX && Sheltered(ps, t) && Covered(ps, path)
    ensures Covered(RolledUp(ps, t), path)
  {
    var i :| 0 <= i < |ps| && Under(path, ps[i]);
    var d := Parent(ps[i]);
    assert SafeEntry(ps, t, ps[i]);
    if Busy(ps, t, ps[i]) {
      RollupReaches(ps, t, path, ps[i]);
    } else if Busy(ps, t, d) {
      UnderParent(ps[i]);
      UnderTrans(path, ps[i], d);
      RollupReaches(ps, t, path, d);
    } else {
      RollupCovers(ps, t, path);
    }
  }

  lemma {:induction false} NameUnder(p: string, x: string)
    requires '/' !in p
    ensures Under(p, x) ==> x == p
  {
    if 0 < |x| < |p| && x <= p {
      assert x[|x| - 1] == p[|x| - 1] && p[|x| - 1] in p && p[|x|] in p;
    }
  }

  /** Any other entry is itself lost: a name of two or more characters without a slash is
      replaced by its first character, which does not cover it. */
  lemma {:induction false} UnanchoredLost(ps: seq<string>, t: int, p: string)
    requires AllStorable(ps) && |ps| <= BL_MAX && p in ps && !SafeEntry(ps, t, p)
    ensures Covered(ps, p) && !Covered(RolledUp(ps, t), p)
  {
    RolledUpExact(ps, t);
    InCovers(ps, p, p);
    forall i | 0 <= i < |RolledUp(ps, t)| ensures !Under(p, RolledUp(ps, t)[i]) {
      var x := RolledUp(ps, t)[i];
      assert x in RolledUp(ps, t);
      NameUnder(p, x);
    }
  }

  /** The smallest input: a name alone, rolled up at threshold 1. */
  lemma {:induction false} NameAloneLost(p: string)
    requires Storable(p) && !Anchored(p)
    ensures !KeepsCoverage([p], 1)
  {
    assert CountIn([p][..0], Parent(p)) == 0 && CountIn([p][..0], p) == 0;
    assert CountIn([p], Parent(p)) == 1;
    assert !SafeEntry([p], 1, [p][0]);
    CoverageKeptIff([p], 1);
  }

  /** Roll-up is exact: if and only if every entry is safe, a path is covered afterwards exactly
      when it was covered before or lies under a directory with at least `t` entries. */
  lemma {:induction false} RollupExact(ps: seq<string>, t: int)
    requires AllStorable(ps) && |ps| <= BL_MAX
    ensures (forall path :: Covered(RolledUp(ps, t), path) <==> Covered(ps, path) || UnderBusy(ps, t, path))
            <==> Sheltered(ps, t)
  {
    CoverageKeptIff(ps, t);
    forall path
      ensures Covered(RolledUp(ps, t), path) ==> Covered(ps, path) || UnderBusy(ps, t, path)
      ensures UnderBusy(ps, t, path) ==> Covered(RolledUp(ps, t), path)
    {
      RollupCovers(ps, t, path);
    }
  }

  // ----- the set in place -----

  method CoveredBy(set_: seq<string>, path: string) returns (yes: bool)
    ensures yes == Covered(set_, path)
  {
    for i := 0 to |set_|
      invariant forall j | 0 <= j < i :: !Under(path, set_[j])
    {
      if Under(path, set_[i]) {
        return true;
      }
    }
    return false;
  }

  class Baseline {
    var paths: seq<string>

    ghost predicate Valid()
      reads this
    {
      |paths| <= BL_MAX && AllStorable(paths)
    }

    constructor ()
      ensures Valid() && paths == []
    {
      paths := [];
    }

    method Add(p: string) returns (rc: int)
      requires Valid()
      modifies this
      ensures Valid() && (paths, rc) == Added(old(paths), p)
    {
      if p == "" {
        return -1;
      }
      for i := 0 to |paths|
        invariant paths == old(paths) && forall j | 0 <= j < i :: paths[j] != p
      {
        if paths[i] == p {
          return 0;
        }
      }
      if |paths| >= BL_MAX {
        return -1;
      }
      paths := paths + [Cut(p)];
      return 1;
    }

    /** Adds the directories with enough entries. */
    method AddBig(ps: seq<string>, dirs: seq<string>, dc: seq<nat>, t: int)
      requires Valid() && Tallied(ps, dirs, dc)
      modifies this
      ensures Valid() && paths == AddedAll(old(paths), Big(dirs, ps, t))
    {
      for k := 0 to |dirs|
        invariant Valid() && paths == AddedAll(old(paths), Big(dirs[..k], ps, t))
      {
        BigStep(old(paths), dirs, k, ps, t);
        if dc[k] >= t {
          var _ := Add(dirs[k]);
        }
      }
      assert dirs[..|dirs|] == dirs;
    }

    /** Adds the entries of the other directories. */
    method AddSmall(ps: seq<string>, dirs: seq<string>, dc: seq<nat>, t: int)
      requires Valid() && Tallied(ps, dirs, dc)
      modifies this
      ensures Valid() && paths == AddedAll(old(paths), Small(ps, ps, t))
    {
      for i := 0 to |ps|
        invariant Valid() && paths == WithSmall(old(paths), ps, i, t)
      {
        SmallStep(old(paths), ps, i, t);
        AddIfSmall(ps, dirs, dc, i, t);
      }
      assert ps[..|ps|] == ps;
    }

    method AddIfSmall(ps: seq<string>, dirs: seq<string>, dc: seq<nat>, i: nat, t: int)
      requires Valid() && Tallied(ps, dirs, dc) && i < |ps|
      modifies this
      ensures Valid() && paths == if CountIn(ps, Parent(ps[i])) < t then Added(old(paths), ps[i]).0 else old(paths)
    {
      var entries := EntriesOf(ps, dirs, dc, i);
      if entries < t {
        var _ := Add(ps[i]);
      }
    }

    /** Collapses directories with at least `threshold` entries. */
    method Rollup(threshold: int)
      requires Valid()
      modifies this
      ensures Valid() && paths == RolledUp(old(paths), threshold)
    {
      var t := AtLeastOne(threshold);
      var dirs, dc := CountDirs(paths);
      var out := new Baseline();
      out.AddBig(paths, dirs, dc, t);
      out.AddSmall(paths, dirs, dc, t);
      paths := out.paths;
    }
  }

  /** The directory table holds the directories of the paths and how often each occurs. */
  ghost predicate Tallied(ps: seq<string>, dirs: seq<string>, dc: seq<nat>) {
    && AllStorable(ps) && dirs == Dirs(ps) && |dc| == |dirs|
    && forall k | 0 <= k < |dirs| :: dc[k] == CountIn(ps, dirs[k])
  }

  method FindDir(dirs: seq<string>, d: string) returns (k: nat)
    ensures k <= |dirs| && (k < |dirs| ==> dirs[k] == d) && (k == |dirs| <==> d !in dirs)
  {
    k := 0;
    while k < |dirs| && dirs[k] != d
      invariant k <= |dirs| && d !in dirs[..k]
    {
      k := k + 1;
    }
  }

  /** The tally of an entry's directory. */
  method EntriesOf(ps: seq<string>, dirs: seq<string>, dc: seq<nat>, i: nat) returns (n: nat)
    requires Tallied(ps, dirs, dc) && i < |ps|
    ensures n == CountIn(ps, Parent(ps[i]))
  {
    DirKnown(ps, i);
    var k := FindDir(dirs, Parent(ps[i]));
    n := dc[k];
  }

  method CountDirs(ps: seq<string>) returns (dirs: seq<string>, dc: seq<nat>)
    requires AllStorable(ps)
    ensures Tallied(ps, dirs, dc)
  {
    dirs, dc := [], [];
    for i := 0 to |ps|
      invariant Tallied(ps[..i], dirs, dc)
    {
      var d := Parent(ps[i]);
      var k := FindDir(dirs, d);
      if k == |dirs| {
        TallyNew(ps, i, dirs, dc);
        dirs, dc := dirs + [d], dc + [0];
      } else {
        TallyKnown(ps, i, dirs, dc, k);
      }
      dc := dc[k := dc[k] + 1];
    }
    assert ps[..|ps|] == ps;
  }

  lemma {:induction false} DirsDistinct(ps: seq<string>, i: nat, j: nat)
    requires AllStorable(ps) && i < j < |Dirs(ps)|
    ensures Dirs(ps)[i] != Dirs(ps)[j]
  {
    var ds, d := Dirs(ps[..|ps| - 1]), Parent(ps[|ps| - 1]);
    if j < |ds| {
      DirsDistinct(ps[..|ps| - 1], i, j);
    } else {
      assert ds[i] in ds;
    }
  }

  lemma {:induction false} CountSnoc(ps: seq<string>, i: nat, d: string)
    requires AllStorable(ps) && i < |ps|
    ensures CountIn(ps[..i + 1], d) == CountIn(ps[..i], d) + if Parent(ps[i]) == d then 1 else 0
  {
    assert ps[..i + 1][..i] == ps[..i];
  }

  lemma {:induction false} DirsSnoc(ps: seq<string>, i: nat)
    requires AllStorable(ps) && i < |ps|
    ensures var ds, d := Dirs(ps[..i]), Parent(ps[i]); Dirs(ps[..i + 1]) == if d in ds then ds else ds + [d]
  {
    assert ps[..i + 1][..i] == ps[..i];
  }

  /** One more entry of a known directory. */
  lemma {:induction false} TallyKnown(ps: seq<string>, i: nat, dirs: seq<string>, dc: seq<nat>, k: nat)
    requires AllStorable(ps) && i < |ps| && Tallied(ps[..i], dirs, dc) && k < |dirs| && dirs[k] == Parent(ps[i])
    ensures Tallied(ps[..i + 1], dirs, dc[k := dc[k] + 1])
  {
    DirsSnoc(ps, i);
    forall j | 0 <= j < |dirs| ensures dc[k := dc[k] + 1][j] == CountIn(ps[..i + 1], dirs[j]) {
      CountSnoc(ps, i, dirs[j]);
      if j != k {
        DirsDistinct(ps[..i], if j < k then j else k, if j < k then k else j);
      }
    }
  }

  /** The first entry of a directory. */
  lemma {:induction false} TallyNew(ps: seq<string>, i: nat, dirs: seq<string>, dc: seq<nat>)
    requires AllStorable(ps) && i < |ps| && Tallied(ps[..i], dirs, dc) && Parent(ps[i]) !in dirs
    ensures Tallied(ps[..i + 1], dirs + [Parent(ps[i])], (dc + [0])[|dirs| := 1])
  {
    var d := Parent(ps[i]);
    DirsSnoc(ps, i);
    if CountIn(ps[..i], d) > 0 {
      var x := CountFound(ps[..i], d);
      DirKnown(ps[..i], x);
    }
    forall j | 0 <= j <= |dirs| ensures (dc + [0])[|dirs| := 1][j] == CountIn(ps[..i + 1], (dirs + [d])[j]) {
      CountSnoc(ps, i, (dirs + [d])[j]);
      assert j < |dirs| ==> dirs[j] in dirs;
    }
  }

  lemma {:induction false} BigStep(set_: seq<string>, ds: seq<string>, k: nat, all: seq<string>, t: int)
    requires AllStorable(all) && k < |ds|
    ensures AddedAll(set_, Big(ds[..k + 1], all, t)) ==
            if CountIn(all, ds[k]) >= t then Added(AddedAll(set_, Big(ds[..k], all, t)), ds[k]).0
            else AddedAll(set_, Big(ds[..k], all, t))
  {
    var b := Big(ds[..k], all, t);
    assert ds[..k + 1][..k] == ds[..k];
    assert (b + [ds[k]])[..|b|] == b && b + [] == b;
  }

  /** A set with the first `i` paths added that are not rolled up. */
  function WithSmall(set_: seq<string>, ps: seq<string>, i: nat, t: int): (r: seq<string>)
    requires AllStorable(ps) && i <= |ps|
  {
    AddedAll(set_, Small(ps[..i], ps, t))
  }

  lemma {:induction false} SmallStep(set_: seq<string>, ps: seq<string>, i: nat, t: int)
    requires AllStorable(ps) && i < |ps|
    ensures WithSmall(set_, ps, i + 1, t) ==
            if CountIn(ps, Parent(ps[i])) < t then Added(WithSmall(set_, ps, i, t), ps[i]).0
            else WithSmall(set_, ps, i, t)
  {
    var s := Small(ps[..i], ps, t);
    assert ps[..i + 1][..i] == ps[..i];
    assert (s + [ps[i]])[..|s|] == s && s + [] == s;
  }
}
