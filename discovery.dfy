/** Recursive discovery of command files: the async generator Shard.getFiles.
    The filesystem is replaced by an in-memory listing: a directory's entries,
    in the order readdir reports them, each a file or a sub-directory. */
module Discovery {
  import opened Text

  /** One directory entry, as readdir(dir, { withFileTypes: true }) describes it. */
  datatype Entry = File(name: string) | Dir(name: string, children: seq<Entry>)

  /** The root that Shard.init scans for commands. */
  const CommandsRoot: string := "./commands/"

  predicate EndsWithSlash(dir: string) {
    |dir| > 0 && dir[|dir| - 1] == '/'
  }

  /** A name a directory listing can report: non-empty and free of '/'. */
  predicate WellFormedName(name: string) {
    |name| > 0 && '/' !in name
  }

  predicate WellFormedEntries(es: seq<Entry>)
    decreases es
  {
    forall k :: 0 <= k < |es| ==>
      WellFormedName(es[k].name) &&
      (es[k].Dir? ==> WellFormedEntries(es[k].children))
  }

  /** A listing of files only. */
  predicate NoDirs(es: seq<Entry>) {
    forall k :: 0 <= k < |es| ==> es[k].File?
  }

  /** A listing whose sub-directories hold files only: at most one level
      of sub-directories. */
  predicate OneLevel(es: seq<Entry>) {
    forall k :: 0 <= k < |es| && es[k].Dir? ==> NoDirs(es[k].children)
  }

  /** The path of `name` inside `dir`: `dir` itself, then a '/' only when
      `dir` does not already end in one, then the name. This is the path
      getFiles yields for a file, and the path the entry really has. */
  function Join(dir: string, name: string): (r: string)
    ensures EndsWithSlash(dir) ==> |r| == |dir| + |name|
    ensures !EndsWithSlash(dir) ==> |r| == |dir| + 1 + |name| && r[|dir|] == '/'
    ensures r[..|dir|] == dir
    ensures r[|r| - |name|..] == name
    ensures r[|r| - |name| - 1] == '/'
  {
    dir + (if EndsWithSlash(dir) then "" else "/") + name
  }

  /** What a run of getFiles produces: the paths it yields, in order, and
      whether it then threw (a readdir that rejected) instead of finishing. */
  datatype Walk = Walk(paths: seq<string>, aborted: bool)

  /** `first`, then `second` unless `first` threw. */
  function Then(first: Walk, second: Walk): Walk {
    if first.aborted then first else Walk(first.paths + second.paths, second.aborted)
  }

  /** getFiles(dir) for the directory whose path is `dir` and whose listing
      is `es`: depth first, in listing order. */
  function GetFiles(dir: string, es: seq<Entry>): Walk
    decreases es
  {
    if es == [] then Walk([], false) else Then(EntryFiles(dir, es[0]), GetFiles(dir, es[1..]))
  }

  /** What one entry of the listing of `dir` contributes: a file its own path;
      a sub-directory the walk of the string `dir + name`, with no separator
      added. That string is the sub-directory's path, Join(dir, name), only
      when `dir` ends in '/'; otherwise readdir is handed a path that does not
      name it and rejects, and the generator throws. */
  function EntryFiles(dir: string, e: Entry): Walk
    decreases e
  {
    match e
    case File(name) => Walk([Join(dir, name)], false)
    case Dir(name, children) =>
      if dir + name == Join(dir, name) then GetFiles(dir + name, children) else Walk([], true)
  }

  /** The run-together string names the sub-directory exactly when `dir` ends in '/'. */
  lemma EnteredAsWritten(dir: string, name: string)
    ensures dir + name == Join(dir, name) <==> EndsWithSlash(dir)
  {
    if !EndsWithSlash(dir) {
      assert |dir + name| != |Join(dir, name)|;
    }
  }

  /** The number of files (non-directories) anywhere below a listing. */
  function CountFiles(es: seq<Entry>): nat
    decreases es
  {
    if es == [] then 0
    else
      (match es[0]
       case File(_) => 1
       case Dir(_, children) => CountFiles(children))
      + CountFiles(es[1..])
  }

  /** Each file's chain of names from the root, depth first in listing order:
      the directories it sits in, then its own name. */
  function RelPaths(es: seq<Entry>): (ps: seq<seq<string>>)
    ensures forall k :: 0 <= k < |ps| ==> |ps[k]| > 0
    decreases es
  {
    if es == [] then [] else EntryRelPaths(es[0]) + RelPaths(es[1..])
  }

  function EntryRelPaths(e: Entry): (ps: seq<seq<string>>)
    ensures forall k :: 0 <= k < |ps| ==> |ps[k]| > 0
    decreases e
  {
    match e
    case File(name) => [[name]]
    case Dir(name, children) => Under(name, RelPaths(children))
  }

  /** Puts directory `name` in front of every chain. */
  function Under(name: string, ps: seq<seq<string>>): (qs: seq<seq<string>>)
    ensures |qs| == |ps|
    ensures forall k :: 0 <= k < |ps| ==> qs[k] == [name] + ps[k]
  {
    seq(|ps|, k requires 0 <= k < |ps| => [name] + ps[k])
  }

  /** The path reached from `dir` by following `chain` one name at a time. */
  function JoinPath(dir: string, chain: seq<string>): string
    requires |chain| > 0
    decreases |chain|
  {
    if |chain| == 1 then Join(dir, chain[0]) else JoinPath(Join(dir, chain[0]), chain[1..])
  }

  predicate IsPrefixOf(a: seq<string>, b: seq<string>) {
    |a| <= |b| && a == b[..|a|]
  }

  // ---------------------------------------------------------------------
  // getFiles as evidently intended

  /** getFiles with each sub-directory entered by its own path, Join(dir, name). */
  function GetFilesJoined(dir: string, es: seq<Entry>): (paths: seq<string>)
    decreases es
  {
    if es == [] then [] else EntryFilesJoined(dir, es[0]) + GetFilesJoined(dir, es[1..])
  }

  function EntryFilesJoined(dir: string, e: Entry): (paths: seq<string>)
    decreases e
  {
    match e
    case File(name) => [Join(dir, name)]
    case Dir(name, children) => GetFilesJoined(Join(dir, name), children)
  }

  /** The intended walk yields exactly one path per file anywhere below the
      root; directories yield none. */
  lemma {:induction false} JoinedCount(dir: string, es: seq<Entry>)
    ensures |GetFilesJoined(dir, es)| == CountFiles(es)
    decreases es
  {
    if es != [] {
      JoinedCount(dir, es[1..]);
      match es[0] {
        case File(_) =>
        case Dir(name, children) => JoinedCount(Join(dir, name), children);
      }
    }
  }

  /** `paths` lists, one for one, the paths the chains `rels` lead to from `dir`. */
  ghost predicate ChainPathsOf(dir: string, paths: seq<string>, rels: seq<seq<string>>) {
    |paths| == |rels| &&
    forall k :: 0 <= k < |rels| ==> |rels[k]| > 0 && paths[k] == JoinPath(dir, rels[k])
  }

  lemma ChainPathsAppend(dir: string, a: seq<string>, ra: seq<seq<string>>, b: seq<string>, rb: seq<seq<string>>)
    requires ChainPathsOf(dir, a, ra) && ChainPathsOf(dir, b, rb)
    ensures ChainPathsOf(dir, a + b, ra + rb)
  {
  }

  /** Entering sub-directory `name` by its path puts `name` in front of every
      chain found below it. */
  lemma ChainPathsUnder(dir: string, name: string, a: seq<string>, r: seq<seq<string>>)
    requires ChainPathsOf(Join(dir, name), a, r)
    ensures ChainPathsOf(dir, a, Under(name, r))
  {
    forall k | 0 <= k < |r|
      ensures a[k] == JoinPath(dir, [name] + r[k])
    {
      assert ([name] + r[k])[1..] == r[k];
    }
  }

  /** The k-th path of the intended walk is where the k-th file's chain of
      names leads from the root. */
  lemma {:induction false} IntendedPathsFollowChains(dir: string, es: seq<Entry>)
    ensures ChainPathsOf(dir, GetFilesJoined(dir, es), RelPaths(es))
    decreases es
  {
    if es != [] {
      EntryPathsFollowChains(dir, es[0]);
      IntendedPathsFollowChains(dir, es[1..]);
      ChainPathsAppend(dir, EntryFilesJoined(dir, es[0]), EntryRelPaths(es[0]),
                       GetFilesJoined(dir, es[1..]), RelPaths(es[1..]));
    }
  }

  lemma {:induction false} EntryPathsFollowChains(dir: string, e: Entry)
    ensures ChainPathsOf(dir, EntryFilesJoined(dir, e), EntryRelPaths(e))
    decreases e
  {
    match e {
      case File(name) =>
      case Dir(name, children) =>
        IntendedPathsFollowChains(Join(dir, name), children);
        ChainPathsUnder(dir, name, GetFilesJoined(Join(dir, name), children), RelPaths(children));
    }
  }

  /** A path reached through a chain starts with the root and ends with the
      chain's last name, right after a '/'. */
  lemma {:induction false} JoinPathShape(dir: string, chain: seq<string>)
    requires |chain| > 0
    ensures var path, name := JoinPath(dir, chain), chain[|chain| - 1];
      |dir| + |name| <= |path|
      && (!EndsWithSlash(dir) ==> |dir| + |name| < |path|)
      && path[..|dir|] == dir
      && path[|path| - |name|..] == name
      && path[|path| - |name| - 1] == '/'
    decreases |chain|
  {
    if |chain| > 1 {
      var next := Join(dir, chain[0]);
      JoinPathShape(next, chain[1..]);
      var path := JoinPath(next, chain[1..]);
      assert path[..|dir|] == path[..|next|][..|dir|];
    }
  }

  // ---------------------------------------------------------------------
  // What getFiles yields, and when it throws

  /** Whatever the tree, the walk yields the first paths of the intended walk,
      in its order, and all of them when it does not throw. */
  lemma PrefixThen(h: Walk, t: Walk, hall: seq<string>, tall: seq<string>)
    requires IsPrefixOf(h.paths, hall) && (!h.aborted ==> h.paths == hall)
    requires IsPrefixOf(t.paths, tall) && (!t.aborted ==> t.paths == tall)
    ensures IsPrefixOf(Then(h, t).paths, hall + tall)
    ensures !Then(h, t).aborted ==> Then(h, t).paths == hall + tall
  {
    if h.aborted {
      assert (hall + tall)[..|h.paths|] == hall[..|h.paths|];
    } else {
      assert (hall + tall)[..|hall| + |t.paths|] == hall + tall[..|t.paths|];
    }
  }

  lemma {:induction false} WalkIsPrefixOfIntended(dir: string, es: seq<Entry>)
    ensures IsPrefixOf(GetFiles(dir, es).paths, GetFilesJoined(dir, es))
    ensures !GetFiles(dir, es).aborted ==> GetFiles(dir, es).paths == GetFilesJoined(dir, es)
    decreases es
  {
    if es != [] {
      EntryWalkIsPrefixOfIntended(dir, es[0]);
      WalkIsPrefixOfIntended(dir, es[1..]);
      PrefixThen(EntryFiles(dir, es[0]), GetFiles(dir, es[1..]),
                 EntryFilesJoined(dir, es[0]), GetFilesJoined(dir, es[1..]));
    }
  }

  lemma {:induction false} EntryWalkIsPrefixOfIntended(dir: string, e: Entry)
    ensures IsPrefixOf(EntryFiles(dir, e).paths, EntryFilesJoined(dir, e))
    ensures !EntryFiles(dir, e).aborted ==> EntryFiles(dir, e).paths == EntryFilesJoined(dir, e)
    decreases e
  {
    match e {
      case File(name) =>
      case Dir(name, children) =>
        EnteredAsWritten(dir, name);
        if EndsWithSlash(dir) {
          WalkIsPrefixOfIntended(Join(dir, name), children);
        }
    }
  }

  /** At most one path per file below the root, and exactly one per file
      when the walk does not throw. */
  lemma GetFilesCount(dir: string, es: seq<Entry>)
    ensures |GetFiles(dir, es).paths| <= CountFiles(es)
    ensures !GetFiles(dir, es).aborted ==> |GetFiles(dir, es).paths| == CountFiles(es)
  {
    JoinedCount(dir, es);
    WalkIsPrefixOfIntended(dir, es);
  }

  /** With filesystem names, the walk finishes exactly when every directory
      it enters is entered by its own path: under a root ending in '/', when
      no sub-directory holds another; under any other root, when the listing
      holds no directory at all. */
  lemma {:induction false} WalkCompletes(dir: string, es: seq<Entry>)
    requires WellFormedEntries(es)
    ensures !GetFiles(dir, es).aborted <==> if EndsWithSlash(dir) then OneLevel(es) else NoDirs(es)
    decreases es
  {
    if es != [] {
      var rest := es[1..];
      assert forall k :: 0 <= k < |rest| ==> rest[k] == es[k + 1];
      EntryWalkCompletes(dir, es[0]);
      WalkCompletes(dir, rest);
      if EndsWithSlash(dir) {
        if (es[0].Dir? ==> NoDirs(es[0].children)) && OneLevel(rest) {
          forall k | 0 <= k < |es| && es[k].Dir?
            ensures NoDirs(es[k].children)
          {
            if k > 0 {
              assert es[k] == rest[k - 1];
            }
          }
        }
      } else {
        if es[0].File? && NoDirs(rest) {
          forall k | 0 <= k < |es|
            ensures es[k].File?
          {
            if k > 0 {
              assert es[k] == rest[k - 1];
            }
          }
        }
      }
    }
  }

  lemma {:induction false} EntryWalkCompletes(dir: string, e: Entry)
    requires WellFormedName(e.name)
    requires e.Dir? ==> WellFormedEntries(e.children)
    ensures !EntryFiles(dir, e).aborted <==> e.File? || (EndsWithSlash(dir) && NoDirs(e.children))
    decreases e
  {
    match e {
      case File(name) =>
      case Dir(name, children) =>
        EnteredAsWritten(dir, name);
        if EndsWithSlash(dir) {
          var sub := dir + name;
          assert sub[|sub| - 1] == name[|name| - 1] && name[|name| - 1] in name;
          WalkCompletes(sub, children);
        }
    }
  }

  /** Every yielded path starts with the root, ends with its file's name, and
      has a '/' right before that name. */
  lemma PathsStartWithRootEndWithName(dir: string, es: seq<Entry>, k: nat)
    requires k < |GetFiles(dir, es).paths|
    ensures k < |RelPaths(es)|
    ensures var path, chain := GetFiles(dir, es).paths[k], RelPaths(es)[k];
      var name := chain[|chain| - 1];
      |dir| + |name| <= |path|
      && (!EndsWithSlash(dir) ==> |dir| + |name| < |path|)
      && path[..|dir|] == dir
      && path[|path| - |name|..] == name
      && path[|path| - |name| - 1] == '/'
  {
    WalkIsPrefixOfIntended(dir, es);
    IntendedPathsFollowChains(dir, es);
    JoinPathShape(dir, RelPaths(es)[k]);
  }

  // ---------------------------------------------------------------------
  // Order: depth first, in listing order

  /** Listing order is kept: the walk of a listing split in two is the walk
      of the first part, then, unless that threw, the walk of the second. */
  lemma {:induction false} GetFilesAppend(dir: string, a: seq<Entry>, b: seq<Entry>)
    ensures GetFiles(dir, a + b) == Then(GetFiles(dir, a), GetFiles(dir, b))
    decreases a
  {
    if a != [] {
      assert (a + b)[0] == a[0];
      assert (a + b)[1..] == a[1..] + b;
      GetFilesAppend(dir, a[1..], b);
    } else {
      assert a + b == b;
      assert [] + GetFiles(dir, b).paths == GetFiles(dir, b).paths;
    }
  }

  /** A sub-directory's paths appear as one contiguous block, at the
      sub-directory's position among its siblings. The block is the walk of
      `dir + name` when `dir` ends in '/'; otherwise the walk throws there. */
  lemma SubdirectoryIsContiguous(dir: string, es: seq<Entry>, k: nat)
    requires k < |es| && es[k].Dir?
    ensures GetFiles(dir, es) ==
      Then(GetFiles(dir, es[..k]), Then(EntryFiles(dir, es[k]), GetFiles(dir, es[k + 1..])))
    ensures EntryFiles(dir, es[k]) ==
      if EndsWithSlash(dir) then GetFiles(dir + es[k].name, es[k].children) else Walk([], true)
  {
    assert es == es[..k] + ([es[k]] + es[k + 1..]);
    GetFilesAppend(dir, es[..k], [es[k]] + es[k + 1..]);
    assert ([es[k]] + es[k + 1..])[1..] == es[k + 1..];
    EnteredAsWritten(dir, es[k].name);
  }

  // ---------------------------------------------------------------------
  // One level of sub-directories, and the missing separator

  /** Under the real root a file `f` in sub-directory `s` is yielded as "./commands/s/f". */
  lemma OneLevelUnderCommandsRoot(s: string, f: string)
    requires WellFormedName(s)
    ensures GetFiles(CommandsRoot, [Dir(s, [File(f)])]) == Walk([CommandsRoot + s + "/" + f], false)
  {
    var d := CommandsRoot + s;
    EnteredAsWritten(CommandsRoot, s);
    assert d[|d| - 1] == s[|s| - 1] && s[|s| - 1] in s;
    assert GetFiles(d, [File(f)]) == Walk([Join(d, f)], false);
  }

  /** A listing of files only is walked to the end, as intended. */
  lemma {:induction false} FlatListingsAgree(dir: string, es: seq<Entry>)
    requires NoDirs(es)
    ensures GetFiles(dir, es) == Walk(GetFilesJoined(dir, es), false)
    decreases es
  {
    if es != [] {
      assert es[0].File?;
      assert forall k :: 0 <= k < |es[1..]| ==> es[1..][k] == es[k + 1];
      FlatListingsAgree(dir, es[1..]);
    }
  }

  /** Under a root ending in '/', such as "./commands/", the walk finishes and
      yields the intended paths as long as no sub-directory holds another. */
  lemma {:induction false} OneLevelListingsAgree(dir: string, es: seq<Entry>)
    requires EndsWithSlash(dir)
    requires OneLevel(es)
    ensures GetFiles(dir, es) == Walk(GetFilesJoined(dir, es), false)
    decreases es
  {
    if es != [] {
      assert forall k :: 0 <= k < |es[1..]| ==> es[1..][k] == es[k + 1];
      OneLevelListingsAgree(dir, es[1..]);
      match es[0] {
        case File(_) =>
        case Dir(name, children) =>
          assert NoDirs(children);
          EnteredAsWritten(dir, name);
          FlatListingsAgree(dir + name, children);
      }
    }
  }

  /** Two levels down the walk reads "./commands/st" instead of
      "./commands/s/t", so it throws after the files listed before that
      directory: here "./commands/a" is yielded and neither
      "./commands/s/t/f" nor the later "./commands/g" is. */
  lemma DeepNestingAbortsWalk()
    ensures "./commands/s" + "t" != Join("./commands/s", "t")
    ensures GetFiles(CommandsRoot, [File("a"), Dir("s", [Dir("t", [File("f")])]), File("g")])
      == Walk(["./commands/a"], true)
    ensures GetFilesJoined(CommandsRoot, [File("a"), Dir("s", [Dir("t", [File("f")])]), File("g")])
      == ["./commands/a", "./commands/s/t/f", "./commands/g"]
  {
    var inner: seq<Entry> := [Dir("t", [File("f")])];
    var tree: seq<Entry> := [File("a"), Dir("s", inner), File("g")];
    assert Join("./commands/s", "t") == "./commands/s/t";
    assert "./commands/s" + "t" == "./commands/st";
    assert EntryFiles("./commands/s", inner[0]) == Walk([], true);
    assert GetFiles("./commands/s", inner) == Walk([], true);
    assert CommandsRoot + "s" == Join(CommandsRoot, "s") == "./commands/s";
    assert EntryFiles(CommandsRoot, tree[1]) == Walk([], true);
    assert Join(CommandsRoot, "a") == "./commands/a";
    assert EntryFiles(CommandsRoot, tree[0]) == Walk(["./commands/a"], false);
    assert tree[1..][0] == tree[1];
    assert GetFiles(CommandsRoot, tree[1..]) == Walk([], true);

    assert Join("./commands/s/t", "f") == "./commands/s/t/f";
    assert Join(CommandsRoot, "g") == "./commands/g";
    assert GetFilesJoined("./commands/s/t", [File("f")]) == ["./commands/s/t/f"];
    assert GetFilesJoined("./commands/s", inner) == GetFilesJoined("./commands/s/t", [File("f")]);
    assert EntryFilesJoined(CommandsRoot, tree[1]) == ["./commands/s/t/f"];
    assert tree[1..][1..] == [File("g")];
    assert GetFilesJoined(CommandsRoot, [File("g")]) == ["./commands/g"];
  }

  lemma JoinThenJoin(dir: string, name: string, rest: string)
    requires WellFormedName(name)
    ensures Join(Join(dir, name), rest) == Join(dir, name + "/" + rest)
  {
  }

  lemma WellFormedTail(es: seq<Entry>)
    requires es != [] && WellFormedEntries(es)
    ensures WellFormedName(es[0].name) && WellFormedEntries(es[1..])
    ensures es[0].Dir? ==> WellFormedEntries(es[0].children)
  {
  }

  /** `paths` lists, one for one, the root joined to the '/'-separated chains `rels`. */
  ghost predicate JoinedPathsOf(dir: string, paths: seq<string>, rels: seq<seq<string>>) {
    |paths| == |rels| &&
    forall k :: 0 <= k < |rels| ==> |rels[k]| > 0 && paths[k] == Join(dir, JoinWith(rels[k], '/'))
  }

  lemma JoinedPathsAppend(dir: string, a: seq<string>, ra: seq<seq<string>>, b: seq<string>, rb: seq<seq<string>>)
    requires JoinedPathsOf(dir, a, ra) && JoinedPathsOf(dir, b, rb)
    ensures JoinedPathsOf(dir, a + b, ra + rb)
  {
  }

  /** With well-formed names, the k-th intended path is the root joined to
      the k-th file's relative path, its names separated by '/'. */
  lemma {:induction false} GetFilesJoinedIsRelativePath(dir: string, es: seq<Entry>)
    requires WellFormedEntries(es)
    ensures JoinedPathsOf(dir, GetFilesJoined(dir, es), RelPaths(es))
    decreases es
  {
    if es != [] {
      WellFormedTail(es);
      EntryFilesJoinedIsRelativePath(dir, es[0]);
      GetFilesJoinedIsRelativePath(dir, es[1..]);
      JoinedPathsAppend(dir, EntryFilesJoined(dir, es[0]), EntryRelPaths(es[0]),
                        GetFilesJoined(dir, es[1..]), RelPaths(es[1..]));
    }
  }

  lemma {:induction false} EntryFilesJoinedIsRelativePath(dir: string, e: Entry)
    requires WellFormedName(e.name)
    requires e.Dir? ==> WellFormedEntries(e.children)
    ensures JoinedPathsOf(dir, EntryFilesJoined(dir, e), EntryRelPaths(e))
    decreases e
  {
    match e {
      case File(name) =>
      case Dir(name, children) =>
        GetFilesJoinedIsRelativePath(Join(dir, name), children);
        var rs := RelPaths(children);
        forall k | 0 <= k < |rs|
          ensures GetFilesJoined(Join(dir, name), children)[k] == Join(dir, JoinWith([name] + rs[k], '/'))
        {
          assert ([name] + rs[k])[1..] == rs[k];
          JoinThenJoin(dir, name, JoinWith(rs[k], '/'));
        }
    }
  }
}
