/** The harvest scan of main.py (harvest_and_upload, step 3): a top-down
    walk of the mounted disk that prunes hidden directories and collects
    every file that is not hidden and not one of the host's desktop files.

    The disk is a tree of entries in directory listing order. */
module HarvestScan {
  import opened Text

  datatype Entry = File(name: string) | Dir(name: string, entries: seq<Entry>)

  /** Names starting with '.' (such as .Trash) are hidden. */
  predicate Hidden(name: string) {
    StartsWith(name, ".")
  }

  /** The files the harvest uploads: not hidden, not desktop.ini, not Thumbs.db. */
  predicate Wanted(name: string) {
    !Hidden(name) && name != "desktop.ini" && name != "Thumbs.db"
  }

  /** os.path.join(root, name) for a name that is not absolute. */
  function Join(root: string, name: string): string {
    if root == [] || root[|root| - 1] == '/' then root + name else root + "/" + name
  }

  /** The paths the walk collects under `root`: the wanted files of the
      directory in listing order, then the scans of its visible
      sub-directories in listing order. */
  function Scan(root: string, es: seq<Entry>): seq<string>
    decreases es, 1
  {
    FilesOf(root, es) + DirsOf(root, es)
  }

  function FilesOf(root: string, es: seq<Entry>): seq<string>
    decreases es, 0
  {
    if es == [] then []
    else (if es[0].File? && Wanted(es[0].name) then [Join(root, es[0].name)] else []) + FilesOf(root, es[1..])
  }

  function DirsOf(root: string, es: seq<Entry>): seq<string>
    decreases es, 0
  {
    if es == [] then []
    else (if es[0].Dir? && !Hidden(es[0].name) then Scan(Join(root, es[0].name), es[0].entries) else [])
         + DirsOf(root, es[1..])
  }

  /** The file `name` lies at `path` below `root` on a route through
      directories that are not hidden. */
  ghost predicate Reaches(root: string, es: seq<Entry>, path: string, name: string)
    decreases es
  {
    exists i :: 0 <= i < |es| && Holds(root, es[i], path, name)
  }

  ghost predicate Holds(root: string, e: Entry, path: string, name: string)
    decreases e
  {
    match e
    case File(n) => n == name && path == Join(root, n)
    case Dir(d, sub) => !Hidden(d) && Reaches(Join(root, d), sub, path, name)
  }

  /** What a later entry holds, the list holds. */
  lemma ReachesLater(root: string, es: seq<Entry>, path: string, name: string)
    requires es != [] && Reaches(root, es[1..], path, name)
    ensures Reaches(root, es, path, name)
  {
    var i :| 0 <= i < |es[1..]| && Holds(root, es[1..][i], path, name);
    assert Holds(root, es[i + 1], path, name);
  }

  /** Every collected path is a wanted file reached through visible directories. */
  lemma {:induction false} ScanSound(root: string, es: seq<Entry>, path: string)
    requires path in Scan(root, es)
    ensures exists name :: Reaches(root, es, path, name) && Wanted(name)
    decreases es, 1
  {
    if path in FilesOf(root, es) {
      FilesSound(root, es, path);
    } else {
      DirsSound(root, es, path);
    }
  }

  lemma {:induction false} FilesSound(root: string, es: seq<Entry>, path: string)
    requires path in FilesOf(root, es)
    ensures exists name :: Reaches(root, es, path, name) && Wanted(name)
    decreases es, 0
  {
    var e := es[0];
    if e.File? && Wanted(e.name) && path == Join(root, e.name) {
      assert Holds(root, es[0], path, e.name);
    } else {
      FilesSound(root, es[1..], path);
      var name :| Reaches(root, es[1..], path, name) && Wanted(name);
      ReachesLater(root, es, path, name);
    }
  }

  lemma {:induction false} DirsSound(root: string, es: seq<Entry>, path: string)
    requires path in DirsOf(root, es)
    ensures exists name :: Reaches(root, es, path, name) && Wanted(name)
    decreases es, 0
  {
    var e := es[0];
    if e.Dir? && !Hidden(e.name) && path in Scan(Join(root, e.name), e.entries) {
      ScanSound(Join(root, e.name), e.entries, path);
      var name :| Reaches(Join(root, e.name), e.entries, path, name) && Wanted(name);
      assert Holds(root, es[0], path, name);
    } else {
      DirsSound(root, es[1..], path);
      var name :| Reaches(root, es[1..], path, name) && Wanted(name);
      ReachesLater(root, es, path, name);
    }
  }

  /** The i-th entry, a wanted file, is collected. */
  lemma {:induction false} FilesHas(root: string, es: seq<Entry>, i: nat)
    requires i < |es| && es[i].File? && Wanted(es[i].name)
    ensures Join(root, es[i].name) in FilesOf(root, es)
    decreases i
  {
    if i > 0 {
      FilesHas(root, es[1..], i - 1);
    }
  }

  /** What the scan of the i-th entry, a visible directory, collects is collected. */
  lemma {:induction false} DirsHas(root: string, es: seq<Entry>, i: nat, path: string)
    requires i < |es| && es[i].Dir? && !Hidden(es[i].name)
    requires path in Scan(Join(root, es[i].name), es[i].entries)
    ensures path in DirsOf(root, es)
    decreases i
  {
    if i > 0 {
      DirsHas(root, es[1..], i - 1, path);
    }
  }

  /** Every wanted file reached through visible directories is collected. */
  lemma {:induction false} ScanComplete(root: string, es: seq<Entry>, path: string, name: string)
    requires Reaches(root, es, path, name) && Wanted(name)
    ensures path in Scan(root, es)
    decreases es
  {
    var i :| 0 <= i < |es| && Holds(root, es[i], path, name);
    match es[i]
    case File(n) =>
      FilesHas(root, es, i);
    case Dir(d, sub) =>
      ScanComplete(Join(root, d), sub, path, name);
      DirsHas(root, es, i, path);
  }
}
