/** The last step of a run: every asset file of every catalog item is moved
    from `output/` into `output/<exec-id>/<item-id>/`. */
module Relocation {
  import opened Text
  import opened Outcome
  import opened OutputDirectory
  import opened Catalog

  /** `os.path.basename`: what follows the last `/` of a path. */
  function BaseName(path: string): (r: string)
    ensures '/' !in r
    decreases |path|
  {
    if |path| == 0 || path[|path| - 1] == '/' then ""
    else BaseName(path[..|path| - 1]) + [path[|path| - 1]]
  }

  /** The base name is a suffix of the path. */
  lemma {:induction false} BaseNameSuffix(path: string)
    ensures EndsWith(path, BaseName(path))
    decreases |path|
  {
    if |path| > 0 && path[|path| - 1] != '/' {
      var init := path[..|path| - 1];
      BaseNameSuffix(init);
      var r := BaseName(path);
      assert path[|path| - |r|..] == init[|init| - (|r| - 1)..] + [path[|path| - 1]];
    }
  }

  /** The file an asset href `./<name>` points at is `<name>`. */
  lemma {:induction false} BaseNameOfRelative(name: string)
    requires '/' !in name
    ensures BaseName("./" + name) == name
    decreases |name|
  {
    if |name| > 0 {
      var init := name[..|name| - 1];
      assert ("./" + name)[..|"./" + name| - 1] == "./" + init;
      BaseNameOfRelative(init);
      assert name == init + [name[|name| - 1]];
    }
  }

  /** One `shutil.move` of the relocation loop. */
  datatype FileMove = FileMove(src: Path, dst: Path)

  /** The move of one asset file of an item. */
  function AssetMove(execId: string, itemId: string, a: Asset): FileMove
  {
    var f := BaseName(a.href);
    FileMove(Top(f), Path([execId, itemId], f))
  }

  /** The moves of an item's assets, in the assets' order. */
  function AssetMoves(execId: string, itemId: string, assets: seq<Asset>): seq<FileMove>
    decreases |assets|
  {
    if |assets| == 0 then []
    else AssetMoves(execId, itemId, assets[..|assets| - 1])
         + [AssetMove(execId, itemId, assets[|assets| - 1])]
  }

  /** The moves of the whole catalog, item after item. */
  function CatalogMoves(execId: string, items: seq<Item>): seq<FileMove>
    decreases |items|
  {
    if |items| == 0 then []
    else CatalogMoves(execId, items[..|items| - 1])
         + AssetMoves(execId, items[|items| - 1].id, items[|items| - 1].assets)
  }

  /** The moves applied in order; the first that fails stops the rest. */
  function ApplyMoves(files: set<Path>, dirs: set<seq<string>>, ms: seq<FileMove>): Trace
    decreases |ms|
  {
    if |ms| == 0 then Trace(files, Ok(()))
    else
      var t := ApplyMoves(files, dirs, ms[..|ms| - 1]);
      if t.status.Err? then t else MoveStep(t.files, dirs, ms[|ms| - 1].src, ms[|ms| - 1].dst)
  }

  /** Once a move has failed, later moves change nothing. */
  lemma {:induction false} ApplyMovesStopped(files: set<Path>, dirs: set<seq<string>>,
                                             ms: seq<FileMove>, all: seq<FileMove>)
    requires ms <= all && ApplyMoves(files, dirs, ms).status.Err?
    ensures ApplyMoves(files, dirs, all) == ApplyMoves(files, dirs, ms)
    decreases |all|
  {
    if |all| > |ms| {
      ApplyMovesStopped(files, dirs, ms, all[..|all| - 1]);
    } else {
      assert all == ms;
    }
  }

  /** One more move after successful ones. */
  lemma ApplyMovesSnoc(files: set<Path>, dirs: set<seq<string>>, ms: seq<FileMove>, m: FileMove)
    requires ApplyMoves(files, dirs, ms).status.Ok?
    ensures ApplyMoves(files, dirs, ms + [m]) == MoveStep(ApplyMoves(files, dirs, ms).files, dirs, m.src, m.dst)
  {
    assert (ms + [m])[..|ms|] == ms;
  }

  /** The moves of the first `j` assets come first among an item's moves. */
  lemma {:induction false} AssetMovesPrefix(execId: string, itemId: string, assets: seq<Asset>, j: nat)
    requires j <= |assets|
    ensures AssetMoves(execId, itemId, assets[..j]) <= AssetMoves(execId, itemId, assets)
    decreases |assets| - j
  {
    if j < |assets| {
      var init := assets[..|assets| - 1];
      AssetMovesPrefix(execId, itemId, init, j);
      assert init[..j] == assets[..j];
    } else {
      assert assets[..j] == assets;
    }
  }

  /** The moves of the first `i` items come first among the catalog's. */
  lemma {:induction false} CatalogMovesPrefix(execId: string, items: seq<Item>, i: nat)
    requires i <= |items|
    ensures CatalogMoves(execId, items[..i]) <= CatalogMoves(execId, items)
    decreases |items| - i
  {
    if i < |items| {
      var init := items[..|items| - 1];
      CatalogMovesPrefix(execId, init, i);
      assert init[..i] == items[..i];
    } else {
      assert items[..i] == items;
    }
  }

  /** The moves of one item's assets, in order; a missing file stops them
      with FileNotFoundError, the moves before it having been made. The
      ghost `files0` and `done` are the directory before the relocation and
      the moves already made. */
  method RelocateItem(dir: OutputDir, execId: string, item: Item,
                      ghost files0: set<Path>, ghost done: seq<FileMove>) returns (r: Result<()>)
    requires dir.Valid()
    requires Trace(dir.files, Ok(())) == ApplyMoves(files0, dir.dirs, done)
    modifies dir
    ensures dir.Valid() && dir.dirs == old(dir.dirs)
    ensures Trace(dir.files, r) == ApplyMoves(files0, dir.dirs, done + AssetMoves(execId, item.id, item.assets))
  {
    var j := 0;
    assert done + AssetMoves(execId, item.id, item.assets[..j]) == done;
    while j < |item.assets|
      invariant 0 <= j <= |item.assets|
      invariant dir.Valid() && dir.dirs == old(dir.dirs)
      invariant Trace(dir.files, Ok(()))
                == ApplyMoves(files0, dir.dirs, done + AssetMoves(execId, item.id, item.assets[..j]))
    {
      var f := BaseName(item.assets[j].href);
      ghost var ms := done + AssetMoves(execId, item.id, item.assets[..j]);
      ghost var next := done + AssetMoves(execId, item.id, item.assets[..j + 1]);
      assert next == ms + [AssetMove(execId, item.id, item.assets[j])] by {
        assert item.assets[..j + 1][..j] == item.assets[..j];
      }
      ApplyMovesSnoc(files0, dir.dirs, ms, AssetMove(execId, item.id, item.assets[j]));
      var moved := dir.Move(Top(f), Path([execId, item.id], f));
      if moved.Err? {
        AssetMovesPrefix(execId, item.id, item.assets, j + 1);
        ApplyMovesStopped(files0, dir.dirs, next, done + AssetMoves(execId, item.id, item.assets));
        return moved;
      }
      j := j + 1;
    }
    assert item.assets[..j] == item.assets;
    r := Ok(());
  }

  /** The relocation loop of `main`: for each item, for each of its assets,
      the file the href names moves from `output/` to
      `output/<exec-id>/<item-id>/`. A missing file stops the loop with
      FileNotFoundError, the moves before it having been made. */
  method Relocate(dir: OutputDir, execId: string, catalog: StacCatalog) returns (r: Result<()>)
    requires dir.Valid()
    modifies dir
    ensures dir.Valid() && dir.dirs == old(dir.dirs)
    ensures Trace(dir.files, r) == ApplyMoves(old(dir.files), dir.dirs, CatalogMoves(execId, catalog.items))
  {
    ghost var files0 := dir.files;
    var items := catalog.items;
    var i := 0;
    while i < |items|
      invariant 0 <= i <= |items|
      invariant dir.Valid() && dir.dirs == old(dir.dirs)
      invariant Trace(dir.files, Ok(())) == ApplyMoves(files0, dir.dirs, CatalogMoves(execId, items[..i]))
    {
      ghost var next := CatalogMoves(execId, items[..i + 1]);
      assert next == CatalogMoves(execId, items[..i]) + AssetMoves(execId, items[i].id, items[i].assets) by {
        assert items[..i + 1][..i] == items[..i];
      }
      r := RelocateItem(dir, execId, items[i], files0, CatalogMoves(execId, items[..i]));
      if r.Err? {
        CatalogMovesPrefix(execId, items, i + 1);
        ApplyMovesStopped(files0, dir.dirs, next, CatalogMoves(execId, items));
        return;
      }
      i := i + 1;
    }
    assert items[..i] == items;
    r := Ok(());
  }

  /** Every source lies directly in `output/`, every target in an existing
      sub-directory. */
  predicate WellPlaced(ms: seq<FileMove>, dirs: set<seq<string>>)
  {
    forall k :: 0 <= k < |ms| ==> ms[k].src.dirs == [] && ms[k].dst.dirs != [] && ms[k].dst.dirs in dirs
  }

  function Sources(ms: seq<FileMove>): set<Path>
  {
    set m | m in ms :: m.src
  }

  function Targets(ms: seq<FileMove>): set<Path>
  {
    set m | m in ms :: m.dst
  }

  predicate DistinctSources(ms: seq<FileMove>)
  {
    forall i, j :: 0 <= i < j < |ms| ==> ms[i].src != ms[j].src
  }

  /** The effect of the relocation: it succeeds exactly when every source
      exists and no file is moved twice; then each source has left `output/`
      for its target, and every other file is where it was. */
  lemma {:induction false} RelocationEffect(files: set<Path>, dirs: set<seq<string>>, ms: seq<FileMove>)
    requires WellPlaced(ms, dirs)
    ensures ApplyMoves(files, dirs, ms).status.Ok? <==> DistinctSources(ms) && Sources(ms) <= files
    ensures ApplyMoves(files, dirs, ms).status.Ok? ==>
              ApplyMoves(files, dirs, ms).files == (files - Sources(ms)) + Targets(ms)
    decreases |ms|
  {
    if |ms| > 0 {
      var init, m := ms[..|ms| - 1], ms[|ms| - 1];
      assert ms == init + [m];
      RelocationEffect(files, dirs, init);
      var t := ApplyMoves(files, dirs, init);
      assert Sources(ms) == Sources(init) + {m.src};
      assert Targets(ms) == Targets(init) + {m.dst};
      DistinctSourcesSnoc(init, m);
      if t.status.Ok? {
        assert m.src !in Targets(init);
        assert m.src in t.files <==> m.src in files && m.src !in Sources(init);
      }
    }
  }

  /** One more move keeps the sources distinct exactly when its source is new. */
  lemma DistinctSourcesSnoc(ms: seq<FileMove>, m: FileMove)
    ensures DistinctSources(ms + [m]) <==> DistinctSources(ms) && m.src !in Sources(ms)
  {
    var all := ms + [m];
    if DistinctSources(all) {
      forall i, j | 0 <= i < j < |ms| ensures ms[i].src != ms[j].src {
        assert all[i] == ms[i] && all[j] == ms[j];
      }
      forall k | 0 <= k < |ms| ensures ms[k].src != m.src {
        assert all[k] == ms[k] && all[|ms|] == m;
      }
    }
    if DistinctSources(ms) && m.src !in Sources(ms) {
      forall i, j | 0 <= i < j < |all| ensures all[i].src != all[j].src {
        if j == |ms| {
          assert ms[i].src in Sources(ms);
        }
      }
    }
  }

  /** The relocation of a whole catalog: in addition, each asset file of
      each item is found at its target and no longer directly in `output/`,
      and a file no asset names stays in place. */
  lemma CatalogRelocation(files: set<Path>, dirs: set<seq<string>>, execId: string, items: seq<Item>)
    requires ItemDirs(execId, items) <= dirs
    ensures var ms := CatalogMoves(execId, items);
      var t := ApplyMoves(files, dirs, ms);
      && (t.status.Ok? <==> DistinctSources(ms) && Sources(ms) <= files)
      && (t.status.Ok? ==> t.files == (files - Sources(ms)) + Targets(ms))
      && (t.status.Ok? ==>
            forall i, j :: 0 <= i < |items| && 0 <= j < |items[i].assets| ==>
              var f := BaseName(items[i].assets[j].href);
              Path([execId, items[i].id], f) in t.files && Top(f) !in t.files)
  {
    var ms := CatalogMoves(execId, items);
    CatalogMovesPlaced(execId, items, dirs);
    RelocationEffect(files, dirs, ms);
    forall i, j | 0 <= i < |items| && 0 <= j < |items[i].assets|
      ensures AssetMove(execId, items[i].id, items[i].assets[j]) in ms
    {
      CatalogMovesHold(execId, items, i, j);
    }
  }

  /** The catalog's moves are well placed once its directories exist. */
  lemma {:induction false} CatalogMovesPlaced(execId: string, items: seq<Item>, dirs: set<seq<string>>)
    requires ItemDirs(execId, items) <= dirs
    ensures WellPlaced(CatalogMoves(execId, items), dirs)
    decreases |items|
  {
    if |items| > 0 {
      var init, last := items[..|items| - 1], items[|items| - 1];
      assert ItemDirs(execId, init) <= ItemDirs(execId, items);
      CatalogMovesPlaced(execId, init, dirs);
      assert [execId, last.id] in dirs;
      AssetMovesPlaced(execId, last.id, last.assets, dirs);
    }
  }

  /** An item's moves are well placed once its directory exists. */
  lemma {:induction false} AssetMovesPlaced(execId: string, itemId: string, assets: seq<Asset>,
                                            dirs: set<seq<string>>)
    requires [execId, itemId] in dirs
    ensures WellPlaced(AssetMoves(execId, itemId, assets), dirs)
    decreases |assets|
  {
    if |assets| > 0 {
      AssetMovesPlaced(execId, itemId, assets[..|assets| - 1], dirs);
    }
  }

  /** Every asset of every item has its move among the catalog's. */
  lemma {:induction false} CatalogMovesHold(execId: string, items: seq<Item>, i: nat, j: nat)
    requires i < |items| && j < |items[i].assets|
    ensures AssetMove(execId, items[i].id, items[i].assets[j]) in CatalogMoves(execId, items)
    decreases |items|
  {
    var init := items[..|items| - 1];
    if i < |items| - 1 {
      CatalogMovesHold(execId, init, i, j);
    } else {
      AssetMovesHold(execId, items[i].id, items[i].assets, j);
    }
  }

  /** Every asset of an item has its move among the item's. */
  lemma {:induction false} AssetMovesHold(execId: string, itemId: string, assets: seq<Asset>, j: nat)
    requires j < |assets|
    ensures AssetMove(execId, itemId, assets[j]) in AssetMoves(execId, itemId, assets)
    decreases |assets|
  {
    if j < |assets| - 1 {
      AssetMovesHold(execId, itemId, assets[..|assets| - 1], j);
    }
  }
}
