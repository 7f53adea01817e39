/** The flat `output/` directory of a run: the experimental relabelling of
    its files, the recovery of the run's names from its log file, and the
    file moves that the catalog step makes. */
module OutputDirectory {
  import opened Text
  import opened Outcome
  import opened Identifiers

  /** A path below `output/`: its sub-directories, then its file name. */
  datatype Path = Path(dirs: seq<string>, name: string)

  /** A file directly in `output/`. */
  function Top(name: string): Path
  {
    Path([], name)
  }

  /** Matches `output/SISTER*`. */
  predicate IsSisterFile(p: Path)
  {
    p.dirs == [] && StartsWith(p.name, "SISTER")
  }

  /** Where the experimental relabelling moves a file. */
  function LabelPath(p: Path): Path
  {
    Top(ExperimentalPrefix + p.name)
  }

  function SisterFiles(files: set<Path>): set<Path>
  {
    set p | p in files && IsSisterFile(p)
  }

  /** The directory after each file in `moved` was moved to its labelled name. */
  function Relabelled(files: set<Path>, moved: set<Path>): set<Path>
  {
    (files - moved) + set p | p in moved :: LabelPath(p)
  }

  /** The directory after the relabelling loop. */
  function Labelled(files: set<Path>): set<Path>
  {
    Relabelled(files, SisterFiles(files))
  }

  /** A labelled name starts with `E`, so it is never a `SISTER*` file. */
  lemma LabelPathNotSister(p: Path, q: Path)
    requires IsSisterFile(q)
    ensures LabelPath(p) != q && !IsSisterFile(LabelPath(p))
  {
    assert LabelPath(p).name[0] == 'E';
    assert q.name[0] == 'S';
  }

  /** One more move of the relabelling loop. */
  lemma RelabelStep(files: set<Path>, moved: set<Path>, p: Path)
    requires IsSisterFile(p) && p !in moved
    ensures Relabelled(files, moved + {p}) == Relabelled(files, moved) - {p} + {LabelPath(p)}
  {
    forall q | q in moved ensures LabelPath(q) != p {
      LabelPathNotSister(q, p);
    }
  }

  /** Every `SISTER*` file is renamed to its labelled name and leaves its
      old name; every other file keeps its name; nothing else appears. */
  lemma LabelledEffect(files: set<Path>, p: Path)
    ensures p in Labelled(files) <==>
              (p in files && !IsSisterFile(p))
              || (p.dirs == [] && StartsWith(p.name, ExperimentalPrefix)
                  && Top(p.name[|ExperimentalPrefix|..]) in SisterFiles(files))
  {
    var e := ExperimentalPrefix;
    if p in files && IsSisterFile(p) {
      LabelPathNotSister(p, p);
    }
    forall q | q in SisterFiles(files) && LabelPath(q) == p
      ensures p.dirs == [] && StartsWith(p.name, e) && Top(p.name[|e|..]) == q
    {
      assert p.name == e + q.name;
      assert p.name[|e|..] == q.name;
    }
    if p.dirs == [] && StartsWith(p.name, e) && Top(p.name[|e|..]) in SisterFiles(files) {
      var q := Top(p.name[|e|..]);
      assert p.name == e + q.name;
      assert LabelPath(q) == p;
    }
  }

  /** Labelling a second time renames nothing. */
  lemma {:induction false} LabelledIdempotent(files: set<Path>)
    ensures SisterFiles(Labelled(files)) == {}
    ensures Labelled(Labelled(files)) == Labelled(files)
  {
    forall p | p in Labelled(files) ensures !IsSisterFile(p) {
      if p !in files || IsSisterFile(p) {
        var q :| q in SisterFiles(files) && LabelPath(q) == p;
        LabelPathNotSister(q, q);
      }
    }
    assert Relabelled(Labelled(files), {}) == Labelled(files);
  }

  /** The names the run recovers from its log file. */
  datatype RunNames = RunNames(log: string, runconfig: string, execId: string)

  /** Matches the glob `*<crid>.log` in `output`; its leading `*` skips dot-files. */
  predicate IsRunLog(p: Path, crid: string)
  {
    p.dirs == [] && |p.name| > 0 && p.name[0] != '.' && EndsWith(p.name, crid + ".log")
  }

  /** The runconfig path is the log path with `.log` replaced, and the
      execution basename is the log name without its last four characters. */
  function NamesFromLog(log: string): RunNames
    requires EndsWith(log, ".log")
  {
    RunNames(log, Replace(log, ".log", ".runconfig.json"), log[..|log| - 4])
  }

  /** For a basename without a dot, the names recovered from `<b>.log` are
      `<b>.runconfig.json` and `<b>`: the two files written beside it. */
  lemma NamesFromLogOf(b: string)
    requires '.' !in b
    ensures EndsWith(b + ".log", ".log")
    ensures NamesFromLog(b + ".log") == RunNames(b + ".log", b + ".runconfig.json", b)
  {
    var log := b + ".log";
    assert log[|log| - 4..] == ".log";
    assert log[..|log| - 4] == b;
    NoMatchMissingHead(b, ".log", ".log");
    ReplaceSkip(b, ".log", ".log", ".runconfig.json");
    LogSwap();
  }

  /** Helper: the suffix swap itself. */
  lemma LogSwap()
    ensures Replace(".log", ".log", ".runconfig.json") == ".runconfig.json"
  {
    ReplaceHead(".log", "", ".runconfig.json");
    assert ".log" + "" == ".log";
    assert ".runconfig.json" + "" == ".runconfig.json";
  }

  /** After labelling, the names recovered from the labelled log point at
      the labelled runconfig copy, which is in the directory. */
  lemma LabelledRunNames(files: set<Path>, aquapig: string)
    requires StartsWith(aquapig, "SISTER") && '.' !in aquapig
    requires Top(aquapig + ".log") in files && Top(aquapig + ".runconfig.json") in files
    ensures var log := ExperimentalPrefix + aquapig + ".log";
      && Top(log) in Labelled(files) && Top(aquapig + ".log") !in Labelled(files)
      && EndsWith(log, ".log")
      && NamesFromLog(log) == RunNames(log, ExperimentalPrefix + aquapig + ".runconfig.json",
                                       ExperimentalPrefix + aquapig)
      && Top(NamesFromLog(log).runconfig) in Labelled(files)
  {
    var e := ExperimentalPrefix;
    LabelledSibling(files, aquapig, ".log");
    LabelledSibling(files, aquapig, ".runconfig.json");
    assert '.' !in e + aquapig by {
      assert '.' !in e;
    }
    NamesFromLogOf(e + aquapig);
  }

  /** Helper: a `SISTER*` file is found under its labelled name after
      labelling, and no longer under its own. */
  lemma LabelledSibling(files: set<Path>, aquapig: string, ext: string)
    requires StartsWith(aquapig, "SISTER") && Top(aquapig + ext) in files
    ensures Top(ExperimentalPrefix + aquapig + ext) in Labelled(files)
    ensures Top(aquapig + ext) !in Labelled(files)
  {
    var p := Top(aquapig + ext);
    assert StartsWith(p.name, "SISTER") by {
      assert p.name[..6] == aquapig[..6];
    }
    LabelledEffect(files, p);
    assert p.name[0] == 'S' && !StartsWith(p.name, ExperimentalPrefix);
    assert LabelPath(p) in Labelled(files);
    assert ExperimentalPrefix + aquapig + ext == ExperimentalPrefix + p.name;
  }

  /** The files after one or more moves, and whether they all succeeded. */
  datatype Trace = Trace(files: set<Path>, status: Result<()>)

  /** One `shutil.move` on a set of files. */
  function MoveStep(files: set<Path>, dirs: set<seq<string>>, src: Path, dst: Path): Trace
  {
    if src in files && dst.dirs in dirs then Trace(files - {src} + {dst}, Ok(()))
    else Trace(files, Err(FileNotFoundError))
  }

  /** `output/` and the directories below it. */
  class OutputDir {
    var files: set<Path>
    var dirs: set<seq<string>>

    /** `output/` exists and every file lies in an existing directory. */
    ghost predicate Valid()
      reads this
    {
      [] in dirs && forall p :: p in files ==> p.dirs in dirs
    }

    /** An `output/` holding the given files. */
    constructor (names: set<string>)
      ensures Valid()
      ensures files == (set n | n in names :: Top(n)) && dirs == {[]}
    {
      files := set n | n in names :: Top(n);
      dirs := {[]};
    }

    /** `shutil.move`: fails when the source is missing or the target
        directory does not exist; replaces a file already at the target. */
    method Move(src: Path, dst: Path) returns (r: Result<()>)
      requires Valid()
      modifies this
      ensures Valid() && dirs == old(dirs)
      ensures r.Ok? <==> src in old(files) && dst.dirs in dirs
      ensures r.Err? ==> r.error == FileNotFoundError && files == old(files)
      ensures r.Ok? ==> files == old(files) - {src} + {dst}
      ensures Trace(files, r) == MoveStep(old(files), dirs, src, dst)
    {
      if src !in files || dst.dirs !in dirs {
        return Err(FileNotFoundError);
      }
      files := files - {src} + {dst};
      r := Ok(());
    }

    /** The experimental relabelling: every `SISTER*` file of `output/`
        becomes `EXPERIMENTAL-SISTER*`. */
    method LabelExperimental()
      requires Valid()
      modifies this
      ensures Valid() && dirs == old(dirs)
      ensures files == Labelled(old(files))
    {
      ghost var start := files;
      var todo := SisterFiles(files);
      ghost var moved: set<Path> := {};
      assert Relabelled(start, {}) == start;
      while todo != {}
        invariant Valid() && dirs == old(dirs)
        invariant todo + moved == SisterFiles(start) && todo !! moved
        invariant files == Relabelled(start, moved)
        decreases todo
      {
        var p :| p in todo;
        assert p in files;
        var moveResult := Move(p, LabelPath(p));
        assert moveResult.Ok?;
        RelabelStep(start, moved, p);
        moved := moved + {p};
        todo := todo - {p};
      }
    }

    /** The first match of the glob `*<crid>.log` in `output`, and the names derived from it. The
        order glob lists files in is unspecified, so any match may come
        first; no match is an IndexError. */
    method RecoverNames(crid: string) returns (r: Result<RunNames>)
      ensures r.Err? <==> (forall p :: p in files ==> !IsRunLog(p, crid))
      ensures r.Err? ==> r.error == IndexError
      ensures r.Ok? ==> Top(r.value.log) in files && IsRunLog(Top(r.value.log), crid)
                        && r.value == NamesFromLog(r.value.log)
    {
      var logs := set p | p in files && IsRunLog(p, crid);
      if logs == {} {
        assert forall p :: p in files ==> p !in logs;
        return Err(IndexError);
      }
      var p :| p in logs;
      assert EndsWith(p.name, ".log") by {
        var n, w := p.name, crid + ".log";
        assert n[|n| - 4..] == w[|w| - 4..];
      }
      r := Ok(NamesFromLog(p.name));
    }
  }
}
