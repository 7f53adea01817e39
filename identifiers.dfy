/** Naming of the aquatic-pigments products: the product basename derived
    from the corrected-reflectance scene id and the CRID, the per-pigment
    suffixes, and the prefix that marks experimental outputs. */
module Identifiers {
  import opened Text

  /** Product-type code of the input scene id and of the output products. */
  const CorflType := "L2A_CORFL"
  const AquapigType := "L2B_AQUAPIG"

  /** Prefix given to every `SISTER*` output file of an experimental run. */
  const ExperimentalPrefix := "EXPERIMENTAL-"

  /** `get_aquapig_basename`: swap the product type, then replace the
      last `_`-token (the old CRID) by the new CRID. An id without the
      corrected-reflectance product type is accepted as it is. */
  function AquapigBasename(corfl: string, crid: string): string
  {
    var tokens := Split(Replace(corfl, CorflType, AquapigType), '_');
    Join(tokens[..|tokens| - 1] + [crid], '_')
  }

  /** Basenames of the chlorophyll-a and phycocyanin products. */
  function ChlBasename(aquapig: string): string { aquapig + "_CHL" }
  function PhycoBasename(aquapig: string): string { aquapig + "_PHYCO" }

  /** The tokens of the derived basename: those of the scene id after the
      product-type swap, with the last one replaced by the CRID. */
  lemma AquapigTokens(corfl: string, crid: string)
    requires '_' !in crid
    ensures var ts := Split(Replace(corfl, CorflType, AquapigType), '_');
      Split(AquapigBasename(corfl, crid), '_') == ts[..|ts| - 1] + [crid]
  {
    var ts := Split(Replace(corfl, CorflType, AquapigType), '_');
    SplitPieces(Replace(corfl, CorflType, AquapigType), '_');
    SplitJoin(ts[..|ts| - 1] + [crid], '_');
  }

  /** Both product-type codes hold one `_`, so the swap keeps the token
      count, and the derived basename has as many tokens as the scene id. */
  lemma AquapigTokenCount(corfl: string, crid: string)
    requires '_' !in crid
    ensures |Split(AquapigBasename(corfl, crid), '_')| == |Split(corfl, '_')|
  {
    AquapigTokens(corfl, crid);
    TypeSeparators();
    ReplaceCount('_', corfl, CorflType, AquapigType);
  }

  /** Helper: each product-type code holds exactly one `_`. */
  lemma TypeSeparators()
    ensures Count('_', CorflType) == 1 && Count('_', AquapigType) == 1
  {
    CorflSeparators();
    AquapigSeparators();
  }

  lemma CorflSeparators()
    ensures Count('_', CorflType) == 1
  {
    assert CorflType == "L2A" + "_" + "CORFL";
    CountAppend('_', "L2A", "_" + "CORFL");
    CountAppend('_', "_", "CORFL");
    CountAbsent('_', "L2A");
    CountAbsent('_', "CORFL");
  }

  lemma AquapigSeparators()
    ensures Count('_', AquapigType) == 1
  {
    assert AquapigType == "L2B" + "_" + "AQUAPIG";
    CountAppend('_', "L2B", "_" + "AQUAPIG");
    CountAppend('_', "_", "AQUAPIG");
    CountAbsent('_', "L2B");
    CountAbsent('_', "AQUAPIG");
  }

  /** A scene id without the corrected-reflectance product type is not
      rejected: only its last token changes. */
  lemma AquapigOfForeignId(corfl: string, crid: string)
    requires '_' !in crid && !Contains(corfl, CorflType)
    ensures var ts := Split(corfl, '_');
      Split(AquapigBasename(corfl, crid), '_') == ts[..|ts| - 1] + [crid]
  {
    ReplaceAbsent(corfl, CorflType, AquapigType);
    AquapigTokens(corfl, crid);
  }

  /** Two CRIDs give basenames that differ in the trailing token only. */
  lemma AquapigCridOnly(corfl: string, crid1: string, crid2: string)
    requires '_' !in crid1 && '_' !in crid2
    ensures var t1 := Split(AquapigBasename(corfl, crid1), '_');
      var t2 := Split(AquapigBasename(corfl, crid2), '_');
      |t1| == |t2| && t1[..|t1| - 1] == t2[..|t2| - 1]
      && t1[|t1| - 1] == crid1 && t2[|t2| - 1] == crid2
  {
    AquapigTokens(corfl, crid1);
    AquapigTokens(corfl, crid2);
  }

  /** A pigment suffix adds exactly one token to the basename. */
  lemma SuffixTokens(aquapig: string)
    ensures Split(ChlBasename(aquapig), '_') == Split(aquapig, '_') + ["CHL"]
    ensures Split(PhycoBasename(aquapig), '_') == Split(aquapig, '_') + ["PHYCO"]
  {
    assert ChlBasename(aquapig) == aquapig + ['_'] + "CHL";
    SplitSnoc(aquapig, '_', "CHL");
    assert PhycoBasename(aquapig) == aquapig + ['_'] + "PHYCO";
    SplitSnoc(aquapig, '_', "PHYCO");
  }

  /** A SISTER scene id `SISTER_<sensor>_L2A_CORFL_<start>_<old CRID>`
      becomes `SISTER_<sensor>_L2B_AQUAPIG_<start>_<CRID>`. */
  lemma AquapigOfSceneId(sensor: string, start: string, oldCrid: string, crid: string)
    requires '_' !in sensor && '_' !in start && '_' !in oldCrid && '_' !in crid
    requires 'L' !in start && 'L' !in oldCrid
    ensures AquapigBasename("SISTER_" + sensor + "_" + CorflType + "_" + start + "_" + oldCrid, crid)
            == "SISTER_" + sensor + "_" + AquapigType + "_" + start + "_" + crid
  {
    var corfl := "SISTER_" + sensor + "_" + CorflType + "_" + start + "_" + oldCrid;
    var ts := ["SISTER", sensor, "L2B", "AQUAPIG", start, oldCrid];
    SceneIdTokens(sensor, start, oldCrid);
    assert ts[..5] + [crid] == ["SISTER", sensor, "L2B", "AQUAPIG", start, crid];
    AquapigJoin(sensor, start, crid);
  }

  /** Helper: the tokens of a SISTER scene id after the product-type swap. */
  lemma SceneIdTokens(sensor: string, start: string, oldCrid: string)
    requires '_' !in sensor && '_' !in start && '_' !in oldCrid
    requires 'L' !in start && 'L' !in oldCrid
    ensures Split(Replace("SISTER_" + sensor + "_" + CorflType + "_" + start + "_" + oldCrid,
                          CorflType, AquapigType), '_')
            == ["SISTER", sensor, "L2B", "AQUAPIG", start, oldCrid]
  {
    SceneIdSwap(sensor, start, oldCrid);
    SplitJoin(["SISTER", sensor, "L2B", "AQUAPIG", start, oldCrid], '_');
  }

  /** Helper: the derived basename as a join of its six tokens. */
  lemma AquapigJoin(sensor: string, start: string, crid: string)
    ensures Join(["SISTER", sensor, "L2B", "AQUAPIG", start, crid], '_')
            == "SISTER_" + sensor + "_" + AquapigType + "_" + start + "_" + crid
  {
    JoinSixTokens("SISTER", sensor, "L2B", "AQUAPIG", start, crid);
    assert "L2B" + "_" + "AQUAPIG" == AquapigType;
  }

  /** Helper: the product-type swap on a SISTER scene id, as a join of tokens. */
  lemma SceneIdSwap(sensor: string, start: string, oldCrid: string)
    requires '_' !in sensor && 'L' !in start && 'L' !in oldCrid
    ensures Replace("SISTER_" + sensor + "_" + CorflType + "_" + start + "_" + oldCrid, CorflType, AquapigType)
            == Join(["SISTER", sensor, "L2B", "AQUAPIG", start, oldCrid], '_')
  {
    var a, b := "SISTER_" + sensor + "_", "_" + start + "_" + oldCrid;
    assert "SISTER_" + sensor + "_" + CorflType + "_" + start + "_" + oldCrid == a + CorflType + b;
    CorflAfterPrefix(sensor, b);
    SwapAt(a, b);
    SwappedTokens(sensor, start, oldCrid);
  }

  /** Helper: the swapped scene id as a join of its six tokens. */
  lemma SwappedTokens(sensor: string, start: string, oldCrid: string)
    ensures ("SISTER_" + sensor + "_") + AquapigType + ("_" + start + "_" + oldCrid)
            == Join(["SISTER", sensor, "L2B", "AQUAPIG", start, oldCrid], '_')
  {
    JoinSixTokens("SISTER", sensor, "L2B", "AQUAPIG", start, oldCrid);
    assert "L2B" + "_" + "AQUAPIG" == AquapigType;
  }

  /** The scene `SISTER_AVNG_L2A_CORFL_20200101T000000_000` with CRID
      `001` yields `SISTER_AVNG_L2B_AQUAPIG_20200101T000000_001`, and its
      chlorophyll product is that name followed by `_CHL`. */
  lemma AquapigExample()
    ensures AquapigBasename("SISTER_AVNG_L2A_CORFL_20200101T000000_000", "001")
            == "SISTER_AVNG_L2B_AQUAPIG_20200101T000000_001"
    ensures ChlBasename(AquapigBasename("SISTER_AVNG_L2A_CORFL_20200101T000000_000", "001"))
            == "SISTER_AVNG_L2B_AQUAPIG_20200101T000000_001_CHL"
  {
    ExampleInput();
    ExampleOutput();
    ExampleChl();
    AquapigOfSceneId("AVNG", "20200101T000000", "000", "001");
  }

  /** Helpers: the example ids spelled as their tokens. */
  lemma ExampleInput()
    ensures "SISTER_" + "AVNG" + "_" + CorflType + "_" + "20200101T000000" + "_" + "000"
            == "SISTER_AVNG_L2A_CORFL_20200101T000000_000"
  {
  }

  lemma ExampleOutput()
    ensures "SISTER_" + "AVNG" + "_" + AquapigType + "_" + "20200101T000000" + "_" + "001"
            == "SISTER_AVNG_L2B_AQUAPIG_20200101T000000_001"
  {
  }

  lemma ExampleChl()
    ensures "SISTER_AVNG_L2B_AQUAPIG_20200101T000000_001" + "_CHL"
            == "SISTER_AVNG_L2B_AQUAPIG_20200101T000000_001_CHL"
  {
  }

  /** Helper: the product-type swap where no other occurrence of it starts
      before it, and none follows it. */
  lemma SwapAt(a: string, b: string)
    requires NoMatchWithin(a, CorflType + b, CorflType) && 'L' !in b
    ensures Replace(a + CorflType + b, CorflType, AquapigType) == a + AquapigType + b
  {
    assert a + CorflType + b == a + (CorflType + b);
    ReplaceSkip(a, CorflType + b, CorflType, AquapigType);
    ReplaceHead(CorflType, b, AquapigType);
    NotContainsMissingChar(b, CorflType, 0);
    ReplaceAbsent(b, CorflType, AquapigType);
  }

  /** Helper: `L2A_CORFL` cannot start inside `SISTER_<sensor>_` when the
      sensor code holds no underscore, whatever letters it has: the
      pattern's underscore could only meet the one after `SISTER` (where
      the pattern would have to start at `T`) or the one closing the
      prefix (where the pattern's `C` would meet the `L` of `L2A`). */
  lemma CorflAfterPrefix(sensor: string, b: string)
    requires '_' !in sensor
    ensures NoMatchWithin("SISTER_" + sensor + "_", CorflType + b, CorflType)
  {
    var a := "SISTER_" + sensor + "_";
    var x := a + (CorflType + b);
    forall i | 0 <= i < |a|
      ensures !StartsWith(x[i..], CorflType)
    {
      if i < 3 {
        assert x[i + 3] == a[i + 3] != '_';
        assert x[i..][3] != CorflType[3];
      } else if i == 3 {
        assert x[i..][0] == 'T' != CorflType[0];
      } else if i < |a| - 4 {
        assert x[i + 3] == sensor[i - 4];
        assert x[i..][3] != CorflType[3];
      } else if i == |a| - 4 {
        assert x[i + 4] == CorflType[0];
        assert x[i..][4] != CorflType[4];
      } else {
        assert x[i + 3] == CorflType[i + 3 - |a|];
        assert x[i..][3] != CorflType[3];
      }
    }
  }

  /** Helper: `"_".join` of six tokens. */
  lemma JoinSixTokens(t0: string, t1: string, t2: string, t3: string, t4: string, t5: string)
    ensures Join([t0, t1, t2, t3, t4, t5], '_') == t0 + "_" + t1 + "_" + t2 + "_" + t3 + "_" + t4 + "_" + t5
  {
    JoinCons(t4, [t5], '_');
    JoinCons(t3, [t4, t5], '_');
    JoinCons(t2, [t3, t4, t5], '_');
    JoinCons(t1, [t2, t3, t4, t5], '_');
    JoinCons(t0, [t1, t2, t3, t4, t5], '_');
  }
}
