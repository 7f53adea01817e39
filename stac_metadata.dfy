/** `generate_stac_metadata`: the id, time range, footprint and
    properties of one catalog item, derived from an output basename and the
    scene metadata carried in the run configuration. */
module StacMetadata {
  import opened Text
  import opened Outcome
  import opened Identifiers

  /** One `[lon, lat]` corner of the scene footprint. */
  datatype Vertex = Vertex(lon: real, lat: real)

  /** The `bounding_box` list of the run configuration's metadata: a Python
      list object, shared by every reference to it. */
  class VertexList {
    var vertices: seq<Vertex>

    constructor (vs: seq<Vertex>)
      ensures vertices == vs
    {
      vertices := vs;
    }

    /** `list.append`. */
    method Append(v: Vertex)
      modifies this
      ensures vertices == old(vertices) + [v]
    {
      vertices := vertices + [v];
    }
  }

  /** Start and end times are carried as they come; parsing them is not
      part of this model. */
  type Timestamp = string

  /** The `metadata` section of the run configuration. */
  datatype SceneMeta = SceneMeta(sensor: string, startTime: Timestamp, endTime: Timestamp,
                                 boundingBox: VertexList)

  /** The `properties` of a catalog item. */
  datatype Properties = Properties(sensor: string, description: string, product: string,
                                   processingLevel: string)

  /** The dictionary that `generate_stac_metadata` returns. Its geometry is
      the very list object of the scene metadata, not a copy. */
  datatype ItemMeta = ItemMeta(id: string, startDatetime: Timestamp, endDatetime: Timestamp,
                               geometry: VertexList, properties: Properties)

  /** The pigment suffix of the product code, tested by substring, CHL first. */
  function PigmentSuffix(basename: string): string
  {
    if Contains(basename, "CHL") then "_CHL"
    else if Contains(basename, "PHYCO") then "_PHYCO"
    else ""
  }

  /** The item properties: product code from token 3 and processing level
      from token 2 of the basename; fewer than four tokens is an IndexError. */
  function ItemProperties(basename: string, description: string, sensor: string): Result<Properties>
  {
    var tokens := Split(basename, '_');
    if |tokens| < 4 then Err(IndexError)
    else Ok(Properties(sensor, description, tokens[3] + PigmentSuffix(basename), tokens[2]))
  }

  /** A polygon ring: its last vertex repeats its first. */
  predicate Closed(vs: seq<Vertex>)
  {
    |vs| > 0 && vs[|vs| - 1] == vs[0]
  }

  /** `generate_stac_metadata`. The footprint is closed by appending its first
      vertex to the caller's own list, before the basename is looked at: an
      empty box fails without change, a short basename fails after it. */
  method GenerateStacMetadata(basename: string, description: string, scene: SceneMeta)
    returns (r: Result<ItemMeta>)
    modifies scene.boundingBox
    ensures old(scene.boundingBox.vertices) == [] ==>
              r == Err(IndexError) && scene.boundingBox.vertices == []
    ensures old(scene.boundingBox.vertices) != [] ==>
              scene.boundingBox.vertices == old(scene.boundingBox.vertices) + [old(scene.boundingBox.vertices)[0]]
    ensures r.Ok? <==> old(scene.boundingBox.vertices) != [] && |Split(basename, '_')| >= 4
    ensures r.Err? ==> r.error == IndexError
    ensures r.Ok? ==> (r.value.id == basename
                       && r.value.startDatetime == scene.startTime && r.value.endDatetime == scene.endTime
                       && r.value.geometry == scene.boundingBox
                       && Closed(r.value.geometry.vertices)
                       && ItemProperties(basename, description, scene.sensor) == Ok(r.value.properties))
  {
    var geometry := scene.boundingBox;
    if |geometry.vertices| == 0 {
      return Err(IndexError);
    }
    geometry.Append(geometry.vertices[0]);
    var properties := ItemProperties(basename, description, scene.sensor);
    if properties.Err? {
      return Err(properties.error);
    }
    r := Ok(ItemMeta(basename, scene.startTime, scene.endTime, geometry, properties.value));
  }

  /** The experimental prefix holds no `_`, `CHL` or `PHYCO`, so a labelled
      basename has the same product code and processing level, and fails
      exactly when the unlabelled one does. */
  lemma LabelKeepsProperties(basename: string, description: string, sensor: string)
    ensures ItemProperties(ExperimentalPrefix + basename, description, sensor)
            == ItemProperties(basename, description, sensor)
  {
    var p := ExperimentalPrefix;
    PrefixFacts();
    SplitPrefix(p, basename, '_');
    ContainsAfterPrefix(p, basename, "CHL", 0);
    ContainsAfterPrefix(p, basename, "PHYCO", 1);
  }

  /** Helper: the characters of the experimental prefix that matter. */
  lemma PrefixFacts()
    ensures '_' !in ExperimentalPrefix && 'C' !in ExperimentalPrefix && 'H' !in ExperimentalPrefix
    ensures ExperimentalPrefix[|ExperimentalPrefix| - 1] == '-' && '-' !in "CHL" && '-' !in "PHYCO"
  {
  }

  /** The chlorophyll product of a basename with at least four tokens has
      product code `<token 3>_CHL` and the basename's processing level. */
  lemma ChlProductProperties(aquapig: string, description: string, sensor: string)
    requires |Split(aquapig, '_')| >= 4
    ensures var ts := Split(aquapig, '_');
      ItemProperties(ChlBasename(aquapig), description, sensor)
      == Ok(Properties(sensor, description, ts[3] + "_CHL", ts[2]))
  {
    assert Split(ChlBasename(aquapig), '_') == Split(aquapig, '_') + ["CHL"] by {
      SuffixTokens(aquapig);
    }
    assert Contains(ChlBasename(aquapig), "CHL") by {
      ContainsSuffix(aquapig + "_", "CHL");
      assert (aquapig + "_") + "CHL" == aquapig + "_CHL";
    }
  }

  /** The phycocyanin product of such a basename, when the basename does not
      mention `CHL` (which would win the substring test), has product code
      `<token 3>_PHYCO`. */
  lemma PhycoProductProperties(aquapig: string, description: string, sensor: string)
    requires |Split(aquapig, '_')| >= 4 && !Contains(aquapig, "CHL")
    ensures var ts := Split(aquapig, '_');
      ItemProperties(PhycoBasename(aquapig), description, sensor)
      == Ok(Properties(sensor, description, ts[3] + "_PHYCO", ts[2]))
  {
    SuffixTokens(aquapig);
    PhycoNameTests(aquapig);
  }

  /** Helper: the substring tests on a phycocyanin product name. */
  lemma PhycoNameTests(aquapig: string)
    requires !Contains(aquapig, "CHL")
    ensures !Contains(PhycoBasename(aquapig), "CHL") && Contains(PhycoBasename(aquapig), "PHYCO")
  {
    NotContainsAppend(aquapig, "_PHYCO", "CHL", 2);
    ContainsSuffix(aquapig + "_", "PHYCO");
    assert (aquapig + "_") + "PHYCO" == aquapig + "_PHYCO";
  }
}
