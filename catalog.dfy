/** The STAC catalog of a run: `create_item`, the discovery of the product
    rasters, the item loop of `main` and the saved layout of the catalog. */
module Catalog {
  import opened Text
  import opened Outcome
  import opened Identifiers
  import opened StacMetadata
  import opened OutputDirectory

  /** An asset of an item: its key and its href. */
  datatype Asset = Asset(key: string, href: string)

  /** A `pystac.Item`. Its geometry is the list object it was given. */
  datatype Item = Item(id: string, datetime: Timestamp, startDatetime: Timestamp,
                       endDatetime: Timestamp, geometry: VertexList,
                       properties: Properties, assets: seq<Asset>)

  /** The keys of a Python dict are distinct. */
  predicate DistinctKeys(assets: seq<Asset>)
  {
    forall i, j :: 0 <= i < j < |assets| ==> assets[i].key != assets[j].key
  }

  /** `item.assets[key] = asset`: a known key keeps its place and takes the
      new asset, a new key goes last. */
  function PutAsset(assets: seq<Asset>, a: Asset): seq<Asset>
    decreases |assets|
  {
    if |assets| == 0 then [a]
    else if assets[0].key == a.key then [a] + assets[1..]
    else [assets[0]] + PutAsset(assets[1..], a)
  }

  /** A new key is appended. */
  lemma {:induction false} PutAssetNew(assets: seq<Asset>, a: Asset)
    requires forall k :: 0 <= k < |assets| ==> assets[k].key != a.key
    ensures PutAsset(assets, a) == assets + [a]
    decreases |assets|
  {
    if |assets| > 0 {
      PutAssetNew(assets[1..], a);
      assert assets == [assets[0]] + assets[1..];
    }
  }

  /** A known key is overwritten where it stands. */
  lemma {:induction false} PutAssetKnown(assets: seq<Asset>, a: Asset, i: nat)
    requires DistinctKeys(assets) && i < |assets| && assets[i].key == a.key
    ensures PutAsset(assets, a) == assets[i := a]
    decreases |assets|
  {
    if i > 0 {
      assert assets[0].key != a.key;
      PutAssetKnown(assets[1..], a, i - 1);
      assert assets[i := a] == [assets[0]] + assets[1..][i - 1 := a];
    }
  }

  /** `item.assets[key] = asset` keeps the keys distinct, as a dict's are,
      and the asset is then stored under its key. */
  lemma PutAssetDistinct(assets: seq<Asset>, a: Asset)
    requires DistinctKeys(assets)
    ensures DistinctKeys(PutAsset(assets, a)) && a in PutAsset(assets, a)
  {
    if i :| 0 <= i < |assets| && assets[i].key == a.key {
      PutAssetKnown(assets, a, i);
    } else {
      PutAssetNew(assets, a);
    }
  }

  /** `create_item`: the item takes the metadata's id, times, geometry and
      properties, its start time doubling as its datetime, and the assets in
      the dict's order. */
  method CreateItem(meta: ItemMeta, assets: seq<Asset>) returns (item: Item)
    requires DistinctKeys(assets)
    ensures item.id == meta.id && item.geometry == meta.geometry && item.properties == meta.properties
    ensures item.datetime == meta.startDatetime && item.startDatetime == meta.startDatetime
    ensures item.endDatetime == meta.endDatetime
    ensures item.assets == assets
  {
    item := Item(meta.id, meta.startDatetime, meta.startDatetime, meta.endDatetime,
                 meta.geometry, meta.properties, []);
    var k := 0;
    while k < |assets|
      invariant 0 <= k <= |assets|
      invariant item == Item(meta.id, meta.startDatetime, meta.startDatetime, meta.endDatetime,
                             meta.geometry, meta.properties, assets[..k])
    {
      PutAssetNew(item.assets, assets[k]);
      item := item.(assets := PutAsset(item.assets, assets[k]));
      assert assets[..k + 1] == assets[..k] + [assets[k]];
      k := k + 1;
    }
    assert assets[..k] == assets;
  }

  /** A `pystac.Catalog`: its items accumulate in the order they are added. */
  class StacCatalog {
    const id: string
    const description: string
    var items: seq<Item>

    constructor (id: string, description: string)
      ensures this.id == id && this.description == description && items == []
    {
      this.id := id;
      this.description := description;
      items := [];
    }

    /** `catalog.add_item`. */
    method AddItem(item: Item)
      modifies this
      ensures items == old(items) + [item]
    {
      items := items + [item];
    }
  }

  /** The disclaimer that opens every description of an experimental run. */
  function Disclaimer(experimental: bool): string
  {
    if experimental then "(DISCLAIMER: THIS DATA IS EXPERIMENTAL AND NOT INTENDED FOR SCIENTIFIC USE) "
    else ""
  }

  /** The descriptions a run gives its catalog and items. */
  datatype Descriptions = Descriptions(catalog: string, exec: string, chl: string, phyco: string)

  /** The descriptions of the aquatic-pigments catalog, before any disclaimer. */
  const PigmentTexts := Descriptions(
    "This catalog contains the output data products of the SISTER "
    + "aquatic pigments PGE, including chlorophyll A and phycocyanin in "
    + "cloud-optimized GeoTIFF format. Execution artifacts including the "
    + "runconfig file and execution log file are also included.",
    "Aquatic pigments - chlorophyll A content mg m-3, and phycocyanin content (mg m-3) "
    + "estimated using mixture density network.",
    "Chlorophyll A content mg m-3",
    "Phycocyanin content (mg m-3) estimated using mixture density network.")

  /** Each text opened by the disclaimer. */
  function Disclaimed(disclaimer: string, texts: Descriptions): Descriptions
  {
    Descriptions(disclaimer + texts.catalog, disclaimer + texts.exec,
                 disclaimer + texts.chl, disclaimer + texts.phyco)
  }

  /** The descriptions of a run. */
  function RunDescriptions(disclaimer: string): Descriptions
  {
    Disclaimed(disclaimer, PigmentTexts)
  }

  /** The item id of a raster: its name without the last four characters
      (all of it goes when the name is shorter, as with a Python slice). */
  function TifId(name: string): string
  {
    if |name| >= 4 then name[..|name| - 4] else ""
  }

  /** Matches the glob `*SISTER*.tif` in `output`; the leading `*` skips
      dot-files. */
  predicate IsTifName(name: string)
  {
    |name| > 0 && name[0] != '.' && EndsWith(name, ".tif") && Contains(TifId(name), "SISTER")
  }

  /** The assets of the execution item. */
  function ExecAssets(names: RunNames): seq<Asset>
  {
    [Asset("runconfig", "./" + names.runconfig), Asset("log", "./" + names.log)]
  }

  /** The assets of a raster's item: the raster and its quicklook. */
  function TifAssets(name: string): seq<Asset>
  {
    [Asset("cog", "./" + name), Asset("browse", "./" + Replace(name, ".tif", ".png"))]
  }

  /** The description variable after one more raster: the pigment's own
      description when the id names it, CHL first, else the previous one. */
  function NextDescription(previous: string, texts: Descriptions, id: string): string
  {
    if Contains(id, "CHL") then texts.chl
    else if Contains(id, "PHYCO") then texts.phyco
    else previous
  }

  /** The description variable after the first `n` rasters. */
  function DescriptionAt(texts: Descriptions, tifs: seq<string>, n: nat): string
    requires n <= |tifs|
  {
    if n == 0 then texts.exec
    else NextDescription(DescriptionAt(texts, tifs, n - 1), texts, TifId(tifs[n - 1]))
  }

  /** A basename from which the metadata step can read tokens 2 and 3. */
  predicate HasProductTokens(basename: string)
  {
    |Split(basename, '_')| >= 4
  }

  /** `m` copies of one vertex. */
  function Copies(v: Vertex, m: nat): seq<Vertex>
  {
    if m == 0 then [] else Copies(v, m - 1) + [v]
  }

  /** The item that `create_item` makes from `generate_stac_metadata(id,
      description, meta)` and the given assets. */
  function ItemFor(id: string, description: string, scene: SceneMeta, assets: seq<Asset>): Item
    requires HasProductTokens(id)
  {
    Item(id, scene.startTime, scene.startTime, scene.endTime, scene.boundingBox,
         ItemProperties(id, description, scene.sensor).value, assets)
  }

  /** The item of the `k`th raster. */
  function TifItem(texts: Descriptions, scene: SceneMeta, tifs: seq<string>, k: nat): Item
    requires k < |tifs| && HasProductTokens(TifId(tifs[k]))
  {
    ItemFor(TifId(tifs[k]), DescriptionAt(texts, tifs, k + 1), scene, TifAssets(tifs[k]))
  }

  /** The items of the catalog after the execution item and the first `n`
      rasters. */
  function CatalogItems(texts: Descriptions, names: RunNames, scene: SceneMeta, tifs: seq<string>,
                        n: nat): seq<Item>
    requires n <= |tifs| && HasProductTokens(names.execId)
    requires forall j :: 0 <= j < n ==> HasProductTokens(TifId(tifs[j]))
  {
    [ItemFor(names.execId, texts.exec, scene, ExecAssets(names))]
    + seq(n, j requires 0 <= j < n => TifItem(texts, scene, tifs, j))
  }

  /** One more raster adds its item at the end. */
  lemma CatalogItemsSnoc(texts: Descriptions, names: RunNames, scene: SceneMeta, tifs: seq<string>,
                         k: nat)
    requires k < |tifs| && HasProductTokens(names.execId)
    requires forall j :: 0 <= j <= k ==> HasProductTokens(TifId(tifs[j]))
    ensures CatalogItems(texts, names, scene, tifs, k + 1)
            == CatalogItems(texts, names, scene, tifs, k) + [TifItem(texts, scene, tifs, k)]
  {
  }

  /** The catalog with its execution item, which holds the runconfig and
      the log. */
  method StartCatalog(corfl: string, texts: Descriptions, names: RunNames, scene: SceneMeta)
    returns (r: Result<StacCatalog>)
    modifies scene.boundingBox
    ensures old(scene.boundingBox.vertices) == [] ==> scene.boundingBox.vertices == []
    ensures old(scene.boundingBox.vertices) != [] ==>
              scene.boundingBox.vertices
              == old(scene.boundingBox.vertices) + [old(scene.boundingBox.vertices)[0]]
    ensures r.Ok? <==> old(scene.boundingBox.vertices) != [] && HasProductTokens(names.execId)
    ensures r.Err? ==> r.error == IndexError
    ensures r.Ok? ==> (fresh(r.value) && r.value.id == corfl && r.value.description == texts.catalog
                       && r.value.items == CatalogItems(texts, names, scene, [], 0))
  {
    var catalog := new StacCatalog(corfl, texts.catalog);
    var meta := GenerateStacMetadata(names.execId, texts.exec, scene);
    if meta.Err? {
      return Err(meta.error);
    }
    var item := CreateItem(meta.value, ExecAssets(names));
    catalog.AddItem(item);
    r := Ok(catalog);
  }

  /** One pass of the item loop: the description follows the raster's id,
      then the raster's item is made and added to the catalog. */
  method AddRasterItem(catalog: StacCatalog, texts: Descriptions, names: RunNames, scene: SceneMeta,
                       tifs: seq<string>, k: nat, description: string) returns (r: Result<string>)
    requires k < |tifs| && HasProductTokens(names.execId) && scene.boundingBox.vertices != []
    requires forall j :: 0 <= j < k ==> HasProductTokens(TifId(tifs[j]))
    requires description == DescriptionAt(texts, tifs, k)
    requires catalog.items == CatalogItems(texts, names, scene, tifs, k)
    modifies catalog, scene.boundingBox
    ensures scene.boundingBox.vertices
            == old(scene.boundingBox.vertices) + [old(scene.boundingBox.vertices)[0]]
    ensures r.Ok? <==> HasProductTokens(TifId(tifs[k]))
    ensures r.Err? ==> r.error == IndexError && catalog.items == old(catalog.items)
    ensures r.Ok? ==> (r.value == DescriptionAt(texts, tifs, k + 1)
                       && catalog.items == CatalogItems(texts, names, scene, tifs, k + 1))
  {
    var id := TifId(tifs[k]);
    var next := NextDescription(description, texts, id);
    var meta := GenerateStacMetadata(id, next, scene);
    if meta.Err? {
      return Err(meta.error);
    }
    assert next == DescriptionAt(texts, tifs, k + 1);
    var item := CreateItem(meta.value, TifAssets(tifs[k]));
    assert item == TifItem(texts, scene, tifs, k);
    catalog.AddItem(item);
    CatalogItemsSnoc(texts, names, scene, tifs, k);
    r := Ok(next);
  }

  /** The item loop of `main`: the execution item holding the runconfig and
      the log, then one item per raster in the order given. Every call of the
      metadata step closes the shared footprint once more, and the first
      basename without product tokens, or an empty footprint, stops the loop
      with an IndexError. */
  method BuildCatalog(corfl: string, texts: Descriptions, names: RunNames, scene: SceneMeta,
                      tifs: seq<string>) returns (r: Result<StacCatalog>)
    modifies scene.boundingBox
    ensures r.Ok? <==> old(scene.boundingBox.vertices) != [] && HasProductTokens(names.execId)
                       && forall j :: 0 <= j < |tifs| ==> HasProductTokens(TifId(tifs[j]))
    ensures r.Err? ==> r.error == IndexError
    ensures old(scene.boundingBox.vertices) == [] ==> scene.boundingBox.vertices == []
    ensures r.Ok? ==> scene.boundingBox.vertices
                      == old(scene.boundingBox.vertices)
                         + Copies(old(scene.boundingBox.vertices)[0], |tifs| + 1)
    ensures r.Ok? ==> (fresh(r.value) && r.value.id == corfl && r.value.description == texts.catalog
                       && r.value.items == CatalogItems(texts, names, scene, tifs, |tifs|))
  {
    ghost var v := scene.boundingBox.vertices;
    var started := StartCatalog(corfl, texts, names, scene);
    if started.Err? {
      return Err(started.error);
    }
    var catalog := started.value;
    var description := texts.exec;
    var k := 0;
    while k < |tifs|
      invariant 0 <= k <= |tifs|
      invariant fresh(catalog) && catalog.id == corfl && catalog.description == texts.catalog
      invariant v != [] && HasProductTokens(names.execId)
      invariant forall j :: 0 <= j < k ==> HasProductTokens(TifId(tifs[j]))
      invariant description == DescriptionAt(texts, tifs, k)
      invariant scene.boundingBox.vertices == v + Copies(v[0], k + 1)
      invariant catalog.items == CatalogItems(texts, names, scene, tifs, k)
    {
      var next := AddRasterItem(catalog, texts, names, scene, tifs, k, description);
      if next.Err? {
        return Err(next.error);
      }
      assert forall j :: 0 <= j < k + 1 ==> HasProductTokens(TifId(tifs[j])) by {
        assert HasProductTokens(TifId(tifs[k]));
      }
      description := next.value;
      k := k + 1;
    }
    r := Ok(catalog);
  }

  /** Each item carries the description the loop held when it was made:
      the execution description first, then as `DescriptionAt` follows the
      rasters. */
  lemma ItemDescriptions(texts: Descriptions, names: RunNames, scene: SceneMeta, tifs: seq<string>)
    requires HasProductTokens(names.execId)
    requires forall j :: 0 <= j < |tifs| ==> HasProductTokens(TifId(tifs[j]))
    ensures var items := CatalogItems(texts, names, scene, tifs, |tifs|);
      && |items| == |tifs| + 1
      && forall i :: 0 <= i < |items| ==> items[i].properties.description == DescriptionAt(texts, tifs, i)
  {
    var items := CatalogItems(texts, names, scene, tifs, |tifs|);
    forall i | 0 <= i < |items|
      ensures items[i].properties.description == DescriptionAt(texts, tifs, i)
    {
      if i == 0 {
        assert items[0].properties == ItemProperties(names.execId, texts.exec, scene.sensor).value;
      } else {
        assert items[i] == TifItem(texts, scene, tifs, i - 1);
      }
    }
  }

  /** Consecutive items: a raster whose id names neither pigment keeps the
      description of the item before it, otherwise it takes its pigment's
      description. */
  lemma DescriptionCarried(texts: Descriptions, names: RunNames, scene: SceneMeta,
                           tifs: seq<string>, k: nat)
    requires k < |tifs| && HasProductTokens(names.execId)
    requires forall j :: 0 <= j < |tifs| ==> HasProductTokens(TifId(tifs[j]))
    ensures var items := CatalogItems(texts, names, scene, tifs, |tifs|);
      && |items| == |tifs| + 1
      && items[k + 1].properties.description
         == NextDescription(items[k].properties.description, texts, TifId(tifs[k]))
  {
    ItemDescriptions(texts, names, scene, tifs);
  }

  /** A raster's item has the properties of its own id: product code and
      processing level from the id's tokens. */
  lemma RasterItemProperties(texts: Descriptions, names: RunNames, scene: SceneMeta,
                             tifs: seq<string>, k: nat)
    requires k < |tifs| && HasProductTokens(names.execId)
    requires forall j :: 0 <= j < |tifs| ==> HasProductTokens(TifId(tifs[j]))
    ensures var items := CatalogItems(texts, names, scene, tifs, |tifs|);
      && |items| == |tifs| + 1
      && Ok(items[k + 1].properties)
         == ItemProperties(TifId(tifs[k]), items[k + 1].properties.description, scene.sensor)
  {
    var items := CatalogItems(texts, names, scene, tifs, |tifs|);
    assert items[k + 1] == TifItem(texts, scene, tifs, k);
  }

  /** The description variable only ever holds one of the run's texts. */
  lemma {:induction false} DescriptionAtIsRunText(texts: Descriptions, tifs: seq<string>, n: nat)
    requires n <= |tifs|
    ensures DescriptionAt(texts, tifs, n) in {texts.exec, texts.chl, texts.phyco}
    decreases n
  {
    if n > 0 {
      DescriptionAtIsRunText(texts, tifs, n - 1);
    }
  }

  /** In an experimental run every item of the catalog carries the
      disclaimer at the head of its description. */
  lemma ItemsDisclaimed(disclaimer: string, base: Descriptions, names: RunNames, scene: SceneMeta,
                        tifs: seq<string>)
    requires HasProductTokens(names.execId)
    requires forall j :: 0 <= j < |tifs| ==> HasProductTokens(TifId(tifs[j]))
    ensures var items := CatalogItems(Disclaimed(disclaimer, base), names, scene, tifs, |tifs|);
      forall i :: 0 <= i < |items| ==> StartsWith(items[i].properties.description, disclaimer)
  {
    var texts := Disclaimed(disclaimer, base);
    ItemDescriptions(texts, names, scene, tifs);
    forall i | 0 <= i <= |tifs| ensures StartsWith(DescriptionAt(texts, tifs, i), disclaimer) {
      DescriptionAtIsRunText(texts, tifs, i);
      var d := DescriptionAt(texts, tifs, i);
      assert d == disclaimer + base.exec || d == disclaimer + base.chl || d == disclaimer + base.phyco;
      assert d[..|disclaimer|] == disclaimer;
    }
  }

  /** A run's items: in an experimental run each description opens with
      the disclaimer, and a run that is not experimental keeps the plain
      texts. */
  lemma RunItemsDisclaimed(experimental: bool, names: RunNames, scene: SceneMeta, tifs: seq<string>)
    requires HasProductTokens(names.execId)
    requires forall j :: 0 <= j < |tifs| ==> HasProductTokens(TifId(tifs[j]))
    ensures var items := CatalogItems(RunDescriptions(Disclaimer(experimental)), names, scene, tifs, |tifs|);
      forall i :: 0 <= i < |items| ==> StartsWith(items[i].properties.description, Disclaimer(experimental))
    ensures !experimental ==> RunDescriptions(Disclaimer(experimental)) == PigmentTexts
  {
    ItemsDisclaimed(Disclaimer(experimental), PigmentTexts, names, scene, tifs);
  }

  /** After the execution item, each item holds the files of the raster
      in the same position. */
  predicate HoldsRasters(items: seq<Item>, tifs: seq<string>)
  {
    |items| == |tifs| + 1 && forall i :: 1 <= i < |items| ==> items[i].assets == TifAssets(tifs[i - 1])
  }

  /** The catalog's items hold the rasters in their order. */
  lemma CatalogHoldsRasters(texts: Descriptions, names: RunNames, scene: SceneMeta, tifs: seq<string>)
    requires HasProductTokens(names.execId)
    requires forall j :: 0 <= j < |tifs| ==> HasProductTokens(TifId(tifs[j]))
    ensures HoldsRasters(CatalogItems(texts, names, scene, tifs, |tifs|), tifs)
  {
    var items := CatalogItems(texts, names, scene, tifs, |tifs|);
    forall i | 1 <= i < |items| ensures items[i].assets == TifAssets(tifs[i - 1]) {
      assert items[i] == TifItem(texts, scene, tifs, i - 1);
    }
  }

  /** Items holding sorted rasters follow the order of the raster names:
      their `cog` hrefs ascend. */
  lemma ItemsInRasterOrder(items: seq<Item>, tifs: seq<string>)
    requires HoldsRasters(items, tifs) && SortedStrictly(tifs)
    ensures forall i, j :: 1 <= i < j < |items| ==>
              items[i].assets[0].key == "cog" && Less(items[i].assets[0].href, items[j].assets[0].href)
  {
    forall i, j | 1 <= i < j < |items|
      ensures items[i].assets[0].key == "cog" && Less(items[i].assets[0].href, items[j].assets[0].href)
    {
      LessCommonPrefix("./", tifs[i - 1], tifs[j - 1]);
    }
  }

  /** `sorted(glob(...))` on the rasters: their names in `output/`, ascending
      and each once. Sorting the full paths gives the same order, since they
      share the `output/` prefix. */
  method DiscoverTifs(dir: OutputDir) returns (tifs: seq<string>)
    ensures SortedStrictly(tifs)
    ensures forall n :: n in tifs <==> Top(n) in dir.files && IsTifName(n)
    ensures forall i, j :: 0 <= i < j < |tifs| ==> Less("output/" + tifs[i], "output/" + tifs[j])
  {
    var names := set p | p in dir.files && p.dirs == [] && IsTifName(p.name) :: p.name;
    tifs := SortNames(names);
    forall n ensures n in tifs <==> n in names {
      assert n in tifs <==> n in multiset(tifs);
    }
    forall i, j | 0 <= i < j < |tifs| ensures Less("output/" + tifs[i], "output/" + tifs[j]) {
      LessCommonPrefix("output/", tifs[i], tifs[j]);
    }
  }

  /** The directories that saving the catalog creates for its items. */
  function ItemDirs(execId: string, items: seq<Item>): set<seq<string>>
  {
    set item | item in items :: [execId, item.id]
  }

  /** The item files that saving the catalog writes. */
  function ItemFiles(execId: string, items: seq<Item>): set<Path>
  {
    set item | item in items :: Path([execId, item.id], item.id + ".json")
  }

  /** `normalize_hrefs("./output/<exec-id>")` then `save`: `catalog.json` in
      `output/<exec-id>/` and `<item-id>.json` in `output/<exec-id>/<item-id>/`,
      creating those directories. */
  method SaveCatalog(dir: OutputDir, execId: string, catalog: StacCatalog)
    requires dir.Valid()
    modifies dir
    ensures dir.Valid()
    ensures dir.dirs == old(dir.dirs) + {[execId]} + ItemDirs(execId, catalog.items)
    ensures dir.files == old(dir.files) + {Path([execId], "catalog.json")}
                         + ItemFiles(execId, catalog.items)
  {
    dir.dirs := dir.dirs + {[execId]} + ItemDirs(execId, catalog.items);
    dir.files := dir.files + {Path([execId], "catalog.json")} + ItemFiles(execId, catalog.items);
  }
}
