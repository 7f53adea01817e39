# SISTER aquatic pigments PGE — a Dafny model of its naming and cataloguing core

The SISTER aquatic-pigments PGE derives chlorophyll-a and phycocyanin
rasters from a corrected-reflectance scene. It then publishes its outputs
as a self-contained STAC catalog. This project models the part of the PGE
that names and catalogues those outputs, and proves properties of that model:

- **Naming** (`identifiers.dfy`): `get_aquapig_basename` swaps the product
  type `L2A_CORFL` for `L2B_AQUAPIG` and replaces the last `_`-token by the
  new CRID. The pigment products add `_CHL` or `_PHYCO`. An experimental
  run prefixes its files with `EXPERIMENTAL-`.
- **Item metadata** (`stac_metadata.dfy`): `generate_stac_metadata` builds the id,
  time range, footprint and properties of an item.
  - The footprint is the run configuration's own `bounding_box` list, a
    shared object (class `VertexList`). Each call appends its first vertex
    to that same list, so the list grows by one vertex per item, and every
    item's geometry is that one list.
  - The product code is token 3 of the basename, plus `_CHL` or `_PHYCO`
    by substring test, CHL first. The processing level is token 2.
  - A basename with fewer than four tokens raises IndexError, after the
    footprint has already been extended.
- **The `output/` directory** (`output_dir.dfy`): a class holding the set of
  files and directories.
  - `shutil.move` moves a file.
  - The experimental relabelling renames every `SISTER*` file.
  - The run's log, runconfig and execution basename are recovered from the
    first match of `*<crid>.log`. The order of glob is unspecified, so
    any match may be first. No match is an IndexError.
- **The catalog** (`catalog.dfy`):
  - `create_item` adds its assets one by one as a dict does.
  - The catalog starts with the execution item, which holds the runconfig
    and the log.
  - The rasters matching `*SISTER*.tif` are sorted. Each gets an item whose
    description is the pigment text when its id names CHL or PHYCO;
    otherwise it keeps the description held by the loop variable.
  - Saving writes `catalog.json` and one `<id>/<id>.json` per item below
    `output/<exec-id>/`.
- **Relocation** (`relocation.dfy`): the final loop moves every asset file
  of every item into that item's directory. A missing file stops the loop
  with FileNotFoundError, after the earlier moves have been made.

Python's string semantics are modelled explicitly in `text.dfy`: `split`,
`join`, `replace` (non-overlapping, left to right), `in`, `startswith`,
`endswith` and code-point ordering. Exceptions are a `Result` value
(`outcome.dfy`).

Two consequences of the code are worth stating plainly:

- `get_aquapig_basename` does not check its input. A scene id without
  `L2A_CORFL` is kept apart from its last token, which becomes the CRID;
  no identifier is rejected as malformed (`AquapigOfForeignId`).
- The execution item is built by `generate_stac_metadata` like every other
  item. Its product code is therefore token 3 of the execution basename
  (`AQUAPIG` for a SISTER scene id).

## Model

| member | source | states |
|---|---|---|
| Text.Split | sister_aquatic_pigments.py:29 | `str.split` on one character yields one more piece than there are separators |
| Text.SplitPieces | sister_aquatic_pigments.py:29 | no piece of a split holds the separator |
| Text.Join | sister_aquatic_pigments.py:30 | `"_".join` of a non-empty token list; stated by JoinSplit, SplitJoin and JoinCons (the first token, the separator, then the join of the rest) |
| Text.JoinSplit | sister_aquatic_pigments.py:29-30 | joining the pieces of a split with the same separator gives the string back |
| Text.SplitJoin | sister_aquatic_pigments.py:29-30 | splitting a join of separator-free pieces gives the pieces back |
| Text.SplitSnoc | sister_aquatic_pigments.py:174-175 | appending `_` and a separator-free token adds exactly that token to the split |
| Text.SplitPrefix | sister_aquatic_pigments.py:236 | a separator-free prefix changes only the first token of a split |
| Text.Replace | sister_aquatic_pigments.py:27 | `str.replace` with a non-empty pattern, left to right and without overlaps; its meaning is stated by ReplaceAbsent, ReplaceSkip, ReplaceHead and ReplaceCount |
| Text.ReplaceHead | sister_aquatic_pigments.py:27 | a string that starts with the pattern has that occurrence replaced, and the rest is replaced on its own |
| Text.ReplaceSkip | sister_aquatic_pigments.py:27 | a prefix in which no occurrence of the pattern starts passes through `replace` unchanged |
| Text.ReplaceCount | sister_aquatic_pigments.py:27 | replacing a pattern by one with as many copies of a character keeps that character's count |
| Text.ReplaceAbsent | sister_aquatic_pigments.py:27 | `replace` of an absent pattern leaves the string unchanged |
| Text.Contains | sister_aquatic_pigments.py:107-110 | the `in` test on strings (also lines 266-269); stated by NotContainsMissingChar, ContainsAfterPrefix, ContainsSuffix and NotContainsAppend |
| Text.NotContainsMissingChar | sister_aquatic_pigments.py:107-110 | a word with a character the string lacks does not occur in it |
| Text.ContainsSuffix | sister_aquatic_pigments.py:109 | a string ending with a word contains it, as `<aquapig>_PHYCO` contains PHYCO |
| Text.NotContainsAppend | sister_aquatic_pigments.py:107 | appending a piece that cannot complete a match, such as `_PHYCO` for CHL, creates no occurrence |
| Text.ContainsAfterPrefix | sister_aquatic_pigments.py:107-110 | a prefix that cannot take part in a match does not change the `in` test |
| Text.Less | sister_aquatic_pigments.py:263 | Python's `<` on strings, code point by code point with a proper prefix first; a strict total order by LessIrreflexive, LessTransitive and LessTotal |
| Text.LessIrreflexive | sister_aquatic_pigments.py:263 | no string sorts before itself |
| Text.LessTransitive | sister_aquatic_pigments.py:263 | the string order used by `sort` is transitive |
| Text.LessTotal | sister_aquatic_pigments.py:263 | any two distinct strings are ordered one way or the other |
| Text.LessCommonPrefix | sister_aquatic_pigments.py:262-263 | a common prefix such as `output/` does not change the order of two paths |
| Text.InsertSorted | sister_aquatic_pigments.py:263 | inserting into a strictly sorted list keeps it strictly sorted and adds exactly the new element |
| Text.SortNames | sister_aquatic_pigments.py:262-263 | sorting the glob result gives a strictly ascending list with exactly its elements |
| Text.SortedDistinct | sister_aquatic_pigments.py:262-263 | a strictly ascending list, such as the sorted rasters, holds each name once |
| Identifiers.AquapigBasename | sister_aquatic_pigments.py:25-30 | `get_aquapig_basename`; stated by AquapigTokens (tokens of the swapped id with the CRID last), AquapigTokenCount, AquapigOfSceneId, AquapigOfForeignId and AquapigCridOnly |
| Identifiers.ChlBasename | sister_aquatic_pigments.py:174 | the chlorophyll product's basename; SuffixTokens: exactly one more token, `CHL` |
| Identifiers.PhycoBasename | sister_aquatic_pigments.py:175 | the phycocyanin product's basename; SuffixTokens: exactly one more token, `PHYCO`; PhycoNameTests: it passes the PHYCO test and, for a basename without CHL, fails the CHL test |
| Identifiers.AquapigTokens | sister_aquatic_pigments.py:25-30 | the derived basename's tokens are those of the type-swapped scene id with the last one replaced by the CRID |
| Identifiers.AquapigTokenCount | sister_aquatic_pigments.py:25-30 | the derived basename has as many `_`-tokens as the scene id |
| Identifiers.AquapigOfForeignId | sister_aquatic_pigments.py:25-30 | a scene id without `L2A_CORFL` is accepted and only its last token changes |
| Identifiers.AquapigCridOnly | sister_aquatic_pigments.py:29-30 | two CRIDs give basenames that differ only in their last token, which is the CRID |
| Identifiers.AquapigOfSceneId | sister_aquatic_pigments.py:25-30 | `SISTER_<sensor>_L2A_CORFL_<start>_<old>` becomes `SISTER_<sensor>_L2B_AQUAPIG_<start>_<crid>` for any `_`-free tokens, provided the start time and old CRID hold no `L` and so no second `L2A_CORFL` |
| Identifiers.CorflAfterPrefix | sister_aquatic_pigments.py:27 | `L2A_CORFL` cannot start inside `SISTER_<sensor>_` for any sensor code without `_`, so the swap hits the product type |
| Identifiers.AquapigExample | sister_aquatic_pigments.py:25-30 | a concrete scene id and CRID give the expected AQUAPIG basename and `_CHL` product name |
| Identifiers.SuffixTokens | sister_aquatic_pigments.py:174-175 | the `_CHL` / `_PHYCO` suffix adds exactly one token to the basename |
| StacMetadata.PigmentSuffix | sister_aquatic_pigments.py:107-110 | the product-code suffix: `_CHL` when the basename holds CHL, else `_PHYCO` when it holds PHYCO, else none; stated by ChlProductProperties and PhycoProductProperties |
| StacMetadata.ItemProperties | sister_aquatic_pigments.py:106-116 | the item properties, or IndexError for fewer than four tokens; stated by GenerateStacMetadata, LabelKeepsProperties, ChlProductProperties, PhycoProductProperties and RasterItemProperties |
| StacMetadata.VertexList.Append | sister_aquatic_pigments.py:104 | `list.append` adds the vertex at the end of the shared list |
| StacMetadata.GenerateStacMetadata | sister_aquatic_pigments.py:95-117 | the caller's list gains its first vertex (an empty list fails unchanged); success iff the list is non-empty and the basename has at least four tokens; otherwise IndexError; on success id, times, the aliased closed geometry and the token-derived properties |
| StacMetadata.LabelKeepsProperties | sister_aquatic_pigments.py:106-116 | an `EXPERIMENTAL-` basename has the same product code and processing level, and fails exactly when the unlabelled one does |
| StacMetadata.ChlProductProperties | sister_aquatic_pigments.py:106-116 | the chlorophyll product's code is `<token 3>_CHL` with the basename's processing level |
| StacMetadata.PhycoProductProperties | sister_aquatic_pigments.py:106-116 | the phycocyanin product's code is `<token 3>_PHYCO` when the basename does not mention CHL |
| OutputDirectory.IsSisterFile | sister_aquatic_pigments.py:235 | the glob `output/SISTER*`: a top-level name starting with `SISTER`; LabelledEffect and LabelExperimental state which files it selects |
| OutputDirectory.LabelPath | sister_aquatic_pigments.py:236 | the rename target `output/EXPERIMENTAL-<name>`; stated by LabelPathNotSister and RelabelStep |
| OutputDirectory.LabelPathNotSister | sister_aquatic_pigments.py:235-236 | a relabelled name never matches `SISTER*`, so the loop never renames a file twice |
| OutputDirectory.Labelled | sister_aquatic_pigments.py:234-236 | the directory after relabelling; stated by LabelledEffect, LabelledIdempotent and LabelExperimental |
| OutputDirectory.RelabelStep | sister_aquatic_pigments.py:235-236 | one more rename of the relabelling loop moves just that file to its labelled name |
| OutputDirectory.LabelledEffect | sister_aquatic_pigments.py:234-236 | after relabelling, a file is present iff it was a non-`SISTER*` file or is the labelled name of a `SISTER*` file |
| OutputDirectory.LabelledIdempotent | sister_aquatic_pigments.py:234-236 | relabelling leaves no `SISTER*` file, so relabelling again changes nothing |
| OutputDirectory.IsRunLog | sister_aquatic_pigments.py:239 | the glob `output/*<crid>.log`: a top-level name, not a dot-file, ending in `<crid>.log`; RecoverNames fails exactly when none matches |
| OutputDirectory.NamesFromLog | sister_aquatic_pigments.py:239-241 | the names recovered from the log; stated by NamesFromLogOf and LabelledRunNames |
| OutputDirectory.NamesFromLogOf | sister_aquatic_pigments.py:239-241 | from `<b>.log` the run recovers `<b>.runconfig.json` and the basename `<b>` |
| OutputDirectory.LabelledRunNames | sister_aquatic_pigments.py:231-241 | after relabelling, the recovered names are the `EXPERIMENTAL-` ones and the runconfig they name exists |
| OutputDirectory.OutputDir.Move | sister_aquatic_pigments.py:236 | `shutil.move` succeeds iff the source exists and the target directory exists; then the source is replaced by the target, otherwise FileNotFoundError and nothing changes |
| OutputDirectory.OutputDir.LabelExperimental | sister_aquatic_pigments.py:234-236 | the relabelling loop leaves exactly the relabelled directory |
| OutputDirectory.OutputDir.RecoverNames | sister_aquatic_pigments.py:239-241 | IndexError iff no file matches `*<crid>.log`; otherwise a matching log and the names derived from it |
| Catalog.PutAsset | sister_aquatic_pigments.py:131-132 | `item.add_asset` into the assets dict; stated by PutAssetNew, PutAssetKnown and PutAssetDistinct |
| Catalog.PutAssetDistinct | sister_aquatic_pigments.py:131-132 | adding an asset keeps the keys distinct, as a dict's are, and stores the asset |
| Catalog.PutAssetNew | sister_aquatic_pigments.py:131-132 | a new asset key is appended after the others |
| Catalog.PutAssetKnown | sister_aquatic_pigments.py:131-132 | a known asset key is overwritten in place |
| Catalog.CreateItem | sister_aquatic_pigments.py:120-133 | the item takes the metadata's id, times (start as datetime), geometry and properties, and exactly the given assets in order |
| Catalog.ExecAssets | sister_aquatic_pigments.py:254-257 | the runconfig and log assets of the execution item; StartCatalog puts them, in that order, in the first item |
| Catalog.TifId | sister_aquatic_pigments.py:265 | a raster's item id, its name less the last four characters; RasterItemProperties derives the item's properties from it |
| Catalog.IsTifName | sister_aquatic_pigments.py:262 | the glob `output/*SISTER*.tif`; DiscoverTifs returns exactly the names it accepts |
| Catalog.TifAssets | sister_aquatic_pigments.py:271-274 | the `cog` and `browse` assets of a raster's item; CatalogHoldsRasters puts them in the raster's item |
| Catalog.NextDescription | sister_aquatic_pigments.py:266-269 | the description after one raster; stated by DescriptionCarried and DescriptionAtIsRunText |
| Catalog.CatalogItems | sister_aquatic_pigments.py:250-276 | the catalog's items, the execution item first; stated by BuildCatalog, ItemDescriptions, CatalogHoldsRasters, ItemsInRasterOrder and RunItemsDisclaimed |
| Catalog.StacCatalog.constructor | sister_aquatic_pigments.py:244-248 | `pystac.Catalog(id=..., description=...)`: the given id and description and no items |
| Catalog.ItemFor | sister_aquatic_pigments.py:253-258 | `create_item(generate_stac_metadata(...), assets)`, here and at lines 270-275, for a basename with at least four tokens; StartCatalog, AddRasterItem and RasterItemProperties state it is the item those lines add |
| Catalog.DescriptionAt | sister_aquatic_pigments.py:251-269 | the `description` variable after the first `n` rasters; stated by ItemDescriptions, DescriptionCarried and DescriptionAtIsRunText |
| Catalog.StacCatalog.AddItem | sister_aquatic_pigments.py:259 | the item is added after the existing ones |
| Catalog.StartCatalog | sister_aquatic_pigments.py:244-259 | the catalog holds the execution item with the runconfig and log assets, or IndexError; the footprint grows once |
| Catalog.AddRasterItem | sister_aquatic_pigments.py:264-276 | one loop pass: the description follows the raster id, and the raster's item is appended, or IndexError with the catalog's items unchanged; the footprint grows once either way |
| Catalog.BuildCatalog | sister_aquatic_pigments.py:244-276 | success iff the footprint is non-empty and every basename has at least four tokens; the catalog then holds the specified items and the shared footprint has grown by one closing vertex per item |
| Catalog.ItemDescriptions | sister_aquatic_pigments.py:251-270 | each item carries the description the loop held when it was made |
| Catalog.DescriptionCarried | sister_aquatic_pigments.py:266-269 | a raster naming neither pigment keeps the previous item's description; otherwise it takes its pigment's description, CHL first |
| Catalog.DescriptionAtIsRunText | sister_aquatic_pigments.py:251-269 | the description variable only ever holds the execution, CHL or PHYCO text |
| Catalog.PigmentTexts | sister_aquatic_pigments.py:221-222 | the CHL and PHYCO texts, with the catalog and execution texts of lines 245-252, before any disclaimer |
| Catalog.Disclaimed | sister_aquatic_pigments.py:245-252 | each text with the disclaimer in front; ItemsDisclaimed states that every item's description then starts with it |
| Catalog.RunDescriptions | sister_aquatic_pigments.py:245-252 | the run's texts: `PigmentTexts` with the disclaimer of lines 150-154 in front; stated by RunItemsDisclaimed |
| Catalog.Disclaimer | sister_aquatic_pigments.py:150-154 | the disclaimer of an experimental run, empty otherwise; stated by RunItemsDisclaimed |
| Catalog.ItemsDisclaimed | sister_aquatic_pigments.py:150-154 | with disclaimed texts, every item's description starts with the disclaimer |
| Catalog.RunItemsDisclaimed | sister_aquatic_pigments.py:150-154 | in an experimental run every item's description opens with the disclaimer; a run that is not experimental keeps the plain texts |
| Catalog.RasterItemProperties | sister_aquatic_pigments.py:265-270 | a raster item's properties are those derived from its own id |
| Catalog.CatalogHoldsRasters | sister_aquatic_pigments.py:271-275 | after the execution item, item `i` holds the cog and browse files of raster `i` |
| Catalog.ItemsInRasterOrder | sister_aquatic_pigments.py:262-276 | for sorted rasters, the items' `cog` hrefs ascend |
| Catalog.DiscoverTifs | sister_aquatic_pigments.py:262-263 | exactly the `*SISTER*.tif` names in `output/`, strictly ascending, also as `output/` paths |
| Catalog.SaveCatalog | sister_aquatic_pigments.py:279-283 | saving adds `<exec-id>/catalog.json` and each item's `<exec-id>/<id>/<id>.json` with their directories |
| Relocation.BaseName | sister_aquatic_pigments.py:289 | `os.path.basename` holds no `/` |
| Relocation.BaseNameSuffix | sister_aquatic_pigments.py:289 | the base name is a suffix of the path |
| Relocation.BaseNameOfRelative | sister_aquatic_pigments.py:255-256 | the base name of `./<name>` is `<name>` |
| Relocation.AssetMoves | sister_aquatic_pigments.py:288-290 | the moves of one item's assets, in order; stated by AssetMovesHold, AssetMovesPlaced and RelocateItem |
| Relocation.CatalogMoves | sister_aquatic_pigments.py:286-290 | the moves of all items, item after item; stated by CatalogMovesHold, CatalogMovesPlaced and Relocate |
| Relocation.ApplyMoves | sister_aquatic_pigments.py:286-290 | the moves applied in order up to the first failure; stated by ApplyMovesStopped, RelocationEffect and Relocate |
| Relocation.ApplyMovesStopped | sister_aquatic_pigments.py:286-290 | once a move has failed, the later moves change nothing |
| Relocation.RelocateItem | sister_aquatic_pigments.py:288-290 | the inner loop makes exactly the item's moves, in order, up to the first failure |
| Relocation.Relocate | sister_aquatic_pigments.py:286-290 | the loop leaves the directory and the status given by applying the catalog's moves in order |
| Relocation.RelocationEffect | sister_aquatic_pigments.py:286-290 | the moves succeed iff every source exists and none is moved twice; then the files are the old ones minus the sources plus the targets |
| Relocation.DistinctSourcesSnoc | sister_aquatic_pigments.py:289-290 | one more move keeps the sources distinct iff its source is new |
| Relocation.CatalogMovesPlaced | sister_aquatic_pigments.py:283-290 | once the catalog is saved, every move goes from `output/` into an existing item directory |
| Relocation.CatalogMovesHold | sister_aquatic_pigments.py:287-290 | every asset of every item has its move among the catalog's moves |
| Relocation.CatalogRelocation | sister_aquatic_pigments.py:279-290 | after saving, relocation succeeds exactly as above, and then each asset file is in its item's directory and no longer in `output/` |

## Left out

- `convert_to_geotiff_and_png` (lines 33-92): GDAL raster conversion and
  quicklook rendering. The `.tif` and `.png` files it writes are inputs of
  the model (files present in `output/`). Their contents are not modelled.
- The conda/subprocess runs of the retrieval models (lines 185-219), the
  creation of `work/` and `output/` (lines 156-164), reading the run
  configuration (lines 142-147) and `print`/`catalog.describe()`. These are
  I/O and external processes.
- `datetime.strptime` (lines 99-100): start and end times are carried as
  strings. A malformed time is not modelled as a failure.
- `shutil.copyfile` of the runconfig (line 231): file contents are not
  modelled. The copy is a file name in `output/`.
- Missing keys of the run configuration (KeyError) are not modelled. Every
  key read is assumed present.
- `generate_runconfig.py` is not part of this model.
- The JSON contents that pystac writes and its href rewriting are not
  modelled. `SaveCatalog` models only the files and directories that saving
  creates.
- Paths are names relative to `output/`. The `output/` prefix the code
  carries is dropped where it cannot matter: it holds no `.log`, no `/`
  after it and sorts as a common prefix (`LessCommonPrefix`).
- Glob metacharacters inside the CRID are taken literally.
- BuildCatalog: on failure, how many closing vertices the shared footprint
  had gained by then is not stated. Only the empty-footprint case (no
  change) and the success case are.
