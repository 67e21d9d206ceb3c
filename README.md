# DOCX branding merge, modelled in Dafny

The repository brands Word documents. It takes the headers, footers,
styles, media and section settings of a template `.docx` and merges them
into every `.docx` (or converted `.pdf`) in an input directory. Three
versions of the script do this in three different ways:

- `main.py` first resets the target document's section properties: next
  page, A4, standard margins. It then copies style files, media and the
  listed header and footer parts. It imports the template's header, footer
  and media relationships under fresh `rIdN` ids, re-appends media
  relationships to the copied `.rels` files, carries the template's header
  and footer references into the document's first `w:sectPr`, and merges
  `[Content_Types].xml`.
- `main_backup.py` copies the listed header and footer parts with their
  relationship files, copies the media and imports the header and footer
  relationships. It rebuilds the document's section properties from the
  template's, with the references renamed, and merges the content types.
  It returns False on any exception.
- `fixed_main.py` tries a simplified approach first. Its low-level
  fallback copies the template's document relationships, header/footer
  parts, their `.rels`, media and content types over the target's
  wholesale. It then transplants the template's last section properties
  into the document.

Each script also has a `batch_process` loop that names the output,
temporary and fallback files.

## How it is modelled

- An extracted package is a `map<string, Part>` from zip entry paths to
  parts (`Packages`). A part is a parsed element tree (`Xml.Node`) or bytes
  that do not parse.
- Directory operations become functions over that map:
  - `os.path.exists`, `os.listdir` and `shutil.copy2` (`Packages`,
    `PartCopies`).
  - An exception becomes `None` in an `Option`.
- The temporary target directory is a `PackageDir` class whose `parts`
  field the step methods update.
- Each method is proved equal to a function of the old state. The lemmas
  about those functions state what each script guarantees.
- XML searches (`findall('.//x')`, `{*}` wildcards) are modelled in `Xml`.
  ElementTree's in-place edits of one section element are an `Element`
  class (`Sections`). Python dicts are association lists that keep
  insertion order (`Dict`).

- main.py's styles merge appends each missing style to the first `w:styles` found *below* the root `w:styles`.
  An ordinary `styles.xml` has none there, so the merge adds nothing (`Styles.MergeAsWrittenAddsNothing`).
  The model keeps that behaviour as written.

## Model

| member | source | states |
|---|---|---|
| Text.ParseDecimal | main.py:270-275 | `int()` of an id suffix succeeds exactly on a non-empty run of decimal digits |
| Text.ParseDecimalOfDecimal | main.py:287-288 | the suffix of an allocated `rId{n}` parses back to `n` |
| Xml.FindAll | main.py:100-101 | every node `findall` returns matches the searched path |
| Xml.FindAllAppend | main.py:100-101 | searching two lists of subtrees finds the matches of the first, then of the second |
| Xml.AppendToFirst | main.py:181-183 | appending a child to the first match of one tag inserts it once among the matches of another tag, which keep their order around it |
| Xml.LocateTopIff | main.py:42-44 | when the child at `i` matches and no earlier child holds a match, the first match is that very child (the case where `remove` succeeds) |
| Xml.ReplaceFirstFound | main.py:404-408 | after replacing the first match by a matching node, that node is the first match |
| Xml.ReplaceFirstMiss | main.py:389-392 | with no match the subtrees are unchanged |
| Dict.Get | main.py:379-380 | a lookup succeeds exactly when the key was stored |
| Dict.PutGet | main.py:290-291 | after `d[k] = v`, `k` maps to `v`, other keys keep their values, keys stay unique |
| Dict.UniqueGet | main.py:379-380 | with unique keys, a lookup returns the one entry for that key |
| Relationships.RelsIn | main.py:268 | the relationships read are those `findall('.//{*}Relationship')` returns, in order |
| Relationships.RelsOfAppend | main.py:301-308 | appending relationship elements appends exactly those relationships to what the part holds |
| Relationships.MaxSuffix | main.py:266-275 | the result bounds every parsed `rIdN` suffix and is one of them, or 0 when none parses |
| Relationships.ScanMaxSuffix | main.py:266-275 | the running-maximum loop returns a bound on every parsed suffix that is attained (or 0) |
| Relationships.MaxSuffixUnique | main.py:266-275 | those two properties determine the scan's result |
| Relationships.FreshIdIsNew | main.py:286-288 | an id allocated above the largest suffix equals no existing id |
| Relationships.SuffixOfFreshId | main.py:286-288 | the suffix of `rId{n}` parses back to `n`, so later scans see the ids handed out |
| Relationships.Filter | main.py:279-285 | a relationship is kept exactly when it is a qualifying template relationship, and no more are kept than there were |
| Relationships.ImportRelationships | main.py:266-299 | the loop appends the renumbered qualifying relationships and builds the old-to-new dict; new ids avoid all target ids and are pairwise distinct |
| Relationships.RenumberedIsFresh | main.py:286-288 | allocated ids never equal a target id and never equal each other |
| Relationships.ImportKeepsIdsUnique | main.py:301-308 | unique relationship ids stay unique after the import |
| Relationships.RenamingUnique | main.py:290-291 | the old-to-new dict never holds an old id twice |
| Relationships.RenamingLookup | main.py:286-291 | an old id maps to the id given to the last kept relationship with that id; it is unmapped when no kept relationship has it |
| Relationships.RenamingTargetsAdded | main.py:286-299 | an old id is mapped iff some kept relationship has it, and every id handed out is one that was added |
| Relationships.RenamingMapsImported | main.py:286-299 | the previous property for every old id at once |
| ContentTypes.OverridesIn | main.py:499 | Overrides read are those `findall('.//{*}Override')` returns, in order |
| ContentTypes.DefaultsIn | main.py:534 | Defaults read are those `findall('.//{*}Default')` returns, in order |
| ContentTypes.OverridesOfAppend | main.py:514-516 | appended Override elements are exactly the Overrides gained |
| ContentTypes.DefaultsOfAppend | main.py:544-546 | appended Default elements are exactly the Defaults gained |
| ContentTypes.HasPartName | main.py:505-511 | the `exists` loop is true iff some target Override has the PartName |
| ContentTypes.HasExtension | main.py:533-537 | the `exists` loop is true iff some Default has the extension |
| ContentTypes.AddMissingOverrides | main.py:498-517 | the loop appends exactly `MissingOverrides` of the target and candidates |
| ContentTypes.MissingOverridesSound | main.py:498-517 | each appended Override is a candidate whose PartName the target lacked; no two share a PartName; afterwards every candidate PartName is covered |
| ContentTypes.MissingOverrides | main.py:498-517 | specified by `MissingOverridesSound` and `MergeKeepsPartNamesUnique` |
| ContentTypes.MergeKeepsPartNamesUnique | main.py:498-517 | unique PartNames stay unique after the merge |
| ContentTypes.MainCandidates | main.py:499-503 | the candidates are exactly the template Overrides whose lower-cased PartName mentions header, footer or media |
| ContentTypes.CollectBrandingOverrides | main_backup.py:236-242 | the loop builds the PartName-to-ContentType dict of the header/footer Overrides |
| ContentTypes.CollectedOverridesLookup | main_backup.py:236-242 | each header/footer PartName is held once, with the ContentType of its last Override |
| ContentTypes.AddImageDefaults | main.py:519-548 | the loop appends exactly `MissingDefaults` of target, template and image table |
| ContentTypes.MissingDefaultsExact | main.py:531-548 | a Default is added for an extension iff the target lacks it and the template has it, with the table's MIME type |
| ContentTypes.MissingDefaults | main.py:519-548 | specified by `MissingDefaultsExact` |
| Sections.Element.constructor | main.py:107 | a new element holds the given tag, no attributes, no children |
| Sections.Element.FromNode | main.py:105 | the element holds the parsed node's tag, attributes and children |
| Sections.Element.Insert | main.py:57 | `insert(i, x)` puts `x` at `i` with the other children in order; attributes are kept |
| Sections.Element.Append | main.py:109 | `append(x)` adds `x` as the last child |
| Sections.Element.Remove | main.py:44 | `remove` drops exactly the child at the index |
| Sections.UpdateSectionMargins | main.py:29-73 | `ok` is false exactly where the source raises ValueError; the children are those of `MainMargins` as far as the steps got |
| Sections.DropPgMarStep | main.py:41-44 | the first `w:pgMar` is removed; this fails when it is nested deeper |
| Sections.PlacePgMarStep | main.py:53-65 | margins go after the first `w:pgSz`, or an A4 `w:pgSz` and the margins go first |
| Sections.PlaceTypeStep | main.py:67-73 | the first `w:type` is removed and `nextPage` is put first |
| Sections.PlacePgMarFresh | main.py:58-65 | with no page size below, the A4 page size and the margins go first |
| Sections.PlaceTypeFresh | main.py:67-73 | with no section type below, `nextPage` goes first |
| Sections.MainMarginsFresh | main.py:41-73 | with no page size, margins or type below, the result is `nextPage`, A4, margins, then the old children |
| Sections.MainMarginsOfEmpty | main.py:107-108 | the new empty `w:sectPr` gets exactly those three children |
| Sections.MainMarginsShape | main.py:29-73 | whenever the update succeeds the type comes first and the margins directly follow a page size |
| Sections.MainMargins | main.py:29-73 | specified by `MainMarginsShape`, `MainMarginsFresh` and `UpdateSectionMargins` |
| Sections.MainMarginsKeepsPgSz | main.py:54-57 | when the first page size is a direct child, the margins follow that very element and no page size is added |
| Sections.DropPgMarKeepsPgSz | main.py:41-57 | removing the margins keeps the first page size a direct child |
| Sections.RemoveKeepsTop | main.py:41-57 | removing another child keeps the first match a direct child, shifted left when the removed one came before it |
| Sections.DropGeometry | fixed_main.py:55-58 | the loop over a snapshot leaves exactly the children that are neither page size nor margins |
| Sections.ScanForType | fixed_main.py:60-65 | the loop reports a section type iff some child is one |
| Sections.FixedUpdateSectionMargins | fixed_main.py:30-77 | the update ends with `FixedMargins` of the old children and never fails |
| Sections.OtherSettingsMembers | fixed_main.py:55-58 | the filter keeps exactly the children that are not page size or margins |
| Sections.OtherSettingsHasType | fixed_main.py:60-70 | the filter keeps every section type |
| Sections.OtherSettingsKeepsAll | fixed_main.py:55-58 | a section with no page size or margins keeps all its children |
| Sections.FixedMarginsPlaces | fixed_main.py:67-75 | A4 page size at index 1, standard margins at 2, no other page size or margins; `nextPage` first iff there was no type |
| Sections.FixedMarginsKeepsOrder | fixed_main.py:55-75 | dropping page size and margins from the result gives the kept children in order, after `nextPage` when there was no type |
| Sections.FixedMargins | fixed_main.py:30-77 | has at least three children; specified by `FixedMarginsPlaces` and `FixedMarginsKeepsOrder` |
| Sections.CopySettings | main_backup.py:176-200 | the loop over `pgSz`, `pgMar`, `cols`, `docGrid` builds `CopiedSettings` |
| Sections.RemapFound | main_backup.py:204-218 | one reference kind: exactly the found references whose id the mapping knows, as new leaves with the new id |
| Sections.RemapReferences | main_backup.py:203-218 | header references then footer references, remapped |
| Sections.BuildBrandedSectPr | main_backup.py:171-218 | the new section's children are the copied settings then the remapped references |
| Sections.SettingsRanked | main_backup.py:176-200 | the copied settings come as page size, margins, columns, grid, each at most once |
| Sections.ReferencesRanked | main_backup.py:203-218 | all header references come before all footer references |
| Sections.BrandedOrder | main_backup.py:171-218 | page size, margins, columns, grid (each at most once, in that order), then header references, then footer references |
| Sections.BrandedPgMar | main_backup.py:186-198 | the margins written are the template's first `w:pgMar` with the standard margins forced over it |
| Sections.RemappedRefsResolve | main_backup.py:207-216 | every remapped reference has an `r:id`, and it is a new id of the mapping |
| Sections.RemappedRefs | main_backup.py:203-218 | specified by `RemappedRefsExact` |
| Sections.Rebuilt | main_backup.py:207-216 | the leaf written for a known reference keeps its tag and its other attributes, has no children, and its `r:id` is the mapping's new id for its own old id |
| Sections.RemappedRefsExact | main_backup.py:204-216 | each found reference whose own old id the mapping knows is written, as that reference rebuilt with its new id; nothing else is written |
| Sections.BrandedChildren | main_backup.py:173-218 | specified by `BrandedOrder`, `BrandedPgMar` and `BrandedRefsResolve` |
| Sections.BrandedRefsResolve | main_backup.py:203-218 | every reference written points at a new id of the mapping |
| Sections.CollectReferences | main.py:371-386 | the loop collects the template's carried references, each remapped or kept |
| Sections.CarriedRefsResolve | main.py:375-386 | every carried reference is a header/footer reference whose id is a new id of an imported relationship or an id the mapping does not know |
| Sections.CarriedRefs | main.py:371-386 | specified by `CarriedRefsExact` and `CarriedRefsResolve` |
| Sections.Remap | main.py:375-386 | a carried reference keeps its tag, children and other attributes; its `r:id` becomes the mapping's new id for it, and an unmapped reference is unchanged |
| Sections.CarriedRefsExact | main.py:375-386 | each carried reference of the template, and nothing else, is in the result, with its own old id looked up once |
| Documents.BodyOfWithBody | main.py:105-109 | the edited body is the one the next lookup finds |
| Documents.WithoutSectPrs | main.py:99-102 | no `w:sectPr` child is kept, and the result is no longer than the children |
| Documents.RemoveSectPrs | main.py:99-102 | on success the body's children are those that are not `w:sectPr`; it fails exactly when a found `w:sectPr` is not a direct child |
| Documents.WithoutSectPrsMembers | main.py:99-102 | every kept child was a child before, and only `w:sectPr` children are lost |
| Documents.NoSectPrLeft | main.py:99-102 | after a successful removal no `w:sectPr` remains anywhere below the body |
| Documents.StripAndAppend | main.py:99-108 | stripping then appending `sp` leaves `sp` as the body's only section properties, last |
| Documents.MainResetSections | main.py:92-115 | a missing body, or a nested `w:sectPr` (the removal raises and is caught), leaves the document as it was |
| Documents.ResetSections | main.py:92-115 | the in-place edit returns `MainResetSections` of the document |
| Documents.MainResetSectionsBody | main.py:99-109 | the body keeps its other content in order and ends with its only section: next page, A4, standard margins |
| Documents.Resectioned | fixed_main.py:242-256 | the body keeps its tag and attributes, and its only section properties are the given ones, last |
| Documents.BackupRebuild | main_backup.py:150-221 | a template without section properties, or a target without a body, leaves the document as it was |
| Documents.RebuildDocument | main_backup.py:150-221 | the in-place edit returns `BackupRebuild` |
| Documents.BackupRebuildBody | main_backup.py:164-221 | on success the body ends with its only section, built from the template's settings and remapped references |
| Documents.FindTemplateSectPr | fixed_main.py:237-240 | the nested loops keep the last `w:sectPr` found, body after body |
| Documents.TemplateSectPrOneBody | fixed_main.py:237-240 | with one body, that is the body's last `w:sectPr`; there is none iff the body holds none |
| Documents.FixedTransplant | fixed_main.py:242-258 | no template section, or no target body, leaves the document unchanged |
| Documents.Transplant | fixed_main.py:242-258 | the in-place edit returns `FixedTransplant` |
| Documents.FixedTransplantBody | fixed_main.py:242-258 | the body keeps its other content in order and ends with an exact copy of the template's section |
| Documents.UnreferencedMembers | main.py:400-401 | cleaning keeps every child that is not a self-closing reference, and only those |
| Documents.Unreferenced | main.py:400-401 | no self-closing reference is kept |
| Documents.UnreferencedKeepsClean | main.py:400-401 | a section without references is unchanged by the cleaning |
| Documents.RenameAll | main.py:418-420 | renaming keeps each node's tag and attribute keys |
| Documents.RenameAllRoot | main.py:418-420 | each `r:id` is looked up once: it becomes the mapping's new id, or stays when unmapped |
| Documents.RenameChain | main.py:418-420 | the chained replacement keeps the number of nodes |
| Documents.ChainRenamesTwice | main.py:418-420 | the chained `str.replace` sends `rId1` (imported as `rId3`) to `rId4` when `rId3` is also imported, while a single lookup gives `rId3` |
| Documents.AttachReferences | main.py:388-443 | the tag and attributes of the document root are kept |
| Documents.AttachReferencesNoSection | main.py:410-430 | with no target section and a body with children, the body gains the template's first section, renamed pair after pair as written, as its last child |
| Documents.AttachReferencesFirst | main.py:392-408 | with a target section, the first section becomes the cleaned section followed by the carried references |
| Documents.AttachedReferencesOnly | main.py:400-405 | of the self-closing references, exactly the carried ones remain; everything else is kept |
| Documents.MainResetLeavesSection | main.py:388-392 | after step one succeeds on a body, the document has a section, so the last step edits it |
| Documents.MainDocumentSteps | main.py:92-443 | end to end on a one-body document: the body keeps its content and ends with one section (next page, A4, standard margins) followed by the carried references |
| Styles.HeaderFooterStyles | main.py:161-166 | exactly the styles whose id mentions `Header` or `Footer` are collected |
| Styles.CollectHeaderFooterStyles | main.py:161-166 | the loop collects `HeaderFooterStyles` of the template's styles |
| Styles.HasStyleId | main.py:173-177 | the `exists` loop is true iff a target style has the id |
| Styles.WithDefaultsHas | main.py:151-159 | afterwards the target has defaults iff it had them, or the template has them and the target was not empty; existing defaults are untouched |
| Styles.MergeHeaderFooterStyles | main.py:168-184 | the loop returns `MergeAsWritten` |
| Styles.MergeAsWrittenAddsNothing | main.py:179-184 | in a `styles.xml` whose root is the only `w:styles`, the loop adds nothing |
| Styles.AddStyleAsWrittenCounts | main.py:171-184 | one pass adds one occurrence of an id, and only when it was absent and a nested `w:styles` was found |
| Styles.MergeAsWrittenCounts | main.py:168-184 | existing id counts are unchanged, counts never drop, a missing id is added at most once |
| Styles.MergeAsWrittenUnique | main.py:168-184 | unique style ids stay unique |
| Naming.RFind | main.py:636 | `rfind` gives the last position of the character, or -1 |
| Naming.LastIndexOf | main.py:636 | the backward scan returns `RFind` |
| Naming.RFindUnique | main.py:636 | the last position is the only one holding the character with none after it |
| Naming.SplitExt | main.py:636 | root plus extension is the path; the extension is empty or starts with its only dot, in the last segment |
| Naming.SplitExtension | main.py:636 | `splitext`'s two `rfind`s and the leading-dot walk return `SplitExt` |
| Naming.SplitExtSuffix | main.py:637 | inserting a plain suffix before the extension moves the root and keeps the extension |
| Naming.SplitExtKeepsDir | main.py:636 | the root of a path inside a directory keeps the directory |
| Naming.TempFallback | main.py:662 | the fallback of the temporary name is `<base>_temp_fallback<ext>`, or `<base>_fallback<ext>` when there was no temporary |
| Naming.MainDocxFallback | main.py:657-666 | a DOCX fallback never takes the output's or the temporary output's name |
| Naming.MainTempDiffers | main.py:633-637 | the temporary output differs from the output iff the output already exists |
| Naming.MainDestinations | main.py:627-699 | the files the batch may write or delete for one input |
| Naming.MainWritesOutputOnly | main.py:627-699 | every file written or deleted lies in the output directory |
| Naming.MainFileOps | main.py:627-699 | specified by `MainDestinations` and `MainWritesOutputOnly` |
| Naming.TempInDir | main.py:633-664 | the temporary name and the fallback names made from it stay in the output directory |
| Naming.BackupDocxFallback | main_backup.py:355-357 | the DOCX fallback never takes the output's name and is the input's name with `_fallback` |
| Naming.BackupFileOps | main_backup.py:343-403 | specified by `BackupDestinations` and `BackupWritesOutputOnly` |
| Naming.BackupDocxOps | main_backup.py:349-358 | the DOCX branch of `BackupFileOps` |
| Naming.BackupPdfOps | main_backup.py:360-391 | the PDF branch of `BackupFileOps` |
| Naming.BackupDocxDestinations | main_backup.py:349-358 | the DOCX branch writes only the output or `<base>_fallback.docx`, and brands into the output |
| Naming.BackupPdfDestinations | main_backup.py:360-391 | the PDF branch writes or deletes only the temporary file and three output names, and brands into `<base>.docx` |
| Naming.BackupDestinations | main_backup.py:343-403 | each file written or deleted is the temporary file or one of the output names; branding writes the output or `<base>.docx` |
| Naming.BackupWritesOutputOnly | main_backup.py:343-403 | every file written or deleted, other than the temporary file, lies in the output directory; branding always does; a PDF's temporary file is removed |
| Naming.FixedNames | fixed_main.py:340-383 | the output always ends in `.docx`, and the error fallback never takes its name |
| Naming.FixedFileOps | fixed_main.py:332-385 | specified by `FixedDestinations`, `FixedWritesOutputOnly` and `FixedNames` |
| Naming.FixedDocxOps | fixed_main.py:349-351 | the DOCX branch of `FixedFileOps`; specified by `FixedDestinations` |
| Naming.FixedPdfOps | fixed_main.py:354-371 | the PDF branch of `FixedFileOps`; specified by `FixedPdfDestinations` |
| Naming.FixedPdfDestinations | fixed_main.py:354-382 | the PDF branch writes or deletes only the output, the fallbacks and the converted file, and brands into `FixedOutputPath` |
| Naming.FixedDestinations | fixed_main.py:332-385 | each file written or deleted is the output, a fallback or the converted file; branding writes `FixedOutputPath` |
| Naming.FixedWritesOutputOnly | fixed_main.py:332-385 | every file written or deleted lies in the output directory, and branding writes `FixedOutputPath` |
| Packages.Parse | main.py:96 | parsing succeeds exactly on a file holding XML |
| Packages.FilesIn | main.py:206-211 | the files listed directly in a directory are files of the package |
| Packages.CopyAll | main.py:212 | copied paths take the source's part, all other paths keep theirs |
| Packages.PackageDir.constructor | main.py:87-90 | the directory holds the extracted package |
| Packages.PackageDir.Write | main.py:112 | writing a part changes exactly that path |
| Packages.PackageDir.CopyFiles | main.py:212 | the copies succeed iff every path is a file of the source, and then they copy them |
| PartCopies.Copy | main.py:226 | `copy2` succeeds iff the source path is a file, and copies exactly it |
| PartCopies.CopyListedSpec | main.py:217-228 | the listed-name loop succeeds iff every listed path that exists is a file, and then copies exactly those |
| PartCopies.CopyListedStops | main.py:217-228 | once a copy has raised, the loop has |
| PartCopies.CopySelected | main.py:241-248 | the listing loop succeeds iff the directory is not a file and every selected entry is a file, and then copies them |
| PartCopies.CopyMedia | main.py:205-214 | the media loop fails iff `word/media` is a file, and copies every file directly inside it |
| PartCopies.CopyInto | main.py:226 | one `copy2` on the target directory: it succeeds iff the source path is a file, and a failed copy leaves the directory alone |
| PartCopies.CopyListedInto | main.py:217-228 | the loop on the target directory returns `CopyListed` |
| PartCopies.CopySelectedInto | main.py:241-248 | the loop on the target directory returns `CopySelected` |
| PartCopies.CopyMediaInto | main.py:203-214 | the loop on the target directory returns `CopyMedia` |
| PartCopies.DocumentRelsPlain | main.py:243 | `document.xml.rels` is not a header or footer relationship file |
| MainBranding.MarginsStep | main.py:92-115 | only `word/document.xml` can change; a missing or unparsable document is left as it was |
| MainBranding.StyleFileStepKeeps | main.py:127-194 | one pass keeps every existing target part except `styles.xml`; an added part is the template's |
| MainBranding.StyleFileStep | main.py:127-194 | specified by `StyleFileStepKeeps` and `StylesMerged` |
| MainBranding.StyleFilesKeep | main.py:117-194 | every target part other than `word/styles.xml` is kept; every added part is listed and copied from the template |
| MainBranding.StylesMerged | main.py:140-189 | with both style parts parsing, `word/styles.xml` becomes the merged styles |
| MainBranding.StyleFilesStop | main.py:127-194 | once a pass has raised, the loop has |
| MainBranding.ImportStepRels | main.py:257-316 | the target's relationships are kept in order, followed by one copy of each qualifying template relationship under a fresh, pairwise distinct id |
| MainBranding.ImportStepMapping | main.py:286-299 | the dict maps exactly the ids of the imported relationships, each to an added id |
| MainBranding.ImportStep | main.py:250-316 | specified by `ImportStepRels` and `ImportStepMapping` |
| MainBranding.ReappendStep | main.py:318-356 | only the listed `.rels` files can change |
| MainBranding.ReappendDuplicates | main.py:334-345 | each appended media relationship is already in the just-copied file under the same id, so ids repeat |
| MainBranding.Reappended | main.py:319-356 | specified by `ReappendDuplicates` |
| MainBranding.ReferencesStep | main.py:358-484 | only `word/document.xml` can change |
| MainBranding.MergedTypesSpec | main.py:486-558 | target rules stay first; Override PartNames stay unique; exactly the table's missing image Defaults the template has are added |
| MainBranding.MergedTypes | main.py:486-558 | specified by `MergedTypesSpec` |
| MainBranding.MainCopied | main.py:92-248 | on success every selected `.rels` entry is a file of the template |
| MainBranding.PartsCopied | main.py:196-248 | on success every selected `.rels` entry is a file of the template |
| MainBranding.ApplyBranding | main.py:75-558 | the directory ends as `MainBranded`; `ok` is false exactly when the source raises |
| MainBranding.MainBranded | main.py:75-558 | specified, step by step, by `ApplyBranding` and the lemmas about its steps |
| MainBranding.CopyPartsInto | main.py:92-248 | the copying steps return `MainCopied` |
| MainBranding.PartsInto | main.py:196-248 | media, header/footer and `.rels` copies return `PartsCopied` |
| MainBranding.LinkInto | main.py:248-558 | the later steps return `MainLinked` |
| MainBranding.ImportInto | main.py:248-316 | the directory and dict are `ImportStep` of the old state |
| MainBranding.MarginsInto | main.py:92-115 | the directory becomes `MarginsStep` of the old one |
| MainBranding.StyleFilesInto | main.py:117-194 | the loop returns `StyleFilesStep` |
| MainBranding.StyleFileInto | main.py:127-194 | one pass returns `StyleFileStep` |
| MainBranding.ReappendInto | main.py:318-356 | the loop, in any order, returns `ReappendStep` |
| MainBranding.ReappendGrow | main.py:318-356 | re-appending one more file writes that file from the untouched target |
| MainBranding.ReferencesInto | main.py:358-484 | the directory becomes `ReferencesStep` |
| MainBranding.TypesInto | main.py:486-558 | the directory becomes `TypesStep`; false exactly when the fallback copy raises |
| BackupBranding.PartWithRelsSpec | main_backup.py:58-73 | one pass succeeds iff what it copies are files, and then copies them |
| BackupBranding.PartWithRels | main_backup.py:58-73 | specified by `PartWithRelsSpec` |
| BackupBranding.PartsWithRelsSpec | main_backup.py:56-73 | the loop succeeds iff every listed part the template has, and each such part's `.rels`, is a file; then it copies exactly those |
| BackupBranding.PartsWithRelsStop | main_backup.py:56-73 | once a pass has raised, the loop has |
| BackupBranding.LinkStep | main_backup.py:87-221 | only the document relationships and the document can change |
| BackupBranding.DocumentStep | main_backup.py:150-221 | only the document can change |
| BackupBranding.ImportSpec | main_backup.py:94-145 | target relationships kept in order, plus one copy of each header/footer relationship under a fresh, distinct id; the dict maps exactly the imported ids to added ids |
| BackupBranding.BrandedRefAdded | main_backup.py:203-218 | a header or footer reference in the rebuilt section names one of the relationships the import added |
| BackupBranding.DocumentStepWrites | main_backup.py:150-221 | when both documents parse and the rebuild succeeds, the step writes the rebuilt document |
| BackupBranding.LinkStepWrites | main_backup.py:87-221 | when everything parses and the rebuild succeeds, the step writes the extended relationships and the rebuilt document |
| BackupBranding.LinkedReferencesResolve | main_backup.py:87-221 | the body ends with the rebuilt section, and every header or footer reference in it names a relationship appended to `document.xml.rels` |
| BackupBranding.TypesStep | main_backup.py:224-290 | only `[Content_Types].xml` can change |
| BackupBranding.MergedOverridesSpec | main_backup.py:244-258 | target Overrides first; each added Override is a header/footer PartName from the template the target lacked; unique PartNames stay unique |
| BackupBranding.MergedDefaultsSpec | main_backup.py:260-287 | a Default is present iff the target had it, or it is a table entry the target lacks and the template has |
| BackupBranding.MergedTypes | main_backup.py:224-290 | specified by `MergedOverridesSpec` and `MergedDefaultsSpec` |
| BackupBranding.CollectedAreBranding | main_backup.py:236-242 | each collected Override names a header or footer and is a template PartName |
| BackupBranding.BackupKeepsHeaderFooter | main_backup.py:56-73 | after a merge returning True, every listed header/footer part and `.rels` the template has is in the result exactly as in the template |
| BackupBranding.ApplyBranding | main_backup.py:29-312 | the directory ends as `BackupBranded`; `ok` is the function's result |
| BackupBranding.BackupBranded | main_backup.py:29-312 | specified by `ApplyBranding` and `BackupKeepsHeaderFooter` |
| BackupBranding.LinkedInto | main_backup.py:75-287 | the later steps return `BackupLinked` |
| BackupBranding.PartsWithRelsInto | main_backup.py:56-73 | the loop returns `PartsWithRels` |
| BackupBranding.LinkInto | main_backup.py:87-221 | the relationship and document step returns `LinkStep` |
| BackupBranding.DocumentInto | main_backup.py:150-221 | the document step returns `DocumentStep` |
| BackupBranding.TypesInto | main_backup.py:224-290 | the content-types step returns `TypesStep` |
| FixedBranding.DocumentRelsStep | fixed_main.py:167-170 | fails iff the template's document relationships exist but are not a file; otherwise copies them over the target's |
| FixedBranding.HeaderFooterStep | fixed_main.py:177-181 | fails iff `word` cannot be listed or a `header*`/`footer*` entry is a directory; otherwise copies them all |
| FixedBranding.RelsFilesStep | fixed_main.py:188-196 | when `word/_rels` exists: fails iff it is a file or a selected entry is a directory; otherwise copies them |
| FixedBranding.TypesStep | fixed_main.py:219-220 | fails iff the template's content types exist but are not a file; otherwise copies them |
| FixedBranding.FrontCopied | fixed_main.py:167-181 | the first two copies succeed iff `FrontCopyable`, and copy the union of their paths |
| FixedBranding.BackCopied | fixed_main.py:188-220 | the last three copies succeed iff `BackCopyable`, and copy the union of their paths |
| FixedBranding.DocumentStep | fixed_main.py:227-261 | only `word/document.xml` can change |
| FixedBranding.FixedCopiedFails | fixed_main.py:163-221 | the copies raise exactly for templates that are not `Copyable`, whatever the target |
| FixedBranding.FixedCopiedValue | fixed_main.py:163-221 | otherwise they equal one copy of every supplied path over the target |
| FixedBranding.SuppliedSparesDocument | fixed_main.py:163-221 | no copy writes `word/document.xml` |
| FixedBranding.FixedMergedSpec | fixed_main.py:163-261 | the merge succeeds iff `Copyable`; every supplied path then holds the template's part, and every other target part except the document is kept |
| FixedBranding.FixedMerged | fixed_main.py:163-261 | specified by `FixedMergedSpec`, `FixedDocumentSpec` and `FixedDocumentResectioned` |
| FixedBranding.FixedDocumentSpec | fixed_main.py:227-261 | the document becomes the transplanted one when both documents parse, and is unchanged when either does not |
| FixedBranding.DocumentStepSpec | fixed_main.py:227-261 | the edit writes the transplanted tree when both parse and nothing otherwise |
| FixedBranding.FixedDocumentResectioned | fixed_main.py:242-258 | with a template section and a target body without nested sections, the merged body is the target's body resectioned with the template's section |
| FixedBranding.ApplyBranding | fixed_main.py:139-261 | a successful simplified approach leaves the directory alone; otherwise the outcome is `Raised` or the merged package, as `FixedBranded` says |
| FixedBranding.FixedBranded | fixed_main.py:139-261 | specified by `ApplyBranding` |
| FixedBranding.CopyPartsInto | fixed_main.py:163-221 | the copies on the directory return `FixedCopied` |
| FixedBranding.FrontInto | fixed_main.py:163-182 | the first two copies return `FrontCopied` |
| FixedBranding.BackInto | fixed_main.py:184-221 | the last three copies return `BackCopied` |
| FixedBranding.DocumentInto | fixed_main.py:223-261 | the edit returns `DocumentStep` |

## Left out

- I/O is not modelled:
  - zip extraction and archive creation, including the `_alt.zip` retry;
  - `tempfile`;
  - PDF conversion (`pdf2docx`, PyMuPDF);
  - `print`.
  The extracted packages are the inputs, and the merged package is the result.
- `create_consistent_document` in fixed_main.py uses python-docx. It is an input flag, `simplifiedOk`.
- `app.py` (the web front end) is not part of this model.
- `os.makedirs` is not modelled. A package has no explicit directories, so a copy into a missing target directory always succeeds. A copy onto a target path that is a directory is not modelled either.
- Regex matching in main.py's last document step is modelled by its effect on the parsed tree, not on the text:
  - the header/footer reference pattern;
  - the first `<w:sectPr>...</w:sectPr>`;
  - insertion before `</w:body>`.
  Where text and tree differ (attributes with `>` in them, comments, references that are not self-closing), the model follows the tree. The fallback in the `except` branch at main.py:450-483 is not modelled. Its regex can only fail on text the tree parser rejected.
- ElementTree serialisation (`tostring`, `write`, namespace prefixes) is abstracted away. A tree that is written and read back is the same tree.
- Documents with several `w:body` elements are not modelled: only the first body is edited. A WordprocessingML document has one body.
- main.py's rename at lines 646-654 is modelled only by its file names. Whether the final output or only the temporary output survives after a failed `os.remove`/`os.rename` is not modelled.
- Text.ParseDecimal: accepts a non-empty run of ASCII digits only. Python `int()` also accepts suffixes that are not plain ASCII digits: a sign (`rId+3` gives 3), underscores between digits (`rId1_0` gives 10), surrounding whitespace and non-ASCII decimal digits. For such ids the model parses nothing where main.py parses a number, so the highest existing suffix, and the new ids, can differ.
- `Text.Lower` folds ASCII letters only. Unicode case folding is not modelled.
- MainBranding.StyleFilesKeep: stated for a list of distinct style-file names, as main.py's list is. With a repeated name, the second pass could merge a part the first pass copied.

## Findings

| source | as written | input that shows it | evidently intended | confidence | as-written member | corrected member |
|---|---|---|---|---|---|---|
| main.py:418-420 | every old-to-new pair is applied to the template's section text one `str.replace` after another, so an id that is renamed and is also an old id further on is renamed twice | template relationships `rId1` and `rId3` imported as `rId3` and `rId4`; a header reference to `rId1` ends at `rId4`, the id of a different relationship | each `r:id` is looked up once in the mapping | high (not executed) | Documents.ChainRenamesTwice | Documents.RenameAllRoot |

main.py reaches the chained rename only when the target document has no `w:sectPr`. After step 1 succeeds on a body, the document always has one (`Documents.MainResetLeavesSection`). So the branch runs only when step 1 could not parse `word/document.xml` or found no body. `Documents.AttachReferences` models that branch as written, with `RenameChain`.
