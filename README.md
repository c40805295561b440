# OpenStreetMap street auditing and shaping, modelled in Dafny

The modelled repository reads an OpenStreetMap extract and works in two steps.

- **Auditing.** Audit scripts scan the `node` and `way` elements. They file every `addr:street` value by three fixed regular expressions:
  - the trailing street type, `\b(\S+\.?)$`;
  - a leading compass prefix, `^([SENW]\.?)\s+`;
  - an abbreviated suite, `\b(ste\.?)\s\d+$`.
  They also list the ids of elements that carry a `fixme` tag, and places of worship without a `religion` tag.
- **Shaping.** The cleaning pass turns every element into a JSON-ready document.
  - The element's `created` attributes are grouped, `lat`/`lon` become `pos`, and `nd` references become `node_refs`.
  - Sub-tag keys are sorted by the key-path rules: dropped, stored flat, put in `address`, or joined with `_`.
  - The value of every `addr:street` sub-tag is normalised by `fix_street`.
  - Two counters record the streets seen and the streets changed.

The project has eight modules, one per concern.

| file | module | models |
|---|---|---|
| `osm.dfy` | `Osm` | the shared data model and helpers (see below) |
| `street_normalizer.dfy` | `StreetNormalizer` | `fix_street`'s regex tables, `re.subn` on a whole-word case-insensitive pattern, first-match table application |
| `clean_xml.dfy` | `CleanXml` | class `CleanXML` of `project3_updated.py` (see below) |
| `data.dfy` | `Data` | the earlier shaper `data.py` and the expectations of its `test` |
| `audit_patterns.dfy` | `AuditPatterns` | the three audit patterns, each as a scan proved equal to the match the pattern describes; the `defaultdict(set)` update; `find_match`; `is_street_name` |
| `audit_xml.dfy` | `AuditXml` | class `AuditXML` of `project3_updated.py`: `find_fixme`, `find_religion`, `audit_street_type`, `audit` |
| `audit_data.dfy` | `AuditData` | `audit_data.py`: Python's `str.find` and `str.replace`, `update_name`, the two-dictionary `audit_street_type` and `audit` |
| `attic.dfy` | `Attic` | `attic/project3.py`: `node_has_name` and its `audit` |

`Osm` holds:
- the element, the document and the error datatypes;
- Python's character classes;
- `str.split`/`str.join` on one character;
- the key-path classifier;
- `get_lat_lon`;
- the `address` sub-dictionary update.

In `CleanXml`, a class with the two counters as fields proves each method against a specification function. The properties of shaping are lemmas about those functions.

Imperative source code is modelled by methods with loops. Each method is proved equal to a specification function, and the properties are lemmas about that function. This covers:
- the two early-breaking loops of `fix_street`;
- the sub-tag loop of `shape_element`;
- `process_map`;
- `update_name`;
- `find_fixme`, `find_religion` and the audits.

Errors are results, not preconditions:
- a missing `id` or bounds attribute, where the code indexes `attrib[...]`, gives `MissingAttribute`;
- writing `address[x]` when a flat `address` tag already stored a string gives `NotADict`.

The only caller-side assumptions are the ones the source's types impose.

### Where the code does not do what it evidently means

The model follows the code in each case below.

- `fix_street` is not idempotent: cleaning an already cleaned name can change it again.
  - The prefix table rewrites only the first of its rules that occurs.
  - So `"N E Street"` becomes `"N East Street"` and then `"North East Street"`.
  - `NormalizeFirstPass` and `NormalizeSecondPass` prove both steps.
  - `NormalizeIdempotent` proves idempotence when at most one rule of each table occurs.
- A sub-tag whose key lower-cases to `id` or `type` overwrites the element's own field (`IdOverwritten`).
- The earlier shaper `data.py` keeps a key's case.
  - It stores address values raw, without normalising them.
  - It only collects `created` attributes that are non-empty.
- `update_name` matches plain substrings, not words. So `"Main Street"` contains `"St"` and becomes `"Main Streetreet"` (`FullNameExpandedAgain`).

## Model

| member | source | states |
|---|---|---|
| `Osm.LatLon` | project3/project3_updated.py:219-231 | `pos` exists exactly when both `lat` and `lon` are present and non-empty, and it holds those two values |
| `Osm.ClassifyKey` | project3/project3_updated.py:322-359 | the key-path rules. A key with a problem character is dropped. A one-segment key is stored flat. `addr:X` with two segments goes to `address[X]`. `addr:street:…` is dropped. Every other multi-segment key is joined with `_` |
| `Osm.ClassifyKeyFacts` | project3/project3_updated.py:327-356 | the classifier's case analysis agrees with `k.split(':')`. It checks the segment count, the `addr` first segment, `street` as the second segment, and `"_".join` as replacing every `:` |
| `Osm.SplitRoundTrip` | project3/project3_updated.py:327 | joining the pieces of `split(sep)` with `sep` gives back the key |
| `Osm.StreetKey` | project3/project3_updated.py:338-340 | a key takes the street branch exactly when it is `addr:street` |
| `Osm.AddressKey` | project3/project3_updated.py:338-348 | `addr:` followed by a clean colon-free field goes to that field of `address` |
| `Osm.SetAddress` | project3/project3_updated.py:348 | `node["address"][f] = v` succeeds exactly when `address` is absent or a dict. It then sets `f` to `v`. The address keeps every other entry with its value, a new address holds `f` alone, and every other field of the document is unchanged |
| `Osm.NodeRefs` | project3/project3_updated.py:362-368 | the `nd` loop collects the refs in document order, duplicates kept |
| `Osm.CaseAgree` | project3/project3_updated.py:331 | `k.upper()` equals the upper case of a lower-case word exactly when `k.lower()` equals the word |
| `StreetNormalizer.TablesValid` | project3/project3_updated.py:194-211 | every rule of both tables is a whole-word alternation with a period-free replacement |
| `StreetNormalizer.TablesDisjoint` | project3/project3_updated.py:194-211 | no rule's replacement word is hit by a rule of either table |
| `StreetNormalizer.OccursIffRegex` | project3/project3_updated.py:195-210 | the piece-wise test of a rule agrees with a search for its whole-word alternation under `re.I`: some position starts a word run equal to one of its tokens, ignoring case |
| `StreetNormalizer.SubnCount` | project3/project3_updated.py:261-262 | `subn` counts zero exactly when the pattern does not occur, and it then leaves the string unchanged |
| `StreetNormalizer.SubnClears` | project3/project3_updated.py:261 | after `subn`, the rule's pattern no longer occurs |
| `StreetNormalizer.SubnNoPeriod` | project3/project3_updated.py:261 | `subn` with a period-free replacement adds no period |
| `StreetNormalizer.TokenizeFlatten` | project3/project3_updated.py:195-210 | cutting a string into word runs and single other characters is inverse to concatenating the pieces |
| `StreetNormalizer.FirstOccurring` | project3/project3_updated.py:260-269 | picks the first rule in table order that occurs, and no earlier rule occurs |
| `StreetNormalizer.ApplyFirstIsFirst` | project3/project3_updated.py:260-269 | a table pass applies `subn` of exactly the first occurring rule, or returns the string unchanged when none occurs |
| `StreetNormalizer.TableStep` | project3/project3_updated.py:260-269 | when at most one rule of a table occurs, a pass leaves no rule of that table occurring, and no rule of the other table starts to occur |
| `StreetNormalizer.RemovePeriods` | project3/project3_updated.py:257 | `re.sub(r'[.]', '', s)` leaves no period, never lengthens, and keeps a period-free string |
| `StreetNormalizer.RemovePeriodsChar` | project3/project3_updated.py:257 | one character is dropped exactly when it is a period and kept otherwise |
| `StreetNormalizer.RemovePeriodsAppend` | project3/project3_updated.py:257 | removing periods from `a + b` is removing them from `a` and from `b` and joining the results, so the other characters stay in their order |
| `StreetNormalizer.NormalizeNoPeriod` | project3/project3_updated.py:248-271 | the result of `fix_street` never contains a period |
| `StreetNormalizer.NormalizeIdempotent` | project3/project3_updated.py:248-271 | `fix_street` is idempotent when at most one rule of each table occurs in the period-free name |
| `StreetNormalizer.NormalizeFirstPass` | project3/project3_updated.py:259-269 | `fix_street("N E Street") == "N East Street"` |
| `StreetNormalizer.NormalizeSecondPass` | project3/project3_updated.py:259-269 | `fix_street("N East Street") == "North East Street"`, so a second call changes the result again |
| `StreetNormalizer.NormalizeNorthLincolnAve` | project3/project3_updated.py:248-271 | `fix_street("North Lincoln Ave.") == "North Lincoln Avenue"` |
| `CleanXml.Bump` | project3/project3_updated.py:342 | `counter[k] += 1` on a `defaultdict(int)` raises `k` by one and no other entry |
| `CleanXml.CreatedFrom` | project3/project3_updated.py:239-246 | `created` holds exactly the listed attributes that are present, with their text |
| `CleanXml.FieldNameCase` | project3/project3_updated.py:328-334 | a one-segment key is stored lower-cased, except `fixme` and `nhs` in any case, which are stored upper-cased |
| `CleanXml.TagsKeys` | project3/project3_updated.py:316-359 | after the sub-tag loop, the document's fields are the ones it had plus the field that each kept key writes |
| `CleanXml.TagsFrame` | project3/project3_updated.py:316-359 | a field that no sub-tag writes keeps its value |
| `CleanXml.TagsIgnoreDropped` | project3/project3_updated.py:322-324 | dropped keys, both problem-character keys and `addr:street:*` keys, have no effect on the document or the counters |
| `CleanXml.StepStreetCounts` | project3/project3_updated.py:340-347 | an `addr:street` tag raises `total[v]` by one, and `corrected[v]` by one exactly when `fix_street(v) != v`. Every other entry stays |
| `CleanXml.TagsStreetCounts` | project3/project3_updated.py:316-347 | over a run of sub-tags, each counter entry rises by the number of `addr:street` tags with that value. `corrected` rises only for values `fix_street` changes |
| `CleanXml.TagsConsistent` | project3/project3_updated.py:340-347 | the sub-tag loop preserves the invariant that a counted value has a corrected count exactly when `fix_street` changes it, and that count equals its total |
| `CleanXml.ShapeKinds` | project3/project3_updated.py:282-372 | only `node`, `way` and `bounds` give a document. Every other tag gives None and leaves the counters alone |
| `CleanXml.BoundsFacts` | project3/project3_updated.py:282-289 | bounds succeed exactly when all four bounds attributes are present. The error is the KeyError of the first missing one, in the order `minlat`, `minlon`, `maxlat`, `maxlon`. The document holds exactly `type="bounds"` and the four coordinates, each taken from its own attribute. The counters stay unchanged |
| `CleanXml.ShapeNodeKeys` | project3/project3_updated.py:291-370 | a shaped node or way has an `id`. Its fields are the base fields, plus each kept sub-tag's field, plus `node_refs` exactly for a way with refs, which holds those refs |
| `CleanXml.BaseFields` | project3/project3_updated.py:293-313 | `type`, `id` and `visible` are always set, `visible` to None when absent. `created` exists exactly when some listed attribute exists. `pos` exists exactly when `lat` and `lon` are both non-empty |
| `CleanXml.ShapeNodeIdentity` | project3/project3_updated.py:304-310 | `id` and `type` are the element's own unless a sub-tag writes them |
| `CleanXml.IdOverwritten` | project3/project3_updated.py:310-334 | a sub-tag whose key lower-cases to `id`, wherever it stands among the sub-tags, replaces the stored id with its value, unless a later kept sub-tag writes `id` again |
| `CleanXml.TagsAppend` | project3/project3_updated.py:316-359 | the sub-tag loop over `a + b` runs `a`, then `b` from where `a` left off, and stops at the first failure |
| `CleanXml.TwoTags` | project3/project3_updated.py:316-359 | two sub-tags are two loop steps, the second only after the first succeeds |
| `CleanXml.StreetStep` | project3/project3_updated.py:338-347 | an `addr:street` step stores the normalised value under `address.street` and counts the raw value |
| `CleanXml.FieldAndStreet` | project3/project3_updated.py:338-348 | `addr:X` then `addr:street` on a document without an address give an address with the raw `X` and the normalised street, and count the street once |
| `CleanXml.BaseNoAddress` | project3/project3_updated.py:293-313 | the fields set before the sub-tags never include `address` |
| `CleanXml.StreetOnly` | project3/project3_updated.py:338-348 | a lone `addr:street` sub-tag creates an address holding only the normalised street, and counts the raw value |
| `CleanXml.StreetNode` | project3/project3_updated.py:291-348 | a node whose one sub-tag is `addr:street` is shaped, its address holds only the normalised street, and the counters are those of one counted street |
| `CleanXml.NorthLincolnNode` | project3/project3_updated.py:316-348 | a node with `addr:street = "North Lincoln Ave."` is stored with `address.street == "North Lincoln Avenue"`, and both counters of the raw value rise by one |
| `CleanXml.ProcessFromCount` | project3/project3_updated.py:391-394 | appending keeps the earlier documents and adds one per node, way or bounds |
| `CleanXml.ProcessCount` | project3/project3_updated.py:386-399 | a successful run yields one document per node, way or bounds element |
| `CleanXml.ProcessStreetCounts` | project3/project3_updated.py:386-399 | after a run, each counter entry has risen by the number of `addr:street` tags with that value in the shaped elements |
| `CleanXml.ProcessConsistent` | project3/project3_updated.py:386-399 | a run keeps the counters consistent |
| `CleanXml.CleanXml.constructor` | project3/project3_updated.py:215-216 | both counters start empty |
| `CleanXml.CleanXml.FixStreet` | project3/project3_updated.py:248-271 | the method with its two early-breaking loops computes `NormalizeStreet` |
| `CleanXml.CleanXml.SubnFirst` | project3/project3_updated.py:260-263 | one table loop applies exactly the first rule that occurs, then stops |
| `CleanXml.CleanXml.FixCreated` | project3/project3_updated.py:233-246 | the loop builds `CreatedFrom` over the five `created` keys |
| `CleanXml.CleanXml.AddressTag` | project3/project3_updated.py:338-348 | an address field is stored. A street is normalised and counted, and the counters change only for it |
| `CleanXml.CleanXml.ApplyTag` | project3/project3_updated.py:319-359 | one sub-tag step, with its effect on the document and on the counter fields |
| `CleanXml.CleanXml.ShapeBounds` | project3/project3_updated.py:282-289 | the bounds branch, with the first missing bound as the error |
| `CleanXml.CleanXml.ShapeBase` | project3/project3_updated.py:293-313 | the fields set before the sub-tags; a missing `id` is the error |
| `CleanXml.CleanXml.ShapeSubTags` | project3/project3_updated.py:316-359 | the sub-tag loop, with the document and counters as `ShapeTags` gives them |
| `CleanXml.CleanXml.ShapeElement` | project3/project3_updated.py:273-372 | `shape_element`, with the new counter fields |
| `CleanXml.CleanXml.ProcessMap` | project3/project3_updated.py:386-399 | the documents in element order, None results skipped, the first error ending the run |
| `Data.CreatedFrom` | project3/data.py:101-113 | `created` holds exactly the listed attributes with a non-empty value |
| `Data.FixCreated` | project3/data.py:101-113 | the loop builds `CreatedFrom` over the five keys |
| `Data.ApplyTag` | project3/data.py:160-181 | one sub-tag step of the earlier shaper |
| `Data.ShapeBase` | project3/data.py:138-157 | the fields set before the sub-tags; `id` and `visible` are None when absent |
| `Data.ShapeSubTags` | project3/data.py:160-181 | the sub-tag loop computes `ShapeTags` |
| `Data.ShapeElement` | project3/data.py:131-198 | `shape_element` of `data.py` |
| `Data.ProcessMap` | project3/data.py:201-214 | the documents in element order, None results skipped |
| `Data.ShapeKinds` | project3/data.py:135-198 | only nodes and ways give a document; `bounds` gives None |
| `Data.TagsKeys` | project3/data.py:160-181 | the sub-tag loop adds exactly the fields that kept keys write |
| `Data.SingleKeepsCase` | project3/data.py:170-171 | a one-segment key is stored in its own case |
| `Data.AddressStoredRaw` | project3/data.py:173-174 | `addr:X` stores the raw value in a new `address` dict |
| `Data.AddressTagOnDict` | project3/data.py:173-174 | a further `addr:X` adds to the existing `address` dict |
| `Data.TwoAddressTags` | project3/data.py:241-244 | two address tags give an `address` dict with both raw values |
| `Data.CreatedAll` | project3/data.py:227-239 | with all five attributes non-empty, `created` holds all five |
| `Data.NodeWithoutTags` | project3/data.py:227-240 | a node without sub-tags gives exactly `id`, `visible`, `type`, `pos` and `created` |
| `Data.NodeBase` | project3/data.py:138-157 | a node with a non-empty `created`, both coordinates, an `id` and a `visible` gets exactly those five base fields, each with its attribute's value |
| `Data.BaseKeys` | project3/data.py:138-157 | the base fields are at most `created`, `pos`, `type`, `id` and `visible`, and always include the last three |
| `Data.WayRefs` | project3/data.py:188-194 | a way's `node_refs` are its refs, in order, one per `nd` |
| `Data.ProcessFromCount` | project3/data.py:204-214 | a successful run keeps earlier documents and adds one per node or way |
| `AuditPatterns.TrailingTokenLeftmost` | project3/project3_updated.py:40 | the scan finds a group exactly when `\b(\S+\.?)$` matches somewhere, and returns the leftmost match's group |
| `AuditPatterns.LeadingPrefixMatches` | project3/project3_updated.py:41 | the scan returns `g` exactly when `^([SENW]\.?)\s+` under `re.I` matches with group `g` |
| `AuditPatterns.SuiteTokenMatches` | project3/project3_updated.py:42 | the scan returns `g` exactly when `\b(ste\.?)\s\d+$` under `re.I` matches with group `g` |
| `AuditPatterns.AddToFacts` | project3/project3_updated.py:123 | `outdict[key].add(name)` gives the key a set that holds the name and keeps what it had. Other keys are untouched, and a repeat changes nothing |
| `AuditPatterns.AddToCommutes` | project3/project3_updated.py:123 | the order of two additions does not matter |
| `AuditPatterns.FindMatch` | project3/project3_updated.py:110-123 | after `find_match`, a name is recorded under a key exactly when it was already, or it is this name and the key is the pattern's group, which for street types is not expected |
| `AuditPatterns.StreetNameIsStreetKey` | project3/project3_updated.py:49-57 | `is_street_name` holds exactly for the sub-tags whose value the cleaning pass normalises |
| `AuditXml.AuditStreetType` | project3/project3_updated.py:101-127 | each of the three dictionaries gains this name exactly under its pattern's group (street types only when not expected) and changes nothing else |
| `AuditXml.AuditStreetsRecords` | project3/project3_updated.py:153-155 | after an element's sub-tags, a name is recorded exactly when it was before or is the value of one of its `addr:street` tags and listed by the pattern |
| `AuditXml.FindFixme` | project3/project3_updated.py:86-99 | appends the id once per `fixme` key in any case. With no such key it changes nothing; with one and no id it is a KeyError |
| `AuditXml.FindReligion` | project3/project3_updated.py:59-84 | appends the id exactly when some tag is `amenity=place_of_worship` and none is `religion`, and is a KeyError only then without an id |
| `AuditXml.Audit` | project3/project3_updated.py:132-161 | the nested loops compute the fold of the audit over the elements |
| `AuditXml.AuditOutcome` | project3/project3_updated.py:146-158 | the audit fails exactly when some node or way that needs its id has none. Otherwise its dictionaries are the street filing and the `fixme` list grows by one per `fixme` tag |
| `AuditXml.StreetsOfRecords` | project3/project3_updated.py:146-155 | over a run of elements, a name is recorded exactly when it was before or it is a node's or way's street and listed |
| `AuditXml.AuditRecords` | project3/project3_updated.py:132-161 | a successful audit records a name under a key exactly when the name is the street of some node or way and the pattern lists it under that key |
| `AuditData.Find` | project3/audit_data.py:73 | `str.find` is -1 exactly when there is no occurrence, and otherwise the least index of one |
| `AuditData.FindSkip` | project3/audit_data.py:73 | a prefix without the pattern's first character only shifts `find` |
| `AuditData.ReplaceSkip` | project3/audit_data.py:74 | a prefix without the pattern's first character passes through `str.replace` |
| `AuditData.ReplaceAbsent` | project3/audit_data.py:74 | `str.replace` of an absent pattern changes nothing |
| `AuditData.ReplaceOnly` | project3/audit_data.py:74 | a single occurrence is replaced in place |
| `AuditData.ReplaceEmpty` | project3/audit_data.py:74 | an empty pattern gives the replacement, then the first character, then the replacement, and so on: the replacement sits before, between and after the characters, which keep their order |
| `AuditData.ReplaceEmptyLength` | project3/audit_data.py:74 | an empty pattern adds one copy of the replacement per character plus one |
| `AuditData.ReplaceEmptyCopies` | project3/audit_data.py:74 | with an empty pattern, a copy of the replacement stands before each character and at the end |
| `AuditData.ReplaceEmptyChars` | project3/audit_data.py:74 | with an empty pattern, each character follows its copy of the replacement, in the original order |
| `AuditData.UpdateName` | project3/audit_data.py:69-79 | the loop with its `break` computes `UpdateFrom`, the first mapping entry that occurs as a substring |
| `AuditData.UpdateNoMatch` | project3/audit_data.py:72-79 | a name containing no mapping key is returned unchanged |
| `AuditData.StDotNeverUsed` | project3/audit_data.py:27-33 | the entry `"St."` never applies, because `"St"` comes first and occurs wherever `"St."` does |
| `AuditData.LeadingStDotKeepsPeriod` | project3/audit_data.py:75-76 | `p + "St." + q` becomes `p + "Street" + q`, except that for empty `p` the period is kept |
| `AuditData.CorrectedDropsPeriod` | project3/audit_data.py:75-76 | with the index test corrected, `p + "St." + q` always becomes `p + "Street" + q` |
| `AuditData.FullNameExpandedAgain` | project3/audit_data.py:72-77 | a full `"Street"` is expanded again to `"Streetreet"` |
| `AuditData.AuditStreetType` | project3/audit_data.py:36-49 | the two dictionaries gain this name exactly under the trailing token, if it is not expected, and under the leading prefix |
| `AuditData.Audit` | project3/audit_data.py:56-66 | the loops record a name under a key exactly when it is the street of some node or way and the pattern lists it there |
| `Attic.NodeHasName` | project3/attic/project3.py:23-62 | a KeyError exactly when `id` is missing; otherwise True exactly for a non-node or a node without sub-tags |
| `Attic.Audit` | project3/attic/project3.py:110-125 | fails exactly when some node or way has no id; otherwise it builds the same three dictionaries as the later audit |
| `Attic.AuditRecords` | project3/attic/project3.py:82-108 | a successful attic audit records exactly the listed street names of the nodes and ways |

`is_street_name` and `audit_street_type` of `attic/project3.py` (lines 19-20 and 82-108) match those of the later version. The model shares `AuditPatterns.IsStreetName` and `AuditXml.AuditStreetType` between them.

## Left out

- XML parsing is left out. An element arrives already parsed, with its attributes, its `tag` children in order and its `nd` refs.
  - `iterparse` with `start` events may hand an element over before its children are read. The model assumes they are present.
  - `elem.iter("tag")` also visits deeper descendants. The model treats `tag` children as direct children only.
- File I/O, `json.dumps` and the `pretty` flag, `print`/`pprint` output, `print_stats` (a float percentage), `insert_into_mongo` (a subprocess) and the MongoDB class `FixAndAnalyzeDB` are left out. They are output or external services.
- `float(...)` of coordinates is not modelled. `Pos` and `Coord` keep the attribute text, and a malformed number's `ValueError` is not modelled.
- A missing `k`, `v` or `ref` attribute on a child (a KeyError or TypeError in the source) is not modelled. Children always carry them.
- `Osm.LowerChar` and `Osm.UpperChar` fold ASCII only. Python's `str.lower`/`upper` and `re.IGNORECASE` also fold non-ASCII letters. `\w` and `\d` are ASCII. `\s` is Python's full whitespace set.
- Python dict iteration order is not modelled. The rule tables and `mapping` are sequences in declaration order.
- AuditXml.AuditStreetType: the caller's `defaultdict`s and lists are passed by value and returned. The caller reassigns them, so aliasing between them is not modelled.
- The `print` in `audit_street_type` and the id check before it in `node_has_name` are output only. They are not modelled.
- `AuditXML.test` and `data.py`'s `test` read map files. The test expectations that depend on file contents are stated as lemmas about the elements they describe (`NodeWithoutTags`, `TwoAddressTags`, `WayRefs`).
- StreetNormalizer.NormalizeIdempotent: proved only when at most one rule of each table occurs, because `fix_street` is not idempotent in general.

## Findings

| source | as written | input that shows it | evidently intended | confidence | as-written member | corrected member |
|---|---|---|---|---|---|---|
| project3/audit_data.py:75 | `if name.find(mapping[abbr] + '.')` treats index 0 as false, so `"Street."` at the start of the name keeps its period; it is also true for -1 | `"St. Paul"` gives `"Street. Paul"` | test `name.find(...) >= 0`, so the period is removed wherever the full word is followed by one | not executed | `AuditData.LeadingStDotKeepsPeriod` | `AuditData.CorrectedDropsPeriod` |
