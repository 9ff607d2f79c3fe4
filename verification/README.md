# OAI-PMH harvester core in Dafny

This project models the decision logic of the GeRDI OAI-PMH harvester. It has three pieces:

- **Metadata-prefix negotiation and transformer dispatch** (`OaiPmhETL`, module `OaiPmhEtl`).
  - A repository's `ListMetadataFormats` answer (section 4.4 of the OAI-PMH 2.0 specification) becomes a prefix → schema-URL map.
  - The configured metadata prefix is validated against that map and against the harvester's catalogue of supported schema URLs. There are four ordered checks. A rejection suggests the allowed values whenever the schema map is non-empty.
  - The catalogue's transformer for the prefix's schema is then bound, or no transformer is bound.
  - This binding is redone on the two parameter-change events (metadata prefix, host URL).
  - The module also assembles the `ListRecords` and `ListMetadataFormats` request URLs (sections 3.3, 4.4 and 4.5 of OAI-PMH 2.0).
- **ISO 19139 record strategy** (`OaiPmhIso19139Strategy`, module `Iso19139Strategy`). It turns one record into a DataCite-like document, or into no document for a record marked deleted (section 2.5.1 of OAI-PMH 2.0).
- **Dublin Core record strategy** (`OaiPmhDublinCoreStrategy`, module `DublinCoreStrategy`). It turns one `oai_dc` record into a document; a deleted record becomes a tombstone document.

The style is functional throughout:

- The ETL's mutable fields become an immutable `EtlState` updated by pure functions.
- A raw record is an immutable datatype holding the texts that the strategy's element selections yield.
- Each strategy is a pure function from record to `Result`.

Supporting modules:

- `Wrappers`: Option, Result, Outcome.
- `JavaValues`: the Java value semantics the code relies on.
  - The `(short)` cast, with 16-bit wrap-around.
  - Primitive `double` equality, where NaN equals nothing.
  - The decimal rendering of an `int`.
- `Lists`: an order-preserving "convert or skip" walk, with the positions it keeps.
- `DataCite`: the output document and the record errors.

Exceptions the Java code lets escape become explicit `Failure` outcomes (for a parameter change, a raised error next to the state it leaves).

- ISO `parseIdentifier` on a record without an identifier element.
- ISO Issued-date parse of a date that is not an xs:dateTime.
- DC header identifier or datestamp lookup when the element is absent.
- DC `pubdate.first()` when the record has no `dc:date`.
- `record.children().first()` on a record with no children (both strategies).
- The `ListMetadataFormats` loop meeting a format without prefix or schema element.

Outside collaborators become parameters of the model:

- The HTTP request: `Environment.fetch`, which answers each `ListMetadataFormats` request separately (by URL and request number), so a repeated request may get a different answer.
- xs:dateTime parsing: `Config.dateTimeYear`.
- Lenient `yyyy-MM-dd` parsing: the `parseDate` argument.
- `Double.parseDouble`: `Config.parseDouble`.
- `java.net.URL` well-formedness: `Config.isWellFormedUrl`.
- Constants defined in files that are not part of this model:
  - the URL patterns and query fragments (`UrlConstants`);
  - `METADATA_SCHEMA_MAP` (`Catalogue`);
  - `DATE_TYPE_MAP`, the ISO deleted-status value and `REPOSITORY_IDENTIFIER` (`Config`).

The model keeps these behaviours of the code:

- A missing identifier fails the record. It does not produce a degraded document.
- An unparseable first Issued date fails the ISO record. The failure is not confined to that field.
- A prefix change also rebuilds the schema map when the map is empty.
- A malformed format entry makes the host-URL change raise before the new map is assigned. The old repository's map and transformer then stay bound under the new host URL until the next host-URL change, and a later prefix change is validated against that stale map.
- A host-URL change whose fresh map is empty requests the formats a second time while re-binding.

## Model

| member | source | states |
|---|---|---|
| `OaiPmhEtl.AllowedValues` | src/main/java/de/gerdiproject/harvest/etls/OaiPmhETL.java:222-227 | the suggestion lists exactly the advertised prefixes whose schema URL is a catalogue key |
| `OaiPmhEtl.CheckMetadataPrefix` | src/main/java/de/gerdiproject/harvest/etls/OaiPmhETL.java:191-235 | checks in the order empty prefix, empty map, prefix not advertised, schema not in catalogue; passes iff the prefix is non-empty and one of the allowed values; the allowed-values suffix is present iff the map is non-empty |
| `OaiPmhEtl.SuggestedPrefixesPass` | src/main/java/de/gerdiproject/harvest/etls/OaiPmhETL.java:217-231 | every non-empty suggested prefix would itself be accepted; an advertised empty prefix is suggested yet rejected |
| `OaiPmhEtl.MapStringToMetadataPrefix` | src/main/java/de/gerdiproject/harvest/etls/OaiPmhETL.java:145-151 | an accepted value is returned unchanged; a rejected value raises the validation error |
| `OaiPmhEtl.Binding` | src/main/java/de/gerdiproject/harvest/etls/OaiPmhETL.java:164-175 | a transformer is bound iff the prefix is allowed, and it is the catalogue's product for the prefix's schema URL |
| `OaiPmhEtl.CreateTransformer` | src/main/java/de/gerdiproject/harvest/etls/OaiPmhETL.java:155-180 | the map is rebuilt, with one more request, only when empty, and a failed rebuild leaves it empty; the result is null exactly when validation fails, else the catalogue's product; the result is consistent |
| `OaiPmhEtl.OnParameterChanged` | src/main/java/de/gerdiproject/harvest/etls/OaiPmhETL.java:238-251 | a prefix change re-binds the transformer; a host-URL change raises iff the first rebuild raises, and then keeps the old map and transformer; otherwise it ends with the first answer's map if non-empty, else the second answer's (empty if that fails); other parameters change nothing |
| `OaiPmhEtl.ParameterChangeKeepsConsistency` | src/main/java/de/gerdiproject/harvest/etls/OaiPmhETL.java:238-251 | every parameter change, raising or not, preserves the invariant "bound transformer = binding of current prefix and map" |
| `OaiPmhEtl.HostUrlChangeForgetsOldMap` | src/main/java/de/gerdiproject/harvest/etls/OaiPmhETL.java:246-250 | a host-URL change that does not raise ends in a state independent of the previous map and transformer |
| `OaiPmhEtl.RaisingHostUrlChangeKeepsStaleMap` | src/main/java/de/gerdiproject/harvest/etls/OaiPmhETL.java:246-250 | a raising host-URL change keeps the old non-empty map and transformer, and a later prefix change binds against that stale map |
| `OaiPmhEtl.SecondRequestRecoversFromTransientFailure` | src/main/java/de/gerdiproject/harvest/etls/OaiPmhETL.java:159-161 | when the host-URL change's first request fails and the second one advertises formats, the change ends with the second answer's map and its binding |
| `OaiPmhEtl.SchemaUrlMapFrom` | src/main/java/de/gerdiproject/harvest/etls/OaiPmhETL.java:279-283 | succeeds iff every entry has both elements; the keys are exactly the advertised prefixes |
| `OaiPmhEtl.LaterEntryOverwrites` | src/main/java/de/gerdiproject/harvest/etls/OaiPmhETL.java:279-281 | each prefix maps to the schema of its last advertisement |
| `OaiPmhEtl.CreateSchemaUrlMap` | src/main/java/de/gerdiproject/harvest/etls/OaiPmhETL.java:260-284 | a blank host (no request sent) or a failed fetch gives the empty map; otherwise the map is built from the entries of the numbered request's answer |
| `OaiPmhEtl.GetMetadataFormatsUrl` | src/main/java/de/gerdiproject/harvest/etls/OaiPmhETL.java:324-330 | fails iff the host URL is blank; on success the host URL is recoverable between the pattern's pieces |
| `OaiPmhEtl.ListRecordsQuery` | src/main/java/de/gerdiproject/harvest/etls/OaiPmhETL.java:303-311 | the query is the from segment, then the until segment, then the prefix segment, and nothing else; each bound's segment is its key and value, or empty when the bound is blank |
| `OaiPmhEtl.NullAndEmptyBoundsAgree` | src/main/java/de/gerdiproject/harvest/etls/OaiPmhETL.java:305-309 | a null bound and an empty bound give the same query |
| `OaiPmhEtl.GetListRecordsUrl` | src/main/java/de/gerdiproject/harvest/etls/OaiPmhETL.java:295-314 | fails on a blank host before it looks at the prefix; succeeds iff both are set; on success fills the pattern with host and query |
| `OaiPmhEtl.TwoFormatRepository` | src/main/java/de/gerdiproject/harvest/etls/OaiPmhETL.java:195-233 | with `oai_dc` and `iso19139` advertised and supported, `iso19139` binds the ISO transformer; `bogus` is repository-unsupported with both prefixes suggested |
| `Iso19139Strategy.HarvestRecord` | src/main/java/de/gerdiproject/harvest/oaipmh/strategies/impl/OaiPmhIso19139Strategy.java:63-94 | no document iff the first child is marked deleted; no children or no metadata is an error; otherwise the metadata's document |
| `Iso19139Strategy.BuildDocument` | src/main/java/de/gerdiproject/harvest/oaipmh/strategies/impl/OaiPmhIso19139Strategy.java:84-249 | fixed repository identifier; the identifier is required; creators = [publisher] and publisher set together; resource type always Dataset; at most one Abstract description; dates and geolocations set only when non-empty; no other field |
| `Iso19139Strategy.ParseDates` | src/main/java/de/gerdiproject/harvest/oaipmh/strategies/impl/OaiPmhIso19139Strategy.java:277-293 | a date is kept iff its type code is mapped, and it carries the mapped type |
| `Iso19139Strategy.ParsedDatesKeepDocumentOrder` | src/main/java/de/gerdiproject/harvest/oaipmh/strategies/impl/OaiPmhIso19139Strategy.java:282-290 | the k-th kept date is built from the k-th block with a mapped type code, in increasing document order |
| `Iso19139Strategy.FirstIssued` | src/main/java/de/gerdiproject/harvest/oaipmh/strategies/impl/OaiPmhIso19139Strategy.java:221-226 | yields the earliest Issued date, and none iff no date is Issued |
| `Iso19139Strategy.DatestampYear` | src/main/java/de/gerdiproject/harvest/oaipmh/strategies/impl/OaiPmhIso19139Strategy.java:135-149 | a year iff the first datestamp parses, narrowed to short |
| `Iso19139Strategy.PublicationYear` | src/main/java/de/gerdiproject/harvest/oaipmh/strategies/impl/OaiPmhIso19139Strategy.java:216-228 | the first Issued date overrides the datestamp year, and later Issued dates are ignored; an unparseable first Issued date is an error |
| `Iso19139Strategy.FirstIssuedBlockSetsYear` | src/main/java/de/gerdiproject/harvest/oaipmh/strategies/impl/OaiPmhIso19139Strategy.java:216-228 | for the first date block whose type code maps to Issued, its year narrowed to short overrides the datestamp year set at lines 135-149, whatever the datestamps say, and an unparseable value fails the record |
| `Iso19139Strategy.ResearchDataOf` | src/main/java/de/gerdiproject/harvest/oaipmh/strategies/impl/OaiPmhIso19139Strategy.java:168-187 | one entry iff the URL is well-formed and a title exists; it is labelled with the first title |
| `Iso19139Strategy.GeoLocationOf` | src/main/java/de/gerdiproject/harvest/oaipmh/strategies/impl/OaiPmhIso19139Strategy.java:307-333 | no geolocation iff an edge does not parse; a point at (west, south) iff west == east and south == north under Java `==`; otherwise a box of the four edges |
| `Iso19139Strategy.NaNEdgeMakesBox` | src/main/java/de/gerdiproject/harvest/oaipmh/strategies/impl/OaiPmhIso19139Strategy.java:327-331 | a NaN west or south edge never yields a point |
| `Iso19139Strategy.ParseGeoLocations` | src/main/java/de/gerdiproject/harvest/oaipmh/strategies/impl/OaiPmhIso19139Strategy.java:302-337 | exactly the blocks whose edges all parse contribute; unparseable blocks are skipped |
| `Iso19139Strategy.GeoLocationsKeepDocumentOrder` | src/main/java/de/gerdiproject/harvest/oaipmh/strategies/impl/OaiPmhIso19139Strategy.java:307-334 | the k-th geolocation is built from the k-th block whose edges all parse, in increasing document order |
| `DublinCoreStrategy.Tombstone` | src/main/java/de/gerdiproject/harvest/oaipmh/strategies/impl/OaiPmhDublinCoreStrategy.java:106-116 | a deleted record's document holds only version "deleted", the identifier and [Updated(datestamp)] |
| `DublinCoreStrategy.HarvestRecord` | src/main/java/de/gerdiproject/harvest/oaipmh/strategies/impl/OaiPmhDublinCoreStrategy.java:59-116 | header identifier and datestamp are required before the deleted check; the result is a tombstone iff the record is deleted; the identifier is always the header's; the dates always start with Updated(datestamp) |
| `DublinCoreStrategy.BuildDocument` | src/main/java/de/gerdiproject/harvest/oaipmh/strategies/impl/OaiPmhDublinCoreStrategy.java:119-230 | requires a dc:date; a parseable first date gives the publication year and an Available date after Updated, an unparseable one gives neither; contributors are contact persons, descriptions abstracts; related identifiers are DOI / IsReferencedBy and set iff non-empty |
| `DublinCoreStrategy.DocumentKeepsElementTexts` | src/main/java/de/gerdiproject/harvest/oaipmh/strategies/impl/OaiPmhDublinCoreStrategy.java:132-216 | reading the document back yields exactly the type, creator, contributor, title, description, identifier, subject and DOI texts, in order |
| `DublinCoreStrategy.IdentifierLinks` | src/main/java/de/gerdiproject/harvest/oaipmh/strategies/impl/OaiPmhDublinCoreStrategy.java:186-196 | one ViewURL link per identifier, with the identifier as URL |
| `DublinCoreStrategy.IdentifierLinkNumbers` | src/main/java/de/gerdiproject/harvest/oaipmh/strategies/impl/OaiPmhDublinCoreStrategy.java:188-196 | the i-th link is named "Identifier" followed by the decimal rendering of the number of identifiers minus i, with no leading zero |
| `DublinCoreStrategy.IdentifierLinkNamesDistinct` | src/main/java/de/gerdiproject/harvest/oaipmh/strategies/impl/OaiPmhDublinCoreStrategy.java:190-195 | no two identifier links share a name |
| `JavaValues.ToShort` | src/main/java/de/gerdiproject/harvest/oaipmh/strategies/impl/OaiPmhIso19139Strategy.java:148 | the `(short)` cast lands in the short range, is congruent mod 2^16, and leaves short-range years unchanged |
| `JavaValues.DoubleEquals` | src/main/java/de/gerdiproject/harvest/oaipmh/strategies/impl/OaiPmhIso19139Strategy.java:328 | Java `==` on doubles holds iff the values are equal and not NaN |
| `JavaValues.NatToString` | src/main/java/de/gerdiproject/harvest/oaipmh/strategies/impl/OaiPmhDublinCoreStrategy.java:192 | the decimal rendering of a counter is all digits, non-empty, and has no leading zero |
| `JavaValues.DecimalRoundTrip` | src/main/java/de/gerdiproject/harvest/oaipmh/strategies/impl/OaiPmhDublinCoreStrategy.java:192 | reading the decimal rendering back gives the number |
| `Lists.FilterMap` | src/main/java/de/gerdiproject/harvest/oaipmh/strategies/impl/OaiPmhIso19139Strategy.java:307-334 | a convert-or-skip loop keeps exactly the convertible elements' conversions |
| `Lists.KeptIndices` | src/main/java/de/gerdiproject/harvest/oaipmh/strategies/impl/OaiPmhIso19139Strategy.java:282-290 | the kept positions increase and are exactly the convertible ones |
| `Lists.FilterMapFollowsKeptIndices` | src/main/java/de/gerdiproject/harvest/oaipmh/strategies/impl/OaiPmhIso19139Strategy.java:307-334 | the k-th kept result is the conversion of the k-th kept position |
| `Lists.FilterMapLength` | src/main/java/de/gerdiproject/harvest/oaipmh/strategies/impl/OaiPmhIso19139Strategy.java:307-334 | the loop keeps exactly one result per convertible position |

## Left out

- HTTP: the request in `createSchemaUrlMap` is the `fetch` parameter, indexed by URL and request number. Its failure modes collapse to `FetchFailed`.
- `getRepositoryName` is not modelled. It combines an HTTP request with a pattern defined in a file that is not part of this model.
- Event listeners, parameter registration and the mapping-function plumbing are not modelled.
- Extractor creation and `extractor.init` on a host-URL change are not modelled.
- Logging is not modelled.
- `getResumptionUrl` and `getLogoUrl` are trivial getters and are not modelled.
- What the parameter registry does with a value its mapping function rejects is not part of this model. `MapStringToMetadataPrefix` models only the mapping function.
- Error-message text is left out. The constant strings live in files that are not part of this model, and the suggestion is rendered from a hash set in unspecified order. Errors are structured instead: kind plus the set of allowed values.
- A catalogue factory is assumed to return a transformer and never throw. Transformer instances are identified by their kind.
- jsoup selection is not modelled. Records hold the already-selected texts, and `Elements.text()` joining is part of that pre-selection.
- xs:dateTime parsing, lenient `SimpleDateFormat` parsing, `Double.parseDouble` and `java.net.URL` are uninterpreted function parameters.
- `Config.dateTimeYear` and `parseDate` return the `Calendar.YEAR` value directly. Time zones and the calendar's lenient roll-over are not modelled.
- Positive and negative zero are one `JavaDouble`. `==` cannot tell them apart, but the sign of a zero stored in a point or box is not kept.
- The identifier type that the DataCite `Identifier` constructor assigns is not modelled.
- `DublinCoreStrategy.BuildDocument` sets formats, creators, contributors, titles, descriptions, subjects and web links even when empty, and related identifiers only when non-empty. The ISO strategy sets all six of its lists only when non-empty, and the model does the same. Whether the DataCite library drops empty lists is not part of this model.
- Concurrency (publishing a new binding atomically) is not modelled. The state functions are pure.
- `DublinCoreStrategy.BuildDocument`: its own contract gives the creator, title, description and subject lists only as lengths plus the fixed types. Their contents, in order, are stated by `DublinCoreStrategy.DocumentKeepsElementTexts`.
- `OaiPmhEtl.OnParameterChanged`: the superclass's `onParameterChanged`, which runs first, is not part of this model. It is assumed to leave the schema map and the transformer alone, so a change of any parameter other than the metadata prefix and the host URL changes nothing here.
