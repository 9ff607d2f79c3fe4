/** The ISO 19139 record strategy: turns one OAI-PMH record whose metadata is an
    ISO 19139 document into a DataCite-like document, or into no document at all
    when the record header is marked deleted (section 2.5.1 of OAI-PMH 2.0).

    A raw record is given as the texts the strategy's element selections yield:
    each `seq<string>` lists the texts of all matching elements in document order,
    of which the strategy only ever reads the first. */
module Iso19139Strategy {
  import opened Wrappers
  import opened Lists
  import opened JavaValues
  import opened DataCite

  /** One date block: the text of its date-type code and of its date. */
  datatype DateBlock = DateBlock(typeToken: string, value: string)

  /** One geographic bounding-box block: the texts of its four edges. */
  datatype GeoBlock = GeoBlock(west: string, east: string, south: string, north: string)

  /** The selections made inside the ISO 19139 metadata element. */
  datatype Metadata = Metadata(
    identifiers: seq<string>,
    publishers: seq<string>,
    titles: seq<string>,
    datestamps: seq<string>,
    resourceTypes: seq<string>,
    researchDataUrls: seq<string>,
    descriptions: seq<string>,
    dates: seq<DateBlock>,
    geoLocations: seq<GeoBlock>)

  /** A raw record: the status attribute of its first child (`None` when the record
      has no child; `Some("")` when the attribute is absent) and its first metadata
      element, if any. */
  datatype Record = Record(firstChildStatus: Option<string>, metadata: Option<Metadata>)

  /** The strategy's constants and the library calls it relies on:
      - `deletedStatus`: the status value that marks a deleted record;
      - `repositoryIdentifier`: the fixed repository identifier;
      - `dateTypes`: the map from ISO date-type codes to DataCite date types;
      - `dateTimeYear`: the year of an xs:dateTime text, `None` when it does not parse;
      - `parseDouble`: `Double.parseDouble`, `None` when it throws;
      - `isWellFormedUrl`: whether `new URL(text)` succeeds. */
  datatype Config = Config(
    deletedStatus: string,
    repositoryIdentifier: string,
    dateTypes: map<string, DateType>,
    dateTimeYear: string -> Option<int>,
    parseDouble: string -> Option<JavaDouble>,
    isWellFormedUrl: string -> bool)

  // ---------------------------------------------------------------------------
  // Dates and publication year
  // ---------------------------------------------------------------------------

  /** The date of a block whose type code is mapped, none for any other block. */
  function DateOf(b: DateBlock, dateTypes: map<string, DateType>): Option<Date>
  {
    if b.typeToken in dateTypes then Some(Date(b.value, dateTypes[b.typeToken])) else None
  }

  function DateParser(dateTypes: map<string, DateType>): DateBlock -> Option<Date>
  {
    b => DateOf(b, dateTypes)
  }

  /** `parseDates`: the dates of the blocks whose type code is mapped; blocks with
      an unknown code are dropped silently. */
  function ParseDates(blocks: seq<DateBlock>, dateTypes: map<string, DateType>): (r: seq<Date>)
    ensures forall d :: d in r ==>
              exists i :: 0 <= i < |blocks| && blocks[i].typeToken in dateTypes
                          && d == Date(blocks[i].value, dateTypes[blocks[i].typeToken])
    ensures forall i :: 0 <= i < |blocks| && blocks[i].typeToken in dateTypes ==>
              Date(blocks[i].value, dateTypes[blocks[i].typeToken]) in r
    ensures forall d :: d in r ==> d.dateType in dateTypes.Values
  {
    FilterMap(blocks, DateParser(dateTypes))
  }

  /** The dates keep document order: the k-th date comes from the k-th block with
      a mapped type code (whose positions `KeptIndices` lists in increasing order). */
  lemma ParsedDatesKeepDocumentOrder(blocks: seq<DateBlock>, dateTypes: map<string, DateType>, k: nat)
    requires k < |ParseDates(blocks, dateTypes)|
    ensures var ix := KeptIndices(blocks, DateParser(dateTypes));
            && k < |ix| && blocks[ix[k]].typeToken in dateTypes
            && ParseDates(blocks, dateTypes)[k] == Date(blocks[ix[k]].value, dateTypes[blocks[ix[k]].typeToken])
  {
    FilterMapLength(blocks, DateParser(dateTypes));
    FilterMapFollowsKeptIndices(blocks, DateParser(dateTypes), k);
  }

  /** The first date of type Issued, if any. */
  function FirstIssued(dates: seq<Date>): (r: Option<Date>)
    ensures r.None? <==> forall i :: 0 <= i < |dates| ==> dates[i].dateType != Issued
    ensures r.Some? ==>
              exists i :: 0 <= i < |dates| && dates[i] == r.value && dates[i].dateType == Issued
                          && forall j :: 0 <= j < i ==> dates[j].dateType != Issued
    decreases |dates|
  {
    if |dates| == 0 then None
    else if dates[0].dateType == Issued then Some(dates[0])
    else
      var r := FirstIssued(dates[1..]);
      assert forall i :: 1 <= i < |dates| ==> dates[1..][i - 1] == dates[i];
      r
  }

  /** The year of the first datestamp, narrowed to `short`; none when there is no
      datestamp or it is not an xs:dateTime. */
  function DatestampYear(cfg: Config, datestamps: seq<string>): (y: Option<int>)
    ensures y.Some? <==> |datestamps| != 0 && cfg.dateTimeYear(datestamps[0]).Some?
    ensures y.Some? ==> y.value == ToShort(cfg.dateTimeYear(datestamps[0]).value)
  {
    if |datestamps| == 0 then None
    else match cfg.dateTimeYear(datestamps[0])
      case Some(year) => Some(ToShort(year))
      case None => None
  }

  /** The publication year: the datestamp year, overwritten by the year of the
      first Issued date; later Issued dates are ignored. An Issued date that is not
      an xs:dateTime raises an error (`OaiPmhIso19139Strategy` does not catch it). */
  function PublicationYear(cfg: Config, datestamps: seq<string>, dates: seq<Date>): (r: Result<Option<int>, RecordError>)
    ensures (forall i :: 0 <= i < |dates| ==> dates[i].dateType != Issued) ==>
              r == Success(DatestampYear(cfg, datestamps))
    ensures forall i :: 0 <= i < |dates| && dates[i].dateType == Issued
                        && (forall j :: 0 <= j < i ==> dates[j].dateType != Issued) ==>
              (cfg.dateTimeYear(dates[i].value).Some? ==>
                 r == Success(Some(ToShort(cfg.dateTimeYear(dates[i].value).value))))
              && (cfg.dateTimeYear(dates[i].value).None? ==>
                 r == Failure(UnparseableIssuedDate(dates[i].value)))
  {
    match FirstIssued(dates)
    case None => Success(DatestampYear(cfg, datestamps))
    case Some(issued) =>
      match cfg.dateTimeYear(issued.value)
      case Some(year) => Success(Some(ToShort(year)))
      case None => Failure(UnparseableIssuedDate(issued.value))
  }

  // ---------------------------------------------------------------------------
  // Geolocations
  // ---------------------------------------------------------------------------

  /** The geolocation of one block: none when an edge does not parse; a point at
      (west, south) when west == east and south == north under Java's `==`; a box
      with the four edges otherwise. */
  function GeoLocationOf(b: GeoBlock, parse: string -> Option<JavaDouble>): (r: Option<GeoLocation>)
    ensures r.Some? <==>
              parse(b.west).Some? && parse(b.east).Some? && parse(b.south).Some? && parse(b.north).Some?
    ensures r.Some? ==>
              var w, e, s, n := parse(b.west).value, parse(b.east).value, parse(b.south).value, parse(b.north).value;
              && (r.value.PointLocation? <==> w == e && s == n && !w.NaN? && !s.NaN?)
              && (r.value.PointLocation? ==> r.value == PointLocation(w, s))
              && (r.value.BoxLocation? ==> r.value == BoxLocation(w, e, s, n))
  {
    match (parse(b.west), parse(b.east), parse(b.south), parse(b.north))
    case (Some(w), Some(e), Some(s), Some(n)) =>
      if DoubleEquals(w, e) && DoubleEquals(s, n) then Some(PointLocation(w, s))
      else Some(BoxLocation(w, e, s, n))
    case _ => None
  }

  function GeoParser(parse: string -> Option<JavaDouble>): GeoBlock -> Option<GeoLocation>
  {
    b => GeoLocationOf(b, parse)
  }

  /** `parseGeoLocations`: the geolocations of the blocks whose four edges parse;
      a block with any unparseable edge is skipped and the others are kept. */
  function ParseGeoLocations(blocks: seq<GeoBlock>, parse: string -> Option<JavaDouble>): (r: seq<GeoLocation>)
    ensures forall g :: g in r ==> exists i :: 0 <= i < |blocks| && GeoLocationOf(blocks[i], parse) == Some(g)
    ensures forall i :: 0 <= i < |blocks| && GeoLocationOf(blocks[i], parse).Some? ==>
              GeoLocationOf(blocks[i], parse).value in r
    ensures |r| <= |blocks|
  {
    FilterMap(blocks, GeoParser(parse))
  }

  /** The geolocations keep document order: the k-th one comes from the k-th block
      whose edges all parse (whose positions `KeptIndices` lists in increasing order). */
  lemma GeoLocationsKeepDocumentOrder(blocks: seq<GeoBlock>, parse: string -> Option<JavaDouble>, k: nat)
    requires k < |ParseGeoLocations(blocks, parse)|
    ensures var ix := KeptIndices(blocks, GeoParser(parse));
            && k < |ix|
            && GeoLocationOf(blocks[ix[k]], parse) == Some(ParseGeoLocations(blocks, parse)[k])
  {
    FilterMapLength(blocks, GeoParser(parse));
    FilterMapFollowsKeptIndices(blocks, GeoParser(parse), k);
  }

  /** A NaN edge never yields a point: Java's `NaN == NaN` is false. */
  lemma NaNEdgeMakesBox(b: GeoBlock, parse: string -> Option<JavaDouble>)
    requires parse(b.west) == Some(NaN) || parse(b.south) == Some(NaN)
    ensures GeoLocationOf(b, parse).None? || GeoLocationOf(b, parse).value.BoxLocation?
  {
  }

  // ---------------------------------------------------------------------------
  // The record
  // ---------------------------------------------------------------------------

  /** The research-data list: one entry, the first research-data URL labelled with
      the first title, when that URL is well-formed and a title exists; none otherwise. */
  function ResearchDataOf(cfg: Config, md: Metadata): (r: Option<seq<ResearchData>>)
    ensures r.Some? <==>
              |md.researchDataUrls| != 0 && cfg.isWellFormedUrl(md.researchDataUrls[0]) && |md.titles| != 0
    ensures r.Some? ==> r.value == [ResearchData(md.researchDataUrls[0], md.titles[0])]
  {
    if |md.researchDataUrls| != 0 && cfg.isWellFormedUrl(md.researchDataUrls[0]) && |md.titles| != 0
    then Some([ResearchData(md.researchDataUrls[0], md.titles[0])])
    else None
  }

  /** The document of a non-deleted record's metadata. Fails when there is no
      identifier element or when the first Issued date is not an xs:dateTime;
      every other missing or malformed element only leaves its field unset. */
  function BuildDocument(cfg: Config, md: Metadata): (r: Result<Document, RecordError>)
    ensures |md.identifiers| == 0 ==> r == Failure(MissingIdentifier)
    ensures |md.identifiers| != 0 ==>
              var year := PublicationYear(cfg, md.datestamps, ParseDates(md.dates, cfg.dateTypes));
              (r.Failure? <==> year.Failure?) && (r.Failure? ==> r.error == year.error)
    ensures r.Success? ==>
              var d := r.value;
              var dates := ParseDates(md.dates, cfg.dateTypes);
              var geo := ParseGeoLocations(md.geoLocations, cfg.parseDouble);
              && d.sourceId == Some(cfg.repositoryIdentifier)
              && d.repositoryIdentifier == Some(cfg.repositoryIdentifier)
              && d.identifier == Some(Identifier(md.identifiers[0]))
              && (d.creators.Some? <==> |md.publishers| != 0)
              && (d.publisher.Some? <==> |md.publishers| != 0)
              && (|md.publishers| != 0 ==>
                    d.creators == Some([Creator(md.publishers[0])]) && d.publisher == Some(md.publishers[0]))
              && (d.titles.Some? <==> |md.titles| != 0)
              && (|md.titles| != 0 ==> d.titles == Some([Title(md.titles[0])]))
              && d.publicationYear == PublicationYear(cfg, md.datestamps, dates).value
              && (d.resourceType.Some? <==> |md.resourceTypes| != 0)
              && (d.resourceType.Some? ==>
                    d.resourceType.value == ResourceType(md.resourceTypes[0], Dataset))
              && d.researchData == ResearchDataOf(cfg, md)
              && (d.dates.Some? <==> |dates| != 0)
              && (d.dates.Some? ==> d.dates.value == dates)
              && (d.descriptions.Some? <==> |md.descriptions| != 0)
              && (d.descriptions.Some? ==>
                    d.descriptions.value == [Description(md.descriptions[0], Abstract)])
              && (d.geoLocations.Some? <==> |geo| != 0)
              && (d.geoLocations.Some? ==> d.geoLocations.value == geo)
              && d.version.None? && d.contributors.None? && d.subjects.None?
              && d.formats.None? && d.webLinks.None? && d.relatedIdentifiers.None?
  {
    if |md.identifiers| == 0 then Failure(MissingIdentifier)
    else
      var dates := ParseDates(md.dates, cfg.dateTypes);
      match PublicationYear(cfg, md.datestamps, dates)
      case Failure(e) => Failure(e)
      case Success(year) =>
        var geo := ParseGeoLocations(md.geoLocations, cfg.parseDouble);
        Success(EmptyDocument.(
          sourceId := Some(cfg.repositoryIdentifier),
          repositoryIdentifier := Some(cfg.repositoryIdentifier),
          identifier := Some(Identifier(md.identifiers[0])),
          creators := if |md.publishers| != 0 then Some([Creator(md.publishers[0])]) else None,
          titles := if |md.titles| != 0 then Some([Title(md.titles[0])]) else None,
          publisher := First(md.publishers),
          publicationYear := year,
          resourceType := if |md.resourceTypes| != 0
                          then Some(ResourceType(md.resourceTypes[0], Dataset)) else None,
          researchData := ResearchDataOf(cfg, md),
          dates := if |dates| != 0 then Some(dates) else None,
          descriptions := if |md.descriptions| != 0
                          then Some([Description(md.descriptions[0], Abstract)]) else None,
          geoLocations := if |geo| != 0 then Some(geo) else None))
  }

  /** `harvestRecord`: no document (`Success(None)`, the Java strategy's `null`) for a
      record whose first child is marked deleted; otherwise the document of its
      metadata. A record without children or without metadata raises an error. */
  function HarvestRecord(cfg: Config, rec: Record): (r: Result<Option<Document>, RecordError>)
    ensures rec.firstChildStatus.None? ==> r == Failure(NoChildElements)
    ensures r == Success(None) <==> rec.firstChildStatus == Some(cfg.deletedStatus)
    ensures rec.firstChildStatus.Some? && rec.firstChildStatus != Some(cfg.deletedStatus) ==>
              && (rec.metadata.None? ==> r == Failure(MissingMetadata))
              && (rec.metadata.Some? ==>
                    match BuildDocument(cfg, rec.metadata.value)
                    case Success(d) => r == Success(Some(d))
                    case Failure(e) => r == Failure(e))
  {
    match rec.firstChildStatus
    case None => Failure(NoChildElements)
    case Some(status) =>
      if status == cfg.deletedStatus then Success(None)
      else match rec.metadata
        case None => Failure(MissingMetadata)
        case Some(md) =>
          match BuildDocument(cfg, md)
          case Success(d) => Success(Some(d))
          case Failure(e) => Failure(e)
  }

  /** The datestamp-then-Issued precedence on the raw date blocks: when block `j`
      is the first block whose type code maps to Issued, its year, narrowed to
      `short`, is the publication year whatever the datestamps say, and a value
      that is not an xs:dateTime fails the record. */
  lemma FirstIssuedBlockSetsYear(cfg: Config, datestamps: seq<string>, blocks: seq<DateBlock>, j: nat)
    requires j < |blocks| && blocks[j].typeToken in cfg.dateTypes
    requires cfg.dateTypes[blocks[j].typeToken] == Issued
    requires forall i :: 0 <= i < j && blocks[i].typeToken in cfg.dateTypes ==>
               cfg.dateTypes[blocks[i].typeToken] != Issued
    ensures var r := PublicationYear(cfg, datestamps, ParseDates(blocks, cfg.dateTypes));
            && (cfg.dateTimeYear(blocks[j].value).Some? ==>
                  r == Success(Some(ToShort(cfg.dateTimeYear(blocks[j].value).value))))
            && (cfg.dateTimeYear(blocks[j].value).None? ==>
                  r == Failure(UnparseableIssuedDate(blocks[j].value)))
  {
    var dates := ParseDates(blocks, cfg.dateTypes);
    var ix := KeptIndices(blocks, DateParser(cfg.dateTypes));
    FilterMapLength(blocks, DateParser(cfg.dateTypes));
    assert DateParser(cfg.dateTypes)(blocks[j]).Some?;
    assert j in ix;
    var k :| 0 <= k < |ix| && ix[k] == j;
    ParsedDatesKeepDocumentOrder(blocks, cfg.dateTypes, k);
    forall l | 0 <= l < k
      ensures dates[l].dateType != Issued
    {
      ParsedDatesKeepDocumentOrder(blocks, cfg.dateTypes, l);
    }
    assert dates[k] == Date(blocks[j].value, Issued);
  }
}
