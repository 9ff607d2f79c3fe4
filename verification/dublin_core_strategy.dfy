/** The Dublin Core record strategy: turns one OAI-PMH record in the `oai_dc`
    format into a DataCite-like document. Unlike the ISO 19139 strategy it answers
    a deleted record with a tombstone document rather than with no document: this
    dialect reports deletion as information.

    A raw record is given as the texts its element selections yield, each list in
    document order. */
module DublinCoreStrategy {
  import opened Wrappers
  import opened JavaValues
  import opened DataCite

  /** The texts of the Dublin Core elements inside the record's metadata. */
  datatype Metadata = Metadata(
    dates: seq<string>,         // dc:date
    types: seq<string>,         // dc:type
    creators: seq<string>,      // dc:creator
    contributors: seq<string>,  // dc:contributor
    titles: seq<string>,        // dc:title
    descriptions: seq<string>,  // dc:description
    identifiers: seq<string>,   // dc:identifier
    subjects: seq<string>,      // dc:subject
    dois: seq<string>)          // DOI

  /** A raw record: the status attribute of its first child (`None` when the
      record has no child, `Some("")` when the attribute is absent), the header's
      identifier and datestamp texts, and the metadata. */
  datatype Record = Record(
    firstChildStatus: Option<string>,
    headerIdentifiers: seq<string>,
    headerDatestamps: seq<string>,
    metadata: Metadata)

  /** The status value that marks a deleted record. */
  const DeletedStatus: string := "deleted"

  /** The name of the k-th identifier link is this prefix followed by k. */
  const IdentifierLinkPrefix: string := "Identifier"

  /** The document standing for a deleted record. */
  function Tombstone(identifier: string, datestamp: string): (d: Document)
    ensures IsTombstone(d)
    ensures d.identifier == Some(Identifier(identifier))
    ensures d.dates == Some([Date(datestamp, Updated)])
  {
    EmptyDocument.(
      version := Some(DeletedVersion),
      identifier := Some(Identifier(identifier)),
      dates := Some([Date(datestamp, Updated)]))
  }

  // ---------------------------------------------------------------------------
  // Field mappings
  // ---------------------------------------------------------------------------

  function Creators(texts: seq<string>): seq<Creator>
  {
    seq(|texts|, i requires 0 <= i < |texts| => Creator(texts[i]))
  }

  /** Every contributor is a contact person. */
  function Contributors(texts: seq<string>): seq<Contributor>
  {
    seq(|texts|, i requires 0 <= i < |texts| => Contributor(texts[i], ContactPerson))
  }

  function Titles(texts: seq<string>): seq<Title>
  {
    seq(|texts|, i requires 0 <= i < |texts| => Title(texts[i]))
  }

  /** Every description is an abstract. */
  function Descriptions(texts: seq<string>): seq<Description>
  {
    seq(|texts|, i requires 0 <= i < |texts| => Description(texts[i], Abstract))
  }

  function Subjects(texts: seq<string>): seq<Subject>
  {
    seq(|texts|, i requires 0 <= i < |texts| => Subject(texts[i]))
  }

  /** One view link per identifier; the names count down from the number of
      identifiers to 1. */
  function IdentifierLinks(ids: seq<string>): (links: seq<WebLink>)
    ensures |links| == |ids|
    ensures forall i :: 0 <= i < |ids| ==> links[i].url == ids[i] && links[i].linkType == ViewURL
  {
    seq(|ids|, i requires 0 <= i < |ids| =>
      WebLink(ids[i], IdentifierLinkPrefix + NatToString(|ids| - i), ViewURL))
  }

  /** Every DOI element is a DOI by which the record is referenced. */
  function DoiReferences(dois: seq<string>): seq<RelatedIdentifier>
  {
    seq(|dois|, i requires 0 <= i < |dois| => RelatedIdentifier(dois[i], DOI, IsReferencedBy))
  }

  /** The number in the name of the i-th identifier link is the number of
      identifiers minus i: the first link carries the highest number, the last one 1. */
  lemma IdentifierLinkNumbers(ids: seq<string>, i: nat)
    requires i < |ids|
    ensures var name := IdentifierLinks(ids)[i].name;
            && |name| > |IdentifierLinkPrefix|
            && name[..|IdentifierLinkPrefix|] == IdentifierLinkPrefix
            && name[|IdentifierLinkPrefix|..] == NatToString(|ids| - i)
            && IsDigits(name[|IdentifierLinkPrefix|..])
            && DecimalValue(name[|IdentifierLinkPrefix|..]) == |ids| - i
  {
    var name := IdentifierLinks(ids)[i].name;
    assert name[|IdentifierLinkPrefix|..] == NatToString(|ids| - i);
    DecimalRoundTrip(|ids| - i);
  }

  /** No two identifier links share a name. */
  lemma IdentifierLinkNamesDistinct(ids: seq<string>, i: nat, j: nat)
    requires i < |ids| && j < |ids| && i != j
    ensures IdentifierLinks(ids)[i].name != IdentifierLinks(ids)[j].name
  {
    IdentifierLinkNumbers(ids, i);
    IdentifierLinkNumbers(ids, j);
  }

  // ---------------------------------------------------------------------------
  // The record
  // ---------------------------------------------------------------------------

  /** The document of a non-deleted record, given its header identifier and
      datestamp. The first dc:date is required (`OaiPmhDublinCoreStrategy` reads
      it without a check); when it parses as a `yyyy-MM-dd` date its year becomes
      the publication year and it is added as the Available date after the
      Updated one. */
  function BuildDocument(parseDate: string -> Option<int>, identifier: string, datestamp: string, md: Metadata)
    : (r: Result<Document, RecordError>)
    ensures r.Failure? <==> |md.dates| == 0
    ensures r.Failure? ==> r.error == MissingPublicationDate
    ensures r.Success? ==>
              var d := r.value;
              && d.identifier == Some(Identifier(identifier))
              && d.version.None?
              && (parseDate(md.dates[0]).Some? ==>
                    && d.publicationYear == Some(ToShort(parseDate(md.dates[0]).value))
                    && d.dates == Some([Date(datestamp, Updated), Date(md.dates[0], Available)]))
              && (parseDate(md.dates[0]).None? ==>
                    d.publicationYear.None? && d.dates == Some([Date(datestamp, Updated)]))
              && d.formats == Some(md.types)
              && d.creators.Some? && |d.creators.value| == |md.creators|
              && d.contributors.Some? && |d.contributors.value| == |md.contributors|
              && (forall c :: c in d.contributors.value ==> c.contributorType == ContactPerson)
              && d.titles.Some? && |d.titles.value| == |md.titles|
              && d.descriptions.Some? && |d.descriptions.value| == |md.descriptions|
              && (forall e :: e in d.descriptions.value ==> e.descriptionType == Abstract)
              && d.subjects.Some? && |d.subjects.value| == |md.subjects|
              && d.webLinks == Some(IdentifierLinks(md.identifiers))
              && (d.relatedIdentifiers.Some? <==> |md.dois| != 0)
              && (forall x :: d.relatedIdentifiers.Some? && x in d.relatedIdentifiers.value ==>
                    x.identifierType == DOI && x.relationType == IsReferencedBy)
              && d.sourceId.None? && d.repositoryIdentifier.None? && d.publisher.None?
              && d.resourceType.None? && d.geoLocations.None? && d.researchData.None?
  {
    if |md.dates| == 0 then Failure(MissingPublicationDate)
    else
      var updated := Date(datestamp, Updated);
      var published := parseDate(md.dates[0]);
      var references := DoiReferences(md.dois);
      Success(EmptyDocument.(
        identifier := Some(Identifier(identifier)),
        publicationYear := if published.Some? then Some(ToShort(published.value)) else None,
        dates := Some(if published.Some? then [updated, Date(md.dates[0], Available)] else [updated]),
        formats := Some(md.types),
        creators := Some(Creators(md.creators)),
        contributors := Some(Contributors(md.contributors)),
        titles := Some(Titles(md.titles)),
        descriptions := Some(Descriptions(md.descriptions)),
        webLinks := Some(IdentifierLinks(md.identifiers)),
        subjects := Some(Subjects(md.subjects)),
        relatedIdentifiers := if |references| != 0 then Some(references) else None))
  }

  /** `harvestRecord`. The header identifier and datestamp are required of every
      record, deleted or not (`OaiPmhDublinCoreStrategy` reads them without a
      check); a deleted record yields a tombstone, any other the document of its
      metadata. */
  function HarvestRecord(parseDate: string -> Option<int>, rec: Record): (r: Result<Document, RecordError>)
    ensures rec.firstChildStatus.None? ==> r == Failure(NoChildElements)
    ensures rec.firstChildStatus.Some? && |rec.headerIdentifiers| == 0 ==> r == Failure(MissingHeaderIdentifier)
    ensures rec.firstChildStatus.Some? && |rec.headerIdentifiers| != 0 && |rec.headerDatestamps| == 0 ==>
              r == Failure(MissingHeaderDatestamp)
    ensures rec.firstChildStatus == Some(DeletedStatus) && |rec.headerIdentifiers| != 0 && |rec.headerDatestamps| != 0 ==>
              r == Success(Tombstone(rec.headerIdentifiers[0], rec.headerDatestamps[0]))
    ensures r.Success? ==> (IsTombstone(r.value) <==> rec.firstChildStatus == Some(DeletedStatus))
    ensures r.Success? ==>
              && r.value.identifier == Some(Identifier(rec.headerIdentifiers[0]))
              && r.value.dates.Some? && |r.value.dates.value| != 0
              && r.value.dates.value[0] == Date(rec.headerDatestamps[0], Updated)
    ensures rec.firstChildStatus.Some? && rec.firstChildStatus != Some(DeletedStatus)
            && |rec.headerIdentifiers| != 0 && |rec.headerDatestamps| != 0 ==>
              r == BuildDocument(parseDate, rec.headerIdentifiers[0], rec.headerDatestamps[0], rec.metadata)
  {
    match rec.firstChildStatus
    case None => Failure(NoChildElements)
    case Some(status) =>
      if |rec.headerIdentifiers| == 0 then Failure(MissingHeaderIdentifier)
      else if |rec.headerDatestamps| == 0 then Failure(MissingHeaderDatestamp)
      else if status == DeletedStatus then Success(Tombstone(rec.headerIdentifiers[0], rec.headerDatestamps[0]))
      else BuildDocument(parseDate, rec.headerIdentifiers[0], rec.headerDatestamps[0], rec.metadata)
  }

  // ---------------------------------------------------------------------------
  // Reading the element texts back
  // ---------------------------------------------------------------------------

  function ValuesOr<T>(field: Option<seq<T>>): seq<T>
  {
    if field.Some? then field.value else []
  }

  /** The element texts a document carries, read back field by field; the inverse
      of the one-to-one mappings of `BuildDocument`. */
  function ElementTexts(d: Document): Metadata
  {
    var creators := ValuesOr(d.creators);
    var contributors := ValuesOr(d.contributors);
    var titles := ValuesOr(d.titles);
    var descriptions := ValuesOr(d.descriptions);
    var links := ValuesOr(d.webLinks);
    var subjects := ValuesOr(d.subjects);
    var related := ValuesOr(d.relatedIdentifiers);
    Metadata(
      [],
      ValuesOr(d.formats),
      seq(|creators|, i requires 0 <= i < |creators| => creators[i].name),
      seq(|contributors|, i requires 0 <= i < |contributors| => contributors[i].name),
      seq(|titles|, i requires 0 <= i < |titles| => titles[i].value),
      seq(|descriptions|, i requires 0 <= i < |descriptions| => descriptions[i].text),
      seq(|links|, i requires 0 <= i < |links| => links[i].url),
      seq(|subjects|, i requires 0 <= i < |subjects| => subjects[i].value),
      seq(|related|, i requires 0 <= i < |related| => related[i].value))
  }

  /** Nothing of the type, creator, contributor, title, description, identifier,
      subject and DOI elements is lost or reordered: reading the document back
      gives exactly those texts. Of the dc:date elements only the first is used. */
  lemma DocumentKeepsElementTexts(parseDate: string -> Option<int>, identifier: string, datestamp: string, md: Metadata)
    requires |md.dates| != 0
    ensures BuildDocument(parseDate, identifier, datestamp, md).Success?
    ensures ElementTexts(BuildDocument(parseDate, identifier, datestamp, md).value) == md.(dates := [])
  {
  }
}
