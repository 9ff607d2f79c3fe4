/** The normalized output document (a DataCite-like record with the GeRDI
    extensions the strategies fill in) and the ways a raw record can fail to
    produce one. */
module DataCite {
  import opened Wrappers
  import opened JavaValues

  /** DataCite `dateType` vocabulary. */
  datatype DateType =
    | Accepted | Available | Copyrighted | Collected | Created
    | Issued | Submitted | Updated | Valid

  /** DataCite `descriptionType` vocabulary. */
  datatype DescriptionType =
    | Abstract | Methods | SeriesInformation | TableOfContents | TechnicalInfo

  /** DataCite `resourceTypeGeneral` vocabulary. */
  datatype ResourceTypeGeneral =
    | Audiovisual | Collection | Dataset | Event | Image | InteractiveResource
    | Model | PhysicalObject | Service | Software | Sound | Text | Workflow

  /** DataCite `contributorType` vocabulary. */
  datatype ContributorType =
    | ContactPerson | DataCollector | DataCurator | DataManager | Distributor
    | Editor | HostingInstitution | Producer | ProjectLeader | ProjectManager
    | ProjectMember | RegistrationAgency | RegistrationAuthority | RelatedPerson
    | Researcher | ResearchGroup | RightsHolder | Sponsor | Supervisor
    | WorkPackageLeader

  /** DataCite `relatedIdentifierType` vocabulary. */
  datatype RelatedIdentifierType =
    | ARK | ArXiv | Bibcode | DOI | EAN13 | EISSN | Handle | ISBN | ISSN
    | ISTC | LISSN | LSID | PMID | PURL | UPC | URL | URN

  /** DataCite `relationType` vocabulary. */
  datatype RelationType =
    | IsCitedBy | Cites | IsSupplementTo | IsSupplementedBy | IsContinuedBy
    | Continues | IsNewVersionOf | IsPreviousVersionOf | IsPartOf | HasPart
    | IsReferencedBy | References | IsDocumentedBy | Documents | IsCompiledBy
    | Compiles | IsVariantFormOf | IsOriginalFormOf | IsIdenticalTo
    | HasMetadata | IsMetadataFor | Reviews | IsReviewedBy | IsDerivedFrom
    | IsSourceOf

  /** Kinds of web link of the GeRDI extension. */
  datatype WebLinkType = ViewURL | SourceURL | ProviderLogoURL | ThumbnailURL

  datatype Identifier = Identifier(value: string)
  datatype Creator = Creator(name: string)
  datatype Title = Title(value: string)
  datatype Subject = Subject(value: string)
  datatype Date = Date(value: string, dateType: DateType)
  datatype Description = Description(text: string, descriptionType: DescriptionType)
  datatype ResourceType = ResourceType(value: string, general: ResourceTypeGeneral)
  datatype Contributor = Contributor(name: string, contributorType: ContributorType)
  datatype WebLink = WebLink(url: string, name: string, linkType: WebLinkType)
  datatype RelatedIdentifier =
    RelatedIdentifier(value: string, identifierType: RelatedIdentifierType, relationType: RelationType)

  /** A link to research data, labelled with a title (GeRDI extension). */
  datatype ResearchData = ResearchData(url: string, title: string)

  /** A geolocation is either a point (longitude, latitude) or a bounding box. */
  datatype GeoLocation =
    | PointLocation(longitude: JavaDouble, latitude: JavaDouble)
    | BoxLocation(west: JavaDouble, east: JavaDouble, south: JavaDouble, north: JavaDouble)

  /** The output document: every field is optional (`None` = never set). */
  datatype Document = Document(
    sourceId: Option<string>,
    repositoryIdentifier: Option<string>,
    identifier: Option<Identifier>,
    version: Option<string>,
    creators: Option<seq<Creator>>,
    titles: Option<seq<Title>>,
    publisher: Option<string>,
    publicationYear: Option<int>,
    resourceType: Option<ResourceType>,
    dates: Option<seq<Date>>,
    descriptions: Option<seq<Description>>,
    geoLocations: Option<seq<GeoLocation>>,
    researchData: Option<seq<ResearchData>>,
    contributors: Option<seq<Contributor>>,
    subjects: Option<seq<Subject>>,
    formats: Option<seq<string>>,
    webLinks: Option<seq<WebLink>>,
    relatedIdentifiers: Option<seq<RelatedIdentifier>>)

  /** A freshly constructed document with no field set. */
  const EmptyDocument: Document :=
    Document(None, None, None, None, None, None, None, None, None,
             None, None, None, None, None, None, None, None, None)

  /** The version marker of a document that stands for a deleted record. */
  const DeletedVersion: string := "deleted"

  /** A tombstone: the document of a deleted record carries the deleted marker,
      an identifier and dates, and no other field. */
  predicate IsTombstone(d: Document)
  {
    && d.identifier.Some?
    && d.dates.Some?
    && d == EmptyDocument.(version := Some(DeletedVersion), identifier := d.identifier, dates := d.dates)
  }

  /** Why a raw record produced neither a document nor a deliberate skip: each is
      an exception the Java strategy lets escape from `harvestRecord`. */
  datatype RecordError =
    | NoChildElements                 // the record has no first child to test for "deleted"
    | MissingMetadata                 // ISO 19139: no metadata element
    | MissingIdentifier               // ISO 19139: no identifier element in the metadata
    | UnparseableIssuedDate(value: string)  // ISO 19139: the first Issued date is not an xs:dateTime
    | MissingHeaderIdentifier         // Dublin Core: no identifier in the header
    | MissingHeaderDatestamp          // Dublin Core: no datestamp in the header
    | MissingPublicationDate          // Dublin Core: no dc:date element at all
}
