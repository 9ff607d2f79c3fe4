/** Metadata-prefix negotiation and transformer dispatch of the OAI-PMH ETL.

    A repository advertises (prefix, schema URL) pairs in its answer to the
    `ListMetadataFormats` verb (section 4.4 of the OAI-PMH 2.0 specification).
    The ETL keeps them in a schema map, validates the configured metadata prefix
    against that map and against its own catalogue of supported schema URLs, and
    binds the transformer the catalogue offers for the prefix's schema, or none.
    It also assembles the `ListRecords` request (sections 3.3 and 4.5 of OAI-PMH 2.0).

    The ETL's mutable fields become an immutable `EtlState`; every operation is a
    pure function from the old state to the new one. The HTTP request is the
    `fetch` parameter of the `Environment`, which answers each request the ETL
    sends separately, so a repeated request may get a different answer. */
module OaiPmhEtl {
  import opened Wrappers

  // ---------------------------------------------------------------------------
  // Catalogue, parameters and state
  // ---------------------------------------------------------------------------

  /** The transformers the harvester can build. */
  datatype TransformerKind = Iso19139Transformer | DublinCoreTransformer | OtherTransformer(name: string)

  /** The harvester's catalogue: schema URL -> the transformer its factory builds. */
  type Catalogue = map<string, TransformerKind>

  /** A prefix -> schema URL map as advertised by a repository. */
  type SchemaUrlMap = map<string, string>

  /** A string parameter value; `None` is Java's `null`. */
  type ParameterValue = Option<string>

  /** The `null`-or-empty test `OaiPmhETL` applies to every parameter value. */
  predicate Blank(v: ParameterValue)
  {
    v.None? || |v.value| == 0
  }

  /** The values of the ETL's own string parameters. */
  datatype Parameters = Parameters(
    from: ParameterValue,
    until: ParameterValue,
    hostUrl: ParameterValue,
    metadataPrefix: ParameterValue)

  /** Which parameter a change notification is about; `InheritedKey` stands for the
      parameters a generic ETL registers for itself. */
  datatype ParameterKey = FromKey | UntilKey | HostUrlKey | MetadataPrefixKey | LogoUrlKey | InheritedKey(name: string)

  /** The state of the ETL: its parameters, the schema map, the bound transformer
      (`None` is the `null` transformer) and the number of `ListMetadataFormats`
      requests sent so far, which numbers the next request. */
  datatype EtlState = EtlState(
    params: Parameters,
    schemaUrlMap: SchemaUrlMap,
    transformer: Option<TransformerKind>,
    requestsSent: nat)

  /** A `String.format` pattern with exactly one `%s` and no other conversion. */
  datatype Pattern1 = Pattern1(before: string, after: string)
  {
    function Format(a: string): string
    {
      before + a + after
    }
  }

  /** A `String.format` pattern with exactly two `%s` and no other conversion. */
  datatype Pattern2 = Pattern2(before: string, middle: string, after: string)
  {
    function Format(a: string, b: string): string
    {
      before + a + middle + b + after
    }
  }

  /** The URL patterns and query fragments the ETL assembles requests from. */
  datatype UrlConstants = UrlConstants(
    listRecordsUrl: Pattern2,
    metadataFormatsUrl: Pattern1,
    dateFromQuery: string,
    dateToQuery: string,
    metadataPrefixQuery: string)

  /** One advertised metadata format: the text of its prefix element and of its
      schema element, `None` when the element is missing. */
  datatype FormatEntry = FormatEntry(prefix: Option<string>, schema: Option<string>)

  /** The answer to a `ListMetadataFormats` request: no parseable document, or the
      advertised format entries in document order. */
  datatype FetchResult = FetchFailed | Fetched(formats: seq<FormatEntry>)

  /** What the ETL is given from outside: its constants, its catalogue and the HTTP
      request. `fetch(url, n)` is the answer to the request for `url` when it is
      the `n`-th `ListMetadataFormats` request the ETL sends (counting from 0). */
  datatype Environment = Environment(
    urls: UrlConstants,
    catalogue: Catalogue,
    fetch: (string, nat) -> FetchResult)

  /** The exception that escapes the schema-map loop: an advertised format without
      a prefix or a schema element. */
  datatype EtlError = MissingFormatElement

  // ---------------------------------------------------------------------------
  // Metadata-prefix validation
  // ---------------------------------------------------------------------------

  /** The four rejections of a metadata prefix, in the order they are checked. */
  datatype PrefixErrorKind =
    | NoMetadataPrefix
    | NoHostUrl
    | RepositoryUnsupported(prefix: string)
    | HarvesterUnsupported(prefix: string)

  /** A rejection together with the "allowed values" suggestion appended to its
      message; `None` when no suggestion is appended. The suggestion is a set:
      `checkMetadataPrefix` renders a hash set, whose order is unspecified. */
  datatype PrefixError = PrefixError(kind: PrefixErrorKind, allowedValues: Option<set<string>>)

  /** The prefixes both sides support: advertised by the repository with a schema
      URL the catalogue knows. */
  function AllowedValues(m: SchemaUrlMap, catalogue: Catalogue): (r: set<string>)
    ensures forall p :: p in r <==> p in m && m[p] in catalogue
    ensures r <= m.Keys
  {
    set p | p in m && m[p] in catalogue
  }

  /** Validates a metadata prefix. The checks run in a fixed order — empty prefix,
      empty schema map, prefix not advertised, schema not in the catalogue — and a
      prefix passes exactly when it is one of the allowed values. Every rejection
      carries the allowed values unless the schema map is empty. */
  function CheckMetadataPrefix(prefix: ParameterValue, m: SchemaUrlMap, catalogue: Catalogue): (r: Outcome<PrefixError>)
    ensures r.Pass? <==> !Blank(prefix) && prefix.value in AllowedValues(m, catalogue)
    ensures Blank(prefix) ==> r.Fail? && r.error.kind == NoMetadataPrefix
    ensures !Blank(prefix) && |m| == 0 ==> r.Fail? && r.error.kind == NoHostUrl
    ensures !Blank(prefix) && |m| != 0 && prefix.value !in m ==>
              r.Fail? && r.error.kind == RepositoryUnsupported(prefix.value)
    ensures !Blank(prefix) && prefix.value in m && m[prefix.value] !in catalogue ==>
              r.Fail? && r.error.kind == HarvesterUnsupported(prefix.value)
    ensures r.Fail? && |m| == 0 ==> r.error.allowedValues.None?
    ensures r.Fail? && |m| != 0 ==> r.error.allowedValues == Some(AllowedValues(m, catalogue))
  {
    var kind :=
      if Blank(prefix) then Some(NoMetadataPrefix)
      else if |m| == 0 then Some(NoHostUrl)
      else if prefix.value !in m then Some(RepositoryUnsupported(prefix.value))
      else if m[prefix.value] !in catalogue then Some(HarvesterUnsupported(prefix.value))
      else None;
    match kind
    case None => Pass
    case Some(k) => Fail(PrefixError(k, if |m| == 0 then None else Some(AllowedValues(m, catalogue))))
  }

  /** Every non-empty prefix the suggestion of a rejection lists would itself be
      accepted; an advertised empty prefix is listed but can never be accepted. */
  lemma SuggestedPrefixesPass(prefix: ParameterValue, m: SchemaUrlMap, catalogue: Catalogue, p: string)
    requires CheckMetadataPrefix(prefix, m, catalogue).Fail?
    requires CheckMetadataPrefix(prefix, m, catalogue).error.allowedValues.Some?
    requires p in CheckMetadataPrefix(prefix, m, catalogue).error.allowedValues.value
    ensures |p| != 0 ==> CheckMetadataPrefix(Some(p), m, catalogue).Pass?
    ensures |p| == 0 ==> CheckMetadataPrefix(Some(p), m, catalogue).error.kind == NoMetadataPrefix
  {
  }

  /** The mapping function of the metadata-prefix parameter: an accepted value is
      returned unchanged, a rejected one raises the validation error. */
  function MapStringToMetadataPrefix(prefix: ParameterValue, m: SchemaUrlMap, catalogue: Catalogue)
    : (r: Result<string, PrefixError>)
    ensures r.Success? <==> CheckMetadataPrefix(prefix, m, catalogue).Pass?
    ensures r.Success? ==> prefix == Some(r.value) && r.value in m && m[r.value] in catalogue
    ensures r.Failure? ==> Fail(r.error) == CheckMetadataPrefix(prefix, m, catalogue)
  {
    match CheckMetadataPrefix(prefix, m, catalogue)
    case Fail(e) => Failure(e)
    case Pass => Success(prefix.value)
  }

  /** The transformer a prefix binds to: the catalogue's product for the prefix's
      schema URL when the prefix passes validation, otherwise none. */
  function Binding(prefix: ParameterValue, m: SchemaUrlMap, catalogue: Catalogue): (t: Option<TransformerKind>)
    ensures t.Some? <==> !Blank(prefix) && prefix.value in AllowedValues(m, catalogue)
    ensures t.Some? ==> t.value == catalogue[m[prefix.value]]
  {
    match CheckMetadataPrefix(prefix, m, catalogue)
    case Pass => Some(catalogue[m[prefix.value]])
    case Fail(_) => None
  }

  // ---------------------------------------------------------------------------
  // Request URLs
  // ---------------------------------------------------------------------------

  /** The `ListMetadataFormats` request URL; fails when no host URL is set. On
      success the host URL sits, unchanged, between the pattern's two pieces. */
  function GetMetadataFormatsUrl(params: Parameters, urls: UrlConstants): (r: Result<string, PrefixErrorKind>)
    ensures r.Failure? <==> Blank(params.hostUrl)
    ensures r.Failure? ==> r.error == NoHostUrl
    ensures r.Success? ==>
              var p := urls.metadataFormatsUrl;
              && |r.value| == |p.before| + |params.hostUrl.value| + |p.after|
              && r.value[..|p.before|] == p.before
              && r.value[|p.before|..|r.value| - |p.after|] == params.hostUrl.value
              && r.value[|r.value| - |p.after|..] == p.after
  {
    if Blank(params.hostUrl) then Failure(NoHostUrl)
    else Success(urls.metadataFormatsUrl.Format(params.hostUrl.value))
  }

  /** A query segment: the key followed by the value, or nothing for a blank value. */
  function OptionalSegment(key: string, v: ParameterValue): (s: string)
    ensures Blank(v) ==> s == ""
    ensures !Blank(v) ==> |s| == |key| + |v.value| && s[..|key|] == key && s[|key|..] == v.value
  {
    if Blank(v) then "" else key + v.value
  }

  /** The query part of a `ListRecords` request: the optional `from` bound, the
      optional `until` bound and the metadata prefix, in this order. */
  function ListRecordsQuery(params: Parameters, urls: UrlConstants): (q: string)
    requires !Blank(params.metadataPrefix)
    ensures var f, u := OptionalSegment(urls.dateFromQuery, params.from), OptionalSegment(urls.dateToQuery, params.until);
            var last := urls.metadataPrefixQuery + params.metadataPrefix.value;
            && |q| == |f| + |u| + |last|
            && q[..|f|] == f
            && q[|f|..|f| + |u|] == u
            && q[|f| + |u|..] == last
    ensures Blank(params.from) && Blank(params.until) ==>
              q == urls.metadataPrefixQuery + params.metadataPrefix.value
  {
    OptionalSegment(urls.dateFromQuery, params.from)
    + OptionalSegment(urls.dateToQuery, params.until)
    + urls.metadataPrefixQuery + params.metadataPrefix.value
  }

  /** `null` and the empty string are interchangeable for the optional bounds. */
  lemma NullAndEmptyBoundsAgree(params: Parameters, urls: UrlConstants)
    requires !Blank(params.metadataPrefix)
    ensures ListRecordsQuery(params.(from := None), urls) == ListRecordsQuery(params.(from := Some("")), urls)
    ensures ListRecordsQuery(params.(until := None), urls) == ListRecordsQuery(params.(until := Some("")), urls)
  {
  }

  /** The `ListRecords` request URL. A missing host URL is reported before a
      missing metadata prefix; the bounds are optional. */
  function GetListRecordsUrl(params: Parameters, urls: UrlConstants): (r: Result<string, PrefixErrorKind>)
    ensures r.Success? <==> !Blank(params.hostUrl) && !Blank(params.metadataPrefix)
    ensures Blank(params.hostUrl) ==> r == Failure(NoHostUrl)
    ensures !Blank(params.hostUrl) && Blank(params.metadataPrefix) ==> r == Failure(NoMetadataPrefix)
    ensures r.Success? ==>
              r.value == urls.listRecordsUrl.Format(params.hostUrl.value, ListRecordsQuery(params, urls))
  {
    if Blank(params.hostUrl) then Failure(NoHostUrl)
    else if Blank(params.metadataPrefix) then Failure(NoMetadataPrefix)
    else Success(urls.listRecordsUrl.Format(params.hostUrl.value, ListRecordsQuery(params, urls)))
  }

  // ---------------------------------------------------------------------------
  // Schema map
  // ---------------------------------------------------------------------------

  /** The prefixes a list of format entries advertises. */
  function AdvertisedPrefixes(formats: seq<FormatEntry>): set<string>
  {
    set i | 0 <= i < |formats| && formats[i].prefix.Some? :: formats[i].prefix.value
  }

  predicate Complete(e: FormatEntry)
  {
    e.prefix.Some? && e.schema.Some?
  }

  /** No entry after position `i` advertises the same prefix. */
  predicate LastWithPrefix(formats: seq<FormatEntry>, i: nat)
    requires i < |formats|
  {
    forall j :: i < j < |formats| ==> formats[j].prefix != formats[i].prefix
  }

  /** The map-building loop: each advertised (prefix, schema) pair is put in order,
      so the keys are exactly the advertised prefixes (which value wins is the
      subject of `LaterEntryOverwrites`). An entry lacking either element aborts. */
  function SchemaUrlMapFrom(formats: seq<FormatEntry>): (r: Result<SchemaUrlMap, EtlError>)
    ensures r.Success? <==> forall i :: 0 <= i < |formats| ==> Complete(formats[i])
    ensures r.Success? ==> r.value.Keys == AdvertisedPrefixes(formats)
    decreases |formats|
  {
    if |formats| == 0 then Success(map[])
    else
      var init := formats[..|formats| - 1];
      var last := formats[|formats| - 1];
      assert forall i :: 0 <= i < |init| ==> init[i] == formats[i];
      match SchemaUrlMapFrom(init)
      case Failure(e) => Failure(e)
      case Success(m) =>
        if !Complete(last) then Failure(MissingFormatElement)
        else
          assert AdvertisedPrefixes(formats) == AdvertisedPrefixes(init) + {last.prefix.value};
          Success(m[last.prefix.value := last.schema.value])
  }

  /** A later advertisement of the same prefix overwrites an earlier one: each
      prefix maps to the schema of its last entry. */
  lemma {:induction false} LaterEntryOverwrites(formats: seq<FormatEntry>, i: nat)
    requires SchemaUrlMapFrom(formats).Success?
    requires i < |formats| && LastWithPrefix(formats, i)
    ensures formats[i].prefix.Some? && formats[i].schema.Some?
    ensures formats[i].prefix.value in SchemaUrlMapFrom(formats).value
    ensures SchemaUrlMapFrom(formats).value[formats[i].prefix.value] == formats[i].schema.value
    decreases |formats|
  {
    var init := formats[..|formats| - 1];
    assert forall k :: 0 <= k < |init| ==> init[k] == formats[k];
    if i < |formats| - 1 {
      assert LastWithPrefix(init, i);
      LaterEntryOverwrites(init, i);
    }
  }

  /** The number of requests `CreateSchemaUrlMap` sends: none without a host URL. */
  function RequestsFor(params: Parameters): (n: nat)
    ensures n <= 1
  {
    if Blank(params.hostUrl) then 0 else 1
  }

  /** Builds the schema map of the configured repository, sending request number
      `n`. A blank host URL (no request is sent) or a failed request yields an
      empty map (`OaiPmhETL` logs and recovers); an advertised entry without
      prefix or schema raises `MissingFormatElement`. */
  function CreateSchemaUrlMap(params: Parameters, env: Environment, n: nat): (r: Result<SchemaUrlMap, EtlError>)
    ensures Blank(params.hostUrl) ==> r == Success(map[]) && RequestsFor(params) == 0
    ensures !Blank(params.hostUrl) ==>
              var answer := env.fetch(env.urls.metadataFormatsUrl.Format(params.hostUrl.value), n);
              && (answer.FetchFailed? ==> r == Success(map[]))
              && (answer.Fetched? ==> r == SchemaUrlMapFrom(answer.formats))
              && RequestsFor(params) == 1
    ensures r.Success? && |r.value| != 0 ==> !Blank(params.hostUrl)
  {
    match GetMetadataFormatsUrl(params, env.urls)
    case Failure(_) => Success(map[])
    case Success(url) =>
      match env.fetch(url, n)
      case FetchFailed => Success(map[])
      case Fetched(formats) => SchemaUrlMapFrom(formats)
  }

  /** The map a request leaves behind when its exception is caught: the built map,
      or the empty map that was there before. */
  function MapOrEmpty(r: Result<SchemaUrlMap, EtlError>): (m: SchemaUrlMap)
    ensures r.Success? ==> m == r.value
    ensures r.Failure? ==> m == map[]
  {
    match r
    case Success(m) => m
    case Failure(_) => map[]
  }

  // ---------------------------------------------------------------------------
  // Transformer creation and parameter changes
  // ---------------------------------------------------------------------------

  /** The state invariant: the bound transformer is the one the current prefix
      and schema map call for. */
  predicate Consistent(s: EtlState, catalogue: Catalogue)
  {
    s.transformer == Binding(s.params.metadataPrefix, s.schemaUrlMap, catalogue)
  }

  /** `createTransformer`: rebuilds the schema map only when it is empty, then
      binds the transformer for the configured prefix, or `null` when the prefix is
      rejected. An exception while rebuilding is caught: the map stays as it was
      (empty) and no transformer is bound. */
  function CreateTransformer(s: EtlState, env: Environment): (r: EtlState)
    ensures r.params == s.params
    ensures |s.schemaUrlMap| != 0 ==> r.schemaUrlMap == s.schemaUrlMap && r.requestsSent == s.requestsSent
    ensures |s.schemaUrlMap| == 0 ==>
              && r.schemaUrlMap == MapOrEmpty(CreateSchemaUrlMap(s.params, env, s.requestsSent))
              && r.requestsSent == s.requestsSent + RequestsFor(s.params)
    ensures r.transformer.Some? <==> CheckMetadataPrefix(s.params.metadataPrefix, r.schemaUrlMap, env.catalogue).Pass?
    ensures r.transformer.Some? ==>
              r.transformer.value == env.catalogue[r.schemaUrlMap[s.params.metadataPrefix.value]]
    ensures Consistent(r, env.catalogue)
  {
    if |s.schemaUrlMap| != 0 then
      s.(transformer := Binding(s.params.metadataPrefix, s.schemaUrlMap, env.catalogue))
    else
      var sent := s.requestsSent + RequestsFor(s.params);
      match CreateSchemaUrlMap(s.params, env, s.requestsSent)
      case Failure(_) => s.(transformer := None, requestsSent := sent)
      case Success(m) => EtlState(s.params, m, Binding(s.params.metadataPrefix, m, env.catalogue), sent)
  }

  /** The state after a parameter change, and the exception the change raised. */
  datatype ChangeResult = ChangeResult(state: EtlState, raised: Option<EtlError>)

  /** `onParameterChanged`, called after a parameter took its new value. A prefix
      change re-binds the transformer. A host-URL change rebuilds the schema map
      and then re-binds; when the fresh map is empty, the re-binding requests the
      formats a second time. An exception from the first rebuild escapes before
      the map is assigned, so the previous repository's map and transformer stay
      bound. Any other change leaves the state alone. */
  function OnParameterChanged(s: EtlState, key: ParameterKey, env: Environment): (r: ChangeResult)
    ensures key != MetadataPrefixKey && key != HostUrlKey ==> r == ChangeResult(s, None)
    ensures key == MetadataPrefixKey ==> r == ChangeResult(CreateTransformer(s, env), None)
    ensures key == MetadataPrefixKey && |s.schemaUrlMap| != 0 ==> r.state.schemaUrlMap == s.schemaUrlMap
    ensures key == HostUrlKey ==>
              var first := CreateSchemaUrlMap(s.params, env, s.requestsSent);
              var n := RequestsFor(s.params);
              && (r.raised.None? <==> first.Success?)
              && (first.Failure? ==> r.state == s.(requestsSent := s.requestsSent + n))
              && (first.Success? && |first.value| != 0 ==>
                    r.state.schemaUrlMap == first.value && r.state.requestsSent == s.requestsSent + n)
              && (first.Success? && |first.value| == 0 ==>
                    && r.state.schemaUrlMap == MapOrEmpty(CreateSchemaUrlMap(s.params, env, s.requestsSent + n))
                    && r.state.requestsSent == s.requestsSent + 2 * n)
    ensures r.state.params == s.params
    ensures r.raised.None? && key in {MetadataPrefixKey, HostUrlKey} ==> Consistent(r.state, env.catalogue)
  {
    match key
    case MetadataPrefixKey => ChangeResult(CreateTransformer(s, env), None)
    case HostUrlKey =>
      var sent := s.requestsSent + RequestsFor(s.params);
      (match CreateSchemaUrlMap(s.params, env, s.requestsSent)
       case Failure(e) => ChangeResult(s.(requestsSent := sent), Some(e))
       case Success(m) => ChangeResult(CreateTransformer(s.(schemaUrlMap := m, requestsSent := sent), env), None))
    case _ => ChangeResult(s, None)
  }

  /** A change of any parameter keeps a consistent state consistent, whether or
      not the change raised. */
  lemma ParameterChangeKeepsConsistency(s: EtlState, key: ParameterKey, env: Environment)
    requires Consistent(s, env.catalogue)
    ensures Consistent(OnParameterChanged(s, key, env).state, env.catalogue)
  {
  }

  /** A host-URL change that does not raise does not depend on the previous map
      or transformer: with the same parameters and request count, it ends in the
      same state. */
  lemma HostUrlChangeForgetsOldMap(s1: EtlState, s2: EtlState, env: Environment)
    requires s1.params == s2.params && s1.requestsSent == s2.requestsSent
    requires OnParameterChanged(s1, HostUrlKey, env).raised.None?
    ensures OnParameterChanged(s2, HostUrlKey, env).raised.None?
    ensures OnParameterChanged(s1, HostUrlKey, env) == OnParameterChanged(s2, HostUrlKey, env)
  {
  }

  /** A host-URL change that raises keeps the previous repository's non-empty map
      and transformer under the new host URL; a prefix change made afterwards is
      then validated against that stale map, since only an empty map is rebuilt. */
  lemma RaisingHostUrlChangeKeepsStaleMap(s: EtlState, env: Environment, prefix: ParameterValue)
    requires |s.schemaUrlMap| != 0
    requires OnParameterChanged(s, HostUrlKey, env).raised.Some?
    ensures var t := OnParameterChanged(s, HostUrlKey, env).state;
            && t.schemaUrlMap == s.schemaUrlMap && t.transformer == s.transformer
            && OnParameterChanged(t.(params := t.params.(metadataPrefix := prefix)), MetadataPrefixKey, env).state.transformer
               == Binding(prefix, s.schemaUrlMap, env.catalogue)
  {
  }

  /** A transient failure is not final: when the first `ListMetadataFormats`
      request of a host-URL change fails and the second one, sent while
      re-binding, advertises formats, the change ends with the second answer's map. */
  lemma SecondRequestRecoversFromTransientFailure(s: EtlState, env: Environment, formats: seq<FormatEntry>)
    requires !Blank(s.params.hostUrl)
    requires var url := env.urls.metadataFormatsUrl.Format(s.params.hostUrl.value);
             env.fetch(url, s.requestsSent) == FetchFailed && env.fetch(url, s.requestsSent + 1) == Fetched(formats)
    requires SchemaUrlMapFrom(formats).Success?
    ensures var r := OnParameterChanged(s, HostUrlKey, env);
            && r.raised.None?
            && r.state.schemaUrlMap == SchemaUrlMapFrom(formats).value
            && r.state.transformer == Binding(s.params.metadataPrefix, SchemaUrlMapFrom(formats).value, env.catalogue)
  {
  }

  /** A repository advertising `oai_dc` and `iso19139`, both in the catalogue:
      `iso19139` binds the ISO 19139 transformer, while `bogus` is rejected as
      unsupported by the repository, with both advertised prefixes suggested. */
  lemma TwoFormatRepository()
    ensures var dc, iso := "http://www.openarchives.org/OAI/2.0/oai_dc/", "http://www.isotc211.org/2005/gmd";
            var m := map["oai_dc" := dc, "iso19139" := iso];
            var catalogue := map[dc := DublinCoreTransformer, iso := Iso19139Transformer];
            && Binding(Some("iso19139"), m, catalogue) == Some(Iso19139Transformer)
            && CheckMetadataPrefix(Some("bogus"), m, catalogue)
               == Fail(PrefixError(RepositoryUnsupported("bogus"), Some({"oai_dc", "iso19139"})))
  {
    var dc, iso := "http://www.openarchives.org/OAI/2.0/oai_dc/", "http://www.isotc211.org/2005/gmd";
    var m := map["oai_dc" := dc, "iso19139" := iso];
    var catalogue := map[dc := DublinCoreTransformer, iso := Iso19139Transformer];
    assert "bogus" != "oai_dc" && "bogus" != "iso19139";
    assert AllowedValues(m, catalogue) == {"oai_dc", "iso19139"};
  }
}
