/** Classification of a source and sink filter pair. */
module MessageType {
  import opened Common
  import opened Uris

  datatype RegistrationType = Publish | Request | Response | AllPointToPoint

  /** One side of the streamer condition: fixed authority, everything else a wildcard. */
  predicate FixedAuthorityOnly(uri: UUri) {
    && !uri.HasWildcardAuthority()
    && uri.HasWildcardEntityType()
    && uri.HasWildcardEntityInstance()
    && uri.HasWildcardVersion()
    && uri.HasWildcardResource()
  }

  /** The streamer condition on one URI, spelled out. */
  predicate IsStreamer(uri: UUri) {
    uri.authority != "*" && uri.ueId == 0xFFFF_FFFF && uri.version == 0xFF && uri.resource == 0xFFFF
  }

  /**
   Without a sink, a publication; between two streamer filters, all point-to-point messages; otherwise the
   sink's resource decides, 0 being where responses go.
   */
  function DetermineType(source: UUri, sink: Option<UUri>): (kind: RegistrationType)
    ensures kind == Publish <==> sink.None?
    ensures kind == AllPointToPoint <==> sink.Some? && IsStreamer(source) && IsStreamer(sink.value)
    ensures kind == Response <==> sink.Some? && sink.value.resource == 0
    ensures kind == Request
            <==> sink.Some? && sink.value.resource != 0 && !(IsStreamer(source) && IsStreamer(sink.value))
  {
    match sink
    case None => Publish
    case Some(uri) =>
      if FixedAuthorityOnly(source) && FixedAuthorityOnly(uri) then AllPointToPoint
      else if uri.resource == 0 then Response
      else Request
  }

  /** The streamer condition is symmetric, so a message that is not point-to-point stays so when answered. */
  lemma SwapKeepsReleasable(source: UUri, sink: UUri)
    ensures DetermineType(source, Some(sink)) == AllPointToPoint
            <==> DetermineType(sink, Some(source)) == AllPointToPoint
    ensures DetermineType(source, Some(sink)) == AllPointToPoint ==> source.resource == sink.resource == ANY_RESOURCE
  {
  }

  /** The answer to a request, its filters swapped, is of type Response exactly if the asker's resource is 0. */
  lemma SwappedIsResponse(source: UUri, sink: UUri)
    requires DetermineType(source, Some(sink)) == Request
    ensures DetermineType(sink, Some(source)) == Response <==> source.resource == 0
    ensures DetermineType(sink, Some(source)) == Request <==> source.resource != 0
  {
    SwapKeepsReleasable(source, sink);
  }

  /** The per-service filters of the point-to-point loops are always of type Request. */
  lemma AnySourceIsRequest(authority: string, ueId: U32)
    ensures DetermineType(ANY_UURI, Some(AnyUuriFixedAuthorityId(authority, ueId))) == Request
  {
  }
}
