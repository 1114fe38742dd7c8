/** The exceptions the filter and the query engine throw, one constructor per distinct cause. */
module Errors {

  datatype Error =
    // filter construction (src/Auth/Process/AttributeAggregator.php)
    | EntityIdNotSpecified
    | EntityIdNotFound
    | InvalidAttributeId
    | InvalidNameIdFormat
    | InvalidAttributesConfig
    | InvalidMultiSource
    | InvalidAttributeNameFormat
    // filter processing
    | KeyAttributeMissing
    // query engine (public/attributequery.php)
    | MetadataNotFound
    | AttributeServiceInvalid
    | EndpointNotFound
    | SigningKeyMissing
    | TransportFailure(reason: string)
    | QueryFailed(cause: Error)
    | MissingIssuer
    | ResponseRejected(reason: string)
}
